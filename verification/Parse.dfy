/**
 Message-ID extraction and thread candidates (internal/parse/threading.go).
 */
module Parse {
  import opened Text

  // ---------- ExtractIDs ----------

  /** What the regular expression `<([^>]+)>` captures from position i on, leftmost match first. */
  function AngleGroups(s: string, i: nat): (r: seq<string>)
    requires i <= |s|
    decreases |s| - i
  {
    if i == |s| then [] else if s[i] != '<' then AngleGroups(s, i + 1) else
      var j := IndexFrom(s, '>', i + 1);
      if j == |s| then []
      else if j == i + 1 then AngleGroups(s, i + 1)
      else [s[i + 1..j]] + AngleGroups(s, j + 1)
  }

  function TrimmedNonEmpty(groups: seq<string>): seq<string>
  {
    if groups == [] then [] else
      var init := TrimmedNonEmpty(groups[..|groups| - 1]);
      var v := TrimSpace(groups[|groups| - 1]);
      if v != "" then init + [v] else init
  }

  predicate IsAngle(c: char) {
    c == '<' || c == '>'
  }

  function BareIds(words: seq<string>): seq<string>
  {
    if words == [] then [] else
      var init := BareIds(words[..|words| - 1]);
      var v := Trim(words[|words| - 1], IsAngle);
      if v != "" && '@' in v then init + [v] else init
  }

  /** The ids of a header value: the bracketed ones, or else the bare words holding an at sign. */
  function Ids(s: string): seq<string>
  {
    var bracketed := TrimmedNonEmpty(AngleGroups(s, 0));
    if s == "" then [] else if bracketed != [] then bracketed else BareIds(Fields(s))
  }

  lemma {:induction false} TrimmedNonEmptyHasNoEmpty(groups: seq<string>)
    ensures "" !in TrimmedNonEmpty(groups)
  {
    if groups != [] {
      TrimmedNonEmptyHasNoEmpty(groups[..|groups| - 1]);
    }
  }

  lemma {:induction false} BareIdsHaveNoEmpty(words: seq<string>)
    ensures "" !in BareIds(words)
  {
    if words != [] {
      BareIdsHaveNoEmpty(words[..|words| - 1]);
    }
  }

  lemma IdsHaveNoEmpty(s: string)
    ensures "" !in Ids(s)
  {
    TrimmedNonEmptyHasNoEmpty(AngleGroups(s, 0));
    BareIdsHaveNoEmpty(Fields(s));
  }

  method ExtractIDs(s: string) returns (out: seq<string>)
    ensures out == Ids(s)
  {
    if s == "" {
      return [];
    }
    out := [];
    var groups := AngleGroups(s, 0);
    for i := 0 to |groups|
      invariant out == TrimmedNonEmpty(groups[..i])
    {
      assert groups[..i + 1][..i] == groups[..i];
      var v := TrimSpace(groups[i]);
      if v != "" {
        out := out + [v];
      }
    }
    assert groups[..|groups|] == groups;
    if |out| == 0 {
      var words := Fields(s);
      for i := 0 to |words|
        invariant out == BareIds(words[..i])
      {
        assert words[..i + 1][..i] == words[..i];
        var tok := Trim(words[i], IsAngle);
        if tok != "" && '@' in tok {
          out := out + [tok];
        }
      }
      assert words[..|words|] == words;
    }
  }

  /** A header value that lists ids the way RFC 5322 section 3.6.4 writes them. */
  function HeaderOf(ids: seq<string>): string {
    if ids == [] then "" else "<" + ids[0] + "> " + HeaderOf(ids[1..])
  }

  /** An id that survives bracketing: not empty, no closing bracket, no white space at its ends. */
  predicate CleanId(id: string) {
    id != "" && '>' !in id && TrimSpace(id) == id
  }

  lemma IndexFromIs(s: string, c: char, i: nat, j: nat)
    requires i <= j < |s| && s[j] == c && forall k :: i <= k < j ==> s[k] != c
    ensures IndexFrom(s, c, i) == j
  {
  }

  /** The scan reads one bracketed id and goes on behind it. */
  lemma FirstGroup(before: string, id: string, rest: string)
    requires CleanId(id)
    ensures var front := before + "<" + id + "> ";
            AngleGroups(front + rest, |before|) == [id] + AngleGroups(front + rest, |front|)
  {
    var s := before + "<" + id + "> " + rest;
    var i := |before|;
    var j := i + 1 + |id|;
    assert s[i] == '<' && s[j] == '>' && s[j + 1] == ' ';
    assert s[i + 1..j] == id;
    forall k | i + 1 <= k < j
      ensures s[k] != '>'
    {
      assert s[k] == s[i + 1..j][k - i - 1] == id[k - i - 1] && id[k - i - 1] in id;
    }
    IndexFromIs(s, '>', i + 1, j);
    assert AngleGroups(s, j + 1) == AngleGroups(s, j + 2);
  }

  lemma {:induction false} AngleGroupsOfHeader(before: string, ids: seq<string>)
    requires forall id :: id in ids ==> CleanId(id)
    ensures AngleGroups(before + HeaderOf(ids), |before|) == ids
    decreases |ids|
  {
    var s := before + HeaderOf(ids);
    if ids != [] {
      var id := ids[0];
      assert CleanId(id);
      var front := before + "<" + id + "> ";
      assert s == front + HeaderOf(ids[1..]);
      FirstGroup(before, id, HeaderOf(ids[1..]));
      AngleGroupsOfHeader(front, ids[1..]);
    }
  }

  lemma {:induction false} TrimmedNonEmptyOfClean(ids: seq<string>)
    requires forall id :: id in ids ==> CleanId(id)
    ensures TrimmedNonEmpty(ids) == ids
  {
    if ids != [] {
      var init, id := ids[..|ids| - 1], ids[|ids| - 1];
      TrimmedNonEmptyOfClean(init);
      assert CleanId(id);
      assert ids == init + [id];
    }
  }

  /** Writing ids into a header and extracting them gives them back, in order. */
  lemma ExtractInvertsHeader(ids: seq<string>)
    requires forall id :: id in ids ==> CleanId(id)
    ensures Ids(HeaderOf(ids)) == ids
  {
    AngleGroupsOfHeader("", ids);
    assert "" + HeaderOf(ids) == HeaderOf(ids);
    TrimmedNonEmptyOfClean(ids);
  }

  /** Bare words, a blank behind each. */
  function WordsOf(words: seq<string>): string {
    if words == [] then "" else words[0] + " " + WordsOf(words[1..])
  }

  /** A word without blanks and brackets. */
  predicate BareWord(word: string) {
    word != "" && forall c :: c in word ==> !IsSpace(c) && !IsAngle(c)
  }

  lemma {:induction false} WordLengthIs(word: string, rest: string)
    requires forall c :: c in word ==> !IsSpace(c)
    ensures WordLength(word + " " + rest) == |word|
  {
    var s := word + " " + rest;
    if word != "" {
      assert word[0] in word;
      assert s[1..] == word[1..] + " " + rest;
      WordLengthIs(word[1..], rest);
    }
  }

  lemma {:induction false} FieldsOfWords(words: seq<string>)
    requires forall w :: w in words ==> BareWord(w)
    ensures Fields(WordsOf(words)) == words && Fields(" " + WordsOf(words)) == words
  {
    var s := WordsOf(words);
    assert (" " + s)[1..] == s;
    if words != [] {
      var w, rest := words[0], WordsOf(words[1..]);
      assert BareWord(w) && w[0] in w && s[0] == w[0];
      WordLengthIs(w, rest);
      assert s[..|w|] == w && s[|w|..] == " " + rest;
      FieldsOfWords(words[1..]);
    }
  }

  lemma {:induction false} NoGroups(s: string, i: nat)
    requires i <= |s| && '<' !in s
    ensures AngleGroups(s, i) == []
    decreases |s| - i
  {
    if i < |s| {
      assert s[i] in s;
      NoGroups(s, i + 1);
    }
  }

  lemma {:induction false} WordsHaveNoAngle(words: seq<string>)
    requires forall w :: w in words ==> BareWord(w)
    ensures '<' !in WordsOf(words)
  {
    if words != [] {
      assert BareWord(words[0]);
      WordsHaveNoAngle(words[1..]);
    }
  }

  lemma {:induction false} BareIdsOfWords(words: seq<string>)
    requires forall w :: w in words ==> BareWord(w)
    ensures forall w :: w in BareIds(words) <==> w in words && '@' in w
    ensures (forall w :: w in words ==> '@' in w) ==> BareIds(words) == words
  {
    if words != [] {
      var init, w := words[..|words| - 1], words[|words| - 1];
      assert BareWord(w) && w[0] in w && w[|w| - 1] in w;
      TrimFixpoint(w, IsAngle);
      BareIdsOfWords(init);
      assert words == init + [w];
    }
  }

  /** Of a header of bare words exactly those with an at sign are ids; if all have one, they are the ids in order. */
  lemma ExtractBareWords(words: seq<string>)
    requires forall w :: w in words ==> BareWord(w)
    ensures forall w :: w in Ids(WordsOf(words)) <==> w in words && '@' in w
    ensures (forall w :: w in words ==> '@' in w) ==> Ids(WordsOf(words)) == words
  {
    FieldsOfWords(words);
    WordsHaveNoAngle(words);
    NoGroups(WordsOf(words), 0);
    BareIdsOfWords(words);
    assert words != [] ==> words[0] in words && BareWord(words[0]);
  }

  // ---------- ThreadCandidates ----------

  /** The non-empty elements of s, each at its first occurrence only. */
  function FirstOccurrences(s: seq<string>): seq<string> {
    if s == [] then [] else
      var init := FirstOccurrences(s[..|s| - 1]);
      var c := s[|s| - 1];
      if c == "" || c in init then init else init + [c]
  }

  /**
   Filters a in place, as `uniq := cands[:0]` with `append` does: the writes stay behind the reads,
   and the first n cells end up holding the first occurrences.
   */
  method Dedup(a: array<string>) returns (n: nat)
    modifies a
    ensures n <= a.Length
    ensures a[..n] == FirstOccurrences(old(a[..]))
  {
    var seen: set<string> := {};
    n := 0;
    var i := 0;
    while i < a.Length
      invariant n <= i <= a.Length
      invariant forall k :: i <= k < a.Length ==> a[k] == old(a[k])
      invariant a[..n] == FirstOccurrences(old(a[..i]))
      invariant forall c :: c in seen <==> c in a[..n]
    {
      var c := a[i];
      assert c == old(a[i]);
      ghost var kept := a[..n];
      assert old(a[..i + 1])[..i] == old(a[..i]);
      if !(c == "" || c in seen) {
        seen := seen + {c};
        a[n] := c;
        n := n + 1;
        assert a[..n] == kept + [c];
      }
      i := i + 1;
    }
    assert old(a[..i]) == old(a[..]);
  }

  method DedupList(cands: seq<string>) returns (uniq: seq<string>)
    ensures uniq == FirstOccurrences(cands)
  {
    var a := new string[|cands|](i requires 0 <= i < |cands| => cands[i]);
    assert a[..] == cands;
    var n := Dedup(a);
    uniq := a[..n];
  }

  /** The list that ThreadCandidates filters, from the ids of the two headers. */
  function RawList(messageId: string, irt: seq<string>, refs: seq<string>): seq<string> {
    (if |refs| > 0 then [refs[0]] else [])
    + (if |irt| > 0 then [irt[0]] else [])
    + refs + irt
    + (if messageId != "" then [TrimId(messageId)] else [])
  }

  function RawCandidates(messageId: string, inReplyTo: string, references: string): seq<string> {
    RawList(messageId, Ids(inReplyTo), Ids(references))
  }

  predicate IsIdPadding(c: char) {
    c == '<' || c == '>' || c == ' '
  }

  /** strings.Trim(messageID, "<> ") */
  function TrimId(messageId: string): string {
    Trim(messageId, IsIdPadding)
  }

  function Candidates(messageId: string, inReplyTo: string, references: string): seq<string> {
    FirstOccurrences(RawCandidates(messageId, inReplyTo, references))
  }

  method ThreadCandidates(messageId: string, inReplyTo: string, references: string) returns (uniq: seq<string>)
    ensures uniq == Candidates(messageId, inReplyTo, references)
  {
    var cands: seq<string> := [];
    var refs := ExtractIDs(references);
    if |refs| > 0 {
      cands := cands + [refs[0]];
    }
    var irt := ExtractIDs(inReplyTo);
    if |irt| > 0 {
      cands := cands + [irt[0]];
    }
    assert cands == (if |refs| > 0 then [refs[0]] else []) + (if |irt| > 0 then [irt[0]] else []);
    cands := cands + refs + irt;
    if messageId != "" {
      cands := cands + [TrimId(messageId)];
    }
    assert cands == RawList(messageId, irt, refs);
    uniq := DedupList(cands);
  }

  predicate NoDuplicates(s: seq<string>) {
    forall i, j :: 0 <= i < j < |s| ==> s[i] != s[j]
  }

  /** r lists the elements of s in the order in which they first occur there. */
  ghost predicate InFirstOccurrenceOrder(r: seq<string>, s: seq<string>) {
    forall i, j :: 0 <= i < j < |r| && r[i] in s && r[j] in s ==> FirstIndex(s, r[i]) < FirstIndex(s, r[j])
  }

  function FirstIndex(s: seq<string>, c: string): (k: nat)
    requires c in s
    ensures k < |s| && s[k] == c
    ensures c !in s[..k]
  {
    if s[0] == c then 0 else
      assert c in s[1..];
      assert forall k | 0 <= k < |s| - 1 :: s[..k + 1] == [s[0]] + s[1..][..k];
      1 + FirstIndex(s[1..], c)
  }

  lemma {:induction false} FirstIndexOfPrefix(s: seq<string>, c: string, d: string)
    requires c in s
    ensures FirstIndex(s + [d], c) == FirstIndex(s, c)
  {
    if s[0] != c {
      assert (s + [d])[1..] == s[1..] + [d];
      FirstIndexOfPrefix(s[1..], c, d);
    }
  }

  /** The filter keeps each non-empty element once, in the order of first occurrences, and nothing else. */
  lemma {:induction false} FirstOccurrencesCorrect(s: seq<string>)
    ensures var r := FirstOccurrences(s);
            && NoDuplicates(r)
            && (forall c :: c in r <==> c in s && c != "")
            && InFirstOccurrenceOrder(r, s)
  {
    if s != [] {
      var init, c := s[..|s| - 1], s[|s| - 1];
      assert s == init + [c];
      FirstOccurrencesCorrect(init);
      var r := FirstOccurrences(s);
      assert forall x :: x in s <==> x in init || x == c;
      forall i, j | 0 <= i < j < |r|
        ensures FirstIndex(s, r[i]) < FirstIndex(s, r[j])
      {
        assert r[i] in init;
        FirstIndexOfPrefix(init, r[i], c);
        if r[j] in init {
          FirstIndexOfPrefix(init, r[j], c);
        }
      }
    }
  }

  /** The id handleMessage gives a new thread as its root. */
  function RootFor(messageId: string, inReplyTo: string, references: string): string {
    var refs, irt := Ids(references), Ids(inReplyTo);
    if |refs| > 0 then refs[0] else if |irt| > 0 then irt[0] else messageId
  }

  /** What the lookup list holds, in terms of the headers. */
  lemma CandidateMembers(messageId: string, inReplyTo: string, references: string, c: string)
    ensures c in Candidates(messageId, inReplyTo, references)
       <==> c != "" && (c in Ids(references) || c in Ids(inReplyTo) || (messageId != "" && c == TrimId(messageId)))
  {
    FirstOccurrencesCorrect(RawCandidates(messageId, inReplyTo, references));
  }

  /**
   The lookup list holds the root that would be created, except when the message stands alone and its
   own Message-ID is empty or carries brackets or blanks at its ends.
   */
  lemma CandidatesHoldRoot(messageId: string, inReplyTo: string, references: string)
    ensures RootFor(messageId, inReplyTo, references) in Candidates(messageId, inReplyTo, references)
       <==> (Ids(references) != [] || Ids(inReplyTo) != [] || (messageId != "" && TrimId(messageId) == messageId))
  {
    var refs, irt := Ids(references), Ids(inReplyTo);
    var root := RootFor(messageId, inReplyTo, references);
    IdsHaveNoEmpty(references);
    IdsHaveNoEmpty(inReplyTo);
    CandidateMembers(messageId, inReplyTo, references, root);
    assert refs != [] ==> root == refs[0] && refs[0] in refs;
    assert refs == [] && irt != [] ==> root == irt[0] && irt[0] in irt;
  }

  /**
   A failing input: a message that stands alone with its Message-ID in brackets is not looked up by the root it would
   found.
   */
  lemma BracketedIdIsNotLookedUp()
    ensures RootFor("<a@b>", "", "") !in Candidates("<a@b>", "", "")
  {
    TrimFixpoint("<a@b>", IsIdPadding);
    CandidatesHoldRoot("<a@b>", "", "");
    assert Ids("") == [];
  }

  /** The preferred root comes first: the leftmost reference, else the first id replied to, else the message's own. */
  lemma PreferredRootFirst(messageId: string, inReplyTo: string, references: string)
    requires Ids(references) != [] || Ids(inReplyTo) != []
    ensures var cands := Candidates(messageId, inReplyTo, references);
            cands != [] && cands[0] == RootFor(messageId, inReplyTo, references)
  {
    var raw := RawCandidates(messageId, inReplyTo, references);
    FirstOccurrencesCorrect(raw);
    var r := FirstOccurrences(raw);
    IdsHaveNoEmpty(references);
    IdsHaveNoEmpty(inReplyTo);
    assert raw[0] == RootFor(messageId, inReplyTo, references);
    assert Ids(references) != [] ==> raw[0] == Ids(references)[0] && raw[0] in Ids(references);
    assert Ids(references) == [] ==> raw[0] == Ids(inReplyTo)[0] && raw[0] in Ids(inReplyTo);
    assert raw[0] in raw && raw[0] in r;
    var k :| 0 <= k < |r| && r[k] == raw[0];
    assert FirstIndex(raw, raw[0]) == 0;
    assert r[0] in r && r[0] in raw;
    assert k == 0;
  }
}
