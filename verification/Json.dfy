/**
 JSON texts (RFC 8259) and the removal of insignificant white space, as encoding/json's Compact does it.
 A value keeps its literals as written: numbers and string bodies are compared as texts.
 */
module Json {
  import opened Text

  datatype Value =
    | Null
    | True
    | False
    | Number(text: string)
    | String(body: string)
    | Array(items: seq<Value>)
    | Object(members: seq<Member>)

  datatype Member = Member(name: string, value: Value)

  // ---------- grammar ----------

  predicate IsHex(c: char) {
    IsDigit(c) || 'a' <= c <= 'f' || 'A' <= c <= 'F'
  }

  predicate AllDigits(s: string) {
    s != "" && forall i :: 0 <= i < |s| ==> IsDigit(s[i])
  }

  /** RFC 8259 section 6: the integer part. */
  predicate IsInt(s: string) {
    var n := if s != "" && s[0] == '-' then s[1..] else s;
    AllDigits(n) && (n[0] == '0' ==> |n| == 1)
  }

  predicate IsFraction(s: string) {
    s == "" || (s[0] == '.' && AllDigits(s[1..]))
  }

  predicate IsExponent(s: string) {
    s == "" || (|s| > 1 && s[0] in {'e', 'E'} && AllDigits(if s[1] in {'+', '-'} then s[2..] else s[1..]))
  }

  predicate IsNumber(s: string) {
    exists i, j :: 0 <= i <= j <= |s| && IsInt(s[..i]) && IsFraction(s[i..j]) && IsExponent(s[j..])
  }

  predicate IsEscape(c: char) {
    c == '"' || c == '\\' || c == '/' || c == 'b' || c == 'f' || c == 'n' || c == 'r' || c == 't'
  }

  /** RFC 8259 section 7: what may stand between the quotes of a string. */
  predicate IsBody(s: string) {
    if s == "" then true
    else if s[0] == '\\' then
      || (|s| >= 2 && IsEscape(s[1]) && IsBody(s[2..]))
      || (|s| >= 6 && s[1] == 'u' && IsHex(s[2]) && IsHex(s[3]) && IsHex(s[4]) && IsHex(s[5]) && IsBody(s[6..]))
    else s[0] != '"' && s[0] as int >= 0x20 && IsBody(s[1..])
  }

  predicate WellFormed(v: Value) {
    match v
    case Number(text) => IsNumber(text)
    case String(body) => IsBody(body)
    case Array(items) => forall x :: x in items ==> WellFormed(x)
    case Object(members) => forall m :: m in members ==> IsBody(m.name) && WellFormed(m.value)
    case _ => true
  }

  function Quoted(body: string): string {
    "\"" + body + "\""
  }

  /** The tokens of a value: structural characters, strings, and the other literals. */
  function Tokens(v: Value): seq<string>
    decreases v, 1
  {
    match v
    case Null => ["null"]
    case True => ["true"]
    case False => ["false"]
    case Number(text) => [text]
    case String(body) => [Quoted(body)]
    case Array(items) => ["["] + ItemTokens(items) + ["]"]
    case Object(members) => ["{"] + MemberTokens(members) + ["}"]
  }

  function ItemTokens(items: seq<Value>): seq<string>
    decreases items, 0
  {
    if items == [] then [] else
      Tokens(items[0]) + (if |items| > 1 then [","] else []) + ItemTokens(items[1..])
  }

  function MemberTokens(members: seq<Member>): seq<string>
    decreases members, 0
  {
    if members == [] then [] else
      [Quoted(members[0].name),
          ":"] + Tokens(members[0].value) + (if |members| > 1 then [","] else []) + MemberTokens(members[1..])
  }

  predicate IsWs(c: char) {
    c == ' ' || c == '\t' || c == '\n' || c == '\r'
  }

  predicate AllWs(s: string) {
    forall i :: 0 <= i < |s| ==> IsWs(s[i])
  }

  /** The tokens with white space before, between and after them. */
  function Spaced(tokens: seq<string>, gaps: seq<string>): string
    requires |gaps| == |tokens| + 1
  {
    if tokens == [] then gaps[0] else gaps[0] + tokens[0] + Spaced(tokens[1..], gaps[1..])
  }

  ghost predicate Gaps(gaps: seq<string>) {
    forall g :: g in gaps ==> AllWs(g)
  }

  /** s is a JSON text for v: its tokens with any insignificant white space. */
  ghost predicate Renders(v: Value, s: string) {
    exists gaps :: |gaps| == |Tokens(v)| + 1 && Gaps(gaps) && s == Spaced(Tokens(v), gaps)
  }

  ghost predicate IsJson(s: string) {
    exists v :: WellFormed(v) && Renders(v, s)
  }

  function Concat(tokens: seq<string>): string {
    if tokens == [] then "" else tokens[0] + Concat(tokens[1..])
  }

  /** v without any insignificant white space. */
  function Canonical(v: Value): string {
    Concat(Tokens(v))
  }

  // ---------- compaction ----------

  datatype Place = Outside | Inside | AfterBackslash

  /** Drops the white space that stands outside strings. */
  function Squeeze(s: string, at: Place): string {
    if s == "" then "" else
      match at
      case Outside =>
        if IsWs(s[0]) then Squeeze(s[1..], Outside)
        else [s[0]] + Squeeze(s[1..], if s[0] == '"' then Inside else Outside)
      case Inside =>
        [s[0]] + Squeeze(s[1..], if s[0] == '"' then Outside else if s[0] == '\\' then AfterBackslash else Inside)
      case AfterBackslash => [s[0]] + Squeeze(s[1..], Inside)
  }

  lemma {:induction false} SqueezeGap(g: string, rest: string)
    requires AllWs(g)
    ensures Squeeze(g + rest, Outside) == Squeeze(rest, Outside)
  {
    if g == "" {
      assert g + rest == rest;
    } else {
      assert (g + rest)[1..] == g[1..] + rest;
      SqueezeGap(g[1..], rest);
    }
  }

  /** A literal without white space or quotes. */
  predicate IsPlain(t: string) {
    forall i :: 0 <= i < |t| ==> !IsWs(t[i]) && t[i] != '"'
  }

  lemma {:induction false} SqueezePlain(t: string, rest: string)
    requires IsPlain(t)
    ensures Squeeze(t + rest, Outside) == t + Squeeze(rest, Outside)
  {
    if t == "" {
      assert t + rest == rest;
    } else {
      assert (t + rest)[1..] == t[1..] + rest;
      SqueezePlain(t[1..], rest);
      assert t == [t[0]] + t[1..];
    }
  }

  lemma SqueezeTwo(s: string)
    requires |s| >= 2 && s[0] == '\\'
    ensures Squeeze(s, Inside) == [s[0]] + ([s[1]] + Squeeze(s[2..], Inside))
  {
    assert s[1..][1..] == s[2..];
  }

  lemma TwoAndRest(s: string, end: string)
    requires |s| >= 2
    ensures [s[0]] + ([s[1]] + end) == s[..2] + end
  {
  }

  lemma SqueezeEscape(s: string)
    requires |s| >= 2 && s[0] == '\\'
    ensures Squeeze(s, Inside) == s[..2] + Squeeze(s[2..], Inside)
  {
    SqueezeTwo(s);
    TwoAndRest(s, Squeeze(s[2..], Inside));
  }

  /** Characters that neither end the string nor escape are kept one by one. */
  lemma {:induction false} SqueezeOrdinary(s: string, n: nat)
    requires n <= |s| && forall i :: 0 <= i < n ==> s[i] != '"' && s[i] != '\\'
    ensures Squeeze(s, Inside) == s[..n] + Squeeze(s[n..], Inside)
  {
    if n > 0 {
      SqueezeOrdinary(s[1..], n - 1);
      assert s[1..][n - 1..] == s[n..];
      assert s[..n] == [s[0]] + s[1..][..n - 1];
    }
  }

  lemma Glue(b: string, n: nat, end: string, whole: string, out: string)
    requires n <= |b| && whole == b[..n] + out && out == b[n..] + "\"" + end
    ensures whole == b + "\"" + end
  {
    assert b == b[..n] + b[n..];
  }

  lemma CutAt(b: string, n: nat, rest: string)
    requires n <= |b|
    ensures (b + "\"" + rest)[..n] == b[..n] && (b + "\"" + rest)[n..] == b[n..] + "\"" + rest
  {
  }

  lemma SqueezeClosing(rest: string)
    ensures Squeeze("\"" + rest, Inside) == "\"" + Squeeze(rest, Outside)
  {
    assert ("\"" + rest)[1..] == rest;
  }

  lemma {:induction false} SqueezeBody(b: string, rest: string)
    requires IsBody(b)
    ensures Squeeze(b + "\"" + rest, Inside) == b + "\"" + Squeeze(rest, Outside)
  {
    hide Squeeze;
    var s := b + "\"" + rest;
    var end := Squeeze(rest, Outside);
    if b == "" {
      SqueezeClosing(rest);
      assert s == "\"" + rest && b + "\"" + end == "\"" + end;
    } else if b[0] == '\\' {
      CutAt(b, 2, rest);
      SqueezeEscape(s);
      if b[1] == 'u' {
        CutAt(b, 6, rest);
        SqueezeOrdinary(s[2..], 4);
        assert s[2..][4..] == s[6..] && b[..6] == b[..2] + s[2..][..4];
        SqueezeBody(b[6..], rest);
        Glue(b, 6, end, Squeeze(s, Inside), Squeeze(s[6..], Inside));
      } else {
        SqueezeBody(b[2..], rest);
        Glue(b, 2, end, Squeeze(s, Inside), Squeeze(s[2..], Inside));
      }
    } else {
      CutAt(b, 1, rest);
      SqueezeOrdinary(s, 1);
      SqueezeBody(b[1..], rest);
      Glue(b, 1, end, Squeeze(s, Inside), Squeeze(s[1..], Inside));
    }
  }

  predicate IsToken(t: string) {
    IsPlain(t) || (|t| >= 2 && t[0] == '"' && t[|t| - 1] == '"' && IsBody(t[1..|t| - 1]))
  }

  lemma QuotedParts(t: string)
    requires |t| >= 2 && t[0] == '"' && t[|t| - 1] == '"'
    ensures t == Quoted(t[1..|t| - 1])
  {
  }

  lemma SqueezeToken(t: string, rest: string)
    requires IsToken(t)
    ensures Squeeze(t + rest, Outside) == t + Squeeze(rest, Outside)
  {
    if IsPlain(t) {
      SqueezePlain(t, rest);
    } else {
      var b := t[1..|t| - 1];
      QuotedParts(t);
      assert (t + rest)[1..] == b + "\"" + rest;
      SqueezeBody(b, rest);
    }
  }

  lemma {:induction false} SqueezeSpaced(tokens: seq<string>, gaps: seq<string>)
    requires |gaps| == |tokens| + 1 && Gaps(gaps) && forall t :: t in tokens ==> IsToken(t)
    ensures Squeeze(Spaced(tokens, gaps), Outside) == Concat(tokens)
  {
    if tokens == [] {
      assert gaps[0] + "" == gaps[0];
      SqueezeGap(gaps[0], "");
    } else {
      var rest := Spaced(tokens[1..], gaps[1..]);
      assert Spaced(tokens, gaps) == gaps[0] + (tokens[0] + rest);
      SqueezeGap(gaps[0], tokens[0] + rest);
      SqueezeToken(tokens[0], rest);
      SqueezeSpaced(tokens[1..], gaps[1..]);
    }
  }

  // ---------- what tokens look like ----------

  predicate NumberChar(c: char) {
    IsDigit(c) || c in {'-', '+', '.', 'e', 'E'}
  }

  predicate AllNumberChars(s: string) {
    forall i :: 0 <= i < |s| ==> NumberChar(s[i])
  }

  lemma NumberCharsJoin(a: string, b: string)
    requires AllNumberChars(a) && AllNumberChars(b)
    ensures AllNumberChars(a + b)
  {
    hide NumberChar;
  }

  lemma FractionChars(s: string)
    requires IsFraction(s)
    ensures AllNumberChars(s)
  {
    forall k | 0 <= k < |s|
      ensures NumberChar(s[k])
    {
      if k > 0 {
        assert s[k] == s[1..][k - 1];
      }
    }
  }

  lemma NumberChars(s: string)
    requires IsNumber(s)
    ensures s != "" && (s[0] == '-' || IsDigit(s[0])) && AllNumberChars(s)
  {
    hide IsInt, IsFraction, IsExponent, AllNumberChars, IsDigit;
    var i, j :| 0 <= i <= j <= |s| && IsInt(s[..i]) && IsFraction(s[i..j]) && IsExponent(s[j..]);
    PartsChars(s[..i], s[i..j], s[j..]);
    Thirds(s, i, j);
  }

  lemma Thirds(s: string, i: nat, j: nat)
    requires i <= j <= |s|
    ensures s == s[..i] + s[i..j] + s[j..]
  {
  }

  lemma PartsChars(a: string, b: string, c: string)
    requires IsInt(a) && IsFraction(b) && IsExponent(c)
    ensures var s := a + b + c; s != "" && (s[0] == '-' || IsDigit(s[0])) && AllNumberChars(s)
  {
    hide IsInt, IsFraction, IsExponent, AllNumberChars, IsDigit;
    IntChars(a);
    FractionChars(b);
    ExponentChars(c);
    NumberCharsJoin(a, b);
    NumberCharsJoin(a + b, c);
    assert (a + b + c)[0] == a[0];
  }

  lemma IntChars(s: string)
    requires IsInt(s)
    ensures s != "" && (s[0] == '-' || IsDigit(s[0])) && AllNumberChars(s)
  {
    if s[0] == '-' {
      assert forall i :: 1 <= i < |s| ==> s[i] == s[1..][i - 1];
    }
  }

  lemma ExponentChars(s: string)
    requires IsExponent(s)
    ensures AllNumberChars(s)
  {
    if s != "" {
      if s[1] in {'+', '-'} {
        assert forall i :: 2 <= i < |s| ==> s[i] == s[2..][i - 2];
      } else {
        assert forall i :: 1 <= i < |s| ==> s[i] == s[1..][i - 1];
      }
    }
  }

  predicate NoNewline(s: string) {
    forall i :: 0 <= i < |s| ==> s[i] != '\n'
  }

  lemma {:induction false} BodyHasNoNewline(b: string)
    requires IsBody(b)
    ensures NoNewline(b)
  {
    if b != "" {
      if b[0] == '\\' {
        if b[1] == 'u' {
          BodyHasNoNewline(b[6..]);
          assert forall i :: 6 <= i < |b| ==> b[i] == b[6..][i - 6];
        } else {
          BodyHasNoNewline(b[2..]);
          assert forall i :: 2 <= i < |b| ==> b[i] == b[2..][i - 2];
        }
      } else {
        BodyHasNoNewline(b[1..]);
        assert forall i :: 1 <= i < |b| ==> b[i] == b[1..][i - 1];
      }
    }
  }

  /** A token that compaction leaves whole and that holds no line break. */
  predicate GoodToken(t: string) {
    IsToken(t) && NoNewline(t)
  }

  lemma QuotedIsGood(body: string)
    requires IsBody(body)
    ensures GoodToken(Quoted(body))
  {
    BodyHasNoNewline(body);
    assert Quoted(body)[1..|Quoted(body)| - 1] == body;
  }

  lemma NumberIsGood(text: string)
    requires IsNumber(text)
    ensures GoodToken(text)
  {
    NumberChars(text);
  }

  lemma LiteralsAreGood()
    ensures GoodToken("null") && GoodToken("true") && GoodToken("false")
  {
  }

  lemma ScalarTokenGood(v: Value)
    requires WellFormed(v) && !v.Array? && !v.Object?
    ensures forall t :: t in Tokens(v) ==> GoodToken(t)
  {
    match v
    case Number(text) => NumberIsGood(text);
    case String(body) => QuotedIsGood(body);
    case _ => LiteralsAreGood();
  }

  lemma {:induction false} TokensGood(v: Value)
    requires WellFormed(v)
    ensures forall t :: t in Tokens(v) ==> GoodToken(t)
    decreases v, 1
  {
    match v
    case Array(items) => ItemTokensGood(items);
    case Object(members) => MemberTokensGood(members);
    case _ => ScalarTokenGood(v);
  }

  lemma {:induction false} ItemTokensGood(items: seq<Value>)
    requires forall x :: x in items ==> WellFormed(x)
    ensures forall t :: t in ItemTokens(items) ==> GoodToken(t)
    decreases items, 0
  {
    if items != [] {
      TokensGood(items[0]);
      ItemTokensGood(items[1..]);
    }
  }

  lemma {:induction false} MemberTokensGood(members: seq<Member>)
    requires forall m :: m in members ==> IsBody(m.name) && WellFormed(m.value)
    ensures forall t :: t in MemberTokens(members) ==> GoodToken(t)
    decreases members, 0
  {
    if members != [] {
      assert members[0] in members;
      QuotedIsGood(members[0].name);
      TokensGood(members[0].value);
      MemberTokensGood(members[1..]);
    }
  }

  lemma {:induction false} ConcatHasNoNewline(tokens: seq<string>)
    requires forall t :: t in tokens ==> NoNewline(t)
    ensures NoNewline(Concat(tokens))
  {
    if tokens != [] {
      assert NoNewline(tokens[0]);
      ConcatHasNoNewline(tokens[1..]);
    }
  }

  /** Whatever insignificant white space a text carries, compacting it gives the canonical text of its value. */
  lemma CompactIsCanonical(v: Value, s: string)
    requires WellFormed(v) && Renders(v, s)
    ensures Squeeze(s, Outside) == Canonical(v)
    ensures NoNewline(Canonical(v))
  {
    var gaps :| |gaps| == |Tokens(v)| + 1 && Gaps(gaps) && s == Spaced(Tokens(v), gaps);
    TokensGood(v);
    SqueezeSpaced(Tokens(v), gaps);
    ConcatHasNoNewline(Tokens(v));
  }
}
