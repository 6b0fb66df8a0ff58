/** The text an operator signs (internal/approval/signing.go). Characters stand for bytes. */
module Signing {
  import opened Wrappers
  import opened Text
  import opened Json
  import JsonUnique

  const PAYLOAD_VERSION := "balvi-approval:v1"

  /**
   compact behaves as encoding/json's Compact: an error unless the text is JSON, else the text without insignificant
   white space.
   */
  ghost predicate IsCompact(compact: string -> Option<string>) {
    forall s :: compact(s) == if IsJson(s) then Some(Squeeze(s, Outside)) else None
  }

  /** Text that does not compact is taken as it is. */
  function CompactOrRaw(compact: string -> Option<string>, args: string): string {
    match compact(args)
    case Some(c) => c
    case None => args
  }

  function SigningPayload(compact: string -> Option<string>, id: int, action: string, args: string): string {
    PAYLOAD_VERSION + "\n" + IntToString(id) + "\n" + action + "\n"
        + CompactOrRaw(compact, if args == "" then "{}" else args)
  }

  // ---------- taking a payload apart ----------

  /** The first line break separates; what stands before it has none. */
  lemma SplitAtFirst(a: string, r: string, b: string, s: string)
    requires NoNewline(a) && NoNewline(b) && a + "\n" + r == b + "\n" + s
    ensures a == b && r == s
  {
    var w := a + "\n" + r;
    assert w[|a|] == '\n' && w[|b|] == '\n';
    assert a == w[..|a|] && b == w[..|b|] && r == w[|a| + 1..] && s == w[|b| + 1..];
  }

  /** The last line break separates; what stands after it has none. */
  lemma SplitAtLast(a: string, r: string, b: string, s: string)
    requires NoNewline(r) && NoNewline(s) && a + "\n" + r == b + "\n" + s
    ensures a == b && r == s
  {
    var w := a + "\n" + r;
    assert w[|a|] == '\n' && w[|b|] == '\n';
    assert a == w[..|a|] && b == w[..|b|] && r == w[|a| + 1..] && s == w[|b| + 1..];
  }

  lemma NumeralHasNoNewline(id: int)
    ensures NoNewline(IntToString(id))
  {
  }

  lemma VersionHasNoNewline()
    ensures NoNewline(PAYLOAD_VERSION)
  {
  }

  lemma PayloadParts(id: int, action: string, compact: string, id': int, action': string, compact': string)
    requires NoNewline(compact) && NoNewline(compact')
    requires PAYLOAD_VERSION + "\n" + IntToString(id) + "\n" + action + "\n" + compact
          == PAYLOAD_VERSION + "\n" + IntToString(id') + "\n" + action' + "\n" + compact'
    ensures id == id' && action == action' && compact == compact'
  {
    var n, n' := IntToString(id), IntToString(id');
    var tail, tail' := action + "\n" + compact, action' + "\n" + compact';
    Prefixed(n, action, compact);
    Prefixed(n', action', compact');
    SplitAtFirst(PAYLOAD_VERSION, n + "\n" + tail, PAYLOAD_VERSION, n' + "\n" + tail');
    NumeralHasNoNewline(id);
    NumeralHasNoNewline(id');
    SplitAtFirst(n, tail, n', tail');
    IntToStringInjective(id, id');
    SplitAtLast(action, compact, action', compact');
  }

  lemma Prefixed(n: string, action: string, compact: string)
    ensures PAYLOAD_VERSION + "\n" + n + "\n" + action + "\n" + compact
         == PAYLOAD_VERSION + "\n" + (n + "\n" + (action + "\n" + compact))
  {
  }

  // ---------- the theorems ----------

  lemma RenderedIsNotEmpty(v: Value, s: string)
    requires WellFormed(v) && Renders(v, s)
    ensures s != ""
  {
    CompactIsCanonical(v, s);
    JsonUnique.CanonicalOpens(v);
  }

  lemma PayloadOfValue(compact: string -> Option<string>, id: int, action: string, v: Value, args: string)
    requires IsCompact(compact) && WellFormed(v) && Renders(v, args)
    ensures SigningPayload(compact, id, action, args)
         == PAYLOAD_VERSION + "\n" + IntToString(id) + "\n" + action + "\n" + Canonical(v)
    ensures NoNewline(Canonical(v))
  {
    RenderedIsNotEmpty(v, args);
    assert IsJson(args);
    CompactIsCanonical(v, args);
  }

  /**
   A payload binds the id, the action and the arguments together, and nothing but white space is lost:
   over JSON arguments two payloads are equal exactly when all three are. Action names may hold line breaks.
   */
  lemma PayloadBinds(compact: string -> Option<string>, id: int, action: string, v: Value, args: string, id': int,
      action': string, v': Value, args': string)
    requires IsCompact(compact) && WellFormed(v) && Renders(v, args) && WellFormed(v') && Renders(v', args')
    ensures SigningPayload(compact, id, action, args) == SigningPayload(compact, id', action', args')
       <==> id == id' && action == action' && v == v'
  {
    PayloadOfValue(compact, id, action, v, args);
    PayloadOfValue(compact, id', action', v', args');
    if SigningPayload(compact, id, action, args) == SigningPayload(compact, id', action', args') {
      PayloadParts(id, action, Canonical(v), id', action', Canonical(v'));
      JsonUnique.CanonicalInjective(v, v');
    }
  }

  /** The text before the first line break, and the text after it. */
  function Line(s: string): string {
    s[..IndexFrom(s, '\n', 0)]
  }

  function Rest(s: string): string {
    var i := IndexFrom(s, '\n', 0);
    if i == |s| then "" else s[i + 1..]
  }

  lemma LineAndRest(line: string, rest: string)
    requires NoNewline(line)
    ensures Line(line + "\n" + rest) == line && Rest(line + "\n" + rest) == rest
  {
    var s := line + "\n" + rest;
    var i := IndexFrom(s, '\n', 0);
    assert s[|line|] == '\n';
    assert forall k :: 0 <= k < |line| ==> s[k] == line[k] && line[k] in line;
    assert i == |line|;
  }

  lemma FourParts(version: string, n: string, action: string, canonical: string)
    requires NoNewline(version) && NoNewline(n)
    ensures var text := version + "\n" + n + "\n" + action + "\n" + canonical;
            Line(text) == version && Line(Rest(text)) == n && Rest(Rest(text)) == action + "\n" + canonical
  {
    hide Line, Rest;
    var tail := action + "\n" + canonical;
    assert version + "\n" + n + "\n" + action + "\n" + canonical == version + "\n" + (n + "\n" + tail);
    LineAndRest(version, n + "\n" + tail);
    LineAndRest(n, tail);
  }

  /** What an operator reads in a payload: the version, the id in decimal, the action, and the arguments compacted. */
  lemma PayloadReadsBack(compact: string -> Option<string>, id: int, action: string, v: Value, args: string)
    requires IsCompact(compact) && WellFormed(v) && Renders(v, args)
    ensures var payload := SigningPayload(compact, id, action, args);
            && Line(payload) == PAYLOAD_VERSION
            && IntOf(Line(Rest(payload))) == id
            && Rest(Rest(payload)) == action + "\n" + Canonical(v)
  {
    hide *;
    PayloadOfValue(compact, id, action, v, args);
    NumeralHasNoNewline(id);
    VersionHasNoNewline();
    IntToStringReads(id);
    FourParts(PAYLOAD_VERSION, IntToString(id), action, Canonical(v));
  }

  /** The spaced form that the database returns and the compact form sent over HTTP give one payload. */
  lemma PayloadIgnoresWhiteSpace(compact: string -> Option<string>, id: int, action: string, v: Value, spaced: string)
    requires IsCompact(compact) && WellFormed(v) && Renders(v, spaced)
    ensures SigningPayload(compact, id, action, spaced) == SigningPayload(compact, id, action, Canonical(v))
  {
    CanonicalRenders(v);
    PayloadBinds(compact, id, action, v, spaced, id, action, v, Canonical(v));
  }

  lemma {:induction false} SpacedWithoutGaps(tokens: seq<string>, gaps: seq<string>)
    requires |gaps| == |tokens| + 1 && forall i :: 0 <= i < |gaps| ==> gaps[i] == ""
    ensures Spaced(tokens, gaps) == Concat(tokens)
  {
    if tokens != [] {
      SpacedWithoutGaps(tokens[1..], gaps[1..]);
    }
  }

  lemma CanonicalRenders(v: Value)
    ensures Renders(v, Canonical(v))
  {
    var gaps := seq(|Tokens(v)| + 1, _ => "");
    SpacedWithoutGaps(Tokens(v), gaps);
  }

  /** Absent arguments sign as the empty object. */
  lemma EmptyArgsSignAsEmptyObject(compact: string -> Option<string>, id: int, action: string, s: string)
    requires IsCompact(compact) && Renders(Object([]), s)
    ensures SigningPayload(compact, id, action, "") == SigningPayload(compact, id, action, s)
  {
    CanonicalRenders(Object([]));
    assert Tokens(Object([])) == ["{", "}"];
    JsonUnique.ObjectText([]);
    assert Canonical(Object([])) == "{}";
    RenderedIsNotEmpty(Object([]), s);
    PayloadIgnoresWhiteSpace(compact, id, action, Object([]), s);
  }
}
