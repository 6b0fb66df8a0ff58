/** A canonical JSON text has only one reading: equal texts come from equal values. */
module JsonUnique {
  import opened Text
  import opened Json

  function ItemText(items: seq<Value>): string {
    Concat(ItemTokens(items))
  }

  function MemberText(members: seq<Member>): string {
    Concat(MemberTokens(members))
  }

  lemma {:induction false} ConcatAppend(a: seq<string>, b: seq<string>)
    ensures Concat(a + b) == Concat(a) + Concat(b)
  {
    if a == [] {
      assert a + b == b;
    } else {
      assert (a + b)[1..] == a[1..] + b;
      ConcatAppend(a[1..], b);
    }
  }

  lemma ConcatOne(t: string)
    ensures Concat([t]) == t
  {
    assert Concat([t]) == t + Concat([]);
  }

  // ---------- canonical texts, constructor by constructor ----------

  lemma ArrayText(items: seq<Value>)
    ensures Canonical(Array(items)) == "[" + ItemText(items) + "]"
  {
    ConcatAppend(["["] + ItemTokens(items), ["]"]);
    ConcatAppend(["["], ItemTokens(items));
    ConcatOne("[");
    ConcatOne("]");
  }

  lemma ObjectText(members: seq<Member>)
    ensures Canonical(Object(members)) == "{" + MemberText(members) + "}"
  {
    ConcatAppend(["{"] + MemberTokens(members), ["}"]);
    ConcatAppend(["{"], MemberTokens(members));
    ConcatOne("{");
    ConcatOne("}");
  }

  function Comma(more: bool): string {
    if more then "," else ""
  }

  lemma CommaText(more: bool)
    ensures Concat(if more then [","] else []) == Comma(more)
  {
    ConcatOne(",");
  }

  lemma ItemTextSplit(items: seq<Value>)
    requires items != []
    ensures ItemText(items) == Canonical(items[0]) + Comma(|items| > 1) + ItemText(items[1..])
  {
    var comma := if |items| > 1 then [","] else [];
    ConcatAppend(Tokens(items[0]) + comma, ItemTokens(items[1..]));
    ConcatAppend(Tokens(items[0]), comma);
    CommaText(|items| > 1);
  }

  lemma MemberTextSplit(members: seq<Member>)
    requires members != []
    ensures MemberText(members) == Quoted(members[0].name) + ":" + Canonical(members[0].value)
        + Comma(|members| > 1) + MemberText(members[1..])
  {
    var m := members[0];
    var comma := if |members| > 1 then [","] else [];
    var head := [Quoted(m.name), ":"];
    ConcatAppend(head + Tokens(m.value) + comma, MemberTokens(members[1..]));
    ConcatAppend(head + Tokens(m.value), comma);
    ConcatAppend(head, Tokens(m.value));
    CommaText(|members| > 1);
    assert head[1..] == [":"];
    ConcatOne(":");
  }

  lemma LiteralText(v: Value)
    requires !v.Array? && !v.Object?
    ensures Tokens(v) == [Tokens(v)[0]] && Canonical(v) == Tokens(v)[0]
  {
    ConcatOne(Tokens(v)[0]);
  }

  /** The first character tells the kind of value. */
  ghost predicate Opens(v: Value, c: char) {
    match v
    case Null => c == 'n'
    case True => c == 't'
    case False => c == 'f'
    case Number(_) => c == '-' || IsDigit(c)
    case String(_) => c == '"'
    case Array(_) => c == '['
    case Object(_) => c == '{'
  }

  lemma CanonicalOpens(v: Value)
    requires WellFormed(v)
    ensures Canonical(v) != "" && Opens(v, Canonical(v)[0])
  {
    match v
    case Array(items) => ArrayText(items);
    case Object(members) => ObjectText(members);
    case Number(text) =>
      LiteralText(v);
      NumberChars(text);
    case _ => LiteralText(v);
  }

  // ---------- literals ----------

  /** What may follow a value: nothing that could belong to a number. */
  predicate EndsValue(r: string) {
    r == "" || !NumberChar(r[0])
  }

  lemma NumberUnique(a: string, b: string, r: string, s: string)
    requires IsNumber(a) && IsNumber(b) && EndsValue(r) && EndsValue(s) && a + r == b + s
    ensures a == b && r == s
  {
    NumberChars(a);
    NumberChars(b);
    var w := a + r;
    assert |a| < |w| ==> w[|a|] == r[0];
    assert |b| < |w| ==> w[|b|] == s[0];
    assert a == w[..|a|] && b == w[..|b|];
    assert r == w[|a|..] && s == w[|b|..];
  }

  lemma {:induction false} BodyUnique(a: string, b: string, r: string, s: string)
    requires IsBody(a) && IsBody(b) && a + "\"" + r == b + "\"" + s
    ensures a == b && r == s
    decreases |a|, 1
  {
    var w := a + "\"" + r;
    assert a != "" ==> w[0] == a[0];
    assert b != "" ==> w[0] == b[0];
    assert a == "" ==> w[0] == '"' && w[1..] == r;
    assert b == "" ==> w[0] == '"' && w[1..] == s;
    if a != "" && b != "" {
      if a[0] == '\\' {
        assert w[1] == a[1] && w[1] == b[1];
        BodyUniqueFrom(a, b, r, s, if a[1] == 'u' then 6 else 2);
      } else {
        BodyUniqueFrom(a, b, r, s, 1);
      }
    }
  }

  lemma {:induction false} BodyUniqueFrom(a: string, b: string, r: string, s: string, n: nat)
    requires 0 < n <= |a| && n <= |b| && IsBody(a[n..]) && IsBody(b[n..]) && a + "\"" + r == b + "\"" + s
    ensures a == b && r == s
    decreases |a|, 0
  {
    var w := a + "\"" + r;
    assert w[n..] == a[n..] + "\"" + r;
    assert w[n..] == b[n..] + "\"" + s;
    assert a[..n] == w[..n] && b[..n] == w[..n];
    BodyUnique(a[n..], b[n..], r, s);
    assert a == a[..n] + a[n..] && b == b[..n] + b[n..];
  }

  lemma QuotedUnique(a: string, b: string, r: string, s: string)
    requires IsBody(a) && IsBody(b) && Quoted(a) + r == Quoted(b) + s
    ensures a == b && r == s
  {
    assert (Quoted(a) + r)[1..] == a + "\"" + r;
    assert (Quoted(b) + s)[1..] == b + "\"" + s;
    BodyUnique(a, b, r, s);
  }

  // ---------- values ----------

  lemma LiteralUnique(v: Value, u: Value, r: string, s: string)
    requires WellFormed(v) && WellFormed(u) && EndsValue(r) && EndsValue(s)
    requires !v.Array? && !v.Object? && Canonical(v) + r == Canonical(u) + s
    requires (v.Null? && u.Null?) || (v.True? && u.True?) || (v.False? && u.False?)
        || (v.Number? && u.Number?) || (v.String? && u.String?)
    ensures v == u && r == s
  {
    LiteralText(v);
    LiteralText(u);
    if v.Number? {
      NumberUnique(v.text, u.text, r, s);
    } else if v.String? {
      QuotedUnique(v.body, u.body, r, s);
    } else {
      assert r == (Canonical(v) + r)[|Canonical(v)|..];
      assert s == (Canonical(u) + s)[|Canonical(u)|..];
    }
  }

  lemma SameKind(v: Value, u: Value, r: string, s: string)
    requires WellFormed(v) && WellFormed(u) && Canonical(v) + r == Canonical(u) + s
    ensures || (v.Null? && u.Null?) || (v.True? && u.True?) || (v.False? && u.False?) || (v.Number? && u.Number?)
            || (v.String? && u.String?) || (v.Array? && u.Array?) || (v.Object? && u.Object?)
  {
    CanonicalOpens(v);
    CanonicalOpens(u);
    assert (Canonical(v) + r)[0] == Canonical(v)[0] && (Canonical(u) + s)[0] == Canonical(u)[0];
  }

  lemma ArrayInside(a: seq<Value>, b: seq<Value>, r: string, s: string)
    requires Canonical(Array(a)) + r == Canonical(Array(b)) + s
    ensures ItemText(a) + ("]" + r) == ItemText(b) + ("]" + s)
  {
    ArrayText(a);
    ArrayText(b);
    Inside("[", ItemText(a), "]", r, Canonical(Array(a)));
    Inside("[", ItemText(b), "]", s, Canonical(Array(b)));
  }

  lemma ObjectInside(a: seq<Member>, b: seq<Member>, r: string, s: string)
    requires Canonical(Object(a)) + r == Canonical(Object(b)) + s
    ensures MemberText(a) + ("}" + r) == MemberText(b) + ("}" + s)
  {
    ObjectText(a);
    ObjectText(b);
    Inside("{", MemberText(a), "}", r, Canonical(Object(a)));
    Inside("{", MemberText(b), "}", s, Canonical(Object(b)));
  }

  lemma Inside(open: string, mid: string, close: string, r: string, whole: string)
    requires |open| == 1 && whole == open + mid + close
    ensures (whole + r)[1..] == mid + (close + r)
  {
  }

  lemma {:induction false} ValueUnique(v: Value, u: Value, r: string, s: string)
    requires WellFormed(v) && WellFormed(u) && EndsValue(r) && EndsValue(s)
    requires Canonical(v) + r == Canonical(u) + s
    ensures v == u && r == s
    decreases v, 1
  {
    SameKind(v, u, r, s);
    match v
    case Array(items) =>
      ArrayInside(items, u.items, r, s);
      ItemsUnique(items, u.items, r, s);
    case Object(members) =>
      ObjectInside(members, u.members, r, s);
      MembersUnique(members, u.members, r, s);
    case _ => LiteralUnique(v, u, r, s);
  }

  /** What follows the first item. */
  function AfterItem(a: seq<Value>, r: string): string
    requires a != []
  {
    Comma(|a| > 1) + ItemText(a[1..]) + ("]" + r)
  }

  function AfterMember(a: seq<Member>, r: string): string
    requires a != []
  {
    Comma(|a| > 1) + MemberText(a[1..]) + ("}" + r)
  }

  lemma FirstItem(a: seq<Value>, r: string)
    requires a != []
    ensures ItemText(a) + ("]" + r) == Canonical(a[0]) + AfterItem(a, r)
  {
    ItemTextSplit(a);
  }

  lemma FirstMember(a: seq<Member>, r: string)
    requires a != []
    ensures MemberText(a) + ("}" + r) == Quoted(a[0].name) + (":" + (Canonical(a[0].value) + AfterMember(a, r)))
  {
    MemberTextSplit(a);
    Regroup(Quoted(a[0].name), Canonical(a[0].value), Comma(|a| > 1), MemberText(a[1..]), "}" + r);
  }

  lemma Regroup(name: string, value: string, comma: string, rest: string, end: string)
    ensures name + ":" + value + comma + rest + end == name + (":" + (value + (comma + rest + end)))
  {
  }

  lemma DropComma(more1: bool, t1: string, more2: bool, t2: string)
    requires t1 != "" && t2 != "" && (!more1 ==> t1[0] != ',') && (!more2 ==> t2[0] != ',')
    requires Comma(more1) + t1 == Comma(more2) + t2
    ensures t1 == t2
  {
    var w := Comma(more1) + t1;
    assert more1 <==> w[0] == ',';
    assert more2 <==> w[0] == ',';
    assert t1 == w[|Comma(more1)|..] && t2 == w[|Comma(more2)|..];
  }

  lemma NextItems(a: seq<Value>, b: seq<Value>, r: string, s: string)
    requires a != [] && b != [] && AfterItem(a, r) == AfterItem(b, s)
    ensures ItemText(a[1..]) + ("]" + r) == ItemText(b[1..]) + ("]" + s)
  {
    assert AfterItem(a, r) == Comma(|a| > 1) + (ItemText(a[1..]) + ("]" + r));
    assert AfterItem(b, s) == Comma(|b| > 1) + (ItemText(b[1..]) + ("]" + s));
    DropComma(|a| > 1, ItemText(a[1..]) + ("]" + r), |b| > 1, ItemText(b[1..]) + ("]" + s));
  }

  lemma NextMembers(a: seq<Member>, b: seq<Member>, r: string, s: string)
    requires a != [] && b != [] && AfterMember(a, r) == AfterMember(b, s)
    ensures MemberText(a[1..]) + ("}" + r) == MemberText(b[1..]) + ("}" + s)
  {
    assert AfterMember(a, r) == Comma(|a| > 1) + (MemberText(a[1..]) + ("}" + r));
    assert AfterMember(b, s) == Comma(|b| > 1) + (MemberText(b[1..]) + ("}" + s));
    DropComma(|a| > 1, MemberText(a[1..]) + ("}" + r), |b| > 1, MemberText(b[1..]) + ("}" + s));
  }

  lemma NoItems(r: string)
    ensures ItemText([]) + ("]" + r) == "]" + r && MemberText([]) + ("}" + r) == "}" + r
    ensures ("]" + r)[1..] == r && ("}" + r)[1..] == r
  {
  }

  lemma {:induction false} ItemsUnique(a: seq<Value>, b: seq<Value>, r: string, s: string)
    requires (forall x :: x in a ==> WellFormed(x)) && (forall x :: x in b ==> WellFormed(x))
    requires ItemText(a) + ("]" + r) == ItemText(b) + ("]" + s)
    ensures a == b && r == s
    decreases a, 0
  {
    ItemsOpen(a, "]" + r);
    ItemsOpen(b, "]" + s);
    if a == [] {
      NoItems(r);
      NoItems(s);
    } else {
      FirstItem(a, r);
      FirstItem(b, s);
      ItemsRest(a, r);
      ItemsRest(b, s);
      assert a[0] in a && b[0] in b;
      ValueUnique(a[0], b[0], AfterItem(a, r), AfterItem(b, s));
      NextItems(a, b, r, s);
      ItemsUnique(a[1..], b[1..], r, s);
      assert a == [a[0]] + a[1..] && b == [b[0]] + b[1..];
    }
  }

  lemma ItemsOpen(a: seq<Value>, rest: string)
    requires forall x :: x in a ==> WellFormed(x)
    requires rest != "" && rest[0] == ']'
    ensures ItemText(a) + rest != "" && (a == [] <==> (ItemText(a) + rest)[0] == ']')
    ensures a == [] ==> ItemText(a) + rest == rest
  {
    if a != [] {
      ItemTextSplit(a);
      assert a[0] in a;
      CanonicalOpens(a[0]);
      assert (ItemText(a) + rest)[0] == Canonical(a[0])[0];
    }
  }

  /** After an item stands a comma or the closing bracket. */
  lemma ItemsRest(a: seq<Value>, r: string)
    requires a != []
    ensures EndsValue(AfterItem(a, r))
  {
    if |a| == 1 {
      NoItems(r);
    }
  }

  lemma {:induction false} MembersUnique(a: seq<Member>, b: seq<Member>, r: string, s: string)
    requires (forall m :: m in a ==> IsBody(m.name) && WellFormed(m.value)) && (forall m :: m in b ==>
            IsBody(m.name) && WellFormed(m.value))
    requires MemberText(a) + ("}" + r) == MemberText(b) + ("}" + s)
    ensures a == b && r == s
    decreases a, 0
  {
    MembersOpen(a, "}" + r);
    MembersOpen(b, "}" + s);
    if a == [] {
      NoItems(r);
      NoItems(s);
    } else {
      FirstMember(a, r);
      FirstMember(b, s);
      MembersRest(a, r);
      MembersRest(b, s);
      assert a[0] in a && b[0] in b;
      var va, vb := Canonical(a[0].value) + AfterMember(a, r), Canonical(b[0].value) + AfterMember(b, s);
      QuotedUnique(a[0].name, b[0].name, ":" + va, ":" + vb);
      assert (":" + va)[1..] == va && (":" + vb)[1..] == vb;
      ValueUnique(a[0].value, b[0].value, AfterMember(a, r), AfterMember(b, s));
      NextMembers(a, b, r, s);
      MembersUnique(a[1..], b[1..], r, s);
      assert a == [a[0]] + a[1..] && b == [b[0]] + b[1..];
    }
  }

  lemma MembersOpen(a: seq<Member>, rest: string)
    requires rest != "" && rest[0] == '}'
    ensures MemberText(a) + rest != "" && (a == [] <==> (MemberText(a) + rest)[0] == '}')
    ensures a == [] ==> MemberText(a) + rest == rest
  {
    if a != [] {
      MemberTextSplit(a);
      assert (MemberText(a) + rest)[0] == '"';
    }
  }

  lemma MembersRest(a: seq<Member>, r: string)
    requires a != []
    ensures EndsValue(AfterMember(a, r))
  {
    if |a| == 1 {
      NoItems(r);
    }
  }

  /** Two values have the same canonical text only if they are the same value. */
  lemma CanonicalInjective(v: Value, u: Value)
    requires WellFormed(v) && WellFormed(u) && Canonical(v) == Canonical(u)
    ensures v == u
  {
    ValueUnique(v, u, "", "");
  }
}
