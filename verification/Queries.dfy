/**
 Queries with positional arguments (rebind of internal/store/store.go and the WHERE clauses of
 internal/store/queries.go and notes.go): the text that is sent, and what it selects.
 */
module Queries {
  import opened Text

  // ---------- rebind, on text ----------

  function Marks(q: string): nat {
    if q == "" then 0 else (if q[0] == '?' then 1 else 0) + Marks(q[1..])
  }

  function Dollar(n: nat): string {
    "$" + NatToString(n)
  }

  /** q with its question marks numbered from n + 1 on. */
  function RebindFrom(q: string, n: nat): string {
    if q == "" then ""
    else if q[0] == '?' then Dollar(n + 1) + RebindFrom(q[1..], n + 1)
    else [q[0]] + RebindFrom(q[1..], n)
  }

  lemma RebindOne(q: string, i: nat, n: nat, b: string)
    requires i < |q|
    ensures b + RebindFrom(q[i..], n) ==
            if q[i] == '?' then b + "$" + NatToString(n + 1) + RebindFrom(q[i + 1..], n + 1)
            else b + [q[i]] + RebindFrom(q[i + 1..], n)
  {
    hide NatToString;
    assert q[i..][0] == q[i] && q[i..][1..] == q[i + 1..];
  }

  method Rebind(q: string) returns (b: string)
    ensures b == RebindFrom(q, 0)
  {
    b := "";
    var n := 0;
    for i := 0 to |q|
      invariant RebindFrom(q, 0) == b + RebindFrom(q[i..], n)
    {
      RebindOne(q, i, n, b);
      if q[i] == '?' {
        n := n + 1;
        b := b + "$" + NatToString(n);
      } else {
        b := b + [q[i]];
      }
    }
  }

  lemma Associate<T>(a: seq<T>, b: seq<T>, c: seq<T>)
    ensures a + (b + c) == (a + b) + c
  {
  }

  lemma {:induction false} MarksJoin(a: string, b: string)
    ensures Marks(a + b) == Marks(a) + Marks(b)
  {
    if a == "" {
      assert a + b == b;
    } else {
      assert (a + b)[1..] == a[1..] + b;
      MarksJoin(a[1..], b);
    }
  }

  lemma {:induction false} RebindJoin(a: string, b: string, n: nat)
    ensures RebindFrom(a + b, n) == RebindFrom(a, n) + RebindFrom(b, n + Marks(a))
  {
    if a == "" {
      assert a + b == b;
    } else {
      var s, k := if a[0] == '?' then Dollar(n + 1) else [a[0]], if a[0] == '?' then n + 1 else n;
      assert (a + b)[0] == a[0] && (a + b)[1..] == a[1..] + b;
      assert RebindFrom(a, n) == s + RebindFrom(a[1..], k);
      assert RebindFrom(a + b, n) == s + RebindFrom(a[1..] + b, k);
      RebindJoin(a[1..], b, k);
      Associate(s, RebindFrom(a[1..], k), RebindFrom(b, k + Marks(a[1..])));
    }
  }

  predicate NoMark(s: string) {
    '?' !in s
  }

  lemma {:induction false} RebindPlain(s: string, n: nat)
    requires NoMark(s)
    ensures RebindFrom(s, n) == s && Marks(s) == 0
  {
    if s != "" {
      RebindPlain(s[1..], n);
    }
  }

  // ---------- queries ----------

  /** A value still to be bound, or the argument with this number. */
  datatype Operand = Mark | Param(number: nat)

  datatype Clause =
    | Compare(column: string, op: string, operand: Operand)
    | IsNull(column: string)
    | NotSuperseded

  datatype Piece = Plain(text: string) | Bound(operand: Operand)

  datatype Query = Query(head: seq<Piece>, where: seq<Clause>, tail: seq<Piece>)

  const NOT_SUPERSEDED := "NOT EXISTS(SELECT 1 FROM notes s " + "WHERE s.supersedes_id = n.id)"

  function ClausePieces(c: Clause): seq<Piece> {
    match c
    case Compare(column, op, x) => [Plain(column + " " + op + " "), Bound(x)]
    case IsNull(column) => [Plain(column + " IS NULL")]
    case NotSuperseded => [Plain(NOT_SUPERSEDED)]
  }

  /** strings.Join(where, " AND ") */
  function WherePieces(cs: seq<Clause>): seq<Piece> {
    if cs == [] then []
    else if |cs| == 1 then ClausePieces(cs[0])
    else WherePieces(cs[..|cs| - 1]) + [Plain(" AND ")] + ClausePieces(cs[|cs| - 1])
  }

  function Pieces(q: Query): seq<Piece> {
    q.head + WherePieces(q.where) + q.tail
  }

  function PieceText(p: Piece): string {
    match p
    case Plain(s) => s
    case Bound(Mark) => "?"
    case Bound(Param(n)) => Dollar(n)
  }

  function Render(ps: seq<Piece>): string {
    if ps == [] then "" else PieceText(ps[0]) + Render(ps[1..])
  }

  // ---------- numbering ----------

  predicate IsMark(p: Piece) {
    p == Bound(Mark)
  }

  function MarksIn(ps: seq<Piece>): nat {
    if ps == [] then 0 else (if IsMark(ps[0]) then 1 else 0) + MarksIn(ps[1..])
  }

  function NumberPieces(ps: seq<Piece>, n: nat): seq<Piece> {
    if ps == [] then []
    else if IsMark(ps[0]) then [Bound(Param(n + 1))] + NumberPieces(ps[1..], n + 1)
    else [ps[0]] + NumberPieces(ps[1..], n)
  }

  function HasMark(c: Clause): nat {
    if c.Compare? && c.operand.Mark? then 1 else 0
  }

  function ClauseMarks(cs: seq<Clause>): nat {
    if cs == [] then 0 else ClauseMarks(cs[..|cs| - 1]) + HasMark(cs[|cs| - 1])
  }

  function NumberClause(c: Clause, n: nat): Clause {
    if HasMark(c) == 1 then c.(operand := Param(n + 1)) else c
  }

  function NumberClauses(cs: seq<Clause>, n: nat): (r: seq<Clause>)
    ensures |r| == |cs|
  {
    if cs == [] then [] else
      var before := cs[..|cs| - 1];
      NumberClauses(before, n) + [NumberClause(cs[|cs| - 1], n + ClauseMarks(before))]
  }

  /** The query as it is sent: every mark replaced by the number of its argument. */
  function NumberQuery(q: Query): Query {
    var h := MarksIn(q.head);
    Query(NumberPieces(q.head, 0), NumberClauses(q.where, h), NumberPieces(q.tail, h + ClauseMarks(q.where)))
  }

  predicate PlainPieces(ps: seq<Piece>) {
    forall i :: 0 <= i < |ps| ==> (ps[i].Plain? ==> NoMark(ps[i].text)) && (ps[i].Bound? ==> ps[i].operand.Mark?)
  }

  predicate PlainClause(c: Clause) {
    match c
    case Compare(column, op, x) => NoMark(column) && NoMark(op) && x.Mark?
    case IsNull(column) => NoMark(column)
    case NotSuperseded => true
  }

  predicate PlainClauses(cs: seq<Clause>) {
    forall i :: 0 <= i < |cs| ==> PlainClause(cs[i])
  }

  predicate PlainQuery(q: Query) {
    PlainPieces(q.head) && PlainPieces(q.tail) && PlainClauses(q.where)
  }

  function QueryMarks(q: Query): nat {
    MarksIn(q.head) + ClauseMarks(q.where) + MarksIn(q.tail)
  }

  lemma {:induction false} RenderJoin(a: seq<Piece>, b: seq<Piece>)
    ensures Render(a + b) == Render(a) + Render(b)
  {
    if a == [] {
      assert a + b == b;
    } else {
      assert (a + b)[1..] == a[1..] + b;
      RenderJoin(a[1..], b);
      Associate(PieceText(a[0]), Render(a[1..]), Render(b));
    }
  }

  lemma {:induction false} NumberJoin(a: seq<Piece>, b: seq<Piece>, n: nat)
    ensures MarksIn(a + b) == MarksIn(a) + MarksIn(b)
    ensures NumberPieces(a + b, n) == NumberPieces(a, n) + NumberPieces(b, n + MarksIn(a))
  {
    if a == [] {
      assert a + b == b;
    } else {
      var p, k := if IsMark(a[0]) then Bound(Param(n + 1)) else a[0], if IsMark(a[0]) then n + 1 else n;
      assert (a + b)[0] == a[0] && (a + b)[1..] == a[1..] + b;
      assert NumberPieces(a, n) == [p] + NumberPieces(a[1..], k);
      assert NumberPieces(a + b, n) == [p] + NumberPieces(a[1..] + b, k);
      NumberJoin(a[1..], b, k);
      Associate([p], NumberPieces(a[1..], k), NumberPieces(b, k + MarksIn(a[1..])));
    }
  }

  /** Rebinding the text of a query is numbering its marks. */
  lemma {:induction false} RebindPieces(ps: seq<Piece>, n: nat)
    requires PlainPieces(ps)
    ensures RebindFrom(Render(ps), n) == Render(NumberPieces(ps, n))
    ensures Marks(Render(ps)) == MarksIn(ps)
  {
    if ps != [] {
      var s := PieceText(ps[0]);
      RebindJoin(s, Render(ps[1..]), n);
      MarksJoin(s, Render(ps[1..]));
      if IsMark(ps[0]) {
        assert RebindFrom(s, n) == Dollar(n + 1) + RebindFrom("", n + 1) == Dollar(n + 1);
        assert Marks(s) == 1;
        RebindPieces(ps[1..], n + 1);
      } else {
        RebindPlain(s, n);
        RebindPieces(ps[1..], n);
      }
    }
  }

  lemma OnePiece(p: Piece, n: nat)
    ensures NumberPieces([p], n) == [if IsMark(p) then Bound(Param(n + 1)) else p]
    ensures MarksIn([p]) == if IsMark(p) then 1 else 0
  {
    assert [p][1..] == [];
  }

  lemma NotSupersededPlain()
    ensures NoMark(NOT_SUPERSEDED)
  {
  }

  lemma ClausePiecesPlain(c: Clause, n: nat)
    requires PlainClause(c)
    ensures PlainPieces(ClausePieces(c))
    ensures MarksIn(ClausePieces(c)) == HasMark(c)
    ensures NumberPieces(ClausePieces(c), n) == ClausePieces(NumberClause(c, n))
  {
    match c
    case Compare(column, op, x) =>
      var a, b := [Plain(column + " " + op + " ")], [Bound(Mark)];
      assert ClausePieces(c) == a + b;
      OnePiece(a[0], n);
      OnePiece(b[0], n);
      NumberJoin(a, b, n);
    case IsNull(column) => OnePiece(Plain(column + " IS NULL"), n);
    case NotSuperseded =>
      NotSupersededPlain();
      OnePiece(Plain(NOT_SUPERSEDED), n);
  }

  lemma WhereStep(cs: seq<Clause>)
    requires |cs| > 1
    ensures var k := |cs| - 1;
            WherePieces(cs) == WherePieces(cs[..k]) + ([Plain(" AND ")] + ClausePieces(cs[k]))
  {
    var k := |cs| - 1;
    Associate(WherePieces(cs[..k]), [Plain(" AND ")], ClausePieces(cs[k]));
  }

  lemma SeparatedClause(c: Clause, n: nat)
    requires PlainClause(c)
    ensures var ps := [Plain(" AND ")] + ClausePieces(c);
            && PlainPieces(ps) && MarksIn(ps) == HasMark(c)
            && NumberPieces(ps, n) == [Plain(" AND ")] + ClausePieces(NumberClause(c, n))
  {
    ClausePiecesPlain(c, n);
    OnePiece(Plain(" AND "), n);
    NumberJoin([Plain(" AND ")], ClausePieces(c), n);
  }

  lemma PlainJoin(a: seq<Piece>, b: seq<Piece>)
    requires PlainPieces(a) && PlainPieces(b)
    ensures PlainPieces(a + b)
  {
  }

  lemma {:induction false} WherePiecesPlain(cs: seq<Clause>)
    requires PlainClauses(cs)
    ensures PlainPieces(WherePieces(cs))
    ensures MarksIn(WherePieces(cs)) == ClauseMarks(cs)
    decreases |cs|
  {
    if |cs| == 1 {
      ClausePiecesPlain(cs[0], 0);
      assert cs[..0] == [];
    } else if |cs| > 1 {
      var k := |cs| - 1;
      var before, last := WherePieces(cs[..k]), [Plain(" AND ")] + ClausePieces(cs[k]);
      WherePiecesPlain(cs[..k]);
      SeparatedClause(cs[k], 0);
      WhereStep(cs);
      NumberJoin(before, last, 0);
      PlainJoin(before, last);
    }
  }

  lemma NumberedLast(cs: seq<Clause>, n: nat)
    requires cs != []
    ensures var k, numbered := |cs| - 1, NumberClauses(cs, n);
            numbered[..k] == NumberClauses(cs[..k], n) && numbered[k] == NumberClause(cs[k], n + ClauseMarks(cs[..k]))
  {
  }

  lemma WhereNumberShort(cs: seq<Clause>, n: nat)
    requires PlainClauses(cs) && |cs| <= 1
    ensures NumberPieces(WherePieces(cs), n) == WherePieces(NumberClauses(cs, n))
  {
    if |cs| == 1 {
      ClausePiecesPlain(cs[0], n);
      assert cs[..0] == [];
    }
  }

  lemma PrefixPlain(cs: seq<Clause>)
    requires PlainClauses(cs) && cs != []
    ensures PlainClauses(cs[..|cs| - 1]) && PlainClause(cs[|cs| - 1])
  {
  }

  lemma {:induction false} WherePiecesNumber(cs: seq<Clause>, n: nat)
    requires PlainClauses(cs)
    ensures NumberPieces(WherePieces(cs), n) == WherePieces(NumberClauses(cs, n))
    decreases |cs|
  {
    hide *;
    if |cs| <= 1 {
      WhereNumberShort(cs, n);
    } else {
      var k := |cs| - 1;
      var before, numbered := cs[..k], NumberClauses(cs, n);
      PrefixPlain(cs);
      WherePiecesNumber(before, n);
      WherePiecesPlain(before);
      WhereStep(cs);
      SeparatedClause(cs[k], n + ClauseMarks(before));
      NumberJoin(WherePieces(before), [Plain(" AND ")] + ClausePieces(cs[k]), n);
      NumberedLast(cs, n);
      WhereStep(numbered);
    }
  }

  lemma PiecesPlain(q: Query)
    requires PlainQuery(q)
    ensures PlainPieces(Pieces(q)) && MarksIn(Pieces(q)) == QueryMarks(q)
  {
    var w := WherePieces(q.where);
    WherePiecesPlain(q.where);
    PlainJoin(q.head, w);
    PlainJoin(q.head + w, q.tail);
    NumberJoin(q.head, w, 0);
    NumberJoin(q.head + w, q.tail, 0);
  }

  lemma NumberedPieces(q: Query)
    requires PlainQuery(q)
    ensures NumberPieces(Pieces(q), 0) == Pieces(NumberQuery(q))
  {
    hide NumberPieces, MarksIn, WherePieces, NumberClauses, ClauseMarks;
    var h, w := MarksIn(q.head), WherePieces(q.where);
    WherePiecesPlain(q.where);
    WherePiecesNumber(q.where, h);
    NumberJoin(q.head, w, 0);
    NumberJoin(q.head + w, q.tail, 0);
  }

  /** What rebind makes of the text of a query is the text of the numbered query. */
  lemma RebindQuery(q: Query)
    requires PlainQuery(q)
    ensures RebindFrom(Render(Pieces(q)), 0) == Render(Pieces(NumberQuery(q)))
    ensures Marks(Render(Pieces(q))) == QueryMarks(q)
  {
    PiecesPlain(q);
    NumberedPieces(q);
    RebindPieces(Pieces(q), 0);
  }

  // ---------- the numbers are 1, 2, 3, … ----------

  function Numbers(ps: seq<Piece>): seq<nat> {
    if ps == [] then []
    else if ps[0].Bound? && ps[0].operand.Param? then [ps[0].operand.number] + Numbers(ps[1..])
    else Numbers(ps[1..])
  }

  lemma {:induction false} NumbersInOrder(ps: seq<Piece>, n: nat)
    requires PlainPieces(ps)
    ensures var ns := Numbers(NumberPieces(ps, n));
            |ns| == MarksIn(ps) && forall i :: 0 <= i < |ns| ==> ns[i] == n + 1 + i
  {
    if ps != [] {
      NumbersInOrder(ps[1..], if IsMark(ps[0]) then n + 1 else n);
      var rest := NumberPieces(ps[1..], if IsMark(ps[0]) then n + 1 else n);
      assert NumberPieces(ps, n)[1..] == rest;
    }
  }

  // ---------- what a clause selects ----------

  datatype Value = Number(n: int) | Str(s: string)

  /** A row as a query sees it; a column that is NULL is not in cells. */
  datatype Row = Row(cells: map<string, Value>, superseded: bool)

  predicate Compares(like: (string, string) -> bool, op: string, x: Value, y: Value) {
    match (x, y)
    case (Number(a), Number(b)) =>
      (op == "=" && a == b) || (op == ">=" && a >= b) || (op == "<=" && a <= b) || (op == "<" && a < b)
    case (Str(a), Str(b)) => (op == "=" && a == b) || (op == "ILIKE" && like(a, b))
    case _ => false
  }

  /** A comparison with NULL is not true, whatever the operator. */
  predicate HoldsWith(like: (string, string) -> bool, c: Clause, arg: Value, row: Row) {
    match c
    case Compare(column, op, _) => column in row.cells && Compares(like, op, row.cells[column], arg)
    case IsNull(column) => column !in row.cells
    case NotSuperseded => !row.superseded
  }

  predicate Holds(like: (string, string) -> bool, c: Clause, args: seq<Value>, row: Row) {
    match c
    case Compare(_, _, Param(k)) => 1 <= k <= |args| && HoldsWith(like, c, args[k - 1], row)
    case Compare(_, _, Mark) => false
    case _ => HoldsWith(like, c, Number(0), row)
  }

  /** WHERE of a numbered query, under its arguments. */
  predicate Selects(like: (string, string) -> bool, cs: seq<Clause>, args: seq<Value>, row: Row) {
    forall i :: 0 <= i < |cs| ==> Holds(like, cs[i], args, row)
  }

  /** The same for clauses and arguments as they are collected: each mark takes the next argument. */
  predicate Collected(like: (string, string) -> bool, cs: seq<Clause>, args: seq<Value>, row: Row)
    requires ClauseMarks(cs) == |args|
  {
    if cs == [] then true else
      var c := cs[|cs| - 1];
      if HasMark(c) == 1 then
        HoldsWith(like, c, args[|args| - 1], row) && Collected(like, cs[..|cs| - 1], args[..|args| - 1], row)
      else HoldsWith(like, c, Number(0), row) && Collected(like, cs[..|cs| - 1], args, row)
  }

  /** Numbering binds each mark to the argument collected with it, whatever stands before and after. */
  lemma {:induction false} NumberingBinds(like: (string, string) -> bool, cs: seq<Clause>, before: seq<Value>,
      args: seq<Value>, after: seq<Value>, row: Row)
    requires PlainClauses(cs) && ClauseMarks(cs) == |args|
    ensures Selects(like, NumberClauses(cs, |before|), before + args + after, row) <==> Collected(like, cs, args, row)
    decreases |cs|
  {
    if cs != [] {
      var k := |cs| - 1;
      var all := before + args + after;
      var numbered := NumberClauses(cs, |before|);
      var firsts := NumberClauses(cs[..k], |before|);
      assert forall i :: 0 <= i < k ==> numbered[i] == firsts[i];
      if HasMark(cs[k]) == 1 {
        var n := |args| - 1;
        assert all == before + args[..n] + ([args[n]] + after);
        NumberingBinds(like, cs[..k], before, args[..n], [args[n]] + after, row);
        assert all[|before| + n] == args[n];
      } else {
        NumberingBinds(like, cs[..k], before, args, after, row);
      }
      assert Selects(like, numbered, all, row) <==>
              Selects(like, firsts, all, row) && Holds(like, numbered[k], all, row);
    }
  }

  lemma CollectMark(like: (string, string) -> bool, cs: seq<Clause>, args: seq<Value>, c: Clause, arg: Value)
    requires ClauseMarks(cs) == |args| && HasMark(c) == 1
    ensures ClauseMarks(cs + [c]) == |args + [arg]|
    ensures forall row :: Collected(like, cs + [c], args + [arg], row) <==>
            Collected(like, cs, args, row) && HoldsWith(like, c, arg, row)
  {
    assert (cs + [c])[..|cs|] == cs && (args + [arg])[..|args|] == args;
  }

  lemma CollectPlain(like: (string, string) -> bool, cs: seq<Clause>, args: seq<Value>, c: Clause)
    requires ClauseMarks(cs) == |args| && HasMark(c) == 0
    ensures ClauseMarks(cs + [c]) == |args|
    ensures forall row :: Collected(like, cs + [c], args, row) <==>
            Collected(like, cs, args, row) && HoldsWith(like, c, Number(0), row)
  {
    assert (cs + [c])[..|cs|] == cs;
  }
}
