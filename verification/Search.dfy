/**
 How the message and note listings put their queries together (internal/store/queries.go and notes.go).
 Row selection is proved against a description of the filters that knows nothing of clauses.
 */
module Search {
  import opened Wrappers
  import opened Text
  import opened Queries
  import Paging

  const UNASSIGNED_GRANTEE := "_unassigned"
  const SNIPPET_LEN := 200

  datatype MessageRow = MessageRow(
    id: int, grantee: Option<string>, from: string, subject: Option<string>, body: Option<string>, date: int)

  datatype NoteRow = NoteRow(id: int, grantee: string, kind: string, createdAt: int, superseded: bool)

  datatype SearchParams = SearchParams(
    grantee: string, from: string, subject: string, body: string,
    since: Option<int>, until: Option<int>, cursor: int, limit: int)

  datatype NoteFilter = NoteFilter(
    grantee: string, kind: string, since: Option<int>, until: Option<int>,
        cursor: int, limit: int, includeSuperseded: bool)

  /** A query with its arguments, as they are handed to the database. */
  datatype Prepared = Prepared(query: Query, args: seq<Value>)

  type Like = (string, string) -> bool

  function With(cells: map<string, Value>, column: string, s: Option<string>): map<string, Value> {
    match s
    case Some(text) => cells[column := Str(text)]
    case None => cells
  }

  function MessageCells(m: MessageRow): Row {
    var always := map["m.id" := Number(m.id), "m.from_addr" := Str(m.from), "m.date" := Number(m.date)];
    Row(With(With(With(always, "m.grantee_id", m.grantee), "m.subject", m.subject), "m.body_text", m.body), false)
  }

  function NoteCells(n: NoteRow): Row {
    Row(map["n.id" := Number(n.id), "n.grantee_id" := Str(n.grantee), "n.kind" := Str(n.kind),
        "n.created_at" := Number(n.createdAt)],
        n.superseded)
  }

  // ---------- what the filters ask for ----------

  predicate GranteeIs(g: string, m: MessageRow) {
    if g == "" then true else if g == UNASSIGNED_GRANTEE then m.grantee.None? else m.grantee == Some(g)
  }

  predicate Mentions(like: Like, word: string, text: Option<string>) {
    word == "" || (text.Some? && like(text.value, "%" + word + "%"))
  }

  predicate Within(since: Option<int>, until: Option<int>, date: int) {
    && (since.Some? ==> since.value <= date)
    && (until.Some? ==> date <= until.value)
  }

  predicate BelowCursor(cursor: int, id: int) {
    cursor > 0 ==> id < cursor
  }

  predicate MessageWanted(like: Like, p: SearchParams, m: MessageRow) {
    && GranteeIs(p.grantee, m)
    && Mentions(like, p.from, Some(m.from))
    && Mentions(like, p.subject, m.subject)
    && Mentions(like, p.body, m.body)
    && Within(p.since, p.until, m.date)
    && BelowCursor(p.cursor, m.id)
  }

  predicate NoFilter(p: SearchParams) {
    && p.grantee == "" && p.from == "" && p.subject == "" && p.body == ""
    && p.since.None? && p.until.None? && p.cursor <= 0
  }

  predicate NoteMatches(f: NoteFilter, n: NoteRow) {
    && n.grantee == f.grantee
    && (f.kind == "" || n.kind == f.kind)
    && Within(f.since, f.until, n.createdAt)
    && (f.includeSuperseded || !n.superseded)
  }

  predicate NoteWanted(f: NoteFilter, n: NoteRow) {
    NoteMatches(f, n) && BelowCursor(f.cursor, n.id)
  }

  // ---------- the fixed parts ----------

  function Lines(lines: seq<string>): seq<Piece> {
    seq(|lines|, i requires 0 <= i < |lines| => Plain(lines[i]))
  }

  const SELECT_MESSAGE_IDS := "SELECT m.id, m.message_id,"
  const MESSAGE_PLACE := " m.thread_id, m.grantee_id, m.folder,"
  const MESSAGE_SENDER := " m.from_addr, COALESCE(m.from_name, ''),"
  const MESSAGE_SUBJECT_AND_DATE := " COALESCE(m.subject, ''), m.date,"
  const MESSAGE_HAS_ATTACHMENTS := " EXISTS(SELECT 1 FROM attachments a " + "WHERE a.message_id = m.id),"
  const MESSAGE_SNIPPET := " COALESCE(SUBSTR(m.body_text, 1, "

  const MESSAGE_COLUMNS := [
    SELECT_MESSAGE_IDS, MESSAGE_PLACE, MESSAGE_SENDER,
        MESSAGE_SUBJECT_AND_DATE, MESSAGE_HAS_ATTACHMENTS, MESSAGE_SNIPPET]

  const SELECT_NOTE_IDS := "SELECT n.id, n.grantee_id, n.kind,"
  const NOTE_CONTENT := " n.content, COALESCE(n.signal_number,''),"
  const NOTE_SUPERSEDES_AND_DATE := " n.supersedes_id, n.created_at,"
  const NOTE_SUPERSEDED_BY := " (SELECT s.id FROM notes s WHERE " + "s.supersedes_id = n.id " + "ORDER BY s.id LIMIT 1)"
  const FROM_NOTES := " FROM notes n WHERE "

  const NOTE_COLUMNS := [SELECT_NOTE_IDS, NOTE_CONTENT, NOTE_SUPERSEDES_AND_DATE, NOTE_SUPERSEDED_BY, FROM_NOTES]

  function MessageQuery(where: seq<Clause>): Query {
    Query(Lines(MESSAGE_COLUMNS) + [Bound(Mark)] + Lines(["), '') FROM messages m WHERE "]),
          where,
          Lines([" ORDER BY m.date DESC, m.id DESC LIMIT "]) + [Bound(Mark)])
  }

  function NoteQuery(where: seq<Clause>): Query {
    Query(Lines(NOTE_COLUMNS), where, Lines([" ORDER BY n.id DESC LIMIT "]) + [Bound(Mark)])
  }

  /** The query lists the latest rows first, by date and then by id, up to a limit that is an argument. */
  predicate LatestFirst(q: Query) {
    q.tail == [Plain(" ORDER BY m.date DESC, m.id DESC LIMIT "), Bound(Mark)]
  }

  /** The query lists the largest ids first, up to a limit that is an argument. */
  predicate LargestIdFirst(q: Query) {
    q.tail == [Plain(" ORDER BY n.id DESC LIMIT "), Bound(Mark)]
  }

  lemma LinesPlain(lines: seq<string>)
    requires forall s :: s in lines ==> NoMark(s)
    ensures PlainPieces(Lines(lines)) && MarksIn(Lines(lines)) == 0
  {
    var ps := Lines(lines);
    forall i | 0 <= i < |ps|
      ensures ps[i].Plain? && NoMark(ps[i].text)
    {
      assert lines[i] in lines;
    }
    NoBoundNoMarks(ps);
  }

  lemma {:induction false} NoBoundNoMarks(ps: seq<Piece>)
    requires forall i :: 0 <= i < |ps| ==> ps[i].Plain?
    ensures MarksIn(ps) == 0
  {
    if ps != [] {
      NoBoundNoMarks(ps[1..]);
    }
  }

  lemma MessagePartsPlain(where: seq<Clause>)
    requires PlainClauses(where)
    ensures var q := MessageQuery(where);
            PlainQuery(q) && MarksIn(q.head) == 1 && MarksIn(q.tail) == 1
  {
    var m := [Bound(Mark)];
    var a, b := Lines(MESSAGE_COLUMNS), Lines(["), '') FROM messages m WHERE "]);
    var c := Lines([" ORDER BY m.date DESC, m.id DESC LIMIT "]);
    MessageColumnsPlain();
    LinesPlain(MESSAGE_COLUMNS);
    LinesPlain(["), '') FROM messages m WHERE "]);
    LinesPlain([" ORDER BY m.date DESC, m.id DESC LIMIT "]);
    OnePiece(Bound(Mark), 0);
    NumberJoin(a, m, 0);
    NumberJoin(a + m, b, 0);
    NumberJoin(c, m, 0);
    PlainJoin(a, m);
    PlainJoin(a + m, b);
    PlainJoin(c, m);
  }

  lemma NotePartsPlain(where: seq<Clause>)
    requires PlainClauses(where)
    ensures var q := NoteQuery(where);
            PlainQuery(q) && MarksIn(q.head) == 0 && MarksIn(q.tail) == 1
  {
    var m, c := [Bound(Mark)], Lines([" ORDER BY n.id DESC LIMIT "]);
    NoteColumnsPlain();
    LinesPlain(NOTE_COLUMNS);
    LinesPlain([" ORDER BY n.id DESC LIMIT "]);
    OnePiece(Bound(Mark), 0);
    NumberJoin(c, m, 0);
    PlainJoin(c, m);
  }

  lemma MessageColumnsPlain()
    ensures forall s :: s in MESSAGE_COLUMNS ==> NoMark(s)
  {
    MessageFieldsPlain();
    MessageHeadersPlain();
    MessageComputedPlain();
  }

  lemma MessageFieldsPlain()
    ensures NoMark(SELECT_MESSAGE_IDS) && NoMark(MESSAGE_PLACE)
  {
  }

  lemma MessageHeadersPlain()
    ensures NoMark(MESSAGE_SENDER) && NoMark(MESSAGE_SUBJECT_AND_DATE)
  {
  }

  lemma MessageComputedPlain()
    ensures NoMark(MESSAGE_HAS_ATTACHMENTS) && NoMark(MESSAGE_SNIPPET)
  {
  }

  lemma NoteColumnsPlain()
    ensures forall s :: s in NOTE_COLUMNS ==> NoMark(s)
  {
    NoteFieldsPlain();
    NoteComputedPlain();
  }

  lemma NoteFieldsPlain()
    ensures NoMark(SELECT_NOTE_IDS) && NoMark(NOTE_CONTENT) && NoMark(NOTE_SUPERSEDES_AND_DATE)
  {
  }

  lemma NoteComputedPlain()
    ensures NoMark(NOTE_SUPERSEDED_BY) && NoMark(FROM_NOTES)
  {
  }

  // ---------- what each clause asks of a row ----------

  lemma DistinctMessageColumns()
    ensures "m.id" != "m.from_addr" && "m.id" != "m.date" && "m.id" != "m.grantee_id" && "m.id" != "m.subject"
    ensures "m.id" != "m.body_text"
    ensures "m.from_addr" != "m.date" && "m.from_addr" != "m.grantee_id" && "m.from_addr" != "m.subject"
    ensures "m.from_addr" != "m.body_text"
    ensures "m.date" != "m.grantee_id" && "m.date" != "m.subject" && "m.date" != "m.body_text"
    ensures "m.grantee_id" != "m.subject" && "m.grantee_id" != "m.body_text" && "m.subject" != "m.body_text"
  {
    assert |"m.id"| == 4 && |"m.from_addr"| == 11 && |"m.date"| == 6
        && |"m.grantee_id"| == 12 && |"m.subject"| == 9 && |"m.body_text"| == 11;
    assert "m.from_addr"[2] != "m.body_text"[2];
  }

  function Cell(row: Row, column: string): Option<Value> {
    if column in row.cells then Some(row.cells[column]) else None
  }

  function TextValue(s: Option<string>): Option<Value> {
    match s
    case Some(t) => Some(Str(t))
    case None => None
  }

  lemma MessageCell(m: MessageRow)
    ensures var row := MessageCells(m);
            && Cell(row, "m.id") == Some(Number(m.id))
            && Cell(row, "m.from_addr") == Some(Str(m.from))
            && Cell(row, "m.date") == Some(Number(m.date))
            && Cell(row, "m.grantee_id") == TextValue(m.grantee)
            && Cell(row, "m.subject") == TextValue(m.subject)
            && Cell(row, "m.body_text") == TextValue(m.body)
  {
    DistinctMessageColumns();
  }

  lemma NoteCell(n: NoteRow)
    ensures var row := NoteCells(n);
            && Cell(row, "n.id") == Some(Number(n.id))
            && Cell(row, "n.grantee_id") == Some(Str(n.grantee))
            && Cell(row, "n.kind") == Some(Str(n.kind))
            && Cell(row, "n.created_at") == Some(Number(n.createdAt))
  {
    assert |"n.id"| == 4 && |"n.grantee_id"| == 12 && |"n.kind"| == 6 && |"n.created_at"| == 12;
    assert "n.grantee_id"[2] != "n.created_at"[2];
  }

  // ---------- collecting clauses ----------

  /** The clauses and arguments collected so far select exactly the wanted rows. */
  ghost predicate Selecting<T(!new)>(like: Like, cells: T -> Row, where: seq<Clause>, args: seq<Value>,
      wanted: T -> bool) {
    && PlainClauses(where) && ClauseMarks(where) == |args|
    && forall x :: Collected(like, where, args, cells(x)) <==> wanted(x)
  }

  /** The filter is what the comparison says of a row. */
  ghost predicate Says<T(!new)>(like: Like, cells: T -> Row, column: string, op: string, arg: Value, more: T -> bool) {
    forall x :: more(x) <==> (var v := Cell(cells(x), column); v.Some? && Compares(like, op, v.value, arg))
  }

  lemma SelectingMore<T(!new)>(like: Like, cells: T -> Row, where: seq<Clause>, args: seq<Value>, wanted: T -> bool,
                               column: string, op: string, arg: Value, more: T -> bool)
    requires Selecting(like, cells, where, args, wanted) && NoMark(column) && NoMark(op)
    requires Says(like, cells, column, op, arg, more)
    ensures Selecting(like, cells, where + [Compare(column, op, Mark)], args + [arg], x => wanted(x) && more(x))
  {
    CollectMark(like, where, args, Compare(column, op, Mark), arg);
  }

  /** One optional filter with an argument: `where = append(where, …); args = append(args, …)`. */
  method Add<T(!new)>(ghost like: Like, ghost cells: T -> Row, where: seq<Clause>, args: seq<Value>,
      ghost wanted: T -> bool,
                      column: string, op: string, arg: Option<Value>, ghost more: T -> bool)
    returns (where': seq<Clause>, args': seq<Value>)
    requires Selecting(like, cells, where, args, wanted) && NoMark(column) && NoMark(op)
    requires arg.Some? ==> Says(like, cells, column, op, arg.value, more)
    requires arg.None? ==> forall x :: more(x)
    ensures Selecting(like, cells, where', args', x => wanted(x) && more(x))
    ensures |where'| == |where| + if arg.None? then 0 else 1
  {
    where', args' := where, args;
    if arg.Some? {
      SelectingMore(like, cells, where, args, wanted, column, op, arg.value, more);
      where' := where' + [Compare(column, op, Mark)];
      args' := args' + [arg.value];
    }
  }

  /** granteeWhere: no clause for no grantee, and no argument for the unassigned messages. */
  function GranteeWhere(column: string, g: string): (seq<Clause>, seq<Value>) {
    if g == "" then ([], [])
    else if g == UNASSIGNED_GRANTEE then ([IsNull(column)], [])
    else ([Compare(column, "=", Mark)], [Str(g)])
  }

  lemma GranteeSelecting(like: Like, g: string)
    ensures var (where, args) := GranteeWhere("m.grantee_id", g);
            Selecting(like, MessageCells, where, args, m => GranteeIs(g, m))
  {
    var (where, args) := GranteeWhere("m.grantee_id", g);
    assert NoMark("m.grantee_id") && NoMark("=");
    forall m
      ensures Collected(like, where, args, MessageCells(m)) <==> GranteeIs(g, m)
    {
      MessageCell(m);
    }
  }

  // ---------- the arguments of the optional filters ----------

  function Pattern(word: string): Option<Value> {
    if word == "" then None else Some(Str("%" + word + "%"))
  }

  function Instant(t: Option<int>): Option<Value> {
    match t
    case Some(n) => Some(Number(n))
    case None => None
  }

  function CursorArg(cursor: int): Option<Value> {
    if cursor > 0 then Some(Number(cursor)) else None
  }

  function FromFilter(like: Like, word: string): MessageRow -> bool {
    (m: MessageRow) => Mentions(like, word, Some(m.from))
  }

  function SubjectFilter(like: Like, word: string): MessageRow -> bool {
    (m: MessageRow) => Mentions(like, word, m.subject)
  }

  function BodyFilter(like: Like, word: string): MessageRow -> bool {
    (m: MessageRow) => Mentions(like, word, m.body)
  }

  function SinceFilter(since: Option<int>): MessageRow -> bool {
    (m: MessageRow) => Within(since, None, m.date)
  }

  function UntilFilter(until: Option<int>): MessageRow -> bool {
    (m: MessageRow) => Within(None, until, m.date)
  }

  function CursorFilter(cursor: int): MessageRow -> bool {
    (m: MessageRow) => BelowCursor(cursor, m.id)
  }

  lemma MessageFiltersSay(like: Like, word: string)
    requires word != ""
    ensures var arg := Str("%" + word + "%");
            && Says(like, MessageCells, "m.from_addr", "ILIKE", arg, FromFilter(like, word))
            && Says(like, MessageCells, "m.subject", "ILIKE", arg, SubjectFilter(like, word))
            && Says(like, MessageCells, "m.body_text", "ILIKE", arg, BodyFilter(like, word))
  {
    forall m: MessageRow {
      MessageCell(m);
    }
  }

  lemma MessageBoundsSay(like: Like, n: int)
    ensures Says(like, MessageCells, "m.date", ">=", Number(n), SinceFilter(Some(n)))
    ensures Says(like, MessageCells, "m.date", "<=", Number(n), UntilFilter(Some(n)))
    ensures n > 0 ==> Says(like, MessageCells, "m.id", "<", Number(n), CursorFilter(n))
  {
    forall m: MessageRow {
      MessageCell(m);
    }
  }

  /** The since, until and cursor filters. */
  method AddBounds(ghost like: Like, where: seq<Clause>, args: seq<Value>, ghost wanted: MessageRow -> bool,
                   since: Option<int>, until: Option<int>, cursor: int)
    returns (where': seq<Clause>, args': seq<Value>)
    requires Selecting(like, MessageCells, where, args, wanted)
    ensures Selecting(like, MessageCells, where', args',
        m => wanted(m) && Within(since, until, m.date) && BelowCursor(cursor, m.id))
    ensures |where'| == |where| + (if since.Some? then 1 else 0) + (if until.Some? then 1 else 0)
        + (if cursor > 0 then 1 else 0)
  {
    where', args' := where, args;
    assert NoMark("m.date") && NoMark("m.id") && NoMark(">=") && NoMark("<=") && NoMark("<");
    ghost var w1 := (m: MessageRow) => wanted(m) && SinceFilter(since)(m);
    ghost var w2 := (m: MessageRow) => w1(m) && UntilFilter(until)(m);
    if since.Some? {
      MessageBoundsSay(like, since.value);
    }
    where', args' := Add(like, MessageCells, where', args', wanted, "m.date", ">=", Instant(since), SinceFilter(since));
    assert Selecting(like, MessageCells, where', args', w1);
    if until.Some? {
      MessageBoundsSay(like, until.value);
    }
    where', args' := Add(like, MessageCells, where', args', w1, "m.date", "<=", Instant(until), UntilFilter(until));
    assert Selecting(like, MessageCells, where', args', w2);
    MessageBoundsSay(like, cursor);
    where', args' := Add(like, MessageCells, where', args', w2, "m.id", "<", CursorArg(cursor), CursorFilter(cursor));
  }

  // ---------- the prepared queries ----------

  /**
   A prepared query is sound for a filter: its text, once rebound, has the numbers 1, 2, … in order, one for
   each argument; and under these arguments it selects exactly the wanted rows.
   */
  ghost predicate Sound<T(!new)>(like: Like, cells: T -> Row, q: Prepared, wanted: T -> bool) {
    var sent := NumberQuery(q.query);
    && RebindFrom(Render(Pieces(q.query)), 0) == Render(Pieces(sent))
    && |Numbers(Pieces(sent))| == |q.args|
    && (forall i :: 0 <= i < |q.args| ==> Numbers(Pieces(sent))[i] == i + 1)
    && forall x :: Selects(like, sent.where, q.args, cells(x)) <==> wanted(x)
  }

  lemma PreparedIsSound<T(!new)>(like: Like, cells: T -> Row, q: Query, before: seq<Value>, args: seq<Value>,
      after: seq<Value>, wanted: T -> bool)
    requires Selecting(like, cells, q.where, args, wanted) && PlainQuery(q)
    requires MarksIn(q.head) == |before| && MarksIn(q.tail) == |after|
    ensures Sound(like, cells, Prepared(q, before + args + after), wanted)
  {
    RebindQuery(q);
    PiecesPlain(q);
    NumberedPieces(q);
    NumbersInOrder(Pieces(q), 0);
    forall x
      ensures Selects(like, NumberQuery(q).where, before + args + after, cells(x)) <==> wanted(x)
    {
      NumberingBinds(like, q.where, before, args, after, cells(x));
    }
  }

  /** The length of the snippets comes first, the limit, with one row to spare, last. */
  predicate Framed(args: seq<Value>, limit: int) {
    |args| >= 2 && args[0] == Number(SNIPPET_LEN) && args[|args| - 1] == Number(Paging.ClampLimit(limit) + 1)
  }

  /** SearchMessages refuses to run without a filter; else its query selects what the filters ask for. */
  method SearchMessages(ghost like: Like, p: SearchParams) returns (r: Option<Prepared>)
    ensures r.None? <==> NoFilter(p)
    ensures r.Some? ==> Sound(like, MessageCells, r.value, m => MessageWanted(like, p, m))
    ensures r.Some? ==> Framed(r.value.args, p.limit) && LatestFirst(r.value.query)
  {
    var limit := Paging.ClampLimit(p.limit);
    var (where, args) := GranteeWhere("m.grantee_id", p.grantee);
    GranteeSelecting(like, p.grantee);
    where, args := AddMentions(like, where, args, p);
    ghost var w := (m: MessageRow) => MessagePeople(like, p, m);
    where, args := AddBounds(like, where, args, w, p.since, p.until, p.cursor);
    if |where| == 0 {
      return None;
    }
    MessagePartsPlain(where);
    ghost var before, after := [Number(SNIPPET_LEN)], [Number(limit + 1)];
    PreparedIsSound(like, MessageCells, MessageQuery(where), before, args, after, m => MessageWanted(like, p, m));
    args := [Number(SNIPPET_LEN)] + args;
    args := args + [Number(limit + 1)];
    r := Some(Prepared(MessageQuery(where), args));
  }

  predicate MessagePeople(like: Like, p: SearchParams, m: MessageRow) {
    && GranteeIs(p.grantee, m)
    && Mentions(like, p.from, Some(m.from))
    && Mentions(like, p.subject, m.subject)
    && Mentions(like, p.body, m.body)
  }

  method AddMentions(ghost like: Like, where: seq<Clause>, args: seq<Value>, p: SearchParams)
    returns (where': seq<Clause>, args': seq<Value>)
    requires Selecting(like, MessageCells, where, args, m => GranteeIs(p.grantee, m))
    ensures Selecting(like, MessageCells, where', args', m => MessagePeople(like, p, m))
    ensures |where'| == |where| + (if p.from == "" then 0 else 1) + (if p.subject == "" then 0 else 1)
        + (if p.body == "" then 0 else 1)
  {
    where', args' := where, args;
    assert NoMark("m.from_addr") && NoMark("m.subject") && NoMark("m.body_text") && NoMark("ILIKE");
    ghost var w0 := (m: MessageRow) => GranteeIs(p.grantee, m);
    ghost var w1 := (m: MessageRow) => w0(m) && FromFilter(like, p.from)(m);
    ghost var w2 := (m: MessageRow) => w1(m) && SubjectFilter(like, p.subject)(m);
    if p.from != "" {
      MessageFiltersSay(like, p.from);
    }
    where', args' := Add(like, MessageCells, where', args', w0, "m.from_addr", "ILIKE", Pattern(p.from),
        FromFilter(like, p.from));
    assert Selecting(like, MessageCells, where', args', w1);
    if p.subject != "" {
      MessageFiltersSay(like, p.subject);
    }
    where', args' := Add(like, MessageCells, where', args', w1, "m.subject", "ILIKE", Pattern(p.subject),
        SubjectFilter(like, p.subject));
    assert Selecting(like, MessageCells, where', args', w2);
    if p.body != "" {
      MessageFiltersSay(like, p.body);
    }
    where', args' := Add(like, MessageCells, where', args', w2, "m.body_text", "ILIKE", Pattern(p.body),
        BodyFilter(like, p.body));
  }

  /** ListMessagesByGrantee insists on a grantee, or on the unassigned messages. */
  method ListMessages(ghost like: Like, g: string, since: Option<int>, until: Option<int>, cursor: int, limit: int)
    returns (r: Option<Prepared>)
    ensures r.None? <==> g == ""
    ensures r.Some? ==> Sound(like, MessageCells, r.value,
                          m => GranteeIs(g, m) && Within(since, until, m.date) && BelowCursor(cursor, m.id))
    ensures r.Some? ==> Framed(r.value.args, limit) && LatestFirst(r.value.query)
  {
    var clamped := Paging.ClampLimit(limit);
    var (where, args) := GranteeWhere("m.grantee_id", g);
    if g == "" {
      return None;
    }
    GranteeSelecting(like, g);
    ghost var w := (m: MessageRow) => GranteeIs(g, m);
    where, args := AddBounds(like, where, args, w, since, until, cursor);
    MessagePartsPlain(where);
    ghost var before, after := [Number(SNIPPET_LEN)], [Number(clamped + 1)];
    PreparedIsSound(like, MessageCells, MessageQuery(where), before, args, after,
      m => GranteeIs(g, m) && Within(since, until, m.date) && BelowCursor(cursor, m.id));
    args := [Number(SNIPPET_LEN)] + args;
    args := args + [Number(clamped + 1)];
    r := Some(Prepared(MessageQuery(where), args));
  }

  // ---------- notes ----------

  function NoteGrantee(g: string): NoteRow -> bool {
    (n: NoteRow) => n.grantee == g
  }

  function NoteKind(kind: string): NoteRow -> bool {
    (n: NoteRow) => kind == "" || n.kind == kind
  }

  function NoteSince(since: Option<int>): NoteRow -> bool {
    (n: NoteRow) => Within(since, None, n.createdAt)
  }

  function NoteUntil(until: Option<int>): NoteRow -> bool {
    (n: NoteRow) => Within(None, until, n.createdAt)
  }

  function NoteCursor(cursor: int): NoteRow -> bool {
    (n: NoteRow) => BelowCursor(cursor, n.id)
  }

  lemma NoteFiltersSay(like: Like, text: string, k: int)
    ensures Says(like, NoteCells, "n.grantee_id", "=", Str(text), NoteGrantee(text))
    ensures text != "" ==> Says(like, NoteCells, "n.kind", "=", Str(text), NoteKind(text))
    ensures Says(like, NoteCells, "n.created_at", ">=", Number(k), NoteSince(Some(k)))
    ensures Says(like, NoteCells, "n.created_at", "<=", Number(k), NoteUntil(Some(k)))
    ensures k > 0 ==> Says(like, NoteCells, "n.id", "<", Number(k), NoteCursor(k))
  {
    forall n: NoteRow {
      NoteCell(n);
    }
  }

  lemma NothingSelecting(like: Like)
    ensures Selecting(like, NoteCells, [], [], (n: NoteRow) => true)
  {
  }

  predicate NoteScope(f: NoteFilter, n: NoteRow) {
    n.grantee == f.grantee && (f.kind == "" || n.kind == f.kind)
  }

  /** Unless superseded notes are asked for, the last clause leaves them out. */
  lemma CurrentSelecting(like: Like, f: NoteFilter, where: seq<Clause>, args: seq<Value>)
    requires Selecting(like, NoteCells, where, args,
               (n: NoteRow) => NoteScope(f, n) && Within(f.since, f.until, n.createdAt) && BelowCursor(f.cursor, n.id))
    ensures Selecting(like, NoteCells, if f.includeSuperseded then where else where + [NotSuperseded], args,
              (n: NoteRow) => NoteWanted(f, n))
  {
    CollectPlain(like, where, args, NotSuperseded);
  }

  method AddNoteGrantee(ghost like: Like, f: NoteFilter) returns (where: seq<Clause>, args: seq<Value>)
    ensures Selecting(like, NoteCells, where, args, n => NoteScope(f, n))
  {
    var g, kind := f.grantee, f.kind;
    where, args := [], [];
    assert NoMark("n.grantee_id") && NoMark("n.kind") && NoMark("=");
    ghost var w0 := (n: NoteRow) => true;
    ghost var w1 := (n: NoteRow) => w0(n) && NoteGrantee(g)(n);
    NothingSelecting(like);
    assert Selecting(like, NoteCells, where, args, w0);
    NoteFiltersSay(like, g, 0);
    where, args := Add(like, NoteCells, where, args, w0, "n.grantee_id", "=", Some(Str(g)), NoteGrantee(g));
    assert Selecting(like, NoteCells, where, args, w1);
    NoteFiltersSay(like, kind, 0);
    where, args := Add(like, NoteCells, where, args, w1, "n.kind", "=", if kind == "" then None else Some(Str(kind)),
        NoteKind(kind));
  }

  method AddNoteBounds(ghost like: Like, where: seq<Clause>, args: seq<Value>, ghost wanted: NoteRow -> bool,
      f: NoteFilter)
    returns (where': seq<Clause>, args': seq<Value>)
    requires Selecting(like, NoteCells, where, args, wanted)
    ensures Selecting(like, NoteCells, where', args',
        n => wanted(n) && Within(f.since, f.until, n.createdAt) && BelowCursor(f.cursor, n.id))
  {
    where', args' := where, args;
    assert NoMark("n.created_at") && NoMark("n.id") && NoMark(">=") && NoMark("<=") && NoMark("<");
    ghost var w1 := (n: NoteRow) => wanted(n) && NoteSince(f.since)(n);
    ghost var w2 := (n: NoteRow) => w1(n) && NoteUntil(f.until)(n);
    if f.since.Some? {
      NoteFiltersSay(like, "", f.since.value);
    }
    where', args' := Add(like, NoteCells, where', args', wanted, "n.created_at", ">=", Instant(f.since),
        NoteSince(f.since));
    assert Selecting(like, NoteCells, where', args', w1);
    if f.until.Some? {
      NoteFiltersSay(like, "", f.until.value);
    }
    where', args' := Add(like, NoteCells, where', args', w1, "n.created_at", "<=", Instant(f.until),
        NoteUntil(f.until));
    assert Selecting(like, NoteCells, where', args', w2);
    NoteFiltersSay(like, "", f.cursor);
    where', args' := Add(like, NoteCells, where', args', w2, "n.id", "<", CursorArg(f.cursor), NoteCursor(f.cursor));
  }

  lemma PreparedNotesSound(like: Like, f: NoteFilter, where: seq<Clause>, args: seq<Value>, limit: int)
    requires Selecting(like, NoteCells, where, args, (n: NoteRow) => NoteWanted(f, n))
    ensures Sound(like, NoteCells, Prepared(NoteQuery(where), args + [Number(limit + 1)]),
        (n: NoteRow) => NoteWanted(f, n))
  {
    NotePartsPlain(where);
    PreparedIsSound(like, NoteCells, NoteQuery(where), [], args, [Number(limit + 1)], (n: NoteRow) => NoteWanted(f, n));
    assert [] + args + [Number(limit + 1)] == args + [Number(limit + 1)];
  }

  /** The query of ListNotes, for a filter that names a grantee and a known kind. */
  method PrepareNotes(ghost like: Like, f: NoteFilter) returns (r: Prepared)
    ensures Sound(like, NoteCells, r, n => NoteWanted(f, n))
    ensures r.args != [] && r.args[|r.args| - 1] == Number(Paging.ClampLimit(f.limit) + 1)
    ensures LargestIdFirst(r.query)
  {
    var limit := Paging.ClampLimit(f.limit);
    var where, args := AddNoteGrantee(like, f);
    where, args := AddNoteBounds(like, where, args, (n: NoteRow) => NoteScope(f, n), f);
    CurrentSelecting(like, f, where, args);
    if !f.includeSuperseded {
      where := where + [NotSuperseded];
    }
    PreparedNotesSound(like, f, where, args, limit);
    args := args + [Number(limit + 1)];
    r := Prepared(NoteQuery(where), args);
  }

  // ---------- the rows behind a page of messages ----------

  /** The messages a search is about, wherever the cursor stands. */
  function MatchingMessages(like: Like, table: map<int, MessageRow>, p: SearchParams): set<int> {
    set id | id in table && MessageWanted(like, p.(cursor := 0), table[id])
  }

  function SelectedMessages(like: Like, table: map<int, MessageRow>, q: Prepared): set<int> {
    set id | id in table && Selects(like, NumberQuery(q.query).where, q.args, MessageCells(table[id]))
  }

  /** What the query of a page selects is what matches, below the cursor: the rows that paging cuts pages from. */
  lemma SelectedIsBelowCursor(like: Like, table: map<int, MessageRow>, p: SearchParams, q: Prepared)
    requires forall id :: id in table ==> table[id].id == id
    requires Sound(like, MessageCells, q, (m: MessageRow) => MessageWanted(like, p, m))
    ensures SelectedMessages(like, table, q) == Paging.Below(MatchingMessages(like, table, p), p.cursor)
  {
    var matching := MatchingMessages(like, table, p);
    forall id
      ensures id in SelectedMessages(like, table, q) <==> id in Paging.Below(matching, p.cursor)
    {
      if id in table {
        assert Selects(like, NumberQuery(q.query).where, q.args, MessageCells(table[id])) <==>
                MessageWanted(like, p, table[id]);
        assert MessageWanted(like, p, table[id]) <==>
                MessageWanted(like, p.(cursor := 0), table[id]) && BelowCursor(p.cursor, id);
      }
    }
  }
}
