/**
 Notes about a grantee (internal/store/notes.go and createNote of internal/mcpserver/server.go): what a
 run of create_note keeps, and what listing and paging return.
 */
module Notes {
  import opened Wrappers
  import opened Text
  import opened Queries
  import opened Paging
  import opened Search

  datatype Note = Note(
    grantee: string, kind: string, content: string, signal: string, supersedes: Option<int>, createdAt: int)

  datatype NotesDb = NotesDb(grantees: set<string>, notes: map<int, Note>, noteSeq: nat)

  /** The tool's input; supersedes is 0 when absent. */
  datatype NoteInput = NoteInput(grantee: string, content: string, kind: string, signal: string, supersedes: int)

  const KINDS := {"note", "fact", "preference", "status", "contact"}

  predicate ValidKind(kind: string) {
    kind in KINDS
  }

  // ---------- create_note ----------

  /** CreateNote of the store up to the insert: the row it means to insert. clean strips what text columns reject. */
  function NewRow(clean: string -> string, grantee: string, content: string, kind: string, signal: string,
      supersedes: Option<int>, now: int): Option<Note> {
    var g, text, k := TrimSpace(grantee), clean(TrimSpace(content)), if kind == "" then "note" else kind;
    if g == "" || text == "" || !ValidKind(k) then None
    else Some(Note(g, k, text, TrimSpace(signal), supersedes, now))
  }

  /** The checks of the tool against the tables, and the row that results if all pass. */
  function Checked(clean: string -> string, db: NotesDb, input: NoteInput, now: int): Option<Note> {
    var g, kind := TrimSpace(input.grantee), TrimSpace(input.kind);
    if g == "" || TrimSpace(input.content) == "" || (kind != "" && !ValidKind(kind)) then None
    else if g !in db.grantees then None
    else if input.supersedes == 0 then NewRow(clean, g, input.content, kind, input.signal, None, now)
    else if input.supersedes !in db.notes || db.notes[input.supersedes].grantee != g then None
    else NewRow(clean, g, input.content, kind, input.signal, Some(input.supersedes), now)
  }

  /** What the tool asks of its input: a known grantee, text, a known kind if any, and a note of theirs to supersede. */
  predicate Acceptable(clean: string -> string, db: NotesDb, input: NoteInput) {
    var g, kind, text := TrimSpace(input.grantee), TrimSpace(input.kind), TrimSpace(input.content);
    && g != "" && g in db.grantees && text != "" && clean(text) != "" && (kind == "" || kind in KINDS)
    && (input.supersedes != 0 ==> input.supersedes in db.notes && db.notes[input.supersedes].grantee == g)
  }

  /** What a note holds of the input it was created from. */
  predicate Keeps(clean: string -> string, input: NoteInput, now: int, note: Note) {
    && note.grantee == TrimSpace(input.grantee)
    && note.kind == (if TrimSpace(input.kind) == "" then "note" else TrimSpace(input.kind))
    && note.content == clean(TrimSpace(input.content))
    && note.signal == TrimSpace(input.signal)
    && note.createdAt == now
    && (note.supersedes.None? <==> input.supersedes == 0)
    && (note.supersedes.Some? ==> note.supersedes.value == input.supersedes)
  }

  lemma CheckedKeeps(clean: string -> string, db: NotesDb, input: NoteInput, now: int)
    ensures Checked(clean, db, input, now).Some? <==> Acceptable(clean, db, input)
    ensures Checked(clean, db, input, now).Some? ==> Keeps(clean, input, now, Checked(clean, db, input, now).value)
  {
    TrimIdempotent(input.grantee, IsSpace);
    hide Trim;
  }

  /** INSERT INTO notes, under its two foreign keys. A rejected insert uses up an id. */
  function InsertNote(db: NotesDb, note: Note): NotesDb {
    var id := db.noteSeq + 1;
    var burned := db.(noteSeq := id);
    if note.grantee !in db.grantees || (note.supersedes.Some? && note.supersedes.value !in db.notes) then burned
    else burned.(notes := db.notes[id := note])
  }

  // ---------- runs ----------

  /** Create inserts on the strength of checks made when the tables were as in state seen. */
  datatype Move = Create(input: NoteInput, now: int, seen: nat) | AddGrantee(g: string)

  ghost predicate Next(clean: string -> string, dbs: seq<NotesDb>, n: nat, mv: Move, db': NotesDb)
    requires n < |dbs|
  {
    match mv
    case AddGrantee(g) => db' == dbs[n].(grantees := dbs[n].grantees + {g})
    case Create(input, now, seen) =>
      && seen <= n
      && var note := Checked(clean, dbs[seen], input, now);
         db' == if note.Some? then InsertNote(dbs[n], note.value) else dbs[n]
  }

  /** Any calls of create_note, however the statements of concurrent calls interleave. */
  ghost predicate Run(clean: string -> string, dbs: seq<NotesDb>, moves: seq<Move>) {
    && |dbs| == |moves| + 1
    && dbs[0].notes == map[] && dbs[0].noteSeq == 0
    && forall n :: 0 <= n < |moves| ==> Next(clean, dbs, n, moves[n], dbs[n + 1])
  }

  // ---------- supersession ----------

  ghost predicate Supersedes(db: NotesDb, a: int, b: int) {
    a in db.notes && db.notes[a].supersedes == Some(b)
  }

  /** A note supersedes an older note of its own grantee, or none. */
  ghost predicate Forest(db: NotesDb) {
    && (forall id :: id in db.notes ==> 0 < id <= db.noteSeq && ValidKind(db.notes[id].kind))
    && forall a, b :: Supersedes(db, a, b) ==> b in db.notes && b < a && db.notes[b].grantee == db.notes[a].grantee
  }

  ghost predicate NotesStay(a: NotesDb, b: NotesDb) {
    forall id :: id in a.notes ==> id in b.notes && b.notes[id] == a.notes[id]
  }

  lemma InsertKeepsForest(seen: NotesDb, db: NotesDb, clean: string -> string, input: NoteInput, now: int)
    requires Forest(db) && NotesStay(seen, db) && Checked(clean, seen, input, now).Some?
    ensures var db' := InsertNote(db, Checked(clean, seen, input, now).value);
            Forest(db') && NotesStay(db, db')
  {
    var note := Checked(clean, seen, input, now).value;
    TrimIdempotent(input.grantee, IsSpace);
    assert note.supersedes.Some? ==>
        note.supersedes.value in db.notes && db.notes[note.supersedes.value].grantee == note.grantee;
    var db' := InsertNote(db, note);
    forall a, b | Supersedes(db', a, b)
      ensures b in db'.notes && b < a && db'.notes[b].grantee == db'.notes[a].grantee
    {
      assert a in db.notes ==> Supersedes(db, a, b);
    }
  }

  lemma NotesStayOn(a: NotesDb, b: NotesDb, c: NotesDb)
    requires NotesStay(a, b) && NotesStay(b, c)
    ensures NotesStay(a, c)
  {
  }

  lemma NextKeepsNotes(clean: string -> string, dbs: seq<NotesDb>, n: nat, mv: Move, db': NotesDb)
    requires n < |dbs| && Next(clean, dbs, n, mv, db')
    requires forall id :: id in dbs[n].notes ==> id <= dbs[n].noteSeq
    ensures NotesStay(dbs[n], db') && dbs[n].noteSeq <= db'.noteSeq
    ensures forall id :: id in db'.notes ==> id <= db'.noteSeq
  {
  }

  lemma {:induction false} IdsIssued(clean: string -> string, dbs: seq<NotesDb>, moves: seq<Move>, n: nat)
    requires Run(clean, dbs, moves) && n < |dbs|
    ensures forall id :: id in dbs[n].notes ==> id <= dbs[n].noteSeq
  {
    if n > 0 {
      IdsIssued(clean, dbs, moves, n - 1);
      NextKeepsNotes(clean, dbs, n - 1, moves[n - 1], dbs[n]);
    }
  }

  /** Notes are never changed and never go away. */
  lemma {:induction false} RunKeepsNotes(clean: string -> string, dbs: seq<NotesDb>, moves: seq<Move>, k: nat, n: nat)
    requires Run(clean, dbs, moves) && k <= n < |dbs|
    ensures NotesStay(dbs[k], dbs[n])
    decreases n
  {
    if k < n {
      RunKeepsNotes(clean, dbs, moves, k, n - 1);
      IdsIssued(clean, dbs, moves, n - 1);
      NextKeepsNotes(clean, dbs, n - 1, moves[n - 1], dbs[n]);
      NotesStayOn(dbs[k], dbs[n - 1], dbs[n]);
    }
  }

  lemma NextKeepsForest(clean: string -> string, dbs: seq<NotesDb>, n: nat, mv: Move, db': NotesDb)
    requires n < |dbs| && Next(clean, dbs, n, mv, db') && Forest(dbs[n])
    requires mv.Create? ==> NotesStay(dbs[mv.seen], dbs[n])
    ensures Forest(db')
  {
    if mv.Create? && Checked(clean, dbs[mv.seen], mv.input, mv.now).Some? {
      InsertKeepsForest(dbs[mv.seen], dbs[n], clean, mv.input, mv.now);
    } else {
      assert forall a, b :: Supersedes(db', a, b) ==> Supersedes(dbs[n], a, b);
    }
  }

  /** Supersession stays within a grantee and leads to older notes, in every run. */
  lemma {:induction false} RunKeepsForest(clean: string -> string, dbs: seq<NotesDb>, moves: seq<Move>, n: nat)
    requires Run(clean, dbs, moves) && n < |dbs|
    ensures Forest(dbs[n])
  {
    if n > 0 {
      RunKeepsForest(clean, dbs, moves, n - 1);
      var mv := moves[n - 1];
      if mv.Create? {
        RunKeepsNotes(clean, dbs, moves, mv.seen, n - 1);
      }
      NextKeepsForest(clean, dbs, n - 1, mv, dbs[n]);
    }
  }

  // ---------- what notes hold ----------

  lemma {:induction false} RunKeepsGrantees(clean: string -> string, dbs: seq<NotesDb>, moves: seq<Move>, k: nat,
      n: nat)
    requires Run(clean, dbs, moves) && k <= n < |dbs|
    ensures dbs[k].grantees <= dbs[n].grantees
    decreases n
  {
    if k < n {
      RunKeepsGrantees(clean, dbs, moves, k, n - 1);
      assert Next(clean, dbs, n - 1, moves[n - 1], dbs[n]);
    }
  }

  /** b is a with one more note, under a new id, that keeps what the input says. */
  ghost predicate Added(clean: string -> string, a: NotesDb, input: NoteInput, now: int, b: NotesDb) {
    var id := b.noteSeq;
    && id > a.noteSeq && b.notes.Keys == a.notes.Keys + {id} && b.grantees == a.grantees
    && (forall i :: i in a.notes && i != id ==> b.notes[i] == a.notes[i])
    && Keeps(clean, input, now, b.notes[id])
  }

  /** In every run a call of create_note adds its note if its input was acceptable when checked, and else nothing. */
  lemma CreateMoveAdds(clean: string -> string, dbs: seq<NotesDb>, moves: seq<Move>, n: nat)
    requires Run(clean, dbs, moves) && n < |moves| && moves[n].Create?
    ensures moves[n].seen <= n
    ensures if Acceptable(clean, dbs[moves[n].seen], moves[n].input)
            then Added(clean, dbs[n], moves[n].input, moves[n].now, dbs[n + 1])
            else dbs[n + 1] == dbs[n]
  {
    var mv := moves[n];
    assert Next(clean, dbs, n, mv, dbs[n + 1]);
    CheckedKeeps(clean, dbs[mv.seen], mv.input, mv.now);
    RunKeepsNotes(clean, dbs, moves, mv.seen, n);
    RunKeepsGrantees(clean, dbs, moves, mv.seen, n);
    hide Checked, TrimSpace;
  }

  /** Every note of every run was created, as it stands, by one call that found its input acceptable. */
  lemma {:induction false} EveryNoteWasCreated(clean: string -> string, dbs: seq<NotesDb>, moves: seq<Move>, n: nat,
      id: int)
      returns (k: nat)
    requires Run(clean, dbs, moves) && n < |dbs| && id in dbs[n].notes
    ensures k < n && moves[k].Create? && moves[k].seen <= k && id !in dbs[k].notes
    ensures Acceptable(clean, dbs[moves[k].seen], moves[k].input)
    ensures Keeps(clean, moves[k].input, moves[k].now, dbs[n].notes[id])
  {
    var mv := moves[n - 1];
    assert Next(clean, dbs, n - 1, mv, dbs[n]);
    hide Acceptable, Keeps, Checked;
    if id in dbs[n - 1].notes {
      k := EveryNoteWasCreated(clean, dbs, moves, n - 1, id);
      RunKeepsNotes(clean, dbs, moves, n - 1, n);
    } else {
      k := n - 1;
      assert mv.Create?;
      CreateMoveAdds(clean, dbs, moves, k);
    }
  }

  /** Each note of the chain supersedes the next. */
  ghost predicate Chain(db: NotesDb, chain: seq<int>) {
    && chain != []
    && (forall i :: 0 <= i < |chain| ==> chain[i] in db.notes)
    && forall i :: 0 <= i < |chain| - 1 ==> Supersedes(db, chain[i], chain[i + 1])
  }

  /** Along a chain ids strictly fall and the grantee stays: there are no cycles, and no chain leaves a grantee. */
  lemma {:induction false} ChainsDescend(db: NotesDb, chain: seq<int>, i: nat, j: nat)
    requires Forest(db) && Chain(db, chain) && i <= j < |chain|
    ensures i < j ==> chain[j] < chain[i]
    ensures db.notes[chain[j]].grantee == db.notes[chain[i]].grantee
    decreases j - i
  {
    if i < j {
      ChainsDescend(db, chain, i, j - 1);
      assert Supersedes(db, chain[j - 1], chain[j]);
    }
  }

  // ---------- listing ----------

  predicate Superseded(db: NotesDb, id: int) {
    exists s :: s in db.notes && db.notes[s].supersedes == Some(id)
  }

  function RowOf(db: NotesDb, id: int): NoteRow
    requires id in db.notes
  {
    var n := db.notes[id];
    NoteRow(id, n.grantee, n.kind, n.createdAt, Superseded(db, id))
  }

  /** The notes a filter is about, wherever the cursor stands. */
  function Matching(db: NotesDb, f: NoteFilter): set<int> {
    set id | id in db.notes && NoteMatches(f, RowOf(db, id))
  }

  function DefaultFilter(g: string): NoteFilter {
    NoteFilter(g, "", None, None, 0, 0, false)
  }

  /** Every note is in its grantee's default list, or a note there leads to it by a chain of supersessions. */
  lemma {:induction false} ListedOrSuperseded(db: NotesDb, id: int) returns (chain: seq<int>)
    requires Forest(db) && id in db.notes
    ensures Chain(db, chain) && chain[|chain| - 1] == id
    ensures chain[0] in Matching(db, DefaultFilter(db.notes[id].grantee))
    decreases db.noteSeq - id
  {
    if Superseded(db, id) {
      var s :| s in db.notes && db.notes[s].supersedes == Some(id);
      assert Supersedes(db, s, id);
      var before := ListedOrSuperseded(db, s);
      chain := before + [id];
    } else {
      chain := [id];
    }
  }

  /** So it is at every moment of every run. */
  lemma EveryNoteIsKept(clean: string -> string, dbs: seq<NotesDb>, moves: seq<Move>, n: nat, id: int)
      returns (chain: seq<int>)
    requires Run(clean, dbs, moves) && n < |dbs| && id in dbs[n].notes
    ensures Forest(dbs[n])
    ensures Chain(dbs[n], chain) && chain[|chain| - 1] == id
    ensures chain[0] in Matching(dbs[n], DefaultFilter(dbs[n].notes[id].grantee))
  {
    RunKeepsForest(clean, dbs, moves, n);
    chain := ListedOrSuperseded(dbs[n], id);
  }

  // ---------- paging while notes are added ----------

  function ById(): int -> int {
    _ => 0
  }

  /** b came from a by any calls of create_note. */
  ghost predicate NewNotesOnly(a: NotesDb, b: NotesDb) {
    && a.noteSeq <= b.noteSeq
    && NotesStay(a, b)
    && (forall id :: id in a.notes ==> 0 < id <= a.noteSeq)
    && forall id :: id in b.notes && id !in a.notes ==> id > a.noteSeq
  }

  /** And none of the new notes supersedes anything. */
  ghost predicate OnlyAdditions(a: NotesDb, b: NotesDb) {
    NewNotesOnly(a, b) && forall id :: id in b.notes && id !in a.notes ==> b.notes[id].supersedes.None?
  }

  lemma InsertIsAddition(db: NotesDb, note: Note)
    requires Forest(db) && note.supersedes.None?
    ensures OnlyAdditions(db, InsertNote(db, note))
  {
  }

  lemma AdditionsChain(a: NotesDb, b: NotesDb, c: NotesDb)
    requires OnlyAdditions(a, b) && OnlyAdditions(b, c)
    ensures OnlyAdditions(a, c)
  {
  }

  lemma AdditionsKeepList(a: NotesDb, b: NotesDb, f: NoteFilter)
    requires OnlyAdditions(a, b)
    ensures Matching(a, f) <= Matching(b, f)
    ensures forall i, j :: i in Matching(a, f) && j in Matching(b, f) && j !in Matching(a, f) ==> j > i
    ensures Positive(Matching(b, f))
  {
    forall id | id in a.notes
      ensures Superseded(a, id) == Superseded(b, id)
    {
    }
  }

  lemma AdditionsSelf(db: NotesDb)
    requires Forest(db)
    ensures OnlyAdditions(db, db)
  {
  }

  lemma MoveIsAddition(clean: string -> string, dbs: seq<NotesDb>, n: nat, mv: Move, db': NotesDb)
    requires n < |dbs| && Next(clean, dbs, n, mv, db') && Forest(dbs[n])
    requires mv.Create? ==> mv.input.supersedes == 0
    ensures OnlyAdditions(dbs[n], db')
  {
    if mv.Create? && Checked(clean, dbs[mv.seen], mv.input, mv.now).Some? {
      InsertIsAddition(dbs[n], Checked(clean, dbs[mv.seen], mv.input, mv.now).value);
    }
  }

  /** No call of create_note between the two points of the run names a note to supersede. */
  ghost predicate NoneSuperseding(moves: seq<Move>, i: nat, j: nat) {
    forall n :: i <= n < j && n < |moves| && moves[n].Create? ==> moves[n].input.supersedes == 0
  }

  lemma {:induction false} RunOnlyAdds(clean: string -> string, dbs: seq<NotesDb>, moves: seq<Move>, i: nat, j: nat)
    requires Run(clean, dbs, moves) && i <= j < |dbs| && NoneSuperseding(moves, i, j)
    ensures OnlyAdditions(dbs[i], dbs[j])
    decreases j
  {
    if i == j {
      RunKeepsForest(clean, dbs, moves, i);
      AdditionsSelf(dbs[i]);
    } else {
      RunOnlyAdds(clean, dbs, moves, i, j - 1);
      RunKeepsForest(clean, dbs, moves, j - 1);
      MoveIsAddition(clean, dbs, j - 1, moves[j - 1], dbs[j]);
      AdditionsChain(dbs[i], dbs[j - 1], dbs[j]);
    }
  }

  // ---------- paging through a listing that includes superseded notes ----------

  lemma NewNotesOn(a: NotesDb, b: NotesDb, c: NotesDb)
    requires NewNotesOnly(a, b) && NewNotesOnly(b, c)
    ensures NewNotesOnly(a, c)
  {
  }

  lemma MoveAddsNew(clean: string -> string, dbs: seq<NotesDb>, n: nat, mv: Move, db': NotesDb)
    requires n < |dbs| && Next(clean, dbs, n, mv, db') && Forest(dbs[n])
    ensures NewNotesOnly(dbs[n], db')
  {
  }

  /** Superseding or not, later notes have larger ids. */
  lemma {:induction false} RunAddsNew(clean: string -> string, dbs: seq<NotesDb>, moves: seq<Move>, i: nat, j: nat)
    requires Run(clean, dbs, moves) && i <= j < |dbs|
    ensures NewNotesOnly(dbs[i], dbs[j])
    decreases j
  {
    if i == j {
      RunKeepsForest(clean, dbs, moves, i);
    } else {
      RunAddsNew(clean, dbs, moves, i, j - 1);
      RunKeepsForest(clean, dbs, moves, j - 1);
      MoveAddsNew(clean, dbs, j - 1, moves[j - 1], dbs[j]);
      NewNotesOn(dbs[i], dbs[j - 1], dbs[j]);
    }
  }

  /** A listing that includes superseded notes only grows at its newer end. */
  lemma NewNotesKeepFullList(a: NotesDb, b: NotesDb, f: NoteFilter)
    requires NewNotesOnly(a, b) && f.includeSuperseded
    ensures Matching(a, f) <= Matching(b, f)
    ensures forall i, j :: i in Matching(a, f) && j in Matching(b, f) && j !in Matching(a, f) ==> j > i
  {
  }

  // ---------- paging over points of a run ----------

  /** The k-th request of a client for a filter finds the notes as they are at point at(k) of the run. */
  ghost predicate Requests(dbs: seq<NotesDb>, moves: seq<Move>, at: nat -> nat, f: NoteFilter) {
    forall k :: at(0) <= at(k) < |dbs| && (f.includeSuperseded || NoneSuperseding(moves, at(0), at(k)))
  }

  /** What the k-th request for a filter has to choose from. */
  function Views(dbs: seq<NotesDb>, at: nat -> nat, f: NoteFilter): nat -> set<int>
    requires forall k :: at(k) < |dbs|
  {
    (k: nat) => Matching(dbs[at(k)], f)
  }

  lemma ViewGrows(clean: string -> string, dbs: seq<NotesDb>, moves: seq<Move>, i: nat, j: nat, f: NoteFilter)
    requires Run(clean, dbs, moves) && i <= j < |dbs| && (f.includeSuperseded || NoneSuperseding(moves, i, j))
    ensures Matching(dbs[i], f) <= Matching(dbs[j], f) && Positive(Matching(dbs[j], f))
    ensures forall a, b :: a in Matching(dbs[i], f) && b in Matching(dbs[j], f) && b !in Matching(dbs[i], f) ==> b > a
  {
    RunKeepsForest(clean, dbs, moves, j);
    if f.includeSuperseded {
      RunAddsNew(clean, dbs, moves, i, j);
      NewNotesKeepFullList(dbs[i], dbs[j], f);
    } else {
      RunOnlyAdds(clean, dbs, moves, i, j);
      AdditionsKeepList(dbs[i], dbs[j], f);
    }
  }

  lemma ViewsOnlyGrow(clean: string -> string, dbs: seq<NotesDb>, moves: seq<Move>, at: nat -> nat, f: NoteFilter)
    requires Run(clean, dbs, moves) && Requests(dbs, moves, at, f)
    ensures forall k :: Positive(Views(dbs, at, f)(k))
    ensures OnlyNewer(Views(dbs, at, f)) && NothingLost(Views(dbs, at, f))
  {
    var views := Views(dbs, at, f);
    forall k: nat
      ensures views(0) <= views(k) && Positive(views(k))
      ensures forall i, j :: i in views(0) && j in views(k) && j !in views(0) ==> j > i
    {
      ViewGrows(clean, dbs, moves, at(0), at(k), f);
    }
  }

  /**
   Following next_cursor through ListNotes ends and gives every note that matched at the first request, once,
   newest first, for every limit and filter, in every run of create_note and wherever the requests fall in it.
   A listing that leaves superseded notes out needs that no note is superseded between first request and last.
   */
  lemma NotePagingIsExact(
    clean: string -> string, dbs: seq<NotesDb>, moves: seq<Move>, at: nat -> nat, f: NoteFilter, limit: int)
    requires Run(clean, dbs, moves) && Requests(dbs, moves, at, f)
    ensures forall k :: Positive(Views(dbs, at, f)(k))
    ensures Follow(Views(dbs, at, f), ById(), 0, 0, ClampLimit(limit)) == Ordered(Matching(dbs[at(0)], f), ById())
  {
    ViewsOnlyGrow(clean, dbs, moves, at, f);
    PagingIsExact(Views(dbs, at, f), ById(), ClampLimit(limit));
  }
}
