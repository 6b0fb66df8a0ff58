/** The notes table with its statements, and the create_note tool on top of it. */
module NoteStore {
  import opened Wrappers
  import opened Text
  import opened Queries
  import opened Paging
  import opened Search
  import opened Notes

  /** The ids of the rows that the WHERE of a prepared query selects. */
  function SelectedIds(like: Like, db: NotesDb, q: Prepared): set<int> {
    set id | id in db.notes && Selects(like, NumberQuery(q.query).where, q.args, NoteCells(RowOf(db, id)))
  }

  lemma SelectedIsMatching(like: Like, db: NotesDb, q: Prepared, f: NoteFilter)
    requires Sound(like, NoteCells, q, (n: NoteRow) => NoteWanted(f, n))
    ensures SelectedIds(like, db, q) == Below(Matching(db, f), f.cursor)
  {
    forall id | id in db.notes
      ensures Selects(like, NumberQuery(q.query).where, q.args, NoteCells(RowOf(db, id))) <==>
              NoteWanted(f, RowOf(db, id))
    {
    }
  }

  class Store {
    const clean: string -> string
    const like: Like
    var grantees: set<string>
    var notes: map<int, Note>
    var noteSeq: nat

    function Db(): NotesDb
      reads this
    {
      NotesDb(grantees, notes, noteSeq)
    }

    constructor (clean: string -> string, like: Like)
      ensures Db() == NotesDb({}, map[], 0) && this.clean == clean && this.like == like
    {
      this.clean, this.like, grantees, notes, noteSeq := clean, like, {}, map[], 0;
    }

    /** INSERT INTO notes … RETURNING id */
    method Insert(row: Note) returns (id: Option<int>)
      modifies this
      ensures Db() == InsertNote(old(Db()), row)
      ensures id == if row.grantee in grantees && (row.supersedes.Some? ==> row.supersedes.value in old(notes))
              then Some(noteSeq) else None
    {
      noteSeq := noteSeq + 1;
      if row.grantee !in grantees || (row.supersedes.Some? && row.supersedes.value !in notes) {
        return None;
      }
      id := Some(noteSeq);
      notes := notes[noteSeq := row];
    }

    method CreateNote(grantee: string, content: string, kind: string, signal: string, supersedes: Option<int>, now: int)
      returns (id: Option<int>)
      modifies this
      ensures match NewRow(clean, grantee, content, kind, signal, supersedes, now)
              case None => Db() == old(Db()) && id == None
              case Some(row) =>
                && Db() == InsertNote(old(Db()), row)
                && id == if row.grantee in grantees && (row.supersedes.Some? ==> row.supersedes.value in old(notes))
                        then Some(noteSeq) else None
    {
      var g, text := TrimSpace(grantee), clean(TrimSpace(content));
      if g == "" || text == "" {
        return None;
      }
      var k := if kind == "" then "note" else kind;
      if !ValidKind(k) {
        return None;
      }
      id := Insert(Note(g, k, text, TrimSpace(signal), supersedes, now));
    }

    /** The tool: checks that the grantee exists and that a superseded note is the grantee's own, then creates. */
    method CreateNoteTool(input: NoteInput, now: int) returns (id: Option<int>)
      modifies this
      ensures match Checked(clean, old(Db()), input, now)
              case None => Db() == old(Db()) && id == None
              case Some(row) => Db() == InsertNote(old(Db()), row)
      ensures id.Some? <==> Acceptable(clean, old(Db()), input)
      ensures id.Some? ==> id.value == noteSeq && Added(clean, old(Db()), input, now, Db())
      ensures id.None? ==> Db() == old(Db())
    {
      CheckedKeeps(clean, Db(), input, now);
      TrimIdempotent(input.grantee, IsSpace);
      hide Trim, Keeps;
      var g := TrimSpace(input.grantee);
      if g == "" {
        return None;
      }
      if TrimSpace(input.content) == "" {
        return None;
      }
      var kind := TrimSpace(input.kind);
      if kind != "" && !ValidKind(kind) {
        return None;
      }
      if g !in grantees {
        return None;
      }
      var supersedes := None;
      if input.supersedes != 0 {
        if input.supersedes !in notes {
          return None;
        }
        if notes[input.supersedes].grantee != g {
          return None;
        }
        supersedes := Some(input.supersedes);
      }
      id := CreateNote(g, input.content, kind, input.signal, supersedes, now);
    }

    /** The database runs the query as sent: WHERE, then ORDER BY id DESC, then LIMIT. */
    method RunQuery(q: Prepared, limit: nat) returns (rows: seq<int>)
      requires LargestIdFirst(q.query)
      ensures rows == Take(Ordered(SelectedIds(like, Db(), q), ById()), limit)
    {
      rows := OrderAndLimit(SelectedIds(like, Db(), q), ById(), limit);
    }

    method ListNotes(f: NoteFilter) returns (r: Option<Page>)
      ensures r.None? <==> TrimSpace(f.grantee) == "" || (f.kind != "" && !ValidKind(f.kind))
      ensures r.Some? ==> r.value == PageOf(Matching(Db(), f), ById(), f.cursor, ClampLimit(f.limit))
      ensures r.Some? ==> IsPage(r.value, Matching(Db(), f), ById(), f.cursor, ClampLimit(f.limit))
    {
      if TrimSpace(f.grantee) == "" {
        return None;
      }
      if f.kind != "" && !ValidKind(f.kind) {
        return None;
      }
      var limit := ClampLimit(f.limit);
      var q := PrepareNotes(like, f);
      var rows := RunQuery(q, limit + 1);
      SelectedIsMatching(like, Db(), q, f);
      var page := ScanPage(rows, limit);
      PageIsPage(Matching(Db(), f), ById(), f.cursor, limit);
      r := Some(page);
    }
  }
}
