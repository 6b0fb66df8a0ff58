/** What a cycle of the docs mirror leaves behind, and what stays true from cycle to cycle. */
module DriveCycles {
  import opened Wrappers
  import opened Text
  import opened DocTables
  import opened DriveWalk
  import opened DriveSync
  import opened Sources

  // ---------- what a cycle visits ----------

  ghost predicate FromSource(d: Drive, src: SourceRow, f: File) {
    if src.sourceType == SOURCE_FOLDER then exists path :: Reachable(d, src.drive, path, f)
    else src.sourceType == SOURCE_DOC && d.get(src.drive) == Some(f)
  }

  lemma SourceVisitsExactly(d: Drive, m: Measure, src: SourceRow, v: Visit)
    requires Bounded(d, m)
    ensures v in SourceVisits(d, m, src) <==> v.grantee == src.grantee && v.source == src && FromSource(d, src, v.file)
  {
    if src.sourceType == SOURCE_FOLDER {
      var finds := WalkFrom(d, m, src.drive, "");
      WalkIsExact(d, m, src.drive);
      var visits := VisitsOf(src, finds);
      if v in visits {
        var i :| 0 <= i < |visits| && visits[i] == v;
        assert finds[i] == Find(finds[i].path, v.file);
        assert Reachable(d, src.drive, finds[i].path, v.file);
      }
      if v.grantee == src.grantee && v.source == src && FromSource(d, src, v.file) {
        var path :| Reachable(d, src.drive, path, v.file);
        assert Find(path, v.file) in finds;
        var i :| 0 <= i < |finds| && finds[i] == Find(path, v.file);
        assert visits[i] == v;
      }
    }
  }

  lemma {:induction false} GranteeVisitsExactly(d: Drive, m: Measure, sources: seq<SourceRow>, v: Visit)
    requires Bounded(d, m)
    ensures v in GranteeVisits(d, m, sources) <==>
            v.source in sources && v.grantee == v.source.grantee && FromSource(d, v.source, v.file)
  {
    if sources != [] {
      var n := |sources| - 1;
      assert sources == sources[..n] + [sources[n]];
      GranteeVisitsExactly(d, m, sources[..n], v);
      SourceVisitsExactly(d, m, sources[n], v);
    }
  }

  lemma {:induction false} ListedVisitsExactly(d: Drive, m: Measure, faults: Faults, reg: Registry,
      grantees: seq<string>, v: Visit)
    requires Bounded(d, m)
    ensures v in ListedVisits(d, m, faults, reg, grantees) <==>
            && v.grantee in grantees && !faults.sources(v.grantee)
            && v.source in reg.sources && v.source.grantee == v.grantee && FromSource(d, v.source, v.file)
  {
    if grantees != [] {
      var n := |grantees| - 1;
      assert grantees == grantees[..n] + [grantees[n]];
      ListedVisitsExactly(d, m, faults, reg, grantees[..n], v);
      GranteeVisitsExactly(d, m, SourcesFor(reg.sources, grantees[n]), v);
    }
  }

  /** A cycle handles exactly the files that a registered source of an active grantee leads to. */
  lemma CycleVisitsExactly(d: Drive, m: Measure, faults: Faults, reg: Registry, v: Visit)
    requires Bounded(d, m)
    ensures v in CycleVisits(d, m, faults, reg) <==>
            && GranteeActive(reg, v.grantee) && !faults.sources(v.grantee)
            && v.source in reg.sources && v.source.grantee == v.grantee && FromSource(d, v.source, v.file)
  {
    ListedVisitsExactly(d, m, faults, reg, ActiveGrantees(reg.grantees), v);
  }

  // ---------- one row through a cycle ----------

  predicate Visited(visits: seq<Visit>, id: string) {
    exists i :: 0 <= i < |visits| && visits[i].file.mime == DocMime && visits[i].file.id == id
  }

  ghost predicate SameRow(a: Db, b: Db, id: string) {
    (id in a.docs <==> id in b.docs) && (id in a.docs ==> a.docs[id] == b.docs[id])
  }

  lemma OthersUntouched(fails: nat -> bool, download: string -> Exported, db: Db, v: Visit, cycle: int, id: string)
    requires v.file.mime != DocMime || v.file.id != id
    ensures SameRow(db, ProcessDoc(fails, download, db, v, cycle).0, id)
  {
  }

  lemma VisitedPrefix(visits: seq<Visit>, id: string)
    requires visits != []
    ensures var n := |visits| - 1;
            Visited(visits, id) <==>
                    Visited(visits[..n], id) || (visits[n].file.mime == DocMime && visits[n].file.id == id)
  {
    var n := |visits| - 1;
    if Visited(visits[..n], id) {
      var i :| 0 <= i < n && visits[..n][i].file.mime == DocMime && visits[..n][i].file.id == id;
      assert visits[i].file.id == id;
    }
    if Visited(visits, id) && !(visits[n].file.mime == DocMime && visits[n].file.id == id) {
      var i :| 0 <= i < |visits| && visits[i].file.mime == DocMime && visits[i].file.id == id;
      assert visits[..n][i].file.id == id;
    }
  }

  lemma {:induction false} UnvisitedUntouched(fails: nat -> bool, download: string -> Exported, db: Db,
      visits: seq<Visit>, cycle: int, id: string)
    requires !Visited(visits, id)
    ensures SameRow(db, ProcessAll(fails, download, db, visits, cycle).0, id)
    decreases |visits|
  {
    if visits != [] {
      var n := |visits| - 1;
      VisitedPrefix(visits, id);
      UnvisitedUntouched(fails, download, db, visits[..n], cycle, id);
      OthersUntouched(fails, download, ProcessAll(fails, download, db, visits[..n], cycle).0, visits[n], cycle, id);
    }
  }

  ghost predicate SeenUpTo(db: Db, cycle: int) {
    forall id :: id in db.docs && db.docs[id].lastSeen.Some? ==> db.docs[id].lastSeen.value <= cycle
  }

  lemma VisitStampsAtMost(fails: nat -> bool, download: string -> Exported, db: Db, v: Visit, cycle: int, bound: int)
    requires SeenUpTo(db, bound) && cycle <= bound
    ensures SeenUpTo(ProcessDoc(fails, download, db, v, cycle).0, bound)
  {
    hide Contains, TrimSpace, Lower;
  }

  /** A file is only ever stamped with the running cycle. */
  lemma {:induction false} VisitsStampAtMost(fails: nat -> bool, download: string -> Exported, db: Db,
      visits: seq<Visit>, cycle: int, bound: int)
    requires SeenUpTo(db, bound) && cycle <= bound
    ensures SeenUpTo(ProcessAll(fails, download, db, visits, cycle).0, bound)
    decreases |visits|
  {
    if visits != [] {
      var n := |visits| - 1;
      VisitsStampAtMost(fails, download, db, visits[..n], cycle, bound);
      var before := ProcessAll(fails, download, db, visits[..n], cycle).0;
      VisitStampsAtMost(fails, download, before, visits[n], cycle, bound);
      hide ProcessDoc, SeenUpTo;
    }
  }

  // ---------- the end of a cycle ----------

  /** The table after cycle's visits and its sweep. */
  function CycleEnd(fails: nat -> bool, download: string -> Exported, reg: Registry, db: Db, visits: seq<Visit>,
      cycle: int): (Db, Option<nat>) {
    MarkUnseenStale(fails, reg, ProcessAll(fails, download, db, visits, cycle).0, cycle)
  }

  ghost predicate Governed(reg: Registry, doc: Doc) {
    GranteeActive(reg, doc.grantee) && SourceRegistered(reg, doc.sourceDrive)
  }

  lemma SweepLeavesSeen(fails: nat -> bool, download: string -> Exported, reg: Registry, db: Db, visits: seq<Visit>,
      cycle: int, id: string)
    requires SeenUpTo(db, cycle - 1)
    requires var (end, marked) := CycleEnd(fails, download, reg, db, visits, cycle);
             marked.Some? && id in end.docs && end.docs[id].status == Active && Governed(reg, end.docs[id])
    ensures CycleEnd(fails, download, reg, db, visits, cycle).0.docs[id].lastSeen == Some(cycle)
    ensures Visited(visits, id)
  {
    VisitsStampAtMost(fails, download, db, visits, cycle, cycle);
    var mid := ProcessAll(fails, download, db, visits, cycle).0;
    assert !Unseen(reg, mid.docs[id], cycle);
    if !Visited(visits, id) {
      UnvisitedUntouched(fails, download, db, visits, cycle, id);
    }
  }

  /** Nothing fails: no statement, no time that does not parse, no export, and every file has an id. */
  ghost predicate FaultFree(fails: nat -> bool, download: string -> Exported, visits: seq<Visit>) {
    && (forall n :: !fails(n))
    && forall i :: 0 <= i < |visits| && visits[i].file.mime == DocMime ==>
         visits[i].file.modified.Some?
         && visits[i].file.id != "" && visits[i].grantee != "" && download(visits[i].file.id).Markdown?
  }

  ghost predicate SeenActive(db: Db, id: string, cycle: int) {
    id in db.docs && db.docs[id].status == Active && db.docs[id].lastSeen == Some(cycle)
  }

  lemma VisitMakesActive(fails: nat -> bool, download: string -> Exported, db: Db, v: Visit, cycle: int)
    requires FaultFree(fails, download, [v]) && v.file.mime == DocMime
    ensures SeenActive(ProcessDoc(fails, download, db, v, cycle).0, v.file.id, cycle)
  {
    assert [v][0] == v;
  }

  lemma {:induction false} VisitsMakeActive(fails: nat -> bool, download: string -> Exported, db: Db,
      visits: seq<Visit>, cycle: int, id: string)
    requires FaultFree(fails, download, visits) && Visited(visits, id)
    ensures SeenActive(ProcessAll(fails, download, db, visits, cycle).0, id, cycle)
    decreases |visits|
  {
    var n := |visits| - 1;
    var before := ProcessAll(fails, download, db, visits[..n], cycle).0;
    VisitedPrefix(visits, id);
    if visits[n].file.mime == DocMime && visits[n].file.id == id {
      VisitMakesActive(fails, download, before, visits[n], cycle);
    } else {
      VisitsMakeActive(fails, download, db, visits[..n], cycle, id);
      OthersUntouched(fails, download, before, visits[n], cycle, id);
    }
  }

  lemma CleanSweepIsExact(fails: nat -> bool, download: string -> Exported, reg: Registry, db: Db, visits: seq<Visit>,
      cycle: int, id: string)
    requires SeenUpTo(db, cycle - 1) && FaultFree(fails, download, visits)
    requires var end := CycleEnd(fails, download, reg, db, visits, cycle).0;
             id in end.docs && Governed(reg, end.docs[id])
    ensures CycleEnd(fails, download, reg, db, visits, cycle).0.docs[id].status == Active <==> Visited(visits, id)
  {
    if Visited(visits, id) {
      VisitsMakeActive(fails, download, db, visits, cycle, id);
    } else if CycleEnd(fails, download, reg, db, visits, cycle).0.docs[id].status == Active {
      SweepLeavesSeen(fails, download, reg, db, visits, cycle, id);
    }
  }

  /** A registered source of an active grantee leads to the doc. */
  ghost predicate Mirrored(d: Drive, reg: Registry, id: string) {
    exists src, f :: src in reg.sources && GranteeActive(reg, src.grantee)
        && FromSource(d, src, f) && f.mime == DocMime && f.id == id
  }

  lemma VisitedIffMirrored(d: Drive, m: Measure, faults: Faults, reg: Registry, id: string)
    requires Bounded(d, m) && forall g :: !faults.sources(g)
    ensures Visited(CycleVisits(d, m, faults, reg), id) <==> Mirrored(d, reg, id)
  {
    var visits := CycleVisits(d, m, faults, reg);
    if Visited(visits, id) {
      var i :| 0 <= i < |visits| && visits[i].file.mime == DocMime && visits[i].file.id == id;
      CycleVisitsExactly(d, m, faults, reg, visits[i]);
      assert FromSource(d, visits[i].source, visits[i].file);
    }
    if Mirrored(d, reg, id) {
      var src, f :| src in reg.sources && GranteeActive(reg, src.grantee)
          && FromSource(d, src, f) && f.mime == DocMime && f.id == id;
      CycleVisitsExactly(d, m, faults, reg, Visit(src.grantee, src, f));
      var i :| 0 <= i < |visits| && visits[i] == Visit(src.grantee, src, f);
      assert visits[i].file.id == id;
    }
  }

  // ---------- runs of cycles ----------

  /** sweeps says whether the cycle reached its sweep; one that is cut short did not, and has fewer visits. */
  datatype Cycle = Cycle(fails: nat -> bool, download: string -> Exported, reg: Registry, visits: seq<Visit>, id: int,
      sweeps: bool)

  function SweepOf(docs: map<string, Doc>, c: Cycle): (Db, Option<nat>) {
    CycleEnd(c.fails, c.download, c.reg, Db(docs, 0), c.visits, c.id)
  }

  function DocsAfter(docs: map<string, Doc>, c: Cycle): map<string, Doc> {
    if c.sweeps then SweepOf(docs, c).0.docs else ProcessAll(c.fails, c.download, Db(docs, 0), c.visits, c.id).0.docs
  }

  /** Any cycles one after the other, from the empty table, under rising cycle numbers (NextCycleID). */
  ghost predicate CycleRun(tables: seq<map<string, Doc>>, cycles: seq<Cycle>) {
    && |tables| == |cycles| + 1 && tables[0] == map[]
    && (forall i, j :: 0 <= i < j < |cycles| ==> cycles[i].id < cycles[j].id)
    && forall i :: 0 <= i < |cycles| ==> tables[i + 1] == DocsAfter(tables[i], cycles[i])
  }

  lemma SeenAfterCycle(docs: map<string, Doc>, c: Cycle, bound: int)
    requires SeenUpTo(Db(docs, 0), bound) && c.id <= bound
    ensures SeenUpTo(Db(DocsAfter(docs, c), 0), bound)
  {
    VisitsStampAtMost(c.fails, c.download, Db(docs, 0), c.visits, c.id, bound);
  }

  /** No row carries a later cycle than those that have run. */
  lemma {:induction false} SeenInRun(tables: seq<map<string, Doc>>, cycles: seq<Cycle>, n: nat, bound: int)
    requires CycleRun(tables, cycles) && n <= |cycles|
    requires forall i :: 0 <= i < n ==> cycles[i].id <= bound
    ensures SeenUpTo(Db(tables[n], 0), bound)
  {
    if n > 0 {
      SeenInRun(tables, cycles, n - 1, bound);
      SeenAfterCycle(tables[n - 1], cycles[n - 1], bound);
    }
  }

  /**
   In every run of cycles, whatever fails on the way: once the sweep of a cycle has run, every active row of
   an active grantee and a registered source was touched or written in that very cycle.
   */
  lemma ActiveMeansSeen(tables: seq<map<string, Doc>>, cycles: seq<Cycle>, i: nat, id: string)
    requires CycleRun(tables, cycles) && i < |cycles| && cycles[i].sweeps && SweepOf(tables[i], cycles[i]).1.Some?
    requires id in tables[i + 1] && tables[i + 1][id].status == Active && Governed(cycles[i].reg, tables[i + 1][id])
    ensures tables[i + 1][id].lastSeen == Some(cycles[i].id) && Visited(cycles[i].visits, id)
  {
    var c := cycles[i];
    SeenInRun(tables, cycles, i, c.id - 1);
    SweepLeavesSeen(c.fails, c.download, c.reg, Db(tables[i], 0), c.visits, c.id, id);
  }

  /**
   In every run, unvisited rows of paused grantees or revoked sources are left exactly as they were, whatever fails.
   */
  lemma UngovernedUnchanged(tables: seq<map<string, Doc>>, cycles: seq<Cycle>, i: nat, id: string)
    requires CycleRun(tables, cycles) && i < |cycles|
    requires id in tables[i] && !Visited(cycles[i].visits, id) && !Governed(cycles[i].reg, tables[i][id])
    ensures id in tables[i + 1] && tables[i + 1][id] == tables[i][id]
  {
    var c := cycles[i];
    UnvisitedUntouched(c.fails, c.download, Db(tables[i], 0), c.visits, c.id, id);
  }

  /**
   In every run, after a cycle in which nothing failed, a row of an active grantee and a registered source is active
   if and only if it was visited.
   */
  lemma FaultFreeCycle(tables: seq<map<string, Doc>>, cycles: seq<Cycle>, i: nat, id: string)
    requires CycleRun(tables, cycles) && i < |cycles| && cycles[i].sweeps
    requires FaultFree(cycles[i].fails, cycles[i].download, cycles[i].visits)
    requires id in tables[i + 1] && Governed(cycles[i].reg, tables[i + 1][id])
    ensures tables[i + 1][id].status == Active <==> Visited(cycles[i].visits, id)
  {
    var c := cycles[i];
    SeenInRun(tables, cycles, i, c.id - 1);
    CleanSweepIsExact(c.fails, c.download, c.reg, Db(tables[i], 0), c.visits, c.id, id);
  }

  /**
   In every run, an active row of an active grantee and a registered source that a cycle did not visit is marked
   stale by the cycle's sweep, and keeps its text, its time and when it was last seen.
   */
  lemma UnvisitedGoesStale(tables: seq<map<string, Doc>>, cycles: seq<Cycle>, i: nat, id: string)
    requires CycleRun(tables, cycles) && i < |cycles| && cycles[i].sweeps && SweepOf(tables[i], cycles[i]).1.Some?
    requires id in tables[i] && tables[i][id].status == Active && Governed(cycles[i].reg, tables[i][id])
    requires !Visited(cycles[i].visits, id)
    ensures id in tables[i + 1]
    ensures tables[i + 1][id] == tables[i][id].(status := Stale, lastError := "not seen in last sync cycle")
  {
    var c := cycles[i];
    SeenInRun(tables, cycles, i, c.id - 1);
    UnvisitedUntouched(c.fails, c.download, Db(tables[i], 0), c.visits, c.id, id);
  }

  // ---------- exports that fail ----------

  /** The n-th visit is of the doc, and no later one is. */
  predicate LastVisit(visits: seq<Visit>, n: nat, id: string) {
    && n < |visits| && visits[n].file.mime == DocMime && visits[n].file.id == id
    && !Visited(visits[n + 1..], id)
  }

  /** A doc that cannot be exported keeps its text, its time and its origin. */
  lemma {:induction false} UnexportedKeepsText(fails: nat -> bool, download: string -> Exported, db: Db,
      visits: seq<Visit>, cycle: int, id: string)
    requires !download(id).Markdown?
    ensures var after := ProcessAll(fails, download, db, visits, cycle).0;
            (id in after.docs <==> id in db.docs) && (id in db.docs ==> SameText(db.docs[id], after.docs[id]))
    decreases |visits|
  {
    if visits != [] {
      var n := |visits| - 1;
      var before := ProcessAll(fails, download, db, visits[..n], cycle).0;
      UnexportedKeepsText(fails, download, db, visits[..n], cycle, id);
      if visits[n].file.mime == DocMime && visits[n].file.id == id {
        OutcomeMeaning(fails, download, before, visits[n], cycle);
      } else {
        OthersUntouched(fails, download, before, visits[n], cycle, id);
      }
      hide ProcessDoc;
    }
  }

  lemma FailedExportMarks(fails: nat -> bool, download: string -> Exported, db: Db, v: Visit, cycle: int)
    requires Sound(fails) && Changed(db, v) && v.file.id in db.docs && !download(v.file.id).Markdown?
    ensures var after := ProcessDoc(fails, download, db, v, cycle).0;
            v.file.id in after.docs && Marked(db.docs[v.file.id], after.docs[v.file.id], download(v.file.id))
  {
  }

  /** The table after all visits is the last visit's, as far as the doc is concerned. */
  lemma LastVisitDecides(fails: nat -> bool, download: string -> Exported, db: Db, visits: seq<Visit>, cycle: int,
      n: nat, id: string)
    requires LastVisit(visits, n, id)
    ensures var before := ProcessAll(fails, download, db, visits[..n], cycle).0;
            SameRow(ProcessDoc(fails, download, before, visits[n], cycle).0,
                ProcessAll(fails, download, db, visits, cycle).0, id)
  {
    hide ProcessDoc, ProcessAll;
    var upTo, later := visits[..n + 1], visits[n + 1..];
    ProcessInTwo(fails, download, db, upTo, later, cycle);
    ProcessOneMore(fails, download, db, visits[..n], visits[n], cycle);
    assert upTo == visits[..n] + [visits[n]] && visits == upTo + later;
    UnvisitedUntouched(fails, download, ProcessAll(fails, download, db, upTo, cycle).0, later, cycle, id);
  }

  /**
   In every run: a doc that has changed and whose export fails at its last visit in a cycle, where no statement
   fails, ends the cycle stale if it is gone and in error otherwise, with the export's message and its old text,
   whatever the sweep does.
   */
  lemma FailedExportShows(tables: seq<map<string, Doc>>, cycles: seq<Cycle>, i: nat, n: nat, id: string)
    requires CycleRun(tables, cycles) && i < |cycles| && Sound(cycles[i].fails)
    requires LastVisit(cycles[i].visits, n, id) && cycles[i].visits[n].file.modified.Some?
    requires id in tables[i] && cycles[i].visits[n].file.modified.value != tables[i][id].modifiedAt * NANOS
    requires !cycles[i].download(id).Markdown?
    ensures id in tables[i + 1] && SameText(tables[i][id], tables[i + 1][id])
    ensures tables[i + 1][id].status == if cycles[i].download(id).GoneOrForbidden? then Stale else Error
    ensures tables[i + 1][id].lastError == cycles[i].download(id).message
  {
    var c := cycles[i];
    var before := ProcessAll(c.fails, c.download, Db(tables[i], 0), c.visits[..n], c.id).0;
    UnexportedKeepsText(c.fails, c.download, Db(tables[i], 0), c.visits[..n], c.id, id);
    FailedExportMarks(c.fails, c.download, before, c.visits[n], c.id);
    LastVisitDecides(c.fails, c.download, Db(tables[i], 0), c.visits, c.id, n, id);
    hide ProcessAll, ProcessDoc;
  }

  /** And a doc that has no row gets none. */
  lemma NeverExportedHasNoRow(tables: seq<map<string, Doc>>, cycles: seq<Cycle>, i: nat, id: string)
    requires CycleRun(tables, cycles) && i < |cycles| && id !in tables[i] && !cycles[i].download(id).Markdown?
    ensures id !in tables[i + 1]
  {
    var c := cycles[i];
    UnexportedKeepsText(c.fails, c.download, Db(tables[i], 0), c.visits, c.id, id);
  }

  // ---------- the syncer's cycles ----------

  /** The cycle is Syncer.Run's over this drive and these tables. */
  ghost predicate CycleOver(c: Cycle, d: Drive, m: Measure, faults: Faults)
    requires Bounded(d, m)
  {
    c.sweeps && c.fails == faults.statement && c.download == d.download && c.visits == CycleVisits(d, m, faults, c.reg)
  }

  /** What Syncer.Run does, from its first docs statement on, is one cycle of such a run. */
  method RunCycle(s: Syncer, ghost m: Measure) returns (ok: bool, ghost c: Cycle)
    requires Bounded(s.drive, m) && s.calls == 0
    modifies s
    ensures s.docs == DocsAfter(old(s.docs), c) && c.reg == s.reg && c.id == s.cycleCounter
    ensures !s.faults.cycleId && !s.faults.grantees ==> CycleOver(c, s.drive, m, s.faults)
    ensures s.cycleCounter == old(s.cycleCounter) + if s.faults.cycleId then 0 else 1
  {
    ok := s.Run(m);
    var reached := !s.faults.cycleId && !s.faults.grantees;
    c := Cycle(s.faults.statement, s.drive.download, s.reg,
               if reached then CycleVisits(s.drive, m, s.faults, s.reg) else [], s.cycleCounter, reached);
  }

  /**
   The mirror, end to end. In every run, after a cycle in which nothing failed, a row of an active grantee and
   a registered source is active if and only if some registered source of an active grantee leads to its doc.
   */
  lemma ActiveIffMirrored(tables: seq<map<string, Doc>>, cycles: seq<Cycle>, i: nat, d: Drive, m: Measure,
      faults: Faults, id: string)
    requires Bounded(d, m) && forall g :: !faults.sources(g)
    requires CycleRun(tables, cycles) && i < |cycles| && CycleOver(cycles[i], d, m, faults)
    requires FaultFree(cycles[i].fails, cycles[i].download, cycles[i].visits)
    requires id in tables[i + 1] && Governed(cycles[i].reg, tables[i + 1][id])
    ensures tables[i + 1][id].status == Active <==> Mirrored(d, cycles[i].reg, id)
  {
    FaultFreeCycle(tables, cycles, i, id);
    VisitedIffMirrored(d, m, faults, cycles[i].reg, id);
  }

  // ---------- change detection across cycles ----------

  /** time(i, id) is when the doc was last modified as of cycle i, content(id, t) its text when last modified at t. */
  datatype History = History(time: (nat, string) -> int, content: (string, int) -> string)

  ghost predicate NeverBackwards(h: History) {
    forall i: nat, j: nat, id :: i <= j ==> h.time(i, id) <= h.time(j, id)
  }

  function Current(h: History, i: nat, id: string): string {
    h.content(id, h.time(i, id))
  }

  /** Drive does not change while cycle i runs: what it lists and exports is the state of that moment. */
  ghost predicate Steady(h: History, i: nat, c: Cycle) {
    && (forall k :: 0 <= k < |c.visits| && c.visits[k].file.modified.Some? ==>
          c.visits[k].file.modified.value == h.time(i, c.visits[k].file.id))
    && forall id :: c.download(id).Markdown? ==> c.download(id).text == Current(h, i, id)
  }

  /** A run of cycles over such a Drive. */
  ghost predicate Cycles(h: History, tables: seq<map<string, Doc>>, cycles: seq<Cycle>) {
    NeverBackwards(h) && CycleRun(tables, cycles) && forall i :: 0 <= i < |cycles| ==> Steady(h, i, cycles[i])
  }

  /** The row is the doc as of cycle k, its time cut to seconds. */
  ghost predicate AsOf(h: History, k: nat, id: string, doc: Doc) {
    doc.modifiedAt == Seconds(h.time(k, id)) && doc.content == Current(h, k, id)
  }

  /** Every row is the doc as of some cycle before n. */
  ghost predicate RowsAreCopies(h: History, n: nat, docs: map<string, Doc>) {
    forall id :: id in docs ==> exists k: nat :: k < n && AsOf(h, k, id, docs[id])
  }

  lemma VisitCopies(h: History, i: nat, fails: nat -> bool, download: string -> Exported, db: Db, v: Visit, cycle: int)
    requires RowsAreCopies(h, i + 1, db.docs)
    requires v.file.modified.Some? ==> v.file.modified.value == h.time(i, v.file.id)
    requires download(v.file.id).Markdown? ==> download(v.file.id).text == Current(h, i, v.file.id)
    ensures RowsAreCopies(h, i + 1, ProcessDoc(fails, download, db, v, cycle).0.docs)
  {
    var after := ProcessDoc(fails, download, db, v, cycle).0;
    forall id | id in after.docs
      ensures exists k: nat :: k < i + 1 && AsOf(h, k, id, after.docs[id])
    {
      if id in db.docs && after.docs[id].modifiedAt == db.docs[id].modifiedAt
          && after.docs[id].content == db.docs[id].content {
        var k: nat :| k < i + 1 && AsOf(h, k, id, db.docs[id]);
        assert AsOf(h, k, id, after.docs[id]);
      } else {
        assert AsOf(h, i, id, after.docs[id]);
      }
    }
  }

  lemma {:induction false} VisitsCopy(h: History, i: nat, c: Cycle, db: Db, n: nat)
    requires Steady(h, i, c) && RowsAreCopies(h, i + 1, db.docs) && n <= |c.visits|
    ensures RowsAreCopies(h, i + 1, ProcessAll(c.fails, c.download, db, c.visits[..n], c.id).0.docs)
    decreases n
  {
    if n > 0 {
      VisitsCopy(h, i, c, db, n - 1);
      assert c.visits[..n][..n - 1] == c.visits[..n - 1];
      VisitCopies(h, i, c.fails, c.download, ProcessAll(c.fails, c.download, db, c.visits[..n - 1], c.id).0,
          c.visits[n - 1], c.id);
    }
  }

  lemma CopiesLater(h: History, n: nat, docs: map<string, Doc>)
    requires RowsAreCopies(h, n, docs)
    ensures RowsAreCopies(h, n + 1, docs)
  {
    forall id | id in docs
      ensures exists k: nat :: k < n + 1 && AsOf(h, k, id, docs[id])
    {
      var k: nat :| k < n && AsOf(h, k, id, docs[id]);
    }
  }

  lemma SweepCopies(h: History, n: nat, c: Cycle, docs: map<string, Doc>)
    requires RowsAreCopies(h, n, ProcessAll(c.fails, c.download, Db(docs, 0), c.visits, c.id).0.docs)
    ensures RowsAreCopies(h, n, DocsAfter(docs, c))
  {
    var before, after := ProcessAll(c.fails, c.download, Db(docs, 0), c.visits, c.id).0.docs, DocsAfter(docs, c);
    forall id | id in after
      ensures exists k: nat :: k < n && AsOf(h, k, id, after[id])
    {
      var k: nat :| k < n && AsOf(h, k, id, before[id]);
      assert AsOf(h, k, id, after[id]);
    }
  }

  lemma {:induction false} TablesAreCopies(h: History, tables: seq<map<string, Doc>>, cycles: seq<Cycle>, n: nat)
    requires Cycles(h, tables, cycles) && n < |tables|
    ensures RowsAreCopies(h, n, tables[n])
  {
    if n > 0 {
      TablesAreCopies(h, tables, cycles, n - 1);
      var c := cycles[n - 1];
      CopiesLater(h, n - 1, tables[n - 1]);
      VisitsCopy(h, n - 1, c, Db(tables[n - 1], 0), |c.visits|);
      assert c.visits[..|c.visits|] == c.visits;
      SweepCopies(h, n, c, tables[n - 1]);
    }
  }

  /** A stored time that equals the full time of a later moment is that moment's: nothing has changed in between. */
  lemma SameTimeMeansSame(h: History, k: nat, i: nat, id: string, doc: Doc)
    requires NeverBackwards(h) && k <= i && AsOf(h, k, id, doc) && h.time(i, id) == doc.modifiedAt * NANOS
    ensures doc.content == Current(h, i, id)
  {
    assert h.time(k, id) <= h.time(i, id);
    assert Seconds(h.time(k, id)) * NANOS <= h.time(k, id);
  }

  /**
   Times are stored in seconds and compared in full, and yet, wherever a run stands: if the shortcut for
   unchanged docs is taken, the stored text is the doc's current text.
   */
  lemma ShortcutIsSound(h: History, tables: seq<map<string, Doc>>, cycles: seq<Cycle>, i: nat, n: nat)
    requires Cycles(h, tables, cycles) && i < |cycles| && n < |cycles[i].visits|
    requires SameTime(ProcessAll(cycles[i].fails, cycles[i].download, Db(tables[i], 0), cycles[i].visits[..n],
        cycles[i].id).0, cycles[i].visits[n].file)
    ensures var db := ProcessAll(cycles[i].fails, cycles[i].download, Db(tables[i], 0), cycles[i].visits[..n],
        cycles[i].id).0;
            var id := cycles[i].visits[n].file.id;
            db.docs[id].content == Current(h, i, id)
  {
    var c := cycles[i];
    var db := ProcessAll(c.fails, c.download, Db(tables[i], 0), c.visits[..n], c.id).0;
    var id := c.visits[n].file.id;
    TablesAreCopies(h, tables, cycles, i);
    CopiesLater(h, i, tables[i]);
    VisitsCopy(h, i, c, Db(tables[i], 0), n);
    var k: nat :| k < i + 1 && AsOf(h, k, id, db.docs[id]);
    SameTimeMeansSame(h, k, i, id, db.docs[id]);
  }

  lemma VisitMakesCurrent(h: History, i: nat, fails: nat -> bool, download: string -> Exported, db: Db, v: Visit,
      cycle: int)
    requires NeverBackwards(h) && RowsAreCopies(h, i + 1, db.docs)
    requires FaultFree(fails, download, [v]) && v.file.mime == DocMime
    requires v.file.modified.Some? ==> v.file.modified.value == h.time(i, v.file.id)
    requires download(v.file.id).Markdown? ==> download(v.file.id).text == Current(h, i, v.file.id)
    ensures var after := ProcessDoc(fails, download, db, v, cycle).0;
            v.file.id in after.docs && after.docs[v.file.id].content == Current(h, i, v.file.id)
  {
    assert [v][0] == v;
    var id := v.file.id;
    if SameTime(db, v.file) {
      var k: nat :| k < i + 1 && AsOf(h, k, id, db.docs[id]);
      SameTimeMeansSame(h, k, i, id, db.docs[id]);
    }
  }

  lemma {:induction false} VisitsMakeCurrent(h: History, i: nat, c: Cycle, db: Db, n: nat, id: string)
    requires NeverBackwards(h) && Steady(h, i, c) && RowsAreCopies(h, i + 1, db.docs) && n <= |c.visits|
    requires FaultFree(c.fails, c.download, c.visits) && Visited(c.visits[..n], id)
    ensures var after := ProcessAll(c.fails, c.download, db, c.visits[..n], c.id).0;
            id in after.docs && after.docs[id].content == Current(h, i, id)
    decreases n
  {
    var before := ProcessAll(c.fails, c.download, db, c.visits[..n - 1], c.id).0;
    var v := c.visits[n - 1];
    assert c.visits[..n][..n - 1] == c.visits[..n - 1];
    VisitedPrefix(c.visits[..n], id);
    if v.file.mime == DocMime && v.file.id == id {
      VisitsCopy(h, i, c, db, n - 1);
      VisitMakesCurrent(h, i, c.fails, c.download, before, v, c.id);
    } else {
      VisitsMakeCurrent(h, i, c, db, n - 1, id);
      OthersUntouched(c.fails, c.download, before, v, c.id, id);
    }
  }

  /** After a cycle in which nothing failed, the row of every visited doc holds the doc's current text. */
  lemma MirrorIsCurrent(h: History, tables: seq<map<string, Doc>>, cycles: seq<Cycle>, i: nat, id: string)
    requires Cycles(h, tables, cycles) && i < |cycles|
    requires FaultFree(cycles[i].fails, cycles[i].download, cycles[i].visits) && Visited(cycles[i].visits, id)
    ensures id in tables[i + 1] && tables[i + 1][id].content == Current(h, i, id)
  {
    var c := cycles[i];
    TablesAreCopies(h, tables, cycles, i);
    CopiesLater(h, i, tables[i]);
    assert c.visits[..|c.visits|] == c.visits;
    VisitsMakeCurrent(h, i, c, Db(tables[i], 0), |c.visits|, id);
  }

  /**
   Seeing a doc again with the modification time it was stored with is a no-op exactly when that time is a
   whole number of seconds; otherwise the doc is exported and written again.
   */
  lemma SecondVisit(fails: nat -> bool, download: string -> Exported, db: Db, v: Visit, cycle: int)
    requires FaultFree(fails, download, [v]) && v.file.mime == DocMime && v.file.modified.Some? && !SameTime(db, v.file)
    ensures ProcessAll(fails, download, db, [v, v], cycle).1 ==
            [Synced, if v.file.modified.value % NANOS == 0 then Unchanged else Synced]
  {
    assert [v][0] == v;
    var (once, o) := ProcessDoc(fails, download, db, v, cycle);
    var (_, p) := ProcessDoc(fails, download, once, v, cycle);
    assert o == Synced && p == if v.file.modified.value % NANOS == 0 then Unchanged else Synced by {
      hide ProcessAll;
      assert once.docs[v.file.id].modifiedAt == Seconds(v.file.modified.value);
    }
    hide ProcessDoc;
    ProcessOneMore(fails, download, db, [], v, cycle);
    ProcessOneMore(fails, download, db, [v], v, cycle);
    assert [] + [v] == [v] && [v] + [v] == [v, v] && [] + [o] == [o] && [o] + [p] == [o, p];
  }

  /** A failing input: a doc last modified a nanosecond into a second is exported and written at every visit. */
  lemma OddTimeIsWrittenAgain(v: Visit, cycle: int)
    requires v.file.mime == DocMime && v.file.id != "" && v.grantee != "" && v.file.modified == Some(1)
    ensures ProcessAll(_ => false, _ => Markdown(""), Db(map[], 0), [v, v], cycle).1 == [Synced, Synced]
  {
    assert [v][0] == v;
    SecondVisit(_ => false, _ => Markdown(""), Db(map[], 0), v, cycle);
  }
}
