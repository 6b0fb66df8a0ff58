/** One cycle of the docs mirror (internal/sync/sync.go), over the docs half of the store. */
module DriveSync {
  import opened Wrappers
  import opened Text
  import opened DocTables
  import opened DriveWalk
  import opened Sources

  /** What goes wrong in a cycle, besides the Drive calls: the n-th docs statement, and the listings. */
  datatype Faults = Faults(cycleId: bool, grantees: bool, sources: string -> bool, statement: nat -> bool, finish: bool)

  // ---------- which files a cycle handles ----------

  function VisitsOf(src: SourceRow, finds: seq<Find>): (r: seq<Visit>)
    ensures |r| == |finds|
    ensures forall i :: 0 <= i < |finds| ==> r[i] == Visit(src.grantee, src, finds[i].file)
  {
    seq(|finds|, i requires 0 <= i < |finds| => Visit(src.grantee, src, finds[i].file))
  }

  function SourceVisits(d: Drive, ghost m: Measure, src: SourceRow): seq<Visit>
    requires Bounded(d, m)
  {
    if src.sourceType == SOURCE_FOLDER then VisitsOf(src, WalkFrom(d, m, src.drive, ""))
    else if src.sourceType == SOURCE_DOC then
      match d.get(src.drive)
      case Some(f) => [Visit(src.grantee, src, f)]
      case None => []
    else []
  }

  function GranteeVisits(d: Drive, ghost m: Measure, sources: seq<SourceRow>): seq<Visit>
    requires Bounded(d, m)
  {
    if sources == [] then [] else
      GranteeVisits(d, m, sources[..|sources| - 1]) + SourceVisits(d, m, sources[|sources| - 1])
  }

  /** `SELECT … FROM grantee_sources WHERE grantee_id = ? ORDER BY id` */
  function SourcesFor(sources: seq<SourceRow>, g: string): (r: seq<SourceRow>)
    ensures forall s :: s in r <==> s in sources && s.grantee == g
  {
    if sources == [] then [] else
      var n := |sources| - 1;
      assert sources == sources[..n] + [sources[n]];
      if sources[n].grantee == g then SourcesFor(sources[..n], g) + [sources[n]] else SourcesFor(sources[..n], g)
  }

  function ActiveGrantees(rows: seq<GranteeRow>): (r: seq<string>)
    ensures forall g :: g in r <==> exists i :: 0 <= i < |rows| && rows[i].id == g && rows[i].active
  {
    if rows == [] then [] else
      var n := |rows| - 1;
      assert rows == rows[..n] + [rows[n]];
      if rows[n].active then ActiveGrantees(rows[..n]) + [rows[n].id] else ActiveGrantees(rows[..n])
  }

  function ListedVisits(d: Drive, ghost m: Measure, faults: Faults, reg: Registry, grantees: seq<string>): seq<Visit>
    requires Bounded(d, m)
  {
    if grantees == [] then [] else
      var g := grantees[|grantees| - 1];
      ListedVisits(d, m, faults, reg, grantees[..|grantees| - 1]) +
      if faults.sources(g) then [] else GranteeVisits(d, m, SourcesFor(reg.sources, g))
  }

  function CycleVisits(d: Drive, ghost m: Measure, faults: Faults, reg: Registry): seq<Visit>
    requires Bounded(d, m)
  {
    ListedVisits(d, m, faults, reg, ActiveGrantees(reg.grantees))
  }

  // ---------- the syncer ----------

  class Syncer {
    const drive: Drive
    const faults: Faults
    const reg: Registry
    var docs: map<string, Doc>
    var calls: nat
    var cycleCounter: int
    var stats: Stats

    ghost function Table(): Db
      reads this
    {
      Db(docs, calls)
    }

    /** Table and counters are what handling these visits makes of the earlier ones. */
    ghost predicate Handled(before: Db, stats0: Stats, visits: seq<Visit>, cycle: int)
      reads this
    {
      var (db, outcomes) := ProcessAll(faults.statement, drive.download, before, visits, cycle);
      Table() == db && stats == CountAll(stats0, outcomes)
    }

    constructor (drive: Drive, faults: Faults, reg: Registry, docs: map<string, Doc>, cycleCounter: int)
      ensures this.drive == drive && this.faults == faults && this.reg == reg
      ensures Table() == Db(docs, 0) && this.cycleCounter == cycleCounter && stats == NO_STATS
    {
      this.drive, this.faults, this.reg, this.docs, this.cycleCounter := drive, faults, reg, docs, cycleCounter;
      calls, stats := 0, NO_STATS;
    }

    /** Counts a statement; true if it fails. */
    method Call() returns (failed: bool)
      modifies this`calls
      ensures calls == old(calls) + 1 && failed == faults.statement(old(calls))
    {
      failed := faults.statement(calls);
      calls := calls + 1;
    }

    method TouchDocSeen(id: string, cycle: int) returns (ok: bool)
      modifies this`docs, this`calls
      ensures (Table(), ok) == DocTables.TouchDocSeen(faults.statement, old(Table()), id, cycle)
    {
      var failed := Call();
      ok := !failed && id in docs;
      if ok {
        docs := docs[id := docs[id].(lastSeen := Some(cycle), status := Active, lastError := "")];
      }
    }

    method MarkDoc(id: string, status: Status, message: string)
      modifies this`docs, this`calls
      ensures Table() == DocTables.MarkDoc(faults.statement, old(Table()), id, status, message)
    {
      var failed := Call();
      if !failed && id in docs {
        docs := docs[id := docs[id].(status := status, lastError := message)];
      }
    }

    method UpsertDoc(id: string, doc: Doc, cycle: int) returns (ok: bool)
      modifies this`docs, this`calls
      ensures (Table(), ok) == DocTables.UpsertDoc(faults.statement, old(Table()), id, doc, cycle)
    {
      if id == "" || doc.grantee == "" {
        return false;
      }
      var failed := Call();
      ok := !failed;
      if ok {
        docs := docs[id := doc.(owner := Lower(doc.owner), lastSeen := Some(cycle))];
      }
    }

    method MarkUnseenStale(cycle: int) returns (marked: Option<nat>)
      modifies this`docs, this`calls
      ensures (Table(), marked) == DocTables.MarkUnseenStale(faults.statement, reg, old(Table()), cycle)
    {
      ghost var before := Table();
      var failed := Call();
      if failed {
        return None;
      }
      var ids := set id | id in docs && Unseen(reg, docs[id], cycle);
      assert ids == UnseenIds(reg, before, cycle);
      marked := Some(|ids|);
      docs := map id | id in docs ::
        if Unseen(reg, docs[id], cycle) then docs[id].(status := Stale, lastError := UNSEEN_ERROR) else docs[id];
    }

    /** The part of processDoc that exports the doc and writes what came of it. */
    method StoreDoc(g: string, src: SourceRow, f: File, modified: int, owner: string, cycle: int)
      requires f.modified == Some(modified) && owner == Lower(TrimSpace(f.owner))
      modifies this`docs, this`calls, this`stats
      ensures var (db, o) := Stored(faults.statement, old(Table()), Visit(g, src, f), drive.download(f.id), cycle);
              Table() == db && stats == Count(old(stats), o)
    {
      match drive.download(f.id)
      case GoneOrForbidden(message) =>
        if f.id in docs {
          MarkDoc(f.id, Stale, message);
          stats := stats.(stale := stats.stale + 1);
        } else {
          stats := stats.(skipped := stats.skipped + 1);
        }
      case OtherFailure(message) =>
        if f.id in docs {
          MarkDoc(f.id, Error, message);
        }
        stats := stats.(failed := stats.failed + 1);
      case Markdown(md) =>
        var doc := Doc(g, f.name, owner, md, Seconds(modified), src.sourceType, src.drive, DetectImages(md), Active, "",
            None);
        var ok := UpsertDoc(f.id, doc, cycle);
        if ok {
          stats := stats.(synced := stats.synced + 1);
        } else {
          stats := stats.(failed := stats.failed + 1);
        }
    }

    method ProcessDoc(g: string, src: SourceRow, f: File, cycle: int)
      modifies this`docs, this`calls, this`stats
      ensures var (db, o) := DocTables.ProcessDoc(faults.statement, drive.download, old(Table()), Visit(g, src, f),
          cycle);
              Table() == db && stats == Count(old(stats), o)
    {
      hide Stored;
      if f.mime != DocMime {
        stats := stats.(skipped := stats.skipped + 1);
        return;
      }
      var owner := Lower(TrimSpace(f.owner));
      if f.modified.None? {
        stats := stats.(failed := stats.failed + 1);
        return;
      }
      var modified := f.modified.value;
      var failed := Call();
      if failed {
        stats := stats.(failed := stats.failed + 1);
        return;
      }
      if f.id in docs && docs[f.id].modifiedAt * NANOS == modified {
        var ok := TouchDocSeen(f.id, cycle);
        if ok {
          stats := stats.(kept := stats.kept + 1);
        } else {
          stats := stats.(failed := stats.failed + 1);
        }
        return;
      }
      StoreDoc(g, src, f, modified, owner, cycle);
    }

    lemma HandledMore(before: Db, stats0: Stats, visits: seq<Visit>, mid: Db, midStats: Stats, more: seq<Visit>,
        cycle: int)
      requires ProcessAll(faults.statement, drive.download, before, visits, cycle).0 == mid
      requires midStats == CountAll(stats0, ProcessAll(faults.statement, drive.download, before, visits, cycle).1)
      requires Handled(mid, midStats, more, cycle)
      ensures Handled(before, stats0, visits + more, cycle)
    {
      ProcessInTwo(faults.statement, drive.download, before, visits, more, cycle);
      CountInTwo(stats0, ProcessAll(faults.statement, drive.download, before, visits, cycle).1,
        ProcessAll(faults.statement, drive.download, mid, more, cycle).1);
    }

    lemma HandledOne(before: Db, stats0: Stats, v: Visit, cycle: int)
      requires var (db, o) := DocTables.ProcessDoc(faults.statement, drive.download, before, v, cycle);
               Table() == db && stats == Count(stats0, o)
      ensures Handled(before, stats0, [v], cycle)
    {
      ProcessOneMore(faults.statement, drive.download, before, [], v, cycle);
      assert [] + [v] == [v];
      var o := DocTables.ProcessDoc(faults.statement, drive.download, before, v, cycle).1;
      assert [] + [o] == [o];
      assert CountAll(stats0, [o]) == Count(stats0, o);
    }

    lemma HandledFinds(before: Db, stats0: Stats, src: SourceRow, done: seq<Find>, mid: Db, midStats: Stats,
        more: seq<Find>, cycle: int)
      requires ProcessAll(faults.statement, drive.download, before, VisitsOf(src, done), cycle).0 == mid
      requires midStats == CountAll(stats0,
          ProcessAll(faults.statement, drive.download, before, VisitsOf(src, done), cycle).1)
      requires Handled(mid, midStats, VisitsOf(src, more), cycle)
      ensures Handled(before, stats0, VisitsOf(src, done + more), cycle)
    {
      HandledMore(before, stats0, VisitsOf(src, done), mid, midStats, VisitsOf(src, more), cycle);
      assert VisitsOf(src, done + more) == VisitsOf(src, done) + VisitsOf(src, more);
    }

    lemma WalkSplits(m: Measure, folder: string, token: string, done: seq<Find>)
      requires Bounded(drive, m)
      ensures done + WalkFrom(drive, m, folder, token) ==
              match drive.list(folder, token)
              case None => done
              case Some(page) =>
                var here := WalkPage(drive, m, folder, token, page, |page.files|);
                done + here + if page.next == "" then [] else WalkFrom(drive, m, folder, page.next)
    {
    }

    /** Walks a folder, page by page, subfolders where they stand; an error ends the folder only. */
    method WalkFolder(ghost m: Measure, src: SourceRow, folder: string, cycle: int)
      requires Bounded(drive, m)
      modifies this`docs, this`calls, this`stats
      ensures Handled(old(Table()), old(stats), VisitsOf(src, WalkFrom(drive, m, folder, "")), cycle)
      decreases m.height(folder), 2
    {
      var token := "";
      ghost var before, stats0 := Table(), stats;
      ghost var done: seq<Find> := [];
      while true
        invariant WalkFrom(drive, m, folder, "") == done + WalkFrom(drive, m, folder, token)
        invariant Handled(before, stats0, VisitsOf(src, done), cycle)
        decreases m.left(folder, token)
      {
        var page := drive.list(folder, token);
        WalkSplits(m, folder, token, done);
        if page.None? {
          return;
        }
        ghost var mid, midStats := Table(), stats;
        ghost var here := WalkPage(drive, m, folder, token, page.value, |page.value.files|);
        WalkOnePage(m, src, folder, token, page.value, cycle);
        HandledFinds(before, stats0, src, done, mid, midStats, here, cycle);
        done := done + here;
        if page.value.next == "" {
          assert done + [] == done;
          return;
        }
        token := page.value.next;
      }
    }

    method WalkOnePage(ghost m: Measure, src: SourceRow, ghost folder: string, ghost token: string, page: Page,
        cycle: int)
      requires Bounded(drive, m) && drive.list(folder, token) == Some(page)
      modifies this`docs, this`calls, this`stats
      ensures Handled(old(Table()), old(stats), VisitsOf(src, WalkPage(drive, m, folder, token, page, |page.files|)),
          cycle)
      decreases m.height(folder), 1
    {
      ghost var before, stats0 := Table(), stats;
      for i := 0 to |page.files|
        invariant Handled(before, stats0, VisitsOf(src, WalkPage(drive, m, folder, token, page, i)), cycle)
      {
        ghost var mid, midStats := Table(), stats;
        WalkEntry(m, src, folder, token, page, i, cycle);
        HandledFinds(before, stats0, src, WalkPage(drive, m, folder, token, page, i), mid, midStats,
          Below(drive, m, folder, token, page, i), cycle);
      }
    }

    method WalkEntry(ghost m: Measure, src: SourceRow, ghost folder: string, ghost token: string, page: Page, i: nat,
        cycle: int)
      requires Bounded(drive, m) && drive.list(folder, token) == Some(page) && i < |page.files|
      modifies this`docs, this`calls, this`stats
      ensures Handled(old(Table()), old(stats), VisitsOf(src, Below(drive, m, folder, token, page, i)), cycle)
      decreases m.height(folder), 0
    {
      ghost var mid, midStats := Table(), stats;
      ghost var below := Below(drive, m, folder, token, page, i);
      var f := page.files[i];
      match f.mime {
        case FolderMime =>
          WalkFolder(m, src, f.id, cycle);
          assert VisitsOf(src, below) == VisitsOf(src, WalkFrom(drive, m, f.id, ""));
        case DocMime =>
          ProcessDoc(src.grantee, src, f, cycle);
          HandledOne(mid, midStats, Visit(src.grantee, src, f), cycle);
          assert VisitsOf(src, below) == [Visit(src.grantee, src, f)];
        case OtherMime =>
          assert VisitsOf(src, below) == [];
      }
    }

    method SyncSource(ghost m: Measure, src: SourceRow, cycle: int)
      requires Bounded(drive, m)
      modifies this`docs, this`calls, this`stats
      ensures Handled(old(Table()), old(stats), SourceVisits(drive, m, src), cycle)
    {
      ghost var before, stats0 := Table(), stats;
      if src.sourceType == SOURCE_FOLDER {
        WalkFolder(m, src, src.drive, cycle);
      } else if src.sourceType == SOURCE_DOC {
        var f := drive.get(src.drive);
        if f.Some? {
          ProcessDoc(src.grantee, src, f.value, cycle);
          HandledOne(before, stats0, Visit(src.grantee, src, f.value), cycle);
        }
      }
    }

    lemma OneMoreSource(m: Measure, sources: seq<SourceRow>, i: nat)
      requires Bounded(drive, m) && i < |sources|
      ensures GranteeVisits(drive, m, sources[..i + 1]) ==
          GranteeVisits(drive, m, sources[..i]) + SourceVisits(drive, m, sources[i])
    {
      assert sources[..i + 1][..i] == sources[..i];
    }

    lemma OneMoreGrantee(m: Measure, grantees: seq<string>, i: nat)
      requires Bounded(drive, m) && i < |grantees|
      ensures ListedVisits(drive, m, faults, reg, grantees[..i + 1]) ==
          ListedVisits(drive, m, faults, reg, grantees[..i]) +
          if faults.sources(grantees[i]) then [] else GranteeVisits(drive, m, SourcesFor(reg.sources, grantees[i]))
    {
      assert grantees[..i + 1][..i] == grantees[..i];
    }

    method SyncGrantee(ghost m: Measure, g: string, cycle: int) returns (ok: bool)
      requires Bounded(drive, m)
      modifies this`docs, this`calls, this`stats
      ensures ok <==> !faults.sources(g)
      ensures Handled(old(Table()), old(stats),
          if ok then GranteeVisits(drive, m, SourcesFor(reg.sources, g)) else [], cycle)
    {
      if faults.sources(g) {
        return false;
      }
      var sources := SourcesFor(reg.sources, g);
      ghost var before, stats0 := Table(), stats;
      for i := 0 to |sources|
        invariant Handled(before, stats0, GranteeVisits(drive, m, sources[..i]), cycle)
      {
        ghost var mid, midStats := Table(), stats;
        SyncSource(m, sources[i], cycle);
        HandledMore(before, stats0, GranteeVisits(drive, m, sources[..i]), mid, midStats,
            SourceVisits(drive, m, sources[i]), cycle);
        OneMoreSource(m, sources, i);
      }
      assert sources[..|sources|] == sources;
      ok := true;
    }

    method SyncGrantees(ghost m: Measure, cycle: int)
      requires Bounded(drive, m)
      modifies this`docs, this`calls, this`stats
      ensures Handled(old(Table()), old(stats), CycleVisits(drive, m, faults, reg), cycle)
    {
      var grantees := ActiveGrantees(reg.grantees);
      ghost var before, stats0 := Table(), stats;
      for i := 0 to |grantees|
        invariant Handled(before, stats0, ListedVisits(drive, m, faults, reg, grantees[..i]), cycle)
      {
        ghost var mid, midStats := Table(), stats;
        var listed := SyncGrantee(m, grantees[i], cycle);
        ghost var more := if listed then GranteeVisits(drive, m, SourcesFor(reg.sources, grantees[i])) else [];
        HandledMore(before, stats0, ListedVisits(drive, m, faults, reg, grantees[..i]), mid, midStats, more, cycle);
        OneMoreGrantee(m, grantees, i);
      }
      assert grantees[..|grantees|] == grantees;
    }

    /**
     One cycle. The counter advances, every listed grantee's files are handled, and only then are the rows
     that were not seen marked stale; the marks are added to the counters.
     */
    method Run(ghost m: Measure) returns (ok: bool)
      requires Bounded(drive, m)
      modifies this`docs, this`calls, this`stats, this`cycleCounter
      ensures cycleCounter == old(cycleCounter) + if faults.cycleId then 0 else 1
      ensures var visits := if faults.cycleId || faults.grantees then [] else CycleVisits(drive, m, faults, reg);
              var (db, outcomes) := ProcessAll(faults.statement, drive.download, old(Table()), visits, cycleCounter);
              if faults.cycleId || faults.grantees then Table() == db && !ok
              else
                var (swept, marked) := DocTables.MarkUnseenStale(faults.statement, reg, db, cycleCounter);
                && Table() == swept
                && stats == (var s := CountAll(NO_STATS, outcomes);
                    s.(stale := s.stale + if marked.Some? then marked.value else 0))
                && (ok <==> marked.Some? && !faults.finish)
                && stats.Total() == |visits| + if marked.Some? then marked.value else 0
    {
      if faults.cycleId {
        return false;
      }
      cycleCounter := cycleCounter + 1;
      stats := NO_STATS;
      if faults.grantees {
        return false;
      }
      ghost var before := Table();
      SyncGrantees(m, cycleCounter);
      ghost var visits := CycleVisits(drive, m, faults, reg);
      OneOutcomeAVisit(faults.statement, drive.download, before, visits, cycleCounter);
      var marked := MarkUnseenStale(cycleCounter);
      if marked.None? {
        return false;
      }
      stats := stats.(stale := stats.stale + marked.value);
      ok := !faults.finish;
    }
  }
}
