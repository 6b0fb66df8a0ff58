/**
 The docs table and its statements (internal/store/store.go), and what one file does to it
 (processDoc of internal/sync/sync.go). Every statement may fail: fails(n) says whether the n-th does,
 and a statement that fails changes nothing.
 */
module DocTables {
  import opened Wrappers
  import opened Text

  datatype Status = Active | Stale | Error

  /** modifiedAt is in seconds. */
  datatype Doc = Doc(
    grantee: string, title: string, owner: string, content: string, modifiedAt: int,
    sourceType: string, sourceDrive: string, hadImages: bool,
    status: Status, lastError: string, lastSeen: Option<int>)

  datatype Db = Db(docs: map<string, Doc>, calls: nat)

  datatype GranteeRow = GranteeRow(id: string, active: bool)
  datatype SourceRow = SourceRow(grantee: string, sourceType: string, drive: string)

  /** The grantees and grantee_sources tables, in the order in which they are listed. */
  datatype Registry = Registry(grantees: seq<GranteeRow>, sources: seq<SourceRow>)

  predicate GranteeActive(reg: Registry, g: string) {
    exists i :: 0 <= i < |reg.grantees| && reg.grantees[i].id == g && reg.grantees[i].active
  }

  predicate SourceRegistered(reg: Registry, drive: string) {
    exists i :: 0 <= i < |reg.sources| && reg.sources[i].drive == drive
  }

  const NANOS := 1_000_000_000

  /** Time.Unix: whole seconds, rounded towards the past. */
  function Seconds(nanos: int): (s: int)
    ensures s * NANOS <= nanos < (s + 1) * NANOS
  {
    nanos / NANOS
  }

  // ---------- statements ----------

  function Called(db: Db): Db {
    db.(calls := db.calls + 1)
  }

  function SetDoc(db: Db, id: string, doc: Doc): Db {
    db.(docs := db.docs[id := doc])
  }

  function TouchDocSeen(fails: nat -> bool, db: Db, id: string, cycle: int): (Db, bool) {
    if fails(db.calls) || id !in db.docs then (Called(db), false)
    else (SetDoc(Called(db), id, db.docs[id].(lastSeen := Some(cycle), status := Active, lastError := "")), true)
  }

  function MarkDoc(fails: nat -> bool, db: Db, id: string, status: Status, message: string): Db {
    if fails(db.calls) || id !in db.docs then Called(db)
    else SetDoc(Called(db), id, db.docs[id].(status := status, lastError := message))
  }

  function UpsertDoc(fails: nat -> bool, db: Db, id: string, doc: Doc, cycle: int): (Db, bool) {
    if id == "" || doc.grantee == "" then (db, false)
    else if fails(db.calls) then (Called(db), false)
    else (SetDoc(Called(db), id, doc.(owner := Lower(doc.owner), lastSeen := Some(cycle))), true)
  }

  /** The rows that the sweep of a cycle marks. */
  predicate Unseen(reg: Registry, doc: Doc, cycle: int) {
    && doc.status == Active
    && (doc.lastSeen.None? || doc.lastSeen.value < cycle)
    && GranteeActive(reg, doc.grantee)
    && SourceRegistered(reg, doc.sourceDrive)
  }

  const UNSEEN_ERROR := "not seen in last sync cycle"

  function UnseenIds(reg: Registry, db: Db, cycle: int): set<string> {
    set id | id in db.docs && Unseen(reg, db.docs[id], cycle)
  }

  function Swept(reg: Registry, db: Db, cycle: int): Db {
    db.(docs := map id | id in db.docs ::
          if Unseen(reg, db.docs[id], cycle) then db.docs[id].(status := Stale, lastError := UNSEEN_ERROR)
              else db.docs[id])
  }

  function MarkUnseenStale(fails: nat -> bool, reg: Registry, db: Db, cycle: int): (Db, Option<nat>) {
    if fails(db.calls) then (Called(db), None)
    else (Swept(reg, Called(db), cycle), Some(|UnseenIds(reg, db, cycle)|))
  }

  /** The number that the sweep reports is that of the rows it changed; no row comes or goes. */
  lemma SweepCounts(fails: nat -> bool, reg: Registry, db: Db, cycle: int)
    ensures var (after, marked) := MarkUnseenStale(fails, reg, db, cycle);
            && after.docs.Keys == db.docs.Keys
            && (marked.None? ==> after.docs == db.docs)
            && (marked.Some? ==> marked.value == |set id | id in db.docs && after.docs[id] != db.docs[id]|)
  {
    var (after, marked) := MarkUnseenStale(fails, reg, db, cycle);
    if marked.Some? {
      assert UnseenIds(reg, db, cycle) == set id | id in db.docs && after.docs[id] != db.docs[id];
    }
  }

  // ---------- one file ----------

  datatype Mime = FolderMime | DocMime | OtherMime

  /** modified is an instant in nanoseconds, absent when the time does not parse. */
  datatype File = File(id: string, name: string, mime: Mime, modified: Option<int>, owner: string)

  datatype Exported = Markdown(text: string) | GoneOrForbidden(message: string) | OtherFailure(message: string)

  datatype Visit = Visit(grantee: string, source: SourceRow, file: File)

  datatype Outcome = Synced | Unchanged | Skipped | Failed | MarkedStale

  predicate DetectImages(md: string) {
    Contains(md, "![")
  }

  function Fresh(v: Visit, modified: int, markdown: string): Doc {
    Doc(v.grantee, v.file.name, Lower(TrimSpace(v.file.owner)), markdown, Seconds(modified),
        v.source.sourceType, v.source.drive, DetectImages(markdown), Active, "", None)
  }

  /** The stored time, which counts whole seconds, equals the file's. */
  predicate SameTime(db: Db, file: File) {
    file.id in db.docs && file.modified == Some(db.docs[file.id].modifiedAt * NANOS)
  }

  function Touched(fails: nat -> bool, db: Db, id: string, cycle: int): (Db, Outcome) {
    var (db', ok) := TouchDocSeen(fails, db, id, cycle);
    (db', if ok then Unchanged else Failed)
  }

  function Stored(fails: nat -> bool, db: Db, v: Visit, exported: Exported, cycle: int): (Db, Outcome)
    requires v.file.modified.Some?
  {
    match exported
    case GoneOrForbidden(message) =>
      if v.file.id in db.docs then (MarkDoc(fails, db, v.file.id, Stale, message), MarkedStale) else (db, Skipped)
    case OtherFailure(message) =>
      if v.file.id in db.docs then (MarkDoc(fails, db, v.file.id, Error, message), Failed) else (db, Failed)
    case Markdown(md) =>
      var (db', ok) := UpsertDoc(fails, db, v.file.id, Fresh(v, v.file.modified.value, md), cycle);
      (db', if ok then Synced else Failed)
  }

  function ProcessDoc(fails: nat -> bool, download: string -> Exported, db: Db, v: Visit, cycle: int): (Db, Outcome) {
    if v.file.mime != DocMime then (db, Skipped)
    else if v.file.modified.None? then (db, Failed)
    else if fails(db.calls) then (Called(db), Failed)
    else if SameTime(db, v.file) then Touched(fails, Called(db), v.file.id, cycle)
    else Stored(fails, Called(db), v, download(v.file.id), cycle)
  }

  /** The row's text, time and origin, which only a successful sync may change. */
  predicate SameText(a: Doc, b: Doc) {
    b == a.(status := b.status, lastError := b.lastError, lastSeen := b.lastSeen)
  }

  ghost predicate IsExport(db: Db, v: Visit, exported: Exported, cycle: int) {
    && v.file.id in db.docs && v.file.modified.Some? && exported.Markdown?
    && var row := db.docs[v.file.id];
       && row.content == exported.text && row.modifiedAt == Seconds(v.file.modified.value)
       && row.grantee == v.grantee && row.sourceDrive == v.source.drive && row.sourceType == v.source.sourceType
       && row.title == v.file.name && row.owner == Lower(TrimSpace(v.file.owner))
       && (row.hadImages <==> Contains(exported.text, "!["))
       && row.status == Active && row.lastSeen == Some(cycle) && row.lastError == ""
  }

  /** The row has the status and the message of a failed export, and is otherwise as before. */
  ghost predicate Marked(a: Doc, b: Doc, exported: Exported) {
    match exported
    case Markdown(_) => false
    case GoneOrForbidden(message) => b == a.(status := Stale, lastError := message)
    case OtherFailure(message) => b == a.(status := Error, lastError := message)
  }

  /** The row is marked, or as it was because the marking itself failed. */
  ghost predicate MarkedOrNot(db: Db, id: string, exported: Exported, after: Db, sound: bool)
    requires id in db.docs
  {
    id in after.docs
    && (Marked(db.docs[id], after.docs[id], exported) || (!sound && after.docs[id] == db.docs[id]))
  }

  /** sound says that no statement fails. */
  ghost predicate Means(db: Db, v: Visit, exported: Exported, cycle: int, after: Db, o: Outcome, sound: bool) {
    var id := v.file.id;
    match o
    case Synced => IsExport(after, v, exported, cycle)
    case Unchanged =>
      && id in db.docs && id in after.docs
      && after.docs[id] == db.docs[id].(status := Active, lastSeen := Some(cycle), lastError := "")
    case MarkedStale => exported.GoneOrForbidden? && id in db.docs && MarkedOrNot(db, id, exported, after, sound)
    case Failed =>
      && (id in after.docs <==> id in db.docs)
      && (id in db.docs ==>
            after.docs[id] == db.docs[id] || (exported.OtherFailure? && MarkedOrNot(db, id, exported, after, sound)))
    case Skipped => after.docs == db.docs
  }

  ghost predicate Sound(fails: nat -> bool) {
    forall n :: !fails(n)
  }

  lemma StoredMeaning(fails: nat -> bool, db: Db, v: Visit, exported: Exported, cycle: int)
    requires v.file.modified.Some?
    ensures var (after, o) := Stored(fails, db, v, exported, cycle);
            Means(db, v, exported, cycle, after, o, Sound(fails))
  {
    if exported.Markdown? {
      TrimIdempotent(v.file.owner, IsSpace);
      LowerIdempotent(TrimSpace(v.file.owner));
    }
    hide TrimSpace, Lower, Contains;
  }

  lemma TouchedMeaning(fails: nat -> bool, db: Db, v: Visit, exported: Exported, cycle: int)
    requires SameTime(db, v.file)
    ensures var (after, o) := Touched(fails, db, v.file.id, cycle);
            Means(db, v, exported, cycle, after, o, Sound(fails))
  {
  }

  lemma CalledMeansSame(db: Db, v: Visit, exported: Exported, cycle: int, after: Db, o: Outcome, sound: bool)
    requires Means(Called(db), v, exported, cycle, after, o, sound)
    ensures Means(db, v, exported, cycle, after, o, sound)
  {
    hide IsExport, Marked;
  }

  /**
   What each outcome means for the file's row. Synced: it is the file as exported, active and seen. Unchanged:
   text and time stay, active and seen. Marked stale, or failed: it has the status and the message of the failed
   export, or is as it was if that could not be written. Skipped: nothing changes at all.
   */
  lemma OutcomeMeaning(fails: nat -> bool, download: string -> Exported, db: Db, v: Visit, cycle: int)
    ensures var (after, o) := ProcessDoc(fails, download, db, v, cycle);
            Means(db, v, download(v.file.id), cycle, after, o, Sound(fails))
  {
    var exported, called := download(v.file.id), Called(db);
    hide Stored, Touched;
    if v.file.mime == DocMime && v.file.modified.Some? && !fails(db.calls) {
      var (after, o) := ProcessDoc(fails, download, db, v, cycle);
      if SameTime(db, v.file) {
        TouchedMeaning(fails, called, v, exported, cycle);
      } else {
        StoredMeaning(fails, called, v, exported, cycle);
      }
      hide Means;
      CalledMeansSame(db, v, exported, cycle, after, o, Sound(fails));
    }
  }

  /** The file is a doc whose time has changed, or is new. */
  predicate Changed(db: Db, v: Visit) {
    && v.file.mime == DocMime && v.file.modified.Some?
    && !(v.file.id in db.docs && db.docs[v.file.id].modifiedAt * NANOS == v.file.modified.value)
  }

  /** Where no statement fails, which counter a file goes to. */
  lemma OutcomeIff(fails: nat -> bool, download: string -> Exported, db: Db, v: Visit, cycle: int)
    requires Sound(fails)
    ensures var (o, exported, id) := (ProcessDoc(fails, download, db, v, cycle).1, download(v.file.id), v.file.id);
            && (o == Synced <==> Changed(db, v) && exported.Markdown? && id != "" && v.grantee != "")
            && (o == Unchanged <==> v.file.mime == DocMime && v.file.modified.Some? && !Changed(db, v))
            && (o == MarkedStale <==> Changed(db, v) && exported.GoneOrForbidden? && id in db.docs)
            && (o == Skipped <==>
                  v.file.mime != DocMime || (Changed(db, v) && exported.GoneOrForbidden? && id !in db.docs))
  {
  }

  /** The table after a series of visits, and their outcomes. */
  function ProcessAll(fails: nat -> bool, download: string -> Exported, db: Db, visits: seq<Visit>, cycle: int)
      : (Db, seq<Outcome>)
    decreases |visits|
  {
    if visits == [] then (db, []) else
      var n := |visits| - 1;
      var (before, outcomes) := ProcessAll(fails, download, db, visits[..n], cycle);
      var (after, o) := ProcessDoc(fails, download, before, visits[n], cycle);
      (after, outcomes + [o])
  }

  lemma ProcessOneMore(fails: nat -> bool, download: string -> Exported, db: Db, visits: seq<Visit>, v: Visit,
      cycle: int)
    ensures var (before, outcomes) := ProcessAll(fails, download, db, visits, cycle);
            var (after, o) := ProcessDoc(fails, download, before, v, cycle);
            ProcessAll(fails, download, db, visits + [v], cycle) == (after, outcomes + [o])
  {
    assert (visits + [v])[..|visits|] == visits;
  }

  lemma {:induction false} ProcessInTwo(fails: nat -> bool, download: string -> Exported, db: Db, a: seq<Visit>,
      b: seq<Visit>, cycle: int)
    ensures var (mid, oa) := ProcessAll(fails, download, db, a, cycle);
            var (end, ob) := ProcessAll(fails, download, mid, b, cycle);
            ProcessAll(fails, download, db, a + b, cycle) == (end, oa + ob)
    decreases |b|
  {
    if b == [] {
      assert a + b == a;
      var (mid, oa) := ProcessAll(fails, download, db, a, cycle);
      assert ProcessAll(fails, download, mid, b, cycle) == (mid, []);
      assert oa + [] == oa;
    } else {
      var n := |b| - 1;
      ProcessInTwo(fails, download, db, a, b[..n], cycle);
      ProcessOneMore(fails, download, db, a + b[..n], b[n], cycle);
      assert a + b == (a + b[..n]) + [b[n]];
      var (mid, oa) := ProcessAll(fails, download, db, a, cycle);
      var (before, ob) := ProcessAll(fails, download, mid, b[..n], cycle);
      var (_, o) := ProcessDoc(fails, download, before, b[n], cycle);
      assert (oa + ob) + [o] == oa + (ob + [o]);
    }
  }

  // ---------- the five counters ----------

  datatype Stats = Stats(synced: nat, kept: nat, skipped: nat, failed: nat, stale: nat) {
    function Total(): nat {
      synced + kept + skipped + failed + stale
    }
  }

  const NO_STATS := Stats(0, 0, 0, 0, 0)

  function Count(s: Stats, o: Outcome): Stats {
    match o
    case Synced => s.(synced := s.synced + 1)
    case Unchanged => s.(kept := s.kept + 1)
    case Skipped => s.(skipped := s.skipped + 1)
    case Failed => s.(failed := s.failed + 1)
    case MarkedStale => s.(stale := s.stale + 1)
  }

  function CountAll(s: Stats, os: seq<Outcome>): (r: Stats)
    ensures r.Total() == s.Total() + |os|
  {
    if os == [] then s else Count(CountAll(s, os[..|os| - 1]), os[|os| - 1])
  }

  /** Each counter goes up by the number of its outcomes. */
  lemma {:induction false} CountersTally(s: Stats, os: seq<Outcome>)
    ensures var r := CountAll(s, os);
            && r.synced == s.synced + multiset(os)[Synced] && r.kept == s.kept + multiset(os)[Unchanged]
            && r.skipped == s.skipped + multiset(os)[Skipped] && r.failed == s.failed + multiset(os)[Failed]
            && r.stale == s.stale + multiset(os)[MarkedStale]
  {
    if os != [] {
      var n := |os| - 1;
      CountersTally(s, os[..n]);
      assert os == os[..n] + [os[n]];
      assert multiset(os) == multiset(os[..n]) + multiset{os[n]};
      assert CountAll(s, os) == Count(CountAll(s, os[..n]), os[n]);
      hide CountAll;
    }
  }

  lemma {:induction false} CountInTwo(s: Stats, a: seq<Outcome>, b: seq<Outcome>)
    ensures CountAll(s, a + b) == CountAll(CountAll(s, a), b)
    decreases |b|
  {
    if b == [] {
      assert a + b == a;
    } else {
      var n := |b| - 1;
      CountInTwo(s, a, b[..n]);
      assert (a + b)[..|a + b| - 1] == a + b[..n];
    }
  }

  lemma {:induction false} OneOutcomeAVisit(fails: nat -> bool, download: string -> Exported, db: Db,
      visits: seq<Visit>, cycle: int)
    ensures |ProcessAll(fails, download, db, visits, cycle).1| == |visits|
    decreases |visits|
  {
    if visits != [] {
      OneOutcomeAVisit(fails, download, db, visits[..|visits| - 1], cycle);
    }
  }
}
