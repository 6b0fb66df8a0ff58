/**
 Indexing one message (internal/mailbox/indexer.go, handleMessage, with internal/grantee/resolver.go)
 as a machine that takes one SQL statement a step, and the handler itself proved to be an
 uninterrupted run of that machine.
 */
module Ingest {
  import opened Wrappers
  import opened Text
  import opened Parse
  import opened MailTables
  import MailStore

  /** The fields of ParseRFC822's result that handleMessage uses. */
  datatype Parsed = Parsed(messageId: string, inReplyTo: string, references: string, subject: string, from: string,
      date: int)

  /** A fetched message. parsed is None when the body does not parse. */
  datatype Delivery = Delivery(bodyEmpty: bool, envelopeId: string, parsed: Option<Parsed>, uid: nat)

  /** A parsed message on its way into the tables: its lookup list and the root it would found a thread with. */
  datatype Job = Job(p: Parsed, cands: seq<string>, root: string, folder: string, uid: nat, uidValidity: nat) {
    function Row(t: nat, grantee: Option<string>): Message {
      Message(p.messageId, t, grantee, folder, uid, uidValidity, p.from, p.date)
    }
  }

  function JobFor(p: Parsed, folder: string, uid: nat, uidValidity: nat): Job {
    Job(p, Candidates(p.messageId, p.inReplyTo, p.references), RootFor(p.messageId, p.inReplyTo, p.references),
        folder, uid, uidValidity)
  }

  datatype Failure = EmptyBody | Unparsable | ThreadCreateRace | ThreadMissing | InsertRejected | StatementFailed

  datatype Outcome = Indexed | Failed(why: Failure)

  /** Where a worker stands in handleMessage: each constructor but Done names the statement to run next. */
  datatype Pc =
    | CheckExists(d: Delivery, folder: string, uidValidity: nat)
    | FindRoot(job: Job)
    | FindMember(job: Job)
    | Create(job: Job)
    | RefindRoot(job: Job)
    | RefindMember(job: Job)
    | LookupSender(job: Job, t: nat)
    | InheritThread(job: Job, t: nat)
    | Insert(job: Job, t: nat, grantee: Option<string>, fromSender: bool)
    | Promote(job: Job, t: nat, g: string)
    | Touch(job: Job, t: nat)
    | Done(outcome: Outcome)
  {
    /** Statements left at most; every step lowers it. */
    function Rank(): nat {
      match this
      case CheckExists(_, _, _) => 11
      case FindRoot(_) => 10
      case FindMember(_) => 9
      case Create(_) => 8
      case RefindRoot(_) => 7
      case RefindMember(_) => 6
      case LookupSender(_, _) => 5
      case InheritThread(_, _) => 4
      case Insert(_, _, _, _) => 3
      case Promote(_, _, _) => 2
      case Touch(_, _) => 1
      case Done(_) => 0
    }
  }

  /** The parsed message goes on to the thread lookup; an unparsable one fails before any further statement. */
  function AfterParse(d: Delivery, folder: string, uidValidity: nat): Pc {
    match d.parsed
    case None => Done(Failed(Unparsable))
    case Some(p) => FindRoot(JobFor(p, folder, d.uid, uidValidity))
  }

  /** The state before the first statement. */
  function Begin(d: Delivery, folder: string, uidValidity: nat): Pc {
    if d.bodyEmpty then Done(Failed(EmptyBody))
    else if d.envelopeId != "" then CheckExists(d, folder, uidValidity)
    else AfterParse(d, folder, uidValidity)
  }

  /** One statement of one worker. */
  ghost predicate Step(db: MailDb, pc: Pc, db': MailDb, pc': Pc) {
    match pc
    case CheckExists(d, folder, uidValidity) =>
      db' == db && pc' == if HasMessage(db, d.envelopeId) then Done(Indexed) else AfterParse(d, folder, uidValidity)
    case FindRoot(job) =>
      && db' == db
      && if exists t :: RootMatch(db, job.cands, t)
         then pc'.LookupSender? && pc'.job == job && RootMatch(db, job.cands, pc'.t)
         else pc' == FindMember(job)
    case FindMember(job) =>
      && db' == db
      && if exists t :: MemberMatch(db, job.cands, t)
         then pc'.LookupSender? && pc'.job == job && MemberMatch(db, job.cands, pc'.t)
         else pc' == Create(job)
    case Create(job) =>
      var (after, id) := CreateThread(db, job.root, job.p.subject, job.p.date);
      db' == after && pc' == if id.Some? then LookupSender(job, id.value) else RefindRoot(job)
    case RefindRoot(job) =>
      && db' == db
      && if exists t :: RootMatch(db, [job.root], t)
         then pc'.LookupSender? && pc'.job == job && RootMatch(db, [job.root], pc'.t)
         else pc' == RefindMember(job)
    case RefindMember(job) =>
      && db' == db
      && if exists t :: MemberMatch(db, [job.root], t)
         then pc'.LookupSender? && pc'.job == job && MemberMatch(db, [job.root], pc'.t)
         else pc' == Done(Failed(ThreadCreateRace))
    case LookupSender(job, t) =>
      var g := if job.p.from == "" then None else LookupGrantee(db, job.p.from);
      db' == db && pc' == if g.Some? then Insert(job, t, g, true) else InheritThread(job, t)
    case InheritThread(job, t) =>
      && db' == db
      && pc' == if t !in db.threads then Done(Failed(ThreadMissing))
                else Insert(job, t, db.threads[t].grantee, false)
    case Insert(job, t, grantee, fromSender) =>
      var (after, r) := InsertMessage(db, job.Row(t, grantee));
      db' == after && pc' == if r == SlotConflict then Done(Failed(InsertRejected))
                             else if fromSender && grantee.Some? then Promote(job, t, grantee.value) else Touch(job, t)
    case Promote(job, t, g) =>
      db' == SetThreadGrantee(db, t, g) && pc' == Touch(job, t)
    case Touch(job, t) =>
      db' == TouchThread(db, t, job.p.date) && pc' == Done(Indexed)
    case Done(_) => false
  }

  lemma StepLowersRank(db: MailDb, pc: Pc, db': MailDb, pc': Pc)
    requires Step(db, pc, db', pc')
    ensures pc'.Rank() < pc.Rank()
  {
  }

  /** A run of one worker with no other worker between its statements: from (db, pc) to its end. */
  ghost predicate RunsAlone(trace: seq<(MailDb, Pc)>) {
    && trace != []
    && (forall i :: 0 <= i < |trace| - 1 ==> Step(trace[i].0, trace[i].1, trace[i + 1].0, trace[i + 1].1))
  }

  ghost function Last(trace: seq<(MailDb, Pc)>): (MailDb, Pc)
    requires trace != []
  {
    trace[|trace| - 1]
  }

  ghost function Then(trace: seq<(MailDb, Pc)>, db: MailDb, pc: Pc): (r: seq<(MailDb, Pc)>)
    requires RunsAlone(trace) && Step(Last(trace).0, Last(trace).1, db, pc)
    ensures RunsAlone(r) && r[0] == trace[0] && Last(r) == (db, pc)
  {
    trace + [(db, pc)]
  }

  /** Handling d from db to its end, undisturbed, can give db' and the outcome o. */
  ghost predicate Handles(db: MailDb, d: Delivery, folder: string, uidValidity: nat, db': MailDb, o: Outcome) {
    exists trace ::
      && RunsAlone(trace)
      && trace[0] == (db, Begin(d, folder, uidValidity))
      && Last(trace) == (db', Done(o))
  }

  // ---------- the cursor of a folder ----------

  /** What one FETCH item gives: a message, or an error that ends the sync. */
  datatype Item = Collected(d: Delivery) | CollectFails

  /** The server's answer to a FETCH. */
  datatype Answer = Answer(items: seq<Item>, closeFails: bool)

  const UID_LIMIT := 0x1_0000_0000

  /** The cursor's last UID as far as it applies to this UIDVALIDITY. */
  function LastUid(state: Option<Cursor>, uidValidity: nat): nat {
    if state.Some? && state.value.uidValidity == uidValidity then state.value.lastUid else 0
  }

  /** `imap.UID(lastUID+1)` in 32 bits: the lower end of the range asked for; the upper end is `*`. */
  function FirstUid(lastUid: nat): nat {
    (lastUid + 1) % UID_LIMIT
  }

  /** The outcome of each delivery so far. */
  type Log = seq<(Delivery, Outcome)>

  function Highest(lastUid: nat, log: Log): (h: nat)
    ensures lastUid <= h
  {
    if log == [] then lastUid else
      var h := Highest(lastUid, log[..|log| - 1]);
      var (d, o) := log[|log| - 1];
      if o == Indexed && d.uid > h then d.uid else h
  }

  /** The cursor row after a sync that reached its end. */
  function CursorAfter(state: Option<Cursor>, uidValidity: nat, highest: nat): Option<Cursor> {
    if highest != LastUid(state, uidValidity) || state.None? || state.value.uidValidity != uidValidity
    then Some(Cursor(uidValidity, highest)) else state
  }

  function CursorOf(db: MailDb, folder: string): Option<Cursor> {
    if folder in db.cursors then Some(db.cursors[folder]) else None
  }

  /** The deliveries of the first items, without those that carry no UID. */
  function Deliveries(items: seq<Item>): seq<Delivery> {
    if items == [] then [] else
      var init, item := Deliveries(items[..|items| - 1]), items[|items| - 1];
      if item.Collected? && item.d.uid != 0 then init + [item.d] else init
  }

  /** What arrives before the first item that fails. */
  function UpToFailure(items: seq<Item>): (r: seq<Item>)
    ensures r <= items && CollectFails !in r
    ensures r == items || items[|r|] == CollectFails
  {
    if items == [] || items[0].CollectFails? then [] else [items[0]] + UpToFailure(items[1..])
  }

  lemma FailureIsFirst(items: seq<Item>, i: nat)
    requires i <= |items| && CollectFails !in items[..i] && (i < |items| ==> items[i] == CollectFails)
    ensures UpToFailure(items) == items[..i]
    ensures Deliveries(UpToFailure(items)) <= Deliveries(items)
  {
    hide UpToFailure, Deliveries;
    var r := UpToFailure(items);
    SameFailure(items, r, items[..i]);
    DeliveriesOfPrefix(r, items);
  }

  lemma SameFailure(items: seq<Item>, r: seq<Item>, q: seq<Item>)
    requires r <= items && CollectFails !in r && (r == items || items[|r|] == CollectFails)
    requires q <= items && CollectFails !in q && (q == items || items[|q|] == CollectFails)
    ensures r == q
  {
    assert forall k :: 0 <= k < |r| ==> r[k] == items[k] && r[k] in r;
    assert forall k :: 0 <= k < |q| ==> q[k] == items[k] && q[k] in q;
  }

  lemma DeliveriesOfPrefix(a: seq<Item>, items: seq<Item>)
    requires a <= items
    ensures Deliveries(a) <= Deliveries(items)
  {
    hide Deliveries;
    DeliveriesJoin(a, items[|a|..]);
    assert items == a + items[|a|..];
  }

  /** Each item that was collected and has a UID gives one delivery, and others give none. */
  lemma DeliveryOfOne(item: Item)
    ensures Deliveries([item]) == if item.CollectFails? || item.d.uid == 0 then [] else [item.d]
  {
    assert [item][..0] == [];
  }

  /** And deliveries come in the order of the items. */
  lemma {:induction false} DeliveriesJoin(a: seq<Item>, b: seq<Item>)
    ensures Deliveries(a + b) == Deliveries(a) + Deliveries(b)
    decreases |b|
  {
    if b == [] {
      assert a + b == a;
    } else {
      var n := |b| - 1;
      DeliveriesJoin(a, b[..n]);
      assert (a + b)[..|a + b| - 1] == a + b[..n];
    }
  }

  /** Each delivery of the log was handled in turn, from dbs[i] to dbs[i + 1]. */
  ghost predicate HandledInTurn(dbs: seq<MailDb>, log: Log, folder: string, uidValidity: nat) {
    && |dbs| == |log| + 1
    && forall i :: 0 <= i < |log| ==> Handles(dbs[i], log[i].0, folder, uidValidity, dbs[i + 1], log[i].1)
  }

  function DeliveriesOf(log: Log): seq<Delivery> {
    seq(|log|, i requires 0 <= i < |log| => log[i].0)
  }

  lemma OneMoreDelivery(items: seq<Item>, i: nat)
    requires i < |items| && items[i].Collected?
    ensures Deliveries(items[..i + 1]) == Deliveries(items[..i]) + if items[i].d.uid != 0 then [items[i].d] else []
  {
    assert items[..i + 1][..i] == items[..i];
  }

  /** One more handling at the end of a log. */
  lemma OneMoreTurn(dbs: seq<MailDb>, log: Log, folder: string, uidValidity: nat, d: Delivery, o: Outcome, db: MailDb,
      lastUid: nat)
    requires HandledInTurn(dbs, log, folder, uidValidity) && Handles(dbs[|log|], d, folder, uidValidity, db, o)
    ensures HandledInTurn(dbs + [db], log + [(d, o)], folder, uidValidity)
    ensures DeliveriesOf(log + [(d, o)]) == DeliveriesOf(log) + [d]
    ensures Highest(lastUid, log + [(d, o)]) ==
            var h := Highest(lastUid, log);
            if o == Indexed && d.uid > h then d.uid else h
  {
    hide Handles;
    assert (log + [(d, o)])[..|log|] == log;
  }

  // ---------- the handler ----------

  /** resolver.Resolve: the sender's grantee, else the thread's, else none. */
  datatype Resolution = Resolution(grantee: Option<string>, fromSender: bool)

  class Indexer {
    const store: MailStore.Store
    const folder: string

    constructor (store: MailStore.Store, folder: string)
      ensures this.store == store && this.folder == folder
    {
      this.store := store;
      this.folder := folder;
    }

    method Resolve(fromEmail: string, t: nat) returns (r: Option<Resolution>)
      ensures var g := if fromEmail == "" then None else LookupGrantee(store.Db(), fromEmail);
              r == if g.Some? then Some(Resolution(g, true))
                   else if t in store.Db().threads then Some(Resolution(store.Db().threads[t].grantee, false)) else None
    {
      if fromEmail != "" {
        var g := store.LookupGranteeByEmail(fromEmail);
        if g.Some? {
          return Some(Resolution(g, true));
        }
      }
      if t in store.threads {
        return Some(Resolution(store.threads[t].grantee, false));
      }
      r := None;
    }

    /** Finds or makes the job's thread; the trace runs on from the thread lookup to the sender lookup. */
    method PlaceInThread(job: Job, ghost before: seq<(MailDb, Pc)>)
        returns (t: Option<nat>, ghost trace: seq<(MailDb, Pc)>)
      requires RunsAlone(before) && Last(before) == (store.Db(), FindRoot(job))
      modifies store
      ensures RunsAlone(trace) && trace[0] == before[0]
      ensures Last(trace) == (store.Db(),
          if t.Some? then LookupSender(job, t.value) else Done(Failed(ThreadCreateRace)))
    {
      trace := before;
      t := store.FindByRoot(job.cands);
      if t.Some? {
        trace := Then(trace, store.Db(), LookupSender(job, t.value));
        return;
      }
      trace := Then(trace, store.Db(), FindMember(job));
      t := store.FindByMember(job.cands);
      if t.Some? {
        trace := Then(trace, store.Db(), LookupSender(job, t.value));
        return;
      }
      trace := Then(trace, store.Db(), Create(job));
      t := store.CreateThread(job.root, job.p.subject, job.p.date);
      if t.Some? {
        trace := Then(trace, store.Db(), LookupSender(job, t.value));
        return;
      }
      trace := Then(trace, store.Db(), RefindRoot(job));
      t := store.FindByRoot([job.root]);
      if t.Some? {
        trace := Then(trace, store.Db(), LookupSender(job, t.value));
        return;
      }
      trace := Then(trace, store.Db(), RefindMember(job));
      t := store.FindByMember([job.root]);
      trace := Then(trace, store.Db(), if t.Some? then LookupSender(job, t.value) else Done(Failed(ThreadCreateRace)));
    }

    /** Stores the row, promotes the thread if the sender decided, and touches it. */
    method StoreRow(job: Job, t: nat, grantee: Option<string>, fromSender: bool, ghost before: seq<(MailDb, Pc)>)
      returns (o: Outcome, ghost trace: seq<(MailDb, Pc)>)
      requires RunsAlone(before) && Last(before) == (store.Db(), Insert(job, t, grantee, fromSender))
      modifies store
      ensures RunsAlone(trace) && trace[0] == before[0] && Last(trace) == (store.Db(), Done(o))
    {
      trace := before;
      var r := store.InsertMessage(job.Row(t, grantee));
      if r == SlotConflict {
        o := Failed(InsertRejected);
        trace := Then(trace, store.Db(), Done(o));
        return;
      }
      if fromSender && grantee.Some? {
        trace := Then(trace, store.Db(), Promote(job, t, grantee.value));
        store.SetThreadGrantee(t, grantee.value);
      }
      trace := Then(trace, store.Db(), Touch(job, t));
      store.TouchThread(t, job.p.date);
      o := Indexed;
      trace := Then(trace, store.Db(), Done(o));
    }

    /** Resolves the grantee and stores the message under it. */
    method Store(job: Job, t: nat, ghost before: seq<(MailDb, Pc)>) returns (o: Outcome, ghost trace: seq<(MailDb, Pc)>)
      requires RunsAlone(before) && Last(before) == (store.Db(), LookupSender(job, t))
      modifies store
      ensures RunsAlone(trace) && trace[0] == before[0] && Last(trace) == (store.Db(), Done(o))
    {
      trace := before;
      var res := Resolve(job.p.from, t);
      ghost var sender := if job.p.from == "" then None else LookupGrantee(store.Db(), job.p.from);
      if sender.None? {
        trace := Then(trace, store.Db(), InheritThread(job, t));
      }
      if res.None? {
        o := Failed(ThreadMissing);
        trace := Then(trace, store.Db(), Done(o));
        return;
      }
      var grantee, fromSender := res.value.grantee, res.value.fromSender;
      trace := Then(trace, store.Db(), Insert(job, t, grantee, fromSender));
      o, trace := StoreRow(job, t, grantee, fromSender, trace);
    }

    method HandleMessage(d: Delivery, uidValidity: nat) returns (o: Outcome)
      modifies store
      ensures Handles(old(store.Db()), d, folder, uidValidity, store.Db(), o)
    {
      ghost var trace := [(store.Db(), Begin(d, folder, uidValidity))];
      if d.bodyEmpty {
        o := Failed(EmptyBody);
        assert RunsAlone(trace) && Last(trace) == (store.Db(), Done(o));
        return;
      }
      if d.envelopeId != "" {
        var stored := store.MessageExistsById(d.envelopeId);
        if stored {
          o := Indexed;
          trace := Then(trace, store.Db(), Done(o));
          return;
        }
        trace := Then(trace, store.Db(), AfterParse(d, folder, uidValidity));
      }
      if d.parsed.None? {
        o := Failed(Unparsable);
        assert RunsAlone(trace) && Last(trace) == (store.Db(), Done(o));
        return;
      }
      var p := d.parsed.value;
      var cands := ThreadCandidates(p.messageId, p.inReplyTo, p.references);
      var root := p.messageId;
      var refs := ExtractIDs(p.references);
      var irt := ExtractIDs(p.inReplyTo);
      if |refs| > 0 {
        root := refs[0];
      } else if |irt| > 0 {
        root := irt[0];
      }
      var job := Job(p, cands, root, folder, d.uid, uidValidity);
      var t;
      t, trace := PlaceInThread(job, trace);
      if t.None? {
        o := Failed(ThreadCreateRace);
        return;
      }
      o, trace := Store(job, t.value, trace);
    }

    /**
     Indexes what the server has above the cursor. Returns true when it reached its end and the cursor
     is up to date; an error on the way leaves the cursor as it was.
     */
    method Sync(uidValidity: nat, fetch: nat -> Answer) returns (ok: bool, ghost dbs: seq<MailDb>, ghost log: Log)
      modifies store
      ensures dbs != [] && dbs[0] == old(store.Db()) && HandledInTurn(dbs, log, folder, uidValidity)
      ensures var state := CursorOf(old(store.Db()), folder);
              var answer := fetch(FirstUid(LastUid(state, uidValidity)));
              && DeliveriesOf(log) == Deliveries(UpToFailure(answer.items)) <= Deliveries(answer.items)
              && (ok <==> CollectFails !in answer.items && !answer.closeFails)
              && var last := dbs[|log|];
                 store.Db() == if ok && CursorAfter(state, uidValidity, Highest(LastUid(state, uidValidity), log))
                     != state
                               then SaveCursor(last, folder,
                                   Cursor(uidValidity, Highest(LastUid(state, uidValidity), log)))
                               else last
    {
      hide Handles;
      ghost var before := store.Db();
      var state := if folder in store.cursors then Some(store.cursors[folder]) else None;
      var lastUid := LastUid(state, uidValidity);
      var answer := fetch(FirstUid(lastUid));
      var highest := lastUid;
      dbs, log := [store.Db()], [];
      for i := 0 to |answer.items|
        invariant HandledInTurn(dbs, log, folder, uidValidity)
        invariant dbs[0] == before && dbs[|log|] == store.Db()
        invariant DeliveriesOf(log) == Deliveries(answer.items[..i]) && CollectFails !in answer.items[..i]
        invariant highest == Highest(lastUid, log)
      {
        if answer.items[i].CollectFails? {
          FailureIsFirst(answer.items, i);
          return false, dbs, log;
        }
        OneMoreDelivery(answer.items, i);
        var d := answer.items[i].d;
        if d.uid != 0 {
          var o := HandleMessage(d, uidValidity);
          if o == Indexed && d.uid > highest {
            highest := d.uid;
          }
          OneMoreTurn(dbs, log, folder, uidValidity, d, o, store.Db(), lastUid);
          log, dbs := log + [(d, o)], dbs + [store.Db()];
        }
      }
      assert answer.items[..|answer.items|] == answer.items;
      FailureIsFirst(answer.items, |answer.items|);
      if answer.closeFails {
        return false, dbs, log;
      }
      if highest != lastUid || (state.Some? && state.value.uidValidity != uidValidity) || state.None? {
        store.SaveMailboxState(folder, Cursor(uidValidity, highest));
      }
      ok := true;
    }
  }
}
