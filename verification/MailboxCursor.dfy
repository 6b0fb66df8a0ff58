/**
 The UID cursor of one folder over any run of syncs, with crashes, expunges, arrivals during a sync
 and UIDVALIDITY resets (internal/mailbox/indexer.go, sync; RFC 3501 sections 2.3.1.1 and 6.4.8).
 */
module MailboxCursor {
  import opened Wrappers
  import opened MailTables
  import opened Ingest
  import opened HandledMail
  import opened AmidOthers

  /** The server's folder: the message under each UID. UIDs rise strictly below uidNext. */
  datatype Mailbox = Mailbox(validity: nat, uidNext: nat, box: map<nat, Delivery>)

  /** A sync under way: where it started, what it has handled, what it has still to handle. */
  datatype Session = Session(lastUid: nat, log: Log, queue: seq<Delivery>, horizon: nat)

  /** failed holds (UIDVALIDITY, UID) of each message whose handling has failed in some sync. */
  datatype State = State(db: MailDb, server: Mailbox, session: Option<Session>, failed: set<(nat, nat)>)

  datatype Move =
    | Append(d: Delivery)
    | Expunge(uid: nat)
    | Renumber(server: Mailbox)
    | BeginSync(items: seq<Item>)
    | HandleNext(db: MailDb, o: Outcome)
    | EndSync
    | Crash
    | Others(db: MailDb)

  ghost predicate MailboxOk(b: Mailbox) {
    && 0 < b.uidNext <= UID_LIMIT
    && forall uid :: uid in b.box ==> 0 < uid < b.uidNext && b.box[uid].uid == uid
  }

  ghost predicate Top(b: Mailbox, uid: nat) {
    forall u :: u in b.box ==> u <= uid
  }

  /** RFC 3501 section 6.4.8: `n:*` always includes the UID of the last message, even when n is above it. */
  ghost predicate InRange(b: Mailbox, first: nat, uid: nat) {
    uid in b.box && ((first != 0 && uid >= first) || Top(b, uid))
  }

  ghost predicate Answers(b: Mailbox, first: nat, items: seq<Item>) {
    && (forall uid :: InRange(b, first, uid) ==> Collected(b.box[uid]) in items)
    && (forall item :: item in items && item.Collected? && item.d.uid != 0 ==>
          InRange(b, first, item.d.uid) && item.d == b.box[item.d.uid])
  }

  ghost predicate Next(folder: string, s: State, move: Move, s': State) {
    match move
    case Append(d) =>
      && s.server.uidNext < UID_LIMIT
      && s' == s.(server := Mailbox(s.server.validity, s.server.uidNext + 1,
                                    s.server.box[s.server.uidNext := d.(uid := s.server.uidNext)]))
    case Expunge(uid) => s' == s.(server := s.server.(box := s.server.box - {uid}))
    case Renumber(server) =>
      s.server.validity < server.validity && MailboxOk(server) && s' == s.(server := server, session := None)
    case BeginSync(items) =>
      var last := LastUid(CursorOf(s.db, folder), s.server.validity);
      && s.session.None?
      && Answers(s.server, FirstUid(last), items)
      && s' == s.(session := Some(Session(last, [], Deliveries(items), s.server.uidNext)))
    case HandleNext(db, o) =>
      && s.session.Some? && s.session.value.queue != []
      && var ss := s.session.value;
         var d := ss.queue[0];
         && HandlesAmid(s.db, d, folder, s.server.validity, db, o)
         && s' == State(db, s.server, Some(ss.(log := ss.log + [(d, o)], queue := ss.queue[1..])),
                        s.failed + if o.Failed? then {(s.server.validity, d.uid)} else {})
    case EndSync =>
      && s.session.Some? && s.session.value.queue == []
      && var ss := s.session.value;
         var state := CursorOf(s.db, folder);
         var after := CursorAfter(state, s.server.validity, Highest(ss.lastUid, ss.log));
         s' == s.(db := if after != state then SaveCursor(s.db, folder, after.value) else s.db, session := None)
    case Crash => s' == s.(session := None)
    case Others(db) =>
      Elsewhere(folder, s.db, db) && s' == s.(db := db)
  }

  ghost predicate Run(folder: string, states: seq<State>, moves: seq<Move>) {
    && |states| == |moves| + 1
    && states[0].db == EMPTY_DB && MailboxOk(states[0].server) && states[0].session.None? && states[0].failed == {}
    && forall i :: 0 <= i < |moves| ==> Next(folder, states[i], moves[i], states[i + 1])
  }

  // ---------- the invariant ----------

  ghost predicate Accounted(s: State, uid: nat)
    requires uid in s.server.box
  {
    Recorded(s.db, s.server.box[uid]) || (s.server.validity, uid) in s.failed
  }

  ghost predicate CursorOk(folder: string, s: State) {
    var c := CursorOf(s.db, folder);
    c.Some? ==>
      && c.value.uidValidity <= s.server.validity
      && (c.value.uidValidity == s.server.validity ==>
            && c.value.lastUid < s.server.uidNext
            && forall uid :: uid in s.server.box && uid <= c.value.lastUid ==> Accounted(s, uid))
  }

  ghost predicate SessionOk(folder: string, s: State) {
    s.session.Some? ==>
      var ss := s.session.value;
      && ss.lastUid == LastUid(CursorOf(s.db, folder), s.server.validity)
      && ss.horizon <= s.server.uidNext
      && Highest(ss.lastUid, ss.log) < ss.horizon
      && (forall d :: d in ss.queue ==> d.uid < ss.horizon)
      && (forall uid :: uid in s.server.box && ss.lastUid < uid < ss.horizon ==>
              Accounted(s, uid) || s.server.box[uid] in ss.queue)
  }

  ghost predicate Inv(folder: string, s: State) {
    Schema(s.db) && MailboxOk(s.server) && CursorOk(folder, s) && SessionOk(folder, s)
  }

  /** Every UID above the cursor is in the range the sync asks for, even where `lastUID+1` wraps. */
  lemma RangeCovers(b: Mailbox, lastUid: nat, uid: nat)
    requires MailboxOk(b) && lastUid < b.uidNext && uid in b.box && lastUid < uid
    ensures InRange(b, FirstUid(lastUid), uid)
  {
    assert lastUid + 1 < UID_LIMIT;
  }

  /** Of the messages at or below the cursor only the folder's last is asked for again. */
  lemma PassedIsNotFetched(b: Mailbox, lastUid: nat, uid: nat)
    requires MailboxOk(b) && lastUid + 1 < UID_LIMIT && uid in b.box
    ensures InRange(b, FirstUid(lastUid), uid) <==> lastUid < uid || Top(b, uid)
  {
  }

  lemma {:induction false} InDeliveries(items: seq<Item>, d: Delivery)
    ensures d in Deliveries(items) <==> Collected(d) in items && d.uid != 0
  {
    if items != [] {
      var init, item := items[..|items| - 1], items[|items| - 1];
      InDeliveries(init, d);
      assert items == init + [item];
    }
  }

  lemma BeginKeeps(folder: string, s: State, items: seq<Item>, s': State)
    requires Inv(folder, s) && Next(folder, s, BeginSync(items), s')
    ensures Inv(folder, s')
  {
    var ss := s'.session.value;
    forall uid | uid in s'.server.box && ss.lastUid < uid < ss.horizon
      ensures s'.server.box[uid] in ss.queue
    {
      RangeCovers(s.server, ss.lastUid, uid);
      InDeliveries(items, s.server.box[uid]);
    }
    forall d | d in ss.queue
      ensures d.uid < ss.horizon
    {
      InDeliveries(items, d);
    }
    assert forall uid :: uid in s'.server.box && Accounted(s, uid) ==> Accounted(s', uid);
  }

  /** Handling a message settles it, and unsettles none. */
  lemma HandleSettles(folder: string, s: State, db: MailDb, o: Outcome, s': State, uid: nat)
    requires Schema(s.db) && Next(folder, s, HandleNext(db, o), s') && MailboxOk(s.server) && uid in s.server.box
    requires Accounted(s, uid) || s.server.box[uid] == s.session.value.queue[0]
    ensures Accounted(s', uid)
  {
    HandlingAmidIsOk(s.db, s.session.value.queue[0], folder, s.server.validity, db, o);
    if Recorded(s.db, s.server.box[uid]) {
      RecordedGrows(s.db, db, s.server.box[uid]);
    }
  }

  lemma HandleKeepsCursor(folder: string, s: State, db: MailDb, o: Outcome, s': State)
    requires Schema(s.db) && MailboxOk(s.server) && CursorOk(folder, s) && Next(folder, s, HandleNext(db, o), s')
    ensures Schema(s'.db) && CursorOk(folder, s')
  {
    HandlingAmidIsOk(s.db, s.session.value.queue[0], folder, s.server.validity, db, o);
    forall uid | uid in s.server.box && Accounted(s, uid)
      ensures Accounted(s', uid)
    {
      HandleSettles(folder, s, db, o, s', uid);
    }
  }

  lemma QueueHeadAndRest(queue: seq<Delivery>, d: Delivery)
    requires queue != []
    ensures d in queue <==> d == queue[0] || d in queue[1..]
  {
    assert queue == [queue[0]] + queue[1..];
  }

  lemma HighestAfter(lastUid: nat, log: Log, d: Delivery, o: Outcome, bound: nat)
    requires Highest(lastUid, log) < bound && d.uid < bound
    ensures Highest(lastUid, log + [(d, o)]) < bound
  {
    assert (log + [(d, o)])[..|log|] == log;
  }

  lemma HandleKeepsQueue(folder: string, s: State, db: MailDb, o: Outcome, s': State, uid: nat)
    requires Schema(s.db) && MailboxOk(s.server) && SessionOk(folder, s) && Next(folder, s, HandleNext(db, o), s')
    requires uid in s.server.box && s.session.value.lastUid < uid < s.session.value.horizon
    ensures Accounted(s', uid) || s.server.box[uid] in s'.session.value.queue
  {
    QueueHeadAndRest(s.session.value.queue, s.server.box[uid]);
    if Accounted(s, uid) || s.server.box[uid] == s.session.value.queue[0] {
      HandleSettles(folder, s, db, o, s', uid);
    }
  }

  lemma HandleKeepsSession(folder: string, s: State, db: MailDb, o: Outcome, s': State)
    requires Schema(s.db) && MailboxOk(s.server) && SessionOk(folder, s) && Next(folder, s, HandleNext(db, o), s')
    ensures SessionOk(folder, s')
  {
    hide Schema, Grows, Recorded, Accounted, Highest, HandlesAmid;
    var ss, ss' := s.session.value, s'.session.value;
    HandlingAmidIsOk(s.db, ss.queue[0], folder, s.server.validity, db, o);
    HighestAfter(ss.lastUid, ss.log, ss.queue[0], o, ss.horizon);
    forall d | d in ss'.queue
      ensures d.uid < ss.horizon
    {
      QueueHeadAndRest(ss.queue, d);
    }
    forall uid | uid in s.server.box && ss.lastUid < uid < ss.horizon
      ensures Accounted(s', uid) || s.server.box[uid] in ss'.queue
    {
      HandleKeepsQueue(folder, s, db, o, s', uid);
    }
  }

  lemma HandleKeeps(folder: string, s: State, db: MailDb, o: Outcome, s': State)
    requires Inv(folder, s) && Next(folder, s, HandleNext(db, o), s')
    ensures Inv(folder, s')
  {
    HandleKeepsCursor(folder, s, db, o, s');
    HandleKeepsSession(folder, s, db, o, s');
  }

  lemma EndKeeps(folder: string, s: State, s': State)
    requires Inv(folder, s) && Next(folder, s, EndSync, s')
    ensures Inv(folder, s')
  {
    var ss := s.session.value;
    forall uid | uid in s.server.box && uid < ss.horizon
      ensures Accounted(s', uid)
    {
      assert Accounted(s, uid);
      if Recorded(s.db, s.server.box[uid]) {
        assert Grows(s.db, s'.db);
        RecordedGrows(s.db, s'.db, s.server.box[uid]);
      }
    }
  }

  lemma ServerMoveKeeps(folder: string, s: State, move: Move, s': State)
    requires Inv(folder, s) && Next(folder, s, move, s')
    requires move.Append? || move.Expunge? || move.Renumber? || move.Crash?
    ensures Inv(folder, s')
  {
    if !move.Renumber? {
      forall uid | uid in s.server.box && uid in s'.server.box
        ensures Accounted(s, uid) <==> Accounted(s', uid)
      {
        assert uid < s.server.uidNext;
      }
    }
  }

  lemma OthersKeep(folder: string, s: State, db: MailDb, s': State)
    requires Inv(folder, s) && Next(folder, s, Others(db), s')
    ensures Inv(folder, s')
  {
    forall uid | uid in s.server.box && Accounted(s, uid)
      ensures Accounted(s', uid)
    {
      if Recorded(s.db, s.server.box[uid]) {
        RecordedGrows(s.db, db, s.server.box[uid]);
      }
    }
  }

  lemma NextKeepsInv(folder: string, s: State, move: Move, s': State)
    requires Inv(folder, s) && Next(folder, s, move, s')
    ensures Inv(folder, s')
  {
    match move
    case BeginSync(items) => BeginKeeps(folder, s, items, s');
    case HandleNext(db, o) => HandleKeeps(folder, s, db, o, s');
    case EndSync => EndKeeps(folder, s, s');
    case Others(db) => OthersKeep(folder, s, db, s');
    case _ => ServerMoveKeeps(folder, s, move, s');
  }

  lemma {:induction false} RunKeepsInv(folder: string, states: seq<State>, moves: seq<Move>, n: nat)
    requires Run(folder, states, moves) && n <= |moves|
    ensures Inv(folder, states[n])
  {
    if n > 0 {
      RunKeepsInv(folder, states, moves, n - 1);
      NextKeepsInv(folder, states[n - 1], moves[n - 1], states[n]);
    }
  }

  // ---------- the theorems ----------

  /**
   Nothing is skipped. Whenever the stored cursor is under the server's UIDVALIDITY, every message of
   the folder at or below it has a row, except those whose handling failed; and no Message-ID has two rows.
   */
  lemma CursorSkipsOnlyFailures(folder: string, states: seq<State>, moves: seq<Move>, n: nat, uid: nat)
    requires Run(folder, states, moves) && n <= |moves|
    requires var c := CursorOf(states[n].db, folder);
      c.Some? && c.value.uidValidity == states[n].server.validity
      && uid in states[n].server.box && uid <= c.value.lastUid
    ensures Recorded(states[n].db, states[n].server.box[uid]) || (states[n].server.validity, uid) in states[n].failed
    ensures MessageKeys(states[n].db)
  {
    RunKeepsInv(folder, states, moves, n);
    assert Accounted(states[n], uid);
  }

  ghost predicate CursorNotAfter(a: Option<Cursor>, b: Option<Cursor>) {
    a.Some? ==>
      && b.Some?
      && a.value.uidValidity <= b.value.uidValidity
      && (a.value.uidValidity == b.value.uidValidity ==> a.value.lastUid <= b.value.lastUid)
  }

  lemma StepNeverLowers(folder: string, s: State, move: Move, s': State)
    requires Inv(folder, s) && Next(folder, s, move, s')
    ensures CursorNotAfter(CursorOf(s.db, folder), CursorOf(s'.db, folder))
  {
    if move.HandleNext? {
      HandlingAmidIsOk(s.db, s.session.value.queue[0], folder, s.server.validity, move.db, move.o);
    }
  }

  /** The stored UID never falls while the stored UIDVALIDITY stays, whatever crashes and resets come between. */
  lemma {:induction false} CursorNeverFalls(folder: string, states: seq<State>, moves: seq<Move>, i: nat, j: nat)
    requires Run(folder, states, moves) && i <= j <= |moves|
    ensures CursorNotAfter(CursorOf(states[i].db, folder), CursorOf(states[j].db, folder))
    decreases j
  {
    if i < j {
      CursorNeverFalls(folder, states, moves, i, j - 1);
      RunKeepsInv(folder, states, moves, j - 1);
      assert Next(folder, states[j - 1], moves[j - 1], states[j - 1 + 1]);
      StepNeverLowers(folder, states[j - 1], moves[j - 1], states[j]);
    }
  }

  // ---------- the indexer is such a run ----------

  lemma NoRowAdded(ready: MailDb, job: Job, t: nat)
    requires t in ready.threads && HasMessage(ready, job.p.messageId)
    ensures WithTouch(ready, job, t).messages.Keys == ready.messages.Keys
  {
    assert WithRow(ready, job, t).messages == ready.messages;
  }

  lemma SettledKeepsMessages(db: MailDb, job: Job, ready: MailDb)
    requires Settled(db, job, ready)
    ensures ready.messages == db.messages
    ensures HasMessage(db, job.p.messageId) ==> HasMessage(ready, job.p.messageId)
  {
  }

  lemma EndedAddsNoRow(db: MailDb, job: Job, db': MailDb, o: Outcome)
    requires HasMessage(db, job.p.messageId) && Ended(db, job, db', o)
    ensures db'.messages.Keys == db.messages.Keys
  {
    var ready, t :| Took(db, job, t, ready, db');
    SettledKeepsMessages(db, job, ready);
    NoRowAdded(ready, job, t);
  }

  /** Redelivery of a stored message, from whatever folder and under whatever UID, adds no row. */
  lemma RedeliveryAddsNoRow(db: MailDb, d: Delivery, folder: string, uidValidity: nat, db': MailDb, o: Outcome)
    requires Schema(db) && d.parsed.Some? && HasMessage(db, d.parsed.value.messageId)
    requires Handles(db, d, folder, uidValidity, db', o)
    ensures db'.messages.Keys == db.messages.Keys
  {
    HandlingEnds(db, d, folder, uidValidity, db', o);
    if db' != db {
      var job :| Fresh(db, d, folder, uidValidity, job) && Ended(db, job, db', o);
      EndedAddsNoRow(db, job, db', o);
    }
  }

  /** The state of a sync from s after its first k deliveries. */
  ghost function SyncAt(folder: string, s: State, items: seq<Item>, dbs: seq<MailDb>, log: Log, k: nat): State
    requires k <= |log| && |dbs| == |log| + 1 && DeliveriesOf(log) <= Deliveries(items)
  {
    State(dbs[k], s.server,
          Some(Session(LastUid(CursorOf(s.db, folder), s.server.validity), log[..k], Deliveries(items)[k..],
              s.server.uidNext)),
          s.failed + FailedIn(s.server.validity, log[..k]))
  }

  ghost function FailedIn(validity: nat, log: Log): set<(nat, nat)> {
    if log == [] then {} else
      FailedIn(validity, log[..|log| - 1])
      + if log[|log| - 1].1.Failed? then {(validity, log[|log| - 1].0.uid)} else {}
  }

  lemma {:induction false} TurnsKeepSchema(folder: string, uidValidity: nat, dbs: seq<MailDb>, log: Log, k: nat)
    requires HandledInTurn(dbs, log, folder, uidValidity) && Schema(dbs[0]) && k <= |log|
    ensures Schema(dbs[k]) && CursorOf(dbs[k], folder) == CursorOf(dbs[0], folder)
  {
    if k > 0 {
      TurnsKeepSchema(folder, uidValidity, dbs, log, k - 1);
      AloneIsAmid(dbs[k - 1], log[k - 1].0, folder, uidValidity, dbs[k], log[k - 1].1);
      HandlingAmidIsOk(dbs[k - 1], log[k - 1].0, folder, uidValidity, dbs[k], log[k - 1].1);
    }
  }

  lemma SyncHandles(folder: string, s: State, items: seq<Item>, dbs: seq<MailDb>, log: Log, k: nat)
    requires Schema(s.db) && HandledInTurn(dbs, log, folder, s.server.validity)
    requires dbs[0] == s.db && DeliveriesOf(log) <= Deliveries(items) && k < |log|
    ensures Next(folder, SyncAt(folder, s, items, dbs, log, k), HandleNext(dbs[k + 1], log[k].1),
        SyncAt(folder, s, items, dbs, log, k + 1))
  {
    var queue := Deliveries(items)[k..];
    assert queue[0] == DeliveriesOf(log)[k] == log[k].0;
    assert queue[1..] == Deliveries(items)[k + 1..];
    assert log[..k + 1] == log[..k] + [(log[k].0, log[k].1)];
    assert log[..k + 1][..k] == log[..k];
    AloneIsAmid(dbs[k], log[k].0, folder, s.server.validity, dbs[k + 1], log[k].1);
  }

  /**
   Indexer.Sync is a run of this machine: it begins, handles its log one delivery a step, and, when it
   returns success, ends with exactly the cursor that EndSync stores.
   */
  lemma SyncIsRun(folder: string, s: State, items: seq<Item>, dbs: seq<MailDb>, log: Log)
    requires Schema(s.db) && s.session.None?
    requires Answers(s.server, FirstUid(LastUid(CursorOf(s.db, folder), s.server.validity)), items)
    requires HandledInTurn(dbs, log, folder, s.server.validity) && dbs[0] == s.db
    requires DeliveriesOf(log) <= Deliveries(items)
    ensures Next(folder, s, BeginSync(items), SyncAt(folder, s, items, dbs, log, 0))
    ensures forall k :: 0 <= k < |log| ==>
      Next(folder, SyncAt(folder, s, items, dbs, log, k), HandleNext(dbs[k + 1], log[k].1),
          SyncAt(folder, s, items, dbs, log, k + 1))
    ensures DeliveriesOf(log) == Deliveries(items) ==>
      var state := CursorOf(s.db, folder);
      var after := CursorAfter(state, s.server.validity, Highest(LastUid(state, s.server.validity), log));
      var end := SyncAt(folder, s, items, dbs, log, |log|);
      Next(folder, end, EndSync,
           end.(db := if after != state then SaveCursor(dbs[|log|], folder, after.value) else dbs[|log|],
               session := None))
  {
    assert log[..0] == [];
    forall k | 0 <= k < |log|
      ensures Next(folder, SyncAt(folder, s, items, dbs, log, k), HandleNext(dbs[k + 1], log[k].1),
          SyncAt(folder, s, items, dbs, log, k + 1))
    {
      SyncHandles(folder, s, items, dbs, log, k);
    }
    TurnsKeepSchema(folder, s.server.validity, dbs, log, |log|);
    assert log[..|log|] == log;
  }

  // ---------- what failures cost ----------

  /**
   A message at or below the cursor, whether it was indexed or failed, is queued by a later sync if and only
   if it is the folder's last by then.
   */
  lemma PassedIsQueuedIffLast(folder: string, states: seq<State>, moves: seq<Move>, n: nat, uid: nat)
    requires Run(folder, states, moves) && n < |moves| && moves[n].BeginSync?
    requires var c := CursorOf(states[n].db, folder);
      c.Some? && c.value.uidValidity == states[n].server.validity
      && uid in states[n].server.box && uid <= c.value.lastUid
    ensures states[n + 1].session.Some? && states[n + 1].server == states[n].server
    ensures states[n].server.box[uid] in states[n + 1].session.value.queue <==> Top(states[n].server, uid)
  {
    RunKeepsInv(folder, states, moves, n);
    assert Next(folder, states[n], moves[n], states[n + 1]);
    InDeliveries(moves[n].items, states[n].server.box[uid]);
  }

  /** Some message of the log at or above uid was indexed. */
  ghost predicate IndexedFrom(log: Log, uid: nat) {
    exists i :: 0 <= i < |log| && log[i].1 == Indexed && uid <= log[i].0.uid
  }

  lemma {:induction false} HighestReaches(lastUid: nat, log: Log, uid: nat)
    ensures uid <= Highest(lastUid, log) <==> uid <= lastUid || IndexedFrom(log, uid)
  {
    if log != [] {
      var n := |log| - 1;
      var init := log[..n];
      HighestReaches(lastUid, init, uid);
      if IndexedFrom(init, uid) {
        var i :| 0 <= i < n && init[i].1 == Indexed && uid <= init[i].0.uid;
        assert log[i] == init[i];
      }
      if IndexedFrom(log, uid) && !(log[n].1 == Indexed && uid <= log[n].0.uid) {
        var i :| 0 <= i < |log| && log[i].1 == Indexed && uid <= log[i].0.uid;
        assert init[i] == log[i];
      }
    }
  }

  /**
   When a UID is passed, whatever became of its own message: the cursor that a sync stores at its end is at or
   beyond it if and only if the cursor already was, or the sync indexed a message with this UID or a larger one.
   */
  lemma PassedIffLaterIndexed(folder: string, states: seq<State>, moves: seq<Move>, n: nat, uid: nat)
    requires Run(folder, states, moves) && n < |moves| && moves[n].EndSync?
    ensures states[n].session.Some?
    ensures var c := CursorOf(states[n + 1].db, folder);
            && c.Some? && c.value.uidValidity == states[n].server.validity
            && (uid <= c.value.lastUid <==>
                  || uid <= LastUid(CursorOf(states[n].db, folder), states[n].server.validity)
                  || IndexedFrom(states[n].session.value.log, uid))
  {
    RunKeepsInv(folder, states, moves, n);
    assert Next(folder, states[n], moves[n], states[n + 1]);
    var ss := states[n].session.value;
    HighestReaches(ss.lastUid, ss.log, uid);
  }

  const BAD_MAIL := Delivery(true, "a@x", None, 1)
  const GOOD_MAIL := Delivery(false, "", Some(Parsed("b@x", "", "", "", "", 0)), 2)

  /** The tables with one thread, and then with its first message. */
  function FirstThread(job: Job): MailDb {
    EMPTY_DB.(threads := map[1 := Thread(job.root, job.p.subject, None, job.p.date, job.p.date)], threadSeq := 1)
  }

  function FirstMessage(job: Job): MailDb {
    FirstThread(job).(messages := map[1 := job.Row(1, None)], messageSeq := 1)
  }

  lemma FirstLookups(job: Job)
    ensures Step(EMPTY_DB, FindRoot(job), EMPTY_DB, FindMember(job))
    ensures Step(EMPTY_DB, FindMember(job), EMPTY_DB, Create(job))
    ensures Step(EMPTY_DB, Create(job), FirstThread(job), LookupSender(job, 1))
  {
    assert forall t :: !RootMatch(EMPTY_DB, job.cands, t) && !MemberMatch(EMPTY_DB, job.cands, t);
    assert !RootTaken(EMPTY_DB, job.root);
  }

  lemma FirstInsert(job: Job)
    requires job.p.from == ""
    ensures Step(FirstThread(job), LookupSender(job, 1), FirstThread(job), InheritThread(job, 1))
    ensures Step(FirstThread(job), InheritThread(job, 1), FirstThread(job), Insert(job, 1, None, false))
    ensures Step(FirstThread(job), Insert(job, 1, None, false), FirstMessage(job), Touch(job, 1))
  {
    assert !HasMessage(FirstThread(job), job.p.messageId) && !SlotTaken(FirstThread(job), job.Row(1, None));
  }

  /** In empty tables a message without a sender is indexed, under a thread of its own. */
  lemma FirstJob(job: Job) returns (trace: seq<(MailDb, Pc)>, db: MailDb)
    requires job.p.from == ""
    ensures RunsAlone(trace) && trace[0] == (EMPTY_DB, FindRoot(job)) && Last(trace) == (db, Done(Indexed))
    ensures forall m :: m in db.messages ==> db.messages[m].messageId == job.p.messageId
  {
    FirstLookups(job);
    FirstInsert(job);
    db := TouchThread(FirstMessage(job), 1, job.p.date);
    assert Step(FirstMessage(job), Touch(job, 1), db, Done(Indexed));
    hide Step, FirstThread;
    trace := Then([(EMPTY_DB, FindRoot(job))], EMPTY_DB, FindMember(job));
    trace := Then(trace, EMPTY_DB, Create(job));
    trace := Then(trace, FirstThread(job), LookupSender(job, 1));
    trace := Then(trace, FirstThread(job), InheritThread(job, 1));
    trace := Then(trace, FirstThread(job), Insert(job, 1, None, false));
    trace := Then(trace, FirstMessage(job), Touch(job, 1));
    trace := Then(trace, db, Done(Indexed));
  }

  lemma FirstMailIsIndexed(folder: string, uidValidity: nat) returns (db: MailDb)
    ensures HandlesAmid(EMPTY_DB, GOOD_MAIL, folder, uidValidity, db, Indexed)
    ensures forall m :: m in db.messages ==> db.messages[m].messageId == "b@x"
  {
    hide JobFor, Step;
    var trace;
    trace, db := FirstJobOf(GOOD_MAIL.parsed.value, folder, GOOD_MAIL.uid, uidValidity);
    assert Handles(EMPTY_DB, GOOD_MAIL, folder, uidValidity, db, Indexed);
    AloneIsAmid(EMPTY_DB, GOOD_MAIL, folder, uidValidity, db, Indexed);
  }

  lemma FirstJobOf(p: Parsed, folder: string, uid: nat, uidValidity: nat) returns (trace: seq<(MailDb, Pc)>, db: MailDb)
    requires p.from == ""
    ensures RunsAlone(trace) && trace[0] == (EMPTY_DB, FindRoot(JobFor(p, folder, uid, uidValidity)))
    ensures Last(trace) == (db, Done(Indexed))
    ensures forall m :: m in db.messages ==> db.messages[m].messageId == p.messageId
  {
    trace, db := FirstJob(JobFor(p, folder, uid, uidValidity));
  }

  lemma BadMailFails(db: MailDb, folder: string, uidValidity: nat)
    ensures HandlesAmid(db, BAD_MAIL, folder, uidValidity, db, Failed(EmptyBody))
  {
    assert RunsAmid(folder, [(db, Begin(BAD_MAIL, folder, uidValidity))]);
  }

  /** The states of the sync that loses the message. */
  function LosingStates(folder: string, server: Mailbox, db: MailDb): (s: seq<State>)
    ensures |s| == 4
  {
    var one, two := (BAD_MAIL, Failed(EmptyBody)), (GOOD_MAIL, Indexed);
    [State(EMPTY_DB, server, Some(Session(0, [], [BAD_MAIL, GOOD_MAIL], 3)), {}),
     State(EMPTY_DB, server, Some(Session(0, [one], [GOOD_MAIL], 3)), {(7, 1)}),
     State(db, server, Some(Session(0, [one, two], [], 3)), {(7, 1)}),
     State(SaveCursor(db, folder, Cursor(7, 2)), server, None, {(7, 1)})]
  }

  lemma LosingBegins(folder: string, server: Mailbox, db: MailDb)
    requires server == Mailbox(7, 3, map[1 := BAD_MAIL, 2 := GOOD_MAIL])
    ensures Next(folder, State(EMPTY_DB, server, None, {}), BeginSync([Collected(BAD_MAIL), Collected(GOOD_MAIL)]),
        LosingStates(folder, server, db)[0])
  {
    QueueOfTwo();
  }

  lemma LosingFails(folder: string, server: Mailbox, db: MailDb)
    requires server.validity == 7
    ensures var s := LosingStates(folder, server, db); Next(folder, s[0], HandleNext(EMPTY_DB, Failed(EmptyBody)), s[1])
  {
    BadMailFails(EMPTY_DB, folder, 7);
    hide HandlesAmid;
    var s := LosingStates(folder, server, db);
    assert s[0].session.value.queue[1..] == [GOOD_MAIL];
    assert s[0].session.value.log + [(BAD_MAIL, Failed(EmptyBody))] == s[1].session.value.log;
    assert s[1].failed == {} + {(7, 1)};
  }

  lemma LosingIndexes(folder: string, server: Mailbox, db: MailDb)
    requires server.validity == 7 && HandlesAmid(EMPTY_DB, GOOD_MAIL, folder, 7, db, Indexed)
    ensures var s := LosingStates(folder, server, db); Next(folder, s[1], HandleNext(db, Indexed), s[2])
  {
    hide HandlesAmid;
    var s := LosingStates(folder, server, db);
    assert s[1].session.value.queue[1..] == [];
    assert s[1].session.value.log + [(GOOD_MAIL, Indexed)] == s[2].session.value.log;
    assert s[2].failed == s[1].failed + {};
  }

  lemma LosingEnds(folder: string, server: Mailbox, db: MailDb)
    requires server.validity == 7 && CursorOf(db, folder) == None
    ensures var s := LosingStates(folder, server, db); Next(folder, s[2], EndSync, s[3])
  {
    HighestOfTwo();
  }

  lemma RunOn(folder: string, states: seq<State>, moves: seq<Move>, move: Move, s: State)
      returns (states': seq<State>, moves': seq<Move>)
    requires Run(folder, states, moves) && |states| == |moves| + 1 && Next(folder, states[|moves|], move, s)
    ensures Run(folder, states', moves') && |states'| == |moves'| + 1 && states' == states + [s]
    ensures moves' == moves + [move]
  {
    hide Next;
    states', moves' := states + [s], moves + [move];
  }

  /** What the sync makes of empty tables. */
  lemma LosingTables(folder: string) returns (db: MailDb)
    ensures HandlesAmid(EMPTY_DB, GOOD_MAIL, folder, 7, db, Indexed) && CursorOf(db, folder) == None
    ensures forall m :: m in db.messages ==> db.messages[m].messageId == "b@x"
  {
    db := FirstMailIsIndexed(folder, 7);
    HandlingAmidIsOk(EMPTY_DB, GOOD_MAIL, folder, 7, db, Indexed);
  }

  lemma LosingLoses(folder: string, server: Mailbox, db: MailDb)
    requires server == Mailbox(7, 3, map[1 := BAD_MAIL, 2 := GOOD_MAIL])
    requires forall m :: m in db.messages ==> db.messages[m].messageId == "b@x"
    ensures var s := LosingStates(folder, server, db)[3];
            && s.session.None? && s.server == server && CursorOf(s.db, folder) == Some(Cursor(server.validity, 2))
            && 1 in server.box && !Recorded(s.db, server.box[1]) && !Top(server, 1)
  {
    assert "a@x"[0] != "b@x"[0];
    assert 2 in server.box;
  }

  lemma TwoArrive(folder: string, server: Mailbox) returns (states: seq<State>, moves: seq<Move>)
    requires server == Mailbox(7, 3, map[1 := BAD_MAIL, 2 := GOOD_MAIL])
    ensures Run(folder, states, moves) && |states| == |moves| + 1
    ensures states[|moves|] == State(EMPTY_DB, server, None, {})
  {
    states, moves := [State(EMPTY_DB, Mailbox(7, 1, map[]), None, {})], [];
    states, moves := RunOn(folder, states, moves, Append(BAD_MAIL),
        State(EMPTY_DB, Mailbox(7, 2, map[1 := BAD_MAIL]), None, {}));
    states, moves := RunOn(folder, states, moves, Append(GOOD_MAIL), State(EMPTY_DB, server, None, {}));
  }

  /**
   A run in which a message is lost: UID 1 fails, UID 2 of the same sync is indexed, and the cursor passes
   both. The message of UID 1 has no row, and is not the folder's last, so no sync asks for it again while
   one with a larger UID is there.
   */
  lemma FailedMessageIsPassed(folder: string) returns (states: seq<State>, moves: seq<Move>)
    ensures Run(folder, states, moves)
    ensures var s := states[|moves|];
            && s.session.None? && CursorOf(s.db, folder) == Some(Cursor(s.server.validity, 2))
            && 1 in s.server.box && !Recorded(s.db, s.server.box[1]) && !Top(s.server, 1)
  {
    var server := Mailbox(7, 3, map[1 := BAD_MAIL, 2 := GOOD_MAIL]);
    hide *;
    var db := LosingTables(folder);
    var s := LosingStates(folder, server, db);
    LosingBegins(folder, server, db);
    LosingFails(folder, server, db);
    LosingIndexes(folder, server, db);
    LosingEnds(folder, server, db);
    LosingLoses(folder, server, db);
    states, moves := TwoArrive(folder, server);
    states, moves := RunOn(folder, states, moves, BeginSync([Collected(BAD_MAIL), Collected(GOOD_MAIL)]), s[0]);
    states, moves := RunOn(folder, states, moves, HandleNext(EMPTY_DB, Failed(EmptyBody)), s[1]);
    states, moves := RunOn(folder, states, moves, HandleNext(db, Indexed), s[2]);
    states, moves := RunOn(folder, states, moves, EndSync, s[3]);
  }

  lemma QueueOfTwo()
    ensures Deliveries([Collected(BAD_MAIL), Collected(GOOD_MAIL)]) == [BAD_MAIL, GOOD_MAIL]
  {
    var items := [Collected(BAD_MAIL), Collected(GOOD_MAIL)];
    assert items[..1] == [Collected(BAD_MAIL)] && items[..1][..0] == [];
    assert Deliveries(items[..1]) == [BAD_MAIL];
  }

  lemma HighestOfTwo()
    ensures Highest(0, [(BAD_MAIL, Failed(EmptyBody)), (GOOD_MAIL, Indexed)]) == 2
  {
    var log := [(BAD_MAIL, Failed(EmptyBody)), (GOOD_MAIL, Indexed)];
    assert log[..1] == [(BAD_MAIL, Failed(EmptyBody))] && log[..1][..0] == [];
    assert Highest(0, log[..1]) == 0;
  }
}
