/**
 What a message does to the tables, in terms of its headers and the rows alone: the thread it goes to, the
 row that is stored, and what becomes of the thread and of the messages already in it.
 */
module Placement {
  import opened Wrappers
  import opened Text
  import opened Parse
  import opened MailTables
  import opened Ingest
  import opened HandledMail
  import opened Attribution

  // ---------- the thread ----------

  /** The message refers to this id, or replies to it, or it is its own. */
  predicate Names(p: Parsed, id: string) {
    id != "" && (id in Ids(p.references) || id in Ids(p.inReplyTo) || id == TrimId(p.messageId))
  }

  predicate NamesRoot(db: MailDb, p: Parsed, t: nat) {
    t in db.threads && Names(p, db.threads[t].root)
  }

  predicate NamesMember(db: MailDb, p: Parsed, t: nat) {
    exists m :: m in db.messages && db.messages[m].thread == t && Names(p, db.messages[m].messageId)
  }

  function Root(p: Parsed): string {
    RootFor(p.messageId, p.inReplyTo, p.references)
  }

  /**
   The thread of a message: one whose root the message names, if there is any; else one of a message that it
   names, if there is any; else the one of its own root, which is opened if there is none.
   */
  ghost predicate GoesTo(db: MailDb, p: Parsed, t: nat) {
    if exists u :: NamesRoot(db, p, u) then NamesRoot(db, p, t)
    else if exists u :: NamesMember(db, p, u) then NamesMember(db, p, t)
    else if RootTaken(db, Root(p)) then t in db.threads && db.threads[t].root == Root(p)
    else t == db.threadSeq + 1
  }

  lemma CandidatesAreNamed(p: Parsed, id: string)
    ensures id in Candidates(p.messageId, p.inReplyTo, p.references) <==> Names(p, id)
  {
    CandidateMembers(p.messageId, p.inReplyTo, p.references, id);
    assert p.messageId == "" ==> TrimId(p.messageId) == "";
  }

  lemma NamedIsMatched(db: MailDb, p: Parsed, t: nat)
    ensures RootMatch(db, Candidates(p.messageId, p.inReplyTo, p.references), t) <==> NamesRoot(db, p, t)
    ensures MemberMatch(db, Candidates(p.messageId, p.inReplyTo, p.references), t) <==> NamesMember(db, p, t)
  {
    forall id
      ensures id in Candidates(p.messageId, p.inReplyTo, p.references) <==> Names(p, id)
    {
      CandidatesAreNamed(p, id);
    }
  }

  /** The thread as the handling finds it, or as it opens it. */
  function Found(db: MailDb, p: Parsed, t: nat): Thread {
    if t in db.threads then db.threads[t] else Thread(Root(p), p.subject, None, p.date, p.date)
  }

  lemma CreatedThreads(db: MailDb, p: Parsed, t: nat)
    requires ThreadKeys(db)
    requires var ready := CreateThread(db, Root(p), p.subject, p.date).0;
             t in ready.threads && ready.threads[t].root == Root(p)
    ensures var ready := CreateThread(db, Root(p), p.subject, p.date).0;
            ready.threads == db.threads[t := Found(db, p, t)]
    ensures if RootTaken(db, Root(p)) then t in db.threads && db.threads[t].root == Root(p) else t == db.threadSeq + 1
  {
    hide RootFor;
    if RootTaken(db, Root(p)) {
      assert db.threads[t := db.threads[t]] == db.threads;
    }
  }

  ghost predicate JobOf(job: Job) {
    job.cands == Candidates(job.p.messageId, job.p.inReplyTo, job.p.references) && job.root == Root(job.p)
  }

  lemma ChosenGoesTo(db: MailDb, job: Job, ready: MailDb, t: nat)
    requires ThreadKeys(db) && Chosen(db, job, ready, t) && t in ready.threads && JobOf(job)
    ensures GoesTo(db, job.p, t)
    ensures ready.threads == db.threads[t := Found(db, job.p, t)]
  {
    forall u
      ensures RootMatch(db, job.cands, u) <==> NamesRoot(db, job.p, u)
      ensures MemberMatch(db, job.cands, u) <==> NamesMember(db, job.p, u)
    {
      NamedIsMatched(db, job.p, u);
    }
    hide RootMatch, MemberMatch, NamesRoot, NamesMember, Candidates, RootFor, ThreadKeys, CreateThread, Root;
    if ready == db {
      assert db.threads[t := db.threads[t]] == db.threads;
    } else {
      CreatedThreads(db, job.p, t);
    }
  }

  // ---------- the rows ----------

  function Later(a: int, b: int): int {
    if a < b then b else a
  }

  /** The grantee that the sender's address is authorized for. */
  function Sender(db: MailDb, p: Parsed): Option<string> {
    if p.from == "" then None else LookupGrantee(db, p.from)
  }

  function First(a: Option<string>, b: Option<string>): Option<string> {
    if a.Some? then a else b
  }

  /** Its thread was seen by the message's date, and is the sender's grantee's if it was nobody's. */
  predicate ThreadUpdated(db: MailDb, p: Parsed, t: nat, db': MailDb) {
    var found := Found(db, p, t);
    db'.threads == db.threads[t := found.(
        grantee := First(found.grantee, Sender(db, p)), lastSeen := Later(found.lastSeen, p.date))]
  }

  /** Messages already there stay as they are, but that those of the thread go along with its promotion. */
  predicate RowsKept(db: MailDb, p: Parsed, t: nat, db': MailDb) {
    forall m :: m in db.messages ==>
      var row := db.messages[m];
      && m in db'.messages
      && db'.messages[m] == row.(grantee := if row.thread == t then First(row.grantee, Sender(db, p)) else row.grantee)
  }

  /** A new message has one row, as delivered, under the sender's grantee or else the thread's. */
  predicate RowStored(db: MailDb, d: Delivery, folder: string, uidValidity: nat, p: Parsed, t: nat, db': MailDb) {
    var m := db.messageSeq + 1;
    if HasMessage(db, p.messageId) then db'.messages.Keys == db.messages.Keys
    else
      && db'.messages.Keys == db.messages.Keys + {m}
      && db'.messages[m] == Message(p.messageId, t, First(Sender(db, p), Found(db, p, t).grantee),
             folder, d.uid, uidValidity, p.from, p.date)
  }

  predicate NothingElse(db: MailDb, db': MailDb) {
    db'.grantees == db.grantees && db'.emails == db.emails && db'.cursors == db.cursors
  }

  lemma InsertedRows(db: MailDb, job: Job, t: nat)
    requires t in db.threads && Accepted(db, job, t)
    ensures var after := WithRow(db, job, t);
            && after.threads == db.threads && NothingElse(db, after)
            && after.messages == if HasMessage(db, job.p.messageId) then db.messages
                                 else db.messages[db.messageSeq + 1 := job.Row(t, GranteeFor(db, job, t))]
  {
  }

  lemma ThreadPart(db: MailDb, job: Job, t: nat)
    requires t in db.threads && Accepted(db, job, t)
    ensures ThreadUpdated(db, job.p, t, WithTouch(db, job, t)) && NothingElse(db, WithTouch(db, job, t))
  {
    InsertedRows(db, job, t);
    hide WithRow, Accepted, LookupGrantee, RootFor;
    var found, after := db.threads[t], WithTouch(db, job, t);
    assert Sender(db, job.p) == SenderGrantee(db, job);
    assert after.threads == db.threads[t := found.(
        grantee := First(found.grantee, Sender(db, job.p)), lastSeen := Later(found.lastSeen, job.p.date))];
  }

  lemma KeptPart(db: MailDb, job: Job, t: nat)
    requires MessageKeys(db) && t in db.threads && Accepted(db, job, t)
    ensures RowsKept(db, job.p, t, WithTouch(db, job, t))
  {
    InsertedRows(db, job, t);
    assert db.messageSeq + 1 !in db.messages;
    hide WithRow, Accepted, LookupGrantee, RootFor, MessageKeys, HasMessage, GranteeFor;
    assert Sender(db, job.p) == SenderGrantee(db, job);
    assert WithTouch(db, job, t).messages == WithPromotion(db, job, t).messages;
  }

  lemma StoredPart(db: MailDb, d: Delivery, job: Job, t: nat)
    requires MessageKeys(db) && t in db.threads && Accepted(db, job, t) && d.uid == job.uid
    ensures RowStored(db, d, job.folder, job.uidValidity, job.p, t, WithTouch(db, job, t))
  {
    InsertedRows(db, job, t);
    assert db.messageSeq + 1 !in db.messages;
    hide WithRow, Accepted, LookupGrantee, RootFor, MessageKeys, HasMessage;
    assert Sender(db, job.p) == SenderGrantee(db, job);
    assert WithTouch(db, job, t).messages == WithPromotion(db, job, t).messages;
  }

  // ---------- a whole handling ----------

  /** The tables after a message was taken into thread t. */
  ghost predicate Updated(db: MailDb, d: Delivery, folder: string, uidValidity: nat, p: Parsed, t: nat, db': MailDb) {
    && ThreadUpdated(db, p, t, db') && RowsKept(db, p, t, db')
    && RowStored(db, d, folder, uidValidity, p, t, db') && NothingElse(db, db')
  }

  /** Opening the thread changes nothing of what is said about the message. */
  lemma OpenedOrNot(db: MailDb, ready: MailDb, d: Delivery, folder: string, uidValidity: nat, p: Parsed, t: nat,
      db': MailDb)
    requires ready == db.(threads := ready.threads, threadSeq := ready.threadSeq)
    requires ready.threads == db.threads[t := Found(db, p, t)] && Updated(ready, d, folder, uidValidity, p, t, db')
    ensures Updated(db, d, folder, uidValidity, p, t, db')
  {
    hide RootFor, Lower;
    assert Sender(ready, p) == Sender(db, p) && Found(ready, p, t) == Found(db, p, t);
    assert HasMessage(ready, p.messageId) == HasMessage(db, p.messageId);
  }

  lemma SettledFrame(db: MailDb, job: Job, ready: MailDb)
    requires MessageKeys(db) && Settled(db, job, ready)
    ensures ready == db.(threads := ready.threads, threadSeq := ready.threadSeq) && MessageKeys(ready)
  {
    hide Unplaced, RootTaken;
  }

  lemma TookUpdates(db: MailDb, d: Delivery, folder: string, uidValidity: nat, job: Job, t: nat, ready: MailDb,
      db': MailDb)
    requires Schema(db) && Took(db, job, t, ready, db') && job == JobFor(job.p, folder, d.uid, uidValidity)
    ensures GoesTo(db, job.p, t) && Updated(db, d, folder, uidValidity, job.p, t, db')
  {
    hide ThreadKeys, MessageKeys, ForeignKeys, Settled, Chosen, GoesTo, Refused, Accepted, WithTouch;
    SettledFrame(db, job, ready);
    ChosenGoesTo(db, job, ready, t);
    ThreadPart(ready, job, t);
    KeptPart(ready, job, t);
    StoredPart(ready, d, job, t);
    hide ThreadUpdated, RowsKept, RowStored, NothingElse;
    OpenedOrNot(db, ready, d, folder, uidValidity, job.p, t, db');
  }

  /**
   Every message that is indexed, and was not known by its envelope, goes to the thread that its headers name,
   its row is stored as delivered unless its Message-ID has one, the thread is brought up to date, and nothing
   else changes: no other thread, no other row, no table but these two.
   */
  lemma HandlingStores(db: MailDb, d: Delivery, folder: string, uidValidity: nat, db': MailDb, o: Outcome)
    requires Schema(db) && Handles(db, d, folder, uidValidity, db', o) && o == Indexed && !Known(db, d)
    ensures d.parsed.Some?
    ensures exists t :: GoesTo(db, d.parsed.value, t) && Updated(db, d, folder, uidValidity, d.parsed.value, t, db')
  {
    HandlingEnds(db, d, folder, uidValidity, db', o);
    hide Handles, Schema, Known, HasMessage;
    var job :| Fresh(db, d, folder, uidValidity, job) && Ended(db, job, db', o);
    var ready, t :| Took(db, job, t, ready, db');
    hide Took;
    TookUpdates(db, d, folder, uidValidity, job, t, ready, db');
  }

  /** Another message of this folder and validity is stored under the UID. */
  predicate UidTaken(db: MailDb, folder: string, uidValidity: nat, uid: nat) {
    exists m :: m in db.messages
      && db.messages[m].folder == folder && db.messages[m].uidValidity == uidValidity && db.messages[m].uid == uid
  }

  /** A handling that nothing interrupts fails exactly for these three reasons. */
  lemma HandlingOutcome(db: MailDb, d: Delivery, folder: string, uidValidity: nat, db': MailDb, o: Outcome)
    requires Schema(db) && Handles(db, d, folder, uidValidity, db', o)
    ensures o == Failed(EmptyBody) <==> d.bodyEmpty
    ensures o == Failed(Unparsable) <==> !d.bodyEmpty && !Known(db, d) && d.parsed.None?
    ensures o == Failed(InsertRejected) <==>
            && !d.bodyEmpty && !Known(db, d) && d.parsed.Some?
            && !HasMessage(db, d.parsed.value.messageId) && UidTaken(db, folder, uidValidity, d.uid)
    ensures o == Indexed || o in {Failed(EmptyBody), Failed(Unparsable), Failed(InsertRejected)}
  {
    HandlingEnds(db, d, folder, uidValidity, db', o);
    hide Handles, Schema, Took, LeftAlone;
    if !(db' == db && Unread(db, d, o)) {
      var job :| Fresh(db, d, folder, uidValidity, job) && Ended(db, job, db', o);
      assert forall m :: m in db.messages && SameSlot(db.messages[m], job.Row(0, None)) ==>
          UidTaken(db, folder, uidValidity, d.uid);
      assert SlotTaken(db, job.Row(0, None)) <==> UidTaken(db, folder, uidValidity, d.uid);
      if o.Indexed? {
        var ready, t :| Took(db, job, t, ready, db');
        TookIsNotRefused(db, job, t, ready, db');
      }
    }
  }

  lemma TookIsNotRefused(db: MailDb, job: Job, t: nat, ready: MailDb, db': MailDb)
    requires Took(db, job, t, ready, db')
    ensures !Refused(db, job)
  {
  }

  /** The message's thread is opened, and that is all. */
  ghost predicate Opened(db: MailDb, p: Parsed, db': MailDb) {
    var t := db.threadSeq + 1;
    t !in db.threads && GoesTo(db, p, t) && db'.threads == db.threads[t := Found(db, p, t)]
  }

  lemma NewThreadIsChosen(db: MailDb, job: Job, ready: MailDb)
    requires Settled(db, job, ready) && ready.threads != db.threads
    ensures Chosen(db, job, ready, db.threadSeq + 1) && db.threadSeq + 1 in ready.threads
  {
    hide Unplaced, RootTaken;
    var row := Thread(job.root, job.p.subject, None, job.p.date, job.p.date);
    assert ready.threads == db.threads[db.threadSeq + 1 := row];
  }

  lemma SettledKeeps(db: MailDb, job: Job, ready: MailDb)
    requires Settled(db, job, ready)
    ensures ready.messages == db.messages && NothingElse(db, ready)
  {
    hide Unplaced, RootTaken;
  }

  lemma SettledOpens(db: MailDb, job: Job, ready: MailDb)
    requires ThreadKeys(db) && Settled(db, job, ready) && JobOf(job) && ready.threads != db.threads
    ensures Opened(db, job.p, ready)
  {
    NewThreadIsChosen(db, job, ready);
    assert db.threadSeq + 1 !in db.threads;
    hide Settled, ThreadKeys, GoesTo, Chosen, JobOf, Found;
    ChosenGoesTo(db, job, ready, db.threadSeq + 1);
  }

  lemma LeftAloneOpens(db: MailDb, job: Job, db': MailDb)
    requires ThreadKeys(db) && LeftAlone(db, job, db') && JobOf(job)
    ensures db'.messages == db.messages && NothingElse(db, db')
    ensures db'.threads == db.threads || Opened(db, job.p, db')
  {
    var ready :| Settled(db, job, ready) && (db' == ready || db' == ready.(messageSeq := ready.messageSeq + 1));
    SettledKeeps(db, job, ready);
    hide Settled, ThreadKeys, JobOf, GoesTo;
    if ready.threads != db.threads {
      SettledOpens(db, job, ready);
    }
  }

  /** A handling that fails leaves every row as it was; if its row is refused it may have opened its thread. */
  lemma FailureStoresNothing(db: MailDb, d: Delivery, folder: string, uidValidity: nat, db': MailDb, o: Outcome)
    requires Schema(db) && Handles(db, d, folder, uidValidity, db', o) && o.Failed?
    ensures db'.messages == db.messages && NothingElse(db, db')
    ensures db'.threads == db.threads || (d.parsed.Some? && Opened(db, d.parsed.value, db'))
  {
    HandlingEnds(db, d, folder, uidValidity, db', o);
    assert ThreadKeys(db);
    hide Handles, Schema, ThreadKeys, HasMessage, LeftAlone, Refused, Opened;
    if !(db' == db && Unread(db, d, o)) {
      var job :| Fresh(db, d, folder, uidValidity, job) && Ended(db, job, db', o);
      LeftAloneOpens(db, job, db');
    }
  }

  // ---------- over serial runs ----------

  /** The row holds what operation i delivered, under the folder, UID and validity it was fetched with. */
  ghost predicate DeliveredBy(ops: seq<Op>, i: nat, row: Message) {
    && i < |ops| && ops[i].Index? && ops[i].d.parsed.Some?
    && var p := ops[i].d.parsed.value;
       row == Message(p.messageId, row.thread, row.grantee, ops[i].folder, ops[i].d.uid, ops[i].uidValidity,
           p.from, p.date)
  }

  lemma NewRowIsDelivered(db: MailDb, op: Op, db': MailDb, m: nat)
    requires Attributed(db) && OpStep(db, op, db') && m in db'.messages && m !in db.messages
    ensures DeliveredBy([op], 0, db'.messages[m])
  {
    if op.Index? {
      var o :| Handles(db, op.d, op.folder, op.uidValidity, db', o);
      if Known(db, op.d) || o.Failed? {
        UnstoredAddsNoRow(db, op.d, op.folder, op.uidValidity, db', o);
      } else {
        HandlingStores(db, op.d, op.folder, op.uidValidity, db', o);
        hide Handles, GoesTo, ThreadUpdated, RowsKept, HasMessage, Found, Sender;
      }
    }
  }

  lemma UnstoredAddsNoRow(db: MailDb, d: Delivery, folder: string, uidValidity: nat, db': MailDb, o: Outcome)
    requires Schema(db) && Handles(db, d, folder, uidValidity, db', o) && (Known(db, d) || o.Failed?)
    ensures db'.messages == db.messages
  {
    if o.Failed? {
      FailureStoresNothing(db, d, folder, uidValidity, db', o);
    } else {
      HandlingEnds(db, d, folder, uidValidity, db', o);
    }
  }

  /** Every row of the messages table was delivered, as it stands, by some operation of the run. */
  lemma {:induction false} EveryRowWasDelivered(dbs: seq<MailDb>, ops: seq<Op>, n: nat, m: nat) returns (i: nat)
    requires SerialRun(dbs, ops) && n <= |ops| && m in dbs[n].messages
    ensures i < n && DeliveredBy(ops, i, dbs[n].messages[m])
  {
    RunAttributed(dbs, ops, n - 1);
    if m in dbs[n - 1].messages {
      i := EveryRowWasDelivered(dbs, ops, n - 1, m);
      OpGrows(dbs[n - 1], ops[n - 1], dbs[n]);
      assert dbs[n].messages[m] == dbs[n - 1].messages[m].(grantee := dbs[n].messages[m].grantee);
    } else {
      NewRowIsDelivered(dbs[n - 1], ops[n - 1], dbs[n], m);
      i := n - 1;
    }
  }
}
