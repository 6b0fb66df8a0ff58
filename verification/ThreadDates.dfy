/** A thread's last-seen date, over serial runs. */
module ThreadDates {
  import opened Wrappers
  import opened MailTables
  import opened Ingest
  import opened HandledMail
  import opened Attribution
  import opened Placement

  /** No message is later than its thread was last seen, except of thread t up to the given date. */
  ghost predicate DatedBut(db: MailDb, t: nat, date: int) {
    forall m :: m in db.messages ==>
      var row := db.messages[m];
      row.thread in db.threads && (row.date <= db.threads[row.thread].lastSeen || (row.thread == t && row.date <= date))
  }

  ghost predicate Dated(db: MailDb) {
    forall m :: m in db.messages ==>
      db.messages[m].thread in db.threads && db.messages[m].date <= db.threads[db.messages[m].thread].lastSeen
  }

  /** Growth that adds no message keeps threads dated: last_seen_at never falls. */
  lemma DatedGrows(a: MailDb, b: MailDb)
    requires Dated(a) && Grows(a, b) && b.messages.Keys == a.messages.Keys
    ensures Dated(b)
  {
  }

  lemma TookDated(ready: MailDb, job: Job, t: nat)
    requires Dated(ready) && t in ready.threads
    ensures Dated(WithTouch(ready, job, t))
  {
    var row := job.Row(t, GranteeFor(ready, job, t));
    assert DatedBut(InsertMessage(ready, row).0, t, job.p.date);
    assert DatedBut(WithPromotion(ready, job, t), t, job.p.date);
    TouchDates(WithPromotion(ready, job, t), t, job.p.date);
  }

  lemma TouchDates(db: MailDb, t: nat, date: int)
    requires DatedBut(db, t, date)
    ensures Dated(TouchThread(db, t, date))
  {
  }

  lemma SettledDated(db: MailDb, job: Job, ready: MailDb)
    requires Schema(db) && Dated(db) && Settled(db, job, ready)
    ensures Dated(ready)
  {
    hide Unplaced, RootTaken, MessageKeys;
  }

  lemma EndedDated(db: MailDb, job: Job, db': MailDb, o: Outcome)
    requires Schema(db) && Dated(db) && Ended(db, job, db', o)
    ensures Dated(db')
  {
    if o.Failed? {
      var ready :| Settled(db, job, ready) && (db' == ready || db' == ready.(messageSeq := ready.messageSeq + 1));
      SettledDated(db, job, ready);
    } else {
      var ready, t :| Took(db, job, t, ready, db');
      SettledDated(db, job, ready);
      TookDated(ready, job, t);
    }
  }

  lemma IndexDated(db: MailDb, d: Delivery, folder: string, uidValidity: nat, db': MailDb, o: Outcome)
    requires Schema(db) && Dated(db) && Handles(db, d, folder, uidValidity, db', o)
    ensures Dated(db')
  {
    HandlingEnds(db, d, folder, uidValidity, db', o);
    if db' != db {
      var job :| Fresh(db, d, folder, uidValidity, job) && Ended(db, job, db', o);
      EndedDated(db, job, db', o);
    }
  }

  /** Only indexing adds messages. */
  lemma AdminAddsNoMessage(db: MailDb, op: Op, db': MailDb)
    requires OpStep(db, op, db') && !op.Index?
    ensures db'.messages.Keys == db.messages.Keys
  {
  }

  lemma OpDated(db: MailDb, op: Op, db': MailDb)
    requires Attributed(db) && Dated(db) && OpStep(db, op, db')
    ensures Dated(db')
  {
    if op.Index? {
      var o :| Handles(db, op.d, op.folder, op.uidValidity, db', o);
      IndexDated(db, op.d, op.folder, op.uidValidity, db', o);
    } else {
      AdminAddsNoMessage(db, op, db');
      OpGrows(db, op, db');
      hide OpStep;
      DatedGrows(db, db');
    }
  }

  lemma NothingIsDated()
    ensures Dated(EMPTY_DB)
  {
  }

  /** After every operation of a serial run each thread was last seen no earlier than any of its messages is dated. */
  lemma {:induction false} LastSeenCovers(dbs: seq<MailDb>, ops: seq<Op>, n: nat)
    requires SerialRun(dbs, ops) && n <= |ops|
    ensures Dated(dbs[n])
  {
    hide Dated, Attributed, OpStep;
    if n == 0 {
      assert dbs[0] == EMPTY_DB;
      NothingIsDated();
    } else {
      LastSeenCovers(dbs, ops, n - 1);
      RunAttributed(dbs, ops, n - 1);
      OpDated(dbs[n - 1], ops[n - 1], dbs[n]);
    }
  }

  // ---------- and no later than some message that was delivered ----------

  ghost predicate Dates(op: Op, date: int) {
    op.Index? && op.d.parsed.Some? && op.d.parsed.value.date == date
  }

  lemma IndexMovesLastSeen(db: MailDb, op: Op, db': MailDb, t: nat)
    requires Schema(db) && op.Index? && OpStep(db, op, db') && t in db'.threads
    ensures || (t in db.threads && db'.threads[t].lastSeen == db.threads[t].lastSeen)
            || Dates(op, db'.threads[t].lastSeen)
  {
    var o :| Handles(db, op.d, op.folder, op.uidValidity, db', o);
    if o.Failed? {
      FailureStoresNothing(db, op.d, op.folder, op.uidValidity, db', o);
      hide GoesTo, Root;
    } else if Known(db, op.d) {
      HandlingEnds(db, op.d, op.folder, op.uidValidity, db', o);
    } else {
      HandlingStores(db, op.d, op.folder, op.uidValidity, db', o);
      hide GoesTo, Root, RowsKept, RowStored;
    }
  }

  lemma OpMovesLastSeen(db: MailDb, op: Op, db': MailDb, t: nat)
    requires Schema(db) && OpStep(db, op, db') && t in db'.threads
    ensures || (t in db.threads && db'.threads[t].lastSeen == db.threads[t].lastSeen)
            || Dates(op, db'.threads[t].lastSeen)
  {
    if op.Index? {
      IndexMovesLastSeen(db, op, db', t);
    }
  }

  /** In every serial run a thread was last seen at the date of some message that an operation delivered. */
  lemma {:induction false} LastSeenIsADate(dbs: seq<MailDb>, ops: seq<Op>, n: nat, t: nat) returns (i: nat)
    requires SerialRun(dbs, ops) && n <= |ops| && t in dbs[n].threads
    ensures i < n && Dates(ops[i], dbs[n].threads[t].lastSeen)
  {
    var db, op, db' := dbs[n - 1], ops[n - 1], dbs[n];
    RunAttributed(dbs, ops, n - 1);
    OpMovesLastSeen(db, op, db', t);
    hide OpStep, Dates, Assignments, Schema;
    if Dates(op, db'.threads[t].lastSeen) {
      i := n - 1;
    } else {
      i := LastSeenIsADate(dbs, ops, n - 1, t);
    }
  }
}
