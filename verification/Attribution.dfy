/**
 Which grantee a message and its thread carry, over serial runs of indexing and of authorizing,
 remapping and revoking sender addresses.
 */
module Attribution {
  import opened Wrappers
  import opened Text
  import opened MailTables
  import opened Ingest
  import opened HandledMail

  datatype Op =
    | Index(folder: string, d: Delivery, uidValidity: nat)
    | AddGrantee(g: string, displayName: string)
    | Authorize(g: string, email: string)
    | Revoke(g: string, email: string)

  ghost predicate OpStep(db: MailDb, op: Op, db': MailDb) {
    match op
    case Index(folder, d, v) => exists o :: Handles(db, d, folder, v, db', o)
    case AddGrantee(g, name) => db' == var r := EnsureGrantee(db, g, name); if r.Ok? then r.value else db
    case Authorize(g, email) => db' == var r := AddGranteeEmail(db, g, email); if r.Ok? then r.value else db
    case Revoke(g, email) => db' == var r := RemoveGranteeEmail(db, g, email); if r.Ok? then r.value else db
  }

  /** dbs[i] is the state before ops[i]; every operation runs to its end before the next starts. */
  ghost predicate SerialRun(dbs: seq<MailDb>, ops: seq<Op>) {
    && |dbs| == |ops| + 1
    && dbs[0] == EMPTY_DB
    && forall i :: 0 <= i < |ops| ==> OpStep(dbs[i], ops[i], dbs[i + 1])
  }

  // ---------- the invariant ----------

  ghost predicate Assigned(db: MailDb, t: nat) {
    t in db.threads && db.threads[t].grantee.Some?
  }

  ghost predicate AssignedTogether(db: MailDb) {
    forall m :: m in db.messages ==> (db.messages[m].grantee.Some? <==> Assigned(db, db.messages[m].thread))
  }

  ghost predicate MappedSendersAssigned(db: MailDb) {
    forall m :: m in db.messages && Lower(db.messages[m].from) in db.emails ==> Assigned(db, db.messages[m].thread)
  }

  ghost predicate Assignments(db: MailDb) {
    && (forall m :: m in db.messages ==> db.messages[m].thread in db.threads)
    && AssignedTogether(db)
    && MappedSendersAssigned(db)
  }

  ghost predicate Attributed(db: MailDb) {
    Schema(db) && Assignments(db)
  }

  /** A thread's grantee as a message of the thread may carry it. */
  ghost predicate ThreadsGrantee(db: MailDb, t: nat, g: Option<string>) {
    t in db.threads && db.threads[t].grantee == g
  }

  ghost predicate RowProvenance(db: MailDb, db': MailDb, m: nat)
    requires m in db'.messages
  {
    var row := db'.messages[m];
    || (m in db.messages && db.messages[m].grantee == row.grantee)
    || ThreadsGrantee(db', row.thread, row.grantee)
    || (m !in db.messages && row.grantee == LookupGrantee(db, row.from))
  }

  /**
   How an operation may change grantees: what was set stays; a row that had none takes its thread's;
   and a new row carries its thread's or its sender's at that moment.
   */
  ghost predicate Provenance(db: MailDb, db': MailDb) {
    && Grows(db, db')
    && forall m :: m in db'.messages && db'.messages[m].grantee.Some? ==> RowProvenance(db, db', m)
  }

  // ---------- indexing ----------

  lemma SettledRows(db: MailDb, job: Job, ready: MailDb)
    requires ThreadKeys(db) && Settled(db, job, ready)
    ensures ready.messages == db.messages && ready.emails == db.emails
        && ready.grantees == db.grantees && ready.cursors == db.cursors
    ensures forall t :: t in db.threads ==> t in ready.threads && ready.threads[t] == db.threads[t]
    ensures forall t :: Assigned(ready, t) ==> Assigned(db, t)
  {
  }

  lemma AssignmentsCarry(db: MailDb, ready: MailDb)
    requires Assignments(db) && ready.messages == db.messages && ready.emails == db.emails
    requires forall t :: t in db.threads ==> t in ready.threads && ready.threads[t] == db.threads[t]
    ensures Assignments(ready)
  {
    forall m | m in ready.messages
      ensures Assigned(ready, ready.messages[m].thread) <==> Assigned(db, db.messages[m].thread)
    {
      assert db.messages[m].thread in db.threads;
    }
  }

  lemma SettledAttributed(db: MailDb, job: Job, ready: MailDb)
    requires Attributed(db) && Settled(db, job, ready)
    ensures Attributed(ready) && Grows(db, ready)
    ensures ready.messages == db.messages && ready.emails == db.emails && ready.grantees == db.grantees
  {
    CreateThreadKeepsSchema(db, job.root, job.p.subject, job.p.date);
    SettledRows(db, job, ready);
    AssignmentsCarry(db, ready);
  }

  lemma SenderMapped(db: MailDb, job: Job)
    requires Schema(db)
    ensures SenderGrantee(db, job).Some? <==> Lower(job.p.from) in db.emails
    ensures SenderGrantee(db, job).Some? ==> SenderGrantee(db, job) == LookupGrantee(db, job.p.from)
  {
  }

  /** The row the insert adds, if it adds one. */
  ghost predicate AddsRow(db: MailDb, after: MailDb, msg: Message) {
    && after.threads == db.threads && after.emails == db.emails && after.grantees == db.grantees
    && (after.messages == db.messages ||
        (db.messageSeq + 1 !in db.messages && after.messages == db.messages[db.messageSeq + 1 := msg]))
  }

  lemma InsertAddsRow(db: MailDb, msg: Message)
    requires MessageKeys(db)
    ensures AddsRow(db, InsertMessage(db, msg).0, msg)
  {
  }

  /** Without a mapped sender the row takes what its thread has, and nothing else changes. */
  lemma InheritedRow(db: MailDb, after: MailDb, msg: Message)
    requires Assignments(db) && AddsRow(db, after, msg)
    requires ThreadsGrantee(db, msg.thread, msg.grantee) && Lower(msg.from) !in db.emails
    ensures Assignments(after) && Provenance(db, after)
  {
    forall m | m in after.messages
      ensures Assigned(after, after.messages[m].thread) <==> Assigned(db, after.messages[m].thread)
    {
    }
  }

  /** A mapped sender's message settles the whole thread. */
  lemma PromotedRow(db: MailDb, mid: MailDb, msg: Message, g: string)
    requires Assignments(db) && AddsRow(db, mid, msg)
    requires msg.thread in db.threads && msg.grantee == Some(g)
    ensures Assignments(SetThreadGrantee(mid, msg.thread, g))
  {
    var after := SetThreadGrantee(mid, msg.thread, g);
    forall m | m in after.messages
      ensures after.messages[m].thread in after.threads
      ensures after.messages[m].grantee.Some? <==> Assigned(after, after.messages[m].thread)
      ensures Lower(after.messages[m].from) in after.emails ==> Assigned(after, after.messages[m].thread)
    {
      if after.messages[m].thread != msg.thread {
        assert m in db.messages && mid.messages[m] == db.messages[m];
      }
    }
  }

  lemma PromotedRowProvenance(db: MailDb, mid: MailDb, msg: Message, g: string)
    requires Assignments(db) && AddsRow(db, mid, msg)
    requires msg.thread in db.threads && msg.grantee == Some(g) == LookupGrantee(db, msg.from)
    ensures Provenance(db, SetThreadGrantee(mid, msg.thread, g))
  {
    var after := SetThreadGrantee(mid, msg.thread, g);
    SetThreadGranteeGrows(mid, msg.thread, g);
    assert Grows(db, mid);
    GrowsTransitive(db, mid, after);
    forall m | m in after.messages && after.messages[m].grantee.Some?
      ensures RowProvenance(db, after, m)
    {
      if m in db.messages && db.messages[m].grantee.None? {
        assert mid.messages[m] == db.messages[m];
        assert !Assigned(db, db.messages[m].thread);
      }
    }
  }

  lemma TouchAssignments(db0: MailDb, db: MailDb, t: nat, date: int)
    requires Assignments(db) && Provenance(db0, db)
    ensures Assignments(TouchThread(db, t, date)) && Provenance(db0, TouchThread(db, t, date))
  {
    var after := TouchThread(db, t, date);
    TouchThreadGrows(db, t, date);
    GrowsTransitive(db0, db, after);
    forall u
      ensures Assigned(after, u) <==> Assigned(db, u)
    {
    }
    forall m | m in after.messages && after.messages[m].grantee.Some?
      ensures RowProvenance(db0, after, m)
    {
      assert RowProvenance(db0, db, m);
    }
  }

  lemma ProvenanceFrom(db: MailDb, ready: MailDb, db': MailDb)
    requires Grows(db, ready) && ready.messages == db.messages && ready.emails == db.emails
    requires Provenance(ready, db')
    ensures Provenance(db, db')
  {
    GrowsTransitive(db, ready, db');
    forall m | m in db'.messages && db'.messages[m].grantee.Some?
      ensures RowProvenance(db, db', m)
    {
      assert RowProvenance(ready, db', m);
    }
  }

  lemma TookSchema(db: MailDb, job: Job, t: nat)
    requires Schema(db) && t in db.threads
    ensures Schema(WithTouch(db, job, t))
  {
    assert ForeignKeys(db);
    var row := job.Row(t, GranteeFor(db, job, t));
    InsertMessageKeepsSchema(db, row);
    var g := SenderGrantee(db, job);
    if g.Some? {
      SetThreadGranteeKeepsSchema(WithRow(db, job, t), t, g.value);
    }
    TouchKeepsSchema(WithPromotion(db, job, t), t, job.p.date);
  }

  lemma TookAssignments(db: MailDb, job: Job, t: nat)
    requires Attributed(db) && t in db.threads
    ensures Assignments(WithTouch(db, job, t)) && Provenance(db, WithTouch(db, job, t))
  {
    var g := SenderGrantee(db, job);
    var row := job.Row(t, GranteeFor(db, job, t));
    SenderMapped(db, job);
    InsertAddsRow(db, row);
    if g.Some? {
      PromotedRow(db, WithRow(db, job, t), row, g.value);
      PromotedRowProvenance(db, WithRow(db, job, t), row, g.value);
    } else {
      InheritedRow(db, WithRow(db, job, t), row);
    }
    TouchAssignments(db, WithPromotion(db, job, t), t, job.p.date);
  }

  lemma BurnedAttributed(db: MailDb, ready: MailDb)
    requires Attributed(ready) && Provenance(db, ready)
    ensures var db' := ready.(messageSeq := ready.messageSeq + 1); Attributed(db') && Provenance(db, db')
  {
    var db' := ready.(messageSeq := ready.messageSeq + 1);
    forall u
      ensures Assigned(db', u) <==> Assigned(ready, u)
    {
    }
    forall m | m in db'.messages && db'.messages[m].grantee.Some?
      ensures RowProvenance(db, db', m)
    {
      assert RowProvenance(db, ready, m);
    }
  }

  lemma LeftAloneAttributed(db: MailDb, job: Job, db': MailDb)
    requires Attributed(db) && LeftAlone(db, job, db')
    ensures Attributed(db') && Provenance(db, db')
  {
    var ready :| Settled(db, job, ready) && (db' == ready || db' == ready.(messageSeq := ready.messageSeq + 1));
    SettledAttributed(db, job, ready);
    assert Provenance(db, ready);
    BurnedAttributed(db, ready);
  }

  lemma TookAttributed(db: MailDb, job: Job, t: nat, ready: MailDb, db': MailDb)
    requires Attributed(db) && Took(db, job, t, ready, db')
    ensures Attributed(db') && Provenance(db, db')
  {
    SettledAttributed(db, job, ready);
    TookSchema(ready, job, t);
    TookAssignments(ready, job, t);
    ProvenanceFrom(db, ready, db');
  }

  lemma EndedAttributed(db: MailDb, job: Job, db': MailDb, o: Outcome)
    requires Attributed(db) && Ended(db, job, db', o)
    ensures Attributed(db') && Provenance(db, db')
  {
    if o.Failed? {
      LeftAloneAttributed(db, job, db');
    } else {
      var ready, t :| Took(db, job, t, ready, db');
      TookAttributed(db, job, t, ready, db');
    }
  }

  lemma SameProvenance(db: MailDb)
    requires Attributed(db)
    ensures Provenance(db, db)
  {
  }

  lemma IndexAttributed(db: MailDb, d: Delivery, folder: string, uidValidity: nat, db': MailDb, o: Outcome)
    requires Attributed(db) && Handles(db, d, folder, uidValidity, db', o)
    ensures Attributed(db') && Provenance(db, db')
  {
    SameProvenance(db);
    HandlingEnds(db, d, folder, uidValidity, db', o);
    hide Handles, Fresh, Ended, Schema, Assignments, Provenance;
    if db' != db {
      var job :| Fresh(db, d, folder, uidValidity, job) && Ended(db, job, db', o);
      EndedAttributed(db, job, db', o);
    }
  }

  // ---------- authorizing ----------

  /**
   The back-fill writes the caller's grantee into every unassigned message of every thread that has
   it; that no such message sits in a thread assigned earlier is what the invariant is needed for.
   */
  lemma AuthorizeAssignments(db: MailDb, g: string, email: string)
    requires Assignments(db) && AddGranteeEmail(db, g, email).Ok?
    ensures Assignments(AddGranteeEmail(db, g, email).value)
    ensures Provenance(db, AddGranteeEmail(db, g, email).value)
  {
    var key := EmailKey(email);
    var mid := AssignThreadsOf(UpsertEmail(db, key, g), key, g);
    var after := AddGranteeEmail(db, g, email).value;
    AddGranteeEmailGrows(db, g, email);
    assert after.threads == mid.threads && after.emails == db.emails[key := g];
    forall m | m in after.messages
      ensures after.messages[m].thread in after.threads
      ensures after.messages[m].grantee.Some? <==> Assigned(after, after.messages[m].thread)
      ensures Lower(after.messages[m].from) in after.emails ==> Assigned(after, after.messages[m].thread)
      ensures after.messages[m].grantee.Some? ==> RowProvenance(db, after, m)
    {
      var row := db.messages[m];
      assert after.messages[m].thread == row.thread && after.messages[m].from == row.from && row.thread in db.threads;
      if Assigned(db, row.thread) {
        assert Assigned(after, row.thread);
      } else if Assigned(after, row.thread) {
        assert mid.threads[row.thread].grantee == Some(g);
      } else if Lower(row.from) == key {
        assert HoldsSender(db.messages, row.thread, key);
      }
    }
  }

  lemma AuthorizeAttributed(db: MailDb, g: string, email: string)
    requires Attributed(db) && AddGranteeEmail(db, g, email).Ok?
    ensures Attributed(AddGranteeEmail(db, g, email).value) && Provenance(db, AddGranteeEmail(db, g, email).value)
  {
    AddGranteeEmailKeepsSchema(db, g, email);
    AuthorizeAssignments(db, g, email);
  }

  lemma AddGranteeAttributed(db: MailDb, g: string, displayName: string)
    requires Attributed(db) && EnsureGrantee(db, g, displayName).Ok?
    ensures var db' := EnsureGrantee(db, g, displayName).value; Attributed(db') && Provenance(db, db')
  {
    var db' := EnsureGrantee(db, g, displayName).value;
    forall u
      ensures Assigned(db', u) <==> Assigned(db, u)
    {
    }
  }

  lemma RevokeAttributed(db: MailDb, g: string, email: string)
    requires Attributed(db) && RemoveGranteeEmail(db, g, email).Ok?
    ensures var db' := RemoveGranteeEmail(db, g, email).value; Attributed(db') && Provenance(db, db')
  {
    var db' := RemoveGranteeEmail(db, g, email).value;
    forall u
      ensures Assigned(db', u) <==> Assigned(db, u)
    {
    }
  }

  lemma OpAttributed(db: MailDb, op: Op, db': MailDb)
    requires Attributed(db) && OpStep(db, op, db')
    ensures Attributed(db') && Provenance(db, db')
  {
    match op
    case Index(folder, d, v) =>
      var o :| Handles(db, d, folder, v, db', o);
      IndexAttributed(db, d, folder, v, db', o);
    case AddGrantee(g, name) =>
      if g != "" {
        AddGranteeAttributed(db, g, name);
      }
    case Authorize(g, email) =>
      if AddGranteeEmail(db, g, email).Ok? {
        AuthorizeAttributed(db, g, email);
      }
    case Revoke(g, email) =>
      if RemoveGranteeEmail(db, g, email).Ok? {
        RevokeAttributed(db, g, email);
      }
  }

  lemma OpGrows(db: MailDb, op: Op, db': MailDb)
    requires Attributed(db) && OpStep(db, op, db')
    ensures Grows(db, db')
  {
    OpAttributed(db, op, db');
  }

  // ---------- the theorems ----------

  /**
   After every operation of every serial run: a message is assigned exactly when its thread is, and
   a thread holding a message from a currently authorized address is assigned.
   */
  lemma {:induction false} RunAttributed(dbs: seq<MailDb>, ops: seq<Op>, n: nat)
    requires SerialRun(dbs, ops) && n <= |ops|
    ensures Attributed(dbs[n])
  {
    if n > 0 {
      RunAttributed(dbs, ops, n - 1);
      OpAttributed(dbs[n - 1], ops[n - 1], dbs[n]);
    }
  }

  /** So the list of unassigned mail never shows a message from a currently authorized address. */
  lemma UnassignedHasNoMappedSender(dbs: seq<MailDb>, ops: seq<Op>, n: nat, m: nat)
    requires SerialRun(dbs, ops) && n <= |ops|
    requires m in dbs[n].messages && dbs[n].messages[m].grantee.None?
    ensures LookupGrantee(dbs[n], dbs[n].messages[m].from).None?
    ensures forall k :: k in dbs[n].messages && dbs[n].messages[k].thread == dbs[n].messages[m].thread ==>
              LookupGrantee(dbs[n], dbs[n].messages[k].from).None? && dbs[n].messages[k].grantee.None?
  {
    RunAttributed(dbs, ops, n);
  }

  /** m was stored by operation i of the run, when its sender's address was mapped to g. */
  ghost predicate StoredWhenMapped(dbs: seq<MailDb>, i: nat, m: nat, g: Option<string>) {
    && i + 1 < |dbs|
    && m !in dbs[i].messages && m in dbs[i + 1].messages
    && LookupGrantee(dbs[i], dbs[i + 1].messages[m].from) == g
  }

  /**
   Where a message's grantee comes from: at every point of a serial run it is its thread's, or the
   one its sender was mapped to when the message was stored.
   */
  lemma {:induction false} GranteeProvenance(dbs: seq<MailDb>, ops: seq<Op>, n: nat, m: nat)
    requires SerialRun(dbs, ops) && n <= |ops|
    requires m in dbs[n].messages && dbs[n].messages[m].grantee.Some?
    ensures var row := dbs[n].messages[m];
      || ThreadsGrantee(dbs[n], row.thread, row.grantee)
      || exists i :: 0 <= i < n && StoredWhenMapped(dbs, i, m, row.grantee)
  {
    if n > 0 {
      RunAttributed(dbs, ops, n - 1);
      OpAttributed(dbs[n - 1], ops[n - 1], dbs[n]);
      var before, row := dbs[n - 1], dbs[n].messages[m];
      assert RowProvenance(before, dbs[n], m);
      if m in before.messages && before.messages[m].grantee == row.grantee {
        GranteeProvenance(dbs, ops, n - 1, m);
        assert before.messages[m].thread in before.threads;
      } else if m !in before.messages && row.grantee == LookupGrantee(before, row.from) {
        assert StoredWhenMapped(dbs, n - 1, m, row.grantee);
      }
    }
  }

  lemma StepGrows(dbs: seq<MailDb>, ops: seq<Op>, n: nat)
    requires SerialRun(dbs, ops) && n < |ops|
    ensures Grows(dbs[n], dbs[n + 1])
  {
    RunAttributed(dbs, ops, n);
    OpGrows(dbs[n], ops[n], dbs[n + 1]);
  }

  /** A thread's or a message's grantee, once written, is never rewritten, whatever is authorized or revoked later. */
  lemma {:induction false} GranteeNeverChanges(dbs: seq<MailDb>, ops: seq<Op>, i: nat, j: nat)
    requires SerialRun(dbs, ops) && i <= j <= |ops|
    ensures Grows(dbs[i], dbs[j])
    decreases j - i
  {
    if i < j {
      hide Grows;
      StepGrows(dbs, ops, j - 1);
      GranteeNeverChanges(dbs, ops, i, j - 1);
      GrowsTransitive(dbs[i], dbs[j - 1], dbs[j]);
    }
  }

  // ---------- a handling cut off ----------

  /**
   Why whole operations: a handling that is cut off between the insert and the promotion leaves an assigned
   message in an unassigned thread. And a rerun does not repair it where the envelope names the message: it
   finds the message stored, and changes nothing.
   */
  lemma CutOffBeforePromotion(ready: MailDb, job: Job, t: nat, d: Delivery, folder: string, uidValidity: nat,
      db': MailDb, o: Outcome)
    requires Attributed(ready) && t in ready.threads && ready.threads[t].grantee.None?
    requires SenderGrantee(ready, job).Some? && !HasMessage(ready, job.p.messageId) && Accepted(ready, job, t)
    requires !d.bodyEmpty && d.envelopeId == job.p.messageId && d.envelopeId != ""
    requires Handles(WithRow(ready, job, t), d, folder, uidValidity, db', o)
    ensures !AssignedTogether(WithRow(ready, job, t))
    ensures db' == WithRow(ready, job, t) && o == Indexed
  {
    hide Provenance, Grows;
    var db := WithRow(ready, job, t);
    var row := job.Row(t, GranteeFor(ready, job, t));
    InsertMessageGrows(ready, row);
    InsertAddsRow(ready, row);
    var m := ready.messageSeq + 1;
    assert m in db.messages && db.messages[m] == row && row.grantee.Some? && !Assigned(db, t);
    var trace: seq<(MailDb, Pc)> :|
      RunsAlone(trace) && trace[0] == (db, Begin(d, folder, uidValidity)) && Last(trace) == (db', Done(o));
    assert Step(trace[0].0, trace[0].1, trace[0 + 1].0, trace[0 + 1].1);
    assert |trace| > 2 ==> Step(trace[1].0, trace[1].1, trace[1 + 1].0, trace[1 + 1].1);
  }
}
