/**
 Attribution does not depend on the order in which mail arrives and addresses are authorized, in
 serial runs that revoke nothing and index messages that have a Message-ID.
 */
module AttributionOrder {
  import opened Wrappers
  import opened Text
  import opened MailTables
  import opened Ingest
  import opened HandledMail
  import opened Attribution

  /** The message has a Message-ID header, so the envelope names it as the parsed message does. */
  ghost predicate HasId(d: Delivery) {
    d.envelopeId != "" && (d.parsed.Some? ==> d.parsed.value.messageId == d.envelopeId)
  }

  ghost predicate OrderlyOp(op: Op) {
    !op.Revoke? && (op.Index? ==> HasId(op.d))
  }

  ghost predicate OrderlyRun(dbs: seq<MailDb>, ops: seq<Op>) {
    SerialRun(dbs, ops) && forall i :: 0 <= i < |ops| ==> OrderlyOp(ops[i])
  }

  // ---------- assigned exactly when a mapped sender wrote ----------

  ghost predicate HoldsMapped(db: MailDb, t: nat) {
    exists m :: m in db.messages && db.messages[m].thread == t && Lower(db.messages[m].from) in db.emails
  }

  ghost predicate AssignedOnlyIfMapped(db: MailDb) {
    forall t :: Assigned(db, t) ==> HoldsMapped(db, t)
  }

  /** Pairs (key, g): the address with this key has been authorized for g at some time. */
  type Auths = set<(string, string)>

  ghost predicate Witness(db: MailDb, t: nat, g: string, auths: Auths) {
    exists m :: m in db.messages && db.messages[m].thread == t && (Lower(db.messages[m].from), g) in auths
  }

  ghost predicate HasGrantee(db: MailDb, m: nat) {
    m in db.messages && db.messages[m].grantee.Some?
  }

  /** Every grantee in a thread was once authorized for the sender of some message in it. */
  ghost predicate Witnessed(db: MailDb, auths: Auths) {
    && (forall k :: k in db.emails ==> (k, db.emails[k]) in auths)
    && (forall t :: Assigned(db, t) ==> Witness(db, t, db.threads[t].grantee.value, auths))
    && (forall m :: HasGrantee(db, m) ==>
          Witness(db, db.messages[m].thread, db.messages[m].grantee.value, auths))
  }

  lemma WitnessGrows(a: MailDb, b: MailDb, t: nat, g: string, auths: Auths, auths': Auths)
    requires Witness(a, t, g, auths) && auths <= auths' && Grows(a, b)
    ensures Witness(b, t, g, auths')
  {
    var m :| m in a.messages && a.messages[m].thread == t && (Lower(a.messages[m].from), g) in auths;
    assert m in b.messages && b.messages[m].thread == t && (Lower(b.messages[m].from), g) in auths';
  }

  lemma HoldsMappedGrows(a: MailDb, b: MailDb, t: nat)
    requires HoldsMapped(a, t) && a.emails.Keys <= b.emails.Keys && Grows(a, b)
    ensures HoldsMapped(b, t)
  {
    var m :| m in a.messages && a.messages[m].thread == t && Lower(a.messages[m].from) in a.emails;
    assert m in b.messages && b.messages[m].thread == t && Lower(b.messages[m].from) in b.emails;
  }

  /**
   What a state may add to an earlier one: a thread newly assigned to g, and a message newly carrying
   g, each with a fitting message in its thread.
   */
  ghost predicate AddsWitnessed(a: MailDb, b: MailDb, auths: Auths) {
    && Grows(a, b)
    && a.emails.Keys <= b.emails.Keys
    && (forall t :: Assigned(b, t) && !Assigned(a, t) ==>
            HoldsMapped(b, t) && Witness(b, t, b.threads[t].grantee.value, auths))
    && (forall m :: HasGrantee(b, m) && !HasGrantee(a, m) ==>
          Witness(b, b.messages[m].thread, b.messages[m].grantee.value, auths))
  }

  lemma AddingKeeps(a: MailDb, b: MailDb, auths: Auths, auths': Auths)
    requires AssignedOnlyIfMapped(a) && Witnessed(a, auths) && auths <= auths'
    requires AddsWitnessed(a, b, auths') && forall k :: k in b.emails ==> (k, b.emails[k]) in auths'
    ensures AssignedOnlyIfMapped(b) && Witnessed(b, auths')
  {
    forall t | Assigned(b, t)
      ensures HoldsMapped(b, t) && Witness(b, t, b.threads[t].grantee.value, auths')
    {
      if Assigned(a, t) {
        HoldsMappedGrows(a, b, t);
        WitnessGrows(a, b, t, a.threads[t].grantee.value, auths, auths');
      }
    }
    forall m | HasGrantee(b, m)
      ensures Witness(b, b.messages[m].thread, b.messages[m].grantee.value, auths')
    {
      if HasGrantee(a, m) {
        WitnessGrows(a, b, a.messages[m].thread, a.messages[m].grantee.value, auths, auths');
      }
    }
  }

  // ---------- indexing ----------

  /** Storing a message that is not there yet adds only what its own sender or its thread vouches for. */
  lemma StoringAddsWitnessed(db: MailDb, job: Job, t: nat, auths: Auths)
    requires Attributed(db) && Witnessed(db, auths) && t in db.threads
    requires !HasMessage(db, job.p.messageId) && Accepted(db, job, t)
    ensures AddsWitnessed(db, WithPromotion(db, job, t), auths)
  {
    var g := SenderGrantee(db, job);
    var row := job.Row(t, GranteeFor(db, job, t));
    var mid := WithRow(db, job, t);
    var id := db.messageSeq + 1;
    SenderMapped(db, job);
    InsertMessageGrows(db, row);
    assert mid.messages == db.messages[id := row] && id !in db.messages;
    if g.Some? {
      PromotionAddsWitnessed(db, mid, id, row, g.value, auths);
    } else if row.grantee.Some? {
      assert Assigned(db, t);
      WitnessGrows(db, mid, t, row.grantee.value, auths, auths);
    }
  }

  lemma PromotionAddsWitnessed(db: MailDb, mid: MailDb, id: nat, row: Message, g: string, auths: Auths)
    requires Grows(db, mid) && mid.threads == db.threads && mid.emails == db.emails
    requires id !in db.messages && mid.messages == db.messages[id := row]
    requires row.grantee == Some(g) == LookupGrantee(db, row.from)
    requires forall k :: k in db.emails ==> (k, db.emails[k]) in auths
    ensures AddsWitnessed(db, SetThreadGrantee(mid, row.thread, g), auths)
  {
    var after := SetThreadGrantee(mid, row.thread, g);
    SetThreadGranteeGrows(mid, row.thread, g);
    GrowsTransitive(db, mid, after);
    assert after.messages[id].thread == row.thread && after.messages[id].from == row.from;
    assert HoldsMapped(after, row.thread) && Witness(after, row.thread, g, auths);
  }

  lemma TouchedThread(b: MailDb, t: nat, date: int, u: nat, auths: Auths)
    requires u in b.threads && b.threads[u].grantee.Some?
    requires HoldsMapped(b, u) && Witness(b, u, b.threads[u].grantee.value, auths)
    ensures var after := TouchThread(b, t, date);
            HoldsMapped(after, u) && Witness(after, u, after.threads[u].grantee.value, auths)
  {
    TouchThreadGrows(b, t, date);
    HoldsMappedGrows(b, TouchThread(b, t, date), u);
    WitnessGrows(b, TouchThread(b, t, date), u, b.threads[u].grantee.value, auths, auths);
  }

  lemma TouchAddsWitnessed(a: MailDb, b: MailDb, t: nat, date: int, auths: Auths)
    requires AddsWitnessed(a, b, auths)
    ensures AddsWitnessed(a, TouchThread(b, t, date), auths)
  {
    var after := TouchThread(b, t, date);
    TouchThreadGrows(b, t, date);
    GrowsTransitive(a, b, after);
    forall u | Assigned(after, u) && !Assigned(a, u)
      ensures HoldsMapped(after, u) && Witness(after, u, after.threads[u].grantee.value, auths)
    {
      assert Assigned(b, u);
      TouchedThread(b, t, date, u, auths);
    }
    forall m | HasGrantee(after, m) && !HasGrantee(a, m)
      ensures Witness(after, after.messages[m].thread, after.messages[m].grantee.value, auths)
    {
      WitnessGrows(b, after, b.messages[m].thread, b.messages[m].grantee.value, auths, auths);
    }
  }

  ghost predicate Sound(db: MailDb, auths: Auths) {
    Attributed(db) && AssignedOnlyIfMapped(db) && Witnessed(db, auths)
  }

  /** A step that assigns nothing keeps what is assigned vouched for. */
  lemma NothingAssigned(a: MailDb, b: MailDb, auths: Auths, auths': Auths)
    requires AssignedOnlyIfMapped(a) && Witnessed(a, auths) && auths <= auths'
    requires Grows(a, b) && b.messages == a.messages && b.emails == a.emails
    requires forall t :: Assigned(b, t) ==> Assigned(a, t)
    ensures AssignedOnlyIfMapped(b) && Witnessed(b, auths')
  {
    assert AddsWitnessed(a, b, auths');
    AddingKeeps(a, b, auths, auths');
  }

  lemma SettledSound(db: MailDb, job: Job, ready: MailDb, auths: Auths)
    requires Sound(db, auths) && Settled(db, job, ready)
    ensures Sound(ready, auths)
  {
    SettledAttributed(db, job, ready);
    SettledRows(db, job, ready);
    NothingAssigned(db, ready, auths, auths);
  }

  lemma TookSound(db: MailDb, d: Delivery, folder: string, v: nat, job: Job, t: nat, ready: MailDb, db': MailDb,
      auths: Auths)
    requires Sound(db, auths) && HasId(d) && Fresh(db, d, folder, v, job) && Took(db, job, t, ready, db')
    ensures AssignedOnlyIfMapped(db') && Witnessed(db', auths)
  {
    SettledSound(db, job, ready, auths);
    SettledAttributed(db, job, ready);
    assert !HasMessage(ready, job.p.messageId);
    StoringAddsWitnessed(ready, job, t, auths);
    TouchAddsWitnessed(ready, WithPromotion(ready, job, t), t, job.p.date, auths);
    assert db'.emails == ready.emails;
    AddingKeeps(ready, db', auths, auths);
  }

  lemma BurnedAssigns(db: MailDb)
    ensures var db' := db.(messageSeq := db.messageSeq + 1);
      Grows(db, db') && forall t :: Assigned(db', t) ==> Assigned(db, t)
  {
  }

  lemma LeftAloneSound(db: MailDb, job: Job, db': MailDb, auths: Auths)
    requires Sound(db, auths) && LeftAlone(db, job, db')
    ensures AssignedOnlyIfMapped(db') && Witnessed(db', auths)
  {
    var ready :| Settled(db, job, ready) && (db' == ready || db' == ready.(messageSeq := ready.messageSeq + 1));
    SettledSound(db, job, ready, auths);
    BurnedAssigns(ready);
    if db' != ready {
      NothingAssigned(ready, db', auths, auths);
    }
  }

  lemma IndexSound(db: MailDb, d: Delivery, folder: string, uidValidity: nat, db': MailDb, o: Outcome, auths: Auths)
    requires Sound(db, auths) && HasId(d) && Handles(db, d, folder, uidValidity, db', o)
    ensures Sound(db', auths)
  {
    IndexAttributed(db, d, folder, uidValidity, db', o);
    HandlingEnds(db, d, folder, uidValidity, db', o);
    if db' != db {
      var job :| Fresh(db, d, folder, uidValidity, job) && Ended(db, job, db', o);
      if o.Failed? {
        LeftAloneSound(db, job, db', auths);
      } else {
        var ready, t :| Took(db, job, t, ready, db');
        TookSound(db, d, folder, uidValidity, job, t, ready, db', auths);
      }
    }
  }

  // ---------- authorizing ----------

  lemma AuthorizedThread(db: MailDb, g: string, email: string, t: nat, auths: Auths)
    requires AddGranteeEmail(db, g, email).Ok? && (EmailKey(email), g) in auths
    requires Assigned(AddGranteeEmail(db, g, email).value, t) && !Assigned(db, t)
    ensures var after := AddGranteeEmail(db, g, email).value;
      after.threads[t].grantee == Some(g) && HoldsMapped(after, t) && Witness(after, t, g, auths)
  {
    var key := EmailKey(email);
    var after := AddGranteeEmail(db, g, email).value;
    assert HoldsSender(db.messages, t, key);
    var m :| m in db.messages && db.messages[m].thread == t && Lower(db.messages[m].from) == key;
    assert m in after.messages && after.messages[m].thread == t && after.messages[m].from == db.messages[m].from;
  }

  lemma AuthorizedMessage(db: MailDb, g: string, email: string, m: nat, auths: Auths)
    requires Assignments(db) && AddGranteeEmail(db, g, email).Ok? && (EmailKey(email), g) in auths
    requires m in db.messages && db.messages[m].grantee.None?
    requires AddGranteeEmail(db, g, email).value.messages[m].grantee.Some?
    ensures var after := AddGranteeEmail(db, g, email).value;
      Witness(after, after.messages[m].thread, after.messages[m].grantee.value, auths)
  {
    var after := AddGranteeEmail(db, g, email).value;
    var t := db.messages[m].thread;
    assert after.messages[m].thread == t && after.messages[m].grantee == Some(g);
    assert Assigned(after, t) && !Assigned(db, t);
    AuthorizedThread(db, g, email, t, auths);
  }

  lemma AuthorizeAddsWitnessed(db: MailDb, g: string, email: string, auths: Auths)
    requires Assignments(db) && AddGranteeEmail(db, g, email).Ok? && (EmailKey(email), g) in auths
    ensures AddsWitnessed(db, AddGranteeEmail(db, g, email).value, auths)
  {
    var after := AddGranteeEmail(db, g, email).value;
    AddGranteeEmailGrows(db, g, email);
    forall t | Assigned(after, t) && !Assigned(db, t)
      ensures HoldsMapped(after, t) && Witness(after, t, after.threads[t].grantee.value, auths)
    {
      AuthorizedThread(db, g, email, t, auths);
    }
    forall m | HasGrantee(after, m) && !HasGrantee(db, m)
      ensures Witness(after, after.messages[m].thread, after.messages[m].grantee.value, auths)
    {
      AuthorizedMessage(db, g, email, m, auths);
    }
  }

  lemma AuthorizeSound(db: MailDb, g: string, email: string, auths: Auths)
    requires Sound(db, auths) && AddGranteeEmail(db, g, email).Ok?
    ensures var db' := AddGranteeEmail(db, g, email).value;
      AssignedOnlyIfMapped(db') && Witnessed(db', auths + {(EmailKey(email), g)})
  {
    var auths' := auths + {(EmailKey(email), g)};
    AuthorizeAddsWitnessed(db, g, email, auths');
    AddingKeeps(db, AddGranteeEmail(db, g, email).value, auths, auths');
  }

  /** The mapping an authorization enters, if it goes through. */
  function AuthOf(db: MailDb, op: Op): Auths {
    if op.Authorize? && AddGranteeEmail(db, op.g, op.email).Ok? then {(EmailKey(op.email), op.g)} else {}
  }

  lemma EnsureGranteeAssigns(db: MailDb, g: string, displayName: string)
    requires EnsureGrantee(db, g, displayName).Ok?
    ensures var db' := EnsureGrantee(db, g, displayName).value;
      Grows(db, db') && forall t :: Assigned(db', t) ==> Assigned(db, t)
  {
  }

  lemma OpSound(db: MailDb, op: Op, db': MailDb, auths: Auths)
    requires Sound(db, auths) && OrderlyOp(op) && OpStep(db, op, db')
    ensures Sound(db', auths + AuthOf(db, op))
  {
    var auths' := auths + AuthOf(db, op);
    OpAttributed(db, op, db');
    match op
    case Index(folder, d, v) =>
      var o :| Handles(db, d, folder, v, db', o);
      IndexSound(db, d, folder, v, db', o, auths);
      assert auths' == auths;
    case AddGrantee(g, name) =>
      if g != "" {
        EnsureGranteeAssigns(db, g, name);
      }
      NothingAssigned(db, db', auths, auths');
    case Authorize(g, email) =>
      if AddGranteeEmail(db, g, email).Ok? {
        AuthorizeSound(db, g, email, auths);
      } else {
        NothingAssigned(db, db', auths, auths');
      }
  }

  /** The mappings entered by the first n operations of a run. */
  function AuthsOf(dbs: seq<MailDb>, ops: seq<Op>, n: nat): Auths
    requires n <= |ops| && n < |dbs|
  {
    if n == 0 then {} else AuthsOf(dbs, ops, n - 1) + AuthOf(dbs[n - 1], ops[n - 1])
  }

  lemma NothingIsSound()
    ensures Sound(EMPTY_DB, {})
  {
  }

  lemma {:induction false} RunSound(dbs: seq<MailDb>, ops: seq<Op>, n: nat)
    requires OrderlyRun(dbs, ops) && n <= |ops|
    ensures Sound(dbs[n], AuthsOf(dbs, ops, n))
  {
    hide Sound, OpStep, OrderlyOp;
    if n == 0 {
      NothingIsSound();
    } else {
      RunSound(dbs, ops, n - 1);
      OpSound(dbs[n - 1], ops[n - 1], dbs[n], AuthsOf(dbs, ops, n - 1));
    }
  }

  /**
   At every point of an orderly run a thread is assigned exactly when it holds a message from an authorized address.
   */
  lemma AssignedIffHoldsMapped(dbs: seq<MailDb>, ops: seq<Op>, n: nat, t: nat)
    requires OrderlyRun(dbs, ops) && n <= |ops| && t in dbs[n].threads
    ensures dbs[n].threads[t].grantee.Some? <==> HoldsMapped(dbs[n], t)
  {
    RunSound(dbs, ops, n);
    assert Assigned(dbs[n], t) <==> dbs[n].threads[t].grantee.Some?;
  }

  // ---------- two orders of the same operations ----------

  /** The message has a body, and it parses. */
  ghost predicate Readable(d: Delivery) {
    !d.bodyEmpty && d.parsed.Some?
  }

  /** op delivers a readable message with this id and sender. */
  ghost predicate Delivers(op: Op, id: string, from: string) {
    op.Index? && Readable(op.d) && op.d.parsed.value.messageId == id && op.d.parsed.value.from == from
  }

  /** Deliveries that share a Message-ID are copies of one message. */
  ghost predicate OneSenderPerId(ops: seq<Op>) {
    forall i, j, id, f, g :: 0 <= i < |ops| && 0 <= j < |ops| && Delivers(ops[i], id, f) && Delivers(ops[j], id, g) ==>
            f == g
  }

  /**
   Authorizations go through, and readable messages are indexed; one that cannot be read may fail, as it does in any
   order.
   */
  ghost predicate Succeeds(db: MailDb, op: Op, db': MailDb) {
    match op
    case Index(folder, d, v) => Readable(d) ==> Handles(db, d, folder, v, db', Indexed)
    case Authorize(g, email) => AddGranteeEmail(db, g, email).Ok?
    case _ => true
  }

  ghost predicate AllSucceed(dbs: seq<MailDb>, ops: seq<Op>)
    requires |dbs| == |ops| + 1
  {
    forall i :: 0 <= i < |ops| ==> Succeeds(dbs[i], ops[i], dbs[i + 1])
  }

  /** A stored row was delivered by some operation so far. */
  ghost predicate Delivered(ops: seq<Op>, n: nat, msg: Message)
    requires n <= |ops|
  {
    exists i :: 0 <= i < n && Delivers(ops[i], msg.messageId, msg.from)
  }

  /** Row m is in both states, as the same message. */
  ghost predicate SameRow(db: MailDb, db': MailDb, m: nat) {
    && m in db.messages && m in db'.messages
    && db'.messages[m].messageId == db.messages[m].messageId
    && db'.messages[m].from == db.messages[m].from
  }

  lemma AuthorizeKeepsRows(db: MailDb, g: string, email: string)
    requires AddGranteeEmail(db, g, email).Ok?
    ensures forall m :: m in AddGranteeEmail(db, g, email).value.messages ==>
            SameRow(db, AddGranteeEmail(db, g, email).value, m)
  {
  }

  lemma SetThreadGranteeKeepsRows(db: MailDb, t: nat, g: string)
    ensures forall m :: m in SetThreadGrantee(db, t, g).messages ==> SameRow(db, SetThreadGrantee(db, t, g), m)
    ensures forall m :: m in db.messages ==> SameRow(db, SetThreadGrantee(db, t, g), m)
    ensures SetThreadGrantee(db, t, g).emails == db.emails
  {
  }

  /** The rows after the promotion and the touch are the rows after the insert. */
  lemma TouchedRows(ready: MailDb, job: Job, t: nat)
    requires t in ready.threads
    ensures var mid, after := WithRow(ready, job, t), WithTouch(ready, job, t);
      && after.emails == ready.emails
      && (forall m :: m in after.messages ==> SameRow(mid, after, m))
      && (forall m :: m in mid.messages ==> SameRow(mid, after, m))
  {
    var g := SenderGrantee(ready, job);
    if g.Some? {
      SetThreadGranteeKeepsRows(WithRow(ready, job, t), t, g.value);
    }
  }

  lemma InsertedRow(db: MailDb, after: MailDb, row: Message, m: nat)
    requires AddsRow(db, after, row) && m in after.messages
    ensures SameRow(db, after, m) || after.messages[m] == row
  {
  }

  lemma SettledRow(db: MailDb, job: Job, ready: MailDb, db': MailDb, m: nat)
    requires Settled(db, job, ready) && SameRow(ready, db', m)
    ensures SameRow(db, db', m)
  {
  }

  lemma TookRows(db: MailDb, job: Job, t: nat, ready: MailDb, db': MailDb, m: nat)
    requires MessageKeys(ready) && Took(db, job, t, ready, db') && m in db'.messages
    ensures SameRow(db, db', m) || (db'.messages[m].messageId == job.p.messageId && db'.messages[m].from == job.p.from)
  {
    var mid, row := WithRow(ready, job, t), job.Row(t, GranteeFor(ready, job, t));
    TouchedRows(ready, job, t);
    assert SameRow(mid, db', m);
    InsertAddsRow(ready, row);
    InsertedRow(ready, mid, row, m);
    if mid.messages[m] != row {
      SettledRow(db, job, ready, db', m);
    }
  }

  lemma EndedRows(db: MailDb, job: Job, db': MailDb, o: Outcome, m: nat)
    requires Attributed(db) && Ended(db, job, db', o) && m in db'.messages
    ensures SameRow(db, db', m) || (db'.messages[m].messageId == job.p.messageId && db'.messages[m].from == job.p.from)
  {
    if o.Indexed? {
      var ready, t :| Took(db, job, t, ready, db');
      SettledAttributed(db, job, ready);
      TookRows(db, job, t, ready, db', m);
    } else {
      var ready :| Settled(db, job, ready) && (db' == ready || db' == ready.(messageSeq := ready.messageSeq + 1));
      SettledRows(db, job, ready);
    }
  }

  /** A message that cannot be read changes nothing. */
  lemma UnreadableChangesNothing(db: MailDb, d: Delivery, folder: string, v: nat, db': MailDb, o: Outcome)
    requires Schema(db) && Handles(db, d, folder, v, db', o) && !Readable(d)
    ensures db' == db
  {
    HandlingEnds(db, d, folder, v, db', o);
    if d.bodyEmpty {
      var trace: seq<(MailDb, Pc)> :| RunsAlone(trace) && trace[0] == (db, Begin(d, folder, v))
          && Last(trace) == (db', Done(o));
      assert |trace| > 1 ==> Step(trace[0].0, trace[0].1, trace[0 + 1].0, trace[0 + 1].1);
    }
  }

  lemma IndexRows(db: MailDb, d: Delivery, folder: string, v: nat, db': MailDb, o: Outcome, m: nat)
    requires Attributed(db) && Handles(db, d, folder, v, db', o) && m in db'.messages
    ensures SameRow(db, db', m) || Delivers(Index(folder, d, v), db'.messages[m].messageId, db'.messages[m].from)
  {
    if !Readable(d) {
      UnreadableChangesNothing(db, d, folder, v, db', o);
    } else {
      HandlingEnds(db, d, folder, v, db', o);
      if db' != db {
        var job :| Fresh(db, d, folder, v, job) && Ended(db, job, db', o);
        EndedRows(db, job, db', o, m);
      }
    }
  }

  lemma NewRowsComeFromDelivery(db: MailDb, op: Op, db': MailDb, m: nat)
    requires Attributed(db) && OpStep(db, op, db') && m in db'.messages
    ensures SameRow(db, db', m) || Delivers(op, db'.messages[m].messageId, db'.messages[m].from)
  {
    match op
    case Index(folder, d, v) =>
      var o :| Handles(db, d, folder, v, db', o);
      IndexRows(db, d, folder, v, db', o, m);
    case Authorize(g, email) =>
      if AddGranteeEmail(db, g, email).Ok? {
        AuthorizeKeepsRows(db, g, email);
      }
    case _ =>
  }

  lemma {:induction false} RowsWereDelivered(dbs: seq<MailDb>, ops: seq<Op>, n: nat, m: nat)
    requires SerialRun(dbs, ops) && n <= |ops| && m in dbs[n].messages
    ensures Delivered(ops, n, dbs[n].messages[m])
  {
    RunAttributed(dbs, ops, n - 1);
    var row := dbs[n].messages[m];
    NewRowsComeFromDelivery(dbs[n - 1], ops[n - 1], dbs[n], m);
    if SameRow(dbs[n - 1], dbs[n], m) {
      RowsWereDelivered(dbs, ops, n - 1, m);
      var i :| 0 <= i < n - 1 && Delivers(ops[i], row.messageId, row.from);
    } else {
      assert Delivers(ops[n - 1], row.messageId, row.from);
    }
  }

  lemma IndexedIsStored(db: MailDb, op: Op, db': MailDb)
    requires Attributed(db) && op.Index? && HasId(op.d) && Readable(op.d) && Succeeds(db, op, db')
    ensures HasMessage(db', op.d.parsed.value.messageId)
  {
    HandlingEnds(db, op.d, op.folder, op.uidValidity, db', Indexed);
    if !(db' == db && HasMessage(db, op.d.envelopeId)) {
      var job :| Fresh(db, op.d, op.folder, op.uidValidity, job) && Ended(db, job, db', Indexed);
      var ready, t :| Took(db, job, t, ready, db');
      SettledAttributed(db, job, ready);
      var row := job.Row(t, GranteeFor(ready, job, t));
      InsertMessageGrows(ready, row);
      TouchedRows(ready, job, t);
      var m :| m in WithRow(ready, job, t).messages && WithRow(ready, job, t).messages[m].messageId == job.p.messageId;
      assert SameRow(WithRow(ready, job, t), db', m);
    }
  }

  /** Every readable message of a successful run is stored at its end. */
  lemma DeliveredIsStored(dbs: seq<MailDb>, ops: seq<Op>, i: nat)
    requires OrderlyRun(dbs, ops) && AllSucceed(dbs, ops) && i < |ops| && ops[i].Index? && Readable(ops[i].d)
    ensures HasMessage(dbs[|ops|], ops[i].d.parsed.value.messageId)
  {
    RunAttributed(dbs, ops, i);
    IndexedIsStored(dbs[i], ops[i], dbs[i + 1]);
    GranteeNeverChanges(dbs, ops, i + 1, |ops|);
    HasMessageGrows(dbs[i + 1], dbs[|ops|], ops[i].d.parsed.value.messageId);
  }

  ghost predicate AuthorizedBy(ops: seq<Op>, n: nat, key: string)
    requires n <= |ops|
  {
    exists i :: 0 <= i < n && ops[i].Authorize? && EmailKey(ops[i].email) == key
  }

  lemma AuthorizedByNext(ops: seq<Op>, n: nat, key: string)
    requires n < |ops|
    ensures AuthorizedBy(ops, n + 1, key) <==>
            AuthorizedBy(ops, n, key) || (ops[n].Authorize? && EmailKey(ops[n].email) == key)
  {
  }

  lemma EndedKeepsEmails(db: MailDb, job: Job, db': MailDb)
    requires Schema(db) && Ended(db, job, db', Indexed)
    ensures db'.emails == db.emails
  {
    var ready, t :| Took(db, job, t, ready, db');
    SettledRows(db, job, ready);
    TouchedRows(ready, job, t);
  }

  lemma IndexKeepsEmails(db: MailDb, d: Delivery, folder: string, v: nat, db': MailDb)
    requires Schema(db) && Handles(db, d, folder, v, db', Indexed)
    ensures db'.emails == db.emails
  {
    HandlingEnds(db, d, folder, v, db', Indexed);
    if db' != db {
      var job :| Fresh(db, d, folder, v, job) && Ended(db, job, db', Indexed);
      EndedKeepsEmails(db, job, db');
    }
  }

  lemma AuthorizedKeys(db: MailDb, g: string, email: string)
    requires AddGranteeEmail(db, g, email).Ok?
    ensures AddGranteeEmail(db, g, email).value.emails.Keys == db.emails.Keys + {EmailKey(email)}
  {
  }

  lemma EmailsOfOp(db: MailDb, op: Op, db': MailDb)
    requires Schema(db) && OrderlyOp(op) && OpStep(db, op, db') && Succeeds(db, op, db')
    ensures db'.emails.Keys == db.emails.Keys + if op.Authorize? then {EmailKey(op.email)} else {}
  {
    match op
    case Index(folder, d, v) =>
      if Readable(d) {
        IndexKeepsEmails(db, d, folder, v, db');
      } else {
        var o :| Handles(db, d, folder, v, db', o);
        UnreadableChangesNothing(db, d, folder, v, db', o);
      }
    case Authorize(g, email) => AuthorizedKeys(db, g, email);
    case AddGrantee(_, _) =>
  }

  lemma {:induction false} EmailsOfRun(dbs: seq<MailDb>, ops: seq<Op>, n: nat, key: string)
    requires OrderlyRun(dbs, ops) && AllSucceed(dbs, ops) && n <= |ops|
    ensures key in dbs[n].emails.Keys <==> AuthorizedBy(ops, n, key)
  {
    if n > 0 {
      EmailsOfRun(dbs, ops, n - 1, key);
      RunAttributed(dbs, ops, n - 1);
      EmailsOfNext(dbs[n - 1], ops, n - 1, dbs[n], key);
    }
  }

  lemma EmailsOfNext(db: MailDb, ops: seq<Op>, n: nat, db': MailDb, key: string)
    requires n < |ops|
    requires key in db.emails.Keys <==> AuthorizedBy(ops, n, key)
    requires Schema(db) && OrderlyOp(ops[n]) && OpStep(db, ops[n], db') && Succeeds(db, ops[n], db')
    ensures key in db'.emails.Keys <==> AuthorizedBy(ops, n + 1, key)
  {
    EmailsOfOp(db, ops[n], db');
    AuthorizedByNext(ops, n, key);
  }

  /** The two runs put messages with the same id into threads with the same root. */
  ghost predicate SamePlacement(a: MailDb, b: MailDb) {
    forall m, n :: m in a.messages && n in b.messages && a.messages[m].messageId == b.messages[n].messageId
                   && a.messages[m].thread in a.threads && b.messages[n].thread in b.threads ==>
      a.threads[a.messages[m].thread].root == b.threads[b.messages[n].thread].root
  }

  lemma SameOperations(ops1: seq<Op>, ops2: seq<Op>, i: nat)
    requires multiset(ops1) == multiset(ops2) && i < |ops1|
    ensures exists j :: 0 <= j < |ops2| && ops2[j] == ops1[i]
  {
    assert ops1[i] in multiset(ops1);
    assert ops1[i] in multiset(ops2);
  }

  /** What a mapped message is in one run it is in the other, in a thread with the same root. */
  lemma MappedInBoth(dbs1: seq<MailDb>, ops1: seq<Op>, dbs2: seq<MailDb>, ops2: seq<Op>, t1: nat) returns (t2: nat)
    requires OrderlyRun(dbs1, ops1) && OrderlyRun(dbs2, ops2)
    requires AllSucceed(dbs1, ops1) && AllSucceed(dbs2, ops2)
    requires multiset(ops1) == multiset(ops2) && OneSenderPerId(ops2)
    requires var a := dbs1[|ops1|]; SamePlacement(a, dbs2[|ops2|]) && t1 in a.threads && HoldsMapped(a, t1)
    ensures var a, b := dbs1[|ops1|], dbs2[|ops2|];
      t2 in b.threads && b.threads[t2].root == a.threads[t1].root && HoldsMapped(b, t2)
  {
    var a, b := dbs1[|ops1|], dbs2[|ops2|];
    var m :| m in a.messages && a.messages[m].thread == t1 && Lower(a.messages[m].from) in a.emails;
    var id, from, key := a.messages[m].messageId, a.messages[m].from, Lower(a.messages[m].from);
    RowsWereDelivered(dbs1, ops1, |ops1|, m);
    var i :| 0 <= i < |ops1| && Delivers(ops1[i], id, from);
    SameOperations(ops1, ops2, i);
    var j :| 0 <= j < |ops2| && ops2[j] == ops1[i];
    DeliveredIsStored(dbs2, ops2, j);
    var n :| n in b.messages && b.messages[n].messageId == id;
    RowsWereDelivered(dbs2, ops2, |ops2|, n);
    var j' :| 0 <= j' < |ops2| && Delivers(ops2[j'], id, b.messages[n].from);
    assert b.messages[n].from == from;
    EmailsOfRun(dbs1, ops1, |ops1|, key);
    var k :| 0 <= k < |ops1| && ops1[k].Authorize? && EmailKey(ops1[k].email) == key;
    SameOperations(ops1, ops2, k);
    EmailsOfRun(dbs2, ops2, |ops2|, key);
    RunAttributed(dbs1, ops1, |ops1|);
    RunAttributed(dbs2, ops2, |ops2|);
    t2 := b.messages[n].thread;
  }

  /** The roots of the assigned threads. */
  function AssignedRoots(db: MailDb): set<string> {
    set t | t in db.threads && db.threads[t].grantee.Some? :: db.threads[t].root
  }

  lemma AssignedInOther(dbs1: seq<MailDb>, ops1: seq<Op>, dbs2: seq<MailDb>, ops2: seq<Op>, root: string)
    requires OrderlyRun(dbs1, ops1) && OrderlyRun(dbs2, ops2)
    requires AllSucceed(dbs1, ops1) && AllSucceed(dbs2, ops2)
    requires multiset(ops1) == multiset(ops2) && OneSenderPerId(ops2)
    requires SamePlacement(dbs1[|ops1|], dbs2[|ops2|]) && root in AssignedRoots(dbs1[|ops1|])
    ensures root in AssignedRoots(dbs2[|ops2|])
  {
    var a := dbs1[|ops1|];
    var t1 :| t1 in a.threads && a.threads[t1].grantee.Some? && a.threads[t1].root == root;
    AssignedIffHoldsMapped(dbs1, ops1, |ops1|, t1);
    var t2 := MappedInBoth(dbs1, ops1, dbs2, ops2, t1);
    AssignedIffHoldsMapped(dbs2, ops2, |ops2|, t2);
  }

  lemma SamePlacementSymmetric(a: MailDb, b: MailDb)
    requires SamePlacement(a, b)
    ensures SamePlacement(b, a)
  {
  }

  lemma OneSenderReordered(ops1: seq<Op>, ops2: seq<Op>)
    requires multiset(ops1) == multiset(ops2) && OneSenderPerId(ops1)
    ensures OneSenderPerId(ops2)
  {
    forall i, j, id, f, g | 0 <= i < |ops2| && 0 <= j < |ops2| && Delivers(ops2[i], id, f) && Delivers(ops2[j], id, g)
      ensures f == g
    {
      SameOperations(ops2, ops1, i);
      SameOperations(ops2, ops1, j);
    }
  }

  /**
   Order independence. Two runs of the same operations in different orders, in which all readable messages
   are indexed and which place messages in the same threads, leave the same threads assigned: the roots of the
   assigned threads are the same.
   */
  lemma AssignmentIsOrderIndependent(dbs1: seq<MailDb>, ops1: seq<Op>, dbs2: seq<MailDb>, ops2: seq<Op>)
    requires OrderlyRun(dbs1, ops1) && OrderlyRun(dbs2, ops2)
    requires AllSucceed(dbs1, ops1) && AllSucceed(dbs2, ops2)
    requires multiset(ops1) == multiset(ops2) && OneSenderPerId(ops1)
    requires SamePlacement(dbs1[|ops1|], dbs2[|ops2|])
    ensures AssignedRoots(dbs1[|ops1|]) == AssignedRoots(dbs2[|ops2|])
  {
    OneSenderReordered(ops1, ops2);
    SamePlacementSymmetric(dbs1[|ops1|], dbs2[|ops2|]);
    forall root
      ensures root in AssignedRoots(dbs1[|ops1|]) <==> root in AssignedRoots(dbs2[|ops2|])
    {
      if root in AssignedRoots(dbs1[|ops1|]) {
        AssignedInOther(dbs1, ops1, dbs2, ops2, root);
      }
      if root in AssignedRoots(dbs2[|ops2|]) {
        AssignedInOther(dbs2, ops2, dbs1, ops1, root);
      }
    }
  }

  // ---------- threads whose senders agree ----------

  /** Every mapping ever entered for an address that wrote in thread t names g. */
  ghost predicate SendersShare(db: MailDb, t: nat, auths: Auths, g: string) {
    forall m, h :: m in db.messages && db.messages[m].thread == t && (Lower(db.messages[m].from), h) in auths ==> h == g
  }

  /**
   If the authorized senders of a thread share one grantee that was never remapped, then in whatever
   order things happened the thread and all its messages carry that grantee as soon as one of them is known.
   */
  lemma SharedGranteeCarried(dbs: seq<MailDb>, ops: seq<Op>, t: nat, g: string)
    requires OrderlyRun(dbs, ops) && t in dbs[|ops|].threads
    requires SendersShare(dbs[|ops|], t, AuthsOf(dbs, ops, |ops|), g) && HoldsMapped(dbs[|ops|], t)
    ensures dbs[|ops|].threads[t].grantee == Some(g)
    ensures forall m :: m in dbs[|ops|].messages && dbs[|ops|].messages[m].thread == t ==>
            dbs[|ops|].messages[m].grantee == Some(g)
  {
    var db := dbs[|ops|];
    RunSound(dbs, ops, |ops|);
    assert Assigned(db, t);
    assert Witness(db, t, db.threads[t].grantee.value, AuthsOf(dbs, ops, |ops|));
    forall m | m in db.messages && db.messages[m].thread == t
      ensures db.messages[m].grantee == Some(g)
    {
      assert Witness(db, t, db.messages[m].grantee.value, AuthsOf(dbs, ops, |ops|));
    }
  }
}
