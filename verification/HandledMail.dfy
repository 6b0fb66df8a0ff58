/**
 What one undisturbed handling of a message does to the tables, in closed form: open a thread or
 not, then store the row, promote and touch the thread, or leave the rows alone.
 */
module HandledMail {
  import opened Wrappers
  import opened MailTables
  import opened Ingest
  import opened Parse

  /** No thread is rooted at a candidate, and no stored message is one. */
  ghost predicate Unplaced(db: MailDb, job: Job) {
    (forall u :: !RootMatch(db, job.cands, u)) && forall u :: !MemberMatch(db, job.cands, u)
  }

  /** The tables once the thread is settled: as before, or with the one thread that the job founds. */
  ghost predicate Settled(db: MailDb, job: Job, ready: MailDb) {
    ready == db || (Unplaced(db, job) && ready == CreateThread(db, job.root, job.p.subject, job.p.date).0)
  }

  /** t is the thread for the job: one rooted at a candidate, else a candidate's, else the one of the job's root. */
  ghost predicate Chosen(db: MailDb, job: Job, ready: MailDb, t: nat) {
    || (ready == db && RootMatch(db, job.cands, t))
    || (ready == db && (forall u :: !RootMatch(db, job.cands, u)) && MemberMatch(db, job.cands, t))
    || (Unplaced(db, job) && ready == CreateThread(db, job.root, job.p.subject, job.p.date).0
        && t in ready.threads && ready.threads[t].root == job.root)
  }

  /** The slot of the job is taken, by another message. */
  ghost predicate Refused(db: MailDb, job: Job) {
    !HasMessage(db, job.p.messageId) && SlotTaken(db, job.Row(0, None))
  }

  function SenderGrantee(db: MailDb, job: Job): Option<string> {
    if job.p.from == "" then None else LookupGrantee(db, job.p.from)
  }

  /** Sender first, then thread. */
  function GranteeFor(db: MailDb, job: Job, t: nat): Option<string>
    requires t in db.threads
  {
    var g := SenderGrantee(db, job);
    if g.Some? then g else db.threads[t].grantee
  }

  function WithRow(db: MailDb, job: Job, t: nat): MailDb
    requires t in db.threads
  {
    InsertMessage(db, job.Row(t, GranteeFor(db, job, t))).0
  }

  predicate Accepted(db: MailDb, job: Job, t: nat)
    requires t in db.threads
  {
    InsertMessage(db, job.Row(t, GranteeFor(db, job, t))).1 != SlotConflict
  }

  function WithPromotion(db: MailDb, job: Job, t: nat): MailDb
    requires t in db.threads
  {
    var g := SenderGrantee(db, job);
    if g.Some? then SetThreadGrantee(WithRow(db, job, t), t, g.value) else WithRow(db, job, t)
  }

  function WithTouch(db: MailDb, job: Job, t: nat): MailDb
    requires t in db.threads
  {
    TouchThread(WithPromotion(db, job, t), t, job.p.date)
  }

  ghost predicate LeftAlone(db: MailDb, job: Job, db': MailDb) {
    exists ready :: Settled(db, job, ready) && (db' == ready || db' == ready.(messageSeq := ready.messageSeq + 1))
  }

  ghost predicate Took(db: MailDb, job: Job, t: nat, ready: MailDb, db': MailDb) {
    && Settled(db, job, ready) && Chosen(db, job, ready, t) && !Refused(db, job)
    && t in ready.threads && Accepted(ready, job, t) && db' == WithTouch(ready, job, t)
  }

  /** The thread is found, and no row is stored yet. */
  ghost predicate Placed(db0: MailDb, d: Delivery, folder: string, v: nat, job: Job, db: MailDb, t: nat) {
    Fresh(db0, d, folder, v, job) && Settled(db0, job, db) && Chosen(db0, job, db, t) && t in db.threads
  }

  /** How far an undisturbed handling from db0 has come at (db, pc). */
  ghost predicate Reached(db0: MailDb, d: Delivery, folder: string, v: nat, db: MailDb, pc: Pc) {
    match pc
    case CheckExists(d', f, u) => d' == d && f == folder && u == v && !d.bodyEmpty && db == db0 && d.envelopeId != ""
    case FindRoot(job) => Fresh(db0, d, folder, v, job) && db == db0
    case FindMember(job) => Fresh(db0, d, folder, v, job) && db == db0 && forall u :: !RootMatch(db, job.cands, u)
    case Create(job) => Fresh(db0, d, folder, v, job) && db == db0 && Unplaced(db0, job)
    case RefindRoot(job) =>
      && Fresh(db0, d, folder, v, job) && Unplaced(db0, job) && RootTaken(db0, job.root)
      && db == CreateThread(db0, job.root, job.p.subject, job.p.date).0
    case RefindMember(job) => false
    case LookupSender(job, t) => Placed(db0, d, folder, v, job, db, t)
    case InheritThread(job, t) => Placed(db0, d, folder, v, job, db, t) && SenderGrantee(db, job).None?
    case Insert(job, t, grantee, fromSender) =>
      && Placed(db0, d, folder, v, job, db, t)
      && grantee == GranteeFor(db, job, t) && fromSender == SenderGrantee(db, job).Some?
    case Promote(job, t, g) => ToPromote(db0, d, folder, v, job, t, g, db)
    case Touch(job, t) => Promoted(db0, d, folder, v, job, t, db)
    case Done(o) => (db == db0 && Unread(db0, d, o)) || Finished(db0, d, folder, v, db, o)
  }

  /** The row goes in. */
  ghost predicate Stored(db0: MailDb, d: Delivery, folder: string, v: nat, job: Job, ready: MailDb, t: nat) {
    Placed(db0, d, folder, v, job, ready, t) && !Refused(db0, job) && Accepted(ready, job, t)
  }

  ghost predicate ToPromote(db0: MailDb, d: Delivery, folder: string, v: nat, job: Job, t: nat, g: string, db: MailDb) {
    exists ready :: Stored(db0, d, folder, v, job, ready, t)
                     && SenderGrantee(ready, job) == Some(g) && db == WithRow(ready, job, t)
  }

  ghost predicate Promoted(db0: MailDb, d: Delivery, folder: string, v: nat, job: Job, t: nat, db: MailDb) {
    exists ready :: Stored(db0, d, folder, v, job, ready, t) && db == WithPromotion(ready, job, t)
  }

  /** The handling of some job of d's ended so. */
  ghost predicate Finished(db0: MailDb, d: Delivery, folder: string, v: nat, db: MailDb, o: Outcome) {
    exists job :: Fresh(db0, d, folder, v, job) && Ended(db0, job, db, o)
  }

  /** The envelope names a stored message. */
  ghost predicate Known(db0: MailDb, d: Delivery) {
    d.envelopeId != "" && HasMessage(db0, d.envelopeId)
  }

  /** The job is d's, and d was not found by its envelope's Message-ID. */
  ghost predicate Fresh(db0: MailDb, d: Delivery, folder: string, v: nat, job: Job) {
    && !d.bodyEmpty && !Known(db0, d) && d.parsed == Some(job.p)
    && job == JobFor(job.p, folder, d.uid, v)
  }

  /** How d ends that never gets as far as the thread lookup. */
  ghost predicate Unread(db0: MailDb, d: Delivery, o: Outcome) {
    if d.bodyEmpty then o == Failed(EmptyBody)
    else if Known(db0, d) then o == Indexed
    else d.parsed.None? && o == Failed(Unparsable)
  }

  ghost predicate Ended(db0: MailDb, job: Job, db: MailDb, o: Outcome) {
    if o.Failed? then o == Failed(InsertRejected) && Refused(db0, job) && LeftAlone(db0, job, db)
    else exists ready, t :: Took(db0, job, t, ready, db)
  }

  lemma CheckReaches(db0: MailDb, d: Delivery, folder: string, v: nat, db: MailDb, pc: Pc, db': MailDb,
      pc': Pc)
    requires Reached(db0, d, folder, v, db, pc) && Step(db, pc, db', pc') && pc.CheckExists?
    ensures Reached(db0, d, folder, v, db', pc')
  {
    hide HasMessage, Finished, Candidates, RootFor;
  }

  lemma FindReaches(db0: MailDb, d: Delivery, folder: string, v: nat, db: MailDb, pc: Pc, db': MailDb,
      pc': Pc)
    requires Schema(db0) && Reached(db0, d, folder, v, db, pc) && Step(db, pc, db', pc')
    requires pc.FindRoot? || pc.FindMember?
    ensures Reached(db0, d, folder, v, db', pc')
  {
    assert ForeignKeys(db0);
    hide ThreadKeys, MessageKeys, Finished, HasMessage, CreateThread, Candidates, RootFor;
  }

  lemma CreateReaches(db0: MailDb, d: Delivery, folder: string, v: nat, db: MailDb, pc: Pc, db': MailDb,
      pc': Pc)
    requires Reached(db0, d, folder, v, db, pc) && Step(db, pc, db', pc') && pc.Create?
    ensures Reached(db0, d, folder, v, db', pc')
  {
    hide Unplaced, HasMessage, Finished, Candidates, RootFor;
  }

  /** The second lookup by root finds the thread that was in the way. */
  lemma RefindReaches(db0: MailDb, d: Delivery, folder: string, v: nat, db: MailDb, pc: Pc, db': MailDb,
      pc': Pc)
    requires Reached(db0, d, folder, v, db, pc) && Step(db, pc, db', pc') && pc.RefindRoot?
    ensures Reached(db0, d, folder, v, db', pc')
  {
    var t :| t in db0.threads && db0.threads[t].root == pc.job.root;
    assert RootMatch(db, [pc.job.root], t);
    hide Unplaced, HasMessage, Finished, Candidates, RootFor;
  }

  lemma SenderReaches(db0: MailDb, d: Delivery, folder: string, v: nat, db: MailDb, pc: Pc, db': MailDb,
      pc': Pc)
    requires Reached(db0, d, folder, v, db, pc) && Step(db, pc, db', pc')
    requires pc.LookupSender? || pc.InheritThread?
    ensures Reached(db0, d, folder, v, db', pc')
  {
    hide Chosen, Settled, Fresh, Finished, Stored;
  }

  /** The insert is refused exactly if the slot was taken at the start. */
  lemma RefusedIff(db0: MailDb, job: Job, ready: MailDb, t: nat)
    requires Settled(db0, job, ready) && t in ready.threads
    ensures Refused(db0, job) <==> !Accepted(ready, job, t)
  {
    assert ready.messages == db0.messages;
    var row := job.Row(t, GranteeFor(ready, job, t));
    assert forall m :: m in db0.messages ==>
        (SameSlot(db0.messages[m], row) <==> SameSlot(db0.messages[m], job.Row(0, None)));
  }

  lemma InsertEnds(db0: MailDb, d: Delivery, folder: string, v: nat, job: Job, ready: MailDb, t: nat)
    requires Placed(db0, d, folder, v, job, ready, t)
    ensures var (after, r) := InsertMessage(ready, job.Row(t, GranteeFor(ready, job, t)));
            if r == SlotConflict then Finished(db0, d, folder, v, after, Failed(InsertRejected))
            else Stored(db0, d, folder, v, job, ready, t) && after == WithRow(ready, job, t)
  {
    RefusedIff(db0, job, ready, t);
    hide Refused, Settled, Chosen, Fresh, InsertMessage, GranteeFor;
    if Refused(db0, job) {
      assert LeftAlone(db0, job, InsertMessage(ready, job.Row(t, GranteeFor(ready, job, t))).0) by {
        BurnedOnConflict(ready, job.Row(t, GranteeFor(ready, job, t)));
      }
    }
  }

  lemma BurnedOnConflict(db: MailDb, msg: Message)
    requires InsertMessage(db, msg).1 == SlotConflict
    ensures InsertMessage(db, msg).0 == db.(messageSeq := db.messageSeq + 1)
  {
  }

  lemma InsertReaches(db0: MailDb, d: Delivery, folder: string, v: nat, db: MailDb, pc: Pc, db': MailDb,
      pc': Pc)
    requires Reached(db0, d, folder, v, db, pc) && Step(db, pc, db', pc') && pc.Insert?
    ensures Reached(db0, d, folder, v, db', pc')
  {
    hide Stored, Finished, Settled, Chosen, Fresh, Unread, Unplaced, InsertMessage, GranteeFor, SenderGrantee, WithRow;
    InsertEnds(db0, d, folder, v, pc.job, db, pc.t);
    PromotedOrNot(db, pc.job, pc.t);
    hide Placed;
  }

  lemma PromotedOrNot(db: MailDb, job: Job, t: nat)
    requires t in db.threads
    ensures SenderGrantee(db, job).Some? ==> GranteeFor(db, job, t) == SenderGrantee(db, job)
    ensures SenderGrantee(db, job).None? ==> WithPromotion(db, job, t) == WithRow(db, job, t)
    ensures SenderGrantee(db, job).Some? ==>
      WithPromotion(db, job, t) == SetThreadGrantee(WithRow(db, job, t), t, SenderGrantee(db, job).value)
  {
  }

  lemma PromoteEnds(db0: MailDb, d: Delivery, folder: string, v: nat, job: Job, t: nat, g: string, db: MailDb)
    requires ToPromote(db0, d, folder, v, job, t, g, db)
    ensures Promoted(db0, d, folder, v, job, t, SetThreadGrantee(db, t, g))
  {
    var ready :| Stored(db0, d, folder, v, job, ready, t)
                  && SenderGrantee(ready, job) == Some(g) && db == WithRow(ready, job, t);
    PromotedOrNot(ready, job, t);
    hide Placed, Accepted, SenderGrantee, WithRow, WithPromotion, SetThreadGrantee;
  }

  lemma TouchEnds(db0: MailDb, d: Delivery, folder: string, v: nat, job: Job, t: nat, db: MailDb)
    requires Promoted(db0, d, folder, v, job, t, db)
    ensures Finished(db0, d, folder, v, TouchThread(db, t, job.p.date), Indexed)
  {
    var ready :| Stored(db0, d, folder, v, job, ready, t) && db == WithPromotion(ready, job, t);
    hide Refused, Settled, Chosen, Fresh, Accepted, WithPromotion, TouchThread;
    assert Took(db0, job, t, ready, TouchThread(db, t, job.p.date));
  }

  lemma UpdateReaches(db0: MailDb, d: Delivery, folder: string, v: nat, db: MailDb, pc: Pc, db': MailDb,
      pc': Pc)
    requires Reached(db0, d, folder, v, db, pc) && Step(db, pc, db', pc') && (pc.Promote? || pc.Touch?)
    ensures Reached(db0, d, folder, v, db', pc')
  {
    hide Finished, Unread, Unplaced, Placed, Fresh, ToPromote, Promoted, TouchThread, SetThreadGrantee;
    if pc.Promote? {
      PromoteEnds(db0, d, folder, v, pc.job, pc.t, pc.g, db);
    } else {
      TouchEnds(db0, d, folder, v, pc.job, pc.t, db);
    }
  }

  lemma StepReaches(db0: MailDb, d: Delivery, folder: string, v: nat, db: MailDb, pc: Pc, db': MailDb,
      pc': Pc)
    requires Schema(db0) && Reached(db0, d, folder, v, db, pc) && Step(db, pc, db', pc')
    ensures Reached(db0, d, folder, v, db', pc')
  {
    hide Schema;
    match pc
    case CheckExists(_, _, _) => CheckReaches(db0, d, folder, v, db, pc, db', pc');
    case FindRoot(_) => FindReaches(db0, d, folder, v, db, pc, db', pc');
    case FindMember(_) => FindReaches(db0, d, folder, v, db, pc, db', pc');
    case Create(_) => CreateReaches(db0, d, folder, v, db, pc, db', pc');
    case RefindRoot(_) => RefindReaches(db0, d, folder, v, db, pc, db', pc');
    case RefindMember(_) =>
    case Insert(_, _, _, _) => InsertReaches(db0, d, folder, v, db, pc, db', pc');
    case Promote(_, _, _) => UpdateReaches(db0, d, folder, v, db, pc, db', pc');
    case Touch(_, _) => UpdateReaches(db0, d, folder, v, db, pc, db', pc');
    case _ => SenderReaches(db0, d, folder, v, db, pc, db', pc');
  }

  lemma {:induction false} TraceReaches(db0: MailDb, d: Delivery, folder: string, uidValidity: nat,
      trace: seq<(MailDb, Pc)>, i: nat)
    requires Schema(db0) && RunsAlone(trace) && trace[0] == (db0, Begin(d, folder, uidValidity)) && i < |trace|
    ensures Reached(db0, d, folder, uidValidity, trace[i].0, trace[i].1)
  {
    if i > 0 {
      hide Reached, Schema;
      TraceReaches(db0, d, folder, uidValidity, trace, i - 1);
      assert Step(trace[i - 1].0, trace[i - 1].1, trace[i - 1 + 1].0, trace[i - 1 + 1].1);
      StepReaches(db0, d, folder, uidValidity, trace[i - 1].0, trace[i - 1].1, trace[i].0, trace[i].1);
    }
  }

  /**
   The result of a handling: nothing, a settled thread at most, or the stored row with its thread brought up to date.
   */
  lemma HandlingEnds(db: MailDb, d: Delivery, folder: string, uidValidity: nat, db': MailDb, o: Outcome)
    requires Schema(db) && Handles(db, d, folder, uidValidity, db', o)
    ensures || (db' == db && Unread(db, d, o))
            || exists job :: Fresh(db, d, folder, uidValidity, job) && Ended(db, job, db', o)
  {
    var trace :| RunsAlone(trace) && trace[0] == (db, Begin(d, folder, uidValidity)) && Last(trace) == (db', Done(o));
    TraceReaches(db, d, folder, uidValidity, trace, |trace| - 1);
  }
}
