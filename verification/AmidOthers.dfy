/** One message being indexed while anything else goes on in the mail tables between its statements. */
module AmidOthers {
  import opened Wrappers
  import opened Text
  import Parse
  import opened MailTables
  import opened Ingest

  /** What is done elsewhere between two statements of a worker: other folders' workers, authorizations, revocations. */
  ghost predicate Elsewhere(folder: string, db: MailDb, db': MailDb) {
    Schema(db') && Grows(db, db') && CursorOf(db', folder) == CursorOf(db, folder)
  }

  ghost predicate OwnOrOthers(folder: string, db: MailDb, pc: Pc, db': MailDb, pc': Pc) {
    Step(db, pc, db', pc') || (pc' == pc && Elsewhere(folder, db, db'))
  }

  /** A trace of one worker's statements with others' work in between. */
  ghost predicate RunsAmid(folder: string, trace: seq<(MailDb, Pc)>) {
    && trace != []
    && forall i :: 0 <= i < |trace| - 1 ==> OwnOrOthers(folder, trace[i].0, trace[i].1, trace[i + 1].0, trace[i + 1].1)
  }

  /** Handling d amid others' work can lead from db to db' with outcome o. Any statement may fail, and that ends it. */
  ghost predicate HandlesAmid(db: MailDb, d: Delivery, folder: string, uidValidity: nat, db': MailDb, o: Outcome) {
    exists trace ::
      && RunsAmid(folder, trace)
      && trace[0] == (db, Begin(d, folder, uidValidity))
      && Last(trace).0 == db'
      && (Last(trace).1 == Done(o) || o == Failed(StatementFailed))
  }

  /** Handling without others' work is a special case. */
  lemma AloneIsAmid(db: MailDb, d: Delivery, folder: string, uidValidity: nat, db': MailDb, o: Outcome)
    requires Handles(db, d, folder, uidValidity, db', o)
    ensures HandlesAmid(db, d, folder, uidValidity, db', o)
  {
    var trace :| RunsAlone(trace) && trace[0] == (db, Begin(d, folder, uidValidity)) && Last(trace) == (db', Done(o));
    assert RunsAmid(folder, trace);
  }

  // ---------- what a worker relies on at each statement ----------

  /** The message has a row, under its own Message-ID or the envelope's. */
  ghost predicate Recorded(db: MailDb, d: Delivery) {
    || (d.parsed.Some? && HasMessage(db, d.parsed.value.messageId))
    || (d.envelopeId != "" && HasMessage(db, d.envelopeId))
  }

  lemma RecordedGrows(a: MailDb, b: MailDb, d: Delivery)
    requires Grows(a, b) && Recorded(a, d)
    ensures Recorded(b, d)
  {
    if d.parsed.Some? && HasMessage(a, d.parsed.value.messageId) {
      HasMessageGrows(a, b, d.parsed.value.messageId);
    } else {
      HasMessageGrows(a, b, d.envelopeId);
    }
  }

  ghost predicate JobOf(d: Delivery, job: Job) {
    d.parsed == Some(job.p)
  }

  ghost predicate KnownGrantee(db: MailDb, g: Option<string>) {
    g.Some? ==> g.value in db.grantees
  }

  ghost predicate PcSafe(db: MailDb, d: Delivery, pc: Pc) {
    match pc
    case CheckExists(d', _, _) => d' == d && d.envelopeId != ""
    case FindRoot(job) => JobOf(d, job)
    case FindMember(job) => JobOf(d, job)
    case Create(job) => JobOf(d, job)
    case RefindRoot(job) => JobOf(d, job) && RootTaken(db, job.root)
    case RefindMember(_) => false
    case LookupSender(job, t) => JobOf(d, job) && t in db.threads
    case InheritThread(job, t) => JobOf(d, job) && t in db.threads
    case Insert(job, t, grantee, _) => JobOf(d, job) && t in db.threads && KnownGrantee(db, grantee)
    case Promote(job, t, g) => JobOf(d, job) && g in db.grantees && HasMessage(db, job.p.messageId)
    case Touch(job, _) => JobOf(d, job) && HasMessage(db, job.p.messageId)
    case Done(o) => (o == Indexed ==> Recorded(db, d)) && o != Failed(ThreadCreateRace) && o != Failed(ThreadMissing)
  }

  lemma GrowsSafe(a: MailDb, b: MailDb, d: Delivery, pc: Pc)
    requires Grows(a, b) && PcSafe(a, d, pc)
    ensures PcSafe(b, d, pc)
  {
    match pc
    case RefindRoot(job) =>
      var t :| t in a.threads && a.threads[t].root == job.root;
      assert t in b.threads && b.threads[t].root == job.root;
    case Promote(job, _, _) => HasMessageGrows(a, b, job.p.messageId);
    case Touch(job, _) => HasMessageGrows(a, b, job.p.messageId);
    case Done(o) =>
      if o == Indexed {
        RecordedGrows(a, b, d);
      }
    case _ =>
  }

  /** The statements up to the insert write at most a thread, and lead on with one that exists. */
  lemma CreateSafe(folder: string, db: MailDb, d: Delivery, pc: Pc, db': MailDb, pc': Pc)
    requires Schema(db) && PcSafe(db, d, pc) && Step(db, pc, db', pc') && pc.Create?
    ensures Elsewhere(folder, db, db') && PcSafe(db', d, pc')
  {
    hide MessageKeys, ForeignKeys;
    CreateThreadKeepsSchema(db, pc.job.root, pc.job.p.subject, pc.job.p.date);
    if RootTaken(db, pc.job.root) {
      var t :| t in db.threads && db.threads[t].root == pc.job.root;
      assert t in db'.threads && db'.threads[t].root == pc.job.root;
    }
  }

  lemma SelfElsewhere(folder: string, db: MailDb)
    requires Schema(db)
    ensures Elsewhere(folder, db, db)
  {
  }

  lemma ReadSafe(folder: string, db: MailDb, d: Delivery, pc: Pc, db': MailDb, pc': Pc)
    requires Schema(db) && PcSafe(db, d, pc) && Step(db, pc, db', pc') && pc.Rank() > 3 && !pc.Create?
    ensures Elsewhere(folder, db, db') && PcSafe(db', d, pc')
  {
    SelfElsewhere(folder, db);
    assert ForeignKeys(db);
    if pc.RefindRoot? {
      var t :| t in db.threads && db.threads[t].root == pc.job.root;
      assert RootMatch(db, [pc.job.root], t);
    }
    hide ThreadKeys, MessageKeys, Grows;
  }

  lemma InsertSafe(folder: string, db: MailDb, d: Delivery, pc: Pc, db': MailDb, pc': Pc)
    requires Schema(db) && PcSafe(db, d, pc) && Step(db, pc, db', pc') && pc.Insert?
    ensures Elsewhere(folder, db, db') && PcSafe(db', d, pc')
  {
    hide ForeignKeys, Grows, HasMessage;
    InsertMessageKeepsSchema(db, pc.job.Row(pc.t, pc.grantee));
    InsertMessageGrows(db, pc.job.Row(pc.t, pc.grantee));
  }

  lemma PromoteSafe(folder: string, db: MailDb, d: Delivery, pc: Pc, db': MailDb, pc': Pc)
    requires Schema(db) && PcSafe(db, d, pc) && Step(db, pc, db', pc') && pc.Promote?
    ensures Elsewhere(folder, db, db') && PcSafe(db', d, pc')
  {
    hide ThreadKeys, MessageKeys, Grows;
    SetThreadGranteeKeepsSchema(db, pc.t, pc.g);
    SetThreadGranteeGrows(db, pc.t, pc.g);
    HasMessageGrows(db, db', pc.job.p.messageId);
  }

  lemma TouchSafe(folder: string, db: MailDb, d: Delivery, pc: Pc, db': MailDb, pc': Pc)
    requires Schema(db) && PcSafe(db, d, pc) && Step(db, pc, db', pc') && pc.Touch?
    ensures Elsewhere(folder, db, db') && PcSafe(db', d, pc')
  {
    TouchKeepsSchema(db, pc.t, pc.job.p.date);
    TouchThreadGrows(db, pc.t, pc.job.p.date);
    HasMessageGrows(db, db', pc.job.p.messageId);
  }

  lemma TurnSafe(folder: string, db: MailDb, d: Delivery, pc: Pc, db': MailDb, pc': Pc)
    requires Schema(db) && PcSafe(db, d, pc) && OwnOrOthers(folder, db, pc, db', pc')
    ensures Elsewhere(folder, db, db') && PcSafe(db', d, pc')
  {
    hide Schema, Grows;
    if !Step(db, pc, db', pc') {
      GrowsSafe(db, db', d, pc);
    } else {
      match pc
      case Insert(_, _, _, _) => InsertSafe(folder, db, d, pc, db', pc');
      case Promote(_, _, _) => PromoteSafe(folder, db, d, pc, db', pc');
      case Touch(_, _) => TouchSafe(folder, db, d, pc, db', pc');
      case Create(_) => CreateSafe(folder, db, d, pc, db', pc');
      case _ => ReadSafe(folder, db, d, pc, db', pc');
    }
  }

  lemma ElsewhereTransitive(folder: string, a: MailDb, b: MailDb, c: MailDb)
    requires Elsewhere(folder, a, b) && Elsewhere(folder, b, c)
    ensures Elsewhere(folder, a, c)
  {
    GrowsTransitive(a, b, c);
  }

  /** So it is at every point of a trace, wherever it may be cut short. */
  lemma {:induction false} TraceSafe(folder: string, d: Delivery, uidValidity: nat, trace: seq<(MailDb, Pc)>, i: nat)
    requires RunsAmid(folder, trace) && Schema(trace[0].0) && trace[0].1 == Begin(d, folder, uidValidity) && i < |trace|
    ensures Elsewhere(folder, trace[0].0, trace[i].0) && PcSafe(trace[i].0, d, trace[i].1)
  {
    if i > 0 {
      TraceSafe(folder, d, uidValidity, trace, i - 1);
      assert OwnOrOthers(folder, trace[i - 1].0, trace[i - 1].1, trace[i - 1 + 1].0, trace[i - 1 + 1].1);
      TurnSafe(folder, trace[i - 1].0, d, trace[i - 1].1, trace[i].0, trace[i].1);
      ElsewhereTransitive(folder, trace[0].0, trace[i - 1].0, trace[i].0);
    }
  }

  /**
   Whatever goes on between its statements, handling a message keeps the tables' constraints, takes nothing
   back, leaves the folder's cursor alone and, if it reports success, leaves the message recorded.
   */
  lemma HandlingAmidIsOk(db: MailDb, d: Delivery, folder: string, uidValidity: nat, db': MailDb, o: Outcome)
    requires Schema(db) && HandlesAmid(db, d, folder, uidValidity, db', o)
    ensures Elsewhere(folder, db, db')
    ensures o == Indexed ==> Recorded(db', d)
  {
    var trace :|
      && RunsAmid(folder, trace) && trace[0] == (db, Begin(d, folder, uidValidity))
      && Last(trace).0 == db' && (Last(trace).1 == Done(o) || o == Failed(StatementFailed));
    TraceSafe(folder, d, uidValidity, trace, |trace| - 1);
  }

  /**
   The unique violation on thread creation is always recovered from, whatever the mail and whatever others do:
   the second lookup finds the winner's thread, so no handling ends in a creation race or misses its thread.
   */
  lemma CreateRaceAlwaysRecovers(db: MailDb, d: Delivery, folder: string, uidValidity: nat, db': MailDb, o: Outcome)
    requires Schema(db) && HandlesAmid(db, d, folder, uidValidity, db', o)
    ensures o != Failed(ThreadCreateRace) && o != Failed(ThreadMissing)
  {
    var trace :|
      && RunsAmid(folder, trace) && trace[0] == (db, Begin(d, folder, uidValidity))
      && Last(trace).0 == db' && (Last(trace).1 == Done(o) || o == Failed(StatementFailed));
    TraceSafe(folder, d, uidValidity, trace, |trace| - 1);
  }

  // ---------- crashes and reruns ----------

  /** A thread for the root exists. */
  ghost predicate Rooted(db: MailDb, root: string, t: nat) {
    t in db.threads && db.threads[t].root == root
  }

  /** The worker's job, once it has one, is about this root. */
  ghost predicate Concerns(d: Delivery, pc: Pc, root: string) {
    match pc
    case CheckExists(d', _, _) => d' == d
    case Done(_) => true
    case _ => pc.job.root == root
  }

  lemma StepFindsRooted(db: MailDb, d: Delivery, pc: Pc, db': MailDb, pc': Pc, root: string, t: nat)
    requires Step(db, pc, db', pc') && Concerns(d, pc, root) && Rooted(db, root, t)
    requires FoundsOn(d, root)
    ensures db'.threads.Keys == db.threads.Keys && Concerns(d, pc', root)
  {
  }

  ghost predicate FoundsOn(d: Delivery, root: string) {
    d.parsed.Some?
        && Parse.RootFor(d.parsed.value.messageId, d.parsed.value.inReplyTo, d.parsed.value.references) == root
  }

  lemma {:induction false} TraceStaysRooted(folder: string, d: Delivery, uidValidity: nat, trace: seq<(MailDb, Pc)>,
      root: string, t: nat, i: nat)
    requires RunsAmid(folder, trace) && trace[0].1 == Begin(d, folder, uidValidity) && i < |trace|
    requires FoundsOn(d, root) && Rooted(trace[0].0, root, t)
    ensures Rooted(trace[i].0, root, t) && Concerns(d, trace[i].1, root)
  {
    if i > 0 {
      TraceStaysRooted(folder, d, uidValidity, trace, root, t, i - 1);
      assert OwnOrOthers(folder, trace[i - 1].0, trace[i - 1].1, trace[i - 1 + 1].0, trace[i - 1 + 1].1);
      TurnStaysRooted(folder, d, trace[i - 1].0, trace[i - 1].1, trace[i].0, trace[i].1, root, t);
    }
  }

  lemma TurnStaysRooted(folder: string, d: Delivery, db: MailDb, pc: Pc, db': MailDb, pc': Pc, root: string, t: nat)
    requires OwnOrOthers(folder, db, pc, db', pc') && Concerns(d, pc, root) && Rooted(db, root, t) && FoundsOn(d, root)
    ensures Rooted(db', root, t) && Concerns(d, pc', root)
  {
    if Step(db, pc, db', pc') {
      StepFindsRooted(db, d, pc, db', pc', root, t);
    }
  }

  /**
   A worker that died after its thread was created leaves nothing a rerun could double. Let the tables grow
   in any way after the thread was made, and the message be handled again from the start, amid anything
   others do: at every point that thread is the only one for its root, and no statement of the rerun adds a
   thread.
   */
  lemma RerunNeverDoublesThread(db: MailDb, root: string, subject: string, date: int,
                                folder: string, d: Delivery, uidValidity: nat, trace: seq<(MailDb, Pc)>, i: nat)
    requires RunsAmid(folder, trace) && CreateThread(db, root, subject, date).1.Some?
    requires Grows(CreateThread(db, root, subject, date).0, trace[0].0) && Schema(trace[0].0)
    requires trace[0].1 == Begin(d, folder, uidValidity) && FoundsOn(d, root) && i < |trace|
    ensures var t := CreateThread(db, root, subject, date).1.value;
            forall u :: Rooted(trace[i].0, root, u) <==> u == t
    ensures i + 1 < |trace| && Step(trace[i].0, trace[i].1, trace[i + 1].0, trace[i + 1].1) ==>
              trace[i + 1].0.threads.Keys == trace[i].0.threads.Keys
  {
    var t := CreateThread(db, root, subject, date).1.value;
    TraceStaysRooted(folder, d, uidValidity, trace, root, t, i);
    TraceSafe(folder, d, uidValidity, trace, i);
    OnlyRoot(trace[i].0, root, t);
    if i + 1 < |trace| && Step(trace[i].0, trace[i].1, trace[i + 1].0, trace[i + 1].1) {
      StepFindsRooted(trace[i].0, d, trace[i].1, trace[i + 1].0, trace[i + 1].1, root, t);
    }
  }

  lemma OnlyRoot(db: MailDb, root: string, t: nat)
    requires ThreadKeys(db) && Rooted(db, root, t)
    ensures forall u :: Rooted(db, root, u) <==> u == t
  {
    forall u | Rooted(db, root, u)
      ensures u == t
    {
      assert SameRoot(db.threads[u], db.threads[t]);
    }
  }
}
