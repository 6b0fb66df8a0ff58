/**
 Threading under concurrency: one worker a folder, every statement of every worker interleaved with
 every statement of the others, workers that die half way, and authorizations in between.
 */
module Conversations {
  import opened Wrappers
  import opened Parse
  import opened MailTables
  import opened Ingest

  datatype Worker = Worker(d: Delivery, pc: Pc)

  /** handled holds the Message-ID of every delivery whose handling has returned without an error. */
  datatype World = World(db: MailDb, workers: map<string, Worker>, handled: set<string>)

  datatype Move =
    | Start(folder: string, d: Delivery, uidValidity: nat)
    | Work(folder: string, db: MailDb, pc: Pc)
    | Abandon(folder: string)
    | AddGrantee(g: string, displayName: string)
    | Authorize(g: string, email: string)
    | Revoke(g: string, email: string)

  function IdOf(d: Delivery): string {
    if d.parsed.Some? then d.parsed.value.messageId else d.envelopeId
  }

  ghost predicate Next(w: World, move: Move, w': World) {
    match move
    case Start(f, d, v) =>
      && (f in w.workers ==> w.workers[f].pc.Done?)
      && w' == w.(workers := w.workers[f := Worker(d, Begin(d, f, v))])
    case Work(f, db, pc) =>
      && f in w.workers
      && Step(w.db, w.workers[f].pc, db, pc)
      && w' == World(db, w.workers[f := Worker(w.workers[f].d, pc)],
                     w.handled + if pc == Done(Indexed) then {IdOf(w.workers[f].d)} else {})
    case Abandon(f) =>
      && f in w.workers && !w.workers[f].pc.Done?
      && w' == w.(workers := w.workers[f := Worker(w.workers[f].d, Done(Failed(StatementFailed)))])
    case AddGrantee(g, name) =>
      var r := EnsureGrantee(w.db, g, name);
      w' == if r.Ok? then w.(db := r.value) else w
    case Authorize(g, email) =>
      var r := AddGranteeEmail(w.db, g, email);
      w' == if r.Ok? then w.(db := r.value) else w
    case Revoke(g, email) =>
      var r := RemoveGranteeEmail(w.db, g, email);
      w' == if r.Ok? then w.(db := r.value) else w
  }

  const INITIAL := World(EMPTY_DB, map[], {})

  /**
   RFC 5322 section 3.6.4, for the conversation map conv: a reply's first reference (or, without
   references, the first id it replies to) is its conversation's root, a message without either is
   a root, and no reference leaves the conversation. Message-IDs are in trimmed form, and the
   envelope's Message-ID, when there is one, is the message's own.
   */
  ghost predicate Conforms(conv: string -> string, d: Delivery) {
    d.parsed.Some? ==>
      var p := d.parsed.value;
      var refs, irt := Ids(p.references), Ids(p.inReplyTo);
      && TrimId(p.messageId) == p.messageId
      && (d.envelopeId == "" || d.envelopeId == p.messageId)
      && RootFor(p.messageId, p.inReplyTo, p.references) == conv(p.messageId)
      && (forall r :: r in refs || r in irt ==> conv(r) == conv(p.messageId))
  }

  /** A run: any moves in any order, over deliveries that conform. */
  ghost predicate Run(conv: string -> string, worlds: seq<World>, moves: seq<Move>) {
    && |worlds| == |moves| + 1
    && worlds[0] == INITIAL
    && (forall i :: 0 <= i < |moves| ==> Next(worlds[i], moves[i], worlds[i + 1]))
    && (forall i :: 0 <= i < |moves| && moves[i].Start? ==> Conforms(conv, moves[i].d))
  }

  // ---------- the invariant ----------

  ghost predicate RootedThreads(conv: string -> string, db: MailDb) {
    forall t :: t in db.threads ==> conv(db.threads[t].root) == db.threads[t].root
  }

  ghost predicate PlacedMessages(conv: string -> string, db: MailDb) {
    forall m :: m in db.messages ==>
      db.messages[m].thread in db.threads && db.threads[db.messages[m].thread].root == conv(db.messages[m].messageId)
  }

  ghost predicate InThread(conv: string -> string, db: MailDb, job: Job, t: nat) {
    t in db.threads && db.threads[t].root == conv(job.p.messageId)
  }

  /** The job carries d's message, looks up ids of its conversation only, and would found it at its root. */
  ghost predicate JobOk(conv: string -> string, d: Delivery, job: Job) {
    && d.parsed == Some(job.p)
    && (forall c :: c in job.cands ==> conv(c) == conv(job.p.messageId))
    && conv(job.root) == job.root == conv(job.p.messageId)
  }

  ghost predicate PcOk(conv: string -> string, db: MailDb, d: Delivery, pc: Pc) {
    && (!pc.Done? && !pc.CheckExists? ==> JobOk(conv, d, pc.job))
    && match pc
       case CheckExists(d', _, _) => d' == d && d.envelopeId != "" && Conforms(conv, d)
       case FindRoot(_) => true
       case FindMember(_) => true
       case Create(_) => true
       case RefindRoot(job) => RootTaken(db, job.root)
       case RefindMember(_) => false
       case LookupSender(job, t) => InThread(conv, db, job, t)
       case InheritThread(job, t) => InThread(conv, db, job, t)
       case Insert(job, t, grantee, _) => InThread(conv, db, job, t) && (grantee.Some? ==> grantee.value in db.grantees)
       case Promote(job, t, g) => g in db.grantees && HasMessage(db, job.p.messageId)
       case Touch(job, t) => HasMessage(db, job.p.messageId)
       case Done(Indexed) => HasMessage(db, IdOf(d))
       case Done(Failed(why)) => why != ThreadCreateRace && why != ThreadMissing
  }

  ghost predicate Inv(conv: string -> string, w: World) {
    && Schema(w.db)
    && RootedThreads(conv, w.db)
    && PlacedMessages(conv, w.db)
    && (forall f :: f in w.workers ==> PcOk(conv, w.db, w.workers[f].d, w.workers[f].pc))
    && (forall id :: id in w.handled ==> HasMessage(w.db, id))
  }

  /** Every id a conforming delivery looks up belongs to its conversation. */
  lemma JobForConforms(conv: string -> string, d: Delivery, folder: string, uidValidity: nat)
    requires Conforms(conv, d) && d.parsed.Some?
    ensures JobOk(conv, d, JobFor(d.parsed.value, folder, d.uid, uidValidity))
  {
    var p := d.parsed.value;
    var job := JobFor(p, folder, d.uid, uidValidity);
    forall c | c in job.cands
      ensures conv(c) == conv(p.messageId)
    {
      CandidateMembers(p.messageId, p.inReplyTo, p.references, c);
    }
    var refs, irt := Ids(p.references), Ids(p.inReplyTo);
    assert |refs| > 0 ==> job.root in refs;
    assert |refs| == 0 && |irt| > 0 ==> job.root in irt;
  }

  lemma BeginOk(conv: string -> string, db: MailDb, d: Delivery, folder: string, uidValidity: nat)
    requires Conforms(conv, d)
    ensures PcOk(conv, db, d, Begin(d, folder, uidValidity)) && PcOk(conv, db, d, AfterParse(d, folder, uidValidity))
  {
    if d.parsed.Some? {
      JobForConforms(conv, d, folder, uidValidity);
    }
  }

  lemma SameRowsKeepPlacement(conv: string -> string, a: MailDb, b: MailDb)
    requires RootedThreads(conv, a) && PlacedMessages(conv, a) && Grows(a, b)
    requires a.threads.Keys == b.threads.Keys && a.messages.Keys == b.messages.Keys
    ensures RootedThreads(conv, b) && PlacedMessages(conv, b)
  {
    forall m | m in b.messages
      ensures b.messages[m].thread in b.threads && b.threads[b.messages[m].thread].root == conv(b.messages[m].messageId)
    {
      assert m in a.messages;
    }
    forall t | t in b.threads
      ensures conv(b.threads[t].root) == b.threads[t].root
    {
      assert t in a.threads;
    }
  }

  lemma CreateKeepsPlacement(conv: string -> string, db: MailDb, job: Job)
    requires Schema(db) && RootedThreads(conv, db) && PlacedMessages(conv, db)
    requires conv(job.root) == job.root
    ensures var (after, id) := CreateThread(db, job.root, job.p.subject, job.p.date);
      && RootedThreads(conv, after) && PlacedMessages(conv, after) && Grows(db, after)
      && (id.Some? ==> id.value in after.threads && after.threads[id.value].root == job.root)
      && (id.None? ==> RootTaken(after, job.root))
  {
  }

  lemma InsertKeepsPlacement(conv: string -> string, db: MailDb, job: Job, t: nat, grantee: Option<string>)
    requires Schema(db) && RootedThreads(conv, db) && PlacedMessages(conv, db)
    requires InThread(conv, db, job, t)
    ensures var after := InsertMessage(db, job.Row(t, grantee)).0;
      RootedThreads(conv, after) && PlacedMessages(conv, after)
  {
    var (after, r) := InsertMessage(db, job.Row(t, grantee));
    assert after.threads == db.threads;
  }

  lemma LookupStaysInConversation(conv: string -> string, db: MailDb, job: Job, refs: seq<string>, t: nat)
    requires RootedThreads(conv, db) && PlacedMessages(conv, db)
    requires forall c :: c in refs ==> conv(c) == conv(job.p.messageId)
    requires RootMatch(db, refs, t) || MemberMatch(db, refs, t)
    ensures InThread(conv, db, job, t)
  {
  }

  /** The tables after one statement of a worker whose expectations hold. */
  ghost predicate StepOutcome(conv: string -> string, db: MailDb, d: Delivery, db': MailDb, pc': Pc) {
    && Schema(db') && RootedThreads(conv, db') && PlacedMessages(conv, db')
    && PcOk(conv, db', d, pc') && Grows(db, db')
  }

  lemma FindStepKeeps(conv: string -> string, db: MailDb, d: Delivery, pc: Pc, db': MailDb, pc': Pc)
    requires RootedThreads(conv, db) && PlacedMessages(conv, db)
    requires PcOk(conv, db, d, pc) && Step(db, pc, db', pc')
    requires pc.FindRoot? || pc.FindMember?
    ensures db' == db && PcOk(conv, db', d, pc')
  {
    if pc'.LookupSender? {
      LookupStaysInConversation(conv, db, pc.job, pc.job.cands, pc'.t);
    }
  }

  lemma RefindStepKeeps(conv: string -> string, db: MailDb, d: Delivery, pc: Pc, db': MailDb, pc': Pc)
    requires RootedThreads(conv, db) && PlacedMessages(conv, db)
    requires PcOk(conv, db, d, pc) && Step(db, pc, db', pc')
    requires pc.RefindRoot?
    ensures db' == db && PcOk(conv, db', d, pc')
  {
    var t :| t in db.threads && db.threads[t].root == pc.job.root;
    assert RootMatch(db, [pc.job.root], t);
    LookupStaysInConversation(conv, db, pc.job, [pc.job.root], pc'.t);
  }

  lemma ResolveStepKeeps(conv: string -> string, db: MailDb, d: Delivery, pc: Pc, db': MailDb, pc': Pc)
    requires ForeignKeys(db)
    requires PcOk(conv, db, d, pc) && Step(db, pc, db', pc')
    requires pc.LookupSender? || pc.InheritThread?
    ensures db' == db && PcOk(conv, db', d, pc')
  {
  }

  lemma CheckStepKeeps(conv: string -> string, db: MailDb, d: Delivery, pc: Pc, db': MailDb, pc': Pc)
    requires PcOk(conv, db, d, pc) && Step(db, pc, db', pc')
    requires pc.CheckExists?
    ensures db' == db && PcOk(conv, db', d, pc')
  {
    if !HasMessage(db, d.envelopeId) {
      BeginOk(conv, db, d, pc.folder, pc.uidValidity);
    }
  }

  lemma ReadStepKeeps(conv: string -> string, db: MailDb, d: Delivery, pc: Pc, db': MailDb, pc': Pc)
    requires Schema(db) && RootedThreads(conv, db) && PlacedMessages(conv, db)
    requires PcOk(conv, db, d, pc) && Step(db, pc, db', pc')
    requires !pc.Create? && !pc.Insert? && !pc.Promote? && !pc.Touch?
    ensures StepOutcome(conv, db, d, db', pc')
  {
    match pc
    case CheckExists(_, _, _) => CheckStepKeeps(conv, db, d, pc, db', pc');
    case FindRoot(_) => FindStepKeeps(conv, db, d, pc, db', pc');
    case FindMember(_) => FindStepKeeps(conv, db, d, pc, db', pc');
    case RefindRoot(_) => RefindStepKeeps(conv, db, d, pc, db', pc');
    case _ => ResolveStepKeeps(conv, db, d, pc, db', pc');
  }

  lemma CreateStepKeeps(conv: string -> string, db: MailDb, d: Delivery, job: Job, db': MailDb, pc': Pc)
    requires Schema(db) && RootedThreads(conv, db) && PlacedMessages(conv, db)
    requires PcOk(conv, db, d, Create(job)) && Step(db, Create(job), db', pc')
    ensures StepOutcome(conv, db, d, db', pc')
  {
    CreateThreadKeepsSchema(db, job.root, job.p.subject, job.p.date);
    CreateKeepsPlacement(conv, db, job);
  }

  lemma InsertStepKeeps(conv: string -> string, db: MailDb, d: Delivery, pc: Pc, db': MailDb, pc': Pc)
    requires Schema(db) && RootedThreads(conv, db) && PlacedMessages(conv, db)
    requires pc.Insert? && PcOk(conv, db, d, pc) && Step(db, pc, db', pc')
    ensures StepOutcome(conv, db, d, db', pc')
  {
    var row := pc.job.Row(pc.t, pc.grantee);
    InsertMessageKeepsSchema(db, row);
    InsertMessageGrows(db, row);
    InsertKeepsPlacement(conv, db, pc.job, pc.t, pc.grantee);
  }

  /** An update that adds no row, run by a worker whose message is stored. */
  lemma UpdateStepKeeps(conv: string -> string, db: MailDb, d: Delivery, job: Job, db': MailDb, pc': Pc)
    requires RootedThreads(conv, db) && PlacedMessages(conv, db)
    requires Schema(db') && Grows(db, db')
    requires db.threads.Keys == db'.threads.Keys && db.messages.Keys == db'.messages.Keys
    requires JobOk(conv, d, job) && HasMessage(db, job.p.messageId)
    requires (pc'.Touch? && pc'.job == job) || pc' == Done(Indexed)
    ensures StepOutcome(conv, db, d, db', pc')
  {
    SameRowsKeepPlacement(conv, db, db');
    HasMessageGrows(db, db', job.p.messageId);
  }

  lemma PromoteStepKeeps(conv: string -> string, db: MailDb, d: Delivery, pc: Pc, db': MailDb, pc': Pc)
    requires Schema(db) && RootedThreads(conv, db) && PlacedMessages(conv, db)
    requires pc.Promote? && PcOk(conv, db, d, pc) && Step(db, pc, db', pc')
    ensures StepOutcome(conv, db, d, db', pc')
  {
    hide Schema, PlacedMessages, Grows;
    SetThreadGranteeKeepsSchema(db, pc.t, pc.g);
    SetThreadGranteeGrows(db, pc.t, pc.g);
    UpdateStepKeeps(conv, db, d, pc.job, db', pc');
  }

  lemma TouchStepKeeps(conv: string -> string, db: MailDb, d: Delivery, pc: Pc, db': MailDb, pc': Pc)
    requires Schema(db) && RootedThreads(conv, db) && PlacedMessages(conv, db)
    requires pc.Touch? && PcOk(conv, db, d, pc) && Step(db, pc, db', pc')
    ensures StepOutcome(conv, db, d, db', pc')
  {
    hide Schema, PlacedMessages, Grows;
    TouchKeepsSchema(db, pc.t, pc.job.p.date);
    TouchThreadGrows(db, pc.t, pc.job.p.date);
    UpdateStepKeeps(conv, db, d, pc.job, db', pc');
  }

  /** One statement of a worker keeps the tables in order and leads it to an expected place. */
  lemma StepKeeps(conv: string -> string, db: MailDb, d: Delivery, pc: Pc, db': MailDb, pc': Pc)
    requires Schema(db) && RootedThreads(conv, db) && PlacedMessages(conv, db)
    requires PcOk(conv, db, d, pc) && Step(db, pc, db', pc')
    ensures StepOutcome(conv, db, d, db', pc')
  {
    hide Schema, RootedThreads, PlacedMessages, PcOk, Step, StepOutcome;
    match pc
    case Create(job) => CreateStepKeeps(conv, db, d, job, db', pc');
    case Insert(_, _, _, _) => InsertStepKeeps(conv, db, d, pc, db', pc');
    case Promote(_, _, _) => PromoteStepKeeps(conv, db, d, pc, db', pc');
    case Touch(_, _) => TouchStepKeeps(conv, db, d, pc, db', pc');
    case _ => ReadStepKeeps(conv, db, d, pc, db', pc');
  }

  /** What other workers and authorizations do leaves a worker's expectations true. */
  lemma PcOkGrows(conv: string -> string, a: MailDb, b: MailDb, d: Delivery, pc: Pc)
    requires Grows(a, b) && PcOk(conv, a, d, pc)
    ensures PcOk(conv, b, d, pc)
  {
    match pc
    case RefindRoot(job) =>
      var t :| t in a.threads && a.threads[t].root == job.root;
      assert t in b.threads && b.threads[t].root == job.root;
    case Promote(job, _, _) => HasMessageGrows(a, b, job.p.messageId);
    case Touch(job, _) => HasMessageGrows(a, b, job.p.messageId);
    case Done(Indexed) => HasMessageGrows(a, b, IdOf(d));
    case _ =>
  }

  /** Growth with unchanged roots and rows keeps everything but the acting worker's own place. */
  lemma RestGrows(conv: string -> string, w: World, db: MailDb)
    requires Inv(conv, w) && Grows(w.db, db)
    ensures forall f :: f in w.workers ==> PcOk(conv, db, w.workers[f].d, w.workers[f].pc)
    ensures forall id :: id in w.handled ==> HasMessage(db, id)
  {
    forall f | f in w.workers
      ensures PcOk(conv, db, w.workers[f].d, w.workers[f].pc)
    {
      PcOkGrows(conv, w.db, db, w.workers[f].d, w.workers[f].pc);
    }
    forall id | id in w.handled
      ensures HasMessage(db, id)
    {
      HasMessageGrows(w.db, db, id);
    }
  }

  lemma WorkKeepsInv(conv: string -> string, w: World, f: string, db: MailDb, pc: Pc, w': World)
    requires Inv(conv, w) && Next(w, Work(f, db, pc), w')
    ensures Inv(conv, w')
  {
    StepKeeps(conv, w.db, w.workers[f].d, w.workers[f].pc, db, pc);
    RestGrows(conv, w, db);
  }

  lemma AdminKeepsInv(conv: string -> string, w: World, db: MailDb)
    requires Inv(conv, w) && Schema(db) && Grows(w.db, db)
    requires db.threads.Keys == w.db.threads.Keys && db.messages.Keys == w.db.messages.Keys
    ensures Inv(conv, w.(db := db))
  {
    SameRowsKeepPlacement(conv, w.db, db);
    RestGrows(conv, w, db);
  }

  lemma StartKeepsInv(conv: string -> string, w: World, f: string, d: Delivery, v: nat, w': World)
    requires Inv(conv, w) && Next(w, Start(f, d, v), w') && Conforms(conv, d)
    ensures Inv(conv, w')
  {
    BeginOk(conv, w.db, d, f, v);
  }

  lemma AbandonKeepsInv(conv: string -> string, w: World, f: string, w': World)
    requires Inv(conv, w) && Next(w, Abandon(f), w')
    ensures Inv(conv, w')
  {
  }

  lemma AuthorizeKeepsInv(conv: string -> string, w: World, g: string, email: string, w': World)
    requires Inv(conv, w) && Next(w, Authorize(g, email), w')
    ensures Inv(conv, w')
  {
    if AddGranteeEmail(w.db, g, email).Ok? {
      AddGranteeEmailKeepsSchema(w.db, g, email);
      AddGranteeEmailGrows(w.db, g, email);
      AdminKeepsInv(conv, w, w'.db);
    }
  }

  lemma RevokeKeepsInv(conv: string -> string, w: World, move: Move, w': World)
    requires Inv(conv, w) && Next(w, move, w') && (move.AddGrantee? || move.Revoke?)
    ensures Inv(conv, w')
  {
    assert Schema(w'.db) && Grows(w.db, w'.db);
    AdminKeepsInv(conv, w, w'.db);
  }

  lemma NextKeepsInv(conv: string -> string, w: World, move: Move, w': World)
    requires Inv(conv, w) && Next(w, move, w')
    requires move.Start? ==> Conforms(conv, move.d)
    ensures Inv(conv, w')
  {
    match move
    case Start(f, d, v) => StartKeepsInv(conv, w, f, d, v, w');
    case Work(f, db, pc) => WorkKeepsInv(conv, w, f, db, pc, w');
    case Abandon(f) => AbandonKeepsInv(conv, w, f, w');
    case Authorize(g, email) => AuthorizeKeepsInv(conv, w, g, email, w');
    case _ => RevokeKeepsInv(conv, w, move, w');
  }

  lemma {:induction false} RunKeepsInv(conv: string -> string, worlds: seq<World>, moves: seq<Move>, n: nat)
    requires Run(conv, worlds, moves) && n <= |moves|
    ensures Inv(conv, worlds[n])
  {
    if n > 0 {
      RunKeepsInv(conv, worlds, moves, n - 1);
      NextKeepsInv(conv, worlds[n - 1], moves[n - 1], worlds[n]);
    }
  }

  // ---------- the theorem ----------

  ghost predicate OnlyThreadOf(db: MailDb, conversation: string, t: nat) {
    forall u :: (u in db.threads && db.threads[u].root == conversation) <==> u == t
  }

  lemma RootDeterminesThread(db: MailDb, t: nat)
    requires ThreadKeys(db) && t in db.threads
    ensures OnlyThreadOf(db, db.threads[t].root, t)
  {
    forall u | u in db.threads && db.threads[u].root == db.threads[t].root
      ensures u == t
    {
      assert SameRoot(db.threads[u], db.threads[t]);
    }
  }

  lemma InvPlaces(conv: string -> string, w: World)
    requires Inv(conv, w)
    ensures forall t :: t in w.db.threads ==> OnlyThreadOf(w.db, conv(w.db.threads[t].root), t)
    ensures forall m :: m in w.db.messages ==>
            OnlyThreadOf(w.db, conv(w.db.messages[m].messageId), w.db.messages[m].thread)
  {
    forall t | t in w.db.threads
      ensures OnlyThreadOf(w.db, w.db.threads[t].root, t)
    {
      RootDeterminesThread(w.db, t);
    }
  }

  /**
   In every world a run reaches, whatever the arrival order and the interleaving: every thread is
   rooted at a conversation's root, and no conversation has two; every stored message is in its
   conversation's thread; and each delivery that was handled has its message stored there, so its
   conversation has exactly one thread.
   */
  lemma OneThreadPerConversation(conv: string -> string, worlds: seq<World>, moves: seq<Move>, n: nat)
    requires Run(conv, worlds, moves) && n <= |moves|
    ensures var db := worlds[n].db;
      && (forall t :: t in db.threads ==> OnlyThreadOf(db, conv(db.threads[t].root), t))
      && (forall m :: m in db.messages ==> OnlyThreadOf(db, conv(db.messages[m].messageId), db.messages[m].thread))
      && (forall id :: id in worlds[n].handled ==>
            exists m :: m in db.messages && db.messages[m].messageId == id
                && OnlyThreadOf(db, conv(id), db.messages[m].thread))
  {
    RunKeepsInv(conv, worlds, moves, n);
    InvPlaces(conv, worlds[n]);
    var db := worlds[n].db;
    forall id | id in worlds[n].handled
      ensures exists m ::
          m in db.messages && db.messages[m].messageId == id && OnlyThreadOf(db, conv(id), db.messages[m].thread)
    {
      var m :| m in db.messages && db.messages[m].messageId == id;
    }
  }

  lemma SameThreadIffSameConversation(conv: string -> string, db: MailDb, m: nat, n: nat)
    requires m in db.messages && OnlyThreadOf(db, conv(db.messages[m].messageId), db.messages[m].thread)
    requires n in db.messages && OnlyThreadOf(db, conv(db.messages[n].messageId), db.messages[n].thread)
    ensures db.messages[m].thread == db.messages[n].thread <==>
            conv(db.messages[m].messageId) == conv(db.messages[n].messageId)
  {
    var t, u := db.messages[m].thread, db.messages[n].thread;
    assert t in db.threads && db.threads[t].root == conv(db.messages[m].messageId);
    assert u in db.threads && db.threads[u].root == conv(db.messages[n].messageId);
  }

  /**
   Two runs over the same messages group them alike: messages share a thread in one run exactly
   when they share one in the other, however the deliveries were ordered and interleaved.
   */
  lemma GroupingIsOrderIndependent(conv: string -> string, ws1: seq<World>, ms1: seq<Move>, ws2: seq<World>,
      ms2: seq<Move>,
                                   m1: nat, n1: nat, m2: nat, n2: nat)
    requires Run(conv, ws1, ms1) && Run(conv, ws2, ms2)
    requires var db := ws1[|ms1|].db; m1 in db.messages && n1 in db.messages
    requires var db := ws2[|ms2|].db; m2 in db.messages && n2 in db.messages
    requires ws1[|ms1|].db.messages[m1].messageId == ws2[|ms2|].db.messages[m2].messageId
    requires ws1[|ms1|].db.messages[n1].messageId == ws2[|ms2|].db.messages[n2].messageId
    ensures var a, b := ws1[|ms1|].db, ws2[|ms2|].db;
      a.messages[m1].thread == a.messages[n1].thread <==> b.messages[m2].thread == b.messages[n2].thread
  {
    RunKeepsInv(conv, ws1, ms1, |ms1|);
    RunKeepsInv(conv, ws2, ms2, |ms2|);
    InvPlaces(conv, ws1[|ms1|]);
    InvPlaces(conv, ws2[|ms2|]);
    var a, b := ws1[|ms1|].db, ws2[|ms2|].db;
    SameThreadIffSameConversation(conv, a, m1, n1);
    SameThreadIffSameConversation(conv, b, m2, n2);
  }

  /**
   A worker that died after its thread was created finds it again at the first lookup of its rerun, except for
   a message that stands alone with brackets or blanks at the ends of its Message-ID.
   */
  lemma RerunFindsThread(db: MailDb, later: MailDb, p: Parsed, folder: string, uid: nat, uidValidity: nat,
      after: MailDb, pc: Pc)
    requires Ids(p.references) != [] || Ids(p.inReplyTo) != []
        || (p.messageId != "" && TrimId(p.messageId) == p.messageId)
    requires var job := JobFor(p, folder, uid, uidValidity);
      && CreateThread(db, job.root, p.subject, p.date).1.Some?
      && Grows(CreateThread(db, job.root, p.subject, p.date).0, later)
      && Step(later, FindRoot(job), after, pc)
    ensures pc.LookupSender?
  {
    var job := JobFor(p, folder, uid, uidValidity);
    var (made, id) := CreateThread(db, job.root, p.subject, p.date);
    CandidatesHoldRoot(p.messageId, p.inReplyTo, p.references);
    assert RootMatch(later, job.cands, id.value);
  }
}
