/**
 What each approval-gated action does to the tables when it goes through, and when it does not, in terms of
 its decoded arguments and the rows alone; and what that means for the rows of the queue.
 */
module ActionEffects {
  import opened Wrappers
  import opened Text
  import opened MailTables
  import opened ApprovalTables
  import opened Sources
  import opened Actions
  import opened Approvals
  import opened ApprovalHistory
  import opened ApprovalServer

  // ---------- what an action does ----------

  /** The slug is a grantee, under the given name if it is new; no other grantee changes, and nothing else. */
  ghost predicate GranteeAdded(t: Tables, a: AddGranteeArgs, t': Tables) {
    var slug, before, after := TrimSpace(a.slug), t.mail.grantees, t'.mail.grantees;
    && t' == t.(mail := t.mail.(grantees := after))
    && after.Keys == before.Keys + {slug}
    && (forall g :: g in before ==> after[g] == before[g])
    && (slug !in before ==> after[slug] == Grantee(a.displayName, true))
  }

  /** Under every spelling of the address the operator has the new key; other operators stay, and all else. */
  ghost predicate OperatorEntered(foreign: Foreign, t: Tables, a: AddApprovalUserArgs, t': Tables) {
    var email, key := TrimSpace(a.email), TrimSpace(a.publicKey);
    && t' == t.(operators := t'.operators)
    && forall s :: if Lower(s) != Lower(email) then GetApprovalUser(t', s) == GetApprovalUser(t, s) else
         && GetApprovalUser(t', s).Some?
         && var user, before := GetApprovalUser(t', s).value, GetApprovalUser(t, s);
            && user.publicKey == key && foreign.fingerprint(key) == Some(user.fingerprint)
            && user.email == if before.Some? then before.value.email else email
  }

  /** The grantee's source has the given type, and the id it had; other sources stay, and all else. */
  ghost predicate SourceListed(t: Tables, a: WhitelistDocArgs, t': Tables) {
    var key := SourceKey(TrimSpace(a.grantee), TrimSpace(a.drive));
    && t' == t.(sources := t'.sources, sourceSeq := t'.sourceSeq)
    && t'.sources.Keys == t.sources.Keys + {key}
    && t'.sources[key].sourceType == a.sourceType
    && (key in t.sources ==> t'.sources[key].id == t.sources[key].id)
    && forall k :: k in t.sources && k != key ==> t'.sources[k] == t.sources[k]
  }

  /** Some message of the thread is from the address. */
  ghost predicate WroteIn(db: MailDb, email: string, t: nat) {
    exists m :: m in db.messages && db.messages[m].thread == t && Lower(db.messages[m].from) == Lower(email)
  }

  /** Threads with mail from the address are the grantee's, if they were nobody's. */
  ghost predicate ThreadsAssigned(db: MailDb, g: string, email: string, db': MailDb) {
    && db'.threads.Keys == db.threads.Keys
    && forall t :: t in db.threads ==>
         db'.threads[t] == if db.threads[t].grantee.None? && WroteIn(db, email, t)
                           then db.threads[t].(grantee := Some(g)) else db.threads[t]
  }

  /** Messages of the grantee's threads are the grantee's, if they were nobody's. */
  ghost predicate MessagesAssigned(db: MailDb, g: string, db': MailDb) {
    && db'.messages.Keys == db.messages.Keys
    && forall m :: m in db.messages ==>
         var row := db.messages[m];
         db'.messages[m] ==
           if row.grantee.None? && row.thread in db'.threads && db'.threads[row.thread].grantee == Some(g)
           then row.(grantee := Some(g)) else row
  }

  /** Under every spelling the address is looked up as the grantee; other addresses are as before. */
  ghost predicate AddressIs(db: MailDb, g: string, email: string, db': MailDb) {
    forall s :: LookupGrantee(db', s) == if Lower(s) == Lower(email) then Some(g) else LookupGrantee(db, s)
  }

  ghost predicate EmailAuthorized(t: Tables, a: AuthorizeEmailArgs, t': Tables) {
    var g, email, db, db' := TrimSpace(a.grantee), TrimSpace(a.email), t.mail, t'.mail;
    && t' == t.(mail := db.(emails := db'.emails, threads := db'.threads, messages := db'.messages))
    && AddressIs(db, g, email, db') && ThreadsAssigned(db, g, email, db') && MessagesAssigned(db, g, db')
  }

  ghost predicate Effect(foreign: Foreign, action: string, args: string, t: Tables, t': Tables) {
    if action == ACTION_ADD_GRANTEE then
      foreign.decodeAddGrantee(args).Some? && GranteeAdded(t, foreign.decodeAddGrantee(args).value, t')
    else if action == ACTION_ADD_APPROVAL_USER then
      && foreign.decodeAddApprovalUser(args).Some?
      && OperatorEntered(foreign, t, foreign.decodeAddApprovalUser(args).value, t')
    else if action == ACTION_WHITELIST_DOC then
      foreign.decodeWhitelistDoc(args).Some? && SourceListed(t, foreign.decodeWhitelistDoc(args).value, t')
    else
      && action == ACTION_AUTHORIZE_GRANTEE_EMAIL && foreign.decodeAuthorizeEmail(args).Some?
      && EmailAuthorized(t, foreign.decodeAuthorizeEmail(args).value, t')
  }

  // ---------- when an action is refused ----------

  predicate Known(action: string) {
    || action == ACTION_ADD_GRANTEE || action == ACTION_ADD_APPROVAL_USER
    || action == ACTION_WHITELIST_DOC || action == ACTION_AUTHORIZE_GRANTEE_EMAIL
  }

  /** The fields that must not be blank, of arguments that decode. */
  function RequiredFields(foreign: Foreign, action: string, args: string): Option<seq<string>> {
    if action == ACTION_ADD_GRANTEE then
      match foreign.decodeAddGrantee(args)
      case Some(a) => Some([TrimSpace(a.slug)])
      case None => None
    else if action == ACTION_ADD_APPROVAL_USER then
      match foreign.decodeAddApprovalUser(args)
      case Some(a) => Some([TrimSpace(a.email), TrimSpace(a.publicKey)])
      case None => None
    else if action == ACTION_WHITELIST_DOC then
      match foreign.decodeWhitelistDoc(args)
      case Some(a) => Some([TrimSpace(a.grantee), TrimSpace(a.drive)])
      case None => None
    else
      match foreign.decodeAuthorizeEmail(args)
      case Some(a) => Some([TrimSpace(a.grantee), TrimSpace(a.email)])
      case None => None
  }

  /** Well-formed arguments of an action that exists. */
  predicate Complete(foreign: Foreign, action: string, args: string) {
    && Known(action) && RequiredFields(foreign, action, args).Some?
    && "" !in RequiredFields(foreign, action, args).value
  }

  predicate WrongType(foreign: Foreign, action: string, args: string) {
    && Complete(foreign, action, args) && action == ACTION_WHITELIST_DOC
    && foreign.decodeWhitelistDoc(args).value.sourceType !in {SOURCE_FOLDER, SOURCE_DOC}
  }

  /** The action is one for an existing grantee, and this one does not exist. */
  predicate NobodyThere(foreign: Foreign, t: Tables, action: string, args: string) {
    && Complete(foreign, action, args) && !WrongType(foreign, action, args)
    && (action == ACTION_WHITELIST_DOC || action == ACTION_AUTHORIZE_GRANTEE_EMAIL)
    && RequiredFields(foreign, action, args).value[0] !in t.mail.grantees
  }

  predicate UnreadableKey(foreign: Foreign, action: string, args: string) {
    && Complete(foreign, action, args) && action == ACTION_ADD_APPROVAL_USER
    && foreign.fingerprint(RequiredFields(foreign, action, args).value[1]).None?
  }

  /** The key's fingerprint is the empty text. */
  predicate BlankFingerprint(foreign: Foreign, action: string, args: string) {
    && Complete(foreign, action, args) && action == ACTION_ADD_APPROVAL_USER
    && foreign.fingerprint(RequiredFields(foreign, action, args).value[1]) == Some("")
  }

  /** The action goes through. */
  predicate Admits(foreign: Foreign, t: Tables, action: string, args: string) {
    && Complete(foreign, action, args) && !WrongType(foreign, action, args)
    && !NobodyThere(foreign, t, action, args)
    && !UnreadableKey(foreign, action, args) && !BlankFingerprint(foreign, action, args)
  }

  // ---------- each executor has its effect ----------

  lemma AddGranteeHasEffect(t: Tables, a: AddGranteeArgs)
    requires RunAddGrantee(t, a).Ok?
    ensures GranteeAdded(t, a, RunAddGrantee(t, a).value)
  {
  }

  lemma AddApprovalUserHasEffect(foreign: Foreign, t: Tables, a: AddApprovalUserArgs)
    requires RunAddApprovalUser(foreign, t, a).Ok?
    ensures OperatorEntered(foreign, t, a, RunAddApprovalUser(foreign, t, a).value)
  {
  }

  lemma WhitelistDocHasEffect(t: Tables, a: WhitelistDocArgs)
    requires RunWhitelistDoc(t, a).Ok?
    ensures SourceListed(t, a, RunWhitelistDoc(t, a).value)
  {
  }

  lemma AuthorizeEmailHasEffect(t: Tables, a: AuthorizeEmailArgs)
    requires RunAuthorizeEmail(t, a).Ok?
    ensures EmailAuthorized(t, a, RunAuthorizeEmail(t, a).value)
  {
    var g, email, db, db' := TrimSpace(a.grantee), TrimSpace(a.email), t.mail, RunAuthorizeEmail(t, a).value.mail;
    TrimIdempotent(a.email, IsSpace);
    assert EmailKey(email) == Lower(email);
    assert db'.emails == db.emails[Lower(email) := g];
  }

  /** What the registered executors do when they go through. */
  lemma DispatchHasEffect(foreign: Foreign, t: Tables, action: string, args: string)
    requires Dispatch(foreign, REGISTERED, t, action, args).Ok?
    ensures Effect(foreign, action, args, t, Dispatch(foreign, REGISTERED, t, action, args).value)
  {
    match REGISTERED[action]
    case AddGrantee => AddGranteeHasEffect(t, foreign.decodeAddGrantee(args).value);
    case AddApprovalUser => AddApprovalUserHasEffect(foreign, t, foreign.decodeAddApprovalUser(args).value);
    case WhitelistDoc => WhitelistDocHasEffect(t, foreign.decodeWhitelistDoc(args).value);
    case AuthorizeGranteeEmail => AuthorizeEmailHasEffect(t, foreign.decodeAuthorizeEmail(args).value);
  }

  lemma TrimmedKeyIsNotEmpty(email: string)
    ensures TrimSpace(email) != "" ==> EmailKey(TrimSpace(email)) != ""
  {
    TrimIdempotent(email, IsSpace);
  }

  /** The result of a dispatch tells which of the conditions holds. */
  ghost predicate Reports(foreign: Foreign, t: Tables, action: string, args: string, r: Result<Tables, ActionError>) {
    && (r.Ok? <==> Admits(foreign, t, action, args))
    && (r == Err(UnknownAction) <==> !Known(action))
    && (r == Err(BadArgs) <==> Known(action) && RequiredFields(foreign, action, args).None?)
    && (r == Err(Missing) <==>
          Known(action) && RequiredFields(foreign, action, args).Some? &&
          "" in RequiredFields(foreign, action, args).value)
    && (r == Err(BadSourceType) <==> WrongType(foreign, action, args))
    && (r == Err(NoSuchGrantee) <==> NobodyThere(foreign, t, action, args))
    && (r == Err(BadKey) <==> UnreadableKey(foreign, action, args))
    && (r == Err(StoreFails(Required)) <==> BlankFingerprint(foreign, action, args))
  }

  lemma AddGranteeReports(foreign: Foreign, t: Tables, args: string)
    ensures Reports(foreign, t, ACTION_ADD_GRANTEE, args, Execute(foreign, AddGrantee, t, args))
  {
    hide TrimSpace;
  }

  lemma AddApprovalUserReports(foreign: Foreign, t: Tables, args: string)
    ensures Reports(foreign, t, ACTION_ADD_APPROVAL_USER, args, Execute(foreign, AddApprovalUser, t, args))
  {
    hide TrimSpace, Lower;
  }

  lemma WhitelistDocReports(foreign: Foreign, t: Tables, args: string)
    ensures Reports(foreign, t, ACTION_WHITELIST_DOC, args, Execute(foreign, WhitelistDoc, t, args))
  {
    hide TrimSpace;
  }

  lemma AuthorizeEmailReports(foreign: Foreign, t: Tables, args: string)
    ensures Reports(foreign, t, ACTION_AUTHORIZE_GRANTEE_EMAIL, args,
        Execute(foreign, AuthorizeGranteeEmail, t, args))
  {
    if foreign.decodeAuthorizeEmail(args).Some? {
      TrimmedKeyIsNotEmpty(foreign.decodeAuthorizeEmail(args).value.email);
    }
    hide TrimSpace, EmailKey, BackfillMessages, AssignThreadsOf, UpsertEmail;
  }

  lemma UnknownReports(foreign: Foreign, t: Tables, action: string, args: string)
    requires !Known(action)
    ensures Reports(foreign, t, action, args, Err(UnknownAction))
  {
    hide RequiredFields, Known;
  }

  /** When an action is refused, and with which error. */
  lemma DispatchRefuses(foreign: Foreign, t: Tables, action: string, args: string)
    ensures Reports(foreign, t, action, args, Dispatch(foreign, REGISTERED, t, action, args))
  {
    AddGranteeReports(foreign, t, args);
    AddApprovalUserReports(foreign, t, args);
    WhitelistDocReports(foreign, t, args);
    AuthorizeEmailReports(foreign, t, args);
    if !Known(action) {
      UnknownReports(foreign, t, action, args);
    }
    hide Reports, Execute;
  }

  // ---------- what an approval means ----------

  lemma PerformHasEffect(c: Config, t: Tables, row: ActionRow)
    requires c.handlers == REGISTERED
    ensures match Perform(c, t, row)
            case Ok(t') => Admits(c.foreign, t, row.action, RawOrEmpty(row.args))
                           && Effect(c.foreign, row.action, RawOrEmpty(row.args), t, t')
            case Err(_) => !Admits(c.foreign, t, row.action, RawOrEmpty(row.args))
  {
    hide Effect, Admits, Dispatch;
    DispatchRefuses(c.foreign, t, row.action, RawOrEmpty(row.args));
    if Perform(c, t, row).Ok? {
      DispatchHasEffect(c.foreign, t, row.action, RawOrEmpty(row.args));
    }
  }

  /**
   An uninterrupted request that is authorized: if the row's action is admissible it has its effect, the row ends
   executed and the request succeeds; if not, the row ends failed, and no other row of any table changes.
   */
  lemma ApprovalHasEffect(c: Config, t: Tables, req: Request)
    requires c.handlers == REGISTERED && Authorized(c, t, req)
    ensures var (t', reply) := Alone(c, t, Approvals.Begin(req));
            var id, row := req.id.value, t.actions[req.id.value];
            && id in t'.actions && t'.actions == t.actions[id := t'.actions[id]]
            && if Admits(c.foreign, t, row.action, RawOrEmpty(row.args)) then
                 && reply == Approved(id) && t'.actions[id].status == Executed
                 && Effect(c.foreign, row.action, RawOrEmpty(row.args), t, t'.(actions := t.actions))
               else
                 && reply == ServerError && t'.actions[id].status == ApprovalTables.Failed
                 && t' == t.(actions := t'.actions)
  {
    var row := t.actions[req.id.value];
    AloneOutcome(c, t, req);
    PerformHasEffect(c, t, row);
    DispatchKeepsQueue(c, t, row);
    hide Effect, Admits, Verifies, Perform, Alone;
    if Perform(c, t, row).Ok? {
      var done := Perform(c, t, row).value;
      assert Alone(c, t, Approvals.Begin(req)).0.(actions := t.actions) == done;
    }
  }

  lemma DispatchMoves(c: Config, ws: seq<World>, moves: seq<Move>, k: nat, r: nat, id: int, row: ActionRow, body: Body,
      key: string, result: Result<(), ActionError>)
    requires Run(c, ws, moves) && Dispatches(c, ws, moves, k, r, id, row, body, key, result)
    ensures ws[k + 1].t == After(ws[k].t, Perform(c, ws[k].t, row)) && Outcome(Perform(c, ws[k].t, row)) == result
  {
    hide Perform, MarkRow, CheckSignature, LoadRow;
    assert Next(c, ws[k], moves[k], ws[k + 1]);
  }

  /** At move k the row's action was carried out, or found inadmissible with all tables left as they were. */
  ghost predicate Carried(c: Config, ws: seq<World>, moves: seq<Move>, k: nat, row: ActionRow) {
    && k < |moves| && k + 1 < |ws| && moves[k].Go?
    && if row.status == Executed then Effect(c.foreign, row.action, RawOrEmpty(row.args), ws[k].t, ws[k + 1].t)
       else !Admits(c.foreign, ws[k].t, row.action, RawOrEmpty(row.args)) && ws[k + 1].t == ws[k].t
  }

  /** Behind every row that is executed stands a move of the run that had its action's effect; behind a failed one,
   a move that found it inadmissible. */
  lemma DecidedIsCarried(c: Config, ws: seq<World>, moves: seq<Move>, n: nat, id: int) returns (k: nat)
    requires Run(c, ws, moves) && c.handlers == REGISTERED && n < |ws|
    requires id in ws[n].t.actions && ws[n].t.actions[id].status != Pending
    ensures k < n && Carried(c, ws, moves, k, ws[n].t.actions[id])
  {
    var row := ws[n].t.actions[id];
    DecidedMeansApproved(c, ws, moves, n, id);
    hide Run, Next, Effect, Admits, Perform, Verified;
    var r: nat, read: ActionRow, body: Body, key: string, result: Result<(), ActionError> :|
      && Performed(c, ws, moves, n, r, id, read, body, key, result)
      && read.action == row.action && read.args == row.args
      && body.email == row.approvedBy
      && (row.status == Executed <==> result.Ok?);
    k :| 0 <= k < n
      && Dispatches(c, ws, moves, k, r, id, read, body, key, result)
      && Verified(c, ws, moves, k, r, id, read, body, key);
    assert moves[k].Go? && k + 1 < |ws|;
    hide Dispatches;
    DispatchMoves(c, ws, moves, k, r, id, read, body, key, result);
    PerformHasEffect(c, ws[k].t, read);
  }
}
