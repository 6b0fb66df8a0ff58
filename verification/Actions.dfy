/**
 The registry of executors and the four approval-gated actions (internal/approval/executor.go and
 internal/actions/handlers.go). The closures that the program registers are the constructors of Handler.
 */
module Actions {
  import opened Wrappers
  import opened Text
  import opened MailTables
  import opened ApprovalTables
  import opened Sources

  datatype AddGranteeArgs = AddGranteeArgs(slug: string, displayName: string)
  datatype AddApprovalUserArgs = AddApprovalUserArgs(email: string, publicKey: string)
  datatype WhitelistDocArgs = WhitelistDocArgs(grantee: string, drive: string, sourceType: string)
  datatype AuthorizeEmailArgs = AuthorizeEmailArgs(grantee: string, email: string)

  /**
   What other libraries decide: argument decoding, key fingerprints, JSON and signatures; and the wording of errors.
   */
  datatype Foreign = Foreign(
    decodeAddGrantee: string -> Option<AddGranteeArgs>,
    decodeAddApprovalUser: string -> Option<AddApprovalUserArgs>,
    decodeWhitelistDoc: string -> Option<WhitelistDocArgs>,
    decodeAuthorizeEmail: string -> Option<AuthorizeEmailArgs>,
    fingerprint: string -> Option<string>,
    jsonb: string -> Option<string>,
    compact: string -> Option<string>,
    verify: (string, string, string) -> bool,
    describe: ActionError -> string)

  datatype Handler = AddGrantee | AddApprovalUser | WhitelistDoc | AuthorizeGranteeEmail

  datatype ActionError =
    | UnknownAction
    | BadArgs
    | Missing
    | BadKey
    | BadSourceType
    | NoSuchGrantee
    | StoreFails(error: StoreError)

  const ACTION_ADD_GRANTEE := "add_grantee"
  const ACTION_ADD_APPROVAL_USER := "add_approval_user"
  const ACTION_WHITELIST_DOC := "whitelist_doc"
  const ACTION_AUTHORIZE_GRANTEE_EMAIL := "authorize_grantee_email"

  const REGISTERED: map<string, Handler> := map[
    ACTION_ADD_GRANTEE := AddGrantee,
    ACTION_ADD_APPROVAL_USER := AddApprovalUser,
    ACTION_WHITELIST_DOC := WhitelistDoc,
    ACTION_AUTHORIZE_GRANTEE_EMAIL := AuthorizeGranteeEmail]

  function FromStore(r: Result<Tables, StoreError>): Result<Tables, ActionError> {
    match r
    case Ok(t) => Ok(t)
    case Err(e) => Err(StoreFails(e))
  }

  function WithMail(t: Tables, r: Result<MailDb, StoreError>): Result<Tables, ActionError> {
    match r
    case Ok(db) => Ok(t.(mail := db))
    case Err(e) => Err(StoreFails(e))
  }

  function RunAddGrantee(t: Tables, a: AddGranteeArgs): Result<Tables, ActionError> {
    var slug := TrimSpace(a.slug);
    if slug == "" then Err(Missing) else WithMail(t, EnsureGrantee(t.mail, slug, a.displayName))
  }

  function RunAddApprovalUser(foreign: Foreign, t: Tables, a: AddApprovalUserArgs): Result<Tables, ActionError> {
    var email, key := TrimSpace(a.email), TrimSpace(a.publicKey);
    if email == "" || key == "" then Err(Missing) else
      match foreign.fingerprint(key)
      case None => Err(BadKey)
      case Some(fp) => FromStore(UpsertApprovalUser(t, email, key, fp))
  }

  function RunWhitelistDoc(t: Tables, a: WhitelistDocArgs): Result<Tables, ActionError> {
    var grantee, drive := TrimSpace(a.grantee), TrimSpace(a.drive);
    if grantee == "" || drive == "" then Err(Missing)
    else if !KnownSourceType(a.sourceType) then Err(BadSourceType)
    else if grantee !in t.mail.grantees then Err(NoSuchGrantee)
    else FromStore(UpsertSource(t, grantee, a.sourceType, drive))
  }

  function RunAuthorizeEmail(t: Tables, a: AuthorizeEmailArgs): Result<Tables, ActionError> {
    var grantee, email := TrimSpace(a.grantee), TrimSpace(a.email);
    if grantee == "" || email == "" then Err(Missing)
    else if grantee !in t.mail.grantees then Err(NoSuchGrantee)
    else WithMail(t, AddGranteeEmail(t.mail, grantee, email))
  }

  function Execute(foreign: Foreign, h: Handler, t: Tables, args: string): Result<Tables, ActionError> {
    match h
    case AddGrantee =>
      var a := foreign.decodeAddGrantee(args);
      if a.None? then Err(BadArgs) else RunAddGrantee(t, a.value)
    case AddApprovalUser =>
      var a := foreign.decodeAddApprovalUser(args);
      if a.None? then Err(BadArgs) else RunAddApprovalUser(foreign, t, a.value)
    case WhitelistDoc =>
      var a := foreign.decodeWhitelistDoc(args);
      if a.None? then Err(BadArgs) else RunWhitelistDoc(t, a.value)
    case AuthorizeGranteeEmail =>
      var a := foreign.decodeAuthorizeEmail(args);
      if a.None? then Err(BadArgs) else RunAuthorizeEmail(t, a.value)
  }

  function Dispatch(foreign: Foreign, handlers: map<string, Handler>, t: Tables, action: string,
      args: string): Result<Tables, ActionError> {
    if action !in handlers then Err(UnknownAction) else Execute(foreign, handlers[action], t, args)
  }

  /** The tables after a dispatch; a failed one leaves them as they were. */
  function After(t: Tables, r: Result<Tables, ActionError>): Tables {
    match r
    case Ok(t') => t'
    case Err(_) => t
  }

  // ---------- idempotence ----------

  /** Everything a query can see: all tables, without the position of the source sequence. */
  function Rows(t: Tables): Tables {
    t.(sourceSeq := 0)
  }

  /** Once threads and messages are filled in for an address, filling them in again changes nothing. */
  lemma BackfillTwice(db: MailDb, key: string, g: string)
    requires key in db.emails && db.emails[key] == g
    ensures var once := BackfillMessages(AssignThreadsOf(db, key, g), g);
            BackfillMessages(AssignThreadsOf(UpsertEmail(once, key, g), key, g), g) == once
  {
    var once := BackfillMessages(AssignThreadsOf(db, key, g), g);
    assert UpsertEmail(once, key, g).emails == once.emails;
    assert AssignThreadsOf(once, key, g).threads == once.threads;
    assert BackfillMessages(once, g).messages == once.messages;
  }

  lemma AuthorizeTwice(db: MailDb, g: string, email: string)
    requires AddGranteeEmail(db, g, email).Ok?
    ensures AddGranteeEmail(AddGranteeEmail(db, g, email).value, g, email) == AddGranteeEmail(db, g, email)
  {
    var key := EmailKey(email);
    BackfillTwice(UpsertEmail(db, key, g), key, g);
  }

  lemma ExecuteTwice(foreign: Foreign, h: Handler, t: Tables, args: string)
    requires Execute(foreign, h, t, args).Ok?
    ensures var once := Execute(foreign, h, t, args).value;
            var twice := Execute(foreign, h, once, args);
            twice.Ok? && Rows(twice.value) == Rows(once)
  {
    hide Lower, TrimSpace;
    var once := Execute(foreign, h, t, args).value;
    match h
    case AddGrantee =>
    case AddApprovalUser =>
      var a := foreign.decodeAddApprovalUser(args).value;
      var key := Lower(TrimSpace(a.email));
      assert once.operators[key := once.operators[key]] == once.operators;
    case WhitelistDoc =>
      var a := foreign.decodeWhitelistDoc(args).value;
      var key := SourceKey(TrimSpace(a.grantee), TrimSpace(a.drive));
      assert once.sources[key := once.sources[key]] == once.sources;
    case AuthorizeGranteeEmail =>
      var a := foreign.decodeAuthorizeEmail(args).value;
      AuthorizeTwice(t.mail, TrimSpace(a.grantee), TrimSpace(a.email));
  }

  /** Dispatching an action twice in a row leaves the rows of every table as once, and reports the same. */
  lemma DispatchTwice(foreign: Foreign, handlers: map<string, Handler>, t: Tables, action: string, args: string)
    ensures var r := Dispatch(foreign, handlers, t, action, args);
            var again := Dispatch(foreign, handlers, After(t, r), action, args);
            && Rows(After(After(t, r), again)) == Rows(After(t, r))
            && again.Ok? == r.Ok?
            && (r.Err? ==> again == r)
  {
    if action in handlers && Execute(foreign, handlers[action], t, args).Ok? {
      ExecuteTwice(foreign, handlers[action], t, args);
    }
  }

  // ---------- what an executor can touch ----------

  /** The operator that a successful dispatch enters, if the action is one that enters operators. */
  function GrantedTo(foreign: Foreign, handlers: map<string, Handler>, action: string, args: string)
    : Option<(string, string)> {
    if action !in handlers || handlers[action] != AddApprovalUser then None else
      match foreign.decodeAddApprovalUser(args)
      case None => None
      case Some(a) => Some((Lower(TrimSpace(a.email)), TrimSpace(a.publicKey)))
  }

  /** What an executor may change: never the queue, and no operator but the one it is told to enter. */
  ghost predicate Touches(t: Tables, t': Tables, grant: Option<(string, string)>) {
    && t'.actions == t.actions && t'.actionSeq == t.actionSeq
    && match grant
       case None => t'.operators == t.operators
       case Some((key, publicKey)) =>
         && key in t'.operators && t'.operators[key].publicKey == publicKey
         && t'.operators == t.operators[key := t'.operators[key]]
  }

  lemma AddApprovalUserTouches(foreign: Foreign, t: Tables, a: AddApprovalUserArgs)
    requires RunAddApprovalUser(foreign, t, a).Ok?
    ensures Touches(t, RunAddApprovalUser(foreign, t, a).value,
        Some((Lower(TrimSpace(a.email)), TrimSpace(a.publicKey))))
  {
  }

  /** Only add_approval_user enters or changes an operator, and exactly the one its arguments name. */
  lemma DispatchTouches(foreign: Foreign, handlers: map<string, Handler>, t: Tables, action: string, args: string)
    requires Dispatch(foreign, handlers, t, action, args).Ok?
    ensures Touches(t, Dispatch(foreign, handlers, t, action, args).value, GrantedTo(foreign, handlers, action, args))
  {
    match handlers[action]
    case AddApprovalUser => AddApprovalUserTouches(foreign, t, foreign.decodeAddApprovalUser(args).value);
    case AddGrantee =>
    case WhitelistDoc =>
    case AuthorizeGranteeEmail =>
  }
}
