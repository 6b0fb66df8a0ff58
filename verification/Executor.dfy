/** The registry of executors as the approval service holds it, and the executors themselves. */
module Executor {
  import opened Wrappers
  import opened Text
  import opened MailTables
  import opened ApprovalTables
  import opened Sources
  import ApprovalStore
  import opened Actions

  class Registry {
    var handlers: map<string, Handler>

    constructor ()
      ensures handlers == map[]
    {
      handlers := map[];
    }

    method Register(action: string, h: Handler)
      modifies this
      ensures handlers == old(handlers)[action := h]
    {
      handlers := handlers[action := h];
    }

    method RegisterAll()
      modifies this
      ensures handlers == old(handlers) + REGISTERED
    {
      Register(ACTION_ADD_GRANTEE, AddGrantee);
      Register(ACTION_ADD_APPROVAL_USER, AddApprovalUser);
      Register(ACTION_WHITELIST_DOC, WhitelistDoc);
      Register(ACTION_AUTHORIZE_GRANTEE_EMAIL, AuthorizeGranteeEmail);
    }

    /** Has tells exactly the actions that Dispatch does not turn away as unknown. */
    method Has(action: string) returns (found: bool)
      ensures forall foreign, t, args :: Actions.Dispatch(foreign, handlers, t, action, args) == Err(UnknownAction) <==>
              !found
    {
      found := action in handlers;
    }

    method Dispatch(foreign: Foreign, st: ApprovalStore.Store, action: string, args: string)
        returns (r: Result<(), ActionError>)
      modifies st, st.mail
      ensures match Actions.Dispatch(foreign, handlers, old(st.Contents()), action, args)
              case Ok(t) => r == Ok(()) && st.Contents() == t
              case Err(e) => r == Err(e) && st.Contents() == old(st.Contents())
    {
      if action !in handlers {
        return Err(UnknownAction);
      }
      match handlers[action]
      case AddGrantee => r := ExecAddGrantee(foreign, st, args);
      case AddApprovalUser => r := ExecAddApprovalUser(foreign, st, args);
      case WhitelistDoc => r := ExecWhitelistDoc(foreign, st, args);
      case AuthorizeGranteeEmail => r := ExecAuthorizeEmail(foreign, st, args);
    }
  }

  /** What an executor returns for the store's answer. */
  function Answer<T>(e: Result<T, StoreError>): Result<(), ActionError> {
    match e
    case Ok(_) => Ok(())
    case Err(error) => Err(StoreFails(error))
  }

  method ExecAddGrantee(foreign: Foreign, st: ApprovalStore.Store, args: string) returns (r: Result<(), ActionError>)
    modifies st.mail
    ensures match Execute(foreign, AddGrantee, old(st.Contents()), args)
            case Ok(t) => r == Ok(()) && st.Contents() == t
            case Err(e) => r == Err(e) && st.Contents() == old(st.Contents())
  {
    var a := foreign.decodeAddGrantee(args);
    if a.None? {
      return Err(BadArgs);
    }
    var slug := TrimSpace(a.value.slug);
    if slug == "" {
      return Err(Missing);
    }
    var e := st.mail.EnsureGrantee(slug, a.value.displayName);
    r := Answer(e);
  }

  method ExecAddApprovalUser(foreign: Foreign, st: ApprovalStore.Store, args: string)
      returns (r: Result<(), ActionError>)
    modifies st
    ensures match Execute(foreign, AddApprovalUser, old(st.Contents()), args)
            case Ok(t) => r == Ok(()) && st.Contents() == t
            case Err(e) => r == Err(e) && st.Contents() == old(st.Contents())
  {
    var a := foreign.decodeAddApprovalUser(args);
    if a.None? {
      return Err(BadArgs);
    }
    var email := TrimSpace(a.value.email);
    if email == "" {
      return Err(Missing);
    }
    var publicKey := TrimSpace(a.value.publicKey);
    if publicKey == "" {
      return Err(Missing);
    }
    var fingerprint := foreign.fingerprint(publicKey);
    if fingerprint.None? {
      return Err(BadKey);
    }
    var e := st.UpsertApprovalUser(email, publicKey, fingerprint.value);
    r := Answer(e);
  }

  method ExecWhitelistDoc(foreign: Foreign, st: ApprovalStore.Store, args: string) returns (r: Result<(), ActionError>)
    modifies st
    ensures match Execute(foreign, WhitelistDoc, old(st.Contents()), args)
            case Ok(t) => r == Ok(()) && st.Contents() == t
            case Err(e) => r == Err(e) && st.Contents() == old(st.Contents())
  {
    var a := foreign.decodeWhitelistDoc(args);
    if a.None? {
      return Err(BadArgs);
    }
    var grantee := TrimSpace(a.value.grantee);
    if grantee == "" {
      return Err(Missing);
    }
    var drive := TrimSpace(a.value.drive);
    if drive == "" {
      return Err(Missing);
    }
    if !KnownSourceType(a.value.sourceType) {
      return Err(BadSourceType);
    }
    var known := st.mail.HasGrantee(grantee);
    if !known {
      return Err(NoSuchGrantee);
    }
    var e := st.UpsertSource(grantee, a.value.sourceType, drive);
    r := Answer(e);
  }

  method ExecAuthorizeEmail(foreign: Foreign, st: ApprovalStore.Store, args: string)
      returns (r: Result<(), ActionError>)
    modifies st.mail
    ensures match Execute(foreign, AuthorizeGranteeEmail, old(st.Contents()), args)
            case Ok(t) => r == Ok(()) && st.Contents() == t
            case Err(e) => r == Err(e) && st.Contents() == old(st.Contents())
  {
    var a := foreign.decodeAuthorizeEmail(args);
    if a.None? {
      return Err(BadArgs);
    }
    var grantee := TrimSpace(a.value.grantee);
    if grantee == "" {
      return Err(Missing);
    }
    var email := TrimSpace(a.value.email);
    if email == "" {
      return Err(Missing);
    }
    var known := st.mail.HasGrantee(grantee);
    if !known {
      return Err(NoSuchGrantee);
    }
    var e := st.mail.AddGranteeEmail(grantee, email);
    r := Answer(e);
  }
}
