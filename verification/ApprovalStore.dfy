/** The approval half of the store (internal/store/approvals.go): one method a statement. */
module ApprovalStore {
  import opened Wrappers
  import opened Text
  import opened MailTables
  import MailStore
  import opened ApprovalTables
  import opened Sources

  class Store {
    const mail: MailStore.Store
    var sources: map<SourceKey, Source>
    var sourceSeq: nat
    var operators: map<string, Operator>
    var actions: map<int, ActionRow>
    var actionSeq: nat

    ghost function Contents(): Tables
      reads this, mail
    {
      Tables(mail.Db(), sources, sourceSeq, operators, actions, actionSeq)
    }

    constructor (mail: MailStore.Store)
      ensures Contents() == Tables(mail.Db(), map[], 0, map[], map[], 0) && this.mail == mail
    {
      this.mail := mail;
      sources, sourceSeq, operators, actions, actionSeq := map[], 0, map[], map[], 0;
    }

    method EnqueueAction(jsonb: string -> Option<string>, action: string, args: string, metadata: string,
        requestedBy: string)
      returns (id: Option<nat>)
      modifies this
      ensures match ApprovalTables.EnqueueAction(jsonb, old(Contents()), action, args, metadata, requestedBy)
              case Some(t) => Contents() == t && id == Some(t.actionSeq)
              case None => Contents() == old(Contents()) && id == None
    {
      if action == "" {
        return None;
      }
      var storedArgs := jsonb(if args == "" then "{}" else args);
      var storedMetadata := jsonb(if metadata == "" then "{}" else metadata);
      if storedArgs.None? || storedMetadata.None? {
        return None;
      }
      actionSeq := actionSeq + 1;
      actions := actions[actionSeq := ActionRow(action, storedArgs.value, storedMetadata.value,
          requestedBy, Pending, "", "")];
      id := Some(actionSeq);
    }

    method GetAction(id: int) returns (row: Option<ActionRow>)
      ensures row == if id in actions then Some(actions[id]) else None
    {
      row := if id in actions then Some(actions[id]) else None;
    }

    method MarkActionExecuted(id: int, approvedBy: string) returns (ok: bool)
      modifies this
      ensures match ApprovalTables.MarkActionExecuted(old(Contents()), id, approvedBy)
              case Ok(t) => ok && Contents() == t
              case Err(_) => !ok && Contents() == old(Contents())
    {
      ok := id in actions && actions[id].status == Pending;
      if ok {
        actions := actions[id := actions[id].(status := Executed, approvedBy := approvedBy, lastError := "")];
      }
    }

    method MarkActionFailed(id: int, approvedBy: string, message: string) returns (ok: bool)
      modifies this
      ensures match ApprovalTables.MarkActionFailed(old(Contents()), id, approvedBy, message)
              case Ok(t) => ok && Contents() == t
              case Err(_) => !ok && Contents() == old(Contents())
    {
      ok := id in actions && actions[id].status == Pending;
      if ok {
        actions := actions[id := actions[id].(status := Failed, approvedBy := approvedBy, lastError := message)];
      }
    }

    method UpsertApprovalUser(email: string, publicKey: string, fingerprint: string) returns (r: Result<(), StoreError>)
      modifies this
      ensures match ApprovalTables.UpsertApprovalUser(old(Contents()), email, publicKey, fingerprint)
              case Ok(t) => r == Ok(()) && Contents() == t
              case Err(e) => r == Err(e) && Contents() == old(Contents())
    {
      if email == "" || publicKey == "" || fingerprint == "" {
        return Err(Required);
      }
      var key := Lower(email);
      var spelling := if key in operators then operators[key].email else email;
      operators := operators[key := Operator(spelling, publicKey, fingerprint)];
      r := Ok(());
    }

    method GetApprovalUser(email: string) returns (user: Option<Operator>)
      ensures user == ApprovalTables.GetApprovalUser(Contents(), email)
    {
      var key := Lower(email);
      user := if key in operators then Some(operators[key]) else None;
    }

    method RemoveApprovalUser(email: string) returns (r: Result<(), StoreError>)
      modifies this
      ensures match ApprovalTables.RemoveApprovalUser(old(Contents()), email)
              case Ok(t) => r == Ok(()) && Contents() == t
              case Err(e) => r == Err(e) && Contents() == old(Contents())
    {
      var key := Lower(email);
      if key in operators {
        operators := operators - {key};
        r := Ok(());
      } else {
        r := Err(NotFound);
      }
    }

    method UpsertSource(grantee: string, sourceType: string, drive: string) returns (r: Result<nat, StoreError>)
      modifies this
      ensures match ApprovalTables.UpsertSource(old(Contents()), grantee, sourceType, drive)
              case Ok(t) => Contents() == t && r == Ok(t.sources[SourceKey(grantee, drive)].id)
              case Err(e) => Contents() == old(Contents()) && r == Err(e)
    {
      if grantee == "" || !KnownSourceType(sourceType) || drive == "" {
        return Err(Required);
      }
      var known := mail.HasGrantee(grantee);
      if !known {
        return Err(ForeignKey);
      }
      var key := SourceKey(grantee, drive);
      sourceSeq := sourceSeq + 1;
      var id := if key in sources then sources[key].id else sourceSeq;
      sources := sources[key := Source(id, sourceType)];
      r := Ok(id);
    }
  }
}
