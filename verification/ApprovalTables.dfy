/**
 The tables the approval service works on, and the effect of each statement on them
 (internal/store/approvals.go, and UpsertSource and GetGrantee of internal/store/store.go).
 */
module ApprovalTables {
  import opened Wrappers
  import opened Text
  import opened MailTables
  import opened Sources

  datatype Status = Pending | Executed | Failed | Rejected

  datatype ActionRow = ActionRow(
    action: string, args: string, metadata: string, requestedBy: string,
    status: Status, approvedBy: string, lastError: string)

  datatype Operator = Operator(email: string, publicKey: string, fingerprint: string)

  datatype SourceKey = SourceKey(grantee: string, drive: string)

  datatype Source = Source(id: nat, sourceType: string)

  /** Operators are keyed by their address in lower case: the primary key is of type CITEXT. */
  datatype Tables = Tables(
    mail: MailDb,
    sources: map<SourceKey, Source>,
    sourceSeq: nat,
    operators: map<string, Operator>,
    actions: map<int, ActionRow>,
    actionSeq: nat)

  // ---------- statements ----------

  /** jsonb is the input conversion of a JSONB column; it rejects text that is not JSON. */
  function EnqueueAction(
    jsonb: string -> Option<string>, t: Tables, action: string, args: string, metadata: string, requestedBy: string
  ): Option<Tables> {
    var storedArgs := jsonb(if args == "" then "{}" else args);
    var storedMetadata := jsonb(if metadata == "" then "{}" else metadata);
    if action == "" || storedArgs.None? || storedMetadata.None? then None else
      var id := t.actionSeq + 1;
      var row := ActionRow(action, storedArgs.value, storedMetadata.value, requestedBy, Pending, "", "");
      Some(t.(actions := t.actions[id := row], actionSeq := id))
  }

  /** UPDATE … WHERE id = ? AND status = 'pending' */
  function MarkActionExecuted(t: Tables, id: int, approvedBy: string): Result<Tables, StoreError> {
    if id in t.actions && t.actions[id].status == Pending then
      Ok(t.(actions := t.actions[id := t.actions[id].(status := Executed, approvedBy := approvedBy, lastError := "")]))
    else Err(NotFound)
  }

  function MarkActionFailed(t: Tables, id: int, approvedBy: string, message: string): Result<Tables, StoreError> {
    if id in t.actions && t.actions[id].status == Pending then
      Ok(t.(actions := t.actions[id := t.actions[id].(status := Failed, approvedBy := approvedBy,
          lastError := message)]))
    else Err(NotFound)
  }

  function UpsertApprovalUser(t: Tables, email: string, publicKey: string,
      fingerprint: string): Result<Tables, StoreError> {
    if email == "" || publicKey == "" || fingerprint == "" then Err(Required) else
      var key := Lower(email);
      // an update keeps the spelling under which the operator was first entered
      var spelling := if key in t.operators then t.operators[key].email else email;
      Ok(t.(operators := t.operators[key := Operator(spelling, publicKey, fingerprint)]))
  }

  function GetApprovalUser(t: Tables, email: string): Option<Operator> {
    var key := Lower(email);
    if key in t.operators then Some(t.operators[key]) else None
  }

  function RemoveApprovalUser(t: Tables, email: string): Result<Tables, StoreError> {
    var key := Lower(email);
    if key in t.operators then Ok(t.(operators := t.operators - {key})) else Err(NotFound)
  }

  /** The identity sequence advances on a conflict too; the row keeps its id and takes the new type. */
  function UpsertSource(t: Tables, grantee: string, sourceType: string, drive: string): Result<Tables, StoreError> {
    if grantee == "" || !KnownSourceType(sourceType) || drive == "" then Err(Required)
    else if grantee !in t.mail.grantees then Err(ForeignKey)
    else
      var key := SourceKey(grantee, drive);
      var next := t.sourceSeq + 1;
      var id := if key in t.sources then t.sources[key].id else next;
      Ok(t.(sources := t.sources[key := Source(id, sourceType)], sourceSeq := next))
  }

  // ---------- what is queued ----------

  /** The row as it was asked for: pending, under its own name, with its documents as the database stores them. */
  ghost predicate AskedFor(jsonb: string -> Option<string>, action: string, args: string, metadata: string,
      requestedBy: string, row: ActionRow) {
    && row.action == action && row.requestedBy == requestedBy
    && jsonb(if args == "" then "{}" else args) == Some(row.args)
    && jsonb(if metadata == "" then "{}" else metadata) == Some(row.metadata)
  }

  /** Queueing is refused exactly for a missing name or text that is not JSON; else one row is added, as asked for. */
  lemma EnqueueRecords(jsonb: string -> Option<string>, t: Tables, action: string, args: string, metadata: string,
      requestedBy: string)
    ensures var r := EnqueueAction(jsonb, t, action, args, metadata, requestedBy);
            && (r.None? <==>
                  || action == "" || jsonb(if args == "" then "{}" else args).None?
                  || jsonb(if metadata == "" then "{}" else metadata).None?)
            && (r.Some? ==>
                  && r.value.actions.Keys == t.actions.Keys + {r.value.actionSeq} && r.value.actionSeq > t.actionSeq
                  && (forall id :: id in t.actions && id <= t.actionSeq ==> r.value.actions[id] == t.actions[id])
                  && r.value == t.(actions := r.value.actions, actionSeq := r.value.actionSeq)
                  && var row := r.value.actions[r.value.actionSeq];
                     && AskedFor(jsonb, action, args, metadata, requestedBy, row)
                     && row.status == Pending && row.approvedBy == "" && row.lastError == "")
  {
  }

  // ---------- operators and sources across calls ----------

  /**
   An operator is found under any spelling of the address with the key last entered, other operators are
   as before, and removing undoes entering.
   */
  lemma OperatorRoundTrip(t: Tables, email: string, publicKey: string, fingerprint: string, spelling: string,
      other: string)
    requires UpsertApprovalUser(t, email, publicKey, fingerprint).Ok?
    requires Lower(spelling) == Lower(email) && Lower(other) != Lower(email)
    ensures var after := UpsertApprovalUser(t, email, publicKey, fingerprint).value;
            && GetApprovalUser(after, spelling).Some?
            && GetApprovalUser(after, spelling).value.publicKey == publicKey
            && GetApprovalUser(after, spelling).value.fingerprint == fingerprint
            && GetApprovalUser(after, other) == GetApprovalUser(t, other)
            && RemoveApprovalUser(after, spelling).Ok?
            && var removed := RemoveApprovalUser(after, spelling).value;
               && GetApprovalUser(removed, email) == None
               && GetApprovalUser(removed, other) == GetApprovalUser(t, other)
               && RemoveApprovalUser(removed, email) == Err(NotFound)
  {
  }

  ghost predicate SourceIds(t: Tables) {
    && (forall k :: k in t.sources ==> 0 < t.sources[k].id <= t.sourceSeq)
    && forall j, k :: j in t.sources && k in t.sources && t.sources[j].id == t.sources[k].id ==> j == k
  }

  /** Whitelisting again keeps the source's id, for good; a new source gets an id of its own. */
  lemma SourceKeepsId(t: Tables, grantee: string, sourceType: string, drive: string, key: SourceKey)
    requires SourceIds(t) && UpsertSource(t, grantee, sourceType, drive).Ok?
    ensures var after := UpsertSource(t, grantee, sourceType, drive).value;
            && SourceIds(after)
            && SourceKey(grantee, drive) in after.sources
            && after.sources[SourceKey(grantee, drive)].sourceType == sourceType
            && (key in t.sources ==> key in after.sources && after.sources[key].id == t.sources[key].id)
            && (key in t.sources && key != SourceKey(grantee, drive) ==> after.sources[key] == t.sources[key])
  {
  }
}
