/** The approve request as the HTTP handler runs it (internal/approvalserver/handlers.go). */
module ApprovalServer {
  import opened Wrappers
  import opened Text
  import opened ApprovalTables
  import opened Actions
  import opened Approvals
  import ApprovalStore
  import Executor
  import Signing

  function StepsLeft(pc: Pc): nat {
    match pc
    case Begin(_) => 5
    case Load(_, _) => 4
    case FindKey(_, _, _) => 3
    case Dispatching(_, _, _, _) => 2
    case Mark(_, _, _, _, _) => 1
    case Replied(_) => 0
  }

  /** The rest of a request that nothing interrupts. */
  function Alone(c: Config, t: Tables, pc: Pc): (Tables, Reply)
    decreases StepsLeft(pc)
  {
    if pc.Replied? then (t, pc.reply) else
      var (t', pc') := Step(c, t, pc);
      Alone(c, t', pc')
  }

  // ---------- what an uninterrupted request does ----------

  /** The request is well formed, names a pending row, and is signed under its operator's key. */
  ghost predicate Authorized(c: Config, t: Tables, req: Request) {
    && req.id.Some? && req.body.Some? && req.id.value > 0
    && req.body.value.email != "" && req.body.value.signature != ""
    && req.id.value in t.actions && t.actions[req.id.value].status == Pending
    && Lower(req.body.value.email) in t.operators
    && Verifies(c, req.id.value, t.actions[req.id.value], req.body.value,
        t.operators[Lower(req.body.value.email)].publicKey)
  }

  lemma DispatchKeepsQueue(c: Config, t: Tables, row: ActionRow)
    ensures After(t, Perform(c, t, row)).actions == t.actions
  {
    if Perform(c, t, row).Ok? {
      DispatchTouches(c.foreign, c.handlers, t, row.action, RawOrEmpty(row.args));
    }
  }

  /** The checks in a row: nothing is written until all have passed. */
  function Checked(c: Config, t: Tables, req: Request): (pc: Pc)
    ensures pc.Dispatching? || pc.Replied?
  {
    var pc := Parse(req);
    if pc.Replied? then pc else
      var found := LoadRow(t, pc.id, pc.body);
      if found.Replied? then found else CheckSignature(c, t, found.id, found.row, found.body)
  }

  lemma AloneChecks(c: Config, t: Tables, req: Request)
    ensures Alone(c, t, Begin(req)) == Alone(c, t, Checked(c, t, req))
  {
    var pc := Parse(req);
    assert Alone(c, t, Begin(req)) == Alone(c, t, pc);
    if pc.Load? {
      var found := LoadRow(t, pc.id, pc.body);
      assert Alone(c, t, pc) == Alone(c, t, found);
    }
  }

  lemma AloneFromDispatch(c: Config, t: Tables, pc: Pc)
    requires pc.Dispatching?
    ensures var r := Perform(c, t, pc.row);
            var (t', reply) := MarkRow(c, After(t, r), pc.id, pc.body.email, Outcome(r));
            Alone(c, t, pc) == (t', reply)
  {
    var (t', pc') := Step(c, t, pc);
    assert Alone(c, t', pc') == MarkRow(c, t', pc.id, pc.body.email, pc'.result);
  }

  /**
   Run on its own, a request changes anything at all only if it is authorized; then the row's action is
   performed, and the row ends executed or failed, under the approver's name, as the action went.
   */
  lemma AloneOutcome(c: Config, t: Tables, req: Request)
    ensures var (t', reply) := Alone(c, t, Begin(req));
            if Authorized(c, t, req) then
              var id, email := req.id.value, req.body.value.email;
              var row := t.actions[id];
              (match Perform(c, t, row)
               case Ok(done) =>
                 && reply == Approved(id)
                 && t' == done.(actions := t.actions[id := row.(status := Executed, approvedBy := email,
                     lastError := "")])
               case Err(e) =>
                 && reply == ServerError
                 && t' == t.(actions := t.actions[id := row.(status := Failed, approvedBy := email,
                     lastError := c.foreign.describe(e))]))
            else t' == t && !reply.Approved?
  {
    var pc := Checked(c, t, req);
    AloneChecks(c, t, req);
    if pc.Dispatching? {
      DispatchKeepsQueue(c, t, pc.row);
      AloneFromDispatch(c, t, pc);
    }
  }

  /** The path and the body are in order. */
  predicate WellFormed(req: Request) {
    && req.id.Some? && req.id.value > 0 && req.body.Some?
    && req.body.value.email != "" && req.body.value.signature != ""
  }

  /** Which answer a request is refused with, in terms of the request and the rows. */
  lemma RefusalsAre(c: Config, t: Tables, req: Request)
    ensures var reply := Alone(c, t, Begin(req)).1;
            && (reply == BadRequest <==> !WellFormed(req))
            && (reply == NoSuchAction <==> WellFormed(req) && req.id.value !in t.actions)
            && (reply == NotPending <==>
                  WellFormed(req) && req.id.value in t.actions && t.actions[req.id.value].status != Pending)
            && (reply == Forbidden <==>
                  WellFormed(req) && req.id.value in t.actions && t.actions[req.id.value].status == Pending &&
                  !Authorized(c, t, req))
            && reply != Dropped
  {
    AloneChecks(c, t, req);
    if Authorized(c, t, req) {
      AloneOutcome(c, t, req);
    }
  }

  // ---------- the handler ----------

  class RestHandlers {
    const st: ApprovalStore.Store
    const registry: Executor.Registry

    constructor (st: ApprovalStore.Store, registry: Executor.Registry)
      ensures this.st == st && this.registry == registry
    {
      this.st := st;
      this.registry := registry;
    }

    method ApproveAction(foreign: Foreign, req: Request) returns (reply: Reply)
      modifies st, st.mail
      ensures (st.Contents(), reply) == Alone(Config(foreign, registry.handlers), old(st.Contents()), Begin(req))
    {
      ghost var c := Config(foreign, registry.handlers);
      ghost var t := st.Contents();
      AloneChecks(c, t, req);
      if req.id.None? || req.id.value <= 0 || req.body.None? {
        return BadRequest;
      }
      var id, body := req.id.value, req.body.value;
      if body.email == "" || body.signature == "" {
        return BadRequest;
      }
      var row := st.GetAction(id);
      if row.None? {
        return NoSuchAction;
      }
      if row.value.status != Pending {
        return NotPending;
      }
      var user := st.GetApprovalUser(body.email);
      if user.None? {
        return Forbidden;
      }
      var payload := Signing.SigningPayload(foreign.compact, id, row.value.action, RawOrEmpty(row.value.args));
      if !foreign.verify(user.value.publicKey, payload, body.signature) {
        return Forbidden;
      }
      AloneFromDispatch(c, t, Dispatching(id, row.value, body, user.value.publicKey));
      var done := registry.Dispatch(foreign, st, row.value.action, RawOrEmpty(row.value.args));
      if done.Err? {
        var _ := st.MarkActionFailed(id, body.email, foreign.describe(done.error));
        return ServerError;
      }
      var marked := st.MarkActionExecuted(id, body.email);
      reply := if marked then Approved(id) else ServerError;
    }
  }
}
