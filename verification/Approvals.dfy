/**
 The approval protocol (internal/approvalserver/handlers.go): any number of approve requests, interleaved
 statement by statement with each other, with enqueueing, with operators being seeded and removed, and
 with everything else that goes on in the database.
 */
module Approvals {
  import opened Wrappers
  import opened Text
  import opened MailTables
  import opened ApprovalTables
  import opened Actions
  import Signing

  datatype Body = Body(email: string, signature: string)

  /** id is absent when the path does not hold a 64-bit number, body when it does not decode. */
  datatype Request = Request(id: Option<int>, body: Option<Body>)

  datatype Reply = BadRequest | NoSuchAction | NotPending | Forbidden | ServerError | Dropped | Approved(id: int)

  datatype Pc =
    | Begin(req: Request)
    | Load(id: int, body: Body)
    | FindKey(id: int, row: ActionRow, body: Body)
    | Dispatching(id: int, row: ActionRow, body: Body, key: string)
    | Mark(id: int, row: ActionRow, body: Body, key: string, result: Result<(), ActionError>)
    | Replied(reply: Reply)

  datatype Config = Config(foreign: Foreign, handlers: map<string, Handler>)

  function RawOrEmpty(args: string): string {
    if args == "" then "{}" else args
  }

  function Payload(c: Config, id: int, row: ActionRow): string {
    Signing.SigningPayload(c.foreign.compact, id, row.action, RawOrEmpty(row.args))
  }

  predicate Verifies(c: Config, id: int, row: ActionRow, body: Body, key: string) {
    c.foreign.verify(key, Payload(c, id, row), body.signature)
  }

  function Perform(c: Config, t: Tables, row: ActionRow): Result<Tables, ActionError> {
    Dispatch(c.foreign, c.handlers, t, row.action, RawOrEmpty(row.args))
  }

  function Outcome(r: Result<Tables, ActionError>): Result<(), ActionError> {
    match r
    case Ok(_) => Ok(())
    case Err(e) => Err(e)
  }

  // ---------- one request ----------

  function Parse(req: Request): Pc {
    if req.id.None? || req.id.value <= 0 || req.body.None? then Replied(BadRequest)
    else if req.body.value.email == "" || req.body.value.signature == "" then Replied(BadRequest)
    else Load(req.id.value, req.body.value)
  }

  function LoadRow(t: Tables, id: int, body: Body): Pc {
    if id !in t.actions then Replied(NoSuchAction)
    else if t.actions[id].status != Pending then Replied(NotPending)
    else FindKey(id, t.actions[id], body)
  }

  function CheckSignature(c: Config, t: Tables, id: int, row: ActionRow, body: Body): Pc {
    match GetApprovalUser(t, body.email)
    case None => Replied(Forbidden)
    case Some(user) =>
      if Verifies(c, id, row, body, user.publicKey) then Dispatching(id, row, body, user.publicKey)
          else Replied(Forbidden)
  }

  function MarkRow(c: Config, t: Tables, id: int, email: string, result: Result<(), ActionError>): (Tables, Reply) {
    match result
    case Ok(_) =>
      (match MarkActionExecuted(t, id, email)
       case Ok(t') => (t', Approved(id))
       case Err(_) => (t, ServerError))
    case Err(e) =>
      (match MarkActionFailed(t, id, email, c.foreign.describe(e))
       case Ok(t') => (t', ServerError)
       case Err(_) => (t, ServerError))
  }

  /** The next statement of a request. */
  function Step(c: Config, t: Tables, pc: Pc): (Tables, Pc)
    requires !pc.Replied?
  {
    match pc
    case Begin(req) => (t, Parse(req))
    case Load(id, body) => (t, LoadRow(t, id, body))
    case FindKey(id, row, body) => (t, CheckSignature(c, t, id, row, body))
    case Dispatching(id, row, body, key) =>
      var r := Perform(c, t, row);
      (After(t, r), Mark(id, row, body, key, Outcome(r)))
    case Mark(id, row, body, key, result) =>
      var (t', reply) := MarkRow(c, t, id, body.email, result);
      (t', Replied(reply))
  }

  // ---------- the system ----------

  datatype World = World(t: Tables, pcs: seq<Pc>)

  /** Seed is the bootstrap operator and the admin command; Elsewhere is whatever does not concern approvals. */
  datatype Move =
    | Enqueue(action: string, args: string, metadata: string, requestedBy: string)
    | Seed(email: string, publicKey: string)
    | Remove(email: string)
    | Receive(req: Request)
    | Go(r: nat)
    | Drop(r: nat)
    | Elsewhere(t: Tables)

  function SeedOperator(c: Config, t: Tables, email: string, publicKey: string): Result<Tables, StoreError> {
    match c.foreign.fingerprint(publicKey)
    case None => Err(Required)
    case Some(fp) => UpsertApprovalUser(t, email, publicKey, fp)
  }

  function OrElse(t: Tables, r: Result<Tables, StoreError>): Tables {
    match r
    case Ok(t') => t'
    case Err(_) => t
  }

  ghost predicate Next(c: Config, w: World, mv: Move, w': World) {
    match mv
    case Enqueue(action, args, metadata, who) =>
      var r := EnqueueAction(c.foreign.jsonb, w.t, action, args, metadata, who);
      w' == w.(t := if r.Some? then r.value else w.t)
    case Seed(email, publicKey) => w' == w.(t := OrElse(w.t, SeedOperator(c, w.t, email, publicKey)))
    case Remove(email) => w' == w.(t := OrElse(w.t, RemoveApprovalUser(w.t, TrimSpace(email))))
    case Receive(req) => w' == w.(pcs := w.pcs + [Begin(req)])
    case Go(r) =>
      && r < |w.pcs| && !w.pcs[r].Replied?
      && var (t', pc) := Step(c, w.t, w.pcs[r]);
         w' == World(t', w.pcs[r := pc])
    case Drop(r) => r < |w.pcs| && !w.pcs[r].Replied? && w' == w.(pcs := w.pcs[r := Replied(Dropped)])
    case Elsewhere(t) =>
      t.operators == w.t.operators && t.actions == w.t.actions && t.actionSeq == w.t.actionSeq && w' == w.(t := t)
  }

  ghost predicate Run(c: Config, ws: seq<World>, moves: seq<Move>) {
    && |ws| == |moves| + 1
    && ws[0].t.operators == map[] && ws[0].t.actions == map[] && ws[0].t.actionSeq == 0 && ws[0].pcs == []
    && forall n :: 0 <= n < |moves| ==> Next(c, ws[n], moves[n], ws[n + 1])
  }

  // ---------- a row's outcome is final ----------

  ghost predicate RowFollows(a: ActionRow, b: ActionRow) {
    && b == a.(status := b.status, approvedBy := b.approvedBy, lastError := b.lastError)
    && (a.status != Pending ==> b == a)
  }

  ghost predicate RowsFollow(t: Tables, t': Tables) {
    forall id :: id in t.actions ==> id in t'.actions && RowFollows(t.actions[id], t'.actions[id])
  }

  ghost predicate IdsIssued(t: Tables) {
    forall id :: id in t.actions ==> 0 < id <= t.actionSeq
  }

  /** Only the mark of a request touches a row that is there, and only while it is pending. */
  lemma StepRows(c: Config, t: Tables, pc: Pc)
    requires !pc.Replied?
    ensures var t' := Step(c, t, pc).0;
            if pc.Mark? && pc.id in t.actions && t.actions[pc.id].status == Pending then
              && t'.actions.Keys == t.actions.Keys
              && t'.actions == t.actions[pc.id := t'.actions[pc.id]]
              && RowFollows(t.actions[pc.id], t'.actions[pc.id])
              && t'.actions[pc.id].status == (if pc.result.Ok? then Executed else Failed)
              && t'.actions[pc.id].approvedBy == pc.body.email
            else t'.actions == t.actions
    ensures Step(c, t, pc).0.actionSeq == t.actionSeq
  {
    if pc.Dispatching? && Perform(c, t, pc.row).Ok? {
      DispatchTouches(c.foreign, c.handlers, t, pc.row.action, RawOrEmpty(pc.row.args));
    }
  }

  lemma NextRows(c: Config, w: World, mv: Move, w': World)
    requires Next(c, w, mv, w') && IdsIssued(w.t)
    ensures IdsIssued(w'.t) && RowsFollow(w.t, w'.t)
  {
    match mv
    case Go(r) => StepRows(c, w.t, w.pcs[r]);
    case Enqueue(_, _, _, _) =>
    case Seed(_, _) =>
    case Remove(_) =>
    case Receive(_) =>
    case Drop(_) =>
    case Elsewhere(_) =>
  }

  lemma {:induction false} RunIds(c: Config, ws: seq<World>, moves: seq<Move>, n: nat)
    requires Run(c, ws, moves) && n < |ws|
    ensures IdsIssued(ws[n].t)
  {
    if n > 0 {
      RunIds(c, ws, moves, n - 1);
      NextRows(c, ws[n - 1], moves[n - 1], ws[n]);
    }
  }

  lemma StepFollows(c: Config, ws: seq<World>, moves: seq<Move>, n: nat)
    requires Run(c, ws, moves) && n < |moves|
    ensures RowsFollow(ws[n].t, ws[n + 1].t)
  {
    RunIds(c, ws, moves, n);
    NextRows(c, ws[n], moves[n], ws[n + 1]);
  }

  lemma FollowSelf(t: Tables)
    ensures RowsFollow(t, t)
  {
  }

  lemma FollowOn(a: Tables, b: Tables, c: Tables)
    requires RowsFollow(a, b) && RowsFollow(b, c)
    ensures RowsFollow(a, c)
  {
  }

  /** A row keeps its id, action and arguments for ever, and once it is no longer pending nothing changes it. */
  lemma {:induction false} OutcomeIsFinal(c: Config, ws: seq<World>, moves: seq<Move>, n: nat, m: nat)
    requires Run(c, ws, moves) && n <= m < |ws|
    ensures RowsFollow(ws[n].t, ws[m].t)
  {
    hide RowsFollow, Next;
    if n == m {
      FollowSelf(ws[n].t);
    } else {
      OutcomeIsFinal(c, ws, moves, n, m - 1);
      StepFollows(c, ws, moves, m - 1);
      FollowOn(ws[n].t, ws[m - 1].t, ws[m].t);
    }
  }
}
