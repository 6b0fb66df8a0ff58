/**
 Dispatch comes before the mark, so an action can be performed more than once. Which requests may still
 perform a row that is already decided, and a run in which two do.
 */
module ApprovalRaces {
  import opened Wrappers
  import opened Text
  import opened MailTables
  import opened ApprovalTables
  import opened Actions
  import opened Approvals
  import opened ApprovalHistory

  // ---------- who can still dispatch a decided row ----------

  /** A key that can be, or has been, entered for an operator: a fingerprint can be taken of it. */
  predicate Enterable(c: Config, key: string) {
    key != "" && var fp := c.foreign.fingerprint(key); fp.Some? && fp.value != ""
  }

  ghost predicate SomeKeyVerifies(c: Config, id: int, row: ActionRow, body: Body) {
    exists key :: Enterable(c, key) && Verifies(c, id, row, body, key)
  }

  /** The request stands behind its load of the row, and has verified or has a signature that some key verifies. */
  ghost predicate MayDispatch(c: Config, pc: Pc, id: int) {
    PastLoad(pc, id) && (pc.FindKey? ==> SomeKeyVerifies(c, id, pc.row, pc.body))
  }

  /** Move k is request r dispatching row id, whatever comes of it. */
  ghost predicate DispatchesRow(ws: seq<World>, moves: seq<Move>, k: nat, r: nat, id: int) {
    && k < |moves| && k < |ws| && moves[k] == Go(r) && r < |ws[k].pcs|
    && ws[k].pcs[r].Dispatching? && ws[k].pcs[r].id == id
  }

  ghost predicate Continues(c: Config, ws: seq<World>, moves: seq<Move>, ws': seq<World>, moves': seq<Move>) {
    Run(c, ws', moves') && ws <= ws' && moves <= moves'
  }

  ghost predicate SomeContinuationDispatches(c: Config, ws: seq<World>, moves: seq<Move>, r: nat, id: int) {
    exists ws', moves', k: nat :: Continues(c, ws, moves, ws', moves') && |moves| <= k
        && DispatchesRow(ws', moves', k, r, id)
  }

  // ---------- only such requests can ----------

  lemma {:induction false} KeyIsEnterable(c: Config, ws: seq<World>, moves: seq<Move>, n: nat, email: string)
    requires Run(c, ws, moves) && n < |ws| && email in ws[n].t.operators
    ensures Enterable(c, ws[n].t.operators[email].publicKey)
  {
    KeyWasEntered(c, ws, moves, n, email);
    var m: nat :| m < n && Enters(c, ws, moves, m, email, ws[n].t.operators[email].publicKey);
  }

  /** From a request's load of the row to its reply, the row and the signed body it works on stay the same. */
  ghost predicate WorksOn(pc: Pc, id: int, row: ActionRow, body: Body) {
    match pc
    case FindKey(i, r, b) => i == id && r == row && b == body
    case Dispatching(i, r, b, _) => i == id && r == row && b == body
    case Mark(_, _, _, _, _) => true
    case Replied(_) => true
    case _ => false
  }

  lemma {:induction false} RowStays(c: Config, ws: seq<World>, moves: seq<Move>, n: nat, m: nat, r: nat, id: int,
      row: ActionRow, body: Body)
    requires Run(c, ws, moves) && n <= m < |ws| && r < |ws[n].pcs| && WorksOn(ws[n].pcs[r], id, row, body)
    ensures r < |ws[m].pcs| && WorksOn(ws[m].pcs[r], id, row, body)
  {
    if n < m {
      RowStays(c, ws, moves, n, m - 1, r, id, row, body);
      assert Next(c, ws[m - 1], moves[m - 1], ws[m]);
    }
  }

  lemma DispatchingHasKey(c: Config, ws: seq<World>, moves: seq<Move>, k: nat, r: nat)
    requires Run(c, ws, moves) && k < |ws| && r < |ws[k].pcs| && ws[k].pcs[r].Dispatching?
    ensures var pc := ws[k].pcs[r]; SomeKeyVerifies(c, pc.id, pc.row, pc.body)
  {
    RunBacked(c, ws, moves, k);
    assert PcBacked(c, ws, moves, k, r);
    var pc := ws[k].pcs[r];
    var j: nat :| j < k && KeyFound(c, ws, moves, j, r, pc.id, pc.row, pc.body, pc.key);
    KeyIsEnterable(c, ws, moves, j, Lower(pc.body.email));
  }

  lemma OnlyIfMayDispatch(c: Config, ws: seq<World>, moves: seq<Move>, n: nat, k: nat, r: nat, id: int)
    requires Run(c, ws, moves) && n <= k && n < |ws| && r < |ws[n].pcs|
    requires id in ws[n].t.actions && ws[n].t.actions[id].status != Pending
    requires DispatchesRow(ws, moves, k, r, id)
    ensures MayDispatch(c, ws[n].pcs[r], id)
  {
    if !PastLoad(ws[n].pcs[r], id) {
      LateRequestNeverDispatches(c, ws, moves, n, k, r, id);
      assert false;
    }
    var pc := ws[n].pcs[r];
    if pc.FindKey? {
      RowStays(c, ws, moves, n, k, r, id, pc.row, pc.body);
      DispatchingHasKey(c, ws, moves, k, r);
    }
  }

  // ---------- and each of them can ----------

  lemma RunOn(c: Config, ws: seq<World>, moves: seq<Move>, mv: Move, w: World)
      returns (ws': seq<World>, moves': seq<Move>)
    requires Run(c, ws, moves) && |ws| == |moves| + 1 && Next(c, ws[|moves|], mv, w)
    ensures Run(c, ws', moves') && |ws'| == |moves'| + 1 && ws' == ws + [w] && moves' == moves + [mv]
  {
    hide Next;
    ws', moves' := ws + [w], moves + [mv];
  }

  /** A request lets the run go on with its next statement. */
  lemma GoOn(c: Config, ws: seq<World>, moves: seq<Move>, r: nat) returns (ws': seq<World>, moves': seq<Move>)
    requires Run(c, ws, moves) && |ws| == |moves| + 1 && r < |ws[|moves|].pcs| && !ws[|moves|].pcs[r].Replied?
    ensures Run(c, ws', moves') && |ws'| == |moves'| + 1
    ensures var w := ws[|moves|]; var (t, pc) := Step(c, w.t, w.pcs[r]);
            ws' == ws + [World(t, w.pcs[r := pc])] && moves' == moves + [Go(r)]
  {
    var w := ws[|moves|];
    var (t, pc) := Step(c, w.t, w.pcs[r]);
    ws', moves' := RunOn(c, ws, moves, Go(r), World(t, w.pcs[r := pc]));
  }

  ghost predicate Complete(body: Body) {
    body.email != "" && body.signature != ""
  }

  ghost predicate Addressed(pc: Pc) {
    match pc
    case Load(_, body) => Complete(body)
    case FindKey(_, _, body) => Complete(body)
    case Dispatching(_, _, body, _) => Complete(body)
    case Mark(_, _, body, _, _) => Complete(body)
    case Begin(_) => true
    case Replied(_) => true
  }

  lemma {:induction false} RequestsAreAddressed(c: Config, ws: seq<World>, moves: seq<Move>, n: nat, r: nat)
    requires Run(c, ws, moves) && n < |ws| && r < |ws[n].pcs|
    ensures Addressed(ws[n].pcs[r])
  {
    if n > 0 {
      assert Next(c, ws[n - 1], moves[n - 1], ws[n]);
      if r < |ws[n - 1].pcs| {
        RequestsAreAddressed(c, ws, moves, n - 1, r);
      }
    }
  }

  lemma DispatchingCan(c: Config, ws: seq<World>, moves: seq<Move>, r: nat, id: int)
    requires Run(c, ws, moves) && |ws| == |moves| + 1 && r < |ws[|moves|].pcs|
    requires ws[|moves|].pcs[r].Dispatching? && ws[|moves|].pcs[r].id == id
    ensures SomeContinuationDispatches(c, ws, moves, r, id)
  {
    var ws', moves' := GoOn(c, ws, moves, r);
    assert DispatchesRow(ws', moves', |moves|, r, id);
    assert Continues(c, ws, moves, ws', moves');
  }

  /** With the key that verifies seeded for its operator, a request at FindKey goes on to dispatch. */
  lemma FindKeyCan(c: Config, ws: seq<World>, moves: seq<Move>, r: nat, id: int)
    requires Run(c, ws, moves) && |ws| == |moves| + 1 && r < |ws[|moves|].pcs|
    requires var pc := ws[|moves|].pcs[r]; pc.FindKey? && pc.id == id && SomeKeyVerifies(c, id, pc.row, pc.body)
    ensures SomeContinuationDispatches(c, ws, moves, r, id)
  {
    var w := ws[|moves|];
    var pc := w.pcs[r];
    RequestsAreAddressed(c, ws, moves, |moves|, r);
    var key :| Enterable(c, key) && Verifies(c, id, pc.row, pc.body, key);
    var seeded := SeedOperator(c, w.t, pc.body.email, key).value;
    var ws1, moves1 := RunOn(c, ws, moves, Seed(pc.body.email, key), w.(t := seeded));
    var ws2, moves2 := GoOn(c, ws1, moves1, r);
    assert ws2[|moves2|].pcs[r] == Dispatching(id, pc.row, pc.body, key);
    DispatchingCan(c, ws2, moves2, r, id);
    var ws', moves', k: nat :| Continues(c, ws2, moves2, ws', moves') && |moves2| <= k
        && DispatchesRow(ws', moves', k, r, id);
    assert ws <= ws' && moves <= moves';
    assert Continues(c, ws, moves, ws', moves');
  }

  /**
   Exactly when a decided row can still be dispatched: in some continuation of the run request r dispatches
   it if and only if r had read the row before it was decided, has not dispatched it yet, and has verified or
   carries a signature that verifies under a key that can be entered.
   */
  lemma DecidedRowDispatchedIff(c: Config, ws: seq<World>, moves: seq<Move>, r: nat, id: int)
    requires Run(c, ws, moves) && r < |ws[|moves|].pcs|
    requires id in ws[|moves|].t.actions && ws[|moves|].t.actions[id].status != Pending
    ensures SomeContinuationDispatches(c, ws, moves, r, id) <==> MayDispatch(c, ws[|moves|].pcs[r], id)
  {
    var pc := ws[|moves|].pcs[r];
    if SomeContinuationDispatches(c, ws, moves, r, id) {
      var ws', moves', k: nat :| Continues(c, ws, moves, ws', moves') && |moves| <= k
          && DispatchesRow(ws', moves', k, r, id);
      assert ws'[|moves|] == ws[|moves|];
      OnlyIfMayDispatch(c, ws', moves', |moves|, k, r, id);
    }
    if MayDispatch(c, pc, id) {
      if pc.FindKey? {
        FindKeyCan(c, ws, moves, r, id);
      } else {
        DispatchingCan(c, ws, moves, r, id);
      }
    }
  }

  // ---------- two approvals of one row ----------

  /** Three statements take a request that is in order from its start to the point of dispatch. */
  lemma Prepares(c: Config, ws: seq<World>, moves: seq<Move>, r: nat, id: int, body: Body, key: string)
    returns (ws': seq<World>, moves': seq<Move>)
    requires Run(c, ws, moves) && |ws| == |moves| + 1 && r < |ws[|moves|].pcs|
    requires id > 0 && body.email != "" && body.signature != ""
    requires ws[|moves|].pcs[r] == Begin(Request(Some(id), Some(body)))
    requires var t := ws[|moves|].t;
      && id in t.actions && t.actions[id].status == Pending
      && GetApprovalUser(t, body.email).Some? && GetApprovalUser(t, body.email).value.publicKey == key
      && Verifies(c, id, t.actions[id], body, key)
    ensures Run(c, ws', moves') && |ws'| == |moves'| + 1 && |moves'| == |moves| + 3
    ensures ws <= ws' && moves <= moves'
    ensures var w := ws[|moves|];
            ws'[|moves'|] == World(w.t, w.pcs[r := Dispatching(id, w.t.actions[id], body, key)])
  {
    var w := ws[|moves|];
    ws', moves' := GoOn(c, ws, moves, r);
    assert ws'[|moves'|] == World(w.t, w.pcs[r := Load(id, body)]);
    ws', moves' := GoOn(c, ws', moves', r);
    assert ws'[|moves'|] == World(w.t, w.pcs[r := FindKey(id, w.t.actions[id], body)]);
    ws', moves' := GoOn(c, ws', moves', r);
  }

  /** An operator is seeded, an action enqueued, and two requests to approve it come in. */
  lemma TwoRequests(c: Config, t: Tables, action: string, args: string, body: Body, key: string)
    returns (ws: seq<World>, moves: seq<Move>, queued: Tables)
    requires t.operators == map[] && t.actions == map[] && t.actionSeq == 0
    requires Enterable(c, key) && body.email != ""
    requires EnqueueAction(c.foreign.jsonb, SeedOperator(c, t, body.email, key).value, action, args, "", "").Some?
    ensures queued ==
        EnqueueAction(c.foreign.jsonb, SeedOperator(c, t, body.email, key).value, action, args, "", "").value
    ensures Run(c, ws, moves) && |ws| == |moves| + 1 && |moves| == 4
    ensures var req := Begin(Request(Some(1), Some(body))); ws[4] == World(queued, [req, req])
  {
    var req := Request(Some(1), Some(body));
    var seeded := SeedOperator(c, t, body.email, key).value;
    queued := EnqueueAction(c.foreign.jsonb, seeded, action, args, "", "").value;
    ws, moves := [World(t, [])], [];
    ws, moves := RunOn(c, ws, moves, Seed(body.email, key), World(seeded, []));
    ws, moves := RunOn(c, ws, moves, Enqueue(action, args, "", ""), World(queued, []));
    ws, moves := RunOn(c, ws, moves, Receive(req), World(queued, [Begin(req)]));
    ws, moves := RunOn(c, ws, moves, Receive(req), World(queued, [Begin(req), Begin(req)]));
  }

  /** What is stored when the action is the first to be enqueued. */
  function FirstRow(c: Config, action: string, args: string): ActionRow
    requires c.foreign.jsonb(if args == "" then "{}" else args).Some? && c.foreign.jsonb("{}").Some?
  {
    ActionRow(action, c.foreign.jsonb(if args == "" then "{}" else args).value,
        c.foreign.jsonb("{}").value, "", Pending, "", "")
  }

  /**
   Dispatch is not at most once, for any action: from any tables with an empty queue there is a run in which
   two requests both perform one and the same row with success. The second performance changes no row of any
   table, and one of the two requests is told that it failed.
   */
  lemma AnyActionCanRace(c: Config, t: Tables, action: string, args: string, body: Body, key: string)
    returns (ws: seq<World>, moves: seq<Move>)
    requires t.operators == map[] && t.actions == map[] && t.actionSeq == 0
    requires Enterable(c, key) && body.email != "" && body.signature != "" && action != ""
    requires c.foreign.jsonb(if args == "" then "{}" else args).Some? && c.foreign.jsonb("{}").Some?
    requires Verifies(c, 1, FirstRow(c, action, args), body, key)
    requires forall queued: Tables :: queued.mail == t.mail && queued.sources == t.sources ==>
      Perform(c, queued, FirstRow(c, action, args)).Ok?
    ensures Run(c, ws, moves) && |moves| == 14
    ensures var row := FirstRow(c, action, args);
            && Dispatches(c, ws, moves, 10, 0, 1, row, body, key, Ok(()))
            && Dispatches(c, ws, moves, 11, 1, 1, row, body, key, Ok(()))
    ensures Rows(ws[12].t) == Rows(ws[11].t)
    ensures ws[14].pcs == [Replied(Approved(1)), Replied(ServerError)]
  {
    var row := FirstRow(c, action, args);
    var queued;
    ws, moves, queued := TwoRequests(c, t, action, args, body, key);
    assert queued.actions == map[1 := row] && queued.mail == t.mail && queued.sources == t.sources;
    ws, moves := Prepares(c, ws, moves, 0, 1, body, key);
    ws, moves := Prepares(c, ws, moves, 1, 1, body, key);
    var ready := Dispatching(1, row, body, key);
    assert ws[10] == World(queued, [ready, ready]);
    ws, moves := RaceToTheEnd(c, ws, moves, queued, row, body, key);
  }

  lemma RaceToTheEnd(c: Config, ws: seq<World>, moves: seq<Move>, queued: Tables, row: ActionRow, body: Body,
      key: string)
    returns (ws': seq<World>, moves': seq<Move>)
    requires Run(c, ws, moves) && |ws| == 11 && |moves| == 10 && queued.actions == map[1 := row]
    requires row.status == Pending
    requires var ready := Dispatching(1, row, body, key); ws[10] == World(queued, [ready, ready])
    requires Perform(c, queued, row).Ok?
    ensures Run(c, ws', moves') && |ws'| == 15 && |moves'| == 14
    ensures Dispatches(c, ws', moves', 10, 0, 1, row, body, key, Ok(()))
    ensures Dispatches(c, ws', moves', 11, 1, 1, row, body, key, Ok(()))
    ensures Rows(ws'[12].t) == Rows(ws'[11].t)
    ensures ws'[14].pcs == [Replied(Approved(1)), Replied(ServerError)]
  {
    var ready, done := Dispatching(1, row, body, key), Mark(1, row, body, key, Ok(()));
    var once, twice, marked := RaceTables(c, queued, row, body);
    RaceDispatches(c, queued, once, twice, row, ready, done);
    RaceMarks(c, twice, marked, row, body, done);
    assert ws[10].pcs[0] == ready;
    hide Perform, Run, Next;
    ws', moves' := RunOn(c, ws, moves, Go(0), World(once, [done, ready]));
    ws', moves' := RunOn(c, ws', moves', Go(1), World(twice, [done, done]));
    ws', moves' := RunOn(c, ws', moves', Go(0), World(marked, [Replied(Approved(1)), done]));
    ws', moves' := RunOn(c, ws', moves', Go(1), World(marked, [Replied(Approved(1)), Replied(ServerError)]));
  }

  lemma RaceTables(c: Config, queued: Tables, row: ActionRow, body: Body)
      returns (once: Tables, twice: Tables, marked: Tables)
    requires queued.actions == map[1 := row] && row.status == Pending && Perform(c, queued, row).Ok?
    ensures Perform(c, queued, row) == Ok(once) && Perform(c, once, row) == Ok(twice) && Rows(twice) == Rows(once)
    ensures twice.actions == map[1 := row] && MarkActionExecuted(twice, 1, body.email) == Ok(marked)
    ensures 1 in marked.actions && marked.actions[1].status == Executed
  {
    once := Perform(c, queued, row).value;
    DispatchTwice(c.foreign, c.handlers, queued, row.action, RawOrEmpty(row.args));
    twice := Perform(c, once, row).value;
    DispatchTouches(c.foreign, c.handlers, queued, row.action, RawOrEmpty(row.args));
    DispatchTouches(c.foreign, c.handlers, once, row.action, RawOrEmpty(row.args));
    hide Perform;
    marked := MarkActionExecuted(twice, 1, body.email).value;
  }

  lemma RaceDispatches(c: Config, queued: Tables, once: Tables, twice: Tables, row: ActionRow, ready: Pc, done: Pc)
    requires ready.Dispatching? && ready.row == row && done == Mark(ready.id, row, ready.body, ready.key, Ok(()))
    requires Perform(c, queued, row) == Ok(once) && Perform(c, once, row) == Ok(twice)
    ensures Next(c, World(queued, [ready, ready]), Go(0), World(once, [done, ready]))
    ensures Next(c, World(once, [done, ready]), Go(1), World(twice, [done, done]))
  {
    hide Perform;
    assert [ready, ready][0 := done] == [done, ready] && [done, ready][1 := done] == [done, done];
  }

  lemma RaceMarks(c: Config, twice: Tables, marked: Tables, row: ActionRow, body: Body, done: Pc)
    requires done.Mark? && done.id == 1 && done.body == body && done.result == Ok(())
    requires MarkActionExecuted(twice, 1, body.email) == Ok(marked) && 1 in marked.actions
    requires marked.actions[1].status == Executed
    ensures Next(c, World(twice, [done, done]), Go(0), World(marked, [Replied(Approved(1)), done]))
    ensures Next(c, World(marked, [Replied(Approved(1)), done]), Go(1),
        World(marked, [Replied(Approved(1)), Replied(ServerError)]))
  {
    var won, lost := Replied(Approved(1)), Replied(ServerError);
    assert [done, done][0 := won] == [won, done] && [won, done][1 := lost] == [won, lost];
  }

  /** A configuration in which everything is accepted. */
  ghost const LENIENT := Config(
    Foreign(_ => Some(AddGranteeArgs("g", "")), _ => None, _ => None, _ => None,
            key => Some(key), text => Some(text), text => Some(text), (_, _, _) => true, _ => ""),
    REGISTERED)

  /** One concrete race: two approvals of add_grantee on fresh tables. */
  lemma RacingRequestsBothDispatch() returns (ws: seq<World>, moves: seq<Move>, row: ActionRow, body: Body, key: string)
    ensures Run(LENIENT, ws, moves) && |moves| == 14
    ensures Dispatches(LENIENT, ws, moves, 10, 0, 1, row, body, key, Ok(()))
    ensures Dispatches(LENIENT, ws, moves, 11, 1, 1, row, body, key, Ok(()))
    ensures ws[14].pcs == [Replied(Approved(1)), Replied(ServerError)]
  {
    body, key := Body("e@x", "signed"), "key";
    row := FirstRow(LENIENT, ACTION_ADD_GRANTEE, "");
    assert TrimSpace("g") == "g";
    ws, moves := AnyActionCanRace(LENIENT, Tables(EMPTY_DB, map[], 0, map[], map[], 0), ACTION_ADD_GRANTEE, "", body,
        key);
  }

  // ---------- a row already dispatched ----------

  ghost predicate WasDispatched(ws: seq<World>, moves: seq<Move>, id: int) {
    exists k: nat, r: nat :: DispatchesRow(ws, moves, k, r, id)
  }

  ghost predicate SomeoneDispatches(c: Config, ws: seq<World>, moves: seq<Move>, id: int) {
    exists r: nat :: SomeContinuationDispatches(c, ws, moves, r, id)
  }

  ghost predicate SomeoneMayDispatch(c: Config, w: World, id: int) {
    exists r :: 0 <= r < |w.pcs| && MayDispatch(c, w.pcs[r], id)
  }

  ghost predicate StillPending(t: Tables, id: int) {
    id in t.actions && t.actions[id].status == Pending
  }

  /** What a dispatch leaves to whoever comes after: a signed body and an enterable key for the row as it stands. */
  lemma SignedBody(c: Config, ws: seq<World>, moves: seq<Move>, k: nat, r: nat, id: int, n: nat)
      returns (body: Body, key: string)
    requires Run(c, ws, moves) && k <= n < |ws| && DispatchesRow(ws, moves, k, r, id)
    ensures id in ws[n].t.actions && id > 0 && Complete(body) && Enterable(c, key)
    ensures Verifies(c, id, ws[n].t.actions[id], body, key)
  {
    RunBacked(c, ws, moves, k);
    assert PcBacked(c, ws, moves, k, r);
    var pc := ws[k].pcs[r];
    body, key := pc.body, pc.key;
    var j: nat :| j < k && KeyFound(c, ws, moves, j, r, id, pc.row, body, key);
    KeyIsEnterable(c, ws, moves, j, Lower(body.email));
    RequestsAreAddressed(c, ws, moves, k, r);
    RunIds(c, ws, moves, k);
    OutcomeIsFinal(c, ws, moves, k, n);
    assert RowFollows(ws[k].t.actions[id], ws[n].t.actions[id]);
  }

  /** A new request with a body that verifies takes a pending row to its dispatch. */
  lemma NewRequestDispatches(c: Config, ws: seq<World>, moves: seq<Move>, id: int, body: Body, key: string)
    returns (ws': seq<World>, moves': seq<Move>)
    requires Run(c, ws, moves) && |ws| == |moves| + 1 && id > 0 && StillPending(ws[|moves|].t, id)
    requires Complete(body) && Enterable(c, key) && Verifies(c, id, ws[|moves|].t.actions[id], body, key)
    ensures Continues(c, ws, moves, ws', moves') && |moves'| == |moves| + 6
    ensures moves'[|moves| + 1] == Receive(Request(Some(id), Some(body)))
    ensures DispatchesRow(ws', moves', |moves| + 5, |ws[|moves|].pcs|, id)
  {
    var w := ws[|moves|];
    var req := Request(Some(id), Some(body));
    var seeded := w.(t := SeedOperator(c, w.t, body.email, key).value);
    var ws1, moves1 := RunOn(c, ws, moves, Seed(body.email, key), seeded);
    var ws2, moves2 := RunOn(c, ws1, moves1, Receive(req), seeded.(pcs := w.pcs + [Begin(req)]));
    var ws3, moves3 := Prepares(c, ws2, moves2, |w.pcs|, id, body, key);
    ws', moves' := GoOn(c, ws3, moves3, |w.pcs|);
    assert moves3[|moves| + 1] == moves2[|moves| + 1];
    hide Run;
  }

  lemma MayDispatchCan(c: Config, ws: seq<World>, moves: seq<Move>, r: nat, id: int)
    requires Run(c, ws, moves) && |ws| == |moves| + 1 && r < |ws[|moves|].pcs| && MayDispatch(c, ws[|moves|].pcs[r], id)
    ensures SomeContinuationDispatches(c, ws, moves, r, id)
  {
    if ws[|moves|].pcs[r].FindKey? {
      FindKeyCan(c, ws, moves, r, id);
    } else {
      DispatchingCan(c, ws, moves, r, id);
    }
  }

  lemma OnlyPendingOrMay(c: Config, ws: seq<World>, moves: seq<Move>, r: nat, id: int)
    requires Run(c, ws, moves) && |ws| == |moves| + 1 && id in ws[|moves|].t.actions
    requires SomeContinuationDispatches(c, ws, moves, r, id) && !StillPending(ws[|moves|].t, id)
    ensures SomeoneMayDispatch(c, ws[|moves|], id)
  {
    var ws', moves', k: nat :| Continues(c, ws, moves, ws', moves') && |moves| <= k
        && DispatchesRow(ws', moves', k, r, id);
    assert ws'[|moves|] == ws[|moves|];
    if r < |ws[|moves|].pcs| {
      OnlyIfMayDispatch(c, ws', moves', |moves|, k, r, id);
    } else {
      LateRequestNeverDispatches(c, ws', moves', |moves|, k, r, id);
      assert false;
    }
  }

  /**
   Exactly when a row is dispatched again. Let a row have been dispatched in a run; then some request dispatches
   it once more in some continuation if and only if the row is still pending (its first request may never mark
   it) or some request that had read it in time may still dispatch it.
   */
  lemma DispatchedAgainIff(c: Config, ws: seq<World>, moves: seq<Move>, id: int)
    requires Run(c, ws, moves) && WasDispatched(ws, moves, id)
    ensures SomeoneDispatches(c, ws, moves, id) <==>
            StillPending(ws[|moves|].t, id) || SomeoneMayDispatch(c, ws[|moves|], id)
  {
    var k: nat, r: nat :| DispatchesRow(ws, moves, k, r, id);
    var body, key := SignedBody(c, ws, moves, k, r, id, |moves|);
    if SomeoneDispatches(c, ws, moves, id) && !StillPending(ws[|moves|].t, id) {
      var s: nat :| SomeContinuationDispatches(c, ws, moves, s, id);
      OnlyPendingOrMay(c, ws, moves, s, id);
    }
    if StillPending(ws[|moves|].t, id) {
      var ws', moves' := NewRequestDispatches(c, ws, moves, id, body, key);
      assert SomeContinuationDispatches(c, ws, moves, |ws[|moves|].pcs|, id);
    }
    if SomeoneMayDispatch(c, ws[|moves|], id) {
      var s: nat :| s < |ws[|moves|].pcs| && MayDispatch(c, ws[|moves|].pcs[s], id);
      MayDispatchCan(c, ws, moves, s, id);
    }
  }

  /**
   Double dispatch without overlap, whatever the action: a request dispatches, is cut off before its mark, and a
   request received only then dispatches the row again.
   */
  lemma CutOffIsRetried(c: Config, ws: seq<World>, moves: seq<Move>, r: nat, id: int)
    returns (ws': seq<World>, moves': seq<Move>)
    requires Run(c, ws, moves) && |ws| == |moves| + 1 && r < |ws[|moves|].pcs|
    requires ws[|moves|].pcs[r].Dispatching? && ws[|moves|].pcs[r].id == id && StillPending(ws[|moves|].t, id)
    ensures Continues(c, ws, moves, ws', moves') && |moves'| == |moves| + 8 && |ws'| == |moves'| + 1
    ensures DispatchesRow(ws', moves', |moves|, r, id)
    ensures r < |ws'[|moves| + 2].pcs| && ws'[|moves| + 2].pcs[r] == Replied(Dropped)
    ensures moves'[|moves| + 3].Receive?
    ensures DispatchesRow(ws', moves', |moves| + 7, |ws[|moves|].pcs|, id)
  {
    var w := ws[|moves|];
    var ws1, moves1 := GoOn(c, ws, moves, r);
    var w1 := ws1[|moves1|];
    DispatchLeavesQueue(c, w.t, w.pcs[r]);
    var ws2, moves2 := RunOn(c, ws1, moves1, Drop(r), w1.(pcs := w1.pcs[r := Replied(Dropped)]));
    assert DispatchesRow(ws2, moves2, |moves|, r, id);
    var body, key := SignedBody(c, ws2, moves2, |moves|, r, id, |moves2|);
    ws', moves' := NewRequestDispatches(c, ws2, moves2, id, body, key);
    assert ws'[|moves| + 2] == ws2[|moves| + 2] && ws'[|moves|] == ws[|moves|] && moves'[|moves|] == moves2[|moves|];
  }

  lemma DispatchLeavesQueue(c: Config, t: Tables, pc: Pc)
    requires pc.Dispatching?
    ensures Step(c, t, pc).0.actions == t.actions
  {
    StepRows(c, t, pc);
  }

  /** One concrete retry: add_grantee on fresh tables, dispatched by a request that is cut off, and by the next. */
  lemma RetryAfterCrash() returns (ws: seq<World>, moves: seq<Move>)
    ensures Run(LENIENT, ws, moves) && |moves| == 15 && |ws| == 16 && |ws[9].pcs| > 0
    ensures DispatchesRow(ws, moves, 7, 0, 1) && ws[9].pcs[0] == Replied(Dropped) && moves[10].Receive?
    ensures DispatchesRow(ws, moves, 14, 2, 1)
  {
    var body, key := Body("e@x", "signed"), "key";
    var queued;
    ws, moves, queued := TwoRequests(LENIENT, Tables(EMPTY_DB, map[], 0, map[], map[], 0), ACTION_ADD_GRANTEE, "", body,
        key);
    ws, moves := Prepares(LENIENT, ws, moves, 0, 1, body, key);
    ws, moves := CutOffIsRetried(LENIENT, ws, moves, 0, 1);
  }
}
