/**
 What a run of the approval protocol has behind it: a decided row was dispatched by a request verified
 under its operator's key, and every operator's key goes back to a seeded one.
 */
module ApprovalHistory {
  import opened Wrappers
  import opened Text
  import opened ApprovalTables
  import opened Actions
  import opened Approvals
  import Signing

  // ---------- what happened at a point of a run ----------

  /** Move j is request r finding key as the current key of its operator, and its signature verifying under it. */
  ghost predicate KeyFound(c: Config, ws: seq<World>, moves: seq<Move>, j: nat, r: nat, id: int, row: ActionRow,
      body: Body, key: string) {
    && j < |moves| && j < |ws| && moves[j] == Go(r) && r < |ws[j].pcs|
    && ws[j].pcs[r] == FindKey(id, row, body)
    && Lower(body.email) in ws[j].t.operators
    && ws[j].t.operators[Lower(body.email)].publicKey == key
    && Verifies(c, id, row, body, key)
  }

  /** Move k is request r dispatching the row, with the given result. */
  ghost predicate Dispatches(c: Config, ws: seq<World>, moves: seq<Move>, k: nat, r: nat, id: int, row: ActionRow,
      body: Body, key: string, result: Result<(), ActionError>) {
    && k < |moves| && k < |ws| && moves[k] == Go(r) && r < |ws[k].pcs|
    && ws[k].pcs[r] == Dispatching(id, row, body, key)
    && Outcome(Perform(c, ws[k].t, row)) == result
  }

  ghost predicate Verified(c: Config, ws: seq<World>, moves: seq<Move>, n: nat, r: nat, id: int, row: ActionRow,
      body: Body, key: string) {
    exists j :: 0 <= j < n && KeyFound(c, ws, moves, j, r, id, row, body, key)
  }

  /** Before n, request r dispatched the row with this result, and was verified before it did. */
  ghost predicate Performed(c: Config, ws: seq<World>, moves: seq<Move>, n: nat, r: nat, id: int, row: ActionRow,
      body: Body, key: string, result: Result<(), ActionError>) {
    exists k :: 0 <= k < n
      && Dispatches(c, ws, moves, k, r, id, row, body, key, result)
      && Verified(c, ws, moves, k, r, id, row, body, key)
  }

  /** row is what a request read of a row that is stored under id, give or take the row's outcome. */
  predicate Stored(t: Tables, id: int, row: ActionRow) {
    id in t.actions && t.actions[id].action == row.action && t.actions[id].args == row.args
  }

  // ---------- the invariants ----------

  ghost predicate PcBacked(c: Config, ws: seq<World>, moves: seq<Move>, n: nat, r: nat)
    requires n < |ws| && r < |ws[n].pcs|
  {
    match ws[n].pcs[r]
    case Begin(_) => true
    case Load(_, _) => true
    case FindKey(id, row, body) => Stored(ws[n].t, id, row)
    case Dispatching(id, row, body, key) => Stored(ws[n].t, id, row) && Verified(c, ws, moves, n, r, id, row, body, key)
    case Mark(id, row, body, key, result) =>
      Stored(ws[n].t, id, row) && Performed(c, ws, moves, n, r, id, row, body, key, result)
    case Replied(reply) => reply.Approved? ==>
            reply.id in ws[n].t.actions && ws[n].t.actions[reply.id].status == Executed
  }

  ghost predicate PcsBacked(c: Config, ws: seq<World>, moves: seq<Move>, n: nat)
    requires n < |ws|
  {
    forall r :: 0 <= r < |ws[n].pcs| ==> PcBacked(c, ws, moves, n, r)
  }

  /** The row's outcome is that of a dispatch of exactly its action and arguments, by its approver, duly verified. */
  ghost predicate RowBacked(c: Config, ws: seq<World>, moves: seq<Move>, n: nat, id: int, row: ActionRow) {
    exists r: nat, read: ActionRow, body: Body, key: string, result: Result<(), ActionError> ::
      && Performed(c, ws, moves, n, r, id, read, body, key, result)
      && read.action == row.action && read.args == row.args
      && body.email == row.approvedBy
      && (row.status == Executed <==> result.Ok?)
  }

  ghost predicate Undecided(row: ActionRow) {
    row.status == Pending
  }

  ghost predicate RowsBacked(c: Config, ws: seq<World>, moves: seq<Move>, n: nat)
    requires n < |ws|
  {
    forall id :: id in ws[n].t.actions ==>
      Undecided(ws[n].t.actions[id]) || RowBacked(c, ws, moves, n, id, ws[n].t.actions[id])
  }

  lemma VerifiedLasts(c: Config, ws: seq<World>, moves: seq<Move>, n: nat, m: nat, r: nat, id: int, row: ActionRow,
      body: Body, key: string)
    requires n <= m && Verified(c, ws, moves, n, r, id, row, body, key)
    ensures Verified(c, ws, moves, m, r, id, row, body, key)
  {
  }

  lemma RowBackedLasts(c: Config, ws: seq<World>, moves: seq<Move>, n: nat, id: int, row: ActionRow)
    requires RowBacked(c, ws, moves, n, id, row)
    ensures RowBacked(c, ws, moves, n + 1, id, row)
  {
    var r, read, body, key, result :|
      && Performed(c, ws, moves, n, r, id, read, body, key, result)
      && read.action == row.action && read.args == row.args
      && body.email == row.approvedBy
      && (row.status == Executed <==> result.Ok?);
    assert Performed(c, ws, moves, n + 1, r, id, read, body, key, result);
  }

  /** A request that does not move keeps its backing. */
  lemma StillBacked(c: Config, ws: seq<World>, moves: seq<Move>, n: nat, r: nat)
    requires n + 1 < |ws| && r < |ws[n].pcs| && r < |ws[n + 1].pcs|
    requires PcBacked(c, ws, moves, n, r) && ws[n + 1].pcs[r] == ws[n].pcs[r]
    requires RowsFollow(ws[n].t, ws[n + 1].t)
    ensures PcBacked(c, ws, moves, n + 1, r)
  {
    match ws[n].pcs[r]
    case Dispatching(id, row, body, key) => VerifiedLasts(c, ws, moves, n, n + 1, r, id, row, body, key);
    case Mark(id, row, body, key, result) =>
      assert Performed(c, ws, moves, n + 1, r, id, row, body, key, result);
    case Begin(_) =>
    case Load(_, _) =>
    case FindKey(_, _, _) =>
    case Replied(_) =>
  }

  /** A request that moves earns its backing by the move. */
  lemma MovedIsBacked(c: Config, ws: seq<World>, moves: seq<Move>, n: nat, r: nat)
    requires n < |moves| && |ws| == |moves| + 1 && moves[n] == Go(r) && Next(c, ws[n], moves[n], ws[n + 1])
    requires PcBacked(c, ws, moves, n, r) && RowsFollow(ws[n].t, ws[n + 1].t)
    ensures PcBacked(c, ws, moves, n + 1, r)
  {
    match ws[n].pcs[r]
    case FindKey(id, row, body) =>
      if Lower(body.email) in ws[n].t.operators {
        var key := ws[n].t.operators[Lower(body.email)].publicKey;
        if Verifies(c, id, row, body, key) {
          assert KeyFound(c, ws, moves, n, r, id, row, body, key);
        }
      }
    case Dispatching(id, row, body, key) =>
      var result := Outcome(Perform(c, ws[n].t, row));
      assert Dispatches(c, ws, moves, n, r, id, row, body, key, result);
      assert Performed(c, ws, moves, n + 1, r, id, row, body, key, result);
    case Mark(id, row, body, key, result) => StepRows(c, ws[n].t, ws[n].pcs[r]);
    case Begin(_) =>
    case Load(_, _) =>
  }

  lemma PcsStayBacked(c: Config, ws: seq<World>, moves: seq<Move>, n: nat)
    requires n < |moves| && |ws| == |moves| + 1 && Next(c, ws[n], moves[n], ws[n + 1])
    requires PcsBacked(c, ws, moves, n) && RowsFollow(ws[n].t, ws[n + 1].t)
    ensures PcsBacked(c, ws, moves, n + 1)
  {
    var m := n + 1;
    forall r | 0 <= r < |ws[m].pcs|
      ensures PcBacked(c, ws, moves, m, r)
    {
      if moves[n] == Go(r) {
        MovedIsBacked(c, ws, moves, n, r);
      } else if r < |ws[n].pcs| && ws[n + 1].pcs[r] == ws[n].pcs[r] {
        StillBacked(c, ws, moves, n, r);
      }
    }
  }

  lemma RowsStayBacked(c: Config, ws: seq<World>, moves: seq<Move>, n: nat)
    requires n < |moves| && |ws| == |moves| + 1 && Next(c, ws[n], moves[n], ws[n + 1])
    requires PcsBacked(c, ws, moves, n) && RowsBacked(c, ws, moves, n)
    ensures RowsBacked(c, ws, moves, n + 1)
  {
    var t, t' := ws[n].t, ws[n + 1].t;
    forall id | id in t'.actions && !Undecided(t'.actions[id])
      ensures RowBacked(c, ws, moves, n + 1, id, t'.actions[id])
    {
      if moves[n].Go? {
        var r := moves[n].r;
        StepRows(c, t, ws[n].pcs[r]);
        assert PcBacked(c, ws, moves, n, r);
        if t'.actions[id] != t.actions[id] {
          var pc := ws[n].pcs[r];
          assert Performed(c, ws, moves, n + 1, r, id, pc.row, pc.body, pc.key, pc.result);
        }
      }
      if id in t.actions && t'.actions[id] == t.actions[id] {
        RowBackedLasts(c, ws, moves, n, id, t.actions[id]);
      }
    }
  }

  lemma {:induction false} RunBacked(c: Config, ws: seq<World>, moves: seq<Move>, n: nat)
    requires Run(c, ws, moves) && n < |ws|
    ensures PcsBacked(c, ws, moves, n) && RowsBacked(c, ws, moves, n)
  {
    if n > 0 {
      RunBacked(c, ws, moves, n - 1);
      RunIds(c, ws, moves, n - 1);
      NextRows(c, ws[n - 1], moves[n - 1], ws[n]);
      PcsStayBacked(c, ws, moves, n - 1);
      RowsStayBacked(c, ws, moves, n - 1);
    }
  }

  // ---------- the theorems about rows ----------

  /**
   A row that was executed or failed with approver e has behind it a dispatch of exactly its action and
   arguments, successful or not accordingly, in a request by e that had verified under e's key of that moment.
   */
  lemma DecidedMeansApproved(c: Config, ws: seq<World>, moves: seq<Move>, n: nat, id: int)
    requires Run(c, ws, moves) && n < |ws|
    requires id in ws[n].t.actions && ws[n].t.actions[id].status != Pending
    ensures RowBacked(c, ws, moves, n, id, ws[n].t.actions[id])
    ensures ws[n].t.actions[id].status != Rejected
  {
    RunBacked(c, ws, moves, n);
    NeverRejected(c, ws, moves, n);
  }

  /**
   And so it has a signature behind it: at some move its approver's key of that moment verified a signature over
   the payload of exactly its id, action and arguments.
   */
  lemma DecidedWasSigned(c: Config, ws: seq<World>, moves: seq<Move>, n: nat, id: int)
      returns (j: nat, body: Body, user: Operator)
    requires Run(c, ws, moves) && n < |ws|
    requires id in ws[n].t.actions && ws[n].t.actions[id].status != Pending
    ensures j < n && GetApprovalUser(ws[j].t, body.email) == Some(user)
    ensures body.email == ws[n].t.actions[id].approvedBy
    ensures var row := ws[n].t.actions[id];
            c.foreign.verify(user.publicKey, Signing.SigningPayload(c.foreign.compact, id, row.action, row.args),
                body.signature)
  {
    var row := ws[n].t.actions[id];
    DecidedMeansApproved(c, ws, moves, n, id);
    hide Run, Perform, Signing.CompactOrRaw, IntToString;
    var r: nat, read: ActionRow, signed: Body, key: string, result: Result<(), ActionError> :|
      && Performed(c, ws, moves, n, r, id, read, signed, key, result)
      && read.action == row.action && read.args == row.args
      && signed.email == row.approvedBy
      && (row.status == Executed <==> result.Ok?);
    var k :| 0 <= k < n
      && Dispatches(c, ws, moves, k, r, id, read, signed, key, result)
      && Verified(c, ws, moves, k, r, id, read, signed, key);
    j :| 0 <= j < k && KeyFound(c, ws, moves, j, r, id, read, signed, key);
    body, user := signed, ws[j].t.operators[Lower(signed.email)];
  }

  lemma {:induction false} NeverRejected(c: Config, ws: seq<World>, moves: seq<Move>, n: nat)
    requires Run(c, ws, moves) && n < |ws|
    ensures forall id :: id in ws[n].t.actions ==> ws[n].t.actions[id].status != Rejected
  {
    if n > 0 {
      NeverRejected(c, ws, moves, n - 1);
      assert Next(c, ws[n - 1], moves[n - 1], ws[n]);
      if moves[n - 1].Go? {
        StepRows(c, ws[n - 1].t, ws[n - 1].pcs[moves[n - 1].r]);
      }
    }
  }

  /** Every row of the queue is, but for its outcome, as some move of the run asked for it. */
  lemma {:induction false} EveryRowWasAskedFor(c: Config, ws: seq<World>, moves: seq<Move>, n: nat, id: int)
      returns (k: nat)
    requires Run(c, ws, moves) && n < |ws| && id in ws[n].t.actions
    ensures k < n && moves[k].Enqueue? && id !in ws[k].t.actions
    ensures AskedFor(c.foreign.jsonb, moves[k].action, moves[k].args, moves[k].metadata, moves[k].requestedBy,
        ws[n].t.actions[id])
  {
    if id in ws[n - 1].t.actions {
      k := EveryRowWasAskedFor(c, ws, moves, n - 1, id);
      StepFollows(c, ws, moves, n - 1);
    } else {
      k := n - 1;
      OnlyEnqueueAdds(c, ws[k], moves[k], ws[n], id);
    }
  }

  lemma OnlyEnqueueAdds(c: Config, w: World, mv: Move, w': World, id: int)
    requires Next(c, w, mv, w') && id in w'.t.actions && id !in w.t.actions
    ensures mv.Enqueue?
    ensures AskedFor(c.foreign.jsonb, mv.action, mv.args, mv.metadata, mv.requestedBy, w'.t.actions[id])
  {
    if mv.Go? {
      StepRows(c, w.t, w.pcs[mv.r]);
    }
  }

  lemma OnlyPendingIsApproved(c: Config, t: Tables, pc: Pc, id: int)
    requires !pc.Replied? && Step(c, t, pc).1 == Replied(Approved(id))
    ensures id in t.actions && t.actions[id].status == Pending
  {
    assert pc.Mark?;
  }

  predicate ApprovedIsExecuted(w: World, r: nat, id: int) {
    r < |w.pcs| && w.pcs[r] == Replied(Approved(id)) ==> id in w.t.actions && w.t.actions[id].status == Executed
  }

  lemma SecondApprovalIsOld(c: Config, w: World, mv: Move, w': World, r: nat, s: nat, id: int)
    requires Next(c, w, mv, w') && ApprovedIsExecuted(w, r, id) && ApprovedIsExecuted(w, s, id)
    requires r != s && r < |w'.pcs| && s < |w'.pcs| && w'.pcs[r] == w'.pcs[s] == Replied(Approved(id))
    ensures r < |w.pcs| && s < |w.pcs| && w.pcs[r] == w.pcs[s] == Replied(Approved(id))
  {
    if mv == Go(r) {
      assert w.pcs[s] == w'.pcs[s];
      OnlyPendingIsApproved(c, w.t, w.pcs[r], id);
    } else if mv == Go(s) {
      assert w.pcs[r] == w'.pcs[r];
      OnlyPendingIsApproved(c, w.t, w.pcs[s], id);
    }
  }

  /** However many approvers race, at most one is told that it executed the row. */
  lemma {:induction false} OneSuccessReply(c: Config, ws: seq<World>, moves: seq<Move>, n: nat, r: nat, s: nat, id: int)
    requires Run(c, ws, moves) && n < |ws| && r < |ws[n].pcs| && s < |ws[n].pcs|
    requires ws[n].pcs[r] == ws[n].pcs[s] == Replied(Approved(id))
    ensures r == s
  {
    if r != s {
      RunBacked(c, ws, moves, n - 1);
      assert r < |ws[n - 1].pcs| ==> PcBacked(c, ws, moves, n - 1, r);
      assert s < |ws[n - 1].pcs| ==> PcBacked(c, ws, moves, n - 1, s);
      SecondApprovalIsOld(c, ws[n - 1], moves[n - 1], ws[n], r, s, id);
      OneSuccessReply(c, ws, moves, n - 1, r, s, id);
    }
  }

  predicate PastLoad(pc: Pc, id: int) {
    (pc.FindKey? || pc.Dispatching?) && pc.id == id
  }

  /**
   A request that has not read a row by the time it is decided never dispatches it. While the row is pending
   any number of requests may.
   */
  lemma {:induction false} LateRequestNeverDispatches(c: Config, ws: seq<World>, moves: seq<Move>, n: nat, m: nat,
      r: nat, id: int)
    requires Run(c, ws, moves) && n <= m < |ws| && r < |ws[m].pcs|
    requires id in ws[n].t.actions && ws[n].t.actions[id].status != Pending
    requires r < |ws[n].pcs| ==> !PastLoad(ws[n].pcs[r], id)
    ensures !PastLoad(ws[m].pcs[r], id)
  {
    if n < m {
      OutcomeIsFinal(c, ws, moves, n, m - 1);
      assert RowFollows(ws[n].t.actions[id], ws[m - 1].t.actions[id]);
      if r < |ws[m - 1].pcs| {
        LateRequestNeverDispatches(c, ws, moves, n, m - 1, r, id);
      }
    }
  }

  // ---------- where keys come from ----------

  /** Move n enters publicKey as the key of the operator with this address (in lower case). */
  ghost predicate Enters(c: Config, ws: seq<World>, moves: seq<Move>, n: nat, email: string, publicKey: string) {
    && n < |moves| && n < |ws|
    && match moves[n]
       case Seed(e, k) => SeedOperator(c, ws[n].t, e, k).Ok? && Lower(e) == email && k == publicKey
       case Go(r) =>
         && r < |ws[n].pcs| && ws[n].pcs[r].Dispatching?
         && var row := ws[n].pcs[r].row;
            && Perform(c, ws[n].t, row).Ok?
            && GrantedTo(c.foreign, c.handlers, row.action, RawOrEmpty(row.args)) == Some((email, publicKey))
       case _ => false
  }

  lemma {:induction false} KeyWasEntered(c: Config, ws: seq<World>, moves: seq<Move>, n: nat, email: string)
    requires Run(c, ws, moves) && n < |ws| && email in ws[n].t.operators
    ensures exists m :: 0 <= m < n && Enters(c, ws, moves, m, email, ws[n].t.operators[email].publicKey)
  {
    var t, t' := ws[n - 1].t, ws[n].t;
    if moves[n - 1].Go? && ws[n - 1].pcs[moves[n - 1].r].Dispatching? {
      var row := ws[n - 1].pcs[moves[n - 1].r].row;
      if Perform(c, t, row).Ok? {
        DispatchTouches(c.foreign, c.handlers, t, row.action, RawOrEmpty(row.args));
      }
    }
    if email in t.operators && t'.operators[email] == t.operators[email] {
      KeyWasEntered(c, ws, moves, n - 1, email);
    } else {
      assert Enters(c, ws, moves, n - 1, email, t'.operators[email].publicKey);
    }
  }

  /** Move q dispatches a request that, after move p entered a key for its operator, verified under that key. */
  ghost predicate Vouches(c: Config, ws: seq<World>, moves: seq<Move>, p: nat, q: nat) {
    exists j: nat, r: nat, id: int, row: ActionRow, body: Body, key: string, result: Result<(), ActionError> ::
      && p < j < q
      && Enters(c, ws, moves, p, Lower(body.email), key)
      && KeyFound(c, ws, moves, j, r, id, row, body, key)
      && Dispatches(c, ws, moves, q, r, id, row, body, key, result)
  }

  /** A chain of moves from a seeded key: each link enters a key and vouches for the next. */
  ghost predicate Chain(c: Config, ws: seq<World>, moves: seq<Move>, links: seq<nat>) {
    && links != []
    && (forall i :: 0 <= i < |links| ==> links[i] < |moves|)
    && moves[links[0]].Seed?
    && forall i :: 0 < i < |links| ==> Vouches(c, ws, moves, links[i - 1], links[i])
  }

  lemma LinkBefore(c: Config, ws: seq<World>, moves: seq<Move>, n: nat, email: string, publicKey: string)
    returns (m: nat, e: string, k: string)
    requires Run(c, ws, moves) && Enters(c, ws, moves, n, email, publicKey) && !moves[n].Seed?
    ensures m < n && Enters(c, ws, moves, m, e, k) && Vouches(c, ws, moves, m, n)
  {
    var r := moves[n].r;
    RunBacked(c, ws, moves, n);
    assert PcBacked(c, ws, moves, n, r);
    var pc := ws[n].pcs[r];
    var j: nat :| j < n && KeyFound(c, ws, moves, j, r, pc.id, pc.row, pc.body, pc.key);
    e, k := Lower(pc.body.email), pc.key;
    KeyWasEntered(c, ws, moves, j, e);
    m :| 0 <= m < j && Enters(c, ws, moves, m, e, k);
    assert Dispatches(c, ws, moves, n, r, pc.id, pc.row, pc.body, pc.key, Ok(()));
  }

  lemma LengthenChain(c: Config, ws: seq<World>, moves: seq<Move>, links: seq<nat>, n: nat)
    requires Chain(c, ws, moves, links) && n < |moves| && Vouches(c, ws, moves, links[|links| - 1], n)
    ensures Chain(c, ws, moves, links + [n])
  {
  }

  /** Every key ever entered goes back, through dispatched add_approval_user actions, to a seeded key. */
  lemma {:induction false} EveryKeyHasChain(c: Config, ws: seq<World>, moves: seq<Move>, n: nat, email: string,
      publicKey: string)
    returns (links: seq<nat>)
    requires Run(c, ws, moves) && Enters(c, ws, moves, n, email, publicKey)
    ensures Chain(c, ws, moves, links) && links[|links| - 1] == n
    decreases n
  {
    if moves[n].Seed? {
      links := [n];
    } else {
      var m, e, k := LinkBefore(c, ws, moves, n, email, publicKey);
      var before := EveryKeyHasChain(c, ws, moves, m, e, k);
      links := before + [n];
      LengthenChain(c, ws, moves, before, n);
    }
  }

  /** So does the key of every operator that is authorized now. */
  lemma AuthorizedKeyHasChain(c: Config, ws: seq<World>, moves: seq<Move>, n: nat, email: string)
      returns (links: seq<nat>)
    requires Run(c, ws, moves) && n < |ws| && email in ws[n].t.operators
    ensures Chain(c, ws, moves, links) && links[|links| - 1] < n
    ensures Enters(c, ws, moves, links[|links| - 1], email, ws[n].t.operators[email].publicKey)
  {
    KeyWasEntered(c, ws, moves, n, email);
    var m: nat :| m < n && Enters(c, ws, moves, m, email, ws[n].t.operators[email].publicKey);
    links := EveryKeyHasChain(c, ws, moves, m, email, ws[n].t.operators[email].publicKey);
  }
}
