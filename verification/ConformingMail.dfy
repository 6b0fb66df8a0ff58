/**
 Order independence end to end: mail that keeps to RFC 5322 section 3.6.4 is placed alike in every order, so
 nothing about attribution depends on the order.
 */
module ConformingMail {
  import opened Wrappers
  import opened MailTables
  import opened Ingest
  import opened Attribution
  import opened AttributionOrder
  import Conversations

  ghost predicate Placed(conv: string -> string, db: MailDb) {
    Conversations.RootedThreads(conv, db) && Conversations.PlacedMessages(conv, db)
  }

  lemma {:induction false} TracePlaces(conv: string -> string, d: Delivery, folder: string, uidValidity: nat,
      trace: seq<(MailDb, Pc)>, i: nat)
    requires RunsAlone(trace) && trace[0].1 == Begin(d, folder, uidValidity) && i < |trace|
    requires Schema(trace[0].0) && Placed(conv, trace[0].0) && Conversations.Conforms(conv, d)
    ensures Schema(trace[i].0) && Placed(conv, trace[i].0) && Conversations.PcOk(conv, trace[i].0, d, trace[i].1)
  {
    if i == 0 {
      Conversations.BeginOk(conv, trace[0].0, d, folder, uidValidity);
    } else {
      TracePlaces(conv, d, folder, uidValidity, trace, i - 1);
      assert Step(trace[i - 1].0, trace[i - 1].1, trace[i - 1 + 1].0, trace[i - 1 + 1].1);
      Conversations.StepKeeps(conv, trace[i - 1].0, d, trace[i - 1].1, trace[i].0, trace[i].1);
    }
  }

  lemma HandlingPlaces(conv: string -> string, db: MailDb, d: Delivery, folder: string, uidValidity: nat, db': MailDb,
      o: Outcome)
    requires Schema(db) && Placed(conv, db) && Conversations.Conforms(conv, d)
    requires Handles(db, d, folder, uidValidity, db', o)
    ensures Placed(conv, db')
  {
    var trace :| RunsAlone(trace) && trace[0] == (db, Begin(d, folder, uidValidity)) && Last(trace) == (db', Done(o));
    TracePlaces(conv, d, folder, uidValidity, trace, |trace| - 1);
  }

  ghost predicate ConformingOp(conv: string -> string, op: Op) {
    op.Index? ==> Conversations.Conforms(conv, op.d)
  }

  lemma AdminKeepsKeys(db: MailDb, op: Op, db': MailDb)
    requires OpStep(db, op, db') && !op.Index?
    ensures db'.threads.Keys == db.threads.Keys && db'.messages.Keys == db.messages.Keys
  {
  }

  lemma OpPlaces(conv: string -> string, db: MailDb, op: Op, db': MailDb)
    requires Attributed(db) && Placed(conv, db) && ConformingOp(conv, op) && OpStep(db, op, db')
    ensures Placed(conv, db')
  {
    if op.Index? {
      var o :| Handles(db, op.d, op.folder, op.uidValidity, db', o);
      HandlingPlaces(conv, db, op.d, op.folder, op.uidValidity, db', o);
    } else {
      OpGrows(db, op, db');
      AdminKeepsKeys(db, op, db');
      Conversations.SameRowsKeepPlacement(conv, db, db');
    }
  }

  /** After every operation of a serial run over conforming mail, messages are in their conversations' threads. */
  lemma {:induction false} RunPlaces(conv: string -> string, dbs: seq<MailDb>, ops: seq<Op>, n: nat)
    requires SerialRun(dbs, ops) && n <= |ops| && forall i :: 0 <= i < |ops| ==> ConformingOp(conv, ops[i])
    ensures Placed(conv, dbs[n])
  {
    if n > 0 {
      RunPlaces(conv, dbs, ops, n - 1);
      RunAttributed(dbs, ops, n - 1);
      OpPlaces(conv, dbs[n - 1], ops[n - 1], dbs[n]);
    }
  }

  lemma PlacedAlike(conv: string -> string, a: MailDb, b: MailDb)
    requires Placed(conv, a) && Placed(conv, b)
    ensures SamePlacement(a, b)
  {
  }

  /**
   Let two runs handle the same conforming mail and make the same authorizations, in any two orders, with every
   readable message indexed. Then the same threads are assigned at the end.
   */
  lemma AttributionIsOrderIndependent(conv: string -> string, dbs1: seq<MailDb>, ops1: seq<Op>, dbs2: seq<MailDb>,
      ops2: seq<Op>)
    requires OrderlyRun(dbs1, ops1) && OrderlyRun(dbs2, ops2)
    requires AllSucceed(dbs1, ops1) && AllSucceed(dbs2, ops2)
    requires multiset(ops1) == multiset(ops2) && OneSenderPerId(ops1)
    requires forall i :: 0 <= i < |ops1| ==> ConformingOp(conv, ops1[i])
    ensures AssignedRoots(dbs1[|ops1|]) == AssignedRoots(dbs2[|ops2|])
  {
    forall i | 0 <= i < |ops2|
      ensures ConformingOp(conv, ops2[i])
    {
      SameOperations(ops2, ops1, i);
    }
    RunPlaces(conv, dbs1, ops1, |ops1|);
    RunPlaces(conv, dbs2, ops2, |ops2|);
    PlacedAlike(conv, dbs1[|ops1|], dbs2[|ops2|]);
    AssignmentIsOrderIndependent(dbs1, ops1, dbs2, ops2);
  }
}
