/**
 * The command queue of a node is first in, first out when nothing is lost: its agent executes what it
 * was given in order, waits for the acknowledgement of one command before it turns to the next, and
 * nothing is requeued. Setups may fail, removals do not; everything else is interleaved freely.
 */
module Fifo {
  import opened Rows
  import opened Plane
  import opened Protocol
  import NoReturn

  /** The oldest delivered command of the node: the one its agent is at. */
  predicate AtHead(db: Db, n: nat, i: nat) {
    && i < |db.commands| && db.commands[i].node == n && db.commands[i].status.Delivered?
    && forall j :: 0 <= j < i && db.commands[j].node == n ==> !db.commands[j].status.Delivered?
  }

  ghost predicate InFlight(sys: Sys, i: nat) {
    exists q, ok :: IsWriting(sys, q, i, ok)
  }

  ghost predicate Executable(sys: Sys, p: nat, n: nat, i: nat, ok: bool) {
    && AtHead(sys.db, n, i) && WasDelivered(sys.db, n, i)
    && (sys.db.commands[i].kind.RemovePeer? ==> ok)
    && n !in sys.replies && p !in sys.ackers && !InFlight(sys, i)
  }

  /** No command has been with its node since before `cutoff`. */
  predicate AllFresh(db: Db, cutoff: int) {
    forall i :: 0 <= i < |db.commands| && db.commands[i].status == Delivered ==> db.commands[i].deliveredAt >= cutoff
  }

  lemma FreshIsKept(db: Db, cutoff: int, maxAttempts: nat)
    requires AllFresh(db, cutoff)
    ensures RequeueStale(db, cutoff, maxAttempts) == db
  {
  }

  lemma FreshSweep(sys: Sys, cutoff: int, maxAttempts: nat)
    requires AllFresh(sys.db, cutoff)
    ensures ApplyQueue(sys, Requeue(cutoff, maxAttempts)) == sys
  {
    FreshIsKept(sys.db, cutoff, maxAttempts);
  }

  /** One step of a run without loss. */
  ghost predicate Orderly(sys: Sys, step: Step) {
    match step
    case OnQueue(Requeue(cutoff, _)) => AllFresh(sys.db, cutoff)
    case OnAck(Ack(_, _, _, _)) => false
    case OnAgent(Execute(_, _, _)) => false
    case OnAgent(ExecuteAndAck(p, n, i, ok)) => Executable(sys, p, n, i, ok)
    case _ => true
  }

  /** Commands of a node finish in order; a removal is never skipped. */
  ghost predicate InOrder(db: Db) {
    forall i, j :: 0 <= i < j < |db.commands| && db.commands[i].node == db.commands[j].node && Open(db.commands[i]) ==>
      !db.commands[j].status.Done? && (db.commands[j].kind.RemovePeer? ==> Open(db.commands[j]))
  }

  ghost predicate DeliveredFirst(db: Db) {
    forall i, j :: 0 <= i < j < |db.commands| && db.commands[i].node == db.commands[j].node ==>
      db.commands[j].status.Delivered? ==> !db.commands[i].status.Queued?
  }

  /** What an acknowledgement is about to write is at the head of its node's queue; a removed peer is gone. */
  ghost predicate WritesHead(sys: Sys, i: nat, ok: bool) {
    && i < |sys.db.commands| && AtHead(sys.db, sys.db.commands[i].node, i)
    && (sys.db.commands[i].kind.RemovePeer? ==> ok && sys.db.commands[i].key !in Table(sys, sys.db.commands[i].node))
  }

  ghost predicate WritersAreAtHead(sys: Sys) {
    && (forall q, i, ok :: IsWriting(sys, q, i, ok) ==> WritesHead(sys, i, ok))
    && (forall q, r, i, ok, yes :: IsWriting(sys, q, i, ok) && IsWriting(sys, r, i, yes) ==> q == r)
  }

  ghost predicate Inv(sys: Sys) {
    InOrder(sys.db) && DeliveredFirst(sys.db) && WritersAreAtHead(sys)
  }

  // -------------------------------------------------------------- frames ----

  /** Nothing is delivered or finished, except that setups not delivered yet may fail; new commands wait. */
  ghost predicate Calm(db: Db, after: Db) {
    && |db.commands| <= |after.commands|
    && (forall i :: 0 <= i < |db.commands| ==>
          && after.commands[i].node == db.commands[i].node && after.commands[i].kind == db.commands[i].kind
          && after.commands[i].key == db.commands[i].key
          && (after.commands[i].status == db.commands[i].status
              || (db.commands[i].kind.AddPeer? && db.commands[i].status.Queued? && after.commands[i].status.Aborted?)))
    && (forall i :: |db.commands| <= i < |after.commands| ==> after.commands[i].status.Queued?)
  }

  lemma CalmQueue(db: Db, after: Db)
    requires InOrder(db) && DeliveredFirst(db) && Calm(db, after)
    ensures InOrder(after) && DeliveredFirst(after)
    ensures forall n, i :: AtHead(db, n, i) ==> AtHead(after, n, i)
  {
  }

  /** The handlers that are about to write are the same and tables have lost entries at most. */
  ghost predicate SameWriters(sys: Sys, after: Sys) {
    && (forall q, i, ok :: IsWriting(after, q, i, ok) ==> IsWriting(sys, q, i, ok))
    && (forall n :: Table(after, n).Keys <= Table(sys, n).Keys)
  }

  lemma CalmKeeps(sys: Sys, after: Sys)
    requires Inv(sys) && Calm(sys.db, after.db) && SameWriters(sys, after)
    ensures Inv(after)
  {
    CalmQueue(sys.db, after.db);
    forall q, i, ok | IsWriting(after, q, i, ok) ensures WritesHead(after, i, ok) {
      assert IsWriting(sys, q, i, ok) && WritesHead(sys, i, ok);
    }
  }

  lemma SameHandlers(sys: Sys, after: Sys)
    requires after.ackers == sys.ackers && after.peers == sys.peers
    ensures SameWriters(sys, after)
  {
    assert forall q, i, ok :: IsWriting(after, q, i, ok) == IsWriting(sys, q, i, ok);
    assert forall n :: Table(after, n) == Table(sys, n);
  }

  // --------------------------------------------------------------- steps ----

  lemma ConnectIsCalm(sys: Sys, u: nat, d: nat, version: nat, n: nat, plan: Plan)
    ensures Calm(sys.db, Connected(sys, u, d, version, n, plan).db)
    ensures SameWriters(sys, Connected(sys, u, d, version, n, plan))
  {
    SameHandlers(sys, Connected(sys, u, d, version, n, plan));
  }

  lemma ScopeIsCalm(db: Db, order: seq<nat>, now: int)
    requires forall s :: s in order ==> s in db.sessions
    ensures Calm(db, CloseTogether(db, order, now))
  {
  }

  lemma DeleteIsCalm(db: Db, d: nat)
    ensures Calm(db, DeleteDevice(db, d))
  {
  }

  lemma RevokingIsCalm(sys: Sys, d: nat, order: seq<nat>, now: int)
    ensures Calm(sys.db, ApplyDevice(sys, RevokeDevice(d, order, now)).db)
  {
    if d in sys.db.devices && Enumerates(order, LiveInScope(sys.db, OfDevice(d))) {
      ScopeIsCalm(sys.db, order, now);
      SameQueueIsCalm(CloseTogether(sys.db, order, now), ApplyDevice(sys, RevokeDevice(d, order, now)).db);
    }
  }

  lemma DeviceStepIsCalm(sys: Sys, step: DeviceStep)
    ensures Calm(sys.db, ApplyDevice(sys, step).db)
  {
    if step.RevokeDevice? { RevokingIsCalm(sys, step.d, step.order, step.now); }
    else if step.RemoveDevice? { DeleteIsCalm(sys.db, step.d); }
    else { RowStepIsCalm(sys, step); }
  }

  lemma RowStepIsCalm(sys: Sys, step: DeviceStep)
    requires !step.RevokeDevice? && !step.RemoveDevice?
    ensures Calm(sys.db, ApplyDevice(sys, step).db)
  {
    NoReturn.RowsOnly(sys, step);
    SameQueueIsCalm(sys.db, ApplyDevice(sys, step).db);
  }

  lemma SameQueueIsCalm(db: Db, after: Db)
    requires after.commands == db.commands
    ensures Calm(db, after)
  {
  }

  lemma CloseStepIsCalm(sys: Sys, step: CloseStep)
    ensures Calm(sys.db, ApplyClose(sys, step).db)
  {
    match step
    case CloseScope(scope, order, now) =>
      if Enumerates(order, LiveInScope(sys.db, scope)) { ScopeIsCalm(sys.db, order, now); }
    case CloserRead(_, _) => RowlessCloseIsCalm(sys, step);
    case CloserCheck(_) => RowlessCloseIsCalm(sys, step);
    case CloserEnqueue(p) => EnqueueIsCalm(sys, p);
    case CloserFinish(_, _) => RowlessCloseIsCalm(sys, step);
  }

  lemma RowlessCloseIsCalm(sys: Sys, step: CloseStep)
    requires step.CloserFinish? || step.CloserRead? || step.CloserCheck?
    ensures Calm(sys.db, ApplyClose(sys, step).db)
  {
  }

  lemma EnqueueIsCalm(sys: Sys, p: nat)
    ensures Calm(sys.db, Enqueued(sys, p).db)
  {
    if p in sys.closers && sys.closers[p].Enqueuing? && sys.closers[p].session in sys.db.sessions {
      RemovalIsCalm(sys.db, sys.closers[p].session);
    }
  }

  lemma RemovalIsCalm(db: Db, s: nat)
    requires s in db.sessions
    ensures Calm(db, EnqueueRemove(db, s))
  {
    assert EnqueueRemove(db, s).commands[..|db.commands|] == db.commands;
    assert EnqueueRemove(db, s).commands[|db.commands|].status.Queued?;
  }

  lemma {:induction false} AheadIsMonotone(commands: seq<Command>, n: nat, i: nat, j: nat)
    requires i <= j <= |commands|
    ensures AheadOf(commands, n, i) <= AheadOf(commands, n, j)
    decreases j - i
  {
    if i < j { AheadIsMonotone(commands, n, i, j - 1); }
  }

  /** Taking the oldest commands keeps the queue in order, and nothing gets in front of what was delivered. */
  lemma TakeKeepsOrder(db: Db, n: nat, limit: int, now: int)
    requires InOrder(db) && DeliveredFirst(db)
    ensures InOrder(TakeOldest(db, n, limit, now)) && DeliveredFirst(TakeOldest(db, n, limit, now))
    ensures forall m, i :: AtHead(db, m, i) ==> AtHead(TakeOldest(db, n, limit, now), m, i)
  {
    var after := TakeOldest(db, n, limit, now);
    forall i, j | 0 <= i < j < |db.commands| && after.commands[i].node == after.commands[j].node && after.commands[j].status.Delivered?
      ensures !after.commands[i].status.Queued?
    {
      AheadIsMonotone(db.commands, n, i, j);
    }
  }

  lemma TakeKeeps(sys: Sys, p: nat, now: int)
    requires Inv(sys) && p in sys.claimers
    ensures Inv(ApplyQueue(sys, ClaimTake(p, now)))
  {
    var after := ApplyQueue(sys, ClaimTake(p, now));
    TakeKeepsOrder(sys.db, sys.claimers[p], CLAIM_LIMIT, now);
    SameHandlers(sys, after);
    forall q, i, ok | IsWriting(after, q, i, ok) ensures WritesHead(after, i, ok) {
      assert IsWriting(sys, q, i, ok) && WritesHead(sys, i, ok);
    }
  }

  lemma CancelIsCalm(db: Db, n: nat)
    ensures Calm(db, CancelDead(db, n))
  {
  }

  lemma QueueStepIsCalm(sys: Sys, step: QueueStep)
    requires Orderly(sys, OnQueue(step)) && !step.ClaimTake?
    ensures Calm(sys.db, ApplyQueue(sys, step).db) && SameWriters(sys, ApplyQueue(sys, step))
  {
    SameHandlers(sys, ApplyQueue(sys, step));
    match step
    case ClaimCancel(p, n) => CancelIsCalm(sys.db, n);
    case Requeue(cutoff, maxAttempts) => FreshIsKept(sys.db, cutoff, maxAttempts);
    case PolicyChange(_) =>
  }

  lemma HeadIsOldest(db: Db, n: nat, i: nat)
    requires DeliveredFirst(db) && AtHead(db, n, i)
    ensures forall j :: 0 <= j < i && db.commands[j].node == n ==> !Open(db.commands[j])
  {
  }

  lemma CompleteKeepsOrder(db: Db, i: nat, ok: bool)
    requires InOrder(db) && DeliveredFirst(db) && i < |db.commands| && AtHead(db, db.commands[i].node, i)
    requires db.commands[i].kind.RemovePeer? ==> ok
    ensures InOrder(Complete(db, i, ok)) && DeliveredFirst(Complete(db, i, ok))
    ensures forall m, j :: AtHead(db, m, j) && j != i ==> AtHead(Complete(db, i, ok), m, j)
  {
    HeadIsOldest(db, db.commands[i].node, i);
  }

  lemma WriteKeeps(sys: Sys, p: nat)
    requires Inv(sys)
    ensures Inv(Completed(sys, p))
  {
    var after := Completed(sys, p);
    if p in sys.ackers && sys.ackers[p].Completing? {
      var i, ok := sys.ackers[p].command, sys.ackers[p].ok;
      assert IsWriting(sys, p, i, ok) && WritesHead(sys, i, ok);
      CompleteKeepsOrder(sys.db, i, ok);
      forall q, j: nat, yes | IsWriting(after, q, j, yes) ensures IsWriting(sys, q, j, yes) && WritesHead(after, j, yes) {
        assert IsWriting(sys, q, j, yes) && q != p && WritesHead(sys, j, yes);
        assert Table(after, sys.db.commands[j].node) == Table(sys, sys.db.commands[j].node);
      }
    }
  }

  /** The later statements of a handler leave the queue, the tables and the other handlers alone. */
  lemma LaterAckStepIsCalm(sys: Sys, step: AckStep)
    requires step.AckUpdate? || step.AckRelease?
    ensures Calm(sys.db, ApplyAck(sys, step).db) && SameWriters(sys, ApplyAck(sys, step))
  {
    var after := ApplyAck(sys, step);
    assert after.db.commands == sys.db.commands;
    assert after.peers == sys.peers;
    forall q, i, ok | IsWriting(after, q, i, ok) ensures IsWriting(sys, q, i, ok) {}
  }

  ghost function Carried(sys: Sys, p: nat, n: nat, i: nat, ok: bool): Sys {
    Acknowledged(Executed(sys, n, i, ok), p, n, i, ok)
  }

  /** The command at the head is carried out and its acknowledgement has arrived. */
  lemma CarriedIs(sys: Sys, p: nat, n: nat, i: nat, ok: bool)
    requires Executable(sys, p, n, i, ok)
    ensures
      var after := Carried(sys, p, n, i, ok);
      && after == sys.(ackers := sys.ackers[p := Completing(i, ok)], verdicts := after.verdicts, peers := after.peers)
      && (forall m :: Table(after, m) == if m == n && ok then PeerEffect(Table(sys, n), sys.db.commands[i]) else Table(sys, m))
      && (forall q, j, yes :: IsWriting(after, q, j, yes) <==> IsWriting(sys, q, j, yes) || (q == p && j == i && yes == ok))
  {
  }

  lemma CarriedKeeps(sys: Sys, p: nat, n: nat, i: nat, ok: bool)
    requires Inv(sys) && Executable(sys, p, n, i, ok)
    ensures Inv(Carried(sys, p, n, i, ok))
  {
    var after := Carried(sys, p, n, i, ok);
    CarriedIs(sys, p, n, i, ok);
    forall q, j, yes | IsWriting(after, q, j, yes) ensures WritesHead(after, j, yes) {
      if IsWriting(sys, q, j, yes) { assert WritesHead(sys, j, yes) && j != i; }
    }
    forall q, r, j, a, b | IsWriting(after, q, j, a) && IsWriting(after, r, j, b) ensures q == r {
      if j == i { assert !InFlight(sys, i); }
    }
  }

  lemma ReportsAreCalm(sys: Sys, step: AgentStep)
    requires step.Report? || step.ReportApply?
    ensures Calm(sys.db, ApplyAgent(sys, step).db) && SameWriters(sys, ApplyAgent(sys, step))
  {
    var after := ApplyAgent(sys, step);
    assert after.db == sys.db && after.ackers == sys.ackers;
    assert forall q, i, ok :: IsWriting(after, q, i, ok) == IsWriting(sys, q, i, ok);
    assert forall n :: Table(after, n).Keys <= Table(sys, n).Keys;
  }

  lemma LeaseStepIsCalm(sys: Sys, step: LeaseStep)
    ensures Calm(sys.db, ApplyLease(sys, step).db) && SameWriters(sys, ApplyLease(sys, step))
  {
    assert ApplyLease(sys, step).db.commands == sys.db.commands;
    SameHandlers(sys, ApplyLease(sys, step));
  }

  /** Taking, writing a verdict and executing are the three steps that move a queue on. */
  predicate MovesOn(step: Step) {
    || (step.OnQueue? && step.queue.ClaimTake?)
    || (step.OnAck? && step.ack.AckWrite?)
    || (step.OnAgent? && step.agent.ExecuteAndAck?)
  }

  lemma OthersAreCalm(sys: Sys, step: Step)
    requires Orderly(sys, step) && !MovesOn(step)
    ensures Calm(sys.db, Apply(sys, step).db) && SameWriters(sys, Apply(sys, step))
  {
    match step
    case Configure(_, _, _) => SameHandlers(sys, Apply(sys, step));
    case Connect(u, d, version, n, plan) => ConnectIsCalm(sys, u, d, version, n, plan);
    case OnDevice(device) => DeviceStepIsCalm(sys, device); DevicesChange(sys, device); SameHandlers(sys, Apply(sys, step));
    case OnClose(close) => CloseStepIsCalm(sys, close); ClosersChange(sys, close); SameHandlers(sys, Apply(sys, step));
    case OnQueue(queue) => QueueStepIsCalm(sys, queue);
    case OnAck(ack) => LaterAckStepIsCalm(sys, ack);
    case OnLease(lease) => LeaseStepIsCalm(sys, lease);
    case OnAgent(agent) => ReportsAreCalm(sys, agent);
  }

  lemma StepKeeps(sys: Sys, step: Step)
    requires Inv(sys) && Orderly(sys, step)
    ensures Inv(Apply(sys, step))
  {
    match step
    case OnQueue(ClaimTake(p, now)) =>
      if p in sys.claimers { TakeKeeps(sys, p, now); }
    case OnAck(AckWrite(p)) => WriteKeeps(sys, p);
    case OnAgent(ExecuteAndAck(p, n, i, ok)) => CarriedKeeps(sys, p, n, i, ok);
    case _ =>
      OthersAreCalm(sys, step);
      CalmKeeps(sys, Apply(sys, step));
  }

  lemma InstalledIsInOrder(init: Sys)
    requires Installed(init)
    ensures Inv(init)
  {
  }
}
