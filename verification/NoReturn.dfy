/** A session that has ended stays ended, and its setup stands in the queue before its removals. */
module NoReturn {
  import opened Rows
  import opened Plane
  import opened Protocol

  /** The session has existed and is neither PENDING nor ACTIVE any more. */
  predicate Ended(db: Db, s: nat) {
    s < db.nextSession && (s in db.sessions ==> !Live(db.sessions[s]))
  }

  /** An ADD_PEER whose session has ended, or whose session row is gone. */
  predicate Orphaned(db: Db, i: nat) {
    && i < |db.commands| && db.commands[i].kind.AddPeer?
    && (db.commands[i].session.Some? ==> Ended(db, db.commands[i].session.value))
  }

  ghost predicate IdsIssued(db: Db) {
    && (forall s :: s in db.sessions ==> s < db.nextSession)
    && (forall i :: 0 <= i < |db.commands| && db.commands[i].session.Some? ==>
          db.commands[i].session.value < db.nextSession)
  }

  ghost predicate AddsComeFirst(db: Db) {
    forall i, j :: 0 <= i < j < |db.commands| && db.commands[i].kind.RemovePeer? && db.commands[j].kind.AddPeer? ==>
      db.commands[i].session.None? || db.commands[i].session != db.commands[j].session
  }

  ghost predicate Sound(db: Db) {
    IdsIssued(db) && AddsComeFirst(db)
  }

  ghost predicate Keeps(db: Db, after: Db) {
    && Sound(after) && db.nextSession <= after.nextSession
    && (forall s: nat :: Ended(db, s) ==> Ended(after, s))
    && (forall i: nat :: Orphaned(db, i) ==> Orphaned(after, i))
  }

  lemma Opening(db: Db, u: nat, d: nat, version: nat, key: nat, n: nat, plan: Plan)
    requires Sound(db)
    requires CreateSession(db, u, d, version, key, n, plan).Ok?
    ensures Keeps(db, CreateSession(db, u, d, version, key, n, plan).value)
  {
  }

  lemma Enqueuing(db: Db, s: nat)
    requires Sound(db)
    ensures Keeps(db, EnqueueRemove(db, s))
  {
  }

  lemma Finishing(db: Db, s: nat, now: int)
    requires Sound(db)
    ensures Keeps(db, FinishClose(db, s, now))
  {
  }

  lemma ClosingTogether(db: Db, order: seq<nat>, now: int)
    requires Sound(db)
    requires forall s :: s in order ==> s in db.sessions
    ensures Keeps(db, CloseTogether(db, order, now))
  {
  }

  lemma Cancelling(db: Db, n: nat)
    requires Sound(db)
    ensures Keeps(db, CancelDead(db, n))
  {
  }

  lemma Taking(db: Db, n: nat, limit: int, now: int)
    requires Sound(db)
    ensures Keeps(db, TakeOldest(db, n, limit, now))
  {
  }

  lemma Completing(db: Db, i: nat, ok: bool)
    requires Sound(db)
    requires i < |db.commands|
    ensures Keeps(db, Complete(db, i, ok))
  {
  }

  lemma Settling(db: Db, s: nat, ok: bool, now: int)
    requires Sound(db)
    ensures Keeps(db, SettleSession(db, s, ok, now))
  {
  }

  lemma Requeuing(db: Db, cutoff: int, maxAttempts: nat)
    requires Sound(db)
    ensures Keeps(db, RequeueStale(db, cutoff, maxAttempts))
  {
  }

  lemma Syncing(db: Db, n: nat)
    requires Sound(db)
    ensures Keeps(db, EnqueueSync(db, n))
  {
  }

  lemma Deleting(db: Db, d: nat)
    requires Sound(db)
    ensures Keeps(db, DeleteDevice(db, d))
  {
  }

  ghost predicate Inv(sys: Sys) {
    Sound(sys.db)
  }

  lemma Untouched(db: Db, after: Db)
    requires Sound(db)
    requires after.sessions == db.sessions && after.nextSession == db.nextSession && after.commands == db.commands
    ensures Keeps(db, after)
  {
  }

  lemma ConnectKeeps(sys: Sys, u: nat, d: nat, version: nat, n: nat, plan: Plan)
    requires Inv(sys)
    ensures Keeps(sys.db, Connected(sys, u, d, version, n, plan).db)
  {
    if Connected(sys, u, d, version, n, plan) == sys { Untouched(sys.db, sys.db); }
    else { Opening(sys.db, u, d, version, sys.snapshots[(d, version)], n, plan); }
  }

  lemma DeviceRowsAreIrrelevant(sys: Sys, db: Db)
    requires Sound(sys.db) && Keeps(db, sys.db)
    ensures forall d, device :: Keeps(db, WithDevice(sys, d, device).db)
  {
    forall d, device ensures Keeps(db, WithDevice(sys, d, device).db) {
      Untouched(sys.db, WithDevice(sys, d, device).db);
    }
  }

  lemma DeviceStepKeeps(sys: Sys, step: DeviceStep)
    requires Inv(sys)
    ensures Keeps(sys.db, ApplyDevice(sys, step).db)
  {
    var db := sys.db;
    Untouched(db, db);
    match step
    case RevokeDevice(d, order, now) =>
      if d in db.devices && Enumerates(order, LiveInScope(db, OfDevice(d))) {
        ClosingTogether(db, order, now);
        DeviceRowsAreIrrelevant(sys.(db := CloseTogether(db, order, now)), db);
      }
    case RemoveDevice(d) => Deleting(db, d);
    case _ => RowStepKeeps(sys, step);
  }

  predicate RowsStay(db: Db, after: Db) {
    after.sessions == db.sessions && after.commands == db.commands && after.nextSession == db.nextSession
  }

  lemma AddingRowsOnly(sys: Sys, d: nat, u: nat, key: nat)
    ensures RowsStay(sys.db, ApplyDevice(sys, AddDevice(d, u, key)).db)
  {
  }

  lemma RotatingRowsOnly(sys: Sys, d: nat, key: nat)
    ensures RowsStay(sys.db, ApplyDevice(sys, RotateKey(d, key)).db)
  {
    assert forall device :: RowsStay(sys.db, WithDevice(sys, d, device).db);
  }

  lemma ReactivatingRowsOnly(sys: Sys, d: nat)
    ensures RowsStay(sys.db, ApplyDevice(sys, Reactivate(d)).db)
  {
  }

  lemma WithdrawingRowsOnly(sys: Sys, d: nat)
    ensures RowsStay(sys.db, ApplyDevice(sys, AdminRevoke(d)).db)
  {
  }

  lemma RowsOnly(sys: Sys, step: DeviceStep)
    requires !step.RevokeDevice? && !step.RemoveDevice?
    ensures RowsStay(sys.db, ApplyDevice(sys, step).db)
  {
    match step
    case AddDevice(d, u, key) => AddingRowsOnly(sys, d, u, key);
    case RotateKey(d, key) => RotatingRowsOnly(sys, d, key);
    case Reactivate(d) => ReactivatingRowsOnly(sys, d);
    case AdminRevoke(d) => WithdrawingRowsOnly(sys, d);
  }

  lemma RowStepKeeps(sys: Sys, step: DeviceStep)
    requires Inv(sys) && !step.RevokeDevice? && !step.RemoveDevice?
    ensures Keeps(sys.db, ApplyDevice(sys, step).db)
  {
    RowsOnly(sys, step);
    Untouched(sys.db, ApplyDevice(sys, step).db);
  }

  lemma CloseStepKeeps(sys: Sys, step: CloseStep)
    requires Inv(sys)
    ensures Keeps(sys.db, ApplyClose(sys, step).db)
  {
    var db := sys.db;
    Untouched(db, db);
    match step
    case CloseScope(scope, order, now) =>
      if Enumerates(order, LiveInScope(db, scope)) { ClosingTogether(db, order, now); }
    case CloserEnqueue(p) =>
      if p in sys.closers { Enqueuing(db, sys.closers[p].session); }
    case CloserFinish(p, now) =>
      if p in sys.closers { Finishing(db, sys.closers[p].session, now); }
    case _ =>
  }

  lemma QueueStepKeeps(sys: Sys, step: QueueStep)
    requires Inv(sys)
    ensures Keeps(sys.db, ApplyQueue(sys, step).db)
  {
    Untouched(sys.db, sys.db);
    match step
    case ClaimCancel(p, n) => Cancelling(sys.db, n);
    case ClaimTake(p, now) =>
      if p in sys.claimers { Taking(sys.db, sys.claimers[p], CLAIM_LIMIT, now); }
    case Requeue(cutoff, maxAttempts) => Requeuing(sys.db, cutoff, maxAttempts);
    case PolicyChange(n) => Syncing(sys.db, n);
  }

  lemma AckStepKeeps(sys: Sys, step: AckStep)
    requires Inv(sys)
    ensures Keeps(sys.db, ApplyAck(sys, step).db)
  {
    var db, after := sys.db, ApplyAck(sys, step).db;
    match step
    case Ack(p, n, i, ok) => Untouched(db, db);
    case AckWrite(p) =>
      if p in sys.ackers && sys.ackers[p].command < |db.commands| { Completing(db, sys.ackers[p].command, sys.ackers[p].ok); }
      Untouched(db, db);
    case AckUpdate(p, now) =>
      if p in sys.ackers && sys.ackers[p].Updating? { Settling(db, sys.ackers[p].session, sys.ackers[p].ok, now); }
      Untouched(db, db);
    case AckRelease(p) => Untouched(db, after);
  }

  lemma LeaseStepKeeps(sys: Sys, step: LeaseStep)
    requires Inv(sys)
    ensures Keeps(sys.db, ApplyLease(sys, step).db)
  {
    Untouched(sys.db, ApplyLease(sys, step).db);
  }

  lemma AgentStepKeeps(sys: Sys, step: AgentStep)
    requires Inv(sys)
    ensures Keeps(sys.db, ApplyAgent(sys, step).db)
  {
    match step
    case ExecuteAndAck(p, n, i, ok) => AckStepKeeps(Executed(sys, n, i, ok), Ack(p, n, i, ok));
    case _ => Untouched(sys.db, sys.db);
  }

  lemma StepKeeps(sys: Sys, step: Step)
    requires Inv(sys)
    ensures Keeps(sys.db, Apply(sys, step).db)
  {
    var db, after := sys.db, Apply(sys, step).db;
    match step
    case Configure(maintenance, users, nodes) => Untouched(db, after);
    case Connect(u, d, version, n, plan) => ConnectKeeps(sys, u, d, version, n, plan);
    case OnDevice(device) => DeviceStepKeeps(sys, device);
    case OnClose(close) => CloseStepKeeps(sys, close);
    case OnQueue(queue) => QueueStepKeeps(sys, queue);
    case OnAck(ack) => AckStepKeeps(sys, ack);
    case OnLease(lease) => LeaseStepKeeps(sys, lease);
    case OnAgent(agent) => AgentStepKeeps(sys, agent);
  }

  lemma {:induction false} RunKeeps(sys: Sys, steps: seq<Step>)
    requires Sound(sys.db)
    ensures Keeps(sys.db, Run(sys, steps).db)
    decreases |steps|
  {
    if steps != [] {
      StepKeeps(sys, steps[0]);
      RunKeeps(Apply(sys, steps[0]), steps[1..]);
    }
  }

  /**
   * Once a session is neither PENDING nor ACTIVE, no continuation of the run - acknowledgements in
   * any order, requeues, redeliveries, reconnects - makes it live again.
   */
  lemma NeverReturns(init: Sys, history: seq<Step>, future: seq<Step>, s: nat)
    requires Installed(init) && Ended(Run(init, history).db, s)
    ensures Ended(Run(init, history + future).db, s)
  {
    RunKeeps(init, history);
    RunKeeps(Run(init, history), future);
    RunAppend(init, history, future);
  }

  /** A claim that nothing interrupts delivers an ADD_PEER only for a session that is live at that moment. */
  lemma DeliveredAddsAreLive(db: Db, n: nat, limit: int, now: int, i: nat)
    requires i < |db.commands| && db.commands[i].kind.AddPeer?
    requires Claim(db, n, limit, now).commands[i].attempts != db.commands[i].attempts
    ensures db.commands[i].session.Some? && db.commands[i].session.value in db.sessions
    ensures Live(db.sessions[db.commands[i].session.value])
  {
  }

  lemma InstalledIsSound(init: Sys)
    requires Installed(init)
    ensures Sound(init.db)
  {
  }

  lemma AddFirst(db: Db, s: nat, add: nat, remove: nat)
    requires Sound(db)
    requires add < |db.commands| && IsAddOf(db.commands[add], s)
    requires remove < |db.commands| && IsRemoveOf(db.commands[remove], s)
    ensures add < remove
  {
  }

  /** In every reachable state a session's ADD_PEER stands before each of its REMOVE_PEERs in the queue. */
  lemma AddPrecedesRemove(init: Sys, steps: seq<Step>, s: nat, add: nat, remove: nat)
    requires Installed(init)
    requires add < |Run(init, steps).db.commands| && IsAddOf(Run(init, steps).db.commands[add], s)
    requires remove < |Run(init, steps).db.commands| && IsRemoveOf(Run(init, steps).db.commands[remove], s)
    ensures add < remove
  {
    var sys := Run(init, steps);
    InstalledIsSound(init);
    RunKeeps(init, steps);
    AddFirst(sys.db, s, add, remove);
  }
}
