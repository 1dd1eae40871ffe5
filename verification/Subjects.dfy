/**
 * What a command is about never changes: its kind, node, key and address, and its session until the
 * session's row is deleted. So in every run, with or without loss, each session has one setup, and
 * the commands about a session carry the node, the key and the address of its row.
 */
module Subjects {
  import opened Rows
  import opened Plane
  import opened Protocol
  import NoReturn
  import Exclusive
  import Keys

  ghost predicate CommandsMatch(db: Db) {
    forall i :: 0 <= i < |db.commands| && db.commands[i].session.Some? && !db.commands[i].kind.Sync? ==>
      var s := db.commands[i].session.value;
      s in db.sessions ==>
        db.commands[i].node == db.sessions[s].node && db.commands[i].key == db.sessions[s].key
        && db.commands[i].ip == db.sessions[s].ip
  }

  ghost predicate EachHasAdd(db: Db) {
    forall s :: s in db.sessions ==> exists a :: 0 <= a < |db.commands| && IsAddOf(db.commands[a], s)
  }

  ghost predicate Structure(sys: Sys) {
    && NoReturn.Sound(sys.db)
    && Exclusive.OneAddEach(sys.db)
    && Keys.Inv(sys)
    && CommandsMatch(sys.db)
    && EachHasAdd(sys.db)
  }

  /** Commands keep what they are about; `after` may have more of them. */
  ghost predicate SameCommands(db: Db, after: Db) {
    && |db.commands| <= |after.commands|
    && forall i :: 0 <= i < |db.commands| ==>
         && after.commands[i].kind == db.commands[i].kind && after.commands[i].session == db.commands[i].session
         && after.commands[i].node == db.commands[i].node && after.commands[i].key == db.commands[i].key
         && after.commands[i].ip == db.commands[i].ip
  }

  ghost predicate SameSession(db: Db, after: Db, s: nat)
    requires s in db.sessions && s in after.sessions
  {
    && after.sessions[s].node == db.sessions[s].node
    && after.sessions[s].key == db.sessions[s].key
    && after.sessions[s].ip == db.sessions[s].ip
  }

  lemma StructureFrame(sys: Sys, after: Sys)
    requires Structure(sys) && NoReturn.Sound(after.db) && Keys.Inv(after)
    requires SameCommands(sys.db, after.db) && after.db.sessions.Keys == sys.db.sessions.Keys
    requires forall s :: s in after.db.sessions ==> SameSession(sys.db, after.db, s)
    requires forall i :: |sys.db.commands| <= i < |after.db.commands| ==> AboutNobodyNew(sys.db, after.db.commands[i])
    ensures Structure(after)
  {
    AddsStay(sys.db, after.db);
    MatchesStay(sys.db, after.db);
  }

  predicate AboutNobodyNew(db: Db, c: Command) {
    match c.kind
    case AddPeer => false
    case RemovePeer =>
      c.session.Some? && c.session.value in db.sessions ==> c == RemoveCommand(c.session.value, db.sessions[c.session.value])
    case Sync => true
  }

  lemma AddsStay(db: Db, after: Db)
    requires EachHasAdd(db) && SameCommands(db, after) && after.sessions.Keys <= db.sessions.Keys
    ensures EachHasAdd(after)
  {
    forall s | s in after.sessions ensures exists a :: 0 <= a < |after.commands| && IsAddOf(after.commands[a], s) {
      var a :| 0 <= a < |db.commands| && IsAddOf(db.commands[a], s);
      assert IsAddOf(after.commands[a], s);
    }
  }

  lemma MatchesStay(db: Db, after: Db)
    requires CommandsMatch(db) && SameCommands(db, after) && after.sessions.Keys == db.sessions.Keys
    requires forall s :: s in after.sessions ==> SameSession(db, after, s)
    requires forall i :: |db.commands| <= i < |after.commands| ==> AboutNobodyNew(db, after.commands[i])
    ensures CommandsMatch(after)
  {
  }

  /** Sessions and commands are untouched. */
  predicate SameTables(db: Db, after: Db) {
    after.sessions == db.sessions && after.commands == db.commands && after.nextSession == db.nextSession
  }

  lemma QuietKeepsStructure(sys: Sys, after: Sys)
    requires Structure(sys) && SameTables(sys.db, after.db) && Keys.Inv(after)
    ensures Structure(after)
  {
    NoReturn.Untouched(sys.db, after.db);
    StructureFrame(sys, after);
  }

  lemma CancelKeepsStructure(sys: Sys, n: nat)
    requires Structure(sys)
    ensures Structure(sys.(db := CancelDead(sys.db, n)))
  {
    var after := sys.(db := CancelDead(sys.db, n));
    NoReturn.Cancelling(sys.db, n);
    Keys.DyingKeeps(sys, after);
    StructureFrame(sys, after);
  }

  lemma TakeKeepsStructure(sys: Sys, n: nat, limit: int, now: int)
    requires Structure(sys)
    ensures Structure(sys.(db := TakeOldest(sys.db, n, limit, now)))
  {
    var after := sys.(db := TakeOldest(sys.db, n, limit, now));
    NoReturn.Taking(sys.db, n, limit, now);
    Keys.DyingKeeps(sys, after);
    StructureFrame(sys, after);
  }

  lemma RequeueKeepsStructure(sys: Sys, cutoff: int, maxAttempts: nat)
    requires Structure(sys)
    ensures Structure(sys.(db := RequeueStale(sys.db, cutoff, maxAttempts)))
  {
    var after := sys.(db := RequeueStale(sys.db, cutoff, maxAttempts));
    NoReturn.Requeuing(sys.db, cutoff, maxAttempts);
    Keys.DyingKeeps(sys, after);
    StructureFrame(sys, after);
  }

  lemma SyncKeepsStructure(sys: Sys, n: nat)
    requires Structure(sys)
    ensures Structure(sys.(db := EnqueueSync(sys.db, n)))
  {
    var after := sys.(db := EnqueueSync(sys.db, n));
    NoReturn.Syncing(sys.db, n);
    Keys.DyingKeeps(sys, after);
    StructureFrame(sys, after);
  }

  ghost predicate LiveRows(db: Db, order: seq<nat>) {
    forall s :: s in order ==> IsLive(db, s)
  }

  lemma TogetherKeepsStructure(sys: Sys, order: seq<nat>, now: int)
    requires Structure(sys) && LiveRows(sys.db, order)
    ensures Structure(sys.(db := CloseTogether(sys.db, order, now)))
  {
    var after := sys.(db := CloseTogether(sys.db, order, now));
    NoReturn.ClosingTogether(sys.db, order, now);
    Keys.DyingKeeps(sys, after);
    StructureFrame(sys, after);
  }

  lemma EnqueueKeepsStructure(sys: Sys, s: nat)
    requires Structure(sys)
    ensures Structure(sys.(db := EnqueueRemove(sys.db, s)))
  {
    var after := sys.(db := EnqueueRemove(sys.db, s));
    NoReturn.Enqueuing(sys.db, s);
    Keys.DyingKeeps(sys, after);
    StructureFrame(sys, after);
  }

  lemma FinishKeepsStructure(sys: Sys, s: nat, now: int)
    requires Structure(sys)
    ensures Structure(sys.(db := FinishClose(sys.db, s, now)))
  {
    var after := sys.(db := FinishClose(sys.db, s, now));
    NoReturn.Finishing(sys.db, s, now);
    Keys.DyingKeeps(sys, after);
    StructureFrame(sys, after);
  }

  lemma DeletingKeepsStructure(sys: Sys, d: nat)
    requires Structure(sys)
    ensures Structure(sys.(db := DeleteDevice(sys.db, d)))
  {
    var after := sys.(db := DeleteDevice(sys.db, d));
    NoReturn.Deleting(sys.db, d);
    Keys.RemovingKeeps(sys, d);
    forall s | s in after.db.sessions ensures exists a :: 0 <= a < |after.db.commands| && IsAddOf(after.db.commands[a], s) {
      var a :| 0 <= a < |sys.db.commands| && IsAddOf(sys.db.commands[a], s);
      assert IsAddOf(after.db.commands[a], s);
    }
  }

  lemma ConnectKeepsStructure(sys: Sys, u: nat, d: nat, version: nat, n: nat, plan: Plan)
    requires Structure(sys) && Connected(sys, u, d, version, n, plan) != sys
    ensures Structure(Connected(sys, u, d, version, n, plan))
  {
    var after := Connected(sys, u, d, version, n, plan);
    NoReturn.ConnectKeeps(sys, u, d, version, n, plan);
    Keys.ConnectKeeps(sys, u, d, version, n, plan);
    forall s | s in after.db.sessions ensures exists a :: 0 <= a < |after.db.commands| && IsAddOf(after.db.commands[a], s) {
      if s in sys.db.sessions {
        var a :| 0 <= a < |sys.db.commands| && IsAddOf(sys.db.commands[a], s);
        assert IsAddOf(after.db.commands[a], s);
      } else {
        assert IsAddOf(after.db.commands[|sys.db.commands|], s);
      }
    }
  }

  lemma SettlingKeepsStructure(sys: Sys, s: nat, ok: bool, now: int)
    requires Structure(sys)
    ensures Structure(sys.(db := SettleSession(sys.db, s, ok, now)))
  {
    var after := sys.(db := SettleSession(sys.db, s, ok, now));
    NoReturn.Settling(sys.db, s, ok, now);
    Keys.DyingKeeps(sys, after);
    StructureFrame(sys, after);
  }

  lemma WritingKeepsStructure(sys: Sys, i: nat, ok: bool)
    requires Structure(sys) && i < |sys.db.commands|
    ensures Structure(sys.(db := Complete(sys.db, i, ok)))
  {
    var after := sys.(db := Complete(sys.db, i, ok));
    NoReturn.Completing(sys.db, i, ok);
    Keys.DyingKeeps(sys, after);
    StructureFrame(sys, after);
  }

  // --------------------------------------------------------------- steps ----

  lemma DeviceStepKeeps(sys: Sys, step: DeviceStep)
    requires Structure(sys)
    ensures Structure(ApplyDevice(sys, step))
  {
    Keys.DeviceStepKeeps(sys, step);
    match step
    case RemoveDevice(d) => DeletingKeepsStructure(sys, d);
    case RevokeDevice(d, order, now) =>
      if d in sys.db.devices && Enumerates(order, LiveInScope(sys.db, OfDevice(d))) {
        TogetherKeepsStructure(sys, order, now);
        QuietKeepsStructure(sys.(db := CloseTogether(sys.db, order, now)), ApplyDevice(sys, step));
      }
    case _ => RowStepKeeps(sys, step);
  }

  lemma RowStepKeeps(sys: Sys, step: DeviceStep)
    requires Structure(sys) && !step.RevokeDevice? && !step.RemoveDevice? && Keys.Inv(ApplyDevice(sys, step))
    ensures Structure(ApplyDevice(sys, step))
  {
    assert SameTables(sys.db, ApplyDevice(sys, step).db);
    QuietKeepsStructure(sys, ApplyDevice(sys, step));
  }

  /** The same tables, whatever has become of processes and peers. */
  lemma SameDbKeeps(sys: Sys, after: Sys)
    requires Structure(sys) && after.db == sys.db && after.snapshots == sys.snapshots
    ensures Structure(after)
  {
    Keys.SameRowsKeep(sys, after);
    QuietKeepsStructure(sys, after);
  }

  lemma WaitingKeeps(sys: Sys, step: CloseStep)
    requires Structure(sys) && (step.CloserRead? || step.CloserCheck?)
    ensures Structure(ApplyClose(sys, step))
  {
    SameDbKeeps(sys, ApplyClose(sys, step));
  }

  lemma CloseStepKeeps(sys: Sys, step: CloseStep)
    requires Structure(sys)
    ensures Structure(ApplyClose(sys, step))
  {
    match step
    case CloseScope(scope, order, now) =>
      if Enumerates(order, LiveInScope(sys.db, scope)) { TogetherKeepsStructure(sys, order, now); }
    case CloserRead(_, _) => WaitingKeeps(sys, step);
    case CloserCheck(_) => WaitingKeeps(sys, step);
    case CloserEnqueue(p) => CloserEnqueueKeeps(sys, p);
    case CloserFinish(p, now) => CloserFinishKeeps(sys, p, now);
  }

  lemma CloserEnqueueKeeps(sys: Sys, p: nat)
    requires Structure(sys)
    ensures Structure(Enqueued(sys, p))
  {
    if p in sys.closers && sys.closers[p].Enqueuing? {
      var s := sys.closers[p].session;
      if s in sys.db.sessions {
        EnqueueKeepsStructure(sys, s);
        SameDbKeeps(sys.(db := EnqueueRemove(sys.db, s)), Enqueued(sys, p));
      } else {
        SameDbKeeps(sys, Enqueued(sys, p));
      }
    }
  }

  lemma CloserFinishKeeps(sys: Sys, p: nat, now: int)
    requires Structure(sys)
    ensures Structure(ApplyClose(sys, CloserFinish(p, now)))
  {
    if p in sys.closers && sys.closers[p].Finishing? {
      FinishKeepsStructure(sys, sys.closers[p].session, now);
      SameDbKeeps(sys.(db := FinishClose(sys.db, sys.closers[p].session, now)), ApplyClose(sys, CloserFinish(p, now)));
    }
  }

  lemma QueueStepKeeps(sys: Sys, step: QueueStep)
    requires Structure(sys)
    ensures Structure(ApplyQueue(sys, step))
  {
    var after := ApplyQueue(sys, step);
    match step
    case ClaimCancel(p, n) =>
      CancelKeepsStructure(sys, n);
      if p !in sys.claimers { SameDbKeeps(sys.(db := CancelDead(sys.db, n)), after); }
    case ClaimTake(p, now) =>
      if p in sys.claimers {
        TakeKeepsStructure(sys, sys.claimers[p], CLAIM_LIMIT, now);
        SameDbKeeps(sys.(db := TakeOldest(sys.db, sys.claimers[p], CLAIM_LIMIT, now)), after);
      }
    case Requeue(cutoff, maxAttempts) => RequeueKeepsStructure(sys, cutoff, maxAttempts);
    case PolicyChange(n) => SyncKeepsStructure(sys, n);
  }

  lemma AckStepKeeps(sys: Sys, step: AckStep)
    requires Structure(sys)
    ensures Structure(ApplyAck(sys, step))
  {
    var after := ApplyAck(sys, step);
    match step
    case Ack(_, _, _, _) => SameDbKeeps(sys, after);
    case AckWrite(p) =>
      if after != sys {
        var i, ok := sys.ackers[p].command, sys.ackers[p].ok;
        WritingKeepsStructure(sys, i, ok);
        SameDbKeeps(sys.(db := Complete(sys.db, i, ok)), after);
      }
    case AckUpdate(p, now) =>
      if after != sys {
        var a := sys.ackers[p];
        SettlingKeepsStructure(sys, a.session, a.ok, now);
        SameDbKeeps(sys.(db := SettleSession(sys.db, a.session, a.ok, now)), after);
      }
    case AckRelease(_) =>
      Keys.AckStepKeeps(sys, step);
      QuietKeepsStructure(sys, after);
  }

  lemma AgentStepKeeps(sys: Sys, step: AgentStep)
    requires Structure(sys)
    ensures Structure(ApplyAgent(sys, step))
  {
    AgentsChange(sys, step);
    SameDbKeeps(sys, ApplyAgent(sys, step));
  }

  lemma LeaseStepKeeps(sys: Sys, step: LeaseStep)
    requires Structure(sys)
    ensures Structure(ApplyLease(sys, step))
  {
    Keys.LeaseStepKeeps(sys, step);
    LeasesOnly(sys, step);
    QuietKeepsStructure(sys, ApplyLease(sys, step));
  }

  lemma LeasesOnly(sys: Sys, step: LeaseStep)
    ensures SameTables(sys.db, ApplyLease(sys, step).db)
  {
  }

  lemma StepKeeps(sys: Sys, step: Step)
    requires Structure(sys)
    ensures Structure(Apply(sys, step))
  {
    match step
    case Configure(_, _, _) =>
      Keys.StepKeeps(sys, step);
      QuietKeepsStructure(sys, Apply(sys, step));
    case Connect(u, d, version, n, plan) =>
      if Connected(sys, u, d, version, n, plan) != sys { ConnectKeepsStructure(sys, u, d, version, n, plan); }
    case OnDevice(device) => DeviceStepKeeps(sys, device);
    case OnClose(close) => CloseStepKeeps(sys, close);
    case OnQueue(queue) => QueueStepKeeps(sys, queue);
    case OnAck(ack) => AckStepKeeps(sys, ack);
    case OnLease(lease) => LeaseStepKeeps(sys, lease);
    case OnAgent(agent) => AgentStepKeeps(sys, agent);
  }

  lemma {:induction false} RunKeeps(sys: Sys, steps: seq<Step>)
    requires Structure(sys)
    ensures Structure(Run(sys, steps))
    decreases |steps|
  {
    if steps != [] {
      StepKeeps(sys, steps[0]);
      RunKeeps(Apply(sys, steps[0]), steps[1..]);
    }
  }

  lemma InstalledIsStructured(init: Sys)
    requires Installed(init)
    ensures Structure(init)
  {
    Keys.InstalledIsSound(init);
  }

  // ------------------------------------------------------------ subjects ----

  /** Nothing is lost from the queue, no command is about something else than before, and deliveries add up. */
  ghost predicate SameSubjects(db: Db, after: Db) {
    && |db.commands| <= |after.commands|
    && forall i :: 0 <= i < |db.commands| ==>
         && after.commands[i].kind == db.commands[i].kind && after.commands[i].node == db.commands[i].node
         && after.commands[i].key == db.commands[i].key && after.commands[i].ip == db.commands[i].ip
         && (after.commands[i].session == db.commands[i].session || after.commands[i].session.None?)
         && after.commands[i].attempts >= db.commands[i].attempts
  }

  /** A setup enters the queue with the session it is for. */
  ghost predicate NewAddsAreLive(db: Db, after: Db) {
    forall i :: |db.commands| <= i < |after.commands| && after.commands[i].kind.AddPeer? ==>
      after.commands[i].session.Some? && after.commands[i].session.value >= db.nextSession && IsLive(after, after.commands[i].session.value)
  }

  ghost predicate Continues(db: Db, after: Db) {
    SameSubjects(db, after) && NewAddsAreLive(db, after)
  }

  lemma ConnectContinues(sys: Sys, u: nat, d: nat, version: nat, n: nat, plan: Plan)
    ensures Continues(sys.db, Connected(sys, u, d, version, n, plan).db)
  {
  }

  lemma TogetherContinues(db: Db, order: seq<nat>, now: int)
    requires forall s :: s in order ==> s in db.sessions
    ensures Continues(db, CloseTogether(db, order, now))
  {
    var after := CloseTogether(db, order, now);
    forall i | |db.commands| <= i < |after.commands| ensures after.commands[i].kind.RemovePeer? {
      assert after.commands[i] == Removals(db.sessions, order)[i - |db.commands|];
    }
  }

  lemma DeviceStepContinues(sys: Sys, step: DeviceStep)
    ensures Continues(sys.db, ApplyDevice(sys, step).db)
  {
    match step
    case RevokeDevice(d, order, now) => RevokingContinues(sys, d, order, now);
    case RemoveDevice(d) => DeleteContinues(sys.db, d);
    case AddDevice(_, _, _) => RowsOnlyContinues(sys, step);
    case RotateKey(_, _) => RowsOnlyContinues(sys, step);
    case Reactivate(_) => RowsOnlyContinues(sys, step);
    case AdminRevoke(_) => RowsOnlyContinues(sys, step);
  }

  lemma RowsOnlyContinues(sys: Sys, step: DeviceStep)
    requires !step.RevokeDevice? && !step.RemoveDevice?
    ensures Continues(sys.db, ApplyDevice(sys, step).db)
  {
    NoReturn.RowsOnly(sys, step);
  }

  lemma RevokingContinues(sys: Sys, d: nat, order: seq<nat>, now: int)
    ensures Continues(sys.db, ApplyDevice(sys, RevokeDevice(d, order, now)).db)
  {
    if d in sys.db.devices && Enumerates(order, LiveInScope(sys.db, OfDevice(d))) { TogetherContinues(sys.db, order, now); }
  }

  lemma DeleteContinues(db: Db, d: nat)
    ensures Continues(db, DeleteDevice(db, d))
  {
  }

  lemma CloseStepContinues(sys: Sys, step: CloseStep)
    ensures Continues(sys.db, ApplyClose(sys, step).db)
  {
    match step
    case CloseScope(scope, order, now) =>
      if Enumerates(order, LiveInScope(sys.db, scope)) { TogetherContinues(sys.db, order, now); }
    case CloserRead(_, _) => RowlessCloseContinues(sys, step);
    case CloserCheck(_) => RowlessCloseContinues(sys, step);
    case CloserEnqueue(p) => LateEnqueueContinues(sys, p);
    case CloserFinish(_, _) => RowlessCloseContinues(sys, step);
  }

  lemma RowlessCloseContinues(sys: Sys, step: CloseStep)
    requires step.CloserFinish? || step.CloserRead? || step.CloserCheck?
    ensures Continues(sys.db, ApplyClose(sys, step).db)
  {
  }

  lemma LateEnqueueContinues(sys: Sys, p: nat)
    ensures Continues(sys.db, Enqueued(sys, p).db)
  {
    if p in sys.closers && sys.closers[p].Enqueuing? && sys.closers[p].session in sys.db.sessions {
      RemovalContinues(sys.db, sys.closers[p].session);
    }
  }

  lemma RemovalContinues(db: Db, s: nat)
    requires s in db.sessions
    ensures Continues(db, EnqueueRemove(db, s))
  {
    assert EnqueueRemove(db, s).commands[..|db.commands|] == db.commands;
    assert EnqueueRemove(db, s).commands[|db.commands|].kind.RemovePeer?;
  }

  lemma QueueStepContinues(sys: Sys, step: QueueStep)
    ensures Continues(sys.db, ApplyQueue(sys, step).db)
  {
  }

  lemma CompleteContinues(db: Db, i: nat, ok: bool)
    requires i < |db.commands|
    ensures Continues(db, Complete(db, i, ok))
  {
  }

  lemma WriteContinues(sys: Sys, p: nat)
    ensures Continues(sys.db, Completed(sys, p).db)
  {
    if Completed(sys, p) != sys { CompleteContinues(sys.db, sys.ackers[p].command, sys.ackers[p].ok); }
  }

  lemma LaterAckStepContinues(sys: Sys, step: AckStep)
    requires !step.AckWrite?
    ensures Continues(sys.db, ApplyAck(sys, step).db)
  {
    match step
    case Ack(_, _, _, _) =>
    case AckUpdate(_, _) =>
    case AckRelease(_) =>
  }

  lemma AckStepContinues(sys: Sys, step: AckStep)
    ensures Continues(sys.db, ApplyAck(sys, step).db)
  {
    if step.AckWrite? { WriteContinues(sys, step.p); } else { LaterAckStepContinues(sys, step); }
  }

  lemma StepContinues(sys: Sys, step: Step)
    ensures Continues(sys.db, Apply(sys, step).db)
  {
    match step
    case Configure(_, _, _) =>
    case Connect(u, d, version, n, plan) => ConnectContinues(sys, u, d, version, n, plan);
    case OnDevice(device) => DeviceStepContinues(sys, device);
    case OnClose(close) => CloseStepContinues(sys, close);
    case OnQueue(queue) => QueueStepContinues(sys, queue);
    case OnAck(ack) => AckStepContinues(sys, ack);
    case OnLease(lease) => LeaseStepContinues(sys, lease);
    case OnAgent(agent) => AgentStepContinues(sys, agent);
  }

  lemma LeaseStepContinues(sys: Sys, step: LeaseStep)
    ensures Continues(sys.db, ApplyLease(sys, step).db)
  {
  }

  lemma AgentStepContinues(sys: Sys, step: AgentStep)
    ensures Continues(sys.db, ApplyAgent(sys, step).db)
  {
    AgentsChange(sys, step);
  }

  lemma {:induction false} RunContinues(sys: Sys, steps: seq<Step>)
    ensures SameSubjects(sys.db, Run(sys, steps).db)
    decreases |steps|
  {
    if steps != [] {
      StepContinues(sys, steps[0]);
      RunContinues(Apply(sys, steps[0]), steps[1..]);
    }
  }

  /** What a session's row says about node, key and address is written once. */
  lemma SessionStays(sys: Sys, step: Step, s: nat)
    requires Structure(sys) && s in sys.db.sessions && s in Apply(sys, step).db.sessions
    ensures SameSession(sys.db, Apply(sys, step).db, s)
  {
    var after := Apply(sys, step);
    StepKeeps(sys, step);
    StepContinues(sys, step);
    var a :| 0 <= a < |after.db.commands| && IsAddOf(after.db.commands[a], s);
    assert a < |sys.db.commands| && sys.db.commands[a].session == Some(s);
  }

  /** While a session lives, no other setup with its key enters the queue. */
  lemma NobodyTakesTheKey(sys: Sys, step: Step, s: nat, a: nat)
    requires Structure(sys) && IsLive(sys.db, s) && IsLive(Apply(sys, step).db, s)
    requires |sys.db.commands| <= a < |Apply(sys, step).db.commands| && Apply(sys, step).db.commands[a].kind.AddPeer?
    ensures Apply(sys, step).db.commands[a].key != sys.db.sessions[s].key
  {
    var after := Apply(sys, step);
    StepKeeps(sys, step);
    StepContinues(sys, step);
    SessionStays(sys, step, s);
    var x := after.db.commands[a].session.value;
    if after.db.sessions[x].key == after.db.sessions[s].key { Keys.SameKeySameSession(after, x, s); }
  }
}
