/**
 * Why live sessions keep their leases. Leases says over all runs which steps take one away; here are the
 * runs in which those steps do so only after a removal of the session has been acknowledged: all
 * acknowledgements of one command agree, and a reclaim frees what nobody else holds by then.
 */
module Exclusive {
  import opened Rows
  import opened Plane
  import opened Protocol
  import opened Leases
  import NoReturn

  /** The node has acknowledged a removal of the session's peer: at some moment the peer was gone. */
  ghost predicate Confirmed(sys: Sys, s: nat) {
    exists i :: 0 <= i < |sys.db.commands| && IsRemoveOf(sys.db.commands[i], s) && i in sys.verdicts && sys.verdicts[i]
  }

  ghost predicate RemovalIssued(db: Db, s: nat) {
    exists i :: 0 <= i < |db.commands| && IsRemoveOf(db.commands[i], s)
  }

  ghost predicate LiveAreCovered(sys: Sys) {
    forall s :: s in sys.db.sessions && Live(sys.db.sessions[s]) ==> Holds(sys.db, s) || Confirmed(sys, s)
  }

  ghost predicate OneAddEach(db: Db) {
    forall i, j :: 0 <= i < j < |db.commands| && db.commands[i].kind.AddPeer? && db.commands[j].kind.AddPeer? ==>
      db.commands[i].session.None? || db.commands[i].session != db.commands[j].session
  }

  /** An ACTIVE session's setup command was acknowledged with success. */
  ghost predicate ActiveWasAdded(sys: Sys) {
    forall i :: 0 <= i < |sys.db.commands| && sys.db.commands[i].kind.AddPeer? && sys.db.commands[i].session.Some? ==>
      var s := sys.db.commands[i].session.value;
      s in sys.db.sessions && sys.db.sessions[s].status.Active? ==> i in sys.verdicts && sys.verdicts[i]
  }

  predicate AckerSound(sys: Sys, a: Acker) {
    && a.command < |sys.db.commands|
    && a.command in sys.verdicts && sys.verdicts[a.command] == a.ok
    && match a
       case Completing(_, _) => true
       case Updating(c, s, ok) => IsAbout(sys.db, c, s) && sys.db.commands[c].kind.AddPeer?
       case Releasing(c, s, ok) =>
         && IsAbout(sys.db, c, s)
         && if ok then sys.db.commands[c].kind.RemovePeer?
            else s in sys.db.sessions ==> !Live(sys.db.sessions[s])
  }

  ghost predicate AckersSound(sys: Sys) {
    forall p :: p in sys.ackers ==> AckerSound(sys, sys.ackers[p])
  }

  /** A live session whose removal is queued belongs to a closeSession about to close its row. */
  ghost predicate RemovalsAreClosing(sys: Sys) {
    forall i :: 0 <= i < |sys.db.commands| && sys.db.commands[i].kind.RemovePeer? && sys.db.commands[i].session.Some? ==>
      var s := sys.db.commands[i].session.value;
      s in sys.db.sessions && Live(sys.db.sessions[s]) ==> BeingClosed(sys, s)
  }

  ghost predicate BeingClosed(sys: Sys, s: nat) {
    exists p :: p in sys.closers && sys.closers[p] == Finishing(s)
  }

  ghost predicate Inv(sys: Sys) {
    && NoReturn.Sound(sys.db)
    && LeasesMatch(sys.db)
    && LiveAreCovered(sys)
    && OneAddEach(sys.db)
    && ActiveWasAdded(sys)
    && AckersSound(sys)
    && RemovalsAreClosing(sys)
  }

  /** All acknowledgements of one command agree. */
  predicate Consistent(sys: Sys, step: Step) {
    match step
    case OnAck(Ack(_, _, i, ok)) => i in sys.verdicts ==> sys.verdicts[i] == ok
    case OnAgent(ExecuteAndAck(_, _, i, ok)) => i in sys.verdicts ==> sys.verdicts[i] == ok
    case _ => true
  }

  /** What the monitor selected is still held by nobody who needs it when the rows are freed. */
  ghost predicate StillStale(sys: Sys, selected: set<Lease>) {
    forall l :: l in selected && l in sys.db.leases && sys.db.leases[l].Some? ==>
      var s := sys.db.leases[l].value;
      s in sys.db.sessions && Live(sys.db.sessions[s]) ==> Confirmed(sys, s)
  }

  ghost predicate Rechecked(sys: Sys, step: Step) {
    match step
    case OnLease(ReclaimFree(p)) => p in sys.selections ==> StillStale(sys, sys.selections[p])
    case _ => true
  }

  // ------------------------------------------------------------- steps ------

  /** Confirmation and a close in progress are kept by everything that keeps their witnesses. */
  lemma Framed(sys: Sys, after: Sys)
    requires |sys.db.commands| <= |after.db.commands|
    requires forall i :: 0 <= i < |sys.db.commands| ==>
      after.db.commands[i].kind == sys.db.commands[i].kind && after.db.commands[i].session == sys.db.commands[i].session
    requires forall i :: i in sys.verdicts ==> i in after.verdicts && after.verdicts[i] == sys.verdicts[i]
    ensures forall s :: Confirmed(sys, s) ==> Confirmed(after, s)
  {
    forall s | Confirmed(sys, s) ensures Confirmed(after, s) {
      var i :| 0 <= i < |sys.db.commands| && IsRemoveOf(sys.db.commands[i], s) && i in sys.verdicts && sys.verdicts[i];
      assert IsRemoveOf(after.db.commands[i], s);
    }
  }

  lemma ConnectCovers(sys: Sys, u: nat, d: nat, version: nat, n: nat, plan: Plan)
    requires Inv(sys) && Connected(sys, u, d, version, n, plan) != sys
    ensures LeasesMatch(Connected(sys, u, d, version, n, plan).db)
    ensures LiveAreCovered(Connected(sys, u, d, version, n, plan))
  {
    Framed(sys, Connected(sys, u, d, version, n, plan));
  }

  lemma ConnectQueues(sys: Sys, u: nat, d: nat, version: nat, n: nat, plan: Plan)
    requires Inv(sys) && Connected(sys, u, d, version, n, plan) != sys
    ensures
      var after := Connected(sys, u, d, version, n, plan);
      OneAddEach(after.db) && ActiveWasAdded(after)
  {
  }

  lemma ConnectKeepsHandlers(sys: Sys, u: nat, d: nat, version: nat, n: nat, plan: Plan)
    requires Inv(sys) && Connected(sys, u, d, version, n, plan) != sys
    ensures
      var after := Connected(sys, u, d, version, n, plan);
      AckersSound(after) && RemovalsAreClosing(after)
  {
    var after := Connected(sys, u, d, version, n, plan);
    assert forall s :: BeingClosed(sys, s) ==> BeingClosed(after, s);
  }

  lemma ConnectKeeps(sys: Sys, u: nat, d: nat, version: nat, n: nat, plan: Plan)
    requires Inv(sys)
    ensures Inv(Connected(sys, u, d, version, n, plan))
  {
    if Connected(sys, u, d, version, n, plan) != sys {
      NoReturn.ConnectKeeps(sys, u, d, version, n, plan);
      ConnectCovers(sys, u, d, version, n, plan);
      ConnectQueues(sys, u, d, version, n, plan);
      ConnectKeepsHandlers(sys, u, d, version, n, plan);
    }
  }

  lemma ScopeCovers(sys: Sys, order: seq<nat>, now: int)
    requires Inv(sys)
    requires forall s :: s in order ==> s in sys.db.sessions && Live(sys.db.sessions[s])
    ensures
      var after := sys.(db := CloseTogether(sys.db, order, now));
      && LeasesMatch(after.db) && LiveAreCovered(after)
      && (forall s :: s in after.db.sessions && Live(after.db.sessions[s]) ==> s in sys.db.sessions && after.db.sessions[s] == sys.db.sessions[s])
  {
    Framed(sys, sys.(db := CloseTogether(sys.db, order, now)));
  }

  lemma ScopeKeeps(sys: Sys, order: seq<nat>, now: int)
    requires Inv(sys)
    requires forall s :: s in order ==> s in sys.db.sessions && Live(sys.db.sessions[s])
    ensures Inv(sys.(db := CloseTogether(sys.db, order, now)))
  {
    var after := sys.(db := CloseTogether(sys.db, order, now));
    NoReturn.ClosingTogether(sys.db, order, now);
    ScopeCovers(sys, order, now);
    ScopeQueues(sys, order, now);
  }

  lemma ScopeQueues(sys: Sys, order: seq<nat>, now: int)
    requires Inv(sys)
    requires forall s :: s in order ==> s in sys.db.sessions && Live(sys.db.sessions[s])
    ensures
      var after := sys.(db := CloseTogether(sys.db, order, now));
      OneAddEach(after.db) && ActiveWasAdded(after) && RemovalsAreClosing(after)
  {
    var after := sys.(db := CloseTogether(sys.db, order, now));
    assert forall s :: BeingClosed(sys, s) ==> BeingClosed(after, s);
    assert forall i :: |sys.db.commands| <= i < |after.db.commands| ==>
      after.db.commands[i] == RemoveCommand(order[i - |sys.db.commands|], sys.db.sessions[order[i - |sys.db.commands|]]);
  }

  /** Steps that change neither sessions, leases nor what commands are about keep everything. */
  lemma QuietKeeps(sys: Sys, after: Sys)
    requires Inv(sys)
    requires after.db.sessions == sys.db.sessions && after.db.leases == sys.db.leases
    requires after.db.nextSession == sys.db.nextSession && |after.db.commands| == |sys.db.commands|
    requires forall i :: 0 <= i < |sys.db.commands| ==>
      after.db.commands[i].kind == sys.db.commands[i].kind && after.db.commands[i].session == sys.db.commands[i].session
    requires after.closers == sys.closers && after.ackers == sys.ackers
    requires forall i :: i in sys.verdicts ==> i in after.verdicts && after.verdicts[i] == sys.verdicts[i]
    ensures Inv(after)
  {
    Framed(sys, after);
    assert forall s :: BeingClosed(sys, s) ==> BeingClosed(after, s);
  }

  lemma RemovingKeeps(sys: Sys, d: nat)
    requires Inv(sys)
    ensures Inv(sys.(db := DeleteDevice(sys.db, d)))
  {
    var after := sys.(db := DeleteDevice(sys.db, d));
    NoReturn.Deleting(sys.db, d);
    RemovingCovers(sys, d);
    assert forall s :: BeingClosed(sys, s) ==> BeingClosed(after, s);
  }

  lemma RemovingCovers(sys: Sys, d: nat)
    requires Inv(sys)
    ensures LiveAreCovered(sys.(db := DeleteDevice(sys.db, d)))
  {
    var after := sys.(db := DeleteDevice(sys.db, d));
    forall s | s in after.db.sessions && Live(after.db.sessions[s]) ensures Holds(after.db, s) || Confirmed(after, s) {
      if Confirmed(sys, s) {
        var i :| 0 <= i < |sys.db.commands| && IsRemoveOf(sys.db.commands[i], s) && i in sys.verdicts && sys.verdicts[i];
        assert IsRemoveOf(after.db.commands[i], s);
      }
    }
  }

  lemma DeviceRowsAreIrrelevant(sys: Sys)
    requires Inv(sys)
    ensures forall d, device :: Inv(WithDevice(sys, d, device))
  {
    forall d, device ensures Inv(WithDevice(sys, d, device)) {
      QuietKeeps(sys, WithDevice(sys, d, device));
    }
  }

  lemma DeviceStepKeeps(sys: Sys, step: DeviceStep)
    requires Inv(sys)
    ensures Inv(ApplyDevice(sys, step))
  {
    match step
    case RevokeDevice(d, order, now) => RevokingKeeps(sys, d, order, now);
    case RemoveDevice(d) => RemovingKeeps(sys, d);
    case AddDevice(_, _, _) => RowStepKeeps(sys, step);
    case RotateKey(_, _) => RowStepKeeps(sys, step);
    case Reactivate(_) => RowStepKeeps(sys, step);
    case AdminRevoke(_) => RowStepKeeps(sys, step);
  }

  lemma RowStepKeeps(sys: Sys, step: DeviceStep)
    requires Inv(sys) && !step.RevokeDevice? && !step.RemoveDevice?
    ensures Inv(ApplyDevice(sys, step))
  {
    DeviceRowsAreIrrelevant(sys);
    RowChanges(sys, step);
  }

  lemma RevokingKeeps(sys: Sys, d: nat, order: seq<nat>, now: int)
    requires Inv(sys)
    ensures Inv(ApplyDevice(sys, RevokeDevice(d, order, now)))
  {
    if d in sys.db.devices && Enumerates(order, LiveInScope(sys.db, OfDevice(d))) {
      ScopeKeeps(sys, order, now);
      DeviceRowsAreIrrelevant(sys.(db := CloseTogether(sys.db, order, now)));
    }
  }

  lemma WaitingKeeps(sys: Sys, after: Sys)
    requires Inv(sys) && after == sys.(closers := after.closers)
    requires forall p :: p in sys.closers && sys.closers[p].Finishing? ==> p in after.closers && after.closers[p] == sys.closers[p]
    ensures Inv(after)
  {
    Framed(sys, after);
    forall s | BeingClosed(sys, s) ensures BeingClosed(after, s) {
      var p :| p in sys.closers && sys.closers[p] == Finishing(s);
      assert after.closers[p] == Finishing(s);
    }
  }

  lemma EnqueueKeeps(sys: Sys, s: nat)
    requires Inv(sys) && BeingClosed(sys, s)
    ensures Inv(sys.(db := EnqueueRemove(sys.db, s)))
  {
    var after := sys.(db := EnqueueRemove(sys.db, s));
    NoReturn.Enqueuing(sys.db, s);
    Framed(sys, after);
    assert forall s :: BeingClosed(sys, s) ==> BeingClosed(after, s);
  }

  lemma FinishKeeps(sys: Sys, s: nat, now: int)
    requires Inv(sys)
    ensures Inv(sys.(db := FinishClose(sys.db, s, now)))
  {
    var after := sys.(db := FinishClose(sys.db, s, now));
    NoReturn.Finishing(sys.db, s, now);
    Framed(sys, after);
    assert forall s :: BeingClosed(sys, s) ==> BeingClosed(after, s);
  }

  /** A process that has closed its row may stop: nobody depends on it any more. */
  lemma FinishedKeeps(sys: Sys, p: nat)
    requires Inv(sys) && p in sys.closers
    requires sys.closers[p].session in sys.db.sessions ==> !Live(sys.db.sessions[sys.closers[p].session])
    ensures Inv(sys.(closers := sys.closers - {p}))
  {
    var after := sys.(closers := sys.closers - {p});
    Framed(sys, after);
    forall s | BeingClosed(sys, s) && s != sys.closers[p].session ensures BeingClosed(after, s) {
      var q :| q in sys.closers && sys.closers[q] == Finishing(s);
      assert after.closers[q] == Finishing(s);
    }
  }

  lemma EnqueuingKeeps(sys: Sys, p: nat)
    requires Inv(sys)
    ensures Inv(Enqueued(sys, p))
  {
    if p in sys.closers && sys.closers[p].Enqueuing? {
      var s := sys.closers[p].session;
      if s in sys.db.sessions {
        var ready := sys.(closers := sys.closers[p := Finishing(s)]);
        WaitingKeeps(sys, ready);
        assert ready.closers[p] == Finishing(s);
        EnqueueKeeps(ready, s);
      } else {
        FinishedKeeps(sys, p);
      }
    }
  }

  lemma CloseStepKeeps(sys: Sys, step: CloseStep)
    requires Inv(sys)
    ensures Inv(ApplyClose(sys, step))
  {
    match step
    case CloseScope(scope, order, now) =>
      if Enumerates(order, LiveInScope(sys.db, scope)) { ScopeKeeps(sys, order, now); }
    case CloserRead(p, s) => WaitingKeeps(sys, ApplyClose(sys, step));
    case CloserCheck(p) => WaitingKeeps(sys, ApplyClose(sys, step));
    case CloserEnqueue(p) => EnqueuingKeeps(sys, p);
    case CloserFinish(p, now) =>
      if p in sys.closers && sys.closers[p].Finishing? {
        FinishKeeps(sys, sys.closers[p].session, now);
        FinishedKeeps(sys.(db := FinishClose(sys.db, sys.closers[p].session, now)), p);
      }
  }

  lemma SyncKeeps(sys: Sys, n: nat)
    requires Inv(sys)
    ensures Inv(sys.(db := EnqueueSync(sys.db, n)))
  {
    var after := sys.(db := EnqueueSync(sys.db, n));
    NoReturn.Syncing(sys.db, n);
    Framed(sys, after);
    assert forall s :: BeingClosed(sys, s) ==> BeingClosed(after, s);
  }

  lemma TakingKeeps(sys: Sys, p: nat, now: int)
    requires Inv(sys) && p in sys.claimers
    ensures Inv(ApplyQueue(sys, ClaimTake(p, now)))
  {
    QuietKeeps(sys, ApplyQueue(sys, ClaimTake(p, now)));
  }

  lemma QueueStepKeeps(sys: Sys, step: QueueStep)
    requires Inv(sys)
    ensures Inv(ApplyQueue(sys, step))
  {
    match step
    case PolicyChange(n) => SyncKeeps(sys, n);
    case Requeue(_, _) => QuietKeeps(sys, ApplyQueue(sys, step));
    case ClaimCancel(p, n) => QuietKeeps(sys, ApplyQueue(sys, step));
    case ClaimTake(p, now) =>
      if p in sys.claimers { TakingKeeps(sys, p, now); }
  }

  lemma AckersChangeKeeps(sys: Sys, after: Sys)
    requires Inv(sys) && after == sys.(ackers := after.ackers)
    requires forall p :: p in after.ackers ==> (p in sys.ackers && after.ackers[p] == sys.ackers[p]) || AckerSound(sys, after.ackers[p])
    ensures Inv(after)
  {
    Framed(sys, after);
    assert forall s :: BeingClosed(sys, s) ==> BeingClosed(after, s);
    assert forall a :: AckerSound(sys, a) ==> AckerSound(after, a);
  }

  lemma SettlingKeeps(sys: Sys, a: Acker, now: int)
    requires Inv(sys) && AckerSound(sys, a) && a.Updating?
    ensures Inv(sys.(db := SettleSession(sys.db, a.session, a.ok, now)))
  {
    var after := sys.(db := SettleSession(sys.db, a.session, a.ok, now));
    NoReturn.Settling(sys.db, a.session, a.ok, now);
    SettlingCovers(sys, a, now);
    assert forall s :: BeingClosed(sys, s) ==> BeingClosed(after, s);
    assert forall b :: AckerSound(sys, b) ==> AckerSound(after, b);
  }

  lemma SettlingCovers(sys: Sys, a: Acker, now: int)
    requires Inv(sys) && AckerSound(sys, a) && a.Updating?
    ensures
      var after := sys.(db := SettleSession(sys.db, a.session, a.ok, now));
      && after.db.commands == sys.db.commands && after.db.leases == sys.db.leases
      && LeasesMatch(after.db) && LiveAreCovered(after)
  {
    Framed(sys, sys.(db := SettleSession(sys.db, a.session, a.ok, now)));
  }

  /** The lease of a session is released only when the session has ended or its peer is gone. */
  lemma ReleasingKeeps(sys: Sys, a: Acker)
    requires Inv(sys) && AckerSound(sys, a) && a.Releasing?
    ensures Inv(sys.(db := ReleaseLease(sys.db, a.session)))
  {
    var after := sys.(db := ReleaseLease(sys.db, a.session));
    Framed(sys, after);
    assert forall s :: BeingClosed(sys, s) ==> BeingClosed(after, s);
    if a.ok && a.session in sys.db.sessions {
      assert IsRemoveOf(sys.db.commands[a.command], a.session);
      assert Confirmed(sys, a.session);
    }
  }

  lemma AcknowledgedKeeps(sys: Sys, p: nat, n: nat, i: nat, ok: bool)
    requires Inv(sys) && (i in sys.verdicts ==> sys.verdicts[i] == ok)
    ensures Inv(Acknowledged(sys, p, n, i, ok))
  {
    var after := Acknowledged(sys, p, n, i, ok);
    if after != sys {
      var read := sys.(verdicts := after.verdicts);
      QuietKeeps(sys, read);
      AckersChangeKeeps(read, after);
    }
  }

  lemma CompletedKeeps(sys: Sys, p: nat)
    requires Inv(sys)
    ensures Inv(Completed(sys, p))
  {
    var after := Completed(sys, p);
    if p in sys.ackers && sys.ackers[p].Completing? {
      var written := sys.(db := after.db);
      QuietKeeps(sys, written);
      AckersChangeKeeps(written, after);
    }
  }

  lemma UpdatingKeeps(sys: Sys, p: nat, now: int)
    requires Inv(sys) && p in sys.ackers && sys.ackers[p].Updating?
    ensures Inv(ApplyAck(sys, AckUpdate(p, now)))
  {
    var a := sys.ackers[p];
    var settled := sys.(db := SettleSession(sys.db, a.session, a.ok, now));
    SettlingKeeps(sys, a, now);
    assert !a.ok ==> a.session in settled.db.sessions ==> !Live(settled.db.sessions[a.session]);
    AckersChangeKeeps(settled, ApplyAck(sys, AckUpdate(p, now)));
  }

  lemma AckStepKeeps(sys: Sys, step: AckStep)
    requires Inv(sys) && Consistent(sys, OnAck(step))
    ensures Inv(ApplyAck(sys, step))
  {
    match step
    case Ack(p, n, i, ok) => AcknowledgedKeeps(sys, p, n, i, ok);
    case AckWrite(p) => CompletedKeeps(sys, p);
    case AckUpdate(p, now) =>
      if p in sys.ackers && sys.ackers[p].Updating? { UpdatingKeeps(sys, p, now); }
    case AckRelease(p) =>
      if p in sys.ackers && sys.ackers[p].Releasing? {
        ReleasingKeeps(sys, sys.ackers[p]);
        AckersChangeKeeps(sys.(db := ReleaseLease(sys.db, sys.ackers[p].session)), ApplyAck(sys, step));
      }
  }

  /**
   * Freeing the selected leases keeps every live session covered exactly when the selection is
   * still stale at that moment. The monitor does not check this: it frees the rows by id.
   */
  lemma FreeingKeepsIff(sys: Sys, selected: set<Lease>)
    requires Inv(sys)
    ensures Inv(sys.(db := FreeLeases(sys.db, selected))) <==> StillStale(sys, selected)
  {
    var after := sys.(db := FreeLeases(sys.db, selected));
    Framed(sys, after);
    Framed(after, sys);
    assert forall s :: BeingClosed(sys, s) ==> BeingClosed(after, s);
    NoReturn.Untouched(sys.db, after.db);
    if !StillStale(sys, selected) {
      var l :| l in selected && l in sys.db.leases && sys.db.leases[l].Some?
        && sys.db.leases[l].value in sys.db.sessions && Live(sys.db.sessions[sys.db.leases[l].value])
        && !Confirmed(sys, sys.db.leases[l].value);
      assert !Holds(after.db, sys.db.leases[l].value);
    }
  }

  lemma PoolKeeps(sys: Sys, n: nat, ips: set<nat>)
    requires Inv(sys)
    ensures Inv(sys.(db := EnsurePool(sys.db, n, ips)))
  {
    var after := sys.(db := EnsurePool(sys.db, n, ips));
    assert forall l :: l in sys.db.leases ==> l in after.db.leases && after.db.leases[l] == sys.db.leases[l];
    assert forall l :: l in after.db.leases && after.db.leases[l].Some? ==> l in sys.db.leases;
    Framed(sys, after);
    assert forall s :: BeingClosed(sys, s) ==> BeingClosed(after, s);
  }

  lemma LeaseStepKeeps(sys: Sys, step: LeaseStep)
    requires Inv(sys) && Rechecked(sys, OnLease(step))
    ensures Inv(ApplyLease(sys, step))
  {
    match step
    case CreatePool(n, ips) => PoolKeeps(sys, n, ips);
    case ReclaimSelect(p, cutoff) => QuietKeeps(sys, ApplyLease(sys, step));
    case ReclaimFree(p) =>
      if p in sys.selections {
        var selected := sys.selections[p];
        FreeingKeepsIff(sys, selected);
        QuietKeeps(sys.(db := FreeLeases(sys.db, selected)), ApplyLease(sys, step));
      }
  }

  lemma AgentStepKeeps(sys: Sys, step: AgentStep)
    requires Inv(sys) && Consistent(sys, OnAgent(step))
    ensures Inv(ApplyAgent(sys, step))
  {
    match step
    case Execute(n, i, ok) => ExecutedKeeps(sys, n, i, ok);
    case ExecuteAndAck(p, n, i, ok) =>
      ExecutedKeeps(sys, n, i, ok);
      AcknowledgedKeeps(Executed(sys, n, i, ok), p, n, i, ok);
    case _ =>
      ReportsTouchPeersOnly(sys, step);
      QuietKeeps(sys, ApplyAgent(sys, step));
  }

  lemma ReportsTouchPeersOnly(sys: Sys, step: AgentStep)
    requires step.Report? || step.ReportApply?
    ensures
      var after := ApplyAgent(sys, step);
      after == sys.(peers := after.peers, replies := after.replies)
  {
  }

  lemma ExecutedKeeps(sys: Sys, n: nat, i: nat, ok: bool)
    requires Inv(sys)
    ensures Inv(Executed(sys, n, i, ok)) && Executed(sys, n, i, ok).verdicts == sys.verdicts
  {
    QuietKeeps(sys, Executed(sys, n, i, ok));
  }

  lemma StepKeeps(sys: Sys, step: Step)
    requires Inv(sys) && Consistent(sys, step) && Rechecked(sys, step)
    ensures Inv(Apply(sys, step))
  {
    match step
    case Configure(maintenance, users, nodes) => QuietKeeps(sys, Apply(sys, step));
    case Connect(u, d, version, n, plan) => ConnectKeeps(sys, u, d, version, n, plan);
    case OnDevice(device) => DeviceStepKeeps(sys, device);
    case OnClose(close) => CloseStepKeeps(sys, close);
    case OnQueue(queue) => QueueStepKeeps(sys, queue);
    case OnAck(ack) => AckStepKeeps(sys, ack);
    case OnLease(lease) => LeaseStepKeeps(sys, lease);
    case OnAgent(agent) => AgentStepKeeps(sys, agent);
  }

  // -------------------------------------------------------------- runs ------

  ghost predicate Cares(sys: Sys, step: Step) {
    Consistent(sys, step) && Rechecked(sys, step)
  }

  /** Runs whose acknowledgements agree and whose lease reclaims act on a selection that is still stale. */
  ghost predicate Careful(sys: Sys, steps: seq<Step>)
    decreases |steps|
  {
    steps != [] ==>
      Cares(sys, steps[0]) && Careful(Apply(sys, steps[0]), steps[1..])
  }

  lemma {:induction false} TraceIsCareful(states: seq<Sys>, steps: seq<Step>)
    requires Traces(states, steps)
    requires forall k :: 0 <= k < |steps| ==> Cares(states[k], steps[k])
    ensures Careful(states[0], steps)
    decreases |steps|
  {
    if steps != [] {
      forall k | 0 <= k < |steps[1..]|
        ensures Apply(states[1..][k], steps[1..][k]) == states[1..][k + 1]
          && Cares(states[1..][k], steps[1..][k])
      {
        assert Apply(states[k + 1], steps[k + 1]) == states[k + 2] && Cares(states[k + 1], steps[k + 1]);
      }
      TraceIsCareful(states[1..], steps[1..]);
    }
  }

  lemma {:induction false} RunKeeps(sys: Sys, steps: seq<Step>)
    requires Inv(sys) && Careful(sys, steps)
    ensures Inv(Run(sys, steps))
    decreases |steps|
  {
    if steps != [] {
      StepKeeps(sys, steps[0]);
      RunKeeps(Apply(sys, steps[0]), steps[1..]);
    }
  }

  /**
   * In every state a careful run reaches - its acknowledgements agree and its reclaims are harmless - a
   * live session with no removal queued holds exactly the lease of its address, and any other live session
   * does too unless a removal of it has been acknowledged; so two live sessions of a node can share an
   * address only while a removal of one of them has been acknowledged and its row is not closed yet.
   * Races.ConfirmedPeerReturns is such a run.
   */
  lemma AddressesAreExclusive(init: Sys, steps: seq<Step>, sys: Sys, s: nat, t: nat)
    requires Installed(init) && Careful(init, steps) && sys == Run(init, steps)
    requires s in sys.db.sessions && Live(sys.db.sessions[s]) && t in sys.db.sessions && Live(sys.db.sessions[t])
    ensures Holds(sys.db, s) || Confirmed(sys, s)
    ensures !RemovalIssued(sys.db, s) ==> Holds(sys.db, s)
    ensures forall l :: l in sys.db.leases && sys.db.leases[l] == Some(s) ==> l == (sys.db.sessions[s].node, sys.db.sessions[s].ip)
    ensures
      var a, b := sys.db.sessions[s], sys.db.sessions[t];
      s != t && a.node == b.node && a.ip == b.ip ==> Confirmed(sys, s) || Confirmed(sys, t)
  {
    RunKeeps(init, steps);
  }

  /** In a careful run two live sessions of a node have different addresses unless a close of one of them has queued its removal and not closed the row. */
  lemma AddressesAreDistinct(init: Sys, steps: seq<Step>, sys: Sys, s: nat, t: nat)
    requires Installed(init) && Careful(init, steps) && sys == Run(init, steps)
    requires !BeingClosed(sys, s) && !BeingClosed(sys, t)
    requires s in sys.db.sessions && Live(sys.db.sessions[s]) && t in sys.db.sessions && Live(sys.db.sessions[t])
    ensures Holds(sys.db, s)
    ensures
      var a, b := sys.db.sessions[s], sys.db.sessions[t];
      s != t && a.node == b.node ==> a.ip != b.ip
  {
    RunKeeps(init, steps);
  }

  /** In a careful run a late or repeated acknowledgement harms no live session but one whose removal has been acknowledged. */
  lemma LateAcksHarmNobody(init: Sys, steps: seq<Step>, p: nat, l: Lease)
    requires Installed(init) && Careful(init, steps)
    requires l in Run(init, steps).db.leases
    requires ApplyAck(Run(init, steps), AckRelease(p)).db.leases[l] != Run(init, steps).db.leases[l]
    ensures p in Run(init, steps).ackers
    ensures Run(init, steps).db.leases[l] == Some(Run(init, steps).ackers[p].session)
    ensures
      var sys := Run(init, steps);
      var s := sys.ackers[p].session;
      s in sys.db.sessions && Live(sys.db.sessions[s]) ==> Confirmed(sys, s)
  {
    var sys := Run(init, steps);
    RunKeeps(init, steps);
    var a := sys.ackers[p];
    if a.ok && a.session in sys.db.sessions {
      assert IsRemoveOf(sys.db.commands[a.command], a.session);
    }
  }
}
