/**
 * Who holds the lease of a live session's address, over every run: no premise about acknowledgements,
 * reclaims or loss. Two statements free a lease without looking whether its session is still live, and
 * they alone can take it away.
 */
module Leases {
  import opened Rows
  import opened Plane
  import opened Protocol
  import NoReturn

  function AddressOf(db: Db, s: nat): Lease
    requires s in db.sessions
  {
    (db.sessions[s].node, db.sessions[s].ip)
  }

  predicate Holds(db: Db, s: nat)
    requires s in db.sessions
  {
    AddressOf(db, s) in db.leases && db.leases[AddressOf(db, s)] == Some(s)
  }

  /** A lease names the session row that was given exactly this address. */
  ghost predicate LeasesMatch(db: Db) {
    forall l :: l in db.leases && db.leases[l].Some? ==>
      db.leases[l].value in db.sessions && AddressOf(db, db.leases[l].value) == l
  }

  /**
   * The step frees the lease of session `s` although `s` is live: an acknowledgement releases it, or the
   * monitor frees it among the rows it selected before. Neither statement looks at the session.
   */
  predicate Robs(sys: Sys, step: Step, s: nat) {
    && IsLive(sys.db, s) && Holds(sys.db, s)
    && match step
       case OnAck(AckRelease(p)) => p in sys.ackers && sys.ackers[p].Releasing? && sys.ackers[p].session == s
       case OnLease(ReclaimFree(p)) => p in sys.selections && AddressOf(sys.db, s) in sys.selections[p]
       case _ => false
  }

  ghost predicate Robbed(sys: Sys, steps: seq<Step>, s: nat)
    decreases |steps|
  {
    steps != [] && (Robs(sys, steps[0], s) || Robbed(Apply(sys, steps[0]), steps[1..], s))
  }

  ghost predicate Inv(sys: Sys) {
    NoReturn.Sound(sys.db) && LeasesMatch(sys.db)
  }

  // --------------------------------------------------------------- steps ----

  /** `after` has the leases of `db`, and sessions that stay keep their address. */
  ghost predicate Unleased(db: Db, after: Db) {
    && after.leases == db.leases
    && (forall s :: s in db.sessions ==> s in after.sessions && AddressOf(after, s) == AddressOf(db, s))
  }

  lemma UnleasedKeeps(db: Db, after: Db)
    requires LeasesMatch(db) && Unleased(db, after)
    ensures LeasesMatch(after) && forall s :: s in db.sessions ==> (Holds(after, s) <==> Holds(db, s))
  {
  }

  lemma TogetherUnleased(db: Db, order: seq<nat>, now: int)
    requires forall s :: s in order ==> s in db.sessions
    ensures Unleased(db, CloseTogether(db, order, now)) && CloseTogether(db, order, now).sessions.Keys == db.sessions.Keys
  {
  }

  lemma FinishUnleased(db: Db, s: nat, now: int)
    ensures Unleased(db, FinishClose(db, s, now)) && FinishClose(db, s, now).sessions.Keys == db.sessions.Keys
  {
  }

  lemma ClosersUnleased(sys: Sys, step: CloseStep)
    ensures Unleased(sys.db, ApplyClose(sys, step).db) && ApplyClose(sys, step).db.sessions.Keys == sys.db.sessions.Keys
  {
    match step
    case CloseScope(scope, order, now) =>
      if Enumerates(order, LiveInScope(sys.db, scope)) { TogetherUnleased(sys.db, order, now); }
    case CloserRead(_, _) => WaitingTouchesNoRow(sys, step);
    case CloserCheck(_) => WaitingTouchesNoRow(sys, step);
    case CloserEnqueue(_) => WaitingTouchesNoRow(sys, step);
    case CloserFinish(p, now) =>
      if p in sys.closers && sys.closers[p].Finishing? { FinishUnleased(sys.db, sys.closers[p].session, now); }
  }

  lemma QueueUnleased(sys: Sys, step: QueueStep)
    ensures Unleased(sys.db, ApplyQueue(sys, step).db) && ApplyQueue(sys, step).db.sessions.Keys == sys.db.sessions.Keys
  {
  }

  lemma RowsUnleased(sys: Sys, step: DeviceStep)
    requires !step.RevokeDevice? && !step.RemoveDevice?
    ensures Unleased(sys.db, ApplyDevice(sys, step).db) && ApplyDevice(sys, step).db.sessions == sys.db.sessions
  {
    RowChanges(sys, step);
  }

  lemma RevokingUnleased(sys: Sys, d: nat, order: seq<nat>, now: int)
    ensures
      var after := ApplyDevice(sys, RevokeDevice(d, order, now)).db;
      Unleased(sys.db, after) && after.sessions.Keys == sys.db.sessions.Keys
  {
    if d in sys.db.devices && Enumerates(order, LiveInScope(sys.db, OfDevice(d))) { TogetherUnleased(sys.db, order, now); }
  }

  lemma AcksUnleased(sys: Sys, step: AckStep)
    requires !step.AckRelease?
    ensures Unleased(sys.db, ApplyAck(sys, step).db) && ApplyAck(sys, step).db.sessions.Keys == sys.db.sessions.Keys
  {
  }

  lemma DeletionKeeps(db: Db, d: nat)
    requires LeasesMatch(db)
    ensures
      var after := DeleteDevice(db, d);
      LeasesMatch(after) && forall s :: s in after.sessions ==> s in db.sessions && (Holds(after, s) <==> Holds(db, s))
  {
  }

  lemma ConnectKeeps(sys: Sys, u: nat, d: nat, version: nat, n: nat, plan: Plan)
    requires Inv(sys)
    ensures
      var after := Connected(sys, u, d, version, n, plan).db;
      && LeasesMatch(after)
      && (forall s :: s in sys.db.sessions ==> s in after.sessions && (Holds(after, s) <==> Holds(sys.db, s)))
      && (forall s :: s in after.sessions && s !in sys.db.sessions ==> Holds(after, s))
  {
  }

  lemma ReleaseKeeps(db: Db, p: nat, s: nat)
    requires LeasesMatch(db)
    ensures
      var after := ReleaseLease(db, s);
      LeasesMatch(after) && forall t :: t in db.sessions ==> (Holds(after, t) <==> Holds(db, t) && t != s)
  {
  }

  lemma FreeingKeeps(db: Db, selected: set<Lease>)
    requires LeasesMatch(db)
    ensures
      var after := FreeLeases(db, selected);
      LeasesMatch(after) && forall s :: s in db.sessions ==> (Holds(after, s) <==> Holds(db, s) && AddressOf(db, s) !in selected)
  {
  }

  lemma PoolKeeps(db: Db, n: nat, ips: set<nat>)
    requires LeasesMatch(db)
    ensures
      var after := EnsurePool(db, n, ips);
      LeasesMatch(after) && forall s :: s in db.sessions ==> (Holds(after, s) <==> Holds(db, s))
  {
    var after := EnsurePool(db, n, ips);
    assert forall l :: l in db.leases ==> l in after.leases && after.leases[l] == db.leases[l];
    assert forall l :: l in after.leases && after.leases[l].Some? ==> l in db.leases;
  }

  /** What one step does to the lease of a session that is there before and after it. */
  ghost predicate Leaves(sys: Sys, step: Step) {
    var after := Apply(sys, step).db;
    && LeasesMatch(after)
    && (forall s :: s in sys.db.sessions && s in after.sessions && Live(sys.db.sessions[s]) ==>
          (Holds(after, s) <==> Holds(sys.db, s) && !Robs(sys, step, s)))
    && (forall s :: s in after.sessions && s !in sys.db.sessions ==> Holds(after, s))
  }

  lemma UnleasedLeaves(sys: Sys, step: Step)
    requires Inv(sys) && Unleased(sys.db, Apply(sys, step).db)
    requires Apply(sys, step).db.sessions.Keys == sys.db.sessions.Keys
    requires !step.OnLease? && !(step.OnAck? && step.ack.AckRelease?)
    ensures Leaves(sys, step)
  {
    UnleasedKeeps(sys.db, Apply(sys, step).db);
  }

  lemma DeviceStepLeaves(sys: Sys, step: DeviceStep)
    requires Inv(sys)
    ensures Leaves(sys, OnDevice(step))
  {
    match step
    case RemoveDevice(d) => DeletionKeeps(sys.db, d);
    case RevokeDevice(d, order, now) => RevokingUnleased(sys, d, order, now); UnleasedLeaves(sys, OnDevice(step));
    case AddDevice(_, _, _) => RowsUnleased(sys, step); UnleasedLeaves(sys, OnDevice(step));
    case RotateKey(_, _) => RowsUnleased(sys, step); UnleasedLeaves(sys, OnDevice(step));
    case Reactivate(_) => RowsUnleased(sys, step); UnleasedLeaves(sys, OnDevice(step));
    case AdminRevoke(_) => RowsUnleased(sys, step); UnleasedLeaves(sys, OnDevice(step));
  }

  lemma AckStepLeaves(sys: Sys, step: AckStep)
    requires Inv(sys)
    ensures Leaves(sys, OnAck(step))
  {
    if step.AckRelease? {
      if step.p in sys.ackers && sys.ackers[step.p].Releasing? { ReleaseKeeps(sys.db, step.p, sys.ackers[step.p].session); }
    } else {
      AcksUnleased(sys, step);
      UnleasedLeaves(sys, OnAck(step));
    }
  }

  lemma LeaseStepLeaves(sys: Sys, step: LeaseStep)
    requires Inv(sys)
    ensures Leaves(sys, OnLease(step))
  {
    match step
    case CreatePool(n, ips) => PoolKeeps(sys.db, n, ips);
    case ReclaimSelect(_, _) =>
    case ReclaimFree(p) => if p in sys.selections { FreeingKeeps(sys.db, sys.selections[p]); }
  }

  lemma StepLeaves(sys: Sys, step: Step)
    requires Inv(sys)
    ensures Leaves(sys, step) && Inv(Apply(sys, step))
  {
    NoReturn.StepKeeps(sys, step);
    match step
    case Configure(_, _, _) => UnleasedLeaves(sys, step);
    case Connect(u, d, version, n, plan) => ConnectKeeps(sys, u, d, version, n, plan);
    case OnDevice(device) => DeviceStepLeaves(sys, device);
    case OnClose(close) => ClosersUnleased(sys, close); UnleasedLeaves(sys, step);
    case OnQueue(queue) => QueueUnleased(sys, queue); UnleasedLeaves(sys, step);
    case OnAck(ack) => AckStepLeaves(sys, ack);
    case OnLease(lease) => LeaseStepLeaves(sys, lease);
    case OnAgent(agent) => AgentsChange(sys, agent); UnleasedLeaves(sys, step);
  }

  // ---------------------------------------------------------------- runs ----

  lemma InstalledIsSound(init: Sys)
    requires Installed(init)
    ensures Inv(init)
  {
  }

  /** What is live in the end was live all the time since it was there. */
  lemma LiveSince(sys: Sys, step: Step, rest: seq<Step>, s: nat)
    requires Inv(sys) && IsLive(Run(Apply(sys, step), rest).db, s)
    ensures IsLive(Apply(sys, step).db, s) || s >= Apply(sys, step).db.nextSession
  {
    NoReturn.StepKeeps(sys, step);
    NoReturn.RunKeeps(Apply(sys, step), rest);
    assert !IsLive(Apply(sys, step).db, s) && s < Apply(sys, step).db.nextSession ==> NoReturn.Ended(Apply(sys, step).db, s);
  }

  ghost predicate Covered(db: Db, s: nat) {
    IsLive(db, s) ==> Holds(db, s)
  }

  lemma HeldAfter(sys: Sys, step: Step, s: nat)
    requires Inv(sys) && (IsLive(sys.db, s) || s >= sys.db.nextSession)
    requires IsLive(Apply(sys, step).db, s) || s >= Apply(sys, step).db.nextSession
    ensures Covered(Apply(sys, step).db, s) <==> Covered(sys.db, s) && !Robs(sys, step, s)
  {
    StepLeaves(sys, step);
    if IsLive(sys.db, s) {
      NoReturn.StepKeeps(sys, step);
      assert s < Apply(sys, step).db.nextSession;
    } else {
      assert s !in sys.db.sessions;
    }
  }

  lemma {:induction false} HeldSince(sys: Sys, steps: seq<Step>, s: nat)
    requires Inv(sys) && IsLive(Run(sys, steps).db, s) && (IsLive(sys.db, s) || s >= sys.db.nextSession)
    ensures Covered(Run(sys, steps).db, s) <==> Covered(sys.db, s) && !Robbed(sys, steps, s)
    ensures Inv(Run(sys, steps))
    decreases |steps|
  {
    if steps != [] {
      StepLeaves(sys, steps[0]);
      LiveSince(sys, steps[0], steps[1..], s);
      HeldAfter(sys, steps[0], s);
      HeldSince(Apply(sys, steps[0]), steps[1..], s);
    }
  }

  /**
   * In every run a session that is live at the end holds the lease of its address if and only if no step
   * freed that lease while the session was live. A lost lease is never regained.
   */
  lemma HoldsUnlessRobbed(init: Sys, steps: seq<Step>, sys: Sys, s: nat)
    requires Installed(init) && sys == Run(init, steps) && IsLive(sys.db, s)
    ensures Holds(sys.db, s) <==> !Robbed(init, steps, s)
  {
    InstalledIsSound(init);
    HeldSince(init, steps, s);
  }

  /** So two live sessions of a node have different addresses unless one of them was robbed of its lease. */
  lemma UnrobbedAreDistinct(init: Sys, steps: seq<Step>, sys: Sys, s: nat, t: nat)
    requires Installed(init) && sys == Run(init, steps) && IsLive(sys.db, s) && IsLive(sys.db, t) && s != t
    requires AddressOf(sys.db, s) == AddressOf(sys.db, t)
    ensures Robbed(init, steps, s) || Robbed(init, steps, t)
  {
    HoldsUnlessRobbed(init, steps, sys, s);
    HoldsUnlessRobbed(init, steps, sys, t);
  }

  ghost predicate AllHold(db: Db) {
    forall s :: IsLive(db, s) ==> Holds(db, s)
  }

  /** In every state of the run every live session holds its lease. */
  ghost predicate AlwaysHold(sys: Sys, steps: seq<Step>)
    decreases |steps|
  {
    AllHold(sys.db) && (steps != [] ==> AlwaysHold(Apply(sys, steps[0]), steps[1..]))
  }

  /** No step of the run frees the lease of a live session. */
  ghost predicate NobodyRobbed(sys: Sys, steps: seq<Step>)
    decreases |steps|
  {
    steps != [] ==> (forall s :: !Robs(sys, steps[0], s)) && NobodyRobbed(Apply(sys, steps[0]), steps[1..])
  }

  /** The two statements that free leases leave sessions alone. */
  lemma RobbedIsLeftLive(sys: Sys, step: Step, s: nat)
    requires Inv(sys) && Robs(sys, step, s)
    ensures IsLive(Apply(sys, step).db, s) && !Holds(Apply(sys, step).db, s)
  {
    StepLeaves(sys, step);
  }

  lemma LiveWasLive(sys: Sys, step: Step, s: nat)
    requires Inv(sys) && IsLive(Apply(sys, step).db, s) && s in sys.db.sessions
    ensures IsLive(sys.db, s)
  {
    NoReturn.StepKeeps(sys, step);
    assert !IsLive(sys.db, s) ==> NoReturn.Ended(sys.db, s);
  }

  lemma StepHoldsIff(sys: Sys, step: Step)
    requires Inv(sys) && AllHold(sys.db)
    ensures AllHold(Apply(sys, step).db) <==> forall s :: !Robs(sys, step, s)
  {
    var after := Apply(sys, step).db;
    StepLeaves(sys, step);
    if s :| Robs(sys, step, s) {
      RobbedIsLeftLive(sys, step, s);
    } else {
      forall s | IsLive(after, s) ensures Holds(after, s) {
        if s in sys.db.sessions { LiveWasLive(sys, step, s); }
      }
    }
  }

  lemma {:induction false} AlwaysHoldSince(sys: Sys, steps: seq<Step>)
    requires Inv(sys) && AllHold(sys.db)
    ensures AlwaysHold(sys, steps) <==> NobodyRobbed(sys, steps)
    ensures NobodyRobbed(sys, steps) ==> Inv(Run(sys, steps)) && AllHold(Run(sys, steps).db)
    decreases |steps|
  {
    if steps != [] {
      StepLeaves(sys, steps[0]);
      StepHoldsIff(sys, steps[0]);
      if forall s :: !Robs(sys, steps[0], s) { AlwaysHoldSince(Apply(sys, steps[0]), steps[1..]); }
    }
  }

  /**
   * The exact condition, over all runs: in every state every live session holds the lease of its address
   * if and only if no acknowledgement releases, and no reclaim frees, the lease of a session that is live.
   */
  lemma LeasesAreKeptIff(init: Sys, steps: seq<Step>)
    requires Installed(init)
    ensures AlwaysHold(init, steps) <==> NobodyRobbed(init, steps)
  {
    InstalledIsSound(init);
    AlwaysHoldSince(init, steps);
  }

  // ---------------------------------------------------- who takes them ----

  /** A command keeps its kind, and its session while that has a row; a session never becomes PENDING again. */
  ghost predicate Traceable(db: Db, after: Db) {
    && |db.commands| <= |after.commands| && db.nextSession <= after.nextSession
    && (forall i :: 0 <= i < |db.commands| ==>
          && after.commands[i].kind == db.commands[i].kind
          && (after.commands[i].session == db.commands[i].session
              || (db.commands[i].session.Some? && db.commands[i].session.value !in after.sessions)))
    && (forall s :: s in after.sessions && s < db.nextSession ==>
          s in db.sessions && (after.sessions[s].status.Pending? ==> db.sessions[s].status.Pending?))
  }

  lemma ConnectTraceable(sys: Sys, u: nat, d: nat, version: nat, n: nat, plan: Plan)
    ensures Traceable(sys.db, Connected(sys, u, d, version, n, plan).db)
  {
  }

  lemma RowsTraceable(sys: Sys, step: DeviceStep)
    requires !step.RevokeDevice? && !step.RemoveDevice?
    ensures Traceable(sys.db, ApplyDevice(sys, step).db)
  {
    NoReturn.RowsOnly(sys, step);
  }

  lemma TogetherTraceable(db: Db, order: seq<nat>, now: int)
    requires forall s :: s in order ==> s in db.sessions
    ensures Traceable(db, CloseTogether(db, order, now))
  {
  }

  lemma DeletionTraceable(db: Db, d: nat)
    ensures Traceable(db, DeleteDevice(db, d))
  {
  }

  lemma RevokingTraceable(sys: Sys, d: nat, order: seq<nat>, now: int)
    ensures Traceable(sys.db, ApplyDevice(sys, RevokeDevice(d, order, now)).db)
  {
    if d in sys.db.devices && Enumerates(order, LiveInScope(sys.db, OfDevice(d))) { TogetherTraceable(sys.db, order, now); }
  }

  lemma DevicesTraceable(sys: Sys, step: DeviceStep)
    ensures Traceable(sys.db, ApplyDevice(sys, step).db)
  {
    match step
    case RevokeDevice(d, order, now) => RevokingTraceable(sys, d, order, now);
    case RemoveDevice(d) => DeletionTraceable(sys.db, d);
    case AddDevice(_, _, _) => RowsTraceable(sys, step);
    case RotateKey(_, _) => RowsTraceable(sys, step);
    case Reactivate(_) => RowsTraceable(sys, step);
    case AdminRevoke(_) => RowsTraceable(sys, step);
  }

  lemma ClosersTraceable(sys: Sys, step: CloseStep)
    ensures Traceable(sys.db, ApplyClose(sys, step).db)
  {
    match step
    case CloseScope(scope, order, now) =>
      if Enumerates(order, LiveInScope(sys.db, scope)) { TogetherTraceable(sys.db, order, now); }
    case CloserRead(_, _) => RowlessTraceable(sys, step);
    case CloserCheck(_) => RowlessTraceable(sys, step);
    case CloserEnqueue(p) => EnqueuedTraceable(sys, p);
    case CloserFinish(_, _) => RowlessTraceable(sys, step);
  }

  lemma EnqueuedTraceable(sys: Sys, p: nat)
    ensures Traceable(sys.db, Enqueued(sys, p).db)
  {
    if p in sys.closers && sys.closers[p].Enqueuing? && sys.closers[p].session in sys.db.sessions {
      RemovalTraceable(sys.db, sys.closers[p].session);
    }
  }

  lemma RemovalTraceable(db: Db, s: nat)
    requires s in db.sessions
    ensures Traceable(db, EnqueueRemove(db, s))
  {
    assert EnqueueRemove(db, s).commands[..|db.commands|] == db.commands;
  }

  lemma RowlessTraceable(sys: Sys, step: CloseStep)
    requires step.CloserFinish? || step.CloserRead? || step.CloserCheck?
    ensures Traceable(sys.db, ApplyClose(sys, step).db)
  {
  }

  lemma QueueTraceable(sys: Sys, step: QueueStep)
    ensures Traceable(sys.db, ApplyQueue(sys, step).db)
  {
  }

  lemma AcksTraceable(sys: Sys, step: AckStep)
    requires NoReturn.Sound(sys.db)
    ensures Traceable(sys.db, ApplyAck(sys, step).db)
  {
  }

  /**
   * What a handler that is between its statements is about: an update, the setup of its session; a
   * release, a removal of its session that succeeded, or a setup that was refused when the session was
   * no longer PENDING.
   */
  predicate Means(db: Db, a: Acker) {
    && a.command < |db.commands|
    && match a
       case Completing(_, _) => true
       case Updating(c, s, _) => IsAbout(db, c, s) && db.commands[c].kind.AddPeer?
       case Releasing(c, s, ok) =>
         && IsAbout(db, c, s)
         && if ok then db.commands[c].kind.RemovePeer?
            else db.commands[c].kind.AddPeer? && (IsLive(db, s) ==> db.sessions[s].status.Active?)
  }

  /** Session `s` has existed, and is the one of command `c` unless its row is gone. */
  predicate IsAbout(db: Db, c: nat, s: nat)
    requires c < |db.commands|
  {
    s < db.nextSession && (s in db.sessions ==> db.commands[c].session == Some(s))
  }

  ghost predicate AckersMean(sys: Sys) {
    forall p :: p in sys.ackers ==> Means(sys.db, sys.ackers[p])
  }

  lemma TraceableMeans(db: Db, after: Db, a: Acker)
    requires Means(db, a) && Traceable(db, after) && NoReturn.Sound(db) && NoReturn.Keeps(db, after)
    ensures Means(after, a)
  {
    if !a.Completing? && a.session in after.sessions {
      assert !IsLive(db, a.session) ==> NoReturn.Ended(db, a.session);
    }
  }

  lemma AckersStayMeant(sys: Sys, after: Sys)
    requires AckersMean(sys) && Traceable(sys.db, after.db) && NoReturn.Sound(sys.db) && NoReturn.Keeps(sys.db, after.db)
    requires forall p :: p in after.ackers ==> (p in sys.ackers && after.ackers[p] == sys.ackers[p]) || Means(after.db, after.ackers[p])
    ensures AckersMean(after)
  {
    forall p | p in after.ackers && p in sys.ackers && after.ackers[p] == sys.ackers[p] ensures Means(after.db, after.ackers[p]) {
      TraceableMeans(sys.db, after.db, sys.ackers[p]);
    }
  }

  lemma ReadingIsMeant(sys: Sys, p: nat, n: nat, i: nat, ok: bool)
    requires NoReturn.Sound(sys.db) && AckersMean(sys)
    ensures AckersMean(Acknowledged(sys, p, n, i, ok))
  {
  }

  lemma AckStepIsMeant(sys: Sys, step: AckStep)
    requires NoReturn.Sound(sys.db) && AckersMean(sys)
    ensures AckersMean(ApplyAck(sys, step))
  {
    match step
    case Ack(p, n, i, ok) => ReadingIsMeant(sys, p, n, i, ok);
    case AckWrite(p) => WritingIsMeant(sys, p);
    case AckUpdate(p, now) => UpdatingIsMeant(sys, p, now);
    case AckRelease(p) => LaterIsMeant(sys, step);
  }

  lemma WritingIsMeant(sys: Sys, p: nat)
    requires NoReturn.Sound(sys.db) && AckersMean(sys)
    ensures AckersMean(Completed(sys, p))
  {
    NoReturn.StepKeeps(sys, OnAck(AckWrite(p)));
    AcksTraceable(sys, AckWrite(p));
    if Completed(sys, p) != sys { WriterIsMeant(sys, p); }
    AckersStayMeant(sys, Completed(sys, p));
  }

  lemma WriterIsMeant(sys: Sys, p: nat)
    requires NoReturn.Sound(sys.db) && Completed(sys, p) != sys
    ensures p in Completed(sys, p).ackers ==> Means(Completed(sys, p).db, Completed(sys, p).ackers[p])
  {
  }

  lemma UpdatingIsMeant(sys: Sys, p: nat, now: int)
    requires NoReturn.Sound(sys.db) && AckersMean(sys)
    ensures AckersMean(ApplyAck(sys, AckUpdate(p, now)))
  {
    var after := ApplyAck(sys, AckUpdate(p, now));
    if after != sys {
      NoReturn.StepKeeps(sys, OnAck(AckUpdate(p, now)));
      AcksTraceable(sys, AckUpdate(p, now));
      assert Means(sys.db, sys.ackers[p]);
      AckersStayMeant(sys, after);
    }
  }

  lemma LaterIsMeant(sys: Sys, step: AckStep)
    requires NoReturn.Sound(sys.db) && AckersMean(sys) && step.AckRelease?
    ensures AckersMean(ApplyAck(sys, step))
  {
    var after := ApplyAck(sys, step);
    if after != sys {
      NoReturn.StepKeeps(sys, OnAck(step));
      assert after.ackers == sys.ackers - {step.p} && after.db == sys.db.(leases := after.db.leases);
      AckersStayMeant(sys, after);
    }
  }

  lemma AgentStepIsMeant(sys: Sys, step: AgentStep)
    requires NoReturn.Sound(sys.db) && AckersMean(sys)
    ensures AckersMean(ApplyAgent(sys, step))
  {
    match step
    case Execute(_, _, _) =>
    case ExecuteAndAck(p, n, i, ok) => ReadingIsMeant(Executed(sys, n, i, ok), p, n, i, ok);
    case Report(_) =>
    case ReportApply(_) =>
  }

  lemma OtherStepIsMeant(sys: Sys, step: Step)
    requires NoReturn.Sound(sys.db) && AckersMean(sys) && !step.OnAck? && !step.OnAgent?
    ensures AckersMean(Apply(sys, step))
  {
    StepFrame(sys, step);
    NoReturn.StepKeeps(sys, step);
    match step
    case Configure(_, _, _) => AckersStayMeant(sys, Apply(sys, step));
    case Connect(u, d, version, n, plan) => ConnectTraceable(sys, u, d, version, n, plan); AckersStayMeant(sys, Apply(sys, step));
    case OnDevice(device) => DevicesTraceable(sys, device); AckersStayMeant(sys, Apply(sys, step));
    case OnClose(close) => ClosersTraceable(sys, close); AckersStayMeant(sys, Apply(sys, step));
    case OnQueue(queue) => QueueTraceable(sys, queue); AckersStayMeant(sys, Apply(sys, step));
    case OnLease(lease) => LeasesChange(sys, lease); AckersStayMeant(sys, Apply(sys, step));
  }

  lemma {:induction false} RunMeans(sys: Sys, steps: seq<Step>)
    requires Inv(sys) && AckersMean(sys)
    ensures Inv(Run(sys, steps)) && AckersMean(Run(sys, steps))
    decreases |steps|
  {
    if steps != [] {
      var step := steps[0];
      StepLeaves(sys, step);
      if step.OnAck? { AckStepIsMeant(sys, step.ack); }
      else if step.OnAgent? { AgentStepIsMeant(sys, step.agent); }
      else { OtherStepIsMeant(sys, step); }
      RunMeans(Apply(sys, step), steps[1..]);
    }
  }

  /**
   * In every run an acknowledgement frees leases of its own session only. It robs that session while it is
   * live exactly when it holds its lease then, and it is the success of a removal of the session, whose
   * row is still to be closed, or the refusal of the setup of a session that has been ACTIVE since.
   */
  lemma AcksRobTheirOwn(init: Sys, steps: seq<Step>, sys: Sys, p: nat, s: nat)
    requires Installed(init) && sys == Run(init, steps) && p in sys.ackers && sys.ackers[p].Releasing?
    ensures
      var after := ApplyAck(sys, AckRelease(p)).db;
      forall l :: l in sys.db.leases && after.leases[l] != sys.db.leases[l] ==> sys.db.leases[l] == Some(sys.ackers[p].session)
    ensures Robs(sys, OnAck(AckRelease(p)), s) <==>
      && sys.ackers[p].session == s && IsLive(sys.db, s) && Holds(sys.db, s)
      && var c, ok := sys.ackers[p].command, sys.ackers[p].ok;
         && c < |sys.db.commands|
         && if ok then IsRemoveOf(sys.db.commands[c], s)
            else IsAddOf(sys.db.commands[c], s) && sys.db.sessions[s].status.Active?
  {
    InstalledIsSound(init);
    RunMeans(init, steps);
    assert Means(sys.db, sys.ackers[p]);
  }
}
