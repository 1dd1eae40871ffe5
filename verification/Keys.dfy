/** Which key a live session was opened with, and why no other live session has it. */
module Keys {
  import opened Rows
  import opened Plane
  import opened Protocol
  import NoReturn

  ghost predicate KeysAreUnique(db: Db) {
    forall d, e :: d in db.devices && e in db.devices && db.devices[d].key == db.devices[e].key ==> d == e
  }

  /** A live session was opened with the key its device still has. */
  ghost predicate LiveKeysAreCurrent(db: Db) {
    forall s :: s in db.sessions && Live(db.sessions[s]) ==>
      db.sessions[s].device in db.devices && db.devices[db.sessions[s].device].key == db.sessions[s].key
  }

  ghost predicate OneLivePerDevice(db: Db) {
    forall s, t :: s in db.sessions && t in db.sessions && Live(db.sessions[s]) && Live(db.sessions[t]) ==>
      db.sessions[s].device == db.sessions[t].device ==> s == t
  }

  /** No token version runs ahead of its device row, and the current one goes with the current key. */
  ghost predicate SnapshotsAreHonest(sys: Sys) {
    forall d, v :: (d, v) in sys.snapshots && d in sys.db.devices ==>
      v <= sys.db.devices[d].tokenVersion &&
      (v == sys.db.devices[d].tokenVersion ==> sys.snapshots[(d, v)] == sys.db.devices[d].key)
  }

  ghost predicate Inv(sys: Sys) {
    && KeysAreUnique(sys.db)
    && LiveKeysAreCurrent(sys.db)
    && OneLivePerDevice(sys.db)
    && SnapshotsAreHonest(sys)
  }

  /** Steps that leave device rows alone and bring no session to life. */
  lemma DyingKeeps(sys: Sys, after: Sys)
    requires Inv(sys)
    requires after.db.devices == sys.db.devices && after.snapshots == sys.snapshots
    requires forall s :: s in after.db.sessions && Live(after.db.sessions[s]) ==>
      s in sys.db.sessions && Live(sys.db.sessions[s])
      && after.db.sessions[s].device == sys.db.sessions[s].device && after.db.sessions[s].key == sys.db.sessions[s].key
    ensures Inv(after)
  {
  }

  lemma ConnectKeeps(sys: Sys, u: nat, d: nat, version: nat, n: nat, plan: Plan)
    requires Inv(sys)
    ensures Inv(Connected(sys, u, d, version, n, plan))
  {
    var after := Connected(sys, u, d, version, n, plan);
    if after != sys {
      assert LiveOfDevice(sys.db.sessions, d) == {};
      assert forall s :: s in sys.db.sessions && Live(sys.db.sessions[s]) ==>
        s in LiveOfDevice(sys.db.sessions, sys.db.sessions[s].device);
    }
  }

  lemma RemovingKeeps(sys: Sys, d: nat)
    requires Inv(sys)
    ensures Inv(sys.(db := DeleteDevice(sys.db, d)))
  {
  }

  lemma RotatingKeeps(sys: Sys, d: nat, key: nat)
    requires Inv(sys) && d in sys.db.devices && KeyFree(sys.db, key) && LiveOfDevice(sys.db.sessions, d) == {}
    ensures Inv(WithDevice(sys, d, sys.db.devices[d].(key := key, tokenVersion := sys.db.devices[d].tokenVersion + 1)))
  {
    forall s | s in sys.db.sessions && Live(sys.db.sessions[s]) ensures sys.db.sessions[s].device != d {
      assert sys.db.sessions[s].device == d ==> s in LiveOfDevice(sys.db.sessions, d);
    }
  }

  /** A device row may change its status and go to a later token version while it keeps its key. */
  lemma SameKeyKeeps(sys: Sys, d: nat, device: Device)
    requires Inv(sys) && d in sys.db.devices && device.key == sys.db.devices[d].key
    requires device.tokenVersion >= sys.db.devices[d].tokenVersion
    ensures Inv(WithDevice(sys, d, device))
  {
  }

  lemma TogetherKeeps(sys: Sys, order: seq<nat>, now: int)
    requires Inv(sys) && forall s :: s in order ==> s in sys.db.sessions
    ensures Inv(sys.(db := CloseTogether(sys.db, order, now)))
  {
    DyingKeeps(sys, sys.(db := CloseTogether(sys.db, order, now)));
  }

  lemma RevokingKeeps(sys: Sys, d: nat, order: seq<nat>, now: int)
    requires Inv(sys) && d in sys.db.devices && forall s :: s in order ==> s in sys.db.sessions
    ensures Inv(WithDevice(sys.(db := CloseTogether(sys.db, order, now)), d, Revoked(sys.db.devices[d])))
  {
    TogetherKeeps(sys, order, now);
    SameKeyKeeps(sys.(db := CloseTogether(sys.db, order, now)), d, Revoked(sys.db.devices[d]));
  }

  lemma AddingKeeps(sys: Sys, d: nat, u: nat, key: nat)
    requires Inv(sys)
    ensures Inv(ApplyDevice(sys, AddDevice(d, u, key)))
  {
    var after := ApplyDevice(sys, AddDevice(d, u, key));
    assert after == sys || after == WithDevice(sys, d, Device(u, key, true, 0));
  }

  /** How one operation may change a device row: the owner stays, the epoch never falls and rises by one with a new key or an activation. */
  predicate MovesForward(before: Device, after: Device) {
    && after.user == before.user && after.tokenVersion >= before.tokenVersion
    && (after.key != before.key || (after.active && !before.active) ==> after.tokenVersion == before.tokenVersion + 1)
  }

  /** At most the row of `d` is different afterwards. */
  predicate OnlyDevice(sys: Sys, after: Sys, d: nat) {
    forall e :: e in sys.db.devices && e != d ==> e in after.db.devices && after.db.devices[e] == sys.db.devices[e]
  }

  /** A rotation takes effect exactly on an active device without a live session, for a key nobody has. */
  lemma RotationMeans(sys: Sys, d: nat, key: nat)
    requires d in sys.db.devices
    ensures
      var before, after := sys.db.devices[d], ApplyDevice(sys, RotateKey(d, key));
      var idle := forall s :: s in sys.db.sessions && Live(sys.db.sessions[s]) ==> sys.db.sessions[s].device != d;
      && OnlyDevice(sys, after, d) && d in after.db.devices
      && after.db.devices[d] ==
           if before.active && idle && KeyFree(sys.db, key) then before.(key := key, tokenVersion := before.tokenVersion + 1) else before
  {
    IdleMeans(sys.db, d);
    RotatesIdle(sys, d, key);
  }

  lemma IdleMeans(db: Db, d: nat)
    ensures LiveOfDevice(db.sessions, d) == {} <==> forall s :: s in db.sessions && Live(db.sessions[s]) ==> db.sessions[s].device != d
  {
    if LiveOfDevice(db.sessions, d) != {} {
      var s :| s in LiveOfDevice(db.sessions, d);
    }
    assert forall s :: s in db.sessions && Live(db.sessions[s]) && db.sessions[s].device == d ==> s in LiveOfDevice(db.sessions, d);
  }

  lemma RotatesIdle(sys: Sys, d: nat, key: nat)
    requires d in sys.db.devices
    ensures
      var before, after := sys.db.devices[d], ApplyDevice(sys, RotateKey(d, key));
      var rotates := before.active && LiveOfDevice(sys.db.sessions, d) == {} && KeyFree(sys.db, key);
      after.db.devices == sys.db.devices[d := if rotates then before.(key := key, tokenVersion := before.tokenVersion + 1) else before]
  {
    assert sys.db.devices[d := sys.db.devices[d]] == sys.db.devices;
  }

  /** Bringing a device back makes it active with the next epoch; an administrator only takes the status away. */
  lemma StatusMeans(sys: Sys, d: nat)
    requires d in sys.db.devices
    ensures
      var before, back, revoked := sys.db.devices[d], ApplyDevice(sys, Reactivate(d)), ApplyDevice(sys, AdminRevoke(d));
      && OnlyDevice(sys, back, d) && OnlyDevice(sys, revoked, d) && d in back.db.devices && d in revoked.db.devices
      && back.db.devices[d] == (if before.active then before else before.(active := true, tokenVersion := before.tokenVersion + 1))
      && revoked.db.devices[d] == before.(active := false)
  {
  }

  /** The owner's revocation leaves the device inactive, with the next epoch if it was active, and without a live session. */
  lemma RevocationMeans(sys: Sys, d: nat, order: seq<nat>, now: int)
    requires d in sys.db.devices && Enumerates(order, LiveInScope(sys.db, OfDevice(d)))
    ensures
      var before, after := sys.db.devices[d], ApplyDevice(sys, RevokeDevice(d, order, now));
      && OnlyDevice(sys, after, d) && d in after.db.devices
      && after.db.devices[d] == before.(active := false, tokenVersion := if before.active then before.tokenVersion + 1 else before.tokenVersion)
      && forall s :: s in after.db.sessions ==> Live(after.db.sessions[s]) ==> after.db.sessions[s].device != d
  {
    ScopeIsClosed(sys.db, OfDevice(d), order, now);
    assert ApplyDevice(sys, RevokeDevice(d, order, now)).db.sessions == CloseTogether(sys.db, order, now).sessions;
  }

  /** No device operation moves a device's credentials back, and only a rotation gives it another key. */
  lemma CredentialsMoveForward(sys: Sys, step: DeviceStep, d: nat)
    requires d in sys.db.devices && d in ApplyDevice(sys, step).db.devices
    ensures
      var before, after := sys.db.devices[d], ApplyDevice(sys, step).db.devices[d];
      MovesForward(before, after) && (after.key != before.key ==> step == RotateKey(d, after.key))
  {
    match step
    case AddDevice(_, _, _) =>
    case RotateKey(e, key) => if e in sys.db.devices { RotationMeans(sys, e, key); }
    case Reactivate(e) => if e in sys.db.devices { StatusMeans(sys, e); }
    case AdminRevoke(e) => if e in sys.db.devices { StatusMeans(sys, e); }
    case RevokeDevice(e, order, now) =>
      if e in sys.db.devices && Enumerates(order, LiveInScope(sys.db, OfDevice(e))) { RevocationMeans(sys, e, order, now); }
    case RemoveDevice(_) =>
  }

  lemma RotateStepKeeps(sys: Sys, d: nat, key: nat)
    requires Inv(sys)
    ensures Inv(ApplyDevice(sys, RotateKey(d, key)))
  {
    var db := sys.db;
    if d in db.devices && db.devices[d].active && KeyFree(db, key) && LiveOfDevice(db.sessions, d) == {} { RotatingKeeps(sys, d, key); }
  }

  lemma StatusStepKeeps(sys: Sys, step: DeviceStep, d: nat)
    requires Inv(sys) && (step == Reactivate(d) || step == AdminRevoke(d))
    ensures Inv(ApplyDevice(sys, step))
  {
    if d in sys.db.devices {
      var device := sys.db.devices[d];
      if step == AdminRevoke(d) {
        SameKeyKeeps(sys, d, device.(active := false));
      } else if !device.active {
        SameKeyKeeps(sys, d, device.(active := true, tokenVersion := device.tokenVersion + 1));
      }
    }
  }

  lemma DeviceStepKeeps(sys: Sys, step: DeviceStep)
    requires Inv(sys)
    ensures Inv(ApplyDevice(sys, step))
  {
    var db := sys.db;
    match step
    case AddDevice(d, u, key) => AddingKeeps(sys, d, u, key);
    case RotateKey(d, key) => RotateStepKeeps(sys, d, key);
    case Reactivate(d) => StatusStepKeeps(sys, step, d);
    case AdminRevoke(d) => StatusStepKeeps(sys, step, d);
    case RevokeDevice(d, order, now) =>
      if d in db.devices && Enumerates(order, LiveInScope(db, OfDevice(d))) { RevokingKeeps(sys, d, order, now); }
    case RemoveDevice(d) => RemovingKeeps(sys, d);
  }

  lemma CloseStepKeeps(sys: Sys, step: CloseStep)
    requires Inv(sys)
    ensures Inv(ApplyClose(sys, step))
  {
    match step
    case CloseScope(scope, order, now) =>
      if Enumerates(order, LiveInScope(sys.db, scope)) { TogetherKeeps(sys, order, now); }
    case CloserRead(_, _) => WaitingKeeps(sys, step);
    case CloserCheck(_) => WaitingKeeps(sys, step);
    case CloserEnqueue(_) => WaitingKeeps(sys, step);
    case CloserFinish(p, now) => FinishingKeeps(sys, p, now);
  }

  lemma WaitingKeeps(sys: Sys, step: CloseStep)
    requires Inv(sys) && (step.CloserRead? || step.CloserCheck? || step.CloserEnqueue?)
    ensures Inv(ApplyClose(sys, step))
  {
    WaitingTouchesNoRow(sys, step);
    ClosersChange(sys, step);
    SameRowsKeep(sys, ApplyClose(sys, step));
  }

  lemma FinishingKeeps(sys: Sys, p: nat, now: int)
    requires Inv(sys)
    ensures Inv(ApplyClose(sys, CloserFinish(p, now)))
  {
    if p in sys.closers && sys.closers[p].Finishing? {
      var after := ApplyClose(sys, CloserFinish(p, now));
      assert after == sys.(db := FinishClose(sys.db, sys.closers[p].session, now), closers := sys.closers - {p});
      DyingKeeps(sys, after);
    }
  }

  lemma SameRowsKeep(sys: Sys, after: Sys)
    requires Inv(sys)
    requires after.db.devices == sys.db.devices && after.snapshots == sys.snapshots && after.db.sessions == sys.db.sessions
    ensures Inv(after)
  {
  }

  lemma QueueStepKeeps(sys: Sys, step: QueueStep)
    requires Inv(sys)
    ensures Inv(ApplyQueue(sys, step))
  {
  }

  lemma LeaseStepKeeps(sys: Sys, step: LeaseStep)
    requires Inv(sys)
    ensures Inv(ApplyLease(sys, step))
  {
  }

  lemma AgentStepKeeps(sys: Sys, step: AgentStep)
    requires Inv(sys)
    ensures Inv(ApplyAgent(sys, step))
  {
    AgentsChange(sys, step);
    SameRowsKeep(sys, ApplyAgent(sys, step));
  }

  lemma AckStepKeeps(sys: Sys, step: AckStep)
    requires Inv(sys)
    ensures Inv(ApplyAck(sys, step))
  {
    DyingKeeps(sys, ApplyAck(sys, step));
  }

  lemma StepKeeps(sys: Sys, step: Step)
    requires Inv(sys)
    ensures Inv(Apply(sys, step))
  {
    match step
    case Configure(_, _, _) => DyingKeeps(sys, Apply(sys, step));
    case Connect(u, d, version, n, plan) => ConnectKeeps(sys, u, d, version, n, plan);
    case OnDevice(device) => DeviceStepKeeps(sys, device);
    case OnClose(close) => CloseStepKeeps(sys, close);
    case OnAck(ack) => AckStepKeeps(sys, ack);
    case OnQueue(queue) => QueueStepKeeps(sys, queue);
    case OnLease(lease) => LeaseStepKeeps(sys, lease);
    case OnAgent(agent) => AgentStepKeeps(sys, agent);
  }

  lemma SameKeySameSession(sys: Sys, s: nat, t: nat)
    requires Inv(sys)
    requires s in sys.db.sessions && Live(sys.db.sessions[s]) && t in sys.db.sessions && Live(sys.db.sessions[t])
    requires sys.db.sessions[s].key == sys.db.sessions[t].key
    ensures s == t
  {
  }

  lemma {:induction false} RunKeeps(sys: Sys, steps: seq<Step>)
    requires Inv(sys)
    ensures Inv(Run(sys, steps))
    decreases |steps|
  {
    if steps != [] {
      StepKeeps(sys, steps[0]);
      RunKeeps(Apply(sys, steps[0]), steps[1..]);
    }
  }

  lemma InstalledIsSound(init: Sys)
    requires Installed(init)
    ensures Inv(init)
  {
    forall d, v | (d, v) in init.snapshots ensures d in init.db.devices && v == init.db.devices[d].tokenVersion {
      assert (d, v) in (set e | e in init.db.devices :: (e, init.db.devices[e].tokenVersion));
    }
  }

  /**
   * Whatever is interleaved - stale credentials, key rotations, revocations, repeated connects -
   * two live sessions never belong to one device and never carry the same peer key.
   */
  lemma LiveSessionsDiffer(init: Sys, steps: seq<Step>, sys: Sys, s: nat, t: nat)
    requires Installed(init) && sys == Run(init, steps) && s != t
    requires s in sys.db.sessions && Live(sys.db.sessions[s]) && t in sys.db.sessions && Live(sys.db.sessions[t])
    ensures sys.db.sessions[s].device != sys.db.sessions[t].device
    ensures sys.db.sessions[s].key != sys.db.sessions[t].key
  {
    InstalledIsSound(init);
    RunKeeps(init, steps);
  }
}
