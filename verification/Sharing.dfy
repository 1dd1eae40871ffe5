/** When an address can come to be used by two live sessions. */
module Sharing {
  import opened Rows
  import opened Plane
  import opened Protocol
  import opened Leases
  import NoReturn

  /** Every session has a lease row for its address, whoever holds it, and ended ones say when they ended. */
  ghost predicate Tidy(db: Db) {
    forall s :: s in db.sessions ==>
      AddressOf(db, s) in db.leases && (!Live(db.sessions[s]) ==> db.sessions[s].disconnectedAt.Some?)
  }

  // --------------------------------------------------------------- steps ----

  lemma DevicesTidy(sys: Sys, step: DeviceStep)
    requires Tidy(sys.db)
    ensures Tidy(ApplyDevice(sys, step).db)
  {
    match step
    case RevokeDevice(d, order, now) =>
      if d in sys.db.devices && Enumerates(order, LiveInScope(sys.db, OfDevice(d))) { TogetherTidy(sys.db, order, now); }
    case RemoveDevice(_) =>
    case AddDevice(_, _, _) => RowsUnleased(sys, step);
    case RotateKey(_, _) => RowsUnleased(sys, step);
    case Reactivate(_) => RowsUnleased(sys, step);
    case AdminRevoke(_) => RowsUnleased(sys, step);
  }

  lemma TogetherTidy(db: Db, order: seq<nat>, now: int)
    requires Tidy(db) && forall s :: s in order ==> s in db.sessions
    ensures Tidy(CloseTogether(db, order, now))
  {
  }

  lemma ClosersTidy(sys: Sys, step: CloseStep)
    requires Tidy(sys.db)
    ensures Tidy(ApplyClose(sys, step).db)
  {
    match step
    case CloseScope(scope, order, now) =>
      if Enumerates(order, LiveInScope(sys.db, scope)) { TogetherTidy(sys.db, order, now); }
    case CloserRead(_, _) => WaitingTouchesNoRow(sys, step);
    case CloserCheck(_) => WaitingTouchesNoRow(sys, step);
    case CloserEnqueue(_) => WaitingTouchesNoRow(sys, step);
    case CloserFinish(_, _) =>
  }

  lemma QueueTidy(sys: Sys, step: QueueStep)
    requires Tidy(sys.db)
    ensures Tidy(ApplyQueue(sys, step).db)
  {
  }

  lemma AcksTidy(sys: Sys, step: AckStep)
    requires Tidy(sys.db)
    ensures Tidy(ApplyAck(sys, step).db)
  {
  }

  lemma LeasesTidy(sys: Sys, step: LeaseStep)
    requires Tidy(sys.db)
    ensures Tidy(ApplyLease(sys, step).db)
  {
  }

  lemma StepTidy(sys: Sys, step: Step)
    requires Tidy(sys.db)
    ensures Tidy(Apply(sys, step).db)
  {
    match step
    case Configure(_, _, _) =>
    case Connect(_, _, _, _, _) =>
    case OnDevice(device) => DevicesTidy(sys, device);
    case OnClose(close) => ClosersTidy(sys, close);
    case OnQueue(queue) => QueueTidy(sys, queue);
    case OnAck(ack) => AcksTidy(sys, ack);
    case OnLease(lease) => LeasesTidy(sys, lease);
    case OnAgent(agent) => AgentsChange(sys, agent);
  }

  lemma {:induction false} RunTidy(sys: Sys, steps: seq<Step>)
    requires Leases.Inv(sys) && Tidy(sys.db)
    ensures Leases.Inv(Run(sys, steps)) && Tidy(Run(sys, steps).db)
    decreases |steps|
  {
    if steps != [] {
      StepTidy(sys, steps[0]);
      StepLeaves(sys, steps[0]);
      RunTidy(Apply(sys, steps[0]), steps[1..]);
    }
  }

  // ------------------------------------------------- the way to a second ----

  predicate Shares(db: Db, s: nat, t: nat) {
    s != t && IsLive(db, s) && IsLive(db, t) && AddressOf(db, s) == AddressOf(db, t)
  }

  /** A continuation that robs nobody and ends with two live sessions on one address. */
  ghost predicate Leads(sys: Sys, future: seq<Step>) {
    NobodyRobbed(sys, future) && exists s, t :: Shares(Run(sys, future).db, s, t)
  }

  lemma First(sys: Sys, step: Step, rest: seq<Step>)
    requires (forall s :: !Robs(sys, step, s)) && Leads(Apply(sys, step), rest)
    ensures Leads(sys, [step] + rest)
  {
    var steps := [step] + rest;
    assert steps[0] == step && steps[1..] == rest;
    assert NobodyRobbed(sys, steps);
    assert Run(sys, steps) == Run(Apply(sys, step), rest);
  }

  lemma Here(sys: Sys, s: nat, t: nat)
    requires Shares(sys.db, s, t)
    ensures Leads(sys, [])
  {
    var none: seq<Step> := [];
    assert NobodyRobbed(sys, none);
    assert Run(sys, none) == sys && Shares(Run(sys, none).db, s, t);
  }

  /** A device nobody has heard of, and a key nobody has. */
  lemma NewDevice(sys: Sys) returns (d: nat, key: nat)
    ensures d !in sys.db.devices && (forall v :: (d, v) !in sys.snapshots) && KeyFree(sys.db, key)
    ensures LiveOfDevice(sys.db.sessions, d) == {}
  {
    var known := set k | k in sys.snapshots :: k.0;
    var busy := set s | s in sys.db.sessions :: sys.db.sessions[s].device;
    var keys := set e | e in sys.db.devices :: sys.db.devices[e].key;
    d := Unused(sys.db.devices.Keys + known + busy);
    key := Unused(keys);
    assert d !in sys.db.devices.Keys + known + busy && key !in keys;
    forall v: nat ensures (d, v) !in sys.snapshots {
      assert (d, v) in sys.snapshots ==> (d, v).0 in known;
    }
    assert forall s :: s in sys.db.sessions ==> sys.db.sessions[s].device in busy;
    assert forall e :: e in sys.db.devices ==> sys.db.devices[e].key in keys;
  }

  /** The installation is opened up for one more session on node `n`. */
  function Widened(sys: Sys, n: nat): Sys {
    sys.(db := sys.db.(maintenance := false, users := map[0 := User(true, 1)],
                       nodes := map[n := Node(false, true, 0, |LiveOfNode(sys.db.sessions, n)| + 1)]))
  }

  function Roomy(sys: Sys): Plan {
    Plan(0, |LiveOfUser(sys.db.sessions, 0)| + 1)
  }

  /** The connect of a new device takes the first free address of the node. */
  lemma Opens(sys: Sys, n: nat, d: nat, key: nat)
    requires NoReturn.Sound(sys.db) && FreeAddresses(sys.db, n) != {} && LiveOfDevice(sys.db.sessions, d) == {}
    ensures
      var ready := WithDevice(Widened(sys, n), d, Device(0, key, true, 0));
      var after, t := Connected(ready, 0, d, 0, n, Roomy(sys)), sys.db.nextSession;
      && t !in sys.db.sessions && IsLive(after.db, t) && AddressOf(after.db, t).0 == n
      && AddressOf(after.db, t).1 in FreeAddresses(sys.db, n)
      && after.db.sessions == sys.db.sessions[t := after.db.sessions[t]]
      && after.db.leases == sys.db.leases[AddressOf(after.db, t) := Some(t)]
  {
    var ready := WithDevice(Widened(sys, n), d, Device(0, key, true, 0));
    assert ready.db.sessions == sys.db.sessions && ready.db.leases == sys.db.leases;
    assert FreeAddresses(ready.db, n) == FreeAddresses(sys.db, n);
    assert Admissible(ready.db, 0, d, 0, n, Roomy(sys));
    ConnectAdmits(ready.db, 0, d, 0, key, n, Roomy(sys));
  }

  /** While the row of a live session's address is free, connects take free addresses until one takes that. */
  lemma {:induction false} ConnectsLead(sys: Sys, s: nat) returns (future: seq<Step>)
    requires NoReturn.Sound(sys.db) && IsLive(sys.db, s)
    requires AddressOf(sys.db, s) in sys.db.leases && sys.db.leases[AddressOf(sys.db, s)].None?
    ensures Leads(sys, future)
    decreases |FreeAddresses(sys.db, sys.db.sessions[s].node)|
  {
    var n, ip := sys.db.sessions[s].node, sys.db.sessions[s].ip;
    var d, key := NewDevice(sys);
    var widened := Widened(sys, n);
    var ready := WithDevice(widened, d, Device(0, key, true, 0));
    var after := Connected(ready, 0, d, 0, n, Roomy(sys));
    var t := sys.db.nextSession;
    assert (n, ip) in sys.db.leases && ip in FreeAddresses(sys.db, n);
    Opens(sys, n, d, key);
    var configure := Configure(false, widened.db.users, widened.db.nodes);
    var add, connect := OnDevice(AddDevice(d, 0, key)), Connect(0, d, 0, n, Roomy(sys));
    assert Apply(sys, configure) == widened && Apply(widened, add) == ready && Apply(ready, connect) == after;
    var rest := [];
    var taken := after.db.sessions[t].ip;
    if taken == ip {
      Here(after, s, t);
    } else {
      assert FreeAddresses(after.db, n) == FreeAddresses(sys.db, n) - {taken};
      NoReturn.StepKeeps(sys, configure);
      NoReturn.StepKeeps(widened, add);
      NoReturn.StepKeeps(ready, connect);
      rest := ConnectsLead(after, s);
    }
    First(ready, connect, rest);
    First(widened, add, [connect] + rest);
    First(sys, configure, [add] + ([connect] + rest));
    future := [configure] + ([add] + ([connect] + rest));
  }

  /** The reclaim, its two statements one after the other, frees the rows of ended sessions only. */
  lemma ReclaimLeads(sys: Sys, s: nat, t: nat) returns (future: seq<Step>)
    requires Leases.Inv(sys) && Tidy(sys.db) && IsLive(sys.db, s)
    requires AddressOf(sys.db, s) in sys.db.leases && sys.db.leases[AddressOf(sys.db, s)] == Some(t)
    requires t in sys.db.sessions && !Live(sys.db.sessions[t])
    ensures Leads(sys, future)
  {
    var p := Unused(sys.selections.Keys);
    var cutoff := sys.db.sessions[t].disconnectedAt.value + 1;
    var select, free := OnLease(ReclaimSelect(p, cutoff)), OnLease(ReclaimFree(p));
    var selected := Apply(sys, select);
    assert selected == sys.(selections := sys.selections[p := StaleLeases(sys.db, cutoff)]);
    var freed := Apply(selected, free);
    assert freed.db == FreeLeases(sys.db, StaleLeases(sys.db, cutoff));
    NoReturn.StepKeeps(selected, free);
    assert AddressOf(sys.db, s) in StaleLeases(sys.db, cutoff);
    var rest := ConnectsLead(freed, s);
    First(selected, free, rest);
    First(sys, select, [free] + rest);
    future := [select] + ([free] + rest);
  }

  /**
   * The exact condition for sharing. From any state a run reaches, some continuation in which no live
   * session is robbed of its lease ends with two live sessions on one address if and only if a live
   * session is without its lease already.
   */
  lemma SharedLaterIff(init: Sys, history: seq<Step>, sys: Sys)
    requires Installed(init) && sys == Run(init, history)
    ensures (exists future :: Leads(sys, future)) <==> !AllHold(sys.db)
  {
    Leases.InstalledIsSound(init);
    RunTidy(init, history);
    if AllHold(sys.db) {
      forall future ensures !Leads(sys, future) { AllHoldKeepsApart(sys, future); }
    } else {
      var s :| IsLive(sys.db, s) && !Holds(sys.db, s);
      var future := RobbedLeads(sys, s);
    }
  }

  lemma AllHoldKeepsApart(sys: Sys, future: seq<Step>)
    requires Leases.Inv(sys) && AllHold(sys.db)
    ensures !Leads(sys, future)
  {
    AlwaysHoldSince(sys, future);
    assert AllHold(Run(sys, future).db) ==> forall s, t :: !Shares(Run(sys, future).db, s, t);
  }

  lemma RobbedLeads(sys: Sys, s: nat) returns (future: seq<Step>)
    requires Leases.Inv(sys) && Tidy(sys.db) && IsLive(sys.db, s) && !Holds(sys.db, s)
    ensures Leads(sys, future)
  {
    var holder := sys.db.leases[AddressOf(sys.db, s)];
    if holder.None? {
      future := ConnectsLead(sys, s);
    } else if IsLive(sys.db, holder.value) {
      future := [];
      Here(sys, s, holder.value);
    } else {
      future := ReclaimLeads(sys, s, holder.value);
    }
  }
}
