/**
 * The protocol as a state machine: committed rows, the processes that are between two of their
 * statements, and the peer tables of the node agents. A run is any sequence of steps.
 */
module Protocol {
  import opened Rows
  import opened Plane

  /** closeSession between two of its statements. */
  datatype Closer = Reading(session: nat) | Enqueuing(session: nat) | Finishing(session: nat)

  /**
   * An acknowledgement handler between two of its statements: completeCommand has read the row open and
   * not written it yet, or the row is finished and the session, then the lease, is still to be updated.
   */
  datatype Acker =
    | Completing(command: nat, ok: bool)
    | Updating(command: nat, session: nat, ok: bool)
    | Releasing(command: nat, session: nat, ok: bool)

  datatype Sys = Sys(
    db: Db,
    /** Every (device, token version) that was ever current, with the key it had then. */
    snapshots: map<(nat, nat), nat>,
    closers: map<nat, Closer>,
    /** The node of each claim that has cancelled dead setups and not taken its commands yet. */
    claimers: map<nat, nat>,
    ackers: map<nat, Acker>,
    /** Lease rows selected by a monitor tick that has not freed them yet. */
    selections: map<nat, set<Lease>>,
    /** The first verdict each acknowledged command was acknowledged with. */
    verdicts: map<nat, bool>,
    /** Peer table of each node: peer key to allowed address. */
    peers: map<nat, map<nat, nat>>,
    /** Peer removals a node has been told to make by a report answer it has not applied yet. */
    replies: map<nat, set<nat>>)

  /** How many commands a poll of a node asks for. */
  const CLAIM_LIMIT := 10

  datatype DeviceStep =
    | AddDevice(d: nat, u: nat, key: nat)
    | RotateKey(d: nat, key: nat)
    | Reactivate(d: nat)
    | AdminRevoke(d: nat)
    | RevokeDevice(d: nat, order: seq<nat>, now: int)
    | RemoveDevice(d: nat)

  datatype CloseStep =
    | CloseScope(scope: Scope, order: seq<nat>, now: int)
    | CloserRead(p: nat, s: nat)
    | CloserCheck(p: nat)
    | CloserEnqueue(p: nat)
    | CloserFinish(p: nat, now: int)

  datatype QueueStep =
    | ClaimCancel(p: nat, n: nat)
    | ClaimTake(p: nat, now: int)
    | Requeue(cutoff: int, maxAttempts: nat)
    | PolicyChange(n: nat)

  datatype AckStep =
    | Ack(p: nat, n: nat, i: nat, ok: bool)
    | AckWrite(p: nat)
    | AckUpdate(p: nat, now: int)
    | AckRelease(p: nat)

  datatype LeaseStep =
    | CreatePool(n: nat, ips: set<nat>)
    | ReclaimSelect(p: nat, cutoff: int)
    | ReclaimFree(p: nat)

  datatype AgentStep =
    | Execute(n: nat, i: nat, ok: bool)
    | ExecuteAndAck(p: nat, n: nat, i: nat, ok: bool)
    | Report(n: nat)
    | ReportApply(n: nat)

  datatype Step =
    | Configure(maintenance: bool, users: map<nat, User>, nodes: map<nat, Node>)
    | Connect(u: nat, d: nat, version: nat, n: nat, plan: Plan)
    | OnDevice(device: DeviceStep)
    | OnClose(close: CloseStep)
    | OnQueue(queue: QueueStep)
    | OnAck(ack: AckStep)
    | OnLease(lease: LeaseStep)
    | OnAgent(agent: AgentStep)

  function Table(sys: Sys, n: nat): map<nat, nat> {
    if n in sys.peers then sys.peers[n] else map[]
  }

  /** What an agent does to its peer table when a command of `kind` succeeds. */
  function PeerEffect(table: map<nat, nat>, c: Command): map<nat, nat> {
    match c.kind
    case AddPeer => table[c.key := c.ip]
    case RemovePeer => table - {c.key}
    case Sync => table
  }

  function LiveKeys(db: Db, n: nat): set<nat> {
    set s | s in LiveOfNode(db.sessions, n) :: db.sessions[s].key
  }

  /** Only a command that has been delivered to its node can be executed or acknowledged by it. */
  predicate WasDelivered(db: Db, n: nat, i: nat) {
    i < |db.commands| && db.commands[i].node == n && db.commands[i].attempts >= 1
  }

  function Executed(sys: Sys, n: nat, i: nat, ok: bool): Sys {
    if !WasDelivered(sys.db, n, i) || !ok then sys
    else sys.(peers := sys.peers[n := PeerEffect(Table(sys, n), sys.db.commands[i])])
  }

  /** A handler read command `i` while it was open and is about to write the verdict `ok`. */
  predicate IsWriting(sys: Sys, p: nat, i: nat, ok: bool) {
    p in sys.ackers && sys.ackers[p] == Completing(i, ok)
  }

  /** How the handler goes on with the finished row `c` that completeCommand returned to it. */
  function Proceeding(ackers: map<nat, Acker>, p: nat, i: nat, c: Command, ok: bool): map<nat, Acker> {
    if c.session.Some? && c.kind.AddPeer? then ackers[p := Updating(i, c.session.value, ok)]
    else if c.session.Some? && c.kind.RemovePeer? && ok then ackers[p := Releasing(i, c.session.value, ok)]
    else ackers - {p}
  }

  /** An acknowledgement arrives: completeCommand reads the row and leaves a finished one alone. */
  function Acknowledged(sys: Sys, p: nat, n: nat, i: nat, ok: bool): Sys {
    if !WasDelivered(sys.db, n, i) || p in sys.ackers then sys
    else
      var c := sys.db.commands[i];
      sys.(ackers := if Open(c) then sys.ackers[p := Completing(i, ok)] else Proceeding(sys.ackers, p, i, c, ok),
           verdicts := if i in sys.verdicts then sys.verdicts else sys.verdicts[i := ok])
  }

  function Completed(sys: Sys, p: nat): Sys {
    if p !in sys.ackers || !sys.ackers[p].Completing? || sys.ackers[p].command >= |sys.db.commands| then sys
    else
      var i, ok := sys.ackers[p].command, sys.ackers[p].ok;
      sys.(db := Complete(sys.db, i, ok), ackers := Proceeding(sys.ackers, p, i, sys.db.commands[i], ok))
  }

  function Revoked(device: Device): Device {
    if device.active then device.(active := false, tokenVersion := device.tokenVersion + 1) else device
  }

  function CurrentSnapshot(snapshots: map<(nat, nat), nat>, d: nat, device: Device): map<(nat, nat), nat> {
    snapshots[(d, device.tokenVersion) := device.key]
  }

  function Connected(sys: Sys, u: nat, d: nat, version: nat, n: nat, plan: Plan): Sys {
    if (d, version) !in sys.snapshots then sys
    else
      var outcome := CreateSession(sys.db, u, d, version, sys.snapshots[(d, version)], n, plan);
      if outcome.Ok? then sys.(db := outcome.value) else sys
  }

  function WithDevice(sys: Sys, d: nat, device: Device): Sys {
    sys.(db := sys.db.(devices := sys.db.devices[d := device]),
         snapshots := CurrentSnapshot(sys.snapshots, d, device))
  }

  ghost function ApplyDevice(sys: Sys, step: DeviceStep): Sys {
    var db := sys.db;
    match step
    case AddDevice(d, u, key) =>
      if d in db.devices || !KeyFree(db, key) || (exists v :: (d, v) in sys.snapshots) then sys
      else WithDevice(sys, d, Device(u, key, true, 0))
    case RotateKey(d, key) =>
      if d !in db.devices || !db.devices[d].active || !KeyFree(db, key) || LiveOfDevice(db.sessions, d) != {} then sys
      else WithDevice(sys, d, db.devices[d].(key := key, tokenVersion := db.devices[d].tokenVersion + 1))
    case Reactivate(d) =>
      if d !in db.devices || db.devices[d].active then sys
      else WithDevice(sys, d, db.devices[d].(active := true, tokenVersion := db.devices[d].tokenVersion + 1))
    case AdminRevoke(d) =>
      if d !in db.devices then sys
      else WithDevice(sys, d, db.devices[d].(active := false))
    case RevokeDevice(d, order, now) =>
      if d !in db.devices || !Enumerates(order, LiveInScope(db, OfDevice(d))) then sys
      else
        var revoked := Revoked(db.devices[d]);
        WithDevice(sys.(db := CloseTogether(db, order, now)), d, revoked)
    case RemoveDevice(d) => sys.(db := DeleteDevice(db, d))
  }

  function Enqueued(sys: Sys, p: nat): Sys {
    if p !in sys.closers || !sys.closers[p].Enqueuing? then sys
    else
      var s := sys.closers[p].session;
      if s !in sys.db.sessions then sys.(closers := sys.closers - {p})
      else sys.(db := EnqueueRemove(sys.db, s), closers := sys.closers[p := Finishing(s)])
  }

  ghost function ApplyClose(sys: Sys, step: CloseStep): Sys {
    var db := sys.db;
    match step
    case CloseScope(scope, order, now) =>
      if !Enumerates(order, LiveInScope(db, scope)) then sys
      else sys.(db := CloseTogether(db, order, now))
    case CloserRead(p, s) =>
      if p in sys.closers || s !in db.sessions || !Live(db.sessions[s]) then sys
      else sys.(closers := sys.closers[p := Reading(s)])
    case CloserCheck(p) =>
      if p !in sys.closers || !sys.closers[p].Reading? then sys
      else
        var s := sys.closers[p].session;
        sys.(closers := sys.closers[p := if HasOpenRemove(db, s) then Finishing(s) else Enqueuing(s)])
    case CloserEnqueue(p) => Enqueued(sys, p)
    case CloserFinish(p, now) =>
      if p !in sys.closers || !sys.closers[p].Finishing? then sys
      else sys.(db := FinishClose(db, sys.closers[p].session, now), closers := sys.closers - {p})
  }

  function ApplyQueue(sys: Sys, step: QueueStep): Sys {
    match step
    case ClaimCancel(p, n) =>
      if p in sys.claimers then sys
      else sys.(db := CancelDead(sys.db, n), claimers := sys.claimers[p := n])
    case ClaimTake(p, now) =>
      if p !in sys.claimers then sys
      else sys.(db := TakeOldest(sys.db, sys.claimers[p], CLAIM_LIMIT, now), claimers := sys.claimers - {p})
    case Requeue(cutoff, maxAttempts) => sys.(db := RequeueStale(sys.db, cutoff, maxAttempts))
    case PolicyChange(n) => sys.(db := EnqueueSync(sys.db, n))
  }

  function ApplyAck(sys: Sys, step: AckStep): Sys {
    match step
    case Ack(p, n, i, ok) => Acknowledged(sys, p, n, i, ok)
    case AckWrite(p) => Completed(sys, p)
    case AckUpdate(p, now) =>
      if p !in sys.ackers || !sys.ackers[p].Updating? then sys
      else
        var a := sys.ackers[p];
        sys.(db := SettleSession(sys.db, a.session, a.ok, now),
             ackers := if a.ok then sys.ackers - {p} else sys.ackers[p := Releasing(a.command, a.session, a.ok)])
    case AckRelease(p) =>
      if p !in sys.ackers || !sys.ackers[p].Releasing? then sys
      else sys.(db := ReleaseLease(sys.db, sys.ackers[p].session), ackers := sys.ackers - {p})
  }

  function ApplyLease(sys: Sys, step: LeaseStep): Sys {
    match step
    case CreatePool(n, ips) => sys.(db := EnsurePool(sys.db, n, ips))
    case ReclaimSelect(p, cutoff) =>
      if p in sys.selections then sys
      else sys.(selections := sys.selections[p := StaleLeases(sys.db, cutoff)])
    case ReclaimFree(p) =>
      if p !in sys.selections then sys
      else sys.(db := FreeLeases(sys.db, sys.selections[p]), selections := sys.selections - {p})
  }

  function ApplyAgent(sys: Sys, step: AgentStep): Sys {
    match step
    case Execute(n, i, ok) => Executed(sys, n, i, ok)
    case ExecuteAndAck(p, n, i, ok) => Acknowledged(Executed(sys, n, i, ok), p, n, i, ok)
    case Report(n) => sys.(replies := sys.replies[n := Table(sys, n).Keys - LiveKeys(sys.db, n)])
    case ReportApply(n) =>
      if n !in sys.replies then sys
      else sys.(peers := sys.peers[n := Table(sys, n) - sys.replies[n]], replies := sys.replies - {n})
  }

  ghost function Apply(sys: Sys, step: Step): Sys {
    match step
    case Configure(maintenance, users, nodes) =>
      sys.(db := sys.db.(maintenance := maintenance, users := users, nodes := nodes))
    case Connect(u, d, version, n, plan) => Connected(sys, u, d, version, n, plan)
    case OnDevice(device) => ApplyDevice(sys, device)
    case OnClose(close) => ApplyClose(sys, close)
    case OnQueue(queue) => ApplyQueue(sys, queue)
    case OnAck(ack) => ApplyAck(sys, ack)
    case OnLease(lease) => ApplyLease(sys, lease)
    case OnAgent(agent) => ApplyAgent(sys, agent)
  }

  ghost function Run(sys: Sys, steps: seq<Step>): Sys
    decreases |steps|
  {
    if steps == [] then sys else Run(Apply(sys, steps[0]), steps[1..])
  }

  /** An installation before its first session: any users, nodes, devices and address pools. */
  ghost predicate Installed(sys: Sys) {
    var db := sys.db;
    && db.sessions == map[] && db.nextSession == 0 && db.commands == []
    && (forall l :: l in db.leases ==> db.leases[l].None?)
    && (forall d, e :: d in db.devices && e in db.devices && db.devices[d].key == db.devices[e].key ==> d == e)
    && sys.snapshots.Keys == (set d | d in db.devices :: (d, db.devices[d].tokenVersion))
    && (forall d :: d in db.devices ==> sys.snapshots[(d, db.devices[d].tokenVersion)] == db.devices[d].key)
    && sys.closers == map[] && sys.claimers == map[] && sys.ackers == map[] && sys.selections == map[] && sys.verdicts == map[]
    && sys.peers == map[] && sys.replies == map[]
  }

  lemma RunStep(sys: Sys, step: Step, rest: seq<Step>)
    ensures Run(sys, [step] + rest) == Run(Apply(sys, step), rest)
  {
    assert ([step] + rest)[1..] == rest;
  }

  /** `states` are the states the run goes through, the first and the last included. */
  ghost predicate Traces(states: seq<Sys>, steps: seq<Step>) {
    && |states| == |steps| + 1
    && forall k :: 0 <= k < |steps| ==> Apply(states[k], steps[k]) == states[k + 1]
  }

  lemma {:induction false} TraceReaches(states: seq<Sys>, steps: seq<Step>, k: nat)
    requires Traces(states, steps) && k <= |steps|
    ensures Run(states[0], steps[..k]) == states[k]
  {
    if k > 0 {
      TraceReaches(states, steps, k - 1);
      assert steps[..k] == steps[..k - 1] + [steps[k - 1]];
      RunAppend(states[0], steps[..k - 1], [steps[k - 1]]);
      assert Run(states[k - 1], [steps[k - 1]]) == Apply(states[k - 1], steps[k - 1]);
    }
  }

  lemma TraceIsRun(states: seq<Sys>, steps: seq<Step>)
    requires Traces(states, steps)
    ensures Run(states[0], steps) == states[|steps|]
  {
    TraceReaches(states, steps, |steps|);
    assert steps[..|steps|] == steps;
  }

  lemma {:induction false} RunAppend(sys: Sys, before: seq<Step>, after: seq<Step>)
    ensures Run(sys, before + after) == Run(Run(sys, before), after)
    decreases |before|
  {
    if before == [] {
      assert before + after == after;
    } else {
      assert (before + after)[1..] == before[1..] + after;
      RunAppend(Apply(sys, before[0]), before[1..], after);
    }
  }

  // ------------------------------------------------ what a step leaves alone ----

  /** `after` differs from `sys` in the rows, the snapshots and the closes under way at most. */
  predicate HandlersStay(sys: Sys, after: Sys) {
    && after.claimers == sys.claimers && after.selections == sys.selections
    && after.ackers == sys.ackers && after.verdicts == sys.verdicts
    && after.peers == sys.peers && after.replies == sys.replies
  }

  lemma DevicesChange(sys: Sys, step: DeviceStep)
    ensures HandlersStay(sys, ApplyDevice(sys, step)) && ApplyDevice(sys, step).closers == sys.closers
  {
    DeviceRowsAreRows(sys);
    match step
    case AddDevice(_, _, _) => RowChanges(sys, step);
    case RotateKey(_, _) => RowChanges(sys, step);
    case Reactivate(_) => RowChanges(sys, step);
    case AdminRevoke(_) => RowChanges(sys, step);
    case RevokeDevice(d, order, now) => RevokingChanges(sys, d, order, now);
    case RemoveDevice(_) =>
  }

  lemma RevokingChanges(sys: Sys, d: nat, order: seq<nat>, now: int)
    ensures
      var after := ApplyDevice(sys, RevokeDevice(d, order, now));
      HandlersStay(sys, after) && after.closers == sys.closers
  {
    if d in sys.db.devices && Enumerates(order, LiveInScope(sys.db, OfDevice(d))) {
      DeviceRowsAreRows(sys.(db := CloseTogether(sys.db, order, now)));
    }
  }

  lemma RowChanges(sys: Sys, step: DeviceStep)
    requires !step.RevokeDevice? && !step.RemoveDevice?
    ensures ApplyDevice(sys, step) == sys || exists d, device :: ApplyDevice(sys, step) == WithDevice(sys, d, device)
  {
  }

  lemma DeviceRowsAreRows(sys: Sys)
    ensures forall d, device :: HandlersStay(sys, WithDevice(sys, d, device)) && WithDevice(sys, d, device).closers == sys.closers
  {
  }

  lemma ClosersChange(sys: Sys, step: CloseStep)
    ensures HandlersStay(sys, ApplyClose(sys, step)) && ApplyClose(sys, step).snapshots == sys.snapshots
  {
    ClosersAndRows(sys, step);
  }

  lemma ClosersAndRows(sys: Sys, step: CloseStep)
    ensures
      var after := ApplyClose(sys, step);
      after == sys || after == sys.(db := after.db, closers := after.closers)
  {
    match step
    case CloseScope(_, _, _) =>
    case CloserRead(_, _) =>
    case CloserCheck(_) =>
    case CloserEnqueue(p) => assert Enqueued(sys, p) == sys || Enqueued(sys, p) == sys.(db := Enqueued(sys, p).db, closers := Enqueued(sys, p).closers);
    case CloserFinish(_, _) =>
  }

  /** Until its last statement a closeSession writes commands only. */
  predicate OnlyQueues(db: Db, after: Db) {
    after == db.(commands := after.commands)
  }

  lemma WaitingTouchesNoRow(sys: Sys, step: CloseStep)
    requires step.CloserRead? || step.CloserCheck? || step.CloserEnqueue?
    ensures OnlyQueues(sys.db, ApplyClose(sys, step).db)
  {
    match step
    case CloserRead(_, _) =>
    case CloserCheck(_) =>
    case CloserEnqueue(p) => EnqueueTouchesNoRow(sys, p);
  }

  lemma EnqueueTouchesNoRow(sys: Sys, p: nat)
    ensures OnlyQueues(sys.db, Enqueued(sys, p).db)
  {
    if p in sys.closers && sys.closers[p].Enqueuing? {
      assert OnlyQueues(sys.db, EnqueueRemove(sys.db, sys.closers[p].session));
    }
  }

  lemma QueueChanges(sys: Sys, step: QueueStep)
    ensures
      var after := ApplyQueue(sys, step);
      after == sys.(db := after.db, claimers := after.claimers)
  {
  }

  lemma AcksChange(sys: Sys, step: AckStep)
    ensures
      var after := ApplyAck(sys, step);
      after == sys.(db := after.db, ackers := after.ackers, verdicts := after.verdicts)
  {
  }

  lemma LeasesChange(sys: Sys, step: LeaseStep)
    ensures
      var after := ApplyLease(sys, step);
      after == sys.(db := sys.db.(leases := after.db.leases), selections := after.selections)
  {
  }

  /** Rows and whatever is not an agent's or an acknowledgement's stay. */
  predicate OnlyNodes(sys: Sys, after: Sys) {
    && after.db == sys.db && after.snapshots == sys.snapshots && after.closers == sys.closers
    && after.claimers == sys.claimers && after.selections == sys.selections
  }

  lemma ExecutingChanges(sys: Sys, n: nat, i: nat, ok: bool)
    ensures OnlyNodes(sys, Executed(sys, n, i, ok))
  {
  }

  lemma AcknowledgingChanges(sys: Sys, p: nat, n: nat, i: nat, ok: bool)
    ensures OnlyNodes(sys, Acknowledged(sys, p, n, i, ok))
  {
    var after := Acknowledged(sys, p, n, i, ok);
    assert after == sys || after == sys.(ackers := after.ackers, verdicts := after.verdicts);
  }

  lemma AgentsChange(sys: Sys, step: AgentStep)
    ensures OnlyNodes(sys, ApplyAgent(sys, step))
  {
    match step
    case Execute(n, i, ok) => ExecutingChanges(sys, n, i, ok);
    case ExecuteAndAck(p, n, i, ok) =>
      ExecutingChanges(sys, n, i, ok);
      AcknowledgingChanges(Executed(sys, n, i, ok), p, n, i, ok);
    case Report(_) =>
    case ReportApply(_) =>
  }

  /** Which part of the system belongs to which steps. */
  lemma StepFrame(sys: Sys, step: Step)
    ensures
      var after := Apply(sys, step);
      && (!step.OnClose? ==> after.closers == sys.closers)
      && (!step.OnQueue? ==> after.claimers == sys.claimers)
      && (!step.OnLease? ==> after.selections == sys.selections)
      && (!step.OnAck? && !step.OnAgent? ==> after.ackers == sys.ackers && after.verdicts == sys.verdicts)
      && (!step.OnAgent? ==> after.peers == sys.peers && after.replies == sys.replies)
      && (step.OnAgent? ==> after.db == sys.db)
  {
    match step
    case Configure(_, _, _) =>
    case Connect(u, d, version, n, plan) => assert Connected(sys, u, d, version, n, plan) == sys.(db := Connected(sys, u, d, version, n, plan).db);
    case OnDevice(device) => DevicesChange(sys, device);
    case OnClose(close) => ClosersChange(sys, close);
    case OnQueue(queue) => QueueChanges(sys, queue);
    case OnAck(ack) => AcksChange(sys, ack);
    case OnLease(lease) => LeasesChange(sys, lease);
    case OnAgent(agent) => AgentsChange(sys, agent);
  }
}
