/**
 * The maintenance gate and the row locks, one step per lock acquisition, check and commit.
 *
 * Opening a session holds the advisory gate in shared mode and then a user row and a node row;
 * settings and node maintenance take the gate exclusively; revoking one's device takes it shared plus
 * the user row; registering a device takes the user row only. A transaction's writes appear at its
 * commit, and its locks are released with it. An administrator's revocation takes no lock: it reads the
 * device, lists its sessions, closes them one by one and writes the status, each in a statement of its
 * own. Sessions can be closed by anybody at any time.
 */
module Gate {
  import opened Rows
  import Plane

  datatype Tunnel = Tunnel(user: nat, device: nat, node: nat, key: nat, live: bool)

  datatype Station = Station(maintenance: bool, capacity: nat)

  datatype Credential = Credential(user: nat, key: nat, version: nat, active: bool)

  /** What a connecting transaction has behind it; every stage includes the ones before. */
  datatype Stage = Begun | GateShared | UserLocked | NodeLocked | RowsRead | ServiceOpen | UserHasRoom | DeviceIdle | NodeHasRoom

  datatype Phase = Waiting | Holding | Matched | Listed(rows: set<nat>)

  datatype RevokePhase = RevokeBegun | RevokeGate | RevokeUser | RevokeListed(rows: set<nat>)

  /** `left` are the listed sessions that are not closed yet. */
  datatype WithdrawPhase = WithdrawBegun | WithdrawRead | WithdrawListed(left: set<nat>)

  datatype RegisterPhase = RegisterBegun | RegisterUser | RegisterChosen(rotating: bool)

  datatype Proc =
    | Connecting(user: nat, device: nat, node: nat, version: nat, key: nat, stage: Stage)
    | Updating(expected: nat, maintenance: Option<bool>, update: Phase)
    | Toggling(node: nat, enabled: bool, toggle: Phase)
    | Revoking(user: nat, device: nat, revoke: RevokePhase)
    | Withdrawing(device: nat, withdraw: WithdrawPhase)
    | Registering(user: nat, device: nat, newKey: nat, register: RegisterPhase)

  datatype State = State(
    maintenance: bool,
    version: nat,
    nodes: map<nat, Station>,
    /** Sessions each account may hold at once. */
    allowance: map<nat, nat>,
    devices: map<nat, Credential>,
    sessions: map<nat, Tunnel>,
    nextSession: nat,
    procs: map<nat, Proc>,
    /** The expected versions of the settings updates that succeeded, in order. */
    updates: seq<nat>,
    /** Devices whose last change of status was a revocation by their owner. */
    revoked: set<nat>)

  datatype Step =
    | Start(p: nat, proc: Proc)
    | Advance(p: nat)
    | Abort(p: nat)
    | CloseSession(s: nat)
    | AddDevice(d: nat, u: nat, key: nat)

  function Rank(stage: Stage): nat {
    match stage
    case Begun => 0
    case GateShared => 1
    case UserLocked => 2
    case NodeLocked => 3
    case RowsRead => 4
    case ServiceOpen => 5
    case UserHasRoom => 6
    case DeviceIdle => 7
    case NodeHasRoom => 8
  }

  predicate Reached(proc: Proc, stage: Stage) {
    proc.Connecting? && Rank(proc.stage) >= Rank(stage)
  }

  // --------------------------------------------------------------- locks ----

  predicate HoldsGate(proc: Proc) {
    HoldsExclusive(proc) || Reached(proc, GateShared) || (proc.Revoking? && !proc.revoke.RevokeBegun?)
  }

  predicate HoldsExclusive(proc: Proc) {
    (proc.Updating? && !proc.update.Waiting?) || (proc.Toggling? && !proc.toggle.Waiting?)
  }

  predicate HoldsUser(proc: Proc, u: nat) {
    || (Reached(proc, UserLocked) && proc.user == u)
    || (proc.Revoking? && (proc.revoke.RevokeUser? || proc.revoke.RevokeListed?) && proc.user == u)
    || (proc.Registering? && !proc.register.RegisterBegun? && proc.user == u)
  }

  predicate HoldsNode(proc: Proc, n: nat) {
    Reached(proc, NodeLocked) && proc.node == n
  }

  predicate GateFree(sys: State) {
    forall q :: q in sys.procs ==> !HoldsGate(sys.procs[q])
  }

  predicate ExclusiveFree(sys: State) {
    forall q :: q in sys.procs ==> !HoldsExclusive(sys.procs[q])
  }

  predicate UserFree(sys: State, u: nat) {
    forall q :: q in sys.procs ==> !HoldsUser(sys.procs[q], u)
  }

  predicate NodeFree(sys: State, n: nat) {
    forall q :: q in sys.procs ==> !HoldsNode(sys.procs[q], n)
  }

  // --------------------------------------------------------------- steps ----

  function OfUser(sessions: map<nat, Tunnel>, u: nat): set<nat> {
    set s | s in sessions && sessions[s].live && sessions[s].user == u
  }

  function OfDevice(sessions: map<nat, Tunnel>, d: nat): set<nat> {
    set s | s in sessions && sessions[s].live && sessions[s].device == d
  }

  function OfNode(sessions: map<nat, Tunnel>, n: nat): set<nat> {
    set s | s in sessions && sessions[s].live && sessions[s].node == n
  }

  function AllLive(sessions: map<nat, Tunnel>): set<nat> {
    set s | s in sessions && sessions[s].live
  }

  function Closed(sessions: map<nat, Tunnel>, rows: set<nat>): map<nat, Tunnel> {
    map s | s in sessions :: if s in rows then sessions[s].(live := false) else sessions[s]
  }

  function Goes(sys: State, p: nat, proc: Proc): State {
    sys.(procs := sys.procs[p := proc])
  }

  function Ends(sys: State, p: nat): State {
    sys.(procs := sys.procs - {p})
  }

  /** The checks of the transaction, in its order, once it has its three locks. */
  predicate Passes(sys: State, proc: Proc)
    requires Reached(proc, NodeLocked)
  {
    var u, d, n := proc.user, proc.device, proc.node;
    match proc.stage
    case NodeLocked =>
      && u in sys.allowance && n in sys.nodes && !sys.nodes[n].maintenance
      && d in sys.devices && sys.devices[d].active && sys.devices[d].version == proc.version
    case RowsRead => !sys.maintenance
    case ServiceOpen => u in sys.allowance && |OfUser(sys.sessions, u)| < sys.allowance[u]
    case UserHasRoom => OfDevice(sys.sessions, d) == {}
    case DeviceIdle => n in sys.nodes && |OfNode(sys.sessions, n)| < sys.nodes[n].capacity
    case _ => true
  }

  function Next(stage: Stage): Stage {
    match stage
    case Begun => GateShared
    case GateShared => UserLocked
    case UserLocked => NodeLocked
    case NodeLocked => RowsRead
    case RowsRead => ServiceOpen
    case ServiceOpen => UserHasRoom
    case UserHasRoom => DeviceIdle
    case DeviceIdle => NodeHasRoom
    case NodeHasRoom => NodeHasRoom
  }

  ghost function AdvanceConnect(sys: State, p: nat, proc: Proc): State
    requires proc.Connecting?
  {
    var next := Goes(sys, p, proc.(stage := Next(proc.stage)));
    match proc.stage
    case Begun => if ExclusiveFree(sys) then next else sys
    case GateShared => if UserFree(sys, proc.user) then next else sys
    case UserLocked => if NodeFree(sys, proc.node) then next else sys
    case NodeHasRoom => Ends(Opened(sys, proc), p)
    case _ => if Passes(sys, proc) then next else Ends(sys, p)
  }

  function Opened(sys: State, proc: Proc): State
    requires proc.Connecting?
  {
    sys.(sessions := sys.sessions[sys.nextSession := Tunnel(proc.user, proc.device, proc.node, proc.key, true)],
         nextSession := sys.nextSession + 1)
  }

  function AdvanceUpdate(sys: State, p: nat, proc: Proc): State
    requires proc.Updating?
  {
    match proc.update
    case Waiting => if GateFree(sys) then Goes(sys, p, proc.(update := Holding)) else sys
    case Holding => if sys.version != proc.expected then Ends(sys, p) else Goes(sys, p, proc.(update := Matched))
    case Matched =>
      Goes(sys, p, proc.(update := Listed(if proc.maintenance == Some(true) then AllLive(sys.sessions) else {})))
    case Listed(rows) =>
      Ends(Switched(sys.(sessions := Closed(sys.sessions, rows)),
                    if proc.maintenance.Some? then proc.maintenance.value else sys.maintenance,
                    sys.nodes, sys.version + 1, sys.updates + [proc.expected]), p)
  }

  function Switched(sys: State, maintenance: bool, nodes: map<nat, Station>, version: nat, updates: seq<nat>): State {
    sys.(maintenance := maintenance, nodes := nodes, version := version, updates := updates)
  }

  function AdvanceToggle(sys: State, p: nat, proc: Proc): State
    requires proc.Toggling?
  {
    match proc.toggle
    case Waiting => if GateFree(sys) then Goes(sys, p, proc.(toggle := Holding)) else sys
    case Holding => if proc.node !in sys.nodes then Ends(sys, p) else Goes(sys, p, proc.(toggle := Matched))
    case Matched => Goes(sys, p, proc.(toggle := Listed(if proc.enabled then OfNode(sys.sessions, proc.node) else {})))
    case Listed(rows) =>
      if proc.node !in sys.nodes then Ends(sys, p)
      else Ends(Switched(sys.(sessions := Closed(sys.sessions, rows)), sys.maintenance,
                         sys.nodes[proc.node := sys.nodes[proc.node].(maintenance := proc.enabled)],
                         sys.version, sys.updates), p)
  }

  function AdvanceRevoke(sys: State, p: nat, proc: Proc): State
    requires proc.Revoking?
  {
    var d := proc.device;
    match proc.revoke
    case RevokeBegun => if ExclusiveFree(sys) then Goes(sys, p, proc.(revoke := RevokeGate)) else sys
    case RevokeGate => if UserFree(sys, proc.user) then Goes(sys, p, proc.(revoke := RevokeUser)) else sys
    case RevokeUser =>
      if d !in sys.devices || sys.devices[d].user != proc.user then Ends(sys, p)
      else Goes(sys, p, proc.(revoke := RevokeListed(OfDevice(sys.sessions, d))))
    case RevokeListed(rows) =>
      if d !in sys.devices then Ends(sys, p)
      else
        Ends(Rewritten(sys.(sessions := Closed(sys.sessions, rows)), d, Retired(sys.devices[d]), sys.revoked + {d}), p)
  }

  ghost function AdvanceWithdraw(sys: State, p: nat, proc: Proc): State
    requires proc.Withdrawing?
  {
    var d := proc.device;
    match proc.withdraw
    case WithdrawBegun =>
      if d !in sys.devices || !sys.devices[d].active then Ends(sys, p)
      else Goes(sys, p, proc.(withdraw := WithdrawRead))
    case WithdrawRead => Goes(sys, p, proc.(withdraw := WithdrawListed(OfDevice(sys.sessions, d))))
    case WithdrawListed(left) =>
      if left != {} then
        var s :| s in left;
        Goes(sys.(sessions := Closed(sys.sessions, {s})), p, proc.(withdraw := WithdrawListed(left - {s})))
      else if d !in sys.devices then Ends(sys, p)
      else Ends(Withdrawn(sys, d), p)
  }

  /** The status write at the end: no lock, no condition. */
  function Withdrawn(sys: State, d: nat): State
    requires d in sys.devices
  {
    sys.(devices := sys.devices[d := sys.devices[d].(active := false)])
  }

  predicate KeyTaken(devices: map<nat, Credential>, key: nat) {
    exists e :: e in devices && devices[e].key == key
  }

  function Retired(device: Credential): Credential {
    if device.active then device.(active := false, version := device.version + 1) else device
  }

  function Rewritten(sys: State, d: nat, device: Credential, revoked: set<nat>): State {
    sys.(devices := sys.devices[d := device], revoked := revoked)
  }

  ghost function AdvanceRegister(sys: State, p: nat, proc: Proc): State
    requires proc.Registering?
  {
    var d := proc.device;
    match proc.register
    case RegisterBegun => if UserFree(sys, proc.user) then Goes(sys, p, proc.(register := RegisterUser)) else sys
    case RegisterUser =>
      if d !in sys.devices || sys.devices[d].user != proc.user then Ends(sys, p)
      else if !sys.devices[d].active then Goes(sys, p, proc.(register := RegisterChosen(false)))
      else if OfDevice(sys.sessions, d) != {} then Ends(sys, p)
      else Goes(sys, p, proc.(register := RegisterChosen(true)))
    case RegisterChosen(rotating) =>
      if d !in sys.devices then Ends(sys, p)
      else if rotating then
        if KeyTaken(sys.devices, proc.newKey) then Ends(sys, p)
        else Ends(Rewritten(sys, d, sys.devices[d].(key := proc.newKey, version := sys.devices[d].version + 1), sys.revoked), p)
      else
        Ends(Rewritten(sys, d, sys.devices[d].(active := true, version := sys.devices[d].version + 1), sys.revoked - {d}), p)
  }

  ghost function Advanced(sys: State, p: nat): State
    requires p in sys.procs
  {
    var proc := sys.procs[p];
    match proc
    case Connecting(_, _, _, _, _, _) => AdvanceConnect(sys, p, proc)
    case Updating(_, _, _) => AdvanceUpdate(sys, p, proc)
    case Toggling(_, _, _) => AdvanceToggle(sys, p, proc)
    case Revoking(_, _, _) => AdvanceRevoke(sys, p, proc)
    case Withdrawing(_, _) => AdvanceWithdraw(sys, p, proc)
    case Registering(_, _, _, _) => AdvanceRegister(sys, p, proc)
  }

  /** A process starts without locks; a connect carries the device row its request was authenticated with. */
  predicate AtStart(sys: State, proc: Proc) {
    match proc
    case Connecting(u, d, n, version, key, stage) =>
      stage.Begun? && d in sys.devices && sys.devices[d].user == u && sys.devices[d].version == version && sys.devices[d].key == key
    case Updating(_, _, phase) => phase.Waiting?
    case Toggling(_, _, phase) => phase.Waiting?
    case Revoking(_, _, revoke) => revoke.RevokeBegun?
    case Withdrawing(_, withdraw) => withdraw.WithdrawBegun?
    case Registering(_, _, _, register) => register.RegisterBegun?
  }

  ghost function Apply(sys: State, step: Step): State {
    match step
    case Start(p, proc) => if p in sys.procs || !AtStart(sys, proc) then sys else Goes(sys, p, proc)
    case Advance(p) => if p in sys.procs then Advanced(sys, p) else sys
    case Abort(p) => Ends(sys, p)
    case CloseSession(s) => sys.(sessions := Closed(sys.sessions, {s}))
    case AddDevice(d, u, key) =>
      if d in sys.devices || KeyTaken(sys.devices, key) || Mentioned(sys, d) then sys
      else sys.(devices := sys.devices[d := Credential(u, key, 0, true)])
  }

  /** Device ids are not reused: no session and no process knows `d`. */
  predicate Mentioned(sys: State, d: nat) {
    || (exists s :: s in sys.sessions && sys.sessions[s].device == d)
    || (exists p :: p in sys.procs && sys.procs[p].Connecting? && sys.procs[p].device == d)
    || d in sys.revoked
  }

  ghost function Run(sys: State, steps: seq<Step>): State
    decreases |steps|
  {
    if steps == [] then sys else Run(Apply(sys, steps[0]), steps[1..])
  }

  predicate Initial(sys: State) {
    && sys.sessions == map[] && sys.nextSession == 0 && sys.procs == map[] && sys.version == 0 && sys.updates == [] && sys.revoked == {}
    && forall d, e :: d in sys.devices && e in sys.devices && sys.devices[d].key == sys.devices[e].key ==> d == e
  }

  // ---------------------------------------------------------- invariants ----

  predicate MaintenanceHolds(sys: State) {
    && (sys.maintenance ==> AllLive(sys.sessions) == {})
    && (forall n :: n in sys.nodes && sys.nodes[n].maintenance ==> OfNode(sys.sessions, n) == {})
  }

  predicate OneLivePerDevice(sessions: map<nat, Tunnel>) {
    forall s, t :: s in sessions && t in sessions && sessions[s].live && sessions[t].live ==>
      sessions[s].device == sessions[t].device ==> s == t
  }

  predicate WithinLimits(sys: State) {
    && (forall u :: u in sys.allowance ==> |OfUser(sys.sessions, u)| <= sys.allowance[u])
    && (forall n :: n in sys.nodes ==> |OfNode(sys.sessions, n)| <= sys.nodes[n].capacity)
    && OneLivePerDevice(sys.sessions)
  }

  /** Every live session was opened with the key its device has now, and revoked devices have none. */
  predicate CredentialsHold(sys: State) {
    && (forall s :: s in sys.sessions && sys.sessions[s].live ==>
          var d := sys.sessions[s].device;
          d in sys.devices && sys.sessions[s].key == sys.devices[d].key && sys.sessions[s].user == sys.devices[d].user)
    && (forall d :: d in sys.revoked ==> d in sys.devices && !sys.devices[d].active && OfDevice(sys.sessions, d) == {})
    && (forall d, e :: d in sys.devices && e in sys.devices && sys.devices[d].key == sys.devices[e].key ==> d == e)
  }

  predicate UpdatesInTurn(sys: State) {
    |sys.updates| == sys.version && forall i :: 0 <= i < |sys.updates| ==> sys.updates[i] == i
  }

  ghost predicate LocksExclude(sys: State) {
    forall p, q :: p in sys.procs && q in sys.procs && p != q ==> Compatible(sys.procs[p], sys.procs[q])
  }

  ghost predicate Compatible(a: Proc, b: Proc) {
    && !(HoldsExclusive(a) && HoldsGate(b))
    && !(HoldsGate(a) && HoldsExclusive(b))
    && (forall u :: !(HoldsUser(a, u) && HoldsUser(b, u)))
    && (forall n :: !(HoldsNode(a, n) && HoldsNode(b, n)))
  }

  /** What a process has checked is still so. */
  predicate StillTrue(sys: State, proc: Proc) {
    match proc
    case Connecting(u, d, n, version, key, _) =>
      && d in sys.devices && sys.devices[d].user == u && version <= sys.devices[d].version
      && (version == sys.devices[d].version ==> key == sys.devices[d].key)
      && (Reached(proc, RowsRead) ==>
            n in sys.nodes && !sys.nodes[n].maintenance && u in sys.allowance && version == sys.devices[d].version && d !in sys.revoked)
      && (Reached(proc, ServiceOpen) ==> !sys.maintenance)
      && (Reached(proc, UserHasRoom) ==> |OfUser(sys.sessions, u)| < sys.allowance[u])
      && (Reached(proc, DeviceIdle) ==> OfDevice(sys.sessions, d) == {})
      && (Reached(proc, NodeHasRoom) ==> |OfNode(sys.sessions, n)| < sys.nodes[n].capacity)
    case Updating(expected, maintenance, phase) =>
      && (phase.Matched? || phase.Listed? ==> sys.version == expected)
      && (phase.Listed? && maintenance == Some(true) ==> AllLive(sys.sessions) <= phase.rows)
      && (phase.Listed? && maintenance == Some(true) ==> phase.rows <= sys.sessions.Keys)
    case Toggling(n, enabled, phase) =>
      phase.Listed? && enabled ==> OfNode(sys.sessions, n) <= phase.rows
    case Revoking(u, d, revoke) =>
      revoke.RevokeListed? ==> d in sys.devices && sys.devices[d].user == u && OfDevice(sys.sessions, d) <= revoke.rows
    case Withdrawing(_, _) => true
    case Registering(u, d, _, register) =>
      register.RegisterChosen? ==>
        d in sys.devices && sys.devices[d].user == u && (register.rotating ==> OfDevice(sys.sessions, d) == {} && d !in sys.revoked)
  }

  predicate ChecksStillTrue(sys: State) {
    forall p :: p in sys.procs ==> StillTrue(sys, sys.procs[p])
  }

  predicate IdsIssued(sys: State) {
    forall s :: s in sys.sessions ==> s < sys.nextSession
  }

  ghost predicate Inv(sys: State) {
    IdsIssued(sys) && MaintenanceHolds(sys) && WithinLimits(sys) && CredentialsHold(sys) && UpdatesInTurn(sys) && LocksExclude(sys) && ChecksStillTrue(sys)
  }

  // ------------------------------------------------------- preservation ----

  lemma GoesKeeps(sys: State, p: nat, proc: Proc)
    requires Inv(sys) && StillTrue(sys, proc)
    requires forall q :: q in sys.procs && q != p ==> Compatible(proc, sys.procs[q]) && Compatible(sys.procs[q], proc)
    ensures Inv(Goes(sys, p, proc))
  {
    var after := Goes(sys, p, proc);
    forall q | q in after.procs ensures StillTrue(after, after.procs[q]) {
      assert q != p ==> StillTrue(sys, sys.procs[q]);
    }
  }

  lemma EndsKeeps(sys: State, p: nat)
    requires Inv(sys)
    ensures Inv(Ends(sys, p))
  {
    var after := Ends(sys, p);
    forall q | q in after.procs ensures StillTrue(after, after.procs[q]) {
      assert StillTrue(sys, sys.procs[q]);
    }
  }

  /** Closing sessions never invalidates anything. */
  lemma ClosingKeeps(sys: State, rows: set<nat>)
    requires Inv(sys)
    ensures Inv(sys.(sessions := Closed(sys.sessions, rows)))
  {
    var after := sys.(sessions := Closed(sys.sessions, rows));
    assert AllLive(after.sessions) <= AllLive(sys.sessions);
    forall u ensures OfUser(after.sessions, u) <= OfUser(sys.sessions, u) && |OfUser(after.sessions, u)| <= |OfUser(sys.sessions, u)| {
      SubsetSize(OfUser(after.sessions, u), OfUser(sys.sessions, u));
    }
    forall n ensures OfNode(after.sessions, n) <= OfNode(sys.sessions, n) && |OfNode(after.sessions, n)| <= |OfNode(sys.sessions, n)| {
      SubsetSize(OfNode(after.sessions, n), OfNode(sys.sessions, n));
    }
    forall d ensures OfDevice(after.sessions, d) <= OfDevice(sys.sessions, d) {}
    forall q | q in after.procs ensures StillTrue(after, after.procs[q]) {
      assert StillTrue(sys, sys.procs[q]);
    }
  }

  lemma LiveAfterClosing(sessions: map<nat, Tunnel>, rows: set<nat>)
    ensures AllLive(Closed(sessions, rows)) == AllLive(sessions) - rows
    ensures forall n :: OfNode(Closed(sessions, rows), n) == OfNode(sessions, n) - rows
    ensures forall d :: OfDevice(Closed(sessions, rows), d) == OfDevice(sessions, d) - rows
  {
  }

  lemma {:induction false} SubsetSize(a: set<nat>, b: set<nat>)
    requires a <= b
    ensures |a| <= |b|
    decreases a
  {
    if a != {} {
      var x :| x in a;
      SubsetSize(a - {x}, b - {x});
    }
  }

  lemma Added(before: set<nat>, after: set<nat>, s: nat)
    requires after <= before + {s}
    ensures |after| <= |before| + 1
  {
    SubsetSize(after, before + {s});
  }

  // ----------------------------------------------------- opening a session ----

  predicate Fitted(sys: State, p: nat) {
    p in sys.procs && sys.procs[p].Connecting? && sys.procs[p].stage.NodeHasRoom?
  }

  lemma LiveAfterOpening(sys: State, proc: Proc)
    requires proc.Connecting? && IdsIssued(sys)
    ensures
      var before, after, s := sys.sessions, Opened(sys, proc).sessions, sys.nextSession;
      && (forall u :: OfUser(after, u) == if u == proc.user then OfUser(before, u) + {s} else OfUser(before, u))
      && (forall d :: OfDevice(after, d) == if d == proc.device then OfDevice(before, d) + {s} else OfDevice(before, d))
      && (forall n :: OfNode(after, n) == if n == proc.node then OfNode(before, n) + {s} else OfNode(before, n))
      && AllLive(after) == AllLive(before) + {s}
  {
  }

  lemma FittedMeans(sys: State, p: nat)
    requires Inv(sys) && Fitted(sys, p)
    ensures
      var proc := sys.procs[p];
      && !sys.maintenance && proc.node in sys.nodes && !sys.nodes[proc.node].maintenance
      && proc.user in sys.allowance && |OfUser(sys.sessions, proc.user)| < sys.allowance[proc.user]
      && OfDevice(sys.sessions, proc.device) == {}
      && |OfNode(sys.sessions, proc.node)| < sys.nodes[proc.node].capacity
      && proc.device in sys.devices && sys.devices[proc.device].version == proc.version && sys.devices[proc.device].key == proc.key
  {
    assert StillTrue(sys, sys.procs[p]);
  }

  lemma OpeningKeepsMaintenance(sys: State, proc: Proc)
    requires MaintenanceHolds(sys) && proc.Connecting? && IdsIssued(sys)
    requires !sys.maintenance && proc.node in sys.nodes && !sys.nodes[proc.node].maintenance
    ensures MaintenanceHolds(Opened(sys, proc))
  {
    LiveAfterOpening(sys, proc);
  }

  lemma OpeningKeepsLimits(sys: State, proc: Proc)
    requires WithinLimits(sys) && proc.Connecting? && IdsIssued(sys)
    requires proc.user in sys.allowance && |OfUser(sys.sessions, proc.user)| < sys.allowance[proc.user]
    requires proc.node in sys.nodes && |OfNode(sys.sessions, proc.node)| < sys.nodes[proc.node].capacity
    requires OfDevice(sys.sessions, proc.device) == {}
    ensures WithinLimits(Opened(sys, proc))
  {
    var after, s := Opened(sys, proc), sys.nextSession;
    LiveAfterOpening(sys, proc);
    Added(OfUser(sys.sessions, proc.user), OfUser(after.sessions, proc.user), s);
    Added(OfNode(sys.sessions, proc.node), OfNode(after.sessions, proc.node), s);
    StillOnePerDevice(sys, proc);
  }

  lemma StillOnePerDevice(sys: State, proc: Proc)
    requires proc.Connecting? && OneLivePerDevice(sys.sessions) && OfDevice(sys.sessions, proc.device) == {}
    ensures OneLivePerDevice(Opened(sys, proc).sessions)
  {
    forall t | t in sys.sessions && sys.sessions[t].live ensures sys.sessions[t].device != proc.device {
      assert t in OfDevice(sys.sessions, sys.sessions[t].device);
    }
  }

  lemma OpeningKeepsCredentials(sys: State, proc: Proc)
    requires CredentialsHold(sys) && proc.Connecting? && IdsIssued(sys) && proc.device in sys.devices && proc.device !in sys.revoked
    requires sys.devices[proc.device].key == proc.key && sys.devices[proc.device].user == proc.user
    ensures CredentialsHold(Opened(sys, proc))
  {
    LiveAfterOpening(sys, proc);
  }

  /** The locks it holds are what lets a connect rely on its checks until it commits. */
  lemma OpeningKeepsChecks(sys: State, proc: Proc, other: Proc)
    requires proc.Connecting? && IdsIssued(sys) && proc.stage.NodeHasRoom? && Compatible(proc, other) && StillTrue(sys, other)
    requires proc.device in sys.devices && sys.devices[proc.device].user == proc.user
    ensures StillTrue(Opened(sys, proc), other)
  {
    LiveAfterOpening(sys, proc);
    assert HoldsGate(proc) && HoldsUser(proc, proc.user) && HoldsNode(proc, proc.node);
    assert !HoldsUser(other, proc.user) && !HoldsNode(other, proc.node) && !HoldsExclusive(other);
    match other
    case Connecting(u, d, n, _, _, _) =>
      assert Reached(other, UserHasRoom) ==> u != proc.user;
      assert Reached(other, NodeHasRoom) ==> n != proc.node;
    case Updating(_, _, _) =>
    case Toggling(_, _, _) =>
    case Revoking(_, _, _) =>
    case Withdrawing(_, _) =>
    case Registering(_, _, _, _) =>
  }

  lemma OpeningKeeps(sys: State, p: nat)
    requires Inv(sys) && Fitted(sys, p)
    ensures Inv(Ends(Opened(sys, sys.procs[p]), p))
  {
    var after := Ends(Opened(sys, sys.procs[p]), p);
    FittedMeans(sys, p);
    OpeningKeepsMaintenance(sys, sys.procs[p]);
    OpeningKeepsLimits(sys, sys.procs[p]);
    assert StillTrue(sys, sys.procs[p]);
    OpeningKeepsCredentials(sys, sys.procs[p]);
    forall q | q in after.procs ensures StillTrue(after, after.procs[q]) {
      assert StillTrue(sys, sys.procs[q]) && StillTrue(sys, sys.procs[p]) && Compatible(sys.procs[p], sys.procs[q]);
      OpeningKeepsChecks(sys, sys.procs[p], sys.procs[q]);
    }
  }

  /** A connect moves to a stage that takes no further lock. */
  lemma ClimbKeeps(sys: State, p: nat, next: Proc)
    requires Inv(sys) && p in sys.procs && Reached(sys.procs[p], NodeLocked) && StillTrue(sys, next)
    requires next.Connecting? && next == sys.procs[p].(stage := next.stage) && Reached(next, NodeLocked)
    ensures Inv(Goes(sys, p, next))
  {
    var proc := sys.procs[p];
    forall q | q in sys.procs && q != p ensures Compatible(next, sys.procs[q]) && Compatible(sys.procs[q], next) {
      assert Compatible(proc, sys.procs[q]) && Compatible(sys.procs[q], proc);
      assert forall u :: HoldsUser(next, u) <==> HoldsUser(proc, u);
      assert forall n :: HoldsNode(next, n) <==> HoldsNode(proc, n);
    }
    GoesKeeps(sys, p, next);
  }

  lemma LockingKeeps(sys: State, p: nat, next: Proc)
    requires Inv(sys) && p in sys.procs && sys.procs[p].Connecting?
    requires next.Connecting? && next == sys.procs[p].(stage := next.stage)
    requires
      || (next.stage.GateShared? && ExclusiveFree(sys))
      || (next.stage.UserLocked? && sys.procs[p].stage.GateShared? && UserFree(sys, next.user))
      || (next.stage.NodeLocked? && sys.procs[p].stage.UserLocked? && NodeFree(sys, next.node))
    ensures Inv(Goes(sys, p, next))
  {
    var proc := sys.procs[p];
    assert StillTrue(sys, proc);
    assert StillTrue(sys, next);
    forall q | q in sys.procs && q != p ensures Compatible(next, sys.procs[q]) && Compatible(sys.procs[q], next) {
      assert Compatible(proc, sys.procs[q]) && Compatible(sys.procs[q], proc);
    }
    GoesKeeps(sys, p, next);
  }

  lemma ConnectingKeeps(sys: State, p: nat)
    requires Inv(sys) && p in sys.procs && sys.procs[p].Connecting?
    ensures Inv(Advanced(sys, p))
  {
    var proc := sys.procs[p];
    assert StillTrue(sys, proc);
    EndsKeeps(sys, p);
    match proc.stage
    case Begun => if ExclusiveFree(sys) { LockingKeeps(sys, p, proc.(stage := GateShared)); }
    case GateShared => if UserFree(sys, proc.user) { LockingKeeps(sys, p, proc.(stage := UserLocked)); }
    case UserLocked => if NodeFree(sys, proc.node) { LockingKeeps(sys, p, proc.(stage := NodeLocked)); }
    case NodeHasRoom => OpeningKeeps(sys, p);
    case _ => ClimbingKeeps(sys, p);
  }

  lemma ClimbingKeeps(sys: State, p: nat)
    requires Inv(sys) && p in sys.procs && Reached(sys.procs[p], NodeLocked) && !sys.procs[p].stage.NodeHasRoom?
    ensures Inv(Advanced(sys, p))
  {
    var proc := sys.procs[p];
    EndsKeeps(sys, p);
    if Passes(sys, proc) {
      assert StillTrue(sys, proc);
      NextIsTrue(sys, proc);
      ClimbKeeps(sys, p, proc.(stage := Next(proc.stage)));
    }
  }

  lemma NextIsTrue(sys: State, proc: Proc)
    requires StillTrue(sys, proc) && Reached(proc, NodeLocked) && Passes(sys, proc)
    requires proc.device in sys.revoked ==> proc.device in sys.devices && !sys.devices[proc.device].active
    ensures StillTrue(sys, proc.(stage := Next(proc.stage)))
  {
  }

  // ------------------------------------------------ settings and maintenance ----

  lemma UpdatingKeeps(sys: State, p: nat)
    requires Inv(sys) && p in sys.procs && sys.procs[p].Updating?
    ensures Inv(Advanced(sys, p))
  {
    var proc := sys.procs[p];
    assert StillTrue(sys, proc);
    EndsKeeps(sys, p);
    match proc.update
    case Waiting => if GateFree(sys) { UpdatePhaseKeeps(sys, p, proc.(update := Holding)); }
    case Holding => if sys.version == proc.expected { UpdatePhaseKeeps(sys, p, proc.(update := Matched)); }
    case Matched => UpdatePhaseKeeps(sys, p, Advanced(sys, p).procs[p]);
    case Listed(rows) => UpdateCommitKeeps(sys, p, rows);
  }

  lemma UpdatePhaseKeeps(sys: State, p: nat, next: Proc)
    requires Inv(sys) && p in sys.procs && sys.procs[p].Updating? && next.Updating? && StillTrue(sys, next)
    requires !sys.procs[p].update.Waiting? || GateFree(sys)
    ensures Inv(Goes(sys, p, next))
  {
    forall q | q in sys.procs && q != p ensures Compatible(next, sys.procs[q]) && Compatible(sys.procs[q], next) {
      assert Compatible(sys.procs[p], sys.procs[q]) && Compatible(sys.procs[q], sys.procs[p]);
    }
    GoesKeeps(sys, p, next);
  }

  /** Whoever holds the gate exclusively is the only process that relied on the switches. */
  lemma SwitchingKeeps(sys: State, p: nat, maintenance: bool, nodes: map<nat, Station>, version: nat, updates: seq<nat>)
    requires Inv(sys) && p in sys.procs && HoldsExclusive(sys.procs[p])
    requires nodes.Keys == sys.nodes.Keys && forall n :: n in nodes ==> nodes[n].capacity == sys.nodes[n].capacity
    requires |updates| == version && forall i :: 0 <= i < |updates| ==> updates[i] == i
    requires MaintenanceHolds(sys.(maintenance := maintenance, nodes := nodes))
    ensures Inv(Ends(Switched(sys, maintenance, nodes, version, updates), p))
  {
    var after := Ends(Switched(sys, maintenance, nodes, version, updates), p);
    forall q | q in after.procs ensures StillTrue(after, after.procs[q]) {
      assert StillTrue(sys, sys.procs[q]) && Compatible(sys.procs[p], sys.procs[q]);
      SwitchingKeepsChecks(sys, maintenance, nodes, version, updates, sys.procs[q]);
    }
  }

  lemma SwitchingKeepsChecks(sys: State, maintenance: bool, nodes: map<nat, Station>, version: nat, updates: seq<nat>, other: Proc)
    requires StillTrue(sys, other) && !HoldsGate(other)
    ensures StillTrue(Switched(sys, maintenance, nodes, version, updates), other)
  {
  }

  lemma UpdateCommitKeeps(sys: State, p: nat, rows: set<nat>)
    requires Inv(sys) && p in sys.procs && sys.procs[p].Updating? && sys.procs[p].update == Listed(rows)
    ensures Inv(Advanced(sys, p))
  {
    var proc := sys.procs[p];
    assert StillTrue(sys, proc);
    var closed := sys.(sessions := Closed(sys.sessions, rows));
    ClosingKeeps(sys, rows);
    if proc.maintenance == Some(true) {
      LiveAfterClosing(sys.sessions, rows);
      assert AllLive(closed.sessions) == {};
    }
    SwitchingKeeps(closed, p, if proc.maintenance.Some? then proc.maintenance.value else sys.maintenance,
      sys.nodes, sys.version + 1, sys.updates + [proc.expected]);
  }

  lemma TogglingKeeps(sys: State, p: nat)
    requires Inv(sys) && p in sys.procs && sys.procs[p].Toggling?
    ensures Inv(Advanced(sys, p))
  {
    var proc := sys.procs[p];
    assert StillTrue(sys, proc);
    EndsKeeps(sys, p);
    match proc.toggle
    case Waiting => if GateFree(sys) { TogglePhaseKeeps(sys, p, proc.(toggle := Holding)); }
    case Holding => if proc.node in sys.nodes { TogglePhaseKeeps(sys, p, proc.(toggle := Matched)); }
    case Matched => TogglePhaseKeeps(sys, p, Advanced(sys, p).procs[p]);
    case Listed(rows) => if proc.node in sys.nodes { ToggleCommitKeeps(sys, p, rows); }
  }

  lemma TogglePhaseKeeps(sys: State, p: nat, next: Proc)
    requires Inv(sys) && p in sys.procs && sys.procs[p].Toggling? && next.Toggling? && StillTrue(sys, next)
    requires !sys.procs[p].toggle.Waiting? || GateFree(sys)
    ensures Inv(Goes(sys, p, next))
  {
    forall q | q in sys.procs && q != p ensures Compatible(next, sys.procs[q]) && Compatible(sys.procs[q], next) {
      assert Compatible(sys.procs[p], sys.procs[q]) && Compatible(sys.procs[q], sys.procs[p]);
    }
    GoesKeeps(sys, p, next);
  }

  lemma ToggleCommitKeeps(sys: State, p: nat, rows: set<nat>)
    requires Inv(sys) && p in sys.procs && sys.procs[p].Toggling? && sys.procs[p].toggle == Listed(rows)
    requires sys.procs[p].node in sys.nodes
    ensures Inv(AdvanceToggle(sys, p, sys.procs[p]))
  {
    var proc := sys.procs[p];
    assert StillTrue(sys, proc);
    ClosingKeeps(sys, rows);
    ToggledMaintenance(sys, proc.node, proc.enabled, rows);
    SwitchingKeeps(sys.(sessions := Closed(sys.sessions, rows)), p, sys.maintenance,
      sys.nodes[proc.node := sys.nodes[proc.node].(maintenance := proc.enabled)], sys.version, sys.updates);
  }

  lemma ToggledMaintenance(sys: State, n: nat, enabled: bool, rows: set<nat>)
    requires MaintenanceHolds(sys) && n in sys.nodes && (enabled ==> OfNode(sys.sessions, n) <= rows)
    ensures MaintenanceHolds(sys.(sessions := Closed(sys.sessions, rows), nodes := sys.nodes[n := sys.nodes[n].(maintenance := enabled)]))
  {
    LiveAfterClosing(sys.sessions, rows);
  }

  // --------------------------------------------------------------- devices ----

  lemma RevokingKeeps(sys: State, p: nat)
    requires Inv(sys) && p in sys.procs && sys.procs[p].Revoking?
    ensures Inv(Advanced(sys, p))
  {
    var proc := sys.procs[p];
    assert StillTrue(sys, proc);
    EndsKeeps(sys, p);
    match proc.revoke
    case RevokeBegun => if ExclusiveFree(sys) { RevokePhaseKeeps(sys, p, proc.(revoke := RevokeGate)); }
    case RevokeGate => if UserFree(sys, proc.user) { RevokePhaseKeeps(sys, p, proc.(revoke := RevokeUser)); }
    case RevokeUser =>
      if proc.device in sys.devices && sys.devices[proc.device].user == proc.user {
        RevokePhaseKeeps(sys, p, proc.(revoke := RevokeListed(OfDevice(sys.sessions, proc.device))));
      }
    case RevokeListed(rows) => RevokeCommitKeeps(sys, p, rows);
  }

  lemma RevokePhaseKeeps(sys: State, p: nat, next: Proc)
    requires Inv(sys) && p in sys.procs && sys.procs[p].Revoking? && next.Revoking? && StillTrue(sys, next)
    requires next.user == sys.procs[p].user
    requires
      match sys.procs[p].revoke
      case RevokeBegun => ExclusiveFree(sys) && next.revoke.RevokeGate?
      case RevokeGate => UserFree(sys, next.user)
      case _ => true
    ensures Inv(Goes(sys, p, next))
  {
    forall q | q in sys.procs && q != p ensures Compatible(next, sys.procs[q]) && Compatible(sys.procs[q], next) {
      assert Compatible(sys.procs[p], sys.procs[q]) && Compatible(sys.procs[q], sys.procs[p]);
    }
    GoesKeeps(sys, p, next);
  }

  /** The holder of the owner's row may rewrite a device row: nobody else relies on it. */
  lemma RewritingKeeps(sys: State, p: nat, d: nat, device: Credential, revoked: set<nat>)
    requires Inv(sys) && p in sys.procs && d in sys.devices && HoldsUser(sys.procs[p], sys.devices[d].user)
    requires device.user == sys.devices[d].user && device.version >= sys.devices[d].version
    requires device.key != sys.devices[d].key ==>
      device.version > sys.devices[d].version && OfDevice(sys.sessions, d) == {}
      && forall e :: e in sys.devices && e != d ==> sys.devices[e].key != device.key
    requires forall e :: e != d ==> (e in revoked <==> e in sys.revoked)
    requires d in revoked ==> !device.active && OfDevice(sys.sessions, d) == {}
    ensures Inv(Ends(Rewritten(sys, d, device, revoked), p))
  {
    var after := Ends(Rewritten(sys, d, device, revoked), p);
    RewritingKeepsCredentials(sys, d, device, revoked);
    forall q | q in after.procs ensures StillTrue(after, after.procs[q]) {
      assert StillTrue(sys, sys.procs[q]) && Compatible(sys.procs[p], sys.procs[q]);
      RewritingKeepsChecks(sys, d, device, revoked, sys.procs[q]);
    }
  }

  lemma RewritingKeepsCredentials(sys: State, d: nat, device: Credential, revoked: set<nat>)
    requires CredentialsHold(sys) && d in sys.devices && device.user == sys.devices[d].user
    requires device.key != sys.devices[d].key ==>
      OfDevice(sys.sessions, d) == {} && forall e :: e in sys.devices && e != d ==> sys.devices[e].key != device.key
    requires forall e :: e != d ==> (e in revoked <==> e in sys.revoked)
    requires d in revoked ==> !device.active && OfDevice(sys.sessions, d) == {}
    ensures CredentialsHold(Rewritten(sys, d, device, revoked))
  {
    forall s | s in sys.sessions && sys.sessions[s].live && sys.sessions[s].device == d ensures s in OfDevice(sys.sessions, d) {}
  }

  lemma RewritingKeepsChecks(sys: State, d: nat, device: Credential, revoked: set<nat>, other: Proc)
    requires d in sys.devices && StillTrue(sys, other) && !HoldsUser(other, sys.devices[d].user)
    requires device.user == sys.devices[d].user && device.version >= sys.devices[d].version
    requires device.key != sys.devices[d].key ==> device.version > sys.devices[d].version
    requires forall e :: e != d ==> (e in revoked <==> e in sys.revoked)
    ensures StillTrue(Rewritten(sys, d, device, revoked), other)
  {
  }

  lemma RevokeCommitKeeps(sys: State, p: nat, rows: set<nat>)
    requires Inv(sys) && p in sys.procs && sys.procs[p].Revoking? && sys.procs[p].revoke == RevokeListed(rows)
    ensures Inv(AdvanceRevoke(sys, p, sys.procs[p]))
  {
    var d := sys.procs[p].device;
    var closed := sys.(sessions := Closed(sys.sessions, rows));
    assert StillTrue(sys, sys.procs[p]);
    ClosingKeeps(sys, rows);
    AfterClosingIdle(sys, d, rows);
    RewritingKeeps(closed, p, d, Retired(sys.devices[d]), sys.revoked + {d});
  }

  lemma AfterClosingIdle(sys: State, d: nat, rows: set<nat>)
    requires OfDevice(sys.sessions, d) <= rows
    ensures OfDevice(Closed(sys.sessions, rows), d) == {}
  {
    LiveAfterClosing(sys.sessions, rows);
  }

  lemma RegisteringKeeps(sys: State, p: nat)
    requires Inv(sys) && p in sys.procs && sys.procs[p].Registering?
    ensures Inv(Advanced(sys, p))
  {
    var proc := sys.procs[p];
    EndsKeeps(sys, p);
    match proc.register
    case RegisterBegun => if UserFree(sys, proc.user) { RegisterPhaseKeeps(sys, p, proc.(register := RegisterUser)); }
    case RegisterUser => ChoosingKeeps(sys, p);
    case RegisterChosen(rotating) => if rotating { RotatingKeeps(sys, p); } else { ReactivatingKeeps(sys, p); }
  }

  lemma ChoosingKeeps(sys: State, p: nat)
    requires Inv(sys) && p in sys.procs && sys.procs[p].Registering? && sys.procs[p].register.RegisterUser?
    ensures Inv(AdvanceRegister(sys, p, sys.procs[p]))
  {
    var proc := sys.procs[p];
    var d := proc.device;
    EndsKeeps(sys, p);
    if d in sys.devices && sys.devices[d].user == proc.user {
      if !sys.devices[d].active {
        RegisterPhaseKeeps(sys, p, proc.(register := RegisterChosen(false)));
      } else if OfDevice(sys.sessions, d) == {} {
        RegisterPhaseKeeps(sys, p, proc.(register := RegisterChosen(true)));
      }
    }
  }

  lemma RotatingKeeps(sys: State, p: nat)
    requires Inv(sys) && p in sys.procs && sys.procs[p].Registering? && sys.procs[p].register == RegisterChosen(true)
    ensures Inv(AdvanceRegister(sys, p, sys.procs[p]))
  {
    var d, key := sys.procs[p].device, sys.procs[p].newKey;
    ChosenMeans(sys, p);
    if KeyTaken(sys.devices, key) {
      assert AdvanceRegister(sys, p, sys.procs[p]) == Ends(sys, p);
      EndsKeeps(sys, p);
    } else {
      assert AdvanceRegister(sys, p, sys.procs[p]) ==
        Ends(Rewritten(sys, d, sys.devices[d].(key := key, version := sys.devices[d].version + 1), sys.revoked), p);
      RekeyingKeeps(sys, p, d, key);
    }
  }

  lemma ChosenMeans(sys: State, p: nat)
    requires Inv(sys) && p in sys.procs && sys.procs[p].Registering? && sys.procs[p].register == RegisterChosen(true)
    ensures
      var d := sys.procs[p].device;
      && d in sys.devices && HoldsUser(sys.procs[p], sys.devices[d].user)
      && OfDevice(sys.sessions, d) == {} && d !in sys.revoked
  {
    assert StillTrue(sys, sys.procs[p]);
  }

  lemma RekeyingKeeps(sys: State, p: nat, d: nat, key: nat)
    requires Inv(sys) && p in sys.procs && d in sys.devices && HoldsUser(sys.procs[p], sys.devices[d].user)
    requires OfDevice(sys.sessions, d) == {} && d !in sys.revoked && !KeyTaken(sys.devices, key)
    ensures Inv(Ends(Rewritten(sys, d, sys.devices[d].(key := key, version := sys.devices[d].version + 1), sys.revoked), p))
  {
    RewritingKeeps(sys, p, d, sys.devices[d].(key := key, version := sys.devices[d].version + 1), sys.revoked);
  }

  lemma ReactivatingKeeps(sys: State, p: nat)
    requires Inv(sys) && p in sys.procs && sys.procs[p].Registering? && sys.procs[p].register == RegisterChosen(false)
    ensures Inv(AdvanceRegister(sys, p, sys.procs[p]))
  {
    var d := sys.procs[p].device;
    assert StillTrue(sys, sys.procs[p]);
    RewritingKeeps(sys, p, d, sys.devices[d].(active := true, version := sys.devices[d].version + 1), sys.revoked - {d});
  }

  lemma RegisterPhaseKeeps(sys: State, p: nat, next: Proc)
    requires Inv(sys) && p in sys.procs && sys.procs[p].Registering? && next.Registering? && StillTrue(sys, next)
    requires next.user == sys.procs[p].user
    requires sys.procs[p].register.RegisterBegun? ==> UserFree(sys, next.user)
    ensures Inv(Goes(sys, p, next))
  {
    forall q | q in sys.procs && q != p ensures Compatible(next, sys.procs[q]) && Compatible(sys.procs[q], next) {
      assert Compatible(sys.procs[p], sys.procs[q]) && Compatible(sys.procs[q], sys.procs[p]);
    }
    GoesKeeps(sys, p, next);
  }

  /** One of the listed sessions is closed. */
  lemma WithdrawCloses(sys: State, p: nat) returns (s: nat)
    requires p in sys.procs && sys.procs[p].Withdrawing? && sys.procs[p].withdraw.WithdrawListed? && sys.procs[p].withdraw.left != {}
    ensures s in sys.procs[p].withdraw.left
    ensures Advanced(sys, p) ==
      Goes(sys.(sessions := Closed(sys.sessions, {s})), p, sys.procs[p].(withdraw := WithdrawListed(sys.procs[p].withdraw.left - {s})))
  {
    var left := sys.procs[p].withdraw.left;
    s :| s in left && AdvanceWithdraw(sys, p, sys.procs[p]) ==
      Goes(sys.(sessions := Closed(sys.sessions, {s})), p, sys.procs[p].(withdraw := WithdrawListed(left - {s})));
  }

  lemma WithdrawingKeeps(sys: State, p: nat)
    requires Inv(sys) && p in sys.procs && sys.procs[p].Withdrawing?
    ensures Inv(Advanced(sys, p))
  {
    match sys.procs[p].withdraw
    case WithdrawBegun => WithdrawReadsKeeps(sys, p);
    case WithdrawRead => WithdrawReadsKeeps(sys, p);
    case WithdrawListed(left) =>
      if left != {} { WithdrawCloseKeeps(sys, p); } else { WithdrawWritesKeeps(sys, p); }
  }

  lemma WithdrawReadsKeeps(sys: State, p: nat)
    requires Inv(sys) && p in sys.procs && sys.procs[p].Withdrawing? && !sys.procs[p].withdraw.WithdrawListed?
    ensures Inv(Advanced(sys, p))
  {
    var proc := sys.procs[p];
    if proc.withdraw.WithdrawRead? {
      var next := proc.(withdraw := WithdrawListed(OfDevice(sys.sessions, proc.device)));
      WithdrawPhaseKeeps(sys, p, next);
      assert Advanced(sys, p) == Goes(sys, p, next);
    } else if proc.device in sys.devices && sys.devices[proc.device].active {
      WithdrawPhaseKeeps(sys, p, proc.(withdraw := WithdrawRead));
      assert Advanced(sys, p) == Goes(sys, p, proc.(withdraw := WithdrawRead));
    } else {
      EndsKeeps(sys, p);
      assert Advanced(sys, p) == Ends(sys, p);
    }
  }

  lemma WithdrawWritesKeeps(sys: State, p: nat)
    requires Inv(sys) && p in sys.procs && sys.procs[p].Withdrawing? && sys.procs[p].withdraw == WithdrawListed({})
    ensures Inv(Advanced(sys, p))
  {
    var d := sys.procs[p].device;
    EndsKeeps(sys, p);
    if d in sys.devices {
      WithdrawnKeeps(sys, d);
      EndsKeeps(Withdrawn(sys, d), p);
    }
  }

  lemma WithdrawCloseKeeps(sys: State, p: nat)
    requires Inv(sys) && p in sys.procs && sys.procs[p].Withdrawing? && sys.procs[p].withdraw.WithdrawListed? && sys.procs[p].withdraw.left != {}
    ensures Inv(Advanced(sys, p))
  {
    var s := WithdrawCloses(sys, p);
    ClosingKeeps(sys, {s});
    WithdrawPhaseKeeps(sys.(sessions := Closed(sys.sessions, {s})), p,
      sys.procs[p].(withdraw := WithdrawListed(sys.procs[p].withdraw.left - {s})));
  }

  lemma WithdrawPhaseKeeps(sys: State, p: nat, next: Proc)
    requires Inv(sys) && p in sys.procs && sys.procs[p].Withdrawing? && next.Withdrawing?
    ensures Inv(Goes(sys, p, next))
  {
    assert forall u :: !HoldsUser(next, u);
    assert forall n :: !HoldsNode(next, n);
    GoesKeeps(sys, p, next);
  }

  lemma WithdrawnKeeps(sys: State, d: nat)
    requires Inv(sys) && d in sys.devices
    ensures Inv(Withdrawn(sys, d))
  {
    var after := Withdrawn(sys, d);
    forall q | q in after.procs ensures StillTrue(after, after.procs[q]) {
      assert StillTrue(sys, sys.procs[q]);
    }
  }

  lemma AddDeviceKeeps(sys: State, d: nat, u: nat, key: nat)
    requires Inv(sys)
    ensures Inv(Apply(sys, AddDevice(d, u, key)))
  {
    var after := Apply(sys, AddDevice(d, u, key));
    forall q | q in after.procs ensures StillTrue(after, after.procs[q]) {
      assert StillTrue(sys, sys.procs[q]);
    }
  }

  lemma StartHoldsNothing(sys: State, proc: Proc)
    requires AtStart(sys, proc)
    ensures !HoldsGate(proc) && (forall u :: !HoldsUser(proc, u)) && forall n :: !HoldsNode(proc, n)
  {
  }

  lemma NothingHeld(a: Proc, b: Proc)
    requires !HoldsGate(a) && (forall u :: !HoldsUser(a, u)) && forall n :: !HoldsNode(a, n)
    ensures Compatible(a, b) && Compatible(b, a)
  {
  }

  lemma StartKeeps(sys: State, p: nat, proc: Proc)
    requires Inv(sys)
    ensures Inv(Apply(sys, Start(p, proc)))
  {
    if p !in sys.procs && AtStart(sys, proc) {
      StartHoldsNothing(sys, proc);
      forall q | q in sys.procs ensures Compatible(proc, sys.procs[q]) && Compatible(sys.procs[q], proc) {
        NothingHeld(proc, sys.procs[q]);
      }
      assert StillTrue(sys, proc);
      GoesKeeps(sys, p, proc);
    }
  }

  lemma StepKeeps(sys: State, step: Step)
    requires Inv(sys)
    ensures Inv(Apply(sys, step))
  {
    match step
    case Start(p, proc) => StartKeeps(sys, p, proc);
    case Advance(p) =>
      if p in sys.procs {
        match sys.procs[p]
        case Connecting(_, _, _, _, _, _) => ConnectingKeeps(sys, p);
        case Updating(_, _, _) => UpdatingKeeps(sys, p);
        case Toggling(_, _, _) => TogglingKeeps(sys, p);
        case Revoking(_, _, _) => RevokingKeeps(sys, p);
        case Withdrawing(_, _) => WithdrawingKeeps(sys, p);
        case Registering(_, _, _, _) => RegisteringKeeps(sys, p);
      }
    case Abort(p) => EndsKeeps(sys, p);
    case CloseSession(s) => ClosingKeeps(sys, {s});
    case AddDevice(d, u, key) => AddDeviceKeeps(sys, d, u, key);
  }

  lemma {:induction false} RunKeeps(sys: State, steps: seq<Step>)
    requires Inv(sys)
    ensures Inv(Run(sys, steps))
    decreases |steps|
  {
    if steps != [] {
      StepKeeps(sys, steps[0]);
      RunKeeps(Apply(sys, steps[0]), steps[1..]);
    }
  }

  lemma InitialHolds(sys: State)
    requires Initial(sys)
    ensures Inv(sys)
  {
  }

  // --------------------------------------------------------- main results ----

  /** In every reachable state global maintenance means no live session, and node maintenance none on that node. */
  lemma MaintenanceMeansNoSession(start: State, steps: seq<Step>, s: nat)
    requires Initial(start)
    ensures
      var sys := Run(start, steps);
      s in sys.sessions && sys.sessions[s].live ==>
        && !sys.maintenance
        && (sys.sessions[s].node in sys.nodes ==> !sys.nodes[sys.sessions[s].node].maintenance)
  {
    InitialHolds(start);
    RunKeeps(start, steps);
    var sys := Run(start, steps);
    if s in sys.sessions && sys.sessions[s].live {
      assert s in AllLive(sys.sessions) && s in OfNode(sys.sessions, sys.sessions[s].node);
    }
  }

  /** With any number of concurrent connects: one live session per device, and no account or node over its limit. */
  lemma LimitsAreNeverExceeded(start: State, steps: seq<Step>)
    requires Initial(start)
    ensures
      var sys := Run(start, steps);
      && (forall u :: u in sys.allowance ==> |OfUser(sys.sessions, u)| <= sys.allowance[u])
      && (forall n :: n in sys.nodes ==> |OfNode(sys.sessions, n)| <= sys.nodes[n].capacity)
      && (forall s, t :: s in sys.sessions && t in sys.sessions && s != t && sys.sessions[s].live && sys.sessions[t].live ==>
            sys.sessions[s].device != sys.sessions[t].device)
  {
    InitialHolds(start);
    RunKeeps(start, steps);
  }

  /** Of the settings updates that were sent with the same expected version at most one succeeds. */
  lemma OneUpdatePerVersion(start: State, steps: seq<Step>, i: nat, j: nat)
    requires Initial(start)
    requires i < j < |Run(start, steps).updates|
    ensures Run(start, steps).updates[i] != Run(start, steps).updates[j]
  {
    InitialHolds(start);
    RunKeeps(start, steps);
  }

  /**
   * A live session always carries its device's current key and owner, and a device its owner revoked
   * has no live session until it is registered again: what CreateSession in Plane assumes of its caller.
   */
  lemma LiveSessionsHaveCurrentCredentials(start: State, steps: seq<Step>, s: nat)
    requires Initial(start)
    ensures
      var sys := Run(start, steps);
      s in sys.sessions && sys.sessions[s].live ==>
        var d := sys.sessions[s].device;
        && d in sys.devices && d !in sys.revoked
        && sys.devices[d].key == sys.sessions[s].key && sys.devices[d].user == sys.sessions[s].user
  {
    InitialHolds(start);
    RunKeeps(start, steps);
    var sys := Run(start, steps);
    if s in sys.sessions && sys.sessions[s].live {
      assert s in OfDevice(sys.sessions, sys.sessions[s].device);
    }
  }

  /** At its commit every check a connect made is still true, however many statements ago it was made. */
  lemma ChecksHoldAtCommit(start: State, steps: seq<Step>, p: nat)
    requires Initial(start) && Fitted(Run(start, steps), p)
    ensures
      var sys := Run(start, steps);
      var proc := sys.procs[p];
      && !sys.maintenance && proc.node in sys.nodes && !sys.nodes[proc.node].maintenance
      && proc.user in sys.allowance && |OfUser(sys.sessions, proc.user)| < sys.allowance[proc.user]
      && |OfNode(sys.sessions, proc.node)| < sys.nodes[proc.node].capacity
      && OfDevice(sys.sessions, proc.device) == {}
      && proc.device in sys.devices && sys.devices[proc.device].version == proc.version && sys.devices[proc.device].key == proc.key
  {
    InitialHolds(start);
    RunKeeps(start, steps);
    FittedMeans(Run(start, steps), p);
  }

  // ------------------------------------------ revoked by an administrator ----

  /** The step does not register `d` again: nothing else makes its row active. */
  predicate Withholds(sys: State, step: Step, d: nat) {
    step.Advance? && step.p in sys.procs && sys.procs[step.p].Registering? ==> sys.procs[step.p].device != d
  }

  ghost predicate WithheldRun(sys: State, steps: seq<Step>, d: nat)
    decreases |steps|
  {
    steps != [] ==> Withholds(sys, steps[0], d) && WithheldRun(Apply(sys, steps[0]), steps[1..], d)
  }

  /** A connect for the device has read its row while it was active, and nothing it has yet to check forbids it for good. */
  predicate CanStillOpen(sys: State, p: nat, d: nat) {
    && p in sys.procs && Reached(sys.procs[p], RowsRead) && sys.procs[p].device == d
    && !sys.maintenance
    && sys.procs[p].user in sys.allowance && sys.allowance[sys.procs[p].user] > 0
    && sys.procs[p].node in sys.nodes && sys.nodes[sys.procs[p].node].capacity > 0
  }

  ghost predicate Barred(sys: State, d: nat) {
    && d in sys.devices && !sys.devices[d].active && OfDevice(sys.sessions, d) == {}
    && forall p :: !CanStillOpen(sys, p, d)
  }

  lemma ClosingStaysBarred(sys: State, d: nat, rows: set<nat>)
    requires Barred(sys, d)
    ensures Barred(sys.(sessions := Closed(sys.sessions, rows)), d)
  {
    LiveAfterClosing(sys.sessions, rows);
    assert forall p :: CanStillOpen(sys.(sessions := Closed(sys.sessions, rows)), p, d) == CanStillOpen(sys, p, d);
  }

  /** A process moves to a stage that lets it open no session of `d` it could not open before, or ends. */
  lemma MovingStaysBarred(sys: State, after: State, d: nat, p: nat)
    requires Barred(sys, d) && p in sys.procs
    requires after == sys.(procs := after.procs) && after.procs.Keys <= sys.procs.Keys
    requires forall q :: q in after.procs && q != p ==> after.procs[q] == sys.procs[q]
    requires p in after.procs && Reached(after.procs[p], RowsRead) && after.procs[p].device == d ==>
      Reached(sys.procs[p], RowsRead) && sys.procs[p].device == d && sys.procs[p].user == after.procs[p].user && sys.procs[p].node == after.procs[p].node
    ensures Barred(after, d)
  {
    forall q ensures !CanStillOpen(after, q, d) {
      assert !CanStillOpen(sys, q, d);
    }
  }

  lemma OpensAnother(sys: State, d: nat, p: nat)
    requires Inv(sys) && Barred(sys, d) && Fitted(sys, p)
    ensures sys.procs[p].device != d
  {
    FittedMeans(sys, p);
    assert !CanStillOpen(sys, p, d);
  }

  /** A barred device's connects never get to the end. */
  lemma OpeningStaysBarred(sys: State, d: nat, p: nat)
    requires Inv(sys) && Barred(sys, d) && Fitted(sys, p)
    ensures Barred(Ends(Opened(sys, sys.procs[p]), p), d)
  {
    var after := Ends(Opened(sys, sys.procs[p]), p);
    OpensAnother(sys, d, p);
    LiveAfterOpening(sys, sys.procs[p]);
    assert OfDevice(after.sessions, d) == {};
    assert forall q :: CanStillOpen(after, q, d) ==> CanStillOpen(sys, q, d);
  }

  lemma ConnectingStaysBarred(sys: State, d: nat, p: nat)
    requires Inv(sys) && Barred(sys, d) && p in sys.procs && sys.procs[p].Connecting?
    ensures Barred(Advanced(sys, p), d)
  {
    if sys.procs[p].stage.NodeHasRoom? { OpeningStaysBarred(sys, d, p); } else { ClimbingStaysBarred(sys, d, p); }
  }

  lemma ClimbingStaysBarred(sys: State, d: nat, p: nat)
    requires Barred(sys, d) && p in sys.procs && sys.procs[p].Connecting? && !sys.procs[p].stage.NodeHasRoom?
    ensures Barred(Advanced(sys, p), d)
  {
    var proc, after := sys.procs[p], Advanced(sys, p);
    if after != sys && after != Ends(sys, p) {
      assert after == Goes(sys, p, proc.(stage := Next(proc.stage)));
      assert proc.stage.NodeLocked? ==> proc.device != d;
    }
    MovingStaysBarred(sys, after, d, p);
  }

  /** Whoever changes the switches holds the gate alone: no connect is past its reads. */
  lemma SwitchingStaysBarred(sys: State, after: State, d: nat, p: nat)
    requires LocksExclude(sys) && d in sys.devices && !sys.devices[d].active
    requires p in sys.procs && HoldsExclusive(sys.procs[p])
    requires after.procs == sys.procs - {p} && after.devices == sys.devices && OfDevice(after.sessions, d) == {}
    ensures Barred(after, d)
  {
    forall q | q in after.procs ensures !Reached(after.procs[q], RowsRead) {
      assert Compatible(sys.procs[p], sys.procs[q]);
    }
  }

  lemma UpdatingStaysBarred(sys: State, d: nat, p: nat)
    requires Inv(sys) && Barred(sys, d) && p in sys.procs && sys.procs[p].Updating?
    ensures Barred(AdvanceUpdate(sys, p, sys.procs[p]), d)
  {
    var after := AdvanceUpdate(sys, p, sys.procs[p]);
    if sys.procs[p].update.Listed? {
      LiveAfterClosing(sys.sessions, sys.procs[p].update.rows);
      assert OfDevice(after.sessions, d) == {};
      SwitchingStaysBarred(sys, after, d, p);
    } else {
      UpdateOnlyMoves(sys, p);
      MovingStaysBarred(sys, after, d, p);
    }
  }

  lemma UpdateOnlyMoves(sys: State, p: nat)
    requires p in sys.procs && sys.procs[p].Updating? && !sys.procs[p].update.Listed?
    ensures
      var after := AdvanceUpdate(sys, p, sys.procs[p]);
      && after == sys.(procs := after.procs) && after.procs.Keys <= sys.procs.Keys
      && (forall q :: q in after.procs && q != p ==> after.procs[q] == sys.procs[q])
      && (p in after.procs ==> after.procs[p].Updating?)
  {
  }

  lemma TogglingStaysBarred(sys: State, d: nat, p: nat)
    requires Inv(sys) && Barred(sys, d) && p in sys.procs && sys.procs[p].Toggling?
    ensures Barred(AdvanceToggle(sys, p, sys.procs[p]), d)
  {
    var after := AdvanceToggle(sys, p, sys.procs[p]);
    if sys.procs[p].toggle.Listed? && sys.procs[p].node in sys.nodes {
      LiveAfterClosing(sys.sessions, sys.procs[p].toggle.rows);
      assert OfDevice(after.sessions, d) == {};
      SwitchingStaysBarred(sys, after, d, p);
    } else {
      ToggleOnlyMoves(sys, p);
      MovingStaysBarred(sys, after, d, p);
    }
  }

  lemma ToggleOnlyMoves(sys: State, p: nat)
    requires p in sys.procs && sys.procs[p].Toggling? && !(sys.procs[p].toggle.Listed? && sys.procs[p].node in sys.nodes)
    ensures
      var after := AdvanceToggle(sys, p, sys.procs[p]);
      && after == sys.(procs := after.procs) && after.procs.Keys <= sys.procs.Keys
      && (forall q :: q in after.procs && q != p ==> after.procs[q] == sys.procs[q])
      && (p in after.procs ==> after.procs[p].Toggling?)
  {
    match sys.procs[p].toggle
    case Waiting =>
    case Holding =>
    case Matched =>
    case Listed(_) => assert AdvanceToggle(sys, p, sys.procs[p]) == Ends(sys, p);
  }

  /** Device rows are rewritten without making `d` active. */
  lemma RewritingStaysBarred(sys: State, after: State, d: nat)
    requires Barred(sys, d) && after == sys.(devices := after.devices, revoked := after.revoked, procs := after.procs)
    requires d in after.devices && !after.devices[d].active
    requires after.procs.Keys <= sys.procs.Keys && forall q :: q in after.procs ==> after.procs[q] == sys.procs[q]
    ensures Barred(after, d)
  {
    assert forall q :: CanStillOpen(after, q, d) ==> CanStillOpen(sys, q, d);
  }

  lemma RevokingStaysBarred(sys: State, d: nat, p: nat)
    requires Barred(sys, d) && p in sys.procs && sys.procs[p].Revoking?
    ensures Barred(Advanced(sys, p), d)
  {
    var proc := sys.procs[p];
    if proc.revoke.RevokeListed? && proc.device in sys.devices {
      ClosingStaysBarred(sys, d, proc.revoke.rows);
      RewritingStaysBarred(sys.(sessions := Closed(sys.sessions, proc.revoke.rows)), Advanced(sys, p), d);
    } else {
      MovingStaysBarred(sys, Advanced(sys, p), d, p);
    }
  }

  lemma RegisteringStaysBarred(sys: State, d: nat, p: nat)
    requires Barred(sys, d) && p in sys.procs && sys.procs[p].Registering? && sys.procs[p].device != d
    ensures Barred(AdvanceRegister(sys, p, sys.procs[p]), d)
  {
    var proc, after := sys.procs[p], AdvanceRegister(sys, p, sys.procs[p]);
    if proc.register.RegisterChosen? && after != Ends(sys, p) {
      RewritingStaysBarred(sys, after, d);
    } else {
      MovingStaysBarred(sys, after, d, p);
    }
  }

  lemma WithdrawingStaysBarred(sys: State, d: nat, p: nat)
    requires Barred(sys, d) && p in sys.procs && sys.procs[p].Withdrawing?
    ensures Barred(Advanced(sys, p), d)
  {
    var proc, after := sys.procs[p], Advanced(sys, p);
    if proc.withdraw.WithdrawListed? && proc.withdraw.left != {} {
      var left := proc.withdraw.left;
      var s := WithdrawCloses(sys, p);
      var closed := sys.(sessions := Closed(sys.sessions, {s}));
      ClosingStaysBarred(sys, d, {s});
      MovingStaysBarred(closed, after, d, p);
    } else if proc.withdraw.WithdrawListed? && proc.device in sys.devices {
      RewritingStaysBarred(sys, after, d);
    } else {
      MovingStaysBarred(sys, after, d, p);
    }
  }

  lemma StartStaysBarred(sys: State, d: nat, p: nat, proc: Proc)
    requires Barred(sys, d)
    ensures Barred(Apply(sys, Start(p, proc)), d)
  {
    assert forall q :: CanStillOpen(Apply(sys, Start(p, proc)), q, d) ==> CanStillOpen(sys, q, d);
  }

  lemma EndingStaysBarred(sys: State, d: nat, p: nat)
    requires Barred(sys, d)
    ensures Barred(Ends(sys, p), d)
  {
    if p in sys.procs { MovingStaysBarred(sys, Ends(sys, p), d, p); } else { assert Ends(sys, p) == sys; }
  }

  lemma AddingStaysBarred(sys: State, d: nat, e: nat, u: nat, key: nat)
    requires Barred(sys, d)
    ensures Barred(Apply(sys, AddDevice(e, u, key)), d)
  {
    RewritingStaysBarred(sys, Apply(sys, AddDevice(e, u, key)), d);
  }

  lemma StepStaysBarred(sys: State, step: Step, d: nat)
    requires Inv(sys) && Barred(sys, d) && Withholds(sys, step, d)
    ensures Barred(Apply(sys, step), d)
  {
    match step
    case Start(p, proc) => StartStaysBarred(sys, d, p, proc);
    case Abort(p) => EndingStaysBarred(sys, d, p);
    case CloseSession(s) => ClosingStaysBarred(sys, d, {s});
    case AddDevice(e, u, key) => AddingStaysBarred(sys, d, e, u, key);
    case Advance(p) => if p in sys.procs { AdvancingStaysBarred(sys, p, d); }
  }

  lemma AdvancingStaysBarred(sys: State, p: nat, d: nat)
    requires Inv(sys) && Barred(sys, d) && p in sys.procs && Withholds(sys, Advance(p), d)
    ensures Barred(Advanced(sys, p), d)
  {
    match sys.procs[p]
    case Connecting(_, _, _, _, _, _) => ConnectingStaysBarred(sys, d, p);
    case Updating(_, _, _) => UpdatingStaysBarred(sys, d, p);
    case Toggling(_, _, _) => TogglingStaysBarred(sys, d, p);
    case Revoking(_, _, _) => RevokingStaysBarred(sys, d, p);
    case Withdrawing(_, _) => WithdrawingStaysBarred(sys, d, p);
    case Registering(_, _, _, _) => RegisteringStaysBarred(sys, d, p);
  }

  lemma {:induction false} RunStaysBarred(sys: State, steps: seq<Step>, d: nat)
    requires Inv(sys) && Barred(sys, d) && WithheldRun(sys, steps, d)
    ensures Barred(Run(sys, steps), d)
    decreases |steps|
  {
    if steps != [] {
      StepKeeps(sys, steps[0]);
      StepStaysBarred(sys, steps[0], d);
      RunStaysBarred(Apply(sys, steps[0]), steps[1..], d);
    }
  }

  /** In the continuation `steps`, which does not register `d` again, `d` gets a live session while its row is not active. */
  ghost predicate Overtakes(sys: State, steps: seq<Step>, d: nat) {
    && WithheldRun(sys, steps, d)
    && OfDevice(Run(sys, steps).sessions, d) != {}
    && d in Run(sys, steps).devices && !Run(sys, steps).devices[d].active
  }

  lemma First(sys: State, step: Step, steps: seq<Step>, d: nat)
    requires Withholds(sys, step, d) && Overtakes(Apply(sys, step), steps, d)
    ensures Overtakes(sys, [step] + steps, d)
  {
    assert ([step] + steps)[1..] == steps;
  }

  /** Without any live session every check that is left passes, and the session is opened. */
  lemma {:induction false} ClimbingOpens(sys: State, p: nat, d: nat) returns (steps: seq<Step>)
    requires Inv(sys) && AllLive(sys.sessions) == {} && d in sys.devices && !sys.devices[d].active
    requires CanStillOpen(sys, p, d)
    ensures Overtakes(sys, steps, d)
    decreases 8 - Rank(sys.procs[p].stage)
  {
    var step, rest := Advance(p), [];
    if sys.procs[p].stage.NodeHasRoom? {
      LastStepOpens(sys, p, d);
    } else {
      ClimbsOn(sys, p, d);
      rest := ClimbingOpens(Apply(sys, step), p, d);
    }
    First(sys, step, rest, d);
    steps := [step] + rest;
  }

  lemma ClimbsOn(sys: State, p: nat, d: nat)
    requires Inv(sys) && AllLive(sys.sessions) == {} && CanStillOpen(sys, p, d) && !sys.procs[p].stage.NodeHasRoom?
    ensures
      var next := Apply(sys, Advance(p));
      && Inv(next) && next.sessions == sys.sessions && next.devices == sys.devices
      && CanStillOpen(next, p, d) && Rank(next.procs[p].stage) == Rank(sys.procs[p].stage) + 1
  {
    NextCheckPasses(sys, p, d);
    StepKeeps(sys, Advance(p));
  }

  lemma LastStepOpens(sys: State, p: nat, d: nat)
    requires Inv(sys) && d in sys.devices && !sys.devices[d].active
    requires CanStillOpen(sys, p, d) && sys.procs[p].stage.NodeHasRoom?
    ensures Overtakes(Apply(sys, Advance(p)), [], d)
  {
    var proc, after := sys.procs[p], Apply(sys, Advance(p));
    assert after == Ends(Opened(sys, proc), p);
    LiveAfterOpening(sys, proc);
    assert OfDevice(after.sessions, d) == OfDevice(sys.sessions, d) + {sys.nextSession};
    assert Run(after, []) == after;
  }

  lemma NextCheckPasses(sys: State, p: nat, d: nat)
    requires Inv(sys) && AllLive(sys.sessions) == {} && CanStillOpen(sys, p, d) && !sys.procs[p].stage.NodeHasRoom?
    ensures
      var next := Apply(sys, Advance(p));
      && next == Goes(sys, p, sys.procs[p].(stage := Next(sys.procs[p].stage)))
      && CanStillOpen(next, p, d) && Rank(next.procs[p].stage) == Rank(sys.procs[p].stage) + 1
  {
    var proc := sys.procs[p];
    NobodyIsLive(sys.sessions);
    assert StillTrue(sys, proc);
    assert Passes(sys, proc);
  }

  lemma NobodyIsLive(sessions: map<nat, Tunnel>)
    requires AllLive(sessions) == {}
    ensures forall u :: OfUser(sessions, u) == {}
    ensures forall d :: OfDevice(sessions, d) == {}
    ensures forall n :: OfNode(sessions, n) == {}
  {
    assert forall s :: s in sessions && sessions[s].live ==> s in AllLive(sessions);
  }

  lemma ClosingLetsOpen(sys: State, s: nat, p: nat, d: nat)
    requires s in AllLive(sys.sessions) && CanStillOpen(sys, p, d)
    ensures
      var next := Apply(sys, CloseSession(s));
      CanStillOpen(next, p, d) && next.devices == sys.devices && AllLive(next.sessions) == AllLive(sys.sessions) - {s}
  {
    LiveAfterClosing(sys.sessions, {s});
  }

  /** First all sessions are closed, as anybody may at any time. */
  lemma {:induction false} ClosingOpens(sys: State, p: nat, d: nat) returns (steps: seq<Step>)
    requires Inv(sys) && d in sys.devices && !sys.devices[d].active && CanStillOpen(sys, p, d)
    ensures Overtakes(sys, steps, d)
    decreases |AllLive(sys.sessions)|
  {
    if AllLive(sys.sessions) == {} {
      steps := ClimbingOpens(sys, p, d);
    } else {
      var s :| s in AllLive(sys.sessions);
      var next := Apply(sys, CloseSession(s));
      StepKeeps(sys, CloseSession(s));
      ClosingLetsOpen(sys, s, p, d);
      var rest := ClosingOpens(next, p, d);
      First(sys, CloseSession(s), rest, d);
      steps := [CloseSession(s)] + rest;
    }
  }

  /**
   * An administrator's revocation takes no lock, and it is overtaken exactly by the connects that have
   * read the device row before the status was written. In any reachable state in which a device is not
   * active and has no live session, some continuation without a new registration gives it one if and
   * only if such a connect is still under way and the service, the account and the node admit sessions.
   */
  lemma OvertakenIff(start: State, steps: seq<Step>, sys: State, d: nat)
    requires Initial(start) && sys == Run(start, steps)
    requires d in sys.devices && !sys.devices[d].active && OfDevice(sys.sessions, d) == {}
    ensures (exists future :: Overtakes(sys, future, d)) <==> exists p :: CanStillOpen(sys, p, d)
  {
    InitialHolds(start);
    RunKeeps(start, steps);
    if p :| CanStillOpen(sys, p, d) {
      var future := ClosingOpens(sys, p, d);
      assert Overtakes(sys, future, d);
    } else {
      forall future ensures !Overtakes(sys, future, d) {
        if WithheldRun(sys, future, d) { RunStaysBarred(sys, future, d); }
      }
    }
  }

  // -------------------------------------------------------- such a run -----

  const BEFORE: seq<Step> := [
    Start(1, Connecting(0, 0, 0, 0, 10, Begun)),
    Advance(1), Advance(1), Advance(1), Advance(1),
    Start(2, Withdrawing(0, WithdrawBegun)),
    Advance(2), Advance(2), Advance(2)]

  /** One account, device and node, with a connect at `stage` and a revocation at `withdraw`. */
  function Scene(active: bool, procs: map<nat, Proc>): State {
    State(false, 0, map[0 := Station(false, 1)], map[0 := 1], map[0 := Credential(0, 10, 0, active)], map[], 0, procs, [], {})
  }

  function At(stage: Stage): Proc {
    Connecting(0, 0, 0, 0, 10, stage)
  }

  lemma {:induction false} LastStep(sys: State, steps: seq<Step>, step: Step)
    ensures Run(sys, steps + [step]) == Apply(Run(sys, steps), step)
    decreases |steps|
  {
    if steps == [] {
      assert steps + [step] == [step];
      assert Run(Apply(sys, step), []) == Apply(sys, step);
    } else {
      assert (steps + [step])[1..] == steps[1..] + [step];
      LastStep(Apply(sys, steps[0]), steps[1..], step);
    }
  }

  lemma ConnectReads()
    ensures Run(Scene(true, map[]), BEFORE[..5]) == Scene(true, map[1 := At(RowsRead)])
  {
    var s0, s1 := Scene(true, map[]), Scene(true, map[1 := At(Begun)]);
    assert Apply(s0, BEFORE[0]) == s1;
    assert Apply(s1, BEFORE[1]) == Scene(true, map[1 := At(GateShared)]);
    assert Apply(Scene(true, map[1 := At(GateShared)]), BEFORE[2]) == Scene(true, map[1 := At(UserLocked)]);
    assert Apply(Scene(true, map[1 := At(UserLocked)]), BEFORE[3]) == Scene(true, map[1 := At(NodeLocked)]);
    assert Apply(Scene(true, map[1 := At(NodeLocked)]), BEFORE[4]) == Scene(true, map[1 := At(RowsRead)]);
    assert Run(s0, BEFORE[..0]) == s0;
    LastStep(s0, BEFORE[..0], BEFORE[0]);
    assert BEFORE[..1] == BEFORE[..0] + [BEFORE[0]];
    LastStep(s0, BEFORE[..1], BEFORE[1]);
    assert BEFORE[..2] == BEFORE[..1] + [BEFORE[1]];
    LastStep(s0, BEFORE[..2], BEFORE[2]);
    assert BEFORE[..3] == BEFORE[..2] + [BEFORE[2]];
    LastStep(s0, BEFORE[..3], BEFORE[3]);
    assert BEFORE[..4] == BEFORE[..3] + [BEFORE[3]];
    LastStep(s0, BEFORE[..4], BEFORE[4]);
    assert BEFORE[..5] == BEFORE[..4] + [BEFORE[4]];
  }

  lemma RevocationRuns()
    ensures Run(Scene(true, map[]), BEFORE) == Scene(false, map[1 := At(RowsRead)])
  {
    var s0, s5 := Scene(true, map[]), Scene(true, map[1 := At(RowsRead)]);
    var begun := Scene(true, map[1 := At(RowsRead), 2 := Withdrawing(0, WithdrawBegun)]);
    var read := Scene(true, map[1 := At(RowsRead), 2 := Withdrawing(0, WithdrawRead)]);
    var listed := Scene(true, map[1 := At(RowsRead), 2 := Withdrawing(0, WithdrawListed({}))]);
    assert Apply(s5, BEFORE[5]) == begun;
    assert Apply(begun, BEFORE[6]) == read;
    assert OfDevice(read.sessions, 0) == {};
    assert Apply(read, BEFORE[7]) == listed;
    assert listed.procs - {2} == map[1 := At(RowsRead)];
    assert Apply(listed, BEFORE[8]) == Scene(false, map[1 := At(RowsRead)]);
    ConnectReads();
    LastStep(s0, BEFORE[..5], BEFORE[5]);
    assert BEFORE[..6] == BEFORE[..5] + [BEFORE[5]];
    LastStep(s0, BEFORE[..6], BEFORE[6]);
    assert BEFORE[..7] == BEFORE[..6] + [BEFORE[6]];
    LastStep(s0, BEFORE[..7], BEFORE[7]);
    assert BEFORE[..8] == BEFORE[..7] + [BEFORE[7]];
    LastStep(s0, BEFORE[..8], BEFORE[8]);
    assert BEFORE == BEFORE[..8] + [BEFORE[8]];
  }

  /**
   * A connect reads the device row; an administrator's revocation reads it too, finds no session to
   * close and writes the status; the connect goes on. The device is revoked and has a live session.
   */
  lemma RevocationIsOvertaken() returns (future: seq<Step>)
    ensures Initial(Scene(true, map[]))
    ensures
      var sys := Run(Scene(true, map[]), BEFORE);
      0 in sys.devices && !sys.devices[0].active && OfDevice(sys.sessions, 0) == {} && Overtakes(sys, future, 0)
  {
    InitialHolds(Scene(true, map[]));
    RunKeeps(Scene(true, map[]), BEFORE);
    RevocationRuns();
    future := ClosingOpens(Scene(false, map[1 := At(RowsRead)]), 1, 0);
  }

  // ---------------------------------------------------- one transaction ----

  /**
   * The tables as `Plane` has them. `plans` are the entitlements resolved for the accounts; that an account
   * is active, a node's heartbeat fresh and its tier covered is outside this module.
   */
  predicate Matches(sys: State, db: Plane.Db, plans: map<nat, Plan>) {
    && db.maintenance == sys.maintenance && db.nextSession == sys.nextSession
    && (forall u :: u in sys.allowance ==> u in db.users && u in plans && sys.allowance[u] == Allowance(db.users[u], plans[u]))
    && (forall n :: n in sys.nodes ==>
          n in db.nodes && db.nodes[n].maintenance == sys.nodes[n].maintenance && db.nodes[n].capacity == sys.nodes[n].capacity)
    && (forall d :: d in sys.devices ==>
          d in db.devices && db.devices[d] == Device(sys.devices[d].user, sys.devices[d].key, sys.devices[d].active, sys.devices[d].version))
    && db.sessions.Keys == sys.sessions.Keys
    && (forall s :: s in sys.sessions ==> SameTunnel(sys.sessions[s], db.sessions[s]))
  }

  predicate SameTunnel(tunnel: Tunnel, session: Session) {
    && tunnel.live == Live(session) && tunnel.user == session.user && tunnel.device == session.device
    && tunnel.node == session.node && tunnel.key == session.key
  }

  lemma SameLive(sys: State, db: Plane.Db, plans: map<nat, Plan>)
    requires Matches(sys, db, plans)
    ensures forall u :: OfUser(sys.sessions, u) == LiveOfUser(db.sessions, u)
    ensures forall d :: OfDevice(sys.sessions, d) == LiveOfDevice(db.sessions, d)
    ensures forall n :: OfNode(sys.sessions, n) == LiveOfNode(db.sessions, n)
  {
  }

  /**
   * The commit of a connect that made its checks under its locks, however many statements ago, is what
   * the one-step transaction of `Plane` does to the rows as they are now, provided the device has not
   * been revoked since and nothing outside this module refuses.
   */
  lemma CommitIsCreateSession(start: State, steps: seq<Step>, sys: State, p: nat, db: Plane.Db, plans: map<nat, Plan>)
    requires Initial(start) && sys == Run(start, steps) && Fitted(sys, p) && Matches(sys, db, plans)
    requires sys.procs[p].device in sys.devices ==> sys.devices[sys.procs[p].device].active
    requires sys.procs[p].user in db.users && db.users[sys.procs[p].user].active && sys.procs[p].user in plans
    requires sys.procs[p].node in db.nodes && db.nodes[sys.procs[p].node].online
    requires db.nodes[sys.procs[p].node].tier <= plans[sys.procs[p].user].tier && Plane.FreeAddresses(db, sys.procs[p].node) != {}
    ensures
      var proc := sys.procs[p];
      var outcome := Plane.CreateSession(db, proc.user, proc.device, proc.version, proc.key, proc.node, plans[proc.user]);
      outcome.Ok? && Matches(Advanced(sys, p), outcome.value, plans)
  {
    var proc := sys.procs[p];
    InitialHolds(start);
    RunKeeps(start, steps);
    FittedMeans(sys, p);
    SameLive(sys, db, plans);
    assert Plane.Admissible(db, proc.user, proc.device, proc.version, proc.node, plans[proc.user]);
    OpenedMatches(sys, p, db, plans);
  }

  lemma OpenedMatches(sys: State, p: nat, db: Plane.Db, plans: map<nat, Plan>)
    requires IdsIssued(sys) && Fitted(sys, p) && Matches(sys, db, plans) && sys.procs[p].user in plans
    requires Plane.Admissible(db, sys.procs[p].user, sys.procs[p].device, sys.procs[p].version, sys.procs[p].node, plans[sys.procs[p].user])
    ensures
      var proc := sys.procs[p];
      var outcome := Plane.CreateSession(db, proc.user, proc.device, proc.version, proc.key, proc.node, plans[proc.user]);
      outcome.Ok? && Matches(Advanced(sys, p), outcome.value, plans)
  {
    var proc, after := sys.procs[p], Advanced(sys, p);
    assert after == Ends(Opened(sys, proc), p);
    OneRowIsNew(db, proc.user, proc.device, proc.version, proc.key, proc.node, plans[proc.user]);
    var next := Plane.CreateSession(db, proc.user, proc.device, proc.version, proc.key, proc.node, plans[proc.user]).value;
    forall s | s in after.sessions ensures SameTunnel(after.sessions[s], next.sessions[s]) {
      assert s in sys.sessions ==> SameTunnel(sys.sessions[s], db.sessions[s]);
    }
  }

  lemma OneRowIsNew(db: Plane.Db, u: nat, d: nat, version: nat, key: nat, n: nat, plan: Plan)
    requires db.nextSession !in db.sessions && Plane.Admissible(db, u, d, version, n, plan)
    ensures
      var outcome, s := Plane.CreateSession(db, u, d, version, key, n, plan), db.nextSession;
      && outcome.Ok? && s in outcome.value.sessions && outcome.value.sessions == db.sessions[s := outcome.value.sessions[s]]
      && SameTunnel(Tunnel(u, d, n, key, true), outcome.value.sessions[s]) && outcome.value.nextSession == s + 1
      && outcome.value == db.(sessions := outcome.value.sessions, nextSession := s + 1,
                              leases := outcome.value.leases, commands := outcome.value.commands)
  {
    Plane.ConnectAdmits(db, u, d, version, key, n, plan);
  }
}
