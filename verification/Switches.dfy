/**
 * What the transactions of `Gate` have done once they commit: with others under way, and when nobody
 * interferes, in which case a transaction goes through exactly when nothing speaks against it.
 */
module Switches {
  import Rows
  import opened Gate

  // ----------------------------------------------------- what was listed ----

  /** The sessions a transaction is about to close are of the node or the device it is about. */
  predicate ListsItsOwn(sessions: map<nat, Tunnel>, proc: Proc) {
    match proc
    case Connecting(_, _, _, _, _, _) => true
    case Updating(_, maintenance, phase) => phase.Listed? && maintenance != Rows.Some(true) ==> phase.rows == {}
    case Toggling(n, enabled, phase) =>
      && (phase.Listed? ==> forall s :: s in phase.rows ==> s in sessions && sessions[s].node == n)
      && (phase.Listed? && !enabled ==> phase.rows == {})
    case Revoking(_, d, revoke) => revoke.RevokeListed? ==> forall s :: s in revoke.rows ==> s in sessions && sessions[s].device == d
    case Withdrawing(d, withdraw) => withdraw.WithdrawListed? ==> forall s :: s in withdraw.left ==> s in sessions && sessions[s].device == d
    case Registering(_, _, _, _) => true
  }

  predicate ListsAreRight(sys: State) {
    IdsIssued(sys) && forall p :: p in sys.procs ==> ListsItsOwn(sys.sessions, sys.procs[p])
  }

  /** Session rows stay, with their node, device, account and key. */
  predicate RowsStay(sessions: map<nat, Tunnel>, after: map<nat, Tunnel>) {
    forall s :: s in sessions ==> s in after && after[s] == sessions[s].(live := after[s].live)
  }

  lemma StayingListed(sessions: map<nat, Tunnel>, after: map<nat, Tunnel>, proc: Proc)
    requires RowsStay(sessions, after) && ListsItsOwn(sessions, proc)
    ensures ListsItsOwn(after, proc)
  {
  }

  lemma GoingKeepsLists(sys: State, p: nat, next: Proc)
    requires ListsAreRight(sys) && ListsItsOwn(sys.sessions, next)
    ensures ListsAreRight(Goes(sys, p, next))
  {
  }

  /** Processes end, and rows other than sessions change. */
  lemma EndingKeepsLists(sys: State, after: State)
    requires ListsAreRight(sys)
    requires after.sessions == sys.sessions && after.nextSession == sys.nextSession
    requires forall q :: q in after.procs ==> q in sys.procs && after.procs[q] == sys.procs[q]
    ensures ListsAreRight(after)
  {
  }

  lemma ClosingKeepsLists(sys: State, rows: set<nat>)
    requires ListsAreRight(sys)
    ensures ListsAreRight(sys.(sessions := Closed(sys.sessions, rows)))
  {
    forall q | q in sys.procs ensures ListsItsOwn(Closed(sys.sessions, rows), sys.procs[q]) {
      StayingListed(sys.sessions, Closed(sys.sessions, rows), sys.procs[q]);
    }
  }

  lemma OpeningKeepsLists(sys: State, proc: Proc)
    requires ListsAreRight(sys) && proc.Connecting?
    ensures ListsAreRight(Opened(sys, proc))
  {
    var after := Opened(sys, proc);
    forall q | q in sys.procs ensures ListsItsOwn(after.sessions, sys.procs[q]) {
      StayingListed(sys.sessions, after.sessions, sys.procs[q]);
    }
  }

  lemma ConnectKeepsLists(sys: State, p: nat)
    requires ListsAreRight(sys) && p in sys.procs && sys.procs[p].Connecting?
    ensures ListsAreRight(AdvanceConnect(sys, p, sys.procs[p]))
  {
    var proc := sys.procs[p];
    GoingKeepsLists(sys, p, proc.(stage := Next(proc.stage)));
    EndingKeepsLists(sys, Ends(sys, p));
    if proc.stage.NodeHasRoom? {
      OpeningKeepsLists(sys, proc);
      EndingKeepsLists(Opened(sys, proc), Ends(Opened(sys, proc), p));
    }
  }

  lemma UpdateKeepsLists(sys: State, p: nat)
    requires ListsAreRight(sys) && p in sys.procs && sys.procs[p].Updating?
    ensures ListsAreRight(AdvanceUpdate(sys, p, sys.procs[p]))
  {
    var proc := sys.procs[p];
    EndingKeepsLists(sys, Ends(sys, p));
    match proc.update
    case Waiting => GoingKeepsLists(sys, p, proc.(update := Holding));
    case Holding => GoingKeepsLists(sys, p, proc.(update := Matched));
    case Matched =>
      GoingKeepsLists(sys, p, proc.(update := Listed(if proc.maintenance == Rows.Some(true) then AllLive(sys.sessions) else {})));
    case Listed(rows) =>
      ClosingKeepsLists(sys, rows);
      EndingKeepsLists(sys.(sessions := Closed(sys.sessions, rows)), AdvanceUpdate(sys, p, proc));
  }

  lemma ToggleKeepsLists(sys: State, p: nat)
    requires ListsAreRight(sys) && p in sys.procs && sys.procs[p].Toggling?
    ensures ListsAreRight(AdvanceToggle(sys, p, sys.procs[p]))
  {
    var proc := sys.procs[p];
    EndingKeepsLists(sys, Ends(sys, p));
    match proc.toggle
    case Waiting => GoingKeepsLists(sys, p, proc.(toggle := Holding));
    case Holding => GoingKeepsLists(sys, p, proc.(toggle := Matched));
    case Matched => GoingKeepsLists(sys, p, proc.(toggle := Listed(if proc.enabled then OfNode(sys.sessions, proc.node) else {})));
    case Listed(rows) =>
      if proc.node in sys.nodes {
        ClosingKeepsLists(sys, rows);
        EndingKeepsLists(sys.(sessions := Closed(sys.sessions, rows)), AdvanceToggle(sys, p, proc));
      }
  }

  lemma RevokeKeepsLists(sys: State, p: nat)
    requires ListsAreRight(sys) && p in sys.procs && sys.procs[p].Revoking?
    ensures ListsAreRight(AdvanceRevoke(sys, p, sys.procs[p]))
  {
    var proc := sys.procs[p];
    EndingKeepsLists(sys, Ends(sys, p));
    match proc.revoke
    case RevokeBegun => GoingKeepsLists(sys, p, proc.(revoke := RevokeGate));
    case RevokeGate => GoingKeepsLists(sys, p, proc.(revoke := RevokeUser));
    case RevokeUser => GoingKeepsLists(sys, p, proc.(revoke := RevokeListed(OfDevice(sys.sessions, proc.device))));
    case RevokeListed(rows) =>
      if proc.device in sys.devices {
        ClosingKeepsLists(sys, rows);
        EndingKeepsLists(sys.(sessions := Closed(sys.sessions, rows)), AdvanceRevoke(sys, p, proc));
      }
  }

  lemma WithdrawKeepsLists(sys: State, p: nat)
    requires ListsAreRight(sys) && p in sys.procs && sys.procs[p].Withdrawing?
    ensures ListsAreRight(Advanced(sys, p))
  {
    var proc := sys.procs[p];
    EndingKeepsLists(sys, Ends(sys, p));
    match proc.withdraw
    case WithdrawBegun => GoingKeepsLists(sys, p, proc.(withdraw := WithdrawRead));
    case WithdrawRead => GoingKeepsLists(sys, p, proc.(withdraw := WithdrawListed(OfDevice(sys.sessions, proc.device))));
    case WithdrawListed(left) =>
      if left != {} {
        var s := WithdrawCloses(sys, p);
        ClosingKeepsLists(sys, {s});
        GoingKeepsLists(sys.(sessions := Closed(sys.sessions, {s})), p, proc.(withdraw := WithdrawListed(left - {s})));
      } else if proc.device in sys.devices {
        EndingKeepsLists(sys, Ends(Withdrawn(sys, proc.device), p));
      }
  }

  lemma RegisterKeepsLists(sys: State, p: nat)
    requires ListsAreRight(sys) && p in sys.procs && sys.procs[p].Registering?
    ensures ListsAreRight(AdvanceRegister(sys, p, sys.procs[p]))
  {
    RegisterMoves(sys, p);
    var after := AdvanceRegister(sys, p, sys.procs[p]);
    if p in after.procs {
      GoingKeepsLists(sys, p, after.procs[p]);
    } else {
      EndingKeepsLists(sys, after);
    }
  }

  /** A registration takes its next step, waits, or ends with its device row written. */
  lemma RegisterMoves(sys: State, p: nat)
    requires p in sys.procs && sys.procs[p].Registering?
    ensures
      var after := AdvanceRegister(sys, p, sys.procs[p]);
      if p in after.procs then after.procs[p].Registering? && after == Goes(sys, p, after.procs[p])
      else after == Ends(sys.(devices := after.devices, revoked := after.revoked), p)
  {
    var proc := sys.procs[p];
    assert sys.procs[p := proc] == sys.procs;
    match proc.register
    case RegisterBegun =>
    case RegisterUser =>
    case RegisterChosen(_) => RegisterWrites(sys, p);
  }

  lemma RegisterWrites(sys: State, p: nat)
    requires p in sys.procs && sys.procs[p].Registering? && sys.procs[p].register.RegisterChosen?
    ensures
      var after := AdvanceRegister(sys, p, sys.procs[p]);
      p !in after.procs && after == Ends(sys.(devices := after.devices, revoked := after.revoked), p)
  {
  }

  lemma StepKeepsLists(sys: State, step: Step)
    requires ListsAreRight(sys)
    ensures ListsAreRight(Apply(sys, step))
  {
    match step
    case Start(p, proc) => if AtStart(sys, proc) { GoingKeepsLists(sys, p, proc); }
    case Advance(p) => if p in sys.procs { AdvanceKeepsLists(sys, p); }
    case Abort(p) => EndingKeepsLists(sys, Ends(sys, p));
    case CloseSession(s) => ClosingKeepsLists(sys, {s});
    case AddDevice(_, _, _) => EndingKeepsLists(sys, Apply(sys, step));
  }

  lemma AdvanceKeepsLists(sys: State, p: nat)
    requires ListsAreRight(sys) && p in sys.procs
    ensures ListsAreRight(Advanced(sys, p))
  {
    match sys.procs[p]
    case Connecting(_, _, _, _, _, _) => ConnectKeepsLists(sys, p);
    case Updating(_, _, _) => UpdateKeepsLists(sys, p);
    case Toggling(_, _, _) => ToggleKeepsLists(sys, p);
    case Revoking(_, _, _) => RevokeKeepsLists(sys, p);
    case Withdrawing(_, _) => WithdrawKeepsLists(sys, p);
    case Registering(_, _, _, _) => RegisterKeepsLists(sys, p);
  }

  lemma {:induction false} RunKeepsLists(sys: State, steps: seq<Step>)
    requires ListsAreRight(sys)
    ensures ListsAreRight(Run(sys, steps))
    decreases |steps|
  {
    if steps != [] {
      StepKeepsLists(sys, steps[0]);
      RunKeepsLists(Apply(sys, steps[0]), steps[1..]);
    }
  }

  lemma InReach(start: State, steps: seq<Step>)
    requires Initial(start)
    ensures Inv(Run(start, steps)) && ListsAreRight(Run(start, steps))
  {
    InitialHolds(start);
    RunKeeps(start, steps);
    RunKeepsLists(start, steps);
  }

  // -------------------------------------------------------------- commits ----

  lemma Known(start: State, steps: seq<Step>, p: nat)
    requires Initial(start) && p in Run(start, steps).procs
    ensures StillTrue(Run(start, steps), Run(start, steps).procs[p]) && ListsItsOwn(Run(start, steps).sessions, Run(start, steps).procs[p])
  {
    InReach(start, steps);
  }

  /**
   * A settings update that commits finds the version it expected and raises it by one; the maintenance
   * switch is as requested, or as it was if nothing was; every session is closed if it was switched on,
   * none otherwise; and nothing else changes.
   */
  lemma UpdateCommits(start: State, steps: seq<Step>, sys: State, p: nat)
    requires Initial(start) && sys == Run(start, steps) && p in sys.procs
    requires sys.procs[p].Updating? && sys.procs[p].update.Listed?
    ensures
      var update, after := sys.procs[p], Apply(sys, Advance(p));
      && sys.version == update.expected
      && (update.maintenance == Rows.None ==> after.maintenance == sys.maintenance)
      && (forall on :: update.maintenance == Rows.Some(on) ==> after.maintenance == on)
      && after.sessions.Keys == sys.sessions.Keys
      && (forall s :: s in sys.sessions ==>
            after.sessions[s] == sys.sessions[s].(live := sys.sessions[s].live && update.maintenance != Rows.Some(true)))
      && after == sys.(maintenance := after.maintenance, version := update.expected + 1, updates := sys.updates + [update.expected],
                       sessions := after.sessions, procs := sys.procs - {p})
  {
    Known(start, steps, p);
    forall s | s in sys.sessions && sys.sessions[s].live && s !in sys.procs[p].update.rows ensures sys.procs[p].maintenance != Rows.Some(true) {
      assert s in AllLive(sys.sessions);
    }
  }

  /** A node's maintenance that commits is as requested; exactly the node's sessions are closed when it is switched on. */
  lemma ToggleCommits(start: State, steps: seq<Step>, sys: State, p: nat)
    requires Initial(start) && sys == Run(start, steps) && p in sys.procs
    requires sys.procs[p].Toggling? && sys.procs[p].toggle.Listed?
    requires sys.procs[p].node in sys.nodes
    ensures
      var toggle, after := sys.procs[p], Apply(sys, Advance(p));
      && after.sessions.Keys == sys.sessions.Keys
      && (forall s :: s in sys.sessions ==>
            after.sessions[s] == sys.sessions[s].(live := sys.sessions[s].live && !(toggle.enabled && sys.sessions[s].node == toggle.node)))
      && after == sys.(nodes := sys.nodes[toggle.node := sys.nodes[toggle.node].(maintenance := toggle.enabled)],
                       sessions := after.sessions, procs := sys.procs - {p})
  {
    Known(start, steps, p);
    assert forall s :: s in sys.sessions && sys.sessions[s].live ==> s in OfNode(sys.sessions, sys.sessions[s].node);
  }

  /**
   * A revocation by the owner that commits makes the device inactive, closes exactly its sessions, and
   * raises the epoch of its credentials unless it was inactive already.
   */
  lemma RevokeCommits(start: State, steps: seq<Step>, sys: State, p: nat)
    requires Initial(start) && sys == Run(start, steps) && p in sys.procs
    requires sys.procs[p].Revoking? && sys.procs[p].revoke.RevokeListed?
    ensures
      var d, after := sys.procs[p].device, Apply(sys, Advance(p));
      && d in sys.devices && sys.devices[d].user == sys.procs[p].user
      && after.sessions.Keys == sys.sessions.Keys
      && (forall s :: s in sys.sessions ==>
            after.sessions[s] == sys.sessions[s].(live := sys.sessions[s].live && sys.sessions[s].device != d))
      && var epoch := sys.devices[d].version;
         var device := Credential(sys.devices[d].user, sys.devices[d].key, if sys.devices[d].active then epoch + 1 else epoch, false);
         after == sys.(devices := sys.devices[d := device], revoked := sys.revoked + {d}, sessions := after.sessions, procs := sys.procs - {p})
  {
    Known(start, steps, p);
    assert forall s :: s in sys.sessions && sys.sessions[s].live ==> s in OfDevice(sys.sessions, sys.sessions[s].device);
  }

  /**
   * A registration that commits raises the epoch of the device, which is active afterwards: an inactive
   * one is taken back with its key, an active one, which has no live session, gets the new key.
   */
  lemma RegisterCommits(start: State, steps: seq<Step>, sys: State, p: nat)
    requires Initial(start) && sys == Run(start, steps) && p in sys.procs
    requires sys.procs[p].Registering? && sys.procs[p].register.RegisterChosen?
    ensures
      var registering, after := sys.procs[p], Apply(sys, Advance(p));
      var d := registering.device;
      && d in sys.devices && sys.devices[d].user == registering.user
      && if registering.register.rotating then
           && (forall s :: s in sys.sessions && sys.sessions[s].device == d ==> !sys.sessions[s].live)
           && if exists e :: e in sys.devices && sys.devices[e].key == registering.newKey then after == sys.(procs := sys.procs - {p})
              else after == sys.(devices := sys.devices[d := sys.devices[d].(key := registering.newKey, version := sys.devices[d].version + 1)],
                                 procs := sys.procs - {p})
         else
           after == sys.(devices := sys.devices[d := sys.devices[d].(active := true, version := sys.devices[d].version + 1)],
                         revoked := sys.revoked - {d}, procs := sys.procs - {p})
  {
    Known(start, steps, p);
    assert forall s :: s in sys.sessions && sys.sessions[s].live ==> s in OfDevice(sys.sessions, sys.sessions[s].device);
  }

  // ----------------------------------------------------- between two commits ----

  /** No session was opened. */
  predicate NoneOpened(sys: State, after: State) {
    after.nextSession == sys.nextSession && after.sessions.Keys == sys.sessions.Keys
  }

  /** One session was opened, where nothing is in maintenance. */
  predicate OneOpened(sys: State, after: State) {
    && !sys.maintenance && after.nextSession == sys.nextSession + 1 && after.sessions.Keys == sys.sessions.Keys + {sys.nextSession}
    && after.sessions[sys.nextSession].node in sys.nodes && !sys.nodes[after.sessions[sys.nextSession].node].maintenance
  }

  /** The step commits node maintenance of `n`. */
  predicate Toggles(sys: State, step: Step, n: nat) {
    && step.Advance? && step.p in sys.procs && sys.procs[step.p].Toggling?
    && sys.procs[step.p].node == n && sys.procs[step.p].toggle.Listed?
  }

  predicate SwitchesStay(sys: State, after: State) {
    after.maintenance == sys.maintenance && after.version == sys.version && after.nodes == sys.nodes
  }

  lemma ConnectOpens(sys: State, p: nat)
    requires Inv(sys) && p in sys.procs && sys.procs[p].Connecting?
    ensures SwitchesStay(sys, AdvanceConnect(sys, p, sys.procs[p])) && RowsStay(sys.sessions, AdvanceConnect(sys, p, sys.procs[p]).sessions)
    ensures NoneOpened(sys, AdvanceConnect(sys, p, sys.procs[p])) || OneOpened(sys, AdvanceConnect(sys, p, sys.procs[p]))
  {
    if sys.procs[p].stage.NodeHasRoom? {
      FittedMeans(sys, p);
      OneMore(sys, sys.procs[p]);
    } else {
      ClimbingOnlyMoves(sys, p);
    }
  }

  lemma ClimbingOnlyMoves(sys: State, p: nat)
    requires p in sys.procs && sys.procs[p].Connecting? && !sys.procs[p].stage.NodeHasRoom?
    ensures AdvanceConnect(sys, p, sys.procs[p]) == sys.(procs := AdvanceConnect(sys, p, sys.procs[p]).procs)
  {
  }

  lemma OneMore(sys: State, proc: Proc)
    requires IdsIssued(sys) && proc.Connecting? && !sys.maintenance
    requires proc.node in sys.nodes && !sys.nodes[proc.node].maintenance
    ensures OneOpened(sys, Opened(sys, proc)) && RowsStay(sys.sessions, Opened(sys, proc).sessions)
  {
  }

  /** `after` differs in that the sessions of `rows` were closed, and not in its sessions otherwise. */
  lemma ClosedOnly(sys: State, after: State, rows: set<nat>)
    requires after.nextSession == sys.nextSession
    requires after.sessions == sys.sessions || after.sessions == Closed(sys.sessions, rows)
    ensures NoneOpened(sys, after) && RowsStay(sys.sessions, after.sessions)
  {
  }

  lemma UpdateSwitches(sys: State, p: nat)
    requires p in sys.procs && sys.procs[p].Updating?
    ensures
      var after := AdvanceUpdate(sys, p, sys.procs[p]);
      && NoneOpened(sys, after) && RowsStay(sys.sessions, after.sessions) && after.nodes == sys.nodes
      && (SwitchesStay(sys, after) || after.version > sys.version)
  {
    var after, update := AdvanceUpdate(sys, p, sys.procs[p]), sys.procs[p].update;
    ClosedOnly(sys, after, if update.Listed? then update.rows else {});
    match update
    case Waiting =>
    case Holding =>
    case Matched =>
    case Listed(_) => assert after.version == sys.version + 1;
  }

  lemma ToggleSwitches(sys: State, p: nat)
    requires p in sys.procs && sys.procs[p].Toggling?
    ensures
      var after := AdvanceToggle(sys, p, sys.procs[p]);
      && NoneOpened(sys, after) && RowsStay(sys.sessions, after.sessions) && after.maintenance == sys.maintenance && after.version == sys.version
      && after.nodes.Keys == sys.nodes.Keys
      && forall n :: n in sys.nodes && !Toggles(sys, Advance(p), n) ==> after.nodes[n] == sys.nodes[n]
  {
    var after, toggle := AdvanceToggle(sys, p, sys.procs[p]), sys.procs[p].toggle;
    ClosedOnly(sys, after, if toggle.Listed? then toggle.rows else {});
  }

  lemma RevokeSwitches(sys: State, p: nat)
    requires p in sys.procs && sys.procs[p].Revoking?
    ensures
      var after := AdvanceRevoke(sys, p, sys.procs[p]);
      NoneOpened(sys, after) && RowsStay(sys.sessions, after.sessions) && SwitchesStay(sys, after)
  {
    var after, revoke := AdvanceRevoke(sys, p, sys.procs[p]), sys.procs[p].revoke;
    ClosedOnly(sys, after, if revoke.RevokeListed? then revoke.rows else {});
  }

  lemma WithdrawSwitches(sys: State, p: nat)
    requires p in sys.procs && sys.procs[p].Withdrawing?
    ensures
      var after := Advanced(sys, p);
      NoneOpened(sys, after) && RowsStay(sys.sessions, after.sessions) && SwitchesStay(sys, after)
  {
    var withdraw := sys.procs[p].withdraw;
    if withdraw.WithdrawListed? && withdraw.left != {} { var s := WithdrawCloses(sys, p); }
  }

  lemma AdvanceOpens(sys: State, p: nat)
    requires Inv(sys) && p in sys.procs
    ensures
      var after := Advanced(sys, p);
      && (NoneOpened(sys, after) || OneOpened(sys, after)) && RowsStay(sys.sessions, after.sessions)
      && (after.version > sys.version || (after.version == sys.version && after.maintenance == sys.maintenance))
      && after.nodes.Keys == sys.nodes.Keys
      && forall n :: n in sys.nodes && !Toggles(sys, Advance(p), n) ==> after.nodes[n] == sys.nodes[n]
  {
    match sys.procs[p]
    case Connecting(_, _, _, _, _, _) => ConnectOpens(sys, p);
    case Updating(_, _, _) => UpdateSwitches(sys, p);
    case Toggling(_, _, _) => ToggleSwitches(sys, p);
    case Revoking(_, _, _) => RevokeSwitches(sys, p);
    case Withdrawing(_, _) => WithdrawSwitches(sys, p);
    case Registering(_, _, _, _) => RegisterMoves(sys, p);
  }

  lemma StepOpens(sys: State, step: Step)
    requires Inv(sys)
    ensures
      var after := Apply(sys, step);
      && (NoneOpened(sys, after) || OneOpened(sys, after)) && RowsStay(sys.sessions, after.sessions)
      && (after.version > sys.version || (after.version == sys.version && after.maintenance == sys.maintenance))
      && after.nodes.Keys == sys.nodes.Keys
      && forall n :: n in sys.nodes && !Toggles(sys, step, n) ==> after.nodes[n] == sys.nodes[n]
  {
    match step
    case Start(_, _) => ClosedOnly(sys, Apply(sys, step), {});
    case Advance(p) => if p in sys.procs { AdvanceOpens(sys, p); }
    case Abort(_) => ClosedOnly(sys, Apply(sys, step), {});
    case CloseSession(s) => ClosedOnly(sys, Apply(sys, step), {s});
    case AddDevice(_, _, _) => ClosedOnly(sys, Apply(sys, step), {});
  }

  lemma {:induction false} RunUnderMaintenance(sys: State, steps: seq<Step>)
    requires Inv(sys)
    ensures
      var after := Run(sys, steps);
      && after.version >= sys.version
      && (sys.maintenance && after.version == sys.version ==> after.maintenance && NoneOpened(sys, after))
    decreases |steps|
  {
    if steps != [] {
      StepOpens(sys, steps[0]);
      StepKeeps(sys, steps[0]);
      RunUnderMaintenance(Apply(sys, steps[0]), steps[1..]);
    }
  }

  /**
   * Between a settings update that switches maintenance on and the next update that succeeds, no connect
   * commits and no session is live, however many are under way.
   */
  lemma ClosedUntilNextUpdate(start: State, steps: seq<Step>, sys: State, p: nat, more: seq<Step>)
    requires Initial(start) && sys == Run(start, steps) && p in sys.procs
    requires sys.procs[p].Updating? && sys.procs[p].update.Listed? && sys.procs[p].maintenance == Rows.Some(true)
    ensures
      var committed := Apply(sys, Advance(p));
      var later := Run(committed, more);
      |later.updates| == |committed.updates| ==>
        && later.maintenance && later.nextSession == sys.nextSession && later.sessions.Keys == sys.sessions.Keys
        && forall s :: s in later.sessions ==> !later.sessions[s].live
  {
    UpdateCommits(start, steps, sys, p);
    CommittedHolds(start, steps, p, more);
    RunUnderMaintenance(Apply(sys, Advance(p)), more);
    var later := Run(Apply(sys, Advance(p)), more);
    forall s | s in later.sessions && later.sessions[s].live ensures s in AllLive(later.sessions) {}
  }

  lemma CommittedHolds(start: State, steps: seq<Step>, p: nat, more: seq<Step>)
    requires Initial(start)
    ensures
      var committed := Apply(Run(start, steps), Advance(p));
      var later := Run(committed, more);
      Inv(committed) && UpdatesInTurn(committed) && UpdatesInTurn(later) && MaintenanceHolds(later)
  {
    InReach(start, steps);
    StepKeeps(Run(start, steps), Advance(p));
    RunKeeps(Apply(Run(start, steps), Advance(p)), more);
  }

  /** No step of the run commits node maintenance of `n`. */
  ghost predicate NeverToggled(sys: State, steps: seq<Step>, n: nat)
    decreases |steps|
  {
    steps == [] || (!Toggles(sys, steps[0], n) && NeverToggled(Apply(sys, steps[0]), steps[1..], n))
  }

  lemma {:induction false} RowsStayInRuns(sys: State, steps: seq<Step>)
    requires Inv(sys)
    ensures RowsStay(sys.sessions, Run(sys, steps).sessions)
    decreases |steps|
  {
    if steps != [] {
      StepOpens(sys, steps[0]);
      StepKeeps(sys, steps[0]);
      RowsStayInRuns(Apply(sys, steps[0]), steps[1..]);
    }
  }

  lemma {:induction false} RunUnderNodeMaintenance(sys: State, steps: seq<Step>, n: nat)
    requires Inv(sys) && n in sys.nodes && sys.nodes[n].maintenance && NeverToggled(sys, steps, n)
    ensures
      var after := Run(sys, steps);
      && n in after.nodes && after.nodes[n].maintenance
      && forall s :: s in after.sessions && s !in sys.sessions ==> after.sessions[s].node != n
    decreases |steps|
  {
    if steps == [] {
    } else {
      StepOpens(sys, steps[0]);
      StepKeeps(sys, steps[0]);
      RunUnderNodeMaintenance(Apply(sys, steps[0]), steps[1..], n);
      RowsStayInRuns(Apply(sys, steps[0]), steps[1..]);
    }
  }

  /** The same for a node: until its maintenance is switched again no session is opened on it, and none is live. */
  lemma ClosedUntilNextToggle(start: State, steps: seq<Step>, sys: State, p: nat, more: seq<Step>)
    requires Initial(start) && sys == Run(start, steps) && p in sys.procs
    requires sys.procs[p].Toggling? && sys.procs[p].toggle.Listed? && sys.procs[p].enabled && sys.procs[p].node in sys.nodes
    requires NeverToggled(Apply(sys, Advance(p)), more, sys.procs[p].node)
    ensures
      var later := Run(Apply(sys, Advance(p)), more);
      forall s :: s in later.sessions && later.sessions[s].node == sys.procs[p].node ==> s in sys.sessions && !later.sessions[s].live
  {
    ToggleCommits(start, steps, sys, p);
    CommittedHolds(start, steps, p, more);
    var n, committed := sys.procs[p].node, Apply(sys, Advance(p));
    var later := Run(committed, more);
    RunUnderNodeMaintenance(committed, more, n);
    forall s | s in later.sessions && later.sessions[s].node == n && later.sessions[s].live ensures s in OfNode(later.sessions, n) {}
  }

  /** Connects of different accounts on different nodes never wait for each other, nor a registration for a revocation of another account. */
  lemma SideBySide(a: Proc, b: Proc)
    requires a.Connecting? || a.Registering?
    requires b.Connecting? || b.Revoking? || b.Registering?
    requires a.user != b.user && (a.Connecting? && b.Connecting? ==> a.node != b.node)
    ensures Compatible(a, b) && Compatible(b, a)
  {
  }

  // ---------------------------------------------------------- undisturbed ----

  /** Process `p` takes `k` steps and nobody else does anything. */
  ghost function Moves(p: nat, k: nat): seq<Step> {
    if k == 0 then [] else [Advance(p)] + Moves(p, k - 1)
  }

  /** A process is started and left alone for `k` steps. */
  ghost function Alone(sys: State, p: nat, proc: Proc, k: nat): State {
    Run(sys, [Start(p, proc)] + Moves(p, k))
  }

  lemma Starts(sys: State, p: nat, proc: Proc, k: nat)
    requires p !in sys.procs && AtStart(sys, proc)
    ensures Alone(sys, p, proc, k) == Run(Goes(sys, p, proc), Moves(p, k))
  {
    assert ([Start(p, proc)] + Moves(p, k))[1..] == Moves(p, k);
  }

  lemma Moved(sys: State, p: nat, k: nat)
    requires k > 0 && p in sys.procs
    ensures Run(sys, Moves(p, k)) == Run(Advanced(sys, p), Moves(p, k - 1))
  {
    assert ([Advance(p)] + Moves(p, k - 1))[1..] == Moves(p, k - 1);
  }

  lemma {:induction false} Over(sys: State, p: nat, k: nat)
    requires p !in sys.procs
    ensures Run(sys, Moves(p, k)) == sys
  {
    if k > 0 {
      assert ([Advance(p)] + Moves(p, k - 1))[1..] == Moves(p, k - 1);
      Over(sys, p, k - 1);
    }
  }

  /** A process that is the only change so far moves on to `next`. */
  lemma MovesOn(sys: State, p: nat, proc: Proc, next: Proc, k: nat)
    requires k > 0 && Advanced(Goes(sys, p, proc), p) == Goes(Goes(sys, p, proc), p, next)
    ensures Run(Goes(sys, p, proc), Moves(p, k)) == Run(Goes(sys, p, next), Moves(p, k - 1))
  {
    Moved(Goes(sys, p, proc), p, k);
    assert Goes(Goes(sys, p, proc), p, next) == Goes(sys, p, next);
  }

  /** A process that is the only change so far gives up, and leaves nothing behind. */
  lemma GivesUp(sys: State, p: nat, proc: Proc, k: nat)
    requires k > 0 && p !in sys.procs && Advanced(Goes(sys, p, proc), p) == Ends(Goes(sys, p, proc), p)
    ensures Run(Goes(sys, p, proc), Moves(p, k)) == sys
  {
    Moved(Goes(sys, p, proc), p, k);
    Over(Ends(Goes(sys, p, proc), p), p, k - 1);
    assert sys.procs[p := proc] - {p} == sys.procs;
  }

  /** A process that is the only change so far takes its last step. */
  lemma Finishes(sys: State, p: nat, proc: Proc, written: State)
    requires p !in sys.procs && written.procs == sys.procs
    requires Advanced(Goes(sys, p, proc), p) == Ends(Goes(written, p, proc), p)
    ensures Run(Goes(sys, p, proc), Moves(p, 1)) == written
  {
    Moved(Goes(sys, p, proc), p, 1);
    assert sys.procs[p := proc] - {p} == sys.procs;
  }

  // Who has only started holds nothing.

  lemma GateStaysFree(sys: State, p: nat, proc: Proc)
    requires GateFree(sys) && !HoldsGate(proc)
    ensures GateFree(Goes(sys, p, proc))
  {
  }

  lemma ExclusiveStaysFree(sys: State, p: nat, proc: Proc)
    requires ExclusiveFree(sys) && !HoldsExclusive(proc)
    ensures ExclusiveFree(Goes(sys, p, proc))
  {
  }

  lemma UserStaysFree(sys: State, p: nat, proc: Proc, u: nat)
    requires UserFree(sys, u) && !HoldsUser(proc, u)
    ensures UserFree(Goes(sys, p, proc), u)
  {
  }

  lemma NodeStaysFree(sys: State, p: nat, proc: Proc, n: nat)
    requires NodeFree(sys, n) && !HoldsNode(proc, n)
    ensures NodeFree(Goes(sys, p, proc), n)
  {
  }

  /** Left alone, a settings update succeeds exactly on the version it expected. */
  lemma UpdateAlone(sys: State, p: nat, expected: nat, maintenance: Rows.Option<bool>)
    requires p !in sys.procs && GateFree(sys)
    ensures
      var after := Alone(sys, p, Updating(expected, maintenance, Waiting), 4);
      if sys.version != expected then after == sys
      else
        && after == sys.(maintenance := if maintenance.Some? then maintenance.value else sys.maintenance, version := expected + 1,
                         updates := sys.updates + [expected], sessions := after.sessions)
        && after.sessions.Keys == sys.sessions.Keys
        && forall s :: s in sys.sessions ==>
             after.sessions[s] == sys.sessions[s].(live := sys.sessions[s].live && maintenance != Rows.Some(true))
  {
    var proc := Updating(expected, maintenance, Waiting);
    var held := proc.(update := Holding);
    Starts(sys, p, proc, 4);
    GateStaysFree(sys, p, proc);
    MovesOn(sys, p, proc, held, 4);
    if sys.version != expected {
      GivesUp(sys, p, held, 3);
    } else {
      UpdateEnds(sys, p, held);
    }
  }

  lemma UpdateEnds(sys: State, p: nat, held: Proc)
    requires p !in sys.procs && held.Updating? && held.update.Holding? && sys.version == held.expected
    ensures
      var rows := if held.maintenance == Rows.Some(true) then AllLive(sys.sessions) else {};
      Run(Goes(sys, p, held), Moves(p, 3)) ==
        sys.(maintenance := if held.maintenance.Some? then held.maintenance.value else sys.maintenance, version := sys.version + 1,
             updates := sys.updates + [sys.version], sessions := Closed(sys.sessions, rows))
  {
    var rows := if held.maintenance == Rows.Some(true) then AllLive(sys.sessions) else {};
    var matched, listed := held.(update := Matched), held.(update := Listed(rows));
    UpdateMatches(sys, p, held);
    MovesOn(sys, p, held, matched, 3);
    UpdateLists(sys, p, matched);
    MovesOn(sys, p, matched, listed, 2);
    UpdateFinishes(sys, p, listed);
  }

  lemma UpdateMatches(sys: State, p: nat, held: Proc)
    requires held.Updating? && held.update.Holding? && sys.version == held.expected
    ensures Advanced(Goes(sys, p, held), p) == Goes(Goes(sys, p, held), p, held.(update := Matched))
  {
  }

  lemma UpdateLists(sys: State, p: nat, matched: Proc)
    requires matched.Updating? && matched.update.Matched?
    ensures
      var rows := if matched.maintenance == Rows.Some(true) then AllLive(sys.sessions) else {};
      Advanced(Goes(sys, p, matched), p) == Goes(Goes(sys, p, matched), p, matched.(update := Listed(rows)))
  {
  }

  lemma UpdateFinishes(sys: State, p: nat, listed: Proc)
    requires p !in sys.procs && listed.Updating? && listed.update.Listed? && sys.version == listed.expected
    ensures
      Run(Goes(sys, p, listed), Moves(p, 1)) ==
        sys.(maintenance := if listed.maintenance.Some? then listed.maintenance.value else sys.maintenance, version := sys.version + 1,
             updates := sys.updates + [sys.version], sessions := Closed(sys.sessions, listed.update.rows))
  {
    Finishes(sys, p, listed,
      sys.(maintenance := if listed.maintenance.Some? then listed.maintenance.value else sys.maintenance, version := sys.version + 1,
           updates := sys.updates + [sys.version], sessions := Closed(sys.sessions, listed.update.rows)));
  }

  /** Left alone, node maintenance is switched exactly on a node that exists. */
  lemma ToggleAlone(sys: State, p: nat, n: nat, enabled: bool)
    requires p !in sys.procs && GateFree(sys)
    ensures
      var after := Alone(sys, p, Toggling(n, enabled, Waiting), 4);
      if n !in sys.nodes then after == sys
      else
        && after == sys.(nodes := sys.nodes[n := sys.nodes[n].(maintenance := enabled)], sessions := after.sessions)
        && after.sessions.Keys == sys.sessions.Keys
        && forall s :: s in sys.sessions ==>
             after.sessions[s] == sys.sessions[s].(live := sys.sessions[s].live && !(enabled && sys.sessions[s].node == n))
  {
    var proc := Toggling(n, enabled, Waiting);
    var held := proc.(toggle := Holding);
    Starts(sys, p, proc, 4);
    GateStaysFree(sys, p, proc);
    MovesOn(sys, p, proc, held, 4);
    if n !in sys.nodes {
      GivesUp(sys, p, held, 3);
    } else {
      ToggleEnds(sys, p, held);
    }
  }

  lemma ToggleEnds(sys: State, p: nat, held: Proc)
    requires p !in sys.procs && held.Toggling? && held.toggle.Holding? && held.node in sys.nodes
    ensures
      var rows := if held.enabled then OfNode(sys.sessions, held.node) else {};
      Run(Goes(sys, p, held), Moves(p, 3)) ==
        sys.(nodes := sys.nodes[held.node := sys.nodes[held.node].(maintenance := held.enabled)], sessions := Closed(sys.sessions, rows))
  {
    var rows := if held.enabled then OfNode(sys.sessions, held.node) else {};
    var matched, listed := held.(toggle := Matched), held.(toggle := Listed(rows));
    ToggleMatches(sys, p, held);
    MovesOn(sys, p, held, matched, 3);
    ToggleLists(sys, p, matched);
    MovesOn(sys, p, matched, listed, 2);
    ToggleFinishes(sys, p, listed);
  }

  lemma ToggleMatches(sys: State, p: nat, held: Proc)
    requires held.Toggling? && held.toggle.Holding? && held.node in sys.nodes
    ensures Advanced(Goes(sys, p, held), p) == Goes(Goes(sys, p, held), p, held.(toggle := Matched))
  {
  }

  lemma ToggleLists(sys: State, p: nat, matched: Proc)
    requires matched.Toggling? && matched.toggle.Matched?
    ensures
      var rows := if matched.enabled then OfNode(sys.sessions, matched.node) else {};
      Advanced(Goes(sys, p, matched), p) == Goes(Goes(sys, p, matched), p, matched.(toggle := Listed(rows)))
  {
  }

  lemma ToggleFinishes(sys: State, p: nat, listed: Proc)
    requires p !in sys.procs && listed.Toggling? && listed.toggle.Listed? && listed.node in sys.nodes
    ensures
      Run(Goes(sys, p, listed), Moves(p, 1)) ==
        sys.(nodes := sys.nodes[listed.node := sys.nodes[listed.node].(maintenance := listed.enabled)],
             sessions := Closed(sys.sessions, listed.toggle.rows))
  {
    Finishes(sys, p, listed,
      sys.(nodes := sys.nodes[listed.node := sys.nodes[listed.node].(maintenance := listed.enabled)],
           sessions := Closed(sys.sessions, listed.toggle.rows)));
  }

  /** Left alone, the owner's revocation of a device takes effect exactly on a device of the account. */
  lemma RevokeAlone(sys: State, p: nat, u: nat, d: nat)
    requires p !in sys.procs && ExclusiveFree(sys) && UserFree(sys, u)
    ensures
      var after := Alone(sys, p, Revoking(u, d, RevokeBegun), 4);
      if d !in sys.devices || sys.devices[d].user != u then after == sys
      else
        var revoked := Credential(u, sys.devices[d].key, if sys.devices[d].active then sys.devices[d].version + 1 else sys.devices[d].version, false);
        && after == sys.(devices := sys.devices[d := revoked], revoked := sys.revoked + {d}, sessions := after.sessions)
        && after.sessions.Keys == sys.sessions.Keys
        && forall s :: s in sys.sessions ==>
             after.sessions[s] == sys.sessions[s].(live := sys.sessions[s].live && sys.sessions[s].device != d)
  {
    var proc := Revoking(u, d, RevokeBegun);
    var gated, locked := proc.(revoke := RevokeGate), proc.(revoke := RevokeUser);
    Starts(sys, p, proc, 4);
    RevokeGates(sys, p, proc, gated);
    RevokeLocks(sys, p, gated, locked);
    if d !in sys.devices || sys.devices[d].user != u {
      GivesUp(sys, p, locked, 2);
    } else {
      var rows := OfDevice(sys.sessions, d);
      MovesOn(sys, p, locked, proc.(revoke := RevokeListed(rows)), 2);
      RevokeFinishes(sys, p, proc.(revoke := RevokeListed(rows)));
    }
  }

  lemma RevokeGates(sys: State, p: nat, proc: Proc, gated: Proc)
    requires proc.Revoking? && proc.revoke.RevokeBegun? && gated == proc.(revoke := RevokeGate) && ExclusiveFree(sys)
    ensures Run(Goes(sys, p, proc), Moves(p, 4)) == Run(Goes(sys, p, gated), Moves(p, 3))
  {
    ExclusiveStaysFree(sys, p, proc);
    MovesOn(sys, p, proc, gated, 4);
  }

  lemma RevokeLocks(sys: State, p: nat, gated: Proc, locked: Proc)
    requires gated.Revoking? && gated.revoke.RevokeGate? && locked == gated.(revoke := RevokeUser) && UserFree(sys, gated.user)
    ensures Run(Goes(sys, p, gated), Moves(p, 3)) == Run(Goes(sys, p, locked), Moves(p, 2))
  {
    UserStaysFree(sys, p, gated, gated.user);
    MovesOn(sys, p, gated, locked, 3);
  }

  lemma RevokeFinishes(sys: State, p: nat, listed: Proc)
    requires p !in sys.procs && listed.Revoking? && listed.revoke.RevokeListed? && listed.device in sys.devices
    ensures
      Run(Goes(sys, p, listed), Moves(p, 1)) ==
        sys.(devices := sys.devices[listed.device := Retired(sys.devices[listed.device])], revoked := sys.revoked + {listed.device},
             sessions := Closed(sys.sessions, listed.revoke.rows))
  {
    Finishes(sys, p, listed,
      sys.(devices := sys.devices[listed.device := Retired(sys.devices[listed.device])], revoked := sys.revoked + {listed.device},
           sessions := Closed(sys.sessions, listed.revoke.rows)));
  }

  /**
   * Left alone, a registration takes an inactive device of the account back, and gives an active one
   * without live sessions the new key if no device has it.
   */
  lemma RegisterAlone(sys: State, p: nat, u: nat, d: nat, key: nat)
    requires p !in sys.procs && UserFree(sys, u)
    ensures
      var after := Alone(sys, p, Registering(u, d, key, RegisterBegun), 3);
      if d !in sys.devices || sys.devices[d].user != u then after == sys
      else if !sys.devices[d].active then
        after == sys.(devices := sys.devices[d := Credential(u, sys.devices[d].key, sys.devices[d].version + 1, true)], revoked := sys.revoked - {d})
      else if (exists s :: s in sys.sessions && sys.sessions[s].live && sys.sessions[s].device == d)
              || (exists e :: e in sys.devices && sys.devices[e].key == key) then after == sys
      else after == sys.(devices := sys.devices[d := Credential(u, key, sys.devices[d].version + 1, true)])
  {
    var proc := Registering(u, d, key, RegisterBegun);
    var locked := proc.(register := RegisterUser);
    Starts(sys, p, proc, 3);
    RegisterLocks(sys, p, proc, locked);
    if d !in sys.devices || sys.devices[d].user != u {
      GivesUp(sys, p, locked, 2);
    } else if !sys.devices[d].active {
      ReturnAlone(sys, p, locked);
    } else if OfDevice(sys.sessions, d) != {} {
      var s :| s in OfDevice(sys.sessions, d);
      GivesUp(sys, p, locked, 2);
    } else {
      RotateAlone(sys, p, locked);
    }
  }

  lemma RegisterLocks(sys: State, p: nat, proc: Proc, locked: Proc)
    requires proc.Registering? && proc.register.RegisterBegun? && locked == proc.(register := RegisterUser) && UserFree(sys, proc.user)
    ensures Run(Goes(sys, p, proc), Moves(p, 3)) == Run(Goes(sys, p, locked), Moves(p, 2))
  {
    UserStaysFree(sys, p, proc, proc.user);
    MovesOn(sys, p, proc, locked, 3);
  }

  lemma ReturnAlone(sys: State, p: nat, locked: Proc)
    requires p !in sys.procs && locked.Registering? && locked.register.RegisterUser? && locked.device in sys.devices
    requires sys.devices[locked.device].user == locked.user && !sys.devices[locked.device].active
    ensures
      var d := locked.device;
      Run(Goes(sys, p, locked), Moves(p, 2)) ==
        sys.(devices := sys.devices[d := sys.devices[d].(active := true, version := sys.devices[d].version + 1)], revoked := sys.revoked - {d})
  {
    var chosen, d := locked.(register := RegisterChosen(false)), locked.device;
    MovesOn(sys, p, locked, chosen, 2);
    Finishes(sys, p, chosen,
      sys.(devices := sys.devices[d := sys.devices[d].(active := true, version := sys.devices[d].version + 1)], revoked := sys.revoked - {d}));
  }

  lemma RotateAlone(sys: State, p: nat, locked: Proc)
    requires p !in sys.procs && locked.Registering? && locked.register.RegisterUser? && locked.device in sys.devices
    requires sys.devices[locked.device].user == locked.user && sys.devices[locked.device].active && OfDevice(sys.sessions, locked.device) == {}
    ensures
      var after := Run(Goes(sys, p, locked), Moves(p, 2));
      var d := locked.device;
      && (forall s :: s in sys.sessions && sys.sessions[s].live ==> sys.sessions[s].device != d)
      && if exists e :: e in sys.devices && sys.devices[e].key == locked.newKey then after == sys
         else after == sys.(devices := sys.devices[d := sys.devices[d].(key := locked.newKey, version := sys.devices[d].version + 1)])
  {
    var chosen, d := locked.(register := RegisterChosen(true)), locked.device;
    MovesOn(sys, p, locked, chosen, 2);
    forall s | s in sys.sessions && sys.sessions[s].live && sys.sessions[s].device == d ensures s in OfDevice(sys.sessions, d) {}
    if KeyTaken(sys.devices, locked.newKey) {
      GivesUp(sys, p, chosen, 1);
    } else {
      Finishes(sys, p, chosen,
        sys.(devices := sys.devices[d := sys.devices[d].(key := locked.newKey, version := sys.devices[d].version + 1)]));
    }
  }

  /** The checks that are left to be made, all at once. */
  predicate PassesRest(sys: State, proc: Proc)
    requires Reached(proc, NodeLocked)
    decreases 8 - Rank(proc.stage)
  {
    proc.stage.NodeHasRoom? || (Passes(sys, proc) && PassesRest(sys, proc.(stage := Next(proc.stage))))
  }

  lemma Checks(sys: State, p: nat, proc: Proc)
    requires Reached(proc, NodeLocked) && !proc.stage.NodeHasRoom?
    ensures
      var begun := Goes(sys, p, proc);
      Advanced(begun, p) == if Passes(sys, proc) then Goes(begun, p, proc.(stage := Next(proc.stage))) else Ends(begun, p)
  {
  }

  lemma Opens(sys: State, p: nat, proc: Proc)
    requires p !in sys.procs && proc.Connecting? && proc.stage.NodeHasRoom?
    ensures Run(Goes(sys, p, proc), Moves(p, 1)) == Opened(sys, proc)
  {
    Finishes(sys, p, proc, Opened(sys, proc));
  }

  lemma {:induction false} Climbs(sys: State, p: nat, proc: Proc, k: nat)
    requires p !in sys.procs && Reached(proc, NodeLocked) && k == 9 - Rank(proc.stage)
    ensures Run(Goes(sys, p, proc), Moves(p, k)) == if PassesRest(sys, proc) then Opened(sys, proc) else sys
    decreases k
  {
    if proc.stage.NodeHasRoom? {
      Opens(sys, p, proc);
      return;
    }
    Checks(sys, p, proc);
    if Passes(sys, proc) {
      var next := proc.(stage := Next(proc.stage));
      MovesOn(sys, p, proc, next, k);
      Climbs(sys, p, next, k - 1);
    } else {
      GivesUp(sys, p, proc, k);
    }
  }

  lemma Locks(sys: State, p: nat, proc: Proc)
    requires p !in sys.procs && proc.Connecting? && proc.stage.Begun?
    requires ExclusiveFree(sys) && UserFree(sys, proc.user) && NodeFree(sys, proc.node)
    ensures Run(Goes(sys, p, proc), Moves(p, 9)) == Run(Goes(sys, p, proc.(stage := NodeLocked)), Moves(p, 6))
  {
    var gated := proc.(stage := GateShared);
    LocksGate(sys, p, proc, gated, 9);
    LocksRows(sys, p, gated, proc.(stage := NodeLocked));
  }

  lemma LocksRows(sys: State, p: nat, gated: Proc, locked: Proc)
    requires gated.Connecting? && gated.stage.GateShared? && locked == gated.(stage := NodeLocked)
    requires UserFree(sys, gated.user) && NodeFree(sys, gated.node)
    ensures Run(Goes(sys, p, gated), Moves(p, 8)) == Run(Goes(sys, p, locked), Moves(p, 6))
  {
    var half := gated.(stage := UserLocked);
    LocksUser(sys, p, gated, half, 8);
    LocksNode(sys, p, half, locked, 7);
  }

  lemma LocksGate(sys: State, p: nat, proc: Proc, next: Proc, k: nat)
    requires k > 0 && proc.Connecting? && proc.stage.Begun? && ExclusiveFree(sys)
    requires next == proc.(stage := GateShared)
    ensures Run(Goes(sys, p, proc), Moves(p, k)) == Run(Goes(sys, p, next), Moves(p, k - 1))
  {
    ExclusiveStaysFree(sys, p, proc);
    MovesOn(sys, p, proc, next, k);
  }

  lemma LocksUser(sys: State, p: nat, proc: Proc, next: Proc, k: nat)
    requires k > 0 && proc.Connecting? && proc.stage.GateShared? && UserFree(sys, proc.user)
    requires next == proc.(stage := UserLocked)
    ensures Run(Goes(sys, p, proc), Moves(p, k)) == Run(Goes(sys, p, next), Moves(p, k - 1))
  {
    UserStaysFree(sys, p, proc, proc.user);
    MovesOn(sys, p, proc, next, k);
  }

  lemma LocksNode(sys: State, p: nat, proc: Proc, next: Proc, k: nat)
    requires k > 0 && proc.Connecting? && proc.stage.UserLocked? && NodeFree(sys, proc.node)
    requires next == proc.(stage := NodeLocked)
    ensures Run(Goes(sys, p, proc), Moves(p, k)) == Run(Goes(sys, p, next), Moves(p, k - 1))
  {
    NodeStaysFree(sys, p, proc, proc.node);
    MovesOn(sys, p, proc, next, k);
  }

  /** Everything that must be so for a connect to go through. */
  predicate IsWelcome(sys: State, u: nat, d: nat, n: nat, version: nat) {
    && u in sys.allowance && n in sys.nodes && !sys.maintenance && !sys.nodes[n].maintenance
    && d in sys.devices && sys.devices[d].active && sys.devices[d].version == version
    && |set s | s in sys.sessions && sys.sessions[s].live && sys.sessions[s].user == u| < sys.allowance[u]
    && |set s | s in sys.sessions && sys.sessions[s].live && sys.sessions[s].node == n| < sys.nodes[n].capacity
    && forall s :: s in sys.sessions && sys.sessions[s].live ==> sys.sessions[s].device != d
  }

  lemma RestIsWelcome(sys: State, proc: Proc)
    requires proc.Connecting? && proc.stage.NodeLocked?
    ensures PassesRest(sys, proc) <==> IsWelcome(sys, proc.user, proc.device, proc.node, proc.version)
  {
    var read := proc.(stage := RowsRead);
    var open := read.(stage := ServiceOpen);
    var room := open.(stage := UserHasRoom);
    var idle := room.(stage := DeviceIdle);
    assert PassesRest(sys, idle) <==> Passes(sys, idle);
    assert PassesRest(sys, room) <==> Passes(sys, room) && Passes(sys, idle);
    assert PassesRest(sys, open) <==> Passes(sys, open) && PassesRest(sys, room);
    assert PassesRest(sys, read) <==> Passes(sys, read) && PassesRest(sys, open);
    assert OfUser(sys.sessions, proc.user) == set s | s in sys.sessions && sys.sessions[s].live && sys.sessions[s].user == proc.user;
    assert OfNode(sys.sessions, proc.node) == set s | s in sys.sessions && sys.sessions[s].live && sys.sessions[s].node == proc.node;
    assert forall s :: s in OfDevice(sys.sessions, proc.device) <==>
      s in sys.sessions && sys.sessions[s].live && sys.sessions[s].device == proc.device;
  }

  /** Left alone, a connect opens its session exactly when it is welcome, and changes nothing otherwise. */
  lemma ConnectAlone(sys: State, p: nat, u: nat, d: nat, n: nat)
    requires p !in sys.procs && ExclusiveFree(sys) && UserFree(sys, u) && NodeFree(sys, n)
    requires d in sys.devices && sys.devices[d].user == u
    ensures
      var version, key := sys.devices[d].version, sys.devices[d].key;
      Alone(sys, p, Connecting(u, d, n, version, key, Begun), 9) ==
        if IsWelcome(sys, u, d, n, version) then
          sys.(sessions := sys.sessions[sys.nextSession := Tunnel(u, d, n, key, true)], nextSession := sys.nextSession + 1)
        else sys
  {
    var proc := Connecting(u, d, n, sys.devices[d].version, sys.devices[d].key, Begun);
    Starts(sys, p, proc, 9);
    Locks(sys, p, proc);
    Climbs(sys, p, proc.(stage := NodeLocked), 6);
    RestIsWelcome(sys, proc.(stage := NodeLocked));
  }

  lemma {:induction false} WithdrawEnds(sys: State, p: nat, proc: Proc, left: set<nat>)
    requires p !in sys.procs && proc.Withdrawing? && proc.withdraw == WithdrawListed(left) && proc.device in sys.devices
    ensures Run(Goes(sys, p, proc), Moves(p, |left| + 1)) == Withdrawn(sys.(sessions := Closed(sys.sessions, left)), proc.device)
    decreases |left|
  {
    if left == {} {
      assert Closed(sys.sessions, {}) == sys.sessions;
      Finishes(sys, p, proc, Withdrawn(sys, proc.device));
    } else {
      var s := WithdrawClosesOne(sys, p, proc, left);
      WithdrawEnds(sys.(sessions := Closed(sys.sessions, {s})), p, proc.(withdraw := WithdrawListed(left - {s})), left - {s});
      ClosedInTwo(sys.sessions, left, s);
    }
  }

  lemma WithdrawClosesOne(sys: State, p: nat, proc: Proc, left: set<nat>) returns (s: nat)
    requires proc.Withdrawing? && proc.withdraw == WithdrawListed(left) && left != {}
    ensures s in left
    ensures Run(Goes(sys, p, proc), Moves(p, |left| + 1)) ==
      Run(Goes(sys.(sessions := Closed(sys.sessions, {s})), p, proc.(withdraw := WithdrawListed(left - {s}))), Moves(p, |left|))
  {
    var begun := Goes(sys, p, proc);
    s := WithdrawCloses(begun, p);
    var next := proc.(withdraw := WithdrawListed(left - {s}));
    Moved(begun, p, |left| + 1);
    assert begun.procs[p := next] == sys.procs[p := next];
  }

  lemma ClosedInTwo(sessions: map<nat, Tunnel>, rows: set<nat>, s: nat)
    requires s in rows
    ensures Closed(Closed(sessions, {s}), rows - {s}) == Closed(sessions, rows)
  {
  }

  /** Left alone, an administrator's revocation closes a device's sessions and takes its status, and nothing else: its epoch stays. */
  lemma WithdrawAlone(sys: State, p: nat, d: nat)
    requires p !in sys.procs
    ensures
      var after := Alone(sys, p, Withdrawing(d, WithdrawBegun), |OfDevice(sys.sessions, d)| + 3);
      if d !in sys.devices || !sys.devices[d].active then after == sys
      else
        && after == sys.(devices := after.devices, sessions := after.sessions)
        && after.devices == sys.devices[d := Credential(sys.devices[d].user, sys.devices[d].key, sys.devices[d].version, false)]
        && after.sessions.Keys == sys.sessions.Keys
        && forall s :: s in sys.sessions ==>
             after.sessions[s] == sys.sessions[s].(live := sys.sessions[s].live && sys.sessions[s].device != d)
  {
    var proc, n := Withdrawing(d, WithdrawBegun), |OfDevice(sys.sessions, d)|;
    Starts(sys, p, proc, n + 3);
    if d !in sys.devices || !sys.devices[d].active {
      GivesUp(sys, p, proc, n + 3);
    } else {
      var read, listed := proc.(withdraw := WithdrawRead), proc.(withdraw := WithdrawListed(OfDevice(sys.sessions, d)));
      MovesOn(sys, p, proc, read, n + 3);
      MovesOn(sys, p, read, listed, n + 2);
      WithdrawEnds(sys, p, listed, OfDevice(sys.sessions, d));
    }
  }
}
