/**
 * What a report repairs. In runs with loss a peer table can have drifted from the sessions in two ways:
 * keys without a session, and keys with the address of a session that ended. The report compares keys
 * and says nothing about addresses.
 */
module Repair {
  import opened Rows
  import opened Plane
  import opened Protocol
  import opened Scene
  import opened Subjects
  import opened NodeAgent
  import NoReturn
  import Keys
  import Agreement

  // ------------------------------------------------ where entries are from ----

  /** For each node and key, the command that put the key's entry into the node's table. */
  type Origins = map<(nat, nat), nat>

  function AfterCommand(origins: Origins, sys: Sys, n: nat, i: nat, ok: bool): Origins {
    if !WasDelivered(sys.db, n, i) || !ok then origins
    else
      match sys.db.commands[i].kind
      case AddPeer => origins[(n, sys.db.commands[i].key) := i]
      case RemovePeer => origins - {(n, sys.db.commands[i].key)}
      case Sync => origins
  }

  function AfterStep(origins: Origins, sys: Sys, step: Step): Origins {
    match step
    case OnAgent(Execute(n, i, ok)) => AfterCommand(origins, sys, n, i, ok)
    case OnAgent(ExecuteAndAck(_, n, i, ok)) => AfterCommand(origins, sys, n, i, ok)
    case OnAgent(ReportApply(n)) =>
      if n !in sys.replies then origins else origins - (set k | k in sys.replies[n] :: (n, k))
    case _ => origins
  }

  ghost function AfterRun(origins: Origins, sys: Sys, steps: seq<Step>): Origins
    decreases |steps|
  {
    if steps == [] then origins else AfterRun(AfterStep(origins, sys, steps[0]), Apply(sys, steps[0]), steps[1..])
  }

  ghost predicate IsOrigin(sys: Sys, n: nat, key: nat, i: nat) {
    && i < |sys.db.commands| && sys.db.commands[i].kind.AddPeer?
    && sys.db.commands[i].node == n && sys.db.commands[i].key == key
    && Has(Table(sys, n), key, sys.db.commands[i].ip)
  }

  ghost predicate Traced(sys: Sys, origins: Origins) {
    && (forall n: nat, key :: key in Table(sys, n) ==> (n, key) in origins)
    && (forall n: nat, key: nat :: (n, key) in origins ==> IsOrigin(sys, n, key, origins[(n, key)]))
  }

  lemma ExecutingChangesOneTable(sys: Sys, n: nat, i: nat, ok: bool)
    ensures
      var after := Executed(sys, n, i, ok);
      && after.db == sys.db && after.replies == sys.replies
      && (forall m :: m != n ==> Table(after, m) == Table(sys, m))
      && Table(after, n) == if WasDelivered(sys.db, n, i) && ok then PeerEffect(Table(sys, n), sys.db.commands[i]) else Table(sys, n)
  {
  }

  lemma CommandTraced(sys: Sys, origins: Origins, n: nat, i: nat, ok: bool)
    requires Traced(sys, origins)
    ensures Traced(Executed(sys, n, i, ok), AfterCommand(origins, sys, n, i, ok))
  {
    var after, next := Executed(sys, n, i, ok), AfterCommand(origins, sys, n, i, ok);
    ExecutingChangesOneTable(sys, n, i, ok);
    forall m: nat, key: nat | (m, key) in next ensures IsOrigin(after, m, key, next[(m, key)]) {
      assert (m, key) in origins ==> IsOrigin(sys, m, key, origins[(m, key)]);
    }
    forall m: nat, key | key in Table(after, m) ensures (m, key) in next {
      assert key in Table(sys, m) ==> (m, key) in origins;
    }
  }

  lemma AckedCommandTraced(sys: Sys, origins: Origins, p: nat, n: nat, i: nat, ok: bool)
    requires Traced(sys, origins)
    ensures Traced(Acknowledged(Executed(sys, n, i, ok), p, n, i, ok), AfterCommand(origins, sys, n, i, ok))
  {
    CommandTraced(sys, origins, n, i, ok);
    AcknowledgingKeepsTables(Executed(sys, n, i, ok), p, n, i, ok);
    SameTablesTraced(Executed(sys, n, i, ok), Acknowledged(Executed(sys, n, i, ok), p, n, i, ok), AfterCommand(origins, sys, n, i, ok));
  }

  lemma AcknowledgingKeepsTables(sys: Sys, p: nat, n: nat, i: nat, ok: bool)
    ensures
      var after := Acknowledged(sys, p, n, i, ok);
      after.peers == sys.peers && after.replies == sys.replies && after.db == sys.db
  {
  }

  lemma SameTablesTraced(sys: Sys, after: Sys, origins: Origins)
    requires Traced(sys, origins) && after.peers == sys.peers && SameSubjects(sys.db, after.db)
    ensures Traced(after, origins)
  {
    assert forall n :: Table(after, n) == Table(sys, n);
    forall n: nat, key: nat | (n, key) in origins ensures IsOrigin(after, n, key, origins[(n, key)]) {
      assert IsOrigin(sys, n, key, origins[(n, key)]);
    }
  }

  lemma ReplyTraced(sys: Sys, origins: Origins, n: nat)
    requires Traced(sys, origins)
    ensures Traced(ApplyAgent(sys, ReportApply(n)), AfterStep(origins, sys, OnAgent(ReportApply(n))))
  {
    var after := ApplyAgent(sys, ReportApply(n));
    if n in sys.replies {
      assert forall m :: Table(after, m) == if m == n then Table(sys, n) - sys.replies[n] else Table(sys, m);
    }
  }

  lemma AgentStepTraced(sys: Sys, origins: Origins, step: AgentStep)
    requires Traced(sys, origins)
    ensures Traced(ApplyAgent(sys, step), AfterStep(origins, sys, OnAgent(step)))
  {
    match step
    case Execute(n, i, ok) => CommandTraced(sys, origins, n, i, ok);
    case ExecuteAndAck(p, n, i, ok) => AckedCommandTraced(sys, origins, p, n, i, ok);
    case Report(n) => SameTablesTraced(sys, ApplyAgent(sys, step), origins);
    case ReportApply(n) => ReplyTraced(sys, origins, n);
  }

  lemma StepTraced(sys: Sys, origins: Origins, step: Step)
    requires Traced(sys, origins)
    ensures Traced(Apply(sys, step), AfterStep(origins, sys, step))
  {
    if step.OnAgent? {
      AgentStepTraced(sys, origins, step.agent);
    } else {
      StepFrame(sys, step);
      StepContinues(sys, step);
      SameTablesTraced(sys, Apply(sys, step), origins);
    }
  }

  lemma {:induction false} RunTraced(sys: Sys, origins: Origins, steps: seq<Step>)
    requires Traced(sys, origins)
    ensures Traced(Run(sys, steps), AfterRun(origins, sys, steps))
    decreases |steps|
  {
    if steps != [] {
      StepTraced(sys, origins, steps[0]);
      RunTraced(Apply(sys, steps[0]), AfterStep(origins, sys, steps[0]), steps[1..]);
    }
  }

  /** The setup belongs to a session that has ended or whose row is gone. */
  ghost predicate IsLeftover(sys: Sys, i: nat)
    requires i < |sys.db.commands|
  {
    sys.db.commands[i].session.Some? ==> NoReturn.Ended(sys.db, sys.db.commands[i].session.value)
  }

  /**
   * In every state of every run, whatever was lost, a live session whose key has a peer has it with its
   * own address exactly when the entry was put there by the session's own setup, or by the setup of an
   * ended session that had the same address.
   */
  lemma AddressIsRightIff(init: Sys, steps: seq<Step>, sys: Sys, s: nat)
    requires Installed(init) && sys == Run(init, steps)
    requires IsLive(sys.db, s) && sys.db.sessions[s].key in Table(sys, sys.db.sessions[s].node)
    ensures
      var session, origins := sys.db.sessions[s], AfterRun(map[], init, steps);
      && (session.node, session.key) in origins && origins[(session.node, session.key)] < |sys.db.commands|
      && var i := origins[(session.node, session.key)];
         && (IsAddOf(sys.db.commands[i], s) || IsLeftover(sys, i))
         && (Table(sys, session.node)[session.key] == session.ip <==>
               IsAddOf(sys.db.commands[i], s) || (IsLeftover(sys, i) && sys.db.commands[i].ip == session.ip))
  {
    InstalledIsStructured(init);
    Subjects.RunKeeps(init, steps);
    RunTraced(init, map[], steps);
    var session, origins := sys.db.sessions[s], AfterRun(map[], init, steps);
    var i := origins[(session.node, session.key)];
    assert IsOrigin(sys, session.node, session.key, i);
    var c := sys.db.commands[i];
    if c.session.Some? && c.session != Some(s) && IsLive(sys.db, c.session.value) {
      Keys.SameKeySameSession(sys, s, c.session.value);
    }
  }

  // ------------------------------------------------------ what a report does ----

  /** The step is none of node `n`'s agent. */
  predicate Elsewhere(step: Step, n: nat) {
    step.OnAgent? ==> step.agent.n != n
  }

  lemma ElsewhereKeepsTable(sys: Sys, step: Step, n: nat)
    requires Elsewhere(step, n)
    ensures
      var after := Apply(sys, step);
      && Table(after, n) == Table(sys, n)
      && (n in after.replies <==> n in sys.replies) && (n in sys.replies ==> after.replies[n] == sys.replies[n])
  {
    if !step.OnAgent? { StepFrame(sys, step); } else { OtherAgentKeepsTable(sys, step.agent, n); }
  }

  lemma OtherAgentKeepsTable(sys: Sys, step: AgentStep, n: nat)
    requires step.n != n
    ensures
      var after := ApplyAgent(sys, step);
      && Table(after, n) == Table(sys, n)
      && (n in after.replies <==> n in sys.replies) && (n in sys.replies ==> after.replies[n] == sys.replies[n])
  {
    match step
    case Execute(m, i, ok) => ExecutingChangesOneTable(sys, m, i, ok);
    case ExecuteAndAck(p, m, i, ok) =>
      ExecutingChangesOneTable(sys, m, i, ok);
      AcknowledgingKeepsTables(Executed(sys, m, i, ok), p, m, i, ok);
    case Report(m) => assert ApplyAgent(sys, step).peers == sys.peers;
    case ReportApply(m) => assert m in sys.replies ==> (n in sys.replies - {m} <==> n in sys.replies);
  }

  lemma {:induction false} ElsewhereKeepsTables(sys: Sys, steps: seq<Step>, n: nat)
    requires forall k :: 0 <= k < |steps| ==> Elsewhere(steps[k], n)
    ensures
      var after := Run(sys, steps);
      && Table(after, n) == Table(sys, n)
      && (n in after.replies <==> n in sys.replies) && (n in sys.replies ==> after.replies[n] == sys.replies[n])
    decreases |steps|
  {
    if steps != [] {
      ElsewhereKeepsTable(sys, steps[0], n);
      ElsewhereKeepsTables(Apply(sys, steps[0]), steps[1..], n);
    }
  }

  /** A report is sent; anything may happen but at this node; the answer is applied. */
  ghost function Reported(sys: Sys, n: nat, between: seq<Step>): Sys {
    ApplyAgent(Run(ApplyAgent(sys, Report(n)), between), ReportApply(n))
  }

  /**
   * One report and its answer leave exactly those entries whose key a live session had when the report
   * was handled, and leave them as they were: a wrong address stays.
   */
  lemma ReportKeepsLiveKeys(sys: Sys, n: nat, between: seq<Step>, key: nat, ip: nat)
    requires forall k :: 0 <= k < |between| ==> Elsewhere(between[k], n)
    ensures Has(Table(Reported(sys, n, between), n), key, ip) <==> Has(Table(sys, n), key, ip) && key in LiveKeys(sys.db, n)
  {
    var asked := ApplyAgent(sys, Report(n));
    ElsewhereKeepsTables(asked, between, n);
    assert Table(asked, n) == Table(sys, n);
  }

  predicate OnlyReports(step: Step, n: nat) {
    step.OnAgent? && step.agent.n == n ==> step.agent.Report? || step.agent.ReportApply?
  }

  ghost predicate Spared(sys: Sys, n: nat, key: nat) {
    n in sys.replies ==> key !in sys.replies[n]
  }

  lemma ReportsSpare(sys: Sys, step: Step, n: nat, s: nat, ip: nat)
    requires OnlyReports(step, n) && IsLive(sys.db, s) && sys.db.sessions[s].node == n
    requires Spared(sys, n, sys.db.sessions[s].key) && Has(Table(sys, n), sys.db.sessions[s].key, ip)
    ensures Spared(Apply(sys, step), n, sys.db.sessions[s].key) && Has(Table(Apply(sys, step), n), sys.db.sessions[s].key, ip)
  {
    if Elsewhere(step, n) {
      ElsewhereKeepsTable(sys, step, n);
    } else if step.agent.Report? {
      assert s in LiveOfNode(sys.db.sessions, n);
    }
  }

  /** No number of reports gives a live session another address than its entry has: only a command does. */
  lemma {:induction false} ReportsNeverCorrect(sys: Sys, steps: seq<Step>, n: nat, s: nat, ip: nat)
    requires Structure(sys) && (forall k :: 0 <= k < |steps| ==> OnlyReports(steps[k], n))
    requires IsLive(sys.db, s) && IsLive(Run(sys, steps).db, s) && sys.db.sessions[s].node == n
    requires Spared(sys, n, sys.db.sessions[s].key) && Has(Table(sys, n), sys.db.sessions[s].key, ip)
    ensures Has(Table(Run(sys, steps), n), sys.db.sessions[s].key, ip)
    decreases |steps|
  {
    if steps != [] {
      var next := Apply(sys, steps[0]);
      Subjects.StepKeeps(sys, steps[0]);
      NoReturn.StepKeeps(sys, steps[0]);
      NoReturn.RunKeeps(next, steps[1..]);
      assert IsLive(next.db, s) by { if !IsLive(next.db, s) { assert NoReturn.Ended(next.db, s); } }
      SessionStays(sys, steps[0], s);
      ReportsSpare(sys, steps[0], n, s, ip);
      ReportsNeverCorrect(next, steps[1..], n, s, ip);
    }
  }

  // --------------------------------------------------- a pass and a report ----

  ghost function PassAndReport(sys: Sys, n: nat, batch: seq<nat>, oks: seq<bool>): Sys
    requires |oks| == |batch|
  {
    Reported(Run(sys, Executions(n, batch, oks)), n, [])
  }

  /**
   * What the agent's pass over the commands it has been handed and one report restore, whatever was lost
   * before: every key left is a live session's; and a live session has its peer with its own address if
   * and only if the last command of the pass for its key that succeeds is a setup with that address, or
   * there is none and the address was right before.
   */
  lemma RepairedIff(sys: Sys, n: nat, batch: seq<nat>, oks: seq<bool>, s: nat)
    requires |oks| == |batch| && AllDelivered(sys.db, n, batch)
    requires IsLive(sys.db, s) && sys.db.sessions[s].node == n
    ensures Table(PassAndReport(sys, n, batch, oks), n).Keys <= LiveKeys(sys.db, n)
    ensures
      var key, ip := sys.db.sessions[s].key, sys.db.sessions[s].ip;
      Has(Table(PassAndReport(sys, n, batch, oks), n), key, ip) <==>
        match Decision(Wires(sys.db.commands, batch), oks, key)
        case Untouched => Has(Table(sys, n), key, ip)
        case Removed => false
        case SetTo(last) => ip == last
  {
    var passed := Run(sys, Executions(n, batch, oks));
    var key, ip := sys.db.sessions[s].key, sys.db.sessions[s].ip;
    LoopRefinesProtocol(sys, n, batch, oks);
    LastCommandDecides(Table(sys, n), Wires(sys.db.commands, batch), oks, key, ip);
    assert s in LiveOfNode(sys.db.sessions, n);
    ReportKeepsLiveKeys(passed, n, [], key, ip);
    forall k | k in Table(PassAndReport(sys, n, batch, oks), n) ensures k in LiveKeys(sys.db, n) {
      ReportKeepsLiveKeys(passed, n, [], k, Table(PassAndReport(sys, n, batch, oks), n)[k]);
    }
  }

  // ------------------------------------------------- a run no report repairs ----

  const SETUP := Add(0, 0, 1, Done, 1, 1)
  const LAST := map[0 := Of(0, 1, Closed), 1 := Of(0, 2, Pending)]
  const PEER := map[0 := map[10 := 1]]

  /** The removal of the first session and the setup of the second after `k` deliveries of which the node heard nothing. */
  function Unheard(k: nat): Sys {
    var status := if k < 5 then Queued else Aborted;
    At(FULL, LAST, 2, [SETUP, Remove(0, 0, 1, status, k, k), Add(1, 0, 2, status, k, k)]).(peers := PEER, verdicts := map[0 := true])
  }

  function Delivering(k: nat): Sys {
    At(FULL, LAST, 2, [SETUP, Remove(0, 0, 1, Delivered, k + 1, k + 1), Add(1, 0, 2, Delivered, k + 1, k + 1)]).(
      peers := PEER, verdicts := map[0 := true])
  }

  /** One round: the two commands are claimed, lost, and swept. */
  function Round(k: nat): seq<Step> {
    [OnQueue(ClaimCancel(8, 0)), OnQueue(ClaimTake(8, k + 1)), OnQueue(Requeue(k + 2, 5))]
  }

  lemma RoundIsClaimed(k: nat)
    requires k < 5
    ensures Apply(Unheard(k), Round(k)[0]) == Unheard(k).(claimers := map[8 := 0])
    ensures Apply(Unheard(k).(claimers := map[8 := 0]), Round(k)[1]) == Delivering(k)
  {
    assert CancelDead(Unheard(k).db, 0).commands == Unheard(k).db.commands;
    RoundIsTaken(k);
  }

  lemma RoundIsTaken(k: nat)
    requires k < 5
    ensures Apply(Unheard(k).(claimers := map[8 := 0]), Round(k)[1]) == Delivering(k)
  {
    var waiting := Unheard(k).(claimers := map[8 := 0]);
    assert AheadOf(waiting.db.commands, 0, 0) == 0 && AheadOf(waiting.db.commands, 0, 1) == 0 && AheadOf(waiting.db.commands, 0, 2) == 1;
    assert TakeOldest(waiting.db, 0, CLAIM_LIMIT, k + 1).commands == Delivering(k).db.commands;
  }

  lemma RoundIsSwept(k: nat)
    requires k < 5
    ensures Apply(Delivering(k), Round(k)[2]) == Unheard(k + 1)
  {
    assert RequeueStale(Delivering(k).db, k + 2, 5).commands == Unheard(k + 1).db.commands;
  }

  lemma RoundPasses(k: nat)
    requires k < 5
    ensures Run(Unheard(k), Round(k)) == Unheard(k + 1)
  {
    RoundIsClaimed(k);
    RoundIsSwept(k);
    TraceIsRun([Unheard(k), Unheard(k).(claimers := map[8 := 0]), Delivering(k), Unheard(k + 1)], Round(k));
  }

  const SETS_UP: seq<Step> := [
    Connect(0, 0, 0, 0, FREE),
    OnQueue(ClaimCancel(8, 0)),
    OnQueue(ClaimTake(8, 1)),
    OnAgent(ExecuteAndAck(7, 0, 0, true)),
    OnAck(AckWrite(7)),
    OnAck(AckUpdate(7, 1)),
    OnClose(CloseScope(Everywhere, [0], 0)),
    Connect(0, 0, 0, 0, FREE)]

  const F0 := Ready(TWO)
  const F1 := OPENED_OF_TWO
  const F2 := CLAIMED_OF_TWO
  const F3 := HANDED_OF_TWO
  const F4 := At(LEASED, WAITING, 1, [Add(0, 0, 1, Delivered, 1, 1)]).(
    peers := PEER, ackers := map[7 := Completing(0, true)], verdicts := map[0 := true])
  const F5 := At(LEASED, WAITING, 1, [SETUP]).(peers := PEER, ackers := map[7 := Updating(0, 0, true)], verdicts := map[0 := true])
  const F6 := At(LEASED, map[0 := Of(0, 1, Active)], 1, [SETUP]).(peers := PEER, verdicts := map[0 := true])
  const F7 := At(LEASED, ENDED, 1, [SETUP, Remove(0, 0, 1, Queued, 0, 0)]).(peers := PEER, verdicts := map[0 := true])
  const SET_UP := [F0, F1, F2, F3, F4, F5, F6, F7, Unheard(0)]

  lemma FirstIsSetUpFirst()
    ensures Apply(F3, SETS_UP[3]) == F4
  {
    assert Executed(F3, 0, 0, true) == F3.(peers := PEER);
  }

  lemma FirstIsSetUpSecond()
    ensures Apply(F4, SETS_UP[4]) == F5
  {
  }

  lemma FirstIsSetUpThird()
    ensures Apply(F5, SETS_UP[5]) == F6
  {
    assert SettleSession(F5.db, 0, true, 1).sessions == F6.db.sessions;
    assert F5.ackers - {7} == map[];
  }

  lemma FirstIsClosed()
    ensures Apply(F6, SETS_UP[6]) == F7
  {
    assert Enumerates([0], LiveInScope(F6.db, Everywhere));
    assert CloseTogether(F6.db, [0], 0) == F7.db;
  }

  lemma SecondCanOpen()
    ensures Here(F7) && F7.db.nextSession == 1 && 1 !in F7.db.sessions && |F7.db.sessions| == 1
    ensures IsLeast(2, FreeAddresses(F7.db, 0)) && LiveOfDevice(F7.db.sessions, 0) == {}
  {
    assert FreeAddresses(F7.db, 0) == {2};
  }

  lemma SecondIsOpened()
    ensures Opening(F7, 1, Of(0, 2, Pending)) == Unheard(0)
  {
    assert Opening(F7, 1, Of(0, 2, Pending)).db == Unheard(0).db;
  }

  lemma SecondOpens()
    ensures Apply(F7, SETS_UP[7]) == Unheard(0)
  {
    SecondCanOpen();
    Opens(F7, 0, 2);
    SecondIsOpened();
  }

  lemma SetsUp()
    ensures Run(Ready(TWO), SETS_UP) == Unheard(0)
  {
    FirstOpensOfTwo();
    FirstIsClaimedOfTwo();
    FirstIsSetUpFirst();
    FirstIsSetUpSecond();
    FirstIsSetUpThird();
    FirstIsClosed();
    SecondOpens();
    TraceIsRun(SET_UP, SETS_UP);
  }

  const SHARES: seq<Step> := [
    OnLease(ReclaimSelect(9, 1)),
    OnLease(ReclaimFree(9)),
    Connect(0, 1, 0, 0, FREE),
    OnQueue(ClaimCancel(8, 0)),
    OnQueue(ClaimTake(8, 9)),
    OnAgent(ExecuteAndAck(7, 0, 3, true)),
    OnAck(AckWrite(7)),
    OnAck(AckUpdate(7, 9)),
    OnAgent(Report(0)),
    OnAgent(ReportApply(0))]

  const GIVEN_UP := [SETUP, Remove(0, 0, 1, Aborted, 5, 5), Add(1, 0, 2, Aborted, 5, 5)]
  const THREE := LAST[2 := Of(1, 1, Pending)]
  const BOTH := map[(0, 1) := Some(2), (0, 2) := Some(1)]
  const PEERS := map[0 := map[10 := 1, 11 := 1]]
  const G0 := At(FULL, LAST, 2, GIVEN_UP).(peers := PEER, verdicts := map[0 := true])
  const G1 := At(FULL, LAST, 2, GIVEN_UP).(selections := map[9 := {(0, 1)}], peers := PEER, verdicts := map[0 := true])
  const G2 := At(FREED, LAST, 2, GIVEN_UP).(peers := PEER, verdicts := map[0 := true])
  const G3 := At(BOTH, THREE, 3, GIVEN_UP + [Add(2, 1, 1, Queued, 0, 0)]).(peers := PEER, verdicts := map[0 := true])
  const G4 := G3.(claimers := map[8 := 0])
  const G5 := At(BOTH, THREE, 3, GIVEN_UP + [Add(2, 1, 1, Delivered, 1, 9)]).(peers := PEER, verdicts := map[0 := true])
  const G6 := At(BOTH, THREE, 3, GIVEN_UP + [Add(2, 1, 1, Delivered, 1, 9)]).(
    peers := PEERS, ackers := map[7 := Completing(3, true)], verdicts := map[0 := true, 3 := true])
  const G7 := At(BOTH, THREE, 3, GIVEN_UP + [Add(2, 1, 1, Done, 1, 9)]).(
    peers := PEERS, ackers := map[7 := Updating(3, 2, true)], verdicts := map[0 := true, 3 := true])
  const G8 := At(BOTH, LAST[2 := Of(1, 1, Active)], 3, GIVEN_UP + [Add(2, 1, 1, Done, 1, 9)]).(
    peers := PEERS, verdicts := map[0 := true, 3 := true])
  const G9 := G8.(replies := map[0 := {}])
  const SHARED := [G0, G1, G2, G3, G4, G5, G6, G7, G8, G9, G8]

  lemma LeaseIsReclaimedFirst()
    ensures Apply(G0, SHARES[0]) == G1
  {
    assert StaleLeases(G0.db, 1) == {(0, 1)};
  }

  lemma LeaseIsReclaimedSecond()
    ensures Apply(G1, SHARES[1]) == G2
  {
    assert FreeLeases(G1.db, {(0, 1)}).leases == FREED;
  }

  lemma ThirdCanOpen()
    ensures Here(G2) && G2.db.nextSession == 2 && 2 !in G2.db.sessions && |G2.db.sessions| == 2
    ensures IsLeast(1, FreeAddresses(G2.db, 0)) && LiveOfDevice(G2.db.sessions, 1) == {}
  {
    assert FreeAddresses(G2.db, 0) == {1};
  }

  lemma ThirdIsOpened()
    ensures Opening(G2, 2, Of(1, 1, Pending)) == G3
  {
    assert Opening(G2, 2, Of(1, 1, Pending)).db == G3.db;
  }

  lemma ThirdOpens()
    ensures Apply(G2, SHARES[2]) == G3
  {
    ThirdCanOpen();
    Opens(G2, 1, 1);
    ThirdIsOpened();
  }

  lemma ThirdIsClaimed()
    ensures Apply(G3, SHARES[3]) == G4
    ensures Apply(G4, SHARES[4]) == G5
  {
    assert G3.db.commands == [SETUP, Remove(0, 0, 1, Aborted, 5, 5), Add(1, 0, 2, Aborted, 5, 5), Add(2, 1, 1, Queued, 0, 0)];
    assert CancelDead(G3.db, 0).commands == G3.db.commands;
    assert AheadOf(G4.db.commands, 0, 1) == 0;
    assert AheadOf(G4.db.commands, 0, 2) == 0;
    assert AheadOf(G4.db.commands, 0, 3) == 0;
    assert TakeOldest(G4.db, 0, CLAIM_LIMIT, 9).commands == G5.db.commands;
  }

  lemma ThirdIsSetUpFirst()
    ensures Apply(G5, SHARES[5]) == G6
  {
    assert PeerEffect(map[10 := 1], G5.db.commands[3]) == map[10 := 1, 11 := 1];
    assert Executed(G5, 0, 3, true) == G5.(peers := PEERS);
  }

  lemma ThirdIsSetUpSecond()
    ensures Apply(G6, SHARES[6]) == G7
  {
  }

  lemma ThirdIsSetUpThird()
    ensures Apply(G7, SHARES[7]) == G8
  {
    assert SettleSession(G7.db, 2, true, 9).sessions == G8.db.sessions;
    assert G7.ackers - {7} == map[];
  }

  lemma NothingIsUnknown()
    ensures Table(G8, 0).Keys - LiveKeys(G8.db, 0) == {}
  {
    assert 1 in LiveOfNode(G8.db.sessions, 0) && 2 in LiveOfNode(G8.db.sessions, 0);
    assert G8.db.sessions[1].key == 10 && G8.db.sessions[2].key == 11;
  }

  lemma ReportFindsNothing()
    ensures Apply(G8, SHARES[8]) == G9
  {
    NothingIsUnknown();
    assert G8.replies[0 := {}] == G9.replies;
  }

  lemma AnswerChangesNothing()
    ensures Apply(G9, SHARES[9]) == G8
  {
    var empty: set<nat> := {};
    assert Table(G9, 0) == PEERS[0] && G9.replies[0] == empty;
    assert PEERS[0] - empty == PEERS[0];
    assert G9.peers[0 := PEERS[0]] == G8.peers;
    assert G9.replies - {0} == map[];
  }

  lemma SharesIt()
    ensures Run(G0, SHARES) == G8
  {
    LeaseIsReclaimedFirst();
    LeaseIsReclaimedSecond();
    ThirdOpens();
    ThirdIsClaimed();
    ThirdIsSetUpFirst();
    ThirdIsSetUpSecond();
    ThirdIsSetUpThird();
    ReportFindsNothing();
    AnswerChangesNothing();
    TraceIsRun(SHARED, SHARES);
  }

  const UNREPAIRED := SETS_UP + (Round(0) + (Round(1) + (Round(2) + (Round(3) + (Round(4) + SHARES)))))

  lemma RoundsPass()
    ensures Run(Unheard(0), Round(0) + (Round(1) + (Round(2) + (Round(3) + (Round(4) + SHARES))))) == Run(Unheard(5), SHARES)
  {
    RoundPasses(0);
    RoundPasses(1);
    RoundPasses(2);
    RoundPasses(3);
    RoundPasses(4);
    RunAppend(Unheard(0), Round(0), Round(1) + (Round(2) + (Round(3) + (Round(4) + SHARES))));
    RunAppend(Unheard(1), Round(1), Round(2) + (Round(3) + (Round(4) + SHARES)));
    RunAppend(Unheard(2), Round(2), Round(3) + (Round(4) + SHARES));
    RunAppend(Unheard(3), Round(3), Round(4) + SHARES);
    RunAppend(Unheard(4), Round(4), SHARES);
  }

  /**
   * A device connects again with another address while its node is out of reach: the removal of the
   * first session and the setup of the second run out of attempts. The first address is reclaimed and
   * given to another device. The node has nothing left to do and has reported, but the live second
   * session's key still has the first address, which the third session's peer has as well.
   */
  lemma WrongAddressStays()
    ensures Installed(Ready(TWO))
    ensures
      var sys := Run(Ready(TWO), UNREPAIRED);
      && Agreement.Quiescent(sys, 0) && sys.closers == map[] && sys.ackers == map[] && sys.replies == map[]
      && sys.db.sessions == LAST[2 := Of(1, 1, Active)] && LAST[1] == Of(0, 2, Pending)
      && Table(sys, 0) == map[10 := 1, 11 := 1]
  {
    ReadyIsInstalled(TWO);
    SetsUp();
    RunAppend(Ready(TWO), SETS_UP, Round(0) + (Round(1) + (Round(2) + (Round(3) + (Round(4) + SHARES)))));
    RoundsPass();
    assert Unheard(5) == G0;
    SharesIt();
    TheEnd();
  }

  lemma TheEnd()
    ensures Agreement.Quiescent(G8, 0) && G8.closers == map[] && G8.ackers == map[] && Table(G8, 0) == map[10 := 1, 11 := 1]
  {
    assert G8.db.commands == [SETUP, Remove(0, 0, 1, Aborted, 5, 5), Add(1, 0, 2, Aborted, 5, 5), Add(2, 1, 1, Done, 1, 9)];
  }
}
