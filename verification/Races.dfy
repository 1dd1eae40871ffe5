/** Concrete runs on which the protocol does less than its comments promise. */
module Races {
  import opened Rows
  import opened Plane
  import opened Protocol
  import opened Scene
  import Exclusive
  import Leases

  // ------------------------------------------------ reclaim by stale id ----

  const RECLAIM: seq<Step> := [
    Connect(0, 0, 0, 0, FREE),
    OnClose(CloseScope(Everywhere, [0], 0)),
    OnLease(ReclaimSelect(9, 1)),
    OnQueue(ClaimCancel(8, 0)),
    OnQueue(ClaimTake(8, 1)),
    OnAck(Ack(7, 0, 1, true)),
    OnAck(AckWrite(7)),
    OnAck(AckRelease(7)),
    Connect(0, 1, 0, 0, FREE),
    OnLease(ReclaimFree(9)),
    Connect(0, 2, 0, 0, FREE)]

  const CLOSED_FIRST := [Add(0, 0, 1, Aborted, 0, 0), Remove(0, 0, 1, Done, 1, 1)]
  const SELECTED: map<nat, set<Lease>> := map[9 := {(0, 1)}]
  const R0 := Ready(ONE)
  const R1 := OPENED
  const R2 := At(FIRST, ENDED, 1, [Add(0, 0, 1, Aborted, 0, 0), Remove(0, 0, 1, Queued, 0, 0)])
  const R3 := R2.(selections := SELECTED)
  const R4 := R2.(selections := SELECTED, claimers := map[8 := 0])
  const R5 := At(FIRST, ENDED, 1, [Add(0, 0, 1, Aborted, 0, 0), Remove(0, 0, 1, Delivered, 1, 1)]).(selections := SELECTED)
  const R6 := R5.(ackers := map[7 := Completing(1, true)], verdicts := map[1 := true])
  const R7 := At(FIRST, ENDED, 1, CLOSED_FIRST).(selections := SELECTED, ackers := map[7 := Releasing(1, 0, true)], verdicts := map[1 := true])
  const R8 := At(ONE, ENDED, 1, CLOSED_FIRST).(selections := SELECTED, verdicts := map[1 := true])
  const R9 := At(OTHER, ENDED[1 := Of(1, 1, Pending)], 2, CLOSED_FIRST + [Add(1, 1, 1, Queued, 0, 0)]).(selections := SELECTED, verdicts := map[1 := true])
  const R10 := At(ONE, ENDED[1 := Of(1, 1, Pending)], 2, CLOSED_FIRST + [Add(1, 1, 1, Queued, 0, 0)]).(verdicts := map[1 := true])
  const R11 := At(map[(0, 1) := Some(2)], ENDED[1 := Of(1, 1, Pending)][2 := Of(2, 1, Pending)], 3,
                  CLOSED_FIRST + [Add(1, 1, 1, Queued, 0, 0)] + [Add(2, 2, 1, Queued, 0, 0)]).(verdicts := map[1 := true])
  const RECLAIMED := [R0, R1, R2, R3, R4, R5, R6, R7, R8, R9, R10, R11]

  lemma ReclaimCloses()
    ensures Apply(R1, RECLAIM[1]) == R2
  {
    assert Enumerates([0], LiveInScope(R1.db, Everywhere));
    assert CloseTogether(R1.db, [0], 0) == R2.db;
  }

  lemma ReclaimSelects()
    ensures Apply(R2, RECLAIM[2]) == R3
  {
    assert StaleLeases(R2.db, 1) == {(0, 1)};
  }

  lemma ReclaimClaims()
    ensures Apply(R3, RECLAIM[3]) == R4
    ensures Apply(R4, RECLAIM[4]) == R5
  {
    assert CancelDead(R3.db, 0).commands == R3.db.commands;
    assert AheadOf(R4.db.commands, 0, 1) == 0;
    assert TakeOldest(R4.db, 0, CLAIM_LIMIT, 1).commands == R5.db.commands;
  }

  lemma ReclaimAcks()
    ensures Apply(R5, RECLAIM[5]) == R6
    ensures Apply(R6, RECLAIM[6]) == R7
  {
  }

  lemma ReclaimReleases()
    ensures Apply(R7, RECLAIM[7]) == R8
  {
    assert ReleaseLease(R7.db, 0).leases == ONE;
  }

  lemma ReclaimReopens()
    ensures Apply(R8, RECLAIM[8]) == R9
  {
    assert RECLAIM[8] == Connect(0, 1, 0, 0, FREE);
    ReclaimCanReopen();
    Opens(R8, 1, 1);
    assert Opening(R8, 1, Of(1, 1, Pending)).db == R9.db;
  }

  lemma ReclaimCanReopen()
    ensures Here(R8) && R8.db.nextSession == 1 && 1 !in R8.db.sessions && |R8.db.sessions| == 1
    ensures IsLeast(1, FreeAddresses(R8.db, 0)) && LiveOfDevice(R8.db.sessions, 1) == {}
  {
    assert FreeAddresses(R8.db, 0) == {1};
    assert R8.db.sessions == ENDED;
  }

  lemma ReclaimFrees()
    ensures Apply(R9, RECLAIM[9]) == R10
  {
    assert FreeLeases(R9.db, {(0, 1)}).leases == ONE;
  }

  lemma ReclaimCollides()
    ensures Apply(R10, RECLAIM[10]) == R11
  {
    assert FreeAddresses(R10.db, 0) == {1};
    Opens(R10, 2, 1);
  }

  lemma ReclaimBegins()
    ensures Apply(R0, RECLAIM[0]) == R1
  {
    assert RECLAIM[0] == Connect(0, 0, 0, 0, FREE);
    FirstOpens();
  }

  lemma ReclaimRuns()
    ensures Traces(RECLAIMED, RECLAIM)
  {
    ReclaimBegins();
    ReclaimCloses();
    ReclaimSelects();
    ReclaimClaims();
    ReclaimAcks();
    ReclaimReleases();
    ReclaimReopens();
    ReclaimFrees();
    ReclaimCollides();
  }

  /**
   * The monitor selects the lease of a session that ended long ago; the late acknowledgement frees
   * it and a new session takes it; then the monitor frees the row by id. The new session has lost
   * its lease, so a third one is given the same address, with no removal queued for either.
   */
  lemma ReclaimCanShareAnAddress()
    ensures Installed(Ready(ONE))
    ensures
      var sys := Run(Ready(ONE), RECLAIM);
      && 1 in sys.db.sessions && Live(sys.db.sessions[1])
      && 2 in sys.db.sessions && Live(sys.db.sessions[2])
      && sys.db.sessions[1].node == sys.db.sessions[2].node
      && sys.db.sessions[1].ip == sys.db.sessions[2].ip
      && !Exclusive.RemovalIssued(sys.db, 1) && !Exclusive.RemovalIssued(sys.db, 2)
  {
    ReadyIsInstalled(ONE);
    ReclaimRuns();
    TraceIsRun(RECLAIMED, RECLAIM);
    Collided();
  }

  lemma Collided()
    ensures R11.db.sessions.Keys == {0, 1, 2} && R11.db.sessions[1] == Of(1, 1, Pending) && R11.db.sessions[2] == Of(2, 1, Pending)
    ensures !Exclusive.RemovalIssued(R11.db, 1) && !Exclusive.RemovalIssued(R11.db, 2)
  {
    assert R11.db.commands == [Add(0, 0, 1, Aborted, 0, 0), Remove(0, 0, 1, Done, 1, 1), Add(1, 1, 1, Queued, 0, 0), Add(2, 2, 1, Queued, 0, 0)];
  }

  // -------------------------------------------- a verdict written late -----

  const LATE: seq<Step> := [
    Connect(0, 0, 0, 0, FREE),
    OnQueue(ClaimCancel(8, 0)),
    OnQueue(ClaimTake(8, 1)),
    OnAck(Ack(7, 0, 0, true)),
    OnQueue(Requeue(2, 5)),
    OnClose(CloseScope(Everywhere, [0], 0)),
    OnAck(AckWrite(7))]

  const L0 := Ready(ONE)
  const L1 := OPENED
  const L2 := CLAIMED
  const L3 := HANDED
  const L4 := L3.(ackers := map[7 := Completing(0, true)], verdicts := map[0 := true])
  const L5 := At(FIRST, WAITING, 1, [Add(0, 0, 1, Queued, 1, 1)]).(ackers := map[7 := Completing(0, true)], verdicts := map[0 := true])
  const L6 := At(FIRST, ENDED, 1, [Add(0, 0, 1, Aborted, 1, 1), Remove(0, 0, 1, Queued, 0, 0)]).(
    ackers := map[7 := Completing(0, true)], verdicts := map[0 := true])
  const L7 := At(FIRST, ENDED, 1, [Add(0, 0, 1, Done, 1, 1), Remove(0, 0, 1, Queued, 0, 0)]).(
    ackers := map[7 := Updating(0, 0, true)], verdicts := map[0 := true])
  const LATER := [L0, L1, L2, L3, L4, L5, L6, L7]

  lemma LateReads()
    ensures Apply(L3, LATE[3]) == L4
    ensures Apply(L4, LATE[4]) == L5
  {
    assert RequeueStale(L4.db, 2, 5).commands == L5.db.commands;
  }

  lemma LateCloses()
    ensures Apply(L5, LATE[5]) == L6
  {
    assert Enumerates([0], LiveInScope(L5.db, Everywhere));
    assert CloseTogether(L5.db, [0], 0) == L6.db;
  }

  lemma LateWrites()
    ensures Apply(L6, LATE[6]) == L7
  {
  }

  const TWICE: seq<Step> := [
    Connect(0, 0, 0, 0, FREE),
    OnQueue(ClaimCancel(8, 0)),
    OnQueue(ClaimTake(8, 1)),
    OnAck(Ack(7, 0, 0, true)),
    OnAck(Ack(6, 0, 0, false)),
    OnAck(AckWrite(7)),
    OnAck(AckWrite(6))]

  const T5 := L3.(ackers := map[7 := Completing(0, true), 6 := Completing(0, false)], verdicts := map[0 := true])
  const T6 := At(FIRST, WAITING, 1, [Add(0, 0, 1, Done, 1, 1)]).(
    ackers := map[7 := Updating(0, 0, true), 6 := Completing(0, false)], verdicts := map[0 := true])
  const T7 := At(FIRST, WAITING, 1, [Add(0, 0, 1, Aborted, 1, 1)]).(
    ackers := map[7 := Updating(0, 0, true), 6 := Updating(0, 0, false)], verdicts := map[0 := true])
  const TWICED := [L0, L1, L2, L3, L4, T5, T6, T7]

  lemma TwiceWrites()
    ensures Apply(L4, OnAck(Ack(6, 0, 0, false))) == T5
    ensures Apply(T5, OnAck(AckWrite(7))) == T6
    ensures Apply(T6, OnAck(AckWrite(6))) == T7
  {
  }

  lemma LateRuns()
    ensures Traces(LATER, LATE)
  {
    LateBegins();
    LateReads();
    LateCloses();
    LateWrites();
  }

  lemma LateBegins()
    ensures Apply(L0, LATE[0]) == L1
    ensures Apply(L1, LATE[1]) == L2
    ensures Apply(L2, LATE[2]) == L3
  {
    assert LATE[0] == Connect(0, 0, 0, 0, FREE) && LATE[1] == OnQueue(ClaimCancel(8, 0)) && LATE[2] == OnQueue(ClaimTake(8, 1));
    FirstOpens();
    FirstIsClaimed();
  }

  lemma SameStart()
    ensures TWICE[0] == LATE[0] && TWICE[1] == LATE[1] && TWICE[2] == LATE[2] && TWICE[3] == LATE[3]
    ensures TWICE[4] == OnAck(Ack(6, 0, 0, false)) && TWICE[5] == OnAck(AckWrite(7)) && TWICE[6] == OnAck(AckWrite(6))
  {
  }

  lemma TwiceRuns()
    ensures Traces(TWICED, TWICE)
  {
    SameStart();
    LateBegins();
    LateReads();
    TwiceWrites();
  }

  /**
   * A finished command can change its verdict, in both directions. An acknowledgement reads a setup
   * open; the sweep requeues it and its session is closed, which fails it; the late write makes it
   * DONE. And of two acknowledgements that both read it open, the second makes a DONE setup FAILED.
   */
  lemma VerdictsCanBeOverwritten()
    ensures Installed(Ready(ONE))
    ensures StatusIs(Run(Ready(ONE), LATE[..6]), 0, Aborted) && StatusIs(Run(Ready(ONE), LATE[..7]), 0, Done)
    ensures StatusIs(Run(Ready(ONE), TWICE[..6]), 0, Done) && StatusIs(Run(Ready(ONE), TWICE[..7]), 0, Aborted)
  {
    ReadyIsInstalled(ONE);
    LateRuns();
    TraceReaches(LATER, LATE, 6);
    TraceReaches(LATER, LATE, 7);
    TwiceRuns();
    TraceReaches(TWICED, TWICE, 6);
    TraceReaches(TWICED, TWICE, 7);
  }

  predicate StatusIs(sys: Sys, i: nat, status: CommandStatus) {
    i < |sys.db.commands| && sys.db.commands[i].status == status
  }

  // ------------------------------------------------------ a late refusal ----

  const REFUSAL: seq<Step> := [
    Connect(0, 0, 0, 0, FREE),
    OnQueue(ClaimCancel(8, 0)),
    OnQueue(ClaimTake(8, 1)),
    OnAgent(ExecuteAndAck(7, 0, 0, true)),
    OnAck(AckWrite(7)),
    OnAck(AckUpdate(7, 1)),
    OnAck(Ack(7, 0, 0, false)),
    OnAck(AckUpdate(7, 2)),
    OnAck(AckRelease(7)),
    Connect(0, 1, 0, 0, FREE)]

  const RUNNING := map[0 := Of(0, 1, Active)]
  const UP: map<nat, map<nat, nat>> := map[0 := map[10 := 1]]
  const SAID := map[0 := true]
  const F0 := Ready(ONE)
  const F1 := OPENED
  const F2 := CLAIMED
  const F3 := HANDED
  const F4 := At(FIRST, WAITING, 1, [Add(0, 0, 1, Delivered, 1, 1)]).(ackers := map[7 := Completing(0, true)], verdicts := SAID, peers := UP)
  const F5 := At(FIRST, WAITING, 1, [Add(0, 0, 1, Done, 1, 1)]).(ackers := map[7 := Updating(0, 0, true)], verdicts := SAID, peers := UP)
  const F6 := At(FIRST, RUNNING, 1, [Add(0, 0, 1, Done, 1, 1)]).(verdicts := SAID, peers := UP)
  const F7 := At(FIRST, RUNNING, 1, [Add(0, 0, 1, Done, 1, 1)]).(ackers := map[7 := Updating(0, 0, false)], verdicts := SAID, peers := UP)
  const F8 := At(FIRST, RUNNING, 1, [Add(0, 0, 1, Done, 1, 1)]).(ackers := map[7 := Releasing(0, 0, false)], verdicts := SAID, peers := UP)
  const F9 := At(ONE, RUNNING, 1, [Add(0, 0, 1, Done, 1, 1)]).(verdicts := SAID, peers := UP)
  const F10 := At(OTHER, map[0 := Of(0, 1, Active), 1 := Of(1, 1, Pending)], 2, [Add(0, 0, 1, Done, 1, 1), Add(1, 1, 1, Queued, 0, 0)]).(
    verdicts := SAID, peers := UP)
  const REFUSED := [F0, F1, F2, F3, F4, F5, F6, F7, F8, F9, F10]

  lemma RefusalBegins()
    ensures Apply(F0, REFUSAL[0]) == F1
    ensures Apply(F1, REFUSAL[1]) == F2
    ensures Apply(F2, REFUSAL[2]) == F3
  {
    assert REFUSAL[0] == Connect(0, 0, 0, 0, FREE) && REFUSAL[1] == OnQueue(ClaimCancel(8, 0)) && REFUSAL[2] == OnQueue(ClaimTake(8, 1));
    FirstOpens();
    FirstIsClaimed();
  }

  lemma RefusalSetsUpFirst()
    ensures Apply(F3, REFUSAL[3]) == F4
  {
    assert Executed(F3, 0, 0, true) == F3.(peers := UP);
  }

  lemma RefusalSetsUpSecond()
    ensures Apply(F4, REFUSAL[4]) == F5
  {
    assert REFUSAL[4] == OnAck(AckWrite(7));
    assert Complete(F4.db, 0, true) == F5.db;
  }

  lemma RefusalSetsUpThird()
    ensures Apply(F5, REFUSAL[5]) == F6
  {
    assert REFUSAL[5] == OnAck(AckUpdate(7, 1)) && F5.ackers - {7} == map[];
    assert SettleSession(F5.db, 0, true, 1) == F6.db;
  }

  lemma RefusalIsRead()
    ensures Apply(F6, REFUSAL[6]) == F7
  {
    assert REFUSAL[6] == OnAck(Ack(7, 0, 0, false));
  }

  lemma RefusalIsLate()
    ensures Apply(F7, REFUSAL[7]) == F8
  {
    assert REFUSAL[7] == OnAck(AckUpdate(7, 2));
    assert SettleSession(F7.db, 0, false, 2) == F7.db;
  }

  lemma RefusalReleases()
    ensures Apply(F8, REFUSAL[8]) == F9
  {
    assert REFUSAL[8] == OnAck(AckRelease(7)) && F8.ackers - {7} == map[];
    assert ReleaseLease(F8.db, 0).leases == ONE;
  }

  lemma RefusalReopens()
    ensures Apply(F9, REFUSAL[9]) == F10
  {
    assert REFUSAL[9] == Connect(0, 1, 0, 0, FREE);
    RefusalCanReopen();
    Opens(F9, 1, 1);
    assert Opening(F9, 1, Of(1, 1, Pending)).db == F10.db;
  }

  lemma RefusalCanReopen()
    ensures Here(F9) && F9.db.nextSession == 1 && 1 !in F9.db.sessions && |F9.db.sessions| == 1
    ensures IsLeast(1, FreeAddresses(F9.db, 0)) && LiveOfDevice(F9.db.sessions, 1) == {}
  {
    assert FreeAddresses(F9.db, 0) == {1};
    assert F9.db.sessions == RUNNING;
  }

  lemma RefusalRuns()
    ensures Traces(REFUSED, REFUSAL)
  {
    RefusalBegins();
    RefusalSetsUpFirst();
    RefusalSetsUpSecond();
    RefusalSetsUpThird();
    RefusalIsRead();
    RefusalIsLate();
    RefusalReleases();
    RefusalReopens();
  }

  /**
   * A setup is acknowledged and its session ACTIVE when a second acknowledgement says that it failed. The
   * session is left alone, but its address is released, and given to another session. Nobody has closed
   * anything, and no removal was ever queued.
   */
  lemma LateRefusalSharesAnAddress()
    ensures Installed(Ready(ONE))
    ensures Leases.Robs(Run(Ready(ONE), REFUSAL[..8]), REFUSAL[8], 0)
    ensures
      var sys := Run(Ready(ONE), REFUSAL);
      && sys.db.sessions == map[0 := Of(0, 1, Active), 1 := Of(1, 1, Pending)]
      && sys.closers == map[] && !Exclusive.RemovalIssued(sys.db, 0) && !Exclusive.RemovalIssued(sys.db, 1)
  {
    ReadyIsInstalled(ONE);
    RefusalArrives();
    RefusalRobs();
    RefusalEnds();
  }

  lemma RefusalEnds()
    ensures F10.db.sessions == map[0 := Of(0, 1, Active), 1 := Of(1, 1, Pending)] && F10.closers == map[]
    ensures !Exclusive.RemovalIssued(F10.db, 0) && !Exclusive.RemovalIssued(F10.db, 1)
  {
    assert F10.db.commands == [Add(0, 0, 1, Done, 1, 1), Add(1, 1, 1, Queued, 0, 0)];
  }

  lemma RefusalRobs()
    ensures Leases.Robs(Run(Ready(ONE), REFUSAL[..8]), REFUSAL[8], 0)
  {
    RefusalReaches();
    assert REFUSAL[8] == OnAck(AckRelease(7));
    assert Leases.AddressOf(F8.db, 0) == (0, 1);
  }

  lemma RefusalReaches()
    ensures Run(Ready(ONE), REFUSAL[..8]) == F8
  {
    RefusalRuns();
    TraceReaches(REFUSED, REFUSAL, 8);
  }

  lemma RefusalArrives()
    ensures Run(Ready(ONE), REFUSAL) == F10
  {
    RefusalRuns();
    TraceIsRun(REFUSED, REFUSAL);
  }

  // ------------------------------------------------ a peer that returns ----

  const RETURN: seq<Step> := [
    Connect(0, 0, 0, 0, FREE),
    OnClose(CloserRead(9, 0)),
    OnClose(CloserCheck(9)),
    OnClose(CloserEnqueue(9)),
    OnQueue(ClaimCancel(8, 0)),
    OnQueue(ClaimTake(8, 1)),
    OnAgent(Execute(0, 0, true)),
    OnAgent(ExecuteAndAck(7, 0, 1, true)),
    OnAck(AckWrite(7)),
    OnAck(AckRelease(7)),
    OnQueue(Requeue(2, 5)),
    Connect(0, 1, 0, 0, FREE),
    OnQueue(ClaimCancel(8, 0)),
    OnQueue(ClaimTake(8, 3)),
    OnAgent(ExecuteAndAck(7, 0, 0, true)),
    OnAck(AckWrite(7)),
    OnAck(AckUpdate(7, 3)),
    OnAgent(ExecuteAndAck(7, 0, 2, true)),
    OnAck(AckWrite(7)),
    OnAck(AckUpdate(7, 3))]

  const CLOSING := map[9 := Finishing(0)]
  const GONE := Remove(0, 0, 1, Done, 1, 1)
  const BOTH := map[0 := Of(0, 1, Pending), 1 := Of(1, 1, Pending)]

  /** The removal is acknowledged and the address given to the second session. */
  function Returning(sessions: map<nat, Session>, commands: seq<Command>, acker: map<nat, Acker>, peers: map<nat, nat>): Sys {
    At(OTHER, sessions, 2, commands).(
      closers := CLOSING, ackers := acker, peers := map[0 := peers], verdicts := map[1 := true, 0 := true])
  }

  const D0 := Ready(ONE)
  const D1 := OPENED
  const D2 := ASKED
  const D3 := CHECKED
  const D4 := At(FIRST, WAITING, 1, [Add(0, 0, 1, Queued, 0, 0), Remove(0, 0, 1, Queued, 0, 0)]).(closers := CLOSING)
  const D5 := D4.(claimers := map[8 := 0])
  const D6 := At(FIRST, WAITING, 1, [Add(0, 0, 1, Delivered, 1, 1), Remove(0, 0, 1, Delivered, 1, 1)]).(closers := CLOSING)
  const D7 := D6.(peers := map[0 := map[10 := 1]])
  const D8 := At(FIRST, WAITING, 1, [Add(0, 0, 1, Delivered, 1, 1), Remove(0, 0, 1, Delivered, 1, 1)]).(
    closers := CLOSING, peers := map[0 := map[]], ackers := map[7 := Completing(1, true)], verdicts := map[1 := true])
  const D9 := At(FIRST, WAITING, 1, [Add(0, 0, 1, Delivered, 1, 1), GONE]).(
    closers := CLOSING, peers := map[0 := map[]], ackers := map[7 := Releasing(1, 0, true)], verdicts := map[1 := true])
  const D10 := At(ONE, WAITING, 1, [Add(0, 0, 1, Delivered, 1, 1), GONE]).(
    closers := CLOSING, peers := map[0 := map[]], verdicts := map[1 := true])
  const D11 := At(ONE, WAITING, 1, [Add(0, 0, 1, Queued, 1, 1), GONE]).(
    closers := CLOSING, peers := map[0 := map[]], verdicts := map[1 := true])
  const D12 := At(OTHER, BOTH, 2, [Add(0, 0, 1, Queued, 1, 1), GONE, Add(1, 1, 1, Queued, 0, 0)]).(
    closers := CLOSING, peers := map[0 := map[]], verdicts := map[1 := true])
  const D13 := D12.(claimers := map[8 := 0])
  const D14 := At(OTHER, BOTH, 2, [Add(0, 0, 1, Delivered, 2, 3), GONE, Add(1, 1, 1, Delivered, 1, 3)]).(
    closers := CLOSING, peers := map[0 := map[]], verdicts := map[1 := true])
  const D15 := Returning(BOTH, [Add(0, 0, 1, Delivered, 2, 3), GONE, Add(1, 1, 1, Delivered, 1, 3)], map[7 := Completing(0, true)], map[10 := 1])
  const D16 := Returning(BOTH, [Add(0, 0, 1, Done, 2, 3), GONE, Add(1, 1, 1, Delivered, 1, 3)], map[7 := Updating(0, 0, true)], map[10 := 1])
  const D17 := Returning(BOTH[0 := Of(0, 1, Active)], [Add(0, 0, 1, Done, 2, 3), GONE, Add(1, 1, 1, Delivered, 1, 3)], map[], map[10 := 1])
  const D18 := D17.(ackers := map[7 := Completing(2, true)], peers := map[0 := map[10 := 1, 11 := 1]], verdicts := map[1 := true, 0 := true, 2 := true])
  const D19 := Queueing(D18, [Add(0, 0, 1, Done, 2, 3), GONE, Add(1, 1, 1, Done, 1, 3)]).(ackers := map[7 := Updating(2, 1, true)])
  const D20 := At(OTHER, map[0 := Of(0, 1, Active), 1 := Of(1, 1, Active)], 2, [Add(0, 0, 1, Done, 2, 3), GONE, Add(1, 1, 1, Done, 1, 3)]).(
    closers := CLOSING, peers := map[0 := map[10 := 1, 11 := 1]], verdicts := map[1 := true, 0 := true, 2 := true])
  const RETURNED := [D0, D1, D2, D3, D4, D5, D6, D7, D8, D9, D10, D11, D12, D13, D14, D15, D16, D17, D18, D19, D20]

  lemma ReturnQueuesRemoval()
    ensures Apply(D3, RETURN[3]) == D4
  {
    assert EnqueueRemove(D3.db, 0).commands == D4.db.commands;
  }

  lemma ReturnClaimsFirst()
    ensures Apply(D4, RETURN[4]) == D5
  {
    assert CancelDead(D4.db, 0).commands == D4.db.commands;
  }

  lemma ReturnClaimsSecond()
    ensures Apply(D5, RETURN[5]) == D6
  {
    assert AheadOf(D5.db.commands, 0, 0) == 0 && AheadOf(D5.db.commands, 0, 1) == 1;
    assert TakeOldest(D5.db, 0, CLAIM_LIMIT, 1).commands == D6.db.commands;
  }

  lemma ReturnExecutesFirst()
    ensures Apply(D6, RETURN[6]) == D7
  {
    assert Executed(D6, 0, 0, true) == D7;
  }

  lemma ReturnExecutesSecond()
    ensures Apply(D7, RETURN[7]) == D8
  {
    assert RETURN[7] == OnAgent(ExecuteAndAck(7, 0, 1, true));
    assert Executed(D7, 0, 1, true) == D6.(peers := map[0 := map[]]);
  }

  lemma ReturnConfirmsFirst()
    ensures Apply(D8, RETURN[8]) == D9
  {
    assert RETURN[8] == OnAck(AckWrite(7));
    assert D8.ackers[7] == Completing(1, true);
    assert Apply(D8, RETURN[8]).db == D9.db;
  }

  lemma ReturnConfirmsSecond()
    ensures Apply(D9, RETURN[9]) == D10
  {
    assert ReleaseLease(D9.db, 0).leases == ONE;
  }

  lemma ReturnConfirmsThird()
    ensures Apply(D10, RETURN[10]) == D11
  {
    assert RequeueStale(D10.db, 2, 5).commands == D11.db.commands;
  }

  lemma ReturnReopens()
    ensures Apply(D11, RETURN[11]) == D12
  {
    SecondCanOpen();
    Opens(D11, 1, 1);
    SecondIsOpened();
  }

  lemma SecondCanOpen()
    ensures Here(D11) && D11.db.nextSession == 1 && D11.db.sessions == WAITING
    ensures FreeAddresses(D11.db, 0) == {1} && LiveOfDevice(D11.db.sessions, 1) == {}
  {
  }

  lemma SecondIsOpened()
    ensures Opening(D11, 1, Of(1, 1, Pending)) == D12
  {
    assert Opening(D11, 1, Of(1, 1, Pending)).db == D12.db;
  }

  lemma ReturnClaimsAgainFirst()
    ensures Apply(D12, RETURN[12]) == D13
  {
    assert D12.db.commands == [Add(0, 0, 1, Queued, 1, 1), Remove(0, 0, 1, Done, 1, 1), Add(1, 1, 1, Queued, 0, 0)];
    assert CancelDead(D12.db, 0).commands == D12.db.commands;
  }

  lemma ReturnClaimsAgainSecond()
    ensures Apply(D13, RETURN[13]) == D14
  {
    assert AheadOf(D13.db.commands, 0, 0) == 0 && AheadOf(D13.db.commands, 0, 1) == 1 && AheadOf(D13.db.commands, 0, 2) == 1;
    assert TakeOldest(D13.db, 0, CLAIM_LIMIT, 3).commands == D14.db.commands;
  }

  lemma ReturnSetsUpFirst()
    ensures Apply(D14, RETURN[14]) == D15
  {
    assert Executed(D14, 0, 0, true) == D14.(peers := map[0 := map[10 := 1]]);
  }

  lemma ReturnSetsUpSecond()
    ensures Apply(D15, RETURN[15]) == D16
  {
  }

  lemma ReturnSetsUpThird()
    ensures Apply(D16, RETURN[16]) == D17
  {
    assert SettleSession(D16.db, 0, true, 3).sessions == D17.db.sessions;
  }

  lemma ReturnSetsUpBothFirst()
    ensures Apply(D17, RETURN[17]) == D18
  {
    assert Executed(D17, 0, 2, true) == D17.(peers := map[0 := map[10 := 1, 11 := 1]]);
  }

  lemma ReturnSetsUpBothSecond()
    ensures Apply(D18, RETURN[18]) == D19
  {
  }

  lemma ReturnSetsUpBothThird()
    ensures Apply(D19, RETURN[19]) == D20
  {
    assert RETURN[19] == OnAck(AckUpdate(7, 3)) && D19.ackers - {7} == map[];
    assert D19.db.sessions[1] == Of(1, 1, Pending);
    assert SettleSession(D19.db, 1, true, 3) == D20.db;
  }

  lemma ReturnBegins()
    ensures Apply(D0, RETURN[0]) == D1
    ensures Apply(D1, RETURN[1]) == D2
    ensures Apply(D2, RETURN[2]) == D3
  {
    assert RETURN[0] == Connect(0, 0, 0, 0, FREE) && RETURN[1] == OnClose(CloserRead(9, 0)) && RETURN[2] == OnClose(CloserCheck(9));
    FirstOpens();
    CloseBegins();
  }

  lemma ReturnStarts()
    ensures forall k :: 0 <= k < 9 ==> Apply(RETURNED[k], RETURN[k]) == RETURNED[k + 1]
  {
    ReturnBegins();
    ReturnQueuesRemoval();
    ReturnClaimsFirst();
    ReturnClaimsSecond();
    ReturnExecutesFirst();
    ReturnExecutesSecond();
    ReturnConfirmsFirst();
  }

  lemma ReturnEnds()
    ensures forall k :: 9 <= k < |RETURN| ==> Apply(RETURNED[k], RETURN[k]) == RETURNED[k + 1]
  {
    ReturnConfirmsSecond();
    ReturnConfirmsThird();
    ReturnReopens();
    ReturnClaimsAgainFirst();
    ReturnClaimsAgainSecond();
    ReturnSetsUpFirst();
    ReturnSetsUpSecond();
    ReturnSetsUpThird();
    ReturnSetsUpBothFirst();
    ReturnSetsUpBothSecond();
    ReturnSetsUpBothThird();
  }

  lemma ReturnRuns()
    ensures Traces(RETURNED, RETURN)
  {
    ReturnStarts();
    ReturnEnds();
  }

  /**
   * The exception of Exclusive.AddressesAreExclusive is real, and worse than a row whose peer is gone: a
   * closeSession queues its removal and dies; the removal is acknowledged and frees the address, while
   * the acknowledgement of the setup was lost. The address is given to a second session, and the setup
   * of the first, still live, is delivered again. No acknowledgements disagree and no lease is
   * reclaimed, yet two ACTIVE sessions of a node have one address and both have their peer.
   */
  lemma ConfirmedPeerReturns()
    ensures Installed(Ready(ONE)) && Exclusive.Careful(Ready(ONE), RETURN)
    ensures
      var sys := Run(Ready(ONE), RETURN);
      && sys.db.sessions == map[0 := Of(0, 1, Active), 1 := Of(1, 1, Active)]
      && Exclusive.Confirmed(sys, 0) && Exclusive.BeingClosed(sys, 0)
      && Table(sys, 0) == map[10 := 1, 11 := 1]
  {
    ReadyIsInstalled(ONE);
    ReturnRuns();
    TraceIsRun(RETURNED, RETURN);
    ReturnIsCareful();
    Returned();
  }

  lemma Returned()
    ensures D20.db.sessions == map[0 := Of(0, 1, Active), 1 := Of(1, 1, Active)] && Table(D20, 0) == map[10 := 1, 11 := 1]
    ensures Exclusive.Confirmed(D20, 0) && Exclusive.BeingClosed(D20, 0)
  {
    assert IsRemoveOf(D20.db.commands[1], 0) && D20.verdicts[1];
    assert D20.closers[9] == Finishing(0);
  }

  lemma ReturnIsCareful()
    ensures Exclusive.Careful(Ready(ONE), RETURN)
  {
    ReturnRuns();
    AcksAgree();
    Exclusive.TraceIsCareful(RETURNED, RETURN);
  }

  lemma AcksAgree()
    ensures forall k :: 0 <= k < |RETURN| ==> Exclusive.Cares(RETURNED[k], RETURN[k])
  {
    NothingToAgree();
    FirstVerdicts();
    forall k | 0 <= k < |RETURN| ensures Exclusive.Cares(RETURNED[k], RETURN[k]) {
      ReturnedAt(k);
    }
  }

  lemma ReturnedAt(k: nat)
    requires k < |RETURN|
    ensures (k == 7 ==> RETURNED[k] == D7) && (k == 14 ==> RETURNED[k] == D14) && (k == 17 ==> RETURNED[k] == D17)
  {
    if k == 7 { assert RETURNED[7] == D7; }
    if k == 14 { assert RETURNED[14] == D14; }
    if k == 17 { assert RETURNED[17] == D17; }
  }

  lemma FirstVerdicts()
    ensures Exclusive.Cares(D7, RETURN[7])
    ensures Exclusive.Cares(D14, RETURN[14])
    ensures Exclusive.Cares(D17, RETURN[17])
  {
    assert 1 !in D7.verdicts && 0 !in D14.verdicts && 2 !in D17.verdicts;
  }

  lemma NothingToAgree()
    ensures forall sys, k :: 0 <= k < |RETURN| && k != 7 && k != 14 && k != 17 ==>
      Exclusive.Cares(sys, RETURN[k])
  {
  }
}
