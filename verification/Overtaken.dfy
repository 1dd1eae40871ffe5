/**
 * closeSession queues a session's removal some time after it has read the session's row. When another
 * close has ended the session meanwhile and its device has connected again, the removal stands behind
 * the setup of the new session and takes its peer away. This is what becomes of it, and exactly when.
 */
module Overtaken {
  import opened Rows
  import opened Plane
  import opened Protocol
  import opened Scene
  import opened Fifo
  import opened Subjects
  import NoReturn
  import Keys
  import Agreement

  predicate Carries(c: Command, n: nat, key: nat) {
    c.node == n && c.key == key
  }

  /**
   * Session `t` is live on node `n` with `key`, a removal of that key stands at `r` in the queue with no
   * setup of the key behind it, and once the removal has been carried out the key has no peer.
   */
  ghost predicate Doomed(sys: Sys, n: nat, key: nat, t: nat, r: nat) {
    && IsLive(sys.db, t) && sys.db.sessions[t].node == n && sys.db.sessions[t].key == key
    && r < |sys.db.commands| && sys.db.commands[r].kind.RemovePeer? && Carries(sys.db.commands[r], n, key)
    && (forall a :: r < a < |sys.db.commands| && sys.db.commands[a].kind.AddPeer? ==> !Carries(sys.db.commands[a], n, key))
    && (!Open(sys.db.commands[r]) || InFlight(sys, r) ==> key !in Table(sys, n))
  }

  /** No step of the queue or of a session's life puts a setup of the key behind the removal. */
  lemma StaysBehind(sys: Sys, step: Step, n: nat, key: nat, t: nat, r: nat)
    requires Structure(sys) && Doomed(sys, n, key, t, r) && IsLive(Apply(sys, step).db, t)
    ensures
      var after := Apply(sys, step).db;
      && after.sessions[t].node == n && after.sessions[t].key == key
      && r < |after.commands| && after.commands[r].kind.RemovePeer? && Carries(after.commands[r], n, key)
      && (forall a :: r < a < |after.commands| && after.commands[a].kind.AddPeer? ==> !Carries(after.commands[a], n, key))
  {
    var after := Apply(sys, step).db;
    StepContinues(sys, step);
    SessionStays(sys, step, t);
    forall a | r < a < |after.commands| && after.commands[a].kind.AddPeer? ensures !Carries(after.commands[a], n, key) {
      if a >= |sys.db.commands| { NobodyTakesTheKey(sys, step, t, a); }
    }
  }

  lemma CalmWasInFlight(sys: Sys, after: Sys, n: nat, key: nat, r: nat)
    requires Calm(sys.db, after.db) && Fifo.SameWriters(sys, after) && r < |sys.db.commands| && sys.db.commands[r].kind.RemovePeer?
    requires !Open(sys.db.commands[r]) || InFlight(sys, r) ==> key !in Table(sys, n)
    ensures !Open(after.db.commands[r]) || InFlight(after, r) ==> key !in Table(after, n)
  {
    assert forall q, ok :: IsWriting(after, q, r, ok) ==> IsWriting(sys, q, r, ok);
    assert key in Table(after, n) ==> key in Table(after, n).Keys && key in Table(sys, n).Keys;
  }

  lemma CalmStaysDoomed(sys: Sys, step: Step, n: nat, key: nat, t: nat, r: nat)
    requires Structure(sys) && Doomed(sys, n, key, t, r) && IsLive(Apply(sys, step).db, t)
    requires Orderly(sys, step) && !MovesOn(step)
    ensures Doomed(Apply(sys, step), n, key, t, r)
  {
    StaysBehind(sys, step, n, key, t, r);
    OthersAreCalm(sys, step);
    CalmWasInFlight(sys, Apply(sys, step), n, key, r);
  }

  lemma TakingStaysDoomed(sys: Sys, p: nat, now: int, n: nat, key: nat, t: nat, r: nat)
    requires Structure(sys) && Doomed(sys, n, key, t, r)
    ensures Doomed(Apply(sys, OnQueue(ClaimTake(p, now))), n, key, t, r)
  {
    var step := OnQueue(ClaimTake(p, now));
    var after := Apply(sys, step);
    StaysBehind(sys, step, n, key, t, r);
    assert after.ackers == sys.ackers && after.peers == sys.peers;
    if q, ok :| IsWriting(after, q, r, ok) { assert IsWriting(sys, q, r, ok); }
  }

  lemma WritingStaysDoomed(sys: Sys, p: nat, n: nat, key: nat, t: nat, r: nat)
    requires Structure(sys) && Fifo.Inv(sys) && Doomed(sys, n, key, t, r)
    ensures Doomed(Completed(sys, p), n, key, t, r)
  {
    var step := OnAck(AckWrite(p));
    var after := Completed(sys, p);
    assert after == Apply(sys, step);
    StaysBehind(sys, step, n, key, t, r);
    assert after.peers == sys.peers;
    WritingWasInFlight(sys, p, r);
  }

  lemma WritingWasInFlight(sys: Sys, p: nat, r: nat)
    requires r < |sys.db.commands|
    ensures
      var after := Completed(sys, p);
      r < |after.db.commands| && (!Open(after.db.commands[r]) || InFlight(after, r) ==> !Open(sys.db.commands[r]) || InFlight(sys, r))
  {
    var after := Completed(sys, p);
    if after != sys && sys.ackers[p].command == r { assert IsWriting(sys, p, r, sys.ackers[p].ok); }
    assert forall q, ok :: IsWriting(after, q, r, ok) ==> IsWriting(sys, q, r, ok);
  }

  /** The agent sets the key up again only while the removal is still to be carried out. */
  lemma CarryingStaysDoomed(sys: Sys, p: nat, m: nat, i: nat, ok: bool, n: nat, key: nat, t: nat, r: nat)
    requires Structure(sys) && Fifo.Inv(sys) && Doomed(sys, n, key, t, r) && Executable(sys, p, m, i, ok)
    ensures Doomed(Carried(sys, p, m, i, ok), n, key, t, r)
  {
    var after := Carried(sys, p, m, i, ok);
    CarriedIs(sys, p, m, i, ok);
    HeadIsOldest(sys.db, m, i);
    assert forall q, yes :: IsWriting(sys, q, r, yes) ==> WritesHead(sys, r, yes);
    if !Open(after.db.commands[r]) || InFlight(after, r) {
      assert !Open(sys.db.commands[r]) || InFlight(sys, r) || i == r;
    }
  }

  lemma StepStaysDoomed(sys: Sys, step: Step, n: nat, key: nat, t: nat, r: nat)
    requires Structure(sys) && Fifo.Inv(sys) && Doomed(sys, n, key, t, r)
    requires Orderly(sys, step) && IsLive(Apply(sys, step).db, t)
    ensures Doomed(Apply(sys, step), n, key, t, r)
  {
    if !MovesOn(step) {
      CalmStaysDoomed(sys, step, n, key, t, r);
    } else if step.OnQueue? {
      TakingStaysDoomed(sys, step.queue.p, step.queue.now, n, key, t, r);
    } else if step.OnAck? {
      WritingStaysDoomed(sys, step.ack.p, n, key, t, r);
    } else {
      CarryingStaysDoomed(sys, step.agent.p, step.agent.n, step.agent.i, step.agent.ok, n, key, t, r);
    }
  }

  lemma {:induction false} RunStaysDoomed(sys: Sys, steps: seq<Step>, n: nat, key: nat, t: nat, r: nat)
    requires Structure(sys) && Fifo.Inv(sys) && Doomed(sys, n, key, t, r)
    requires Agreement.LossFreeRun(sys, steps) && IsLive(Run(sys, steps).db, t)
    ensures Doomed(Run(sys, steps), n, key, t, r)
    decreases |steps|
  {
    if steps != [] {
      var next := Apply(sys, steps[0]);
      Subjects.StepKeeps(sys, steps[0]);
      Fifo.StepKeeps(sys, steps[0]);
      NoReturn.StepKeeps(sys, steps[0]);
      StillThere(sys, steps[0], steps[1..], t);
      StepStaysDoomed(sys, steps[0], n, key, t, r);
      RunStaysDoomed(next, steps[1..], n, key, t, r);
    }
  }

  lemma StillThere(sys: Sys, step: Step, rest: seq<Step>, t: nat)
    requires NoReturn.Sound(sys.db) && IsLive(sys.db, t) && IsLive(Run(Apply(sys, step), rest).db, t)
    ensures IsLive(Apply(sys, step).db, t)
  {
    NoReturn.StepKeeps(sys, step);
    NoReturn.RunKeeps(Apply(sys, step), rest);
    assert !IsLive(Apply(sys, step).db, t) ==> NoReturn.Ended(Apply(sys, step).db, t);
  }

  lemma EnqueueDooms(sys: Sys, p: nat, s: nat, t: nat)
    requires Structure(sys) && Fifo.Inv(sys) && p in sys.closers && sys.closers[p] == Enqueuing(s) && s in sys.db.sessions
    requires t != s && IsLive(sys.db, t)
    requires sys.db.sessions[t].node == sys.db.sessions[s].node && sys.db.sessions[t].key == sys.db.sessions[s].key
    ensures Doomed(Apply(sys, OnClose(CloserEnqueue(p))), sys.db.sessions[s].node, sys.db.sessions[s].key, t, |sys.db.commands|)
  {
    var after := Apply(sys, OnClose(CloserEnqueue(p)));
    var r := |sys.db.commands|;
    assert after.db == EnqueueRemove(sys.db, s) && after.ackers == sys.ackers;
    assert after.db.commands[r] == RemoveCommand(s, sys.db.sessions[s]);
    assert forall q, ok :: IsWriting(after, q, r, ok) ==> IsWriting(sys, q, r, ok);
    assert forall q, ok :: IsWriting(sys, q, r, ok) ==> WritesHead(sys, r, ok);
  }

  /**
   * A removal queued for session `s` when session `t` has taken over its key is carried out on `t`:
   * whatever happens without loss afterwards, once the node has nothing left to do and `t` is still
   * live, its key has no peer.
   */
  lemma RemovalTakesThePeer(init: Sys, history: seq<Step>, sys: Sys, p: nat, s: nat, t: nat, future: seq<Step>, end: Sys)
    requires Installed(init) && Agreement.LossFreeRun(init, history) && sys == Run(init, history)
    requires p in sys.closers && sys.closers[p] == Enqueuing(s) && s in sys.db.sessions && t != s && IsLive(sys.db, t)
    requires sys.db.sessions[t].node == sys.db.sessions[s].node && sys.db.sessions[t].key == sys.db.sessions[s].key
    requires Agreement.LossFreeRun(Apply(sys, OnClose(CloserEnqueue(p))), future)
    requires end == Run(Apply(sys, OnClose(CloserEnqueue(p))), future)
    requires Agreement.Quiescent(end, sys.db.sessions[s].node) && IsLive(end.db, t)
    ensures sys.db.sessions[t].key !in Table(end, sys.db.sessions[t].node)
    ensures end.db.sessions[t].key == sys.db.sessions[t].key && end.db.sessions[t].node == sys.db.sessions[t].node
  {
    var queued := Apply(sys, OnClose(CloserEnqueue(p)));
    var n, key, r := sys.db.sessions[s].node, sys.db.sessions[s].key, |sys.db.commands|;
    Agreement.InstalledIsSound(init);
    Agreement.RunKeeps(init, history);
    Subjects.StepKeeps(sys, OnClose(CloserEnqueue(p)));
    Fifo.StepKeeps(sys, OnClose(CloserEnqueue(p)));
    EnqueueDooms(sys, p, s, t);
    RunStaysDoomed(queued, future, n, key, t, r);
    assert end.db.commands[r].node == n;
  }

  /** Every live session of the node that no request is about to end has its peer. */
  ghost predicate AllHavePeers(sys: Sys, n: nat) {
    forall t :: t in LiveOfNode(sys.db.sessions, n) && !Agreement.Ending(sys, t) ==> sys.db.sessions[t].key in Table(sys, n)
  }

  lemma UnreplacedLosesNobody(init: Sys, history: seq<Step>, sys: Sys, p: nat, s: nat, future: seq<Step>, end: Sys)
    requires Installed(init) && Agreement.LossFreeRun(init, history) && sys == Run(init, history)
    requires p in sys.closers && sys.closers[p] == Enqueuing(s) && s in sys.db.sessions && Agreement.Unreplaced(sys.db, s)
    requires Agreement.LossFreeRun(Apply(sys, OnClose(CloserEnqueue(p))), future)
    requires end == Run(Apply(sys, OnClose(CloserEnqueue(p))), future)
    requires Agreement.Quiescent(end, sys.db.sessions[s].node)
    ensures AllHavePeers(end, sys.db.sessions[s].node)
  {
    Agreement.InstalledIsSound(init);
    Agreement.RunKeeps(init, history);
    UnreplacedKeeps(sys, p, s);
    Agreement.RunKeeps(Apply(sys, OnClose(CloserEnqueue(p))), future);
    RestHasAll(end, sys.db.sessions[s].node);
  }

  lemma UnreplacedKeeps(sys: Sys, p: nat, s: nat)
    requires Agreement.Inv(sys) && Fifo.Inv(sys)
    requires p in sys.closers && sys.closers[p] == Enqueuing(s) && s in sys.db.sessions && Agreement.Unreplaced(sys.db, s)
    ensures Agreement.Inv(Apply(sys, OnClose(CloserEnqueue(p)))) && Fifo.Inv(Apply(sys, OnClose(CloserEnqueue(p))))
  {
    Agreement.EnqueueKeepsIff(sys, p, s);
    Fifo.StepKeeps(sys, OnClose(CloserEnqueue(p)));
  }

  lemma RestHasAll(sys: Sys, n: nat)
    requires Agreement.Inv(sys) && Agreement.Quiescent(sys, n)
    ensures AllHavePeers(sys, n)
  {
    forall t | t in LiveOfNode(sys.db.sessions, n) && !Agreement.Ending(sys, t) ensures sys.db.sessions[t].key in Table(sys, n) {
      Agreement.StayingHavePeers(sys, n, t);
    }
  }

  /**
   * The exact condition. After any run without loss closeSession queues its removal, and the run goes
   * on without loss until the node has nothing left to do. Provided the other sessions that were live
   * when the removal was queued still are and no request is about to end one of them, every live session
   * of the node that is to stay has its peer in the end if and only if no other live session had the key
   * when the removal was queued. Whatever else is unfinished, for this node or others, does not matter.
   */
  lemma EnqueueLosesAPeerIff(init: Sys, history: seq<Step>, sys: Sys, p: nat, s: nat, future: seq<Step>, end: Sys)
    requires Installed(init) && Agreement.LossFreeRun(init, history) && sys == Run(init, history)
    requires p in sys.closers && sys.closers[p] == Enqueuing(s) && s in sys.db.sessions
    requires Agreement.LossFreeRun(Apply(sys, OnClose(CloserEnqueue(p))), future)
    requires end == Run(Apply(sys, OnClose(CloserEnqueue(p))), future)
    requires Agreement.Quiescent(end, sys.db.sessions[s].node)
    requires forall t :: t in LiveOfNode(sys.db.sessions, sys.db.sessions[s].node) && t != s ==> IsLive(end.db, t) && !Agreement.Ending(end, t)
    ensures AllHavePeers(end, sys.db.sessions[s].node) <==> Agreement.Unreplaced(sys.db, s)
  {
    if Agreement.Unreplaced(sys.db, s) {
      UnreplacedLosesNobody(init, history, sys, p, s, future, end);
    } else {
      var n := sys.db.sessions[s].node;
      var t :| IsLive(sys.db, t) && sys.db.sessions[t].node == n && sys.db.sessions[t].key == sys.db.sessions[s].key && t != s;
      assert t in LiveOfNode(sys.db.sessions, n);
      RemovalTakesThePeer(init, history, sys, p, s, t, future, end);
      assert t in LiveOfNode(end.db.sessions, n);
    }
  }

  // -------------------------------------------------------- such a run -----

  const TAKEOVER: seq<Step> := [
    Connect(0, 0, 0, 0, FREE),
    OnClose(CloserRead(9, 0)),
    OnClose(CloserCheck(9)),
    OnClose(CloseScope(Everywhere, [0], 0)),
    OnQueue(ClaimCancel(8, 0)),
    OnQueue(ClaimTake(8, 1)),
    OnAgent(ExecuteAndAck(7, 0, 1, true)),
    OnAck(AckWrite(7)),
    OnAck(AckRelease(7)),
    Connect(0, 0, 0, 0, FREE),
    OnClose(CloserEnqueue(9)),
    OnClose(CloserFinish(9, 0)),
    OnQueue(ClaimCancel(8, 0)),
    OnQueue(ClaimTake(8, 2)),
    OnAgent(ExecuteAndAck(7, 0, 2, true)),
    OnAck(AckWrite(7)),
    OnAck(AckUpdate(7, 2)),
    OnAgent(ExecuteAndAck(7, 0, 3, true)),
    OnAck(AckWrite(7)),
    OnAck(AckRelease(7))]

  const FAILED := Add(0, 0, 1, Aborted, 0, 0)
  const GONE := Remove(0, 0, 1, Done, 1, 1)
  const AGAIN := map[0 := Of(0, 1, Closed), 1 := Of(0, 1, Pending)]
  const LEFT: map<nat, Closer> := map[9 := Enqueuing(0)]

  function Over(sessions: map<nat, Session>, commands: seq<Command>, ackers: map<nat, Acker>, peers: map<nat, nat>): Sys {
    At(OTHER, sessions, 2, commands).(ackers := ackers, peers := map[0 := peers], verdicts := map[1 := true, 2 := true])
  }

  const O0 := Ready(ONE)
  const O1 := OPENED
  const O2 := ASKED
  const O3 := CHECKED
  const O4 := At(FIRST, ENDED, 1, [FAILED, Remove(0, 0, 1, Queued, 0, 0)]).(closers := LEFT)
  const O5 := At(FIRST, ENDED, 1, [FAILED, Remove(0, 0, 1, Queued, 0, 0)]).(closers := LEFT, claimers := map[8 := 0])
  const O6 := At(FIRST, ENDED, 1, [FAILED, Remove(0, 0, 1, Delivered, 1, 1)]).(closers := LEFT)
  const O7 := At(FIRST, ENDED, 1, [FAILED, Remove(0, 0, 1, Delivered, 1, 1)]).(
    closers := LEFT, peers := map[0 := map[]], ackers := map[7 := Completing(1, true)], verdicts := map[1 := true])
  const O8 := At(FIRST, ENDED, 1, [FAILED, GONE]).(
    closers := LEFT, peers := map[0 := map[]], ackers := map[7 := Releasing(1, 0, true)], verdicts := map[1 := true])
  const O9 := At(ONE, ENDED, 1, [FAILED, GONE]).(closers := LEFT, peers := map[0 := map[]], verdicts := map[1 := true])
  const O10 := At(OTHER, AGAIN, 2, [FAILED, GONE, Add(1, 0, 1, Queued, 0, 0)]).(
    closers := LEFT, peers := map[0 := map[]], verdicts := map[1 := true])
  const O11 := At(OTHER, AGAIN, 2, [FAILED, GONE, Add(1, 0, 1, Queued, 0, 0), Remove(0, 0, 1, Queued, 0, 0)]).(
    closers := map[9 := Finishing(0)], peers := map[0 := map[]], verdicts := map[1 := true])
  const O12 := At(OTHER, AGAIN, 2, [FAILED, GONE, Add(1, 0, 1, Queued, 0, 0), Remove(0, 0, 1, Queued, 0, 0)]).(
    peers := map[0 := map[]], verdicts := map[1 := true])
  const O13 := At(OTHER, AGAIN, 2, [FAILED, GONE, Add(1, 0, 1, Queued, 0, 0), Remove(0, 0, 1, Queued, 0, 0)]).(
    claimers := map[8 := 0], peers := map[0 := map[]], verdicts := map[1 := true])
  const O14 := At(OTHER, AGAIN, 2, [FAILED, GONE, Add(1, 0, 1, Delivered, 1, 2), Remove(0, 0, 1, Delivered, 1, 2)]).(
    peers := map[0 := map[]], verdicts := map[1 := true])
  const O15 := Over(AGAIN, [FAILED, GONE, Add(1, 0, 1, Delivered, 1, 2), Remove(0, 0, 1, Delivered, 1, 2)], map[7 := Completing(2, true)], map[10 := 1])
  const O16 := Over(AGAIN, [FAILED, GONE, Add(1, 0, 1, Done, 1, 2), Remove(0, 0, 1, Delivered, 1, 2)], map[7 := Updating(2, 1, true)], map[10 := 1])
  const SETUP := map[0 := Of(0, 1, Closed), 1 := Of(0, 1, Active)]
  const O17 := Over(SETUP, [FAILED, GONE, Add(1, 0, 1, Done, 1, 2), Remove(0, 0, 1, Delivered, 1, 2)], map[], map[10 := 1])
  const O18 := Over(SETUP, [FAILED, GONE, Add(1, 0, 1, Done, 1, 2), Remove(0, 0, 1, Delivered, 1, 2)], map[7 := Completing(3, true)], map[]).(
    verdicts := map[1 := true, 2 := true, 3 := true])
  const O19 := Over(SETUP, [FAILED, GONE, Add(1, 0, 1, Done, 1, 2), Remove(0, 0, 1, Done, 1, 2)], map[7 := Releasing(3, 0, true)], map[]).(
    verdicts := map[1 := true, 2 := true, 3 := true])
  const O20 := Over(SETUP, [FAILED, GONE, Add(1, 0, 1, Done, 1, 2), Remove(0, 0, 1, Done, 1, 2)], map[], map[]).(
    verdicts := map[1 := true, 2 := true, 3 := true])
  const TAKEN_OVER := [O0, O1, O2, O3, O4, O5, O6, O7, O8, O9, O10, O11, O12, O13, O14, O15, O16, O17, O18, O19, O20]

  lemma OtherCloseWins()
    ensures Apply(O3, TAKEOVER[3]) == O4
  {
    assert TAKEOVER[3] == OnClose(CloseScope(Everywhere, [0], 0));
    assert LiveInScope(O3.db, Everywhere) == {0};
    assert CloseTogether(O3.db, [0], 0).commands == O4.db.commands;
    assert CloseTogether(O3.db, [0], 0) == O4.db;
  }

  lemma RemovalIsClaimedFirst()
    ensures Apply(O4, TAKEOVER[4]) == O5
  {
    assert CancelDead(O4.db, 0).commands == O4.db.commands;
  }

  lemma RemovalIsClaimedSecond()
    ensures Apply(O5, TAKEOVER[5]) == O6
  {
    assert AheadOf(O5.db.commands, 0, 1) == 0;
    assert TakeOldest(O5.db, 0, CLAIM_LIMIT, 1).commands == O6.db.commands;
  }

  lemma RemovalIsExecutedFirst()
    ensures Apply(O6, TAKEOVER[6]) == O7
  {
    assert Executed(O6, 0, 1, true) == O6.(peers := map[0 := map[]]);
  }

  lemma RemovalIsExecutedSecond()
    ensures Apply(O7, TAKEOVER[7]) == O8
  {
    assert TAKEOVER[7] == OnAck(AckWrite(7));
    assert Complete(O7.db, 1, true) == O8.db;
  }

  lemma AddressIsReleased()
    ensures Apply(O8, TAKEOVER[8]) == O9
  {
    assert TAKEOVER[8] == OnAck(AckRelease(7));
    assert O8.ackers[7] == Releasing(1, 0, true) && O8.ackers - {7} == map[];
    assert ReleaseLease(O8.db, 0).leases == ONE;
  }

  lemma SecondCanOpen()
    ensures Here(O9) && O9.db.nextSession == 1 && 1 !in O9.db.sessions && |O9.db.sessions| == 1
    ensures IsLeast(1, FreeAddresses(O9.db, 0)) && LiveOfDevice(O9.db.sessions, 0) == {}
  {
    assert FreeAddresses(O9.db, 0) == {1};
  }

  lemma SecondOpens()
    ensures Apply(O9, TAKEOVER[9]) == O10
  {
    assert TAKEOVER[9] == Connect(0, 0, 0, 0, FREE);
    SecondCanOpen();
    Opens(O9, 0, 1);
    SecondIsOpened();
  }

  lemma SecondIsOpened()
    ensures Opening(O9, 1, Of(0, 1, Pending)) == O10
  {
    assert Opening(O9, 1, Of(0, 1, Pending)).db == O10.db;
  }

  lemma CloseGoesOnFirst()
    ensures Apply(O10, TAKEOVER[10]) == O11
  {
    assert EnqueueRemove(O10.db, 0).commands == O11.db.commands;
  }

  lemma CloseGoesOnSecond()
    ensures Apply(O11, TAKEOVER[11]) == O12
  {
    assert EnqueueRemove(O10.db, 0).commands == O11.db.commands;
    assert FinishClose(O11.db, 0, 0).sessions == O12.db.sessions;
  }

  lemma BothAreClaimed()
    ensures Apply(O12, TAKEOVER[12]) == O13
    ensures Apply(O13, TAKEOVER[13]) == O14
  {
    assert CancelDead(O12.db, 0).commands == O12.db.commands;
    assert AheadOf(O13.db.commands, 0, 1) == 0;
    assert AheadOf(O13.db.commands, 0, 2) == 0;
    assert AheadOf(O13.db.commands, 0, 3) == 1;
    assert TakeOldest(O13.db, 0, CLAIM_LIMIT, 2).commands == O14.db.commands;
  }

  lemma SetupIsExecutedFirst()
    ensures Apply(O14, TAKEOVER[14]) == O15
  {
    assert Executed(O14, 0, 2, true) == O14.(peers := map[0 := map[10 := 1]]);
  }

  lemma SetupIsExecutedSecond()
    ensures Apply(O15, TAKEOVER[15]) == O16
  {
  }

  lemma SecondIsActive()
    ensures Apply(O16, TAKEOVER[16]) == O17
  {
    assert SettleSession(O16.db, 1, true, 2).sessions == O17.db.sessions;
    assert O16.ackers - {7} == map[];
  }

  lemma LateRemovalIsExecutedFirst()
    ensures Apply(O17, TAKEOVER[17]) == O18
  {
    assert Executed(O17, 0, 3, true) == O17.(peers := map[0 := map[]]);
  }

  lemma LateRemovalIsExecutedSecond()
    ensures Apply(O18, TAKEOVER[18]) == O19
  {
  }

  lemma NothingIsReleased()
    ensures Apply(O19, TAKEOVER[19]) == O20
  {
    assert ReleaseLease(O19.db, 0).leases == OTHER;
    assert O19.ackers - {7} == map[];
  }

  lemma TakeoverBegins()
    ensures Apply(O0, TAKEOVER[0]) == O1
    ensures Apply(O1, TAKEOVER[1]) == O2
    ensures Apply(O2, TAKEOVER[2]) == O3
  {
    assert TAKEOVER[0] == Connect(0, 0, 0, 0, FREE) && TAKEOVER[1] == OnClose(CloserRead(9, 0)) && TAKEOVER[2] == OnClose(CloserCheck(9));
    FirstOpens();
    CloseBegins();
  }

  lemma TakeoverStarts()
    ensures forall k :: 0 <= k < 10 ==> Apply(TAKEN_OVER[k], TAKEOVER[k]) == TAKEN_OVER[k + 1]
  {
    TakeoverBegins();
    OtherCloseWins();
    RemovalIsClaimedFirst();
    RemovalIsClaimedSecond();
    RemovalIsExecutedFirst();
    RemovalIsExecutedSecond();
    AddressIsReleased();
    SecondOpens();
  }

  lemma TakeoverEnds()
    ensures forall k :: 10 <= k < |TAKEOVER| ==> Apply(TAKEN_OVER[k], TAKEOVER[k]) == TAKEN_OVER[k + 1]
  {
    CloseGoesOnFirst();
    CloseGoesOnSecond();
    BothAreClaimed();
    SetupIsExecutedFirst();
    SetupIsExecutedSecond();
    SecondIsActive();
    LateRemovalIsExecutedFirst();
    LateRemovalIsExecutedSecond();
    NothingIsReleased();
  }

  lemma TakeoverRuns()
    ensures Traces(TAKEN_OVER, TAKEOVER)
  {
    TakeoverStarts();
    TakeoverEnds();
  }

  lemma HeadsAreExecuted()
    ensures Executable(O6, 7, 0, 1, true) && Executable(O14, 7, 0, 2, true) && Executable(O17, 7, 0, 3, true)
  {
  }

  lemma ReturnedAt(k: nat)
    requires k < |TAKEOVER|
    ensures (k == 6 ==> TAKEN_OVER[k] == O6) && (k == 14 ==> TAKEN_OVER[k] == O14) && (k == 17 ==> TAKEN_OVER[k] == O17)
  {
    if k == 6 { assert TAKEN_OVER[6] == O6; }
    if k == 14 { assert TAKEN_OVER[14] == O14; }
    if k == 17 { assert TAKEN_OVER[17] == O17; }
  }

  lemma NothingToLose()
    ensures forall sys, k :: 0 <= k < |TAKEOVER| && k != 6 && k != 10 && k != 14 && k != 17 ==> Agreement.LossFree(sys, TAKEOVER[k])
  {
  }

  lemma ExecutionsLoseNothing()
    ensures Agreement.LossFree(O6, TAKEOVER[6]) && Agreement.LossFree(O14, TAKEOVER[14]) && Agreement.LossFree(O17, TAKEOVER[17])
  {
    HeadsAreExecuted();
  }

  lemma NothingIsLost()
    ensures forall k :: 0 <= k < |TAKEOVER| && k != 10 ==> Agreement.LossFree(TAKEN_OVER[k], TAKEOVER[k])
  {
    NothingToLose();
    ExecutionsLoseNothing();
    forall k | 0 <= k < |TAKEOVER| && k != 10 ensures Agreement.LossFree(TAKEN_OVER[k], TAKEOVER[k]) {
      ReturnedAt(k);
    }
  }

  lemma TheEnd()
    ensures Agreement.Quiescent(O20, 0) && O20.closers == map[] && O20.ackers == map[]
    ensures O20.db.sessions == SETUP && SETUP[1].status.Active? && SETUP[1].key !in Table(O20, 0)
  {
  }

  /**
   * A run without loss, but for the one removal that comes too late: a closeSession has read its session
   * and found no removal open when a mass close ends the session. The removal of the mass close is
   * carried out, the device connects again, and only now the first close queues its own. In the end the
   * node has nothing left to do, the new session is ACTIVE, and it has no peer.
   */
  lemma ReconnectLosesItsPeer()
    ensures Installed(Ready(ONE)) && TAKEOVER[10] == OnClose(CloserEnqueue(9))
    ensures Agreement.LossFreeRun(Ready(ONE), TAKEOVER[..10])
    ensures Agreement.LossFreeRun(Run(Ready(ONE), TAKEOVER[..11]), TAKEOVER[11..])
    ensures
      var sys := Run(Ready(ONE), TAKEOVER);
      && Agreement.Quiescent(sys, 0) && sys.closers == map[] && sys.ackers == map[]
      && sys.db.sessions == SETUP && SETUP[1].status.Active? && SETUP[1].key !in Table(sys, 0)
  {
    ReadyIsInstalled(ONE);
    UntilTheEnqueue();
    AfterTheEnqueue();
    TakeoverArrives();
    TheEnd();
  }

  lemma TakeoverArrives()
    ensures Run(Ready(ONE), TAKEOVER) == O20
  {
    TakeoverRuns();
    TraceIsRun(TAKEN_OVER, TAKEOVER);
  }

  lemma UntilTheEnqueue()
    ensures Agreement.LossFreeRun(Ready(ONE), TAKEOVER[..10])
  {
    TakeoverRuns();
    NothingIsLost();
    Agreement.TraceIsLossFree(TAKEN_OVER, TAKEOVER, 0, 10);
    assert TAKEN_OVER[0] == Ready(ONE);
    assert TAKEOVER[0..10] == TAKEOVER[..10];
  }

  lemma AfterTheEnqueue()
    ensures Agreement.LossFreeRun(Run(Ready(ONE), TAKEOVER[..11]), TAKEOVER[11..])
  {
    TakeoverRuns();
    NothingIsLost();
    Agreement.TraceIsLossFree(TAKEN_OVER, TAKEOVER, 11, 20);
    assert TAKEOVER[11..20] == TAKEOVER[11..];
    TakeoverReaches11();
  }

  lemma TakeoverReaches11()
    ensures Run(Ready(ONE), TAKEOVER[..11]) == TAKEN_OVER[11]
  {
    TakeoverRuns();
    TraceReaches(TAKEN_OVER, TAKEOVER, 11);
  }
}
