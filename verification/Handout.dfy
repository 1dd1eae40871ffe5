/**
 * Which setups are handed out. A claim fails the setups of ended sessions in one statement and takes the
 * oldest waiting commands in a later one; whatever commits between the two is not looked at again.
 */
module Handout {
  import opened Rows
  import opened Plane
  import opened Protocol
  import opened Scene
  import opened Subjects
  import opened QueueDrain
  import NoReturn

  // ------------------------------------------- one claim, two statements ----

  predicate Takes(step: Step, p: nat) {
    step.OnQueue? && step.queue.ClaimTake? && step.queue.p == p
  }

  /** A claim stays between its statements until it takes its commands. */
  lemma ClaimStaysOpen(sys: Sys, step: Step, p: nat)
    requires p in sys.claimers && !Takes(step, p)
    ensures p in Apply(sys, step).claimers && Apply(sys, step).claimers[p] == sys.claimers[p]
  {
    if step.OnQueue? { QueueKeepsClaims(sys, step.queue, p); } else { StepFrame(sys, step); }
  }

  lemma QueueKeepsClaims(sys: Sys, step: QueueStep, p: nat)
    requires p in sys.claimers && (step.ClaimTake? ==> step.p != p)
    ensures p in ApplyQueue(sys, step).claimers && ApplyQueue(sys, step).claimers[p] == sys.claimers[p]
  {
  }

  lemma {:induction false} ClaimStaysOpenInRun(sys: Sys, steps: seq<Step>, p: nat)
    requires p in sys.claimers && forall k :: 0 <= k < |steps| ==> !Takes(steps[k], p)
    ensures p in Run(sys, steps).claimers && Run(sys, steps).claimers[p] == sys.claimers[p]
    decreases |steps|
  {
    if steps != [] {
      ClaimStaysOpen(sys, steps[0], p);
      ClaimStaysOpenInRun(Apply(sys, steps[0]), steps[1..], p);
    }
  }

  /**
   * Whatever happens between the two statements of a claim, what its second statement hands out was no
   * setup of an ended session at the first, unless it was not waiting then: it came into the queue
   * later, or it was with the node and has been requeued since.
   */
  lemma HandedOutWereLive(sys: Sys, p: nat, n: nat, between: seq<Step>, last: Sys, now: int, i: nat)
    requires p !in sys.claimers && (forall k :: 0 <= k < |between| ==> !Takes(between[k], p))
    requires last == Run(Apply(sys, OnQueue(ClaimCancel(p, n))), between)
    requires i < |sys.db.commands| && sys.db.commands[i].kind.AddPeer? && sys.db.commands[i].status.Queued? && i < |last.db.commands|
    requires i < |Apply(last, OnQueue(ClaimTake(p, now))).db.commands|
    requires Apply(last, OnQueue(ClaimTake(p, now))).db.commands[i].attempts != last.db.commands[i].attempts
    ensures sys.db.commands[i].session.Some? && IsLive(sys.db, sys.db.commands[i].session.value)
  {
    var cancelled := Apply(sys, OnQueue(ClaimCancel(p, n)));
    ClaimStaysOpenInRun(cancelled, between, p);
    QueueDrain.RunKeeps(cancelled, between);
    RunContinues(cancelled, between);
    assert Taken(last.db.commands, n, CLAIM_LIMIT, i);
    assert Open(cancelled.db.commands[i]) && cancelled.db.commands[i].node == n;
  }

  // ------------------------------------------------------ hard to pass ----

  /** A waiting command that only a claim can take out of the way: never delivered, and no setup of a live session. */
  predicate Hard(db: Db, n: nat, j: nat) {
    && j < |db.commands| && Waiting(db.commands[j], n) && db.commands[j].attempts == 0
    && !(db.commands[j].kind.AddPeer? && db.commands[j].session.Some? && IsLive(db, db.commands[j].session.value))
  }

  function HardAhead(db: Db, n: nat, i: nat): nat {
    if i == 0 then 0 else HardAhead(db, n, i - 1) + if Hard(db, n, i - 1) then 1 else 0
  }

  function ClaimsOf(sys: Sys, n: nat): set<nat> {
    set p | p in sys.claimers && sys.claimers[p] == n
  }

  ghost predicate WritersWereDelivered(sys: Sys) {
    forall q, i: nat, ok :: IsWriting(sys, q, i, ok) ==> i < |sys.db.commands| && sys.db.commands[i].attempts >= 1
  }

  /**
   * The setup is with its node and may be requeued, or it waits and the claims of its node that are
   * past their first statement can take, ten at a time, more than what is hard to pass in front of it.
   */
  predicate Reachable(sys: Sys, i: nat)
    requires i < |sys.db.commands|
  {
    var c := sys.db.commands[i];
    || (c.status.Delivered? && c.attempts < MAX_ATTEMPTS)
    || (c.status.Queued? && HardAhead(sys.db, c.node, i) < CLAIM_LIMIT * |ClaimsOf(sys, c.node)|)
  }

  ghost predicate Sound(sys: Sys) {
    NoReturn.Sound(sys.db) && WritersWereDelivered(sys)
  }

  lemma {:induction false} FewerHard(db: Db, after: Db, n: nat, i: nat)
    requires forall j: nat :: j < i && Hard(db, n, j) ==> Hard(after, n, j)
    ensures HardAhead(db, n, i) <= HardAhead(after, n, i)
  {
    if i > 0 { FewerHard(db, after, n, i - 1); }
  }

  lemma {:induction false} HardIsAhead(db: Db, n: nat, i: nat)
    requires i <= |db.commands|
    ensures HardAhead(db, n, i) <= AheadOf(db.commands, n, i) <= i
  {
    if i > 0 { HardIsAhead(db, n, i - 1); }
  }

  // ----------------------------------------------- nothing else passes ----

  /** Hard commands stay hard, and the row of `i` is as it was or is finished. */
  ghost predicate Hardens(sys: Sys, after: Sys, i: nat) {
    && i < |sys.db.commands| <= |after.db.commands|
    && after.db.commands[i].node == sys.db.commands[i].node && after.db.commands[i].attempts == sys.db.commands[i].attempts
    && (after.db.commands[i].status == sys.db.commands[i].status || !Open(after.db.commands[i]))
    && ClaimsOf(after, sys.db.commands[i].node) == ClaimsOf(sys, sys.db.commands[i].node)
    && forall j: nat :: Hard(sys.db, sys.db.commands[i].node, j) ==> Hard(after.db, sys.db.commands[i].node, j)
  }

  lemma HardenedIsUnreachable(sys: Sys, after: Sys, i: nat)
    requires Hardens(sys, after, i) && !Reachable(sys, i)
    ensures !Reachable(after, i)
  {
    FewerHard(sys.db, after.db, sys.db.commands[i].node, i);
  }

  /** No process is between other statements than before, and no session comes to life. */
  lemma RowsHarden(sys: Sys, after: Sys, i: nat)
    requires NoReturn.Sound(sys.db) && i < |sys.db.commands| && after.claimers == sys.claimers
    requires SameSubjects(sys.db, after.db)
    requires forall s :: s in after.db.sessions && Live(after.db.sessions[s]) && s < sys.db.nextSession ==> IsLive(sys.db, s)
    requires forall j :: 0 <= j < |sys.db.commands| && (j == i || Hard(sys.db, sys.db.commands[i].node, j)) ==>
      after.db.commands[j].status == sys.db.commands[j].status && after.db.commands[j].attempts == sys.db.commands[j].attempts
    ensures Hardens(sys, after, i)
  {
  }

  lemma ConnectHardens(sys: Sys, u: nat, d: nat, version: nat, n: nat, plan: Plan, i: nat)
    requires NoReturn.Sound(sys.db) && i < |sys.db.commands|
    ensures Hardens(sys, Connected(sys, u, d, version, n, plan), i)
  {
    ConnectContinues(sys, u, d, version, n, plan);
    RowsHarden(sys, Connected(sys, u, d, version, n, plan), i);
  }

  ghost predicate Buried(db: Db, i: nat) {
    NoReturn.Sound(db) && NoReturn.Orphaned(db, i)
  }

  lemma TogetherHardens(sys: Sys, after: Sys, order: seq<nat>, now: int, i: nat)
    requires Buried(sys.db, i) && (forall s :: s in order ==> s in sys.db.sessions && Live(sys.db.sessions[s]))
    requires after.claimers == sys.claimers && after.db.commands == CloseTogether(sys.db, order, now).commands
    requires after.db.sessions == CloseTogether(sys.db, order, now).sessions
    ensures Hardens(sys, after, i)
  {
    TogetherContinues(sys.db, order, now);
    RowsHarden(sys, after, i);
  }

  lemma DeleteHardens(sys: Sys, d: nat, i: nat)
    requires Buried(sys.db, i)
    ensures Hardens(sys, sys.(db := DeleteDevice(sys.db, d)), i)
  {
    DeleteContinues(sys.db, d);
    RowsHarden(sys, sys.(db := DeleteDevice(sys.db, d)), i);
  }

  lemma SameQueueHardens(sys: Sys, after: Sys, i: nat)
    requires NoReturn.Sound(sys.db) && i < |sys.db.commands| && after.claimers == sys.claimers
    requires after.db.commands == sys.db.commands
    requires forall s :: s in after.db.sessions && Live(after.db.sessions[s]) ==> IsLive(sys.db, s)
    ensures Hardens(sys, after, i)
  {
    RowsHarden(sys, after, i);
  }

  lemma DeviceStepHardens(sys: Sys, step: DeviceStep, i: nat)
    requires Buried(sys.db, i)
    ensures Hardens(sys, ApplyDevice(sys, step), i)
  {
    DevicesChange(sys, step);
    match step
    case RemoveDevice(d) => DeleteHardens(sys, d, i);
    case RevokeDevice(d, order, now) =>
      if d in sys.db.devices && Enumerates(order, LiveInScope(sys.db, OfDevice(d))) {
        TogetherHardens(sys, ApplyDevice(sys, step), order, now, i);
      } else {
        SameQueueHardens(sys, sys, i);
      }
    case _ =>
      NoReturn.RowsOnly(sys, step);
      SameQueueHardens(sys, ApplyDevice(sys, step), i);
  }

  lemma CloseStepHardens(sys: Sys, step: CloseStep, i: nat)
    requires Buried(sys.db, i)
    ensures Hardens(sys, ApplyClose(sys, step), i)
  {
    ClosersChange(sys, step);
    SameQueueHardens(sys, sys, i);
    match step
    case CloseScope(scope, order, now) =>
      if Enumerates(order, LiveInScope(sys.db, scope)) { TogetherHardens(sys, ApplyClose(sys, step), order, now, i); }
    case CloserRead(_, _) => RowlessCloseHardens(sys, step, i);
    case CloserCheck(_) => RowlessCloseHardens(sys, step, i);
    case CloserEnqueue(p) => EnqueueHardens(sys, p, i);
    case CloserFinish(_, _) => RowlessCloseHardens(sys, step, i);
  }

  lemma RowlessCloseHardens(sys: Sys, step: CloseStep, i: nat)
    requires Buried(sys.db, i) && (step.CloserFinish? || step.CloserRead? || step.CloserCheck?)
    ensures Hardens(sys, ApplyClose(sys, step), i)
  {
    ClosersChange(sys, step);
    SameQueueHardens(sys, ApplyClose(sys, step), i);
  }

  lemma EnqueueHardens(sys: Sys, p: nat, i: nat)
    requires Buried(sys.db, i)
    ensures Hardens(sys, Enqueued(sys, p), i)
  {
    if p in sys.closers && sys.closers[p].Enqueuing? && sys.closers[p].session in sys.db.sessions {
      var s := sys.closers[p].session;
      var after := sys.(db := EnqueueRemove(sys.db, s), closers := sys.closers[p := Finishing(s)]);
      assert Enqueued(sys, p) == after;
      assert after.db.commands[..|sys.db.commands|] == sys.db.commands && after.db.sessions == sys.db.sessions;
      RowsHarden(sys, after, i);
    } else {
      SameQueueHardens(sys, Enqueued(sys, p), i);
    }
  }

  /** A verdict is written to a command that has been delivered, which is not hard. */
  lemma WriteHardens(sys: Sys, p: nat, i: nat)
    requires Buried(sys.db, i) && WritersWereDelivered(sys)
    ensures Hardens(sys, Completed(sys, p), i)
  {
    if Completed(sys, p) == sys {
      SameQueueHardens(sys, sys, i);
    } else {
      assert IsWriting(sys, p, sys.ackers[p].command, sys.ackers[p].ok);
    }
  }

  lemma AckStepHardens(sys: Sys, step: AckStep, i: nat)
    requires Buried(sys.db, i) && WritersWereDelivered(sys)
    ensures Hardens(sys, ApplyAck(sys, step), i)
  {
    match step
    case AckWrite(p) => WriteHardens(sys, p, i);
    case Ack(_, _, _, _) => RowlessAckHardens(sys, step, i);
    case AckUpdate(_, _) => RowlessAckHardens(sys, step, i);
    case AckRelease(_) => RowlessAckHardens(sys, step, i);
  }

  lemma RowlessAckHardens(sys: Sys, step: AckStep, i: nat)
    requires Buried(sys.db, i) && !step.AckWrite?
    ensures Hardens(sys, ApplyAck(sys, step), i)
  {
    SameQueueHardens(sys, ApplyAck(sys, step), i);
  }

  lemma AgentStepHardens(sys: Sys, step: AgentStep, i: nat)
    requires Buried(sys.db, i)
    ensures Hardens(sys, ApplyAgent(sys, step), i)
  {
    AgentsChange(sys, step);
    SameQueueHardens(sys, ApplyAgent(sys, step), i);
  }

  // ---------------------------------------------------- claims and sweeps ----

  /** A new claim of the node fails the setup in its first statement; a claim of another node changes nothing here. */
  lemma CancelStaysUnreachable(sys: Sys, p: nat, n: nat, i: nat)
    requires Buried(sys.db, i) && !Reachable(sys, i)
    ensures
      var after := ApplyQueue(sys, ClaimCancel(p, n));
      !Reachable(after, i) && after.db.commands[i].attempts == sys.db.commands[i].attempts
  {
    var after := ApplyQueue(sys, ClaimCancel(p, n));
    if p !in sys.claimers && sys.db.commands[i].node != n {
      assert ClaimsOf(after, sys.db.commands[i].node) == ClaimsOf(sys, sys.db.commands[i].node);
      FewerHard(sys.db, after.db, sys.db.commands[i].node, i);
    }
  }

  /** A claim takes at most its limit of what is in front. */
  lemma {:induction false} TakePassesFew(db: Db, n: nat, limit: int, now: int, k: nat)
    requires k <= |db.commands|
    ensures HardAhead(TakeOldest(db, n, limit, now), n, k) >= HardAhead(db, n, k) - Min(AheadOf(db.commands, n, k), BatchSize(limit))
  {
    if k > 0 { TakePassesFew(db, n, limit, now, k - 1); }
  }

  lemma OwnTakeStaysUnreachable(sys: Sys, p: nat, now: int, i: nat)
    requires Buried(sys.db, i) && !Reachable(sys, i) && p in ClaimsOf(sys, sys.db.commands[i].node)
    ensures
      var after := ApplyQueue(sys, ClaimTake(p, now));
      !Reachable(after, i) && after.db.commands[i].attempts == sys.db.commands[i].attempts
  {
    var after := ApplyQueue(sys, ClaimTake(p, now));
    var n := sys.db.commands[i].node;
    assert ClaimsOf(after, n) == ClaimsOf(sys, n) - {p};
    assert |ClaimsOf(after, n)| == |ClaimsOf(sys, n)| - 1;
    HardIsAhead(sys.db, n, i);
    TakePassesFew(sys.db, n, CLAIM_LIMIT, now, i);
    assert !Taken(sys.db.commands, n, CLAIM_LIMIT, i);
    assert after.db.commands[i] == sys.db.commands[i];
  }

  lemma OtherTakeStaysUnreachable(sys: Sys, p: nat, now: int, i: nat)
    requires Buried(sys.db, i) && !Reachable(sys, i) && p in sys.claimers && sys.claimers[p] != sys.db.commands[i].node
    ensures
      var after := ApplyQueue(sys, ClaimTake(p, now));
      !Reachable(after, i) && after.db.commands[i].attempts == sys.db.commands[i].attempts
  {
    var after := ApplyQueue(sys, ClaimTake(p, now));
    var n := sys.db.commands[i].node;
    assert ClaimsOf(after, n) == ClaimsOf(sys, n);
    FewerHard(sys.db, after.db, n, i);
  }

  lemma TakeStaysUnreachable(sys: Sys, p: nat, now: int, i: nat)
    requires Buried(sys.db, i) && !Reachable(sys, i)
    ensures
      var after := ApplyQueue(sys, ClaimTake(p, now));
      !Reachable(after, i) && after.db.commands[i].attempts == sys.db.commands[i].attempts
  {
    if p in sys.claimers {
      if sys.claimers[p] == sys.db.commands[i].node { OwnTakeStaysUnreachable(sys, p, now, i); }
      else { OtherTakeStaysUnreachable(sys, p, now, i); }
    }
  }

  lemma SweepStaysUnreachable(sys: Sys, cutoff: int, i: nat)
    requires Buried(sys.db, i) && !Reachable(sys, i)
    ensures
      var after := ApplyQueue(sys, Requeue(cutoff, MAX_ATTEMPTS));
      !Reachable(after, i) && after.db.commands[i].attempts == sys.db.commands[i].attempts
  {
    var after := ApplyQueue(sys, Requeue(cutoff, MAX_ATTEMPTS));
    FewerHard(sys.db, after.db, sys.db.commands[i].node, i);
    assert ClaimsOf(after, sys.db.commands[i].node) == ClaimsOf(sys, sys.db.commands[i].node);
  }

  lemma QueueStepStaysUnreachable(sys: Sys, step: QueueStep, i: nat)
    requires Buried(sys.db, i) && !Reachable(sys, i) && SweepsUseBudget(OnQueue(step))
    ensures
      var after := ApplyQueue(sys, step);
      i < |after.db.commands| && !Reachable(after, i) && after.db.commands[i].attempts == sys.db.commands[i].attempts
  {
    match step
    case ClaimCancel(p, n) => CancelStaysUnreachable(sys, p, n, i);
    case ClaimTake(p, now) => TakeStaysUnreachable(sys, p, now, i);
    case Requeue(cutoff, _) => SweepStaysUnreachable(sys, cutoff, i);
    case PolicyChange(n) =>
      var after := ApplyQueue(sys, step);
      FewerHard(sys.db, after.db, sys.db.commands[i].node, i);
      assert ClaimsOf(after, sys.db.commands[i].node) == ClaimsOf(sys, sys.db.commands[i].node);
  }

  // ----------------------------------------------------------- every step ----

  lemma OthersHarden(sys: Sys, step: Step, i: nat)
    requires Buried(sys.db, i) && WritersWereDelivered(sys) && !step.OnQueue?
    ensures Hardens(sys, Apply(sys, step), i)
  {
    match step
    case Configure(_, _, _) => SameQueueHardens(sys, Apply(sys, step), i);
    case Connect(u, d, version, n, plan) => ConnectHardens(sys, u, d, version, n, plan, i);
    case OnDevice(device) => DeviceStepHardens(sys, device, i);
    case OnClose(close) => CloseStepHardens(sys, close, i);
    case OnAck(ack) => AckStepHardens(sys, ack, i);
    case OnLease(lease) => LeaseStepHardens(sys, lease, i);
    case OnAgent(agent) => AgentStepHardens(sys, agent, i);
  }

  lemma LeaseStepHardens(sys: Sys, step: LeaseStep, i: nat)
    requires Buried(sys.db, i)
    ensures Hardens(sys, ApplyLease(sys, step), i)
  {
    SameQueueHardens(sys, ApplyLease(sys, step), i);
  }

  lemma ReadersWereDelivered(sys: Sys, p: nat, n: nat, i: nat, ok: bool)
    requires WritersWereDelivered(sys)
    ensures WritersWereDelivered(Acknowledged(sys, p, n, i, ok))
  {
    var after := Acknowledged(sys, p, n, i, ok);
    forall q, j: nat, yes | IsWriting(after, q, j, yes) ensures j < |sys.db.commands| && sys.db.commands[j].attempts >= 1 {
      assert IsWriting(sys, q, j, yes) || j == i;
    }
  }

  /** No handler starts to write. */
  lemma FewerWriters(sys: Sys, after: Sys)
    requires WritersWereDelivered(sys) && SameSubjects(sys.db, after.db)
    requires forall q, i, ok :: IsWriting(after, q, i, ok) ==> IsWriting(sys, q, i, ok)
    ensures WritersWereDelivered(after)
  {
  }

  lemma AckStepStaysDelivered(sys: Sys, step: AckStep)
    requires WritersWereDelivered(sys)
    ensures WritersWereDelivered(ApplyAck(sys, step))
  {
    if step.Ack? {
      ReadersWereDelivered(sys, step.p, step.n, step.i, step.ok);
    } else {
      AckStepContinues(sys, step);
      LaterAcksStartNothing(sys, step);
      FewerWriters(sys, ApplyAck(sys, step));
    }
  }

  lemma LaterAcksStartNothing(sys: Sys, step: AckStep)
    requires !step.Ack?
    ensures forall q, i, ok :: IsWriting(ApplyAck(sys, step), q, i, ok) ==> IsWriting(sys, q, i, ok)
  {
    match step
    case AckWrite(_) =>
    case AckUpdate(_, _) =>
    case AckRelease(_) =>
  }

  lemma AgentStepStaysDelivered(sys: Sys, step: AgentStep)
    requires WritersWereDelivered(sys)
    ensures WritersWereDelivered(ApplyAgent(sys, step))
  {
    match step
    case ExecuteAndAck(p, n, i, ok) => CarryingStaysDelivered(sys, p, n, i, ok);
    case Execute(_, _, _) => SilentStaysDelivered(sys, step);
    case Report(_) => SilentStaysDelivered(sys, step);
    case ReportApply(_) => SilentStaysDelivered(sys, step);
  }

  lemma CarryingStaysDelivered(sys: Sys, p: nat, n: nat, i: nat, ok: bool)
    requires WritersWereDelivered(sys)
    ensures WritersWereDelivered(Acknowledged(Executed(sys, n, i, ok), p, n, i, ok))
  {
    SameAckersStayDelivered(sys, Executed(sys, n, i, ok));
    ReadersWereDelivered(Executed(sys, n, i, ok), p, n, i, ok);
  }

  lemma SilentStaysDelivered(sys: Sys, step: AgentStep)
    requires WritersWereDelivered(sys) && !step.ExecuteAndAck?
    ensures WritersWereDelivered(ApplyAgent(sys, step))
  {
    AgentsChange(sys, step);
    SameAckersStayDelivered(sys, ApplyAgent(sys, step));
  }

  lemma SameAckersStayDelivered(sys: Sys, after: Sys)
    requires WritersWereDelivered(sys) && after.ackers == sys.ackers && SameSubjects(sys.db, after.db)
    ensures WritersWereDelivered(after)
  {
    assert forall q, i, ok :: IsWriting(after, q, i, ok) == IsWriting(sys, q, i, ok);
  }

  lemma WritersStayDelivered(sys: Sys, step: Step)
    requires WritersWereDelivered(sys)
    ensures WritersWereDelivered(Apply(sys, step))
  {
    match step
    case OnAck(ack) => AckStepStaysDelivered(sys, ack);
    case OnAgent(agent) => AgentStepStaysDelivered(sys, agent);
    case _ =>
      StepContinues(sys, step);
      StepFrame(sys, step);
      SameAckersStayDelivered(sys, Apply(sys, step));
  }

  lemma StepStaysUnreachable(sys: Sys, step: Step, i: nat)
    requires Sound(sys) && NoReturn.Orphaned(sys.db, i) && !Reachable(sys, i) && SweepsUseBudget(step)
    ensures
      var after := Apply(sys, step);
      && Sound(after) && NoReturn.Orphaned(after.db, i) && !Reachable(after, i)
      && after.db.commands[i].attempts == sys.db.commands[i].attempts
  {
    NoReturn.StepKeeps(sys, step);
    WritersStayDelivered(sys, step);
    match step
    case OnQueue(queue) => QueueStepStaysUnreachable(sys, queue, i);
    case _ =>
      OthersHarden(sys, step, i);
      HardenedIsUnreachable(sys, Apply(sys, step), i);
  }

  lemma {:induction false} RunStaysUnreachable(sys: Sys, steps: seq<Step>, i: nat)
    requires Sound(sys) && NoReturn.Orphaned(sys.db, i) && !Reachable(sys, i)
    requires forall k :: 0 <= k < |steps| ==> SweepsUseBudget(steps[k])
    ensures i < |Run(sys, steps).db.commands| && Run(sys, steps).db.commands[i].attempts == sys.db.commands[i].attempts
    decreases |steps|
  {
    if steps != [] {
      StepStaysUnreachable(sys, steps[0], i);
      RunStaysUnreachable(Apply(sys, steps[0]), steps[1..], i);
    }
  }

  // ---------------------------------------------- and a way that passes ----

  /** In the future `future`, whose sweeps use the budget, command `i` is delivered more than `times` times. */
  ghost predicate HandsOut(sys: Sys, future: seq<Step>, i: nat, times: nat) {
    && (forall k :: 0 <= k < |future| ==> SweepsUseBudget(future[k]))
    && i < |Run(sys, future).db.commands| && Run(sys, future).db.commands[i].attempts > times
  }

  lemma First(sys: Sys, step: Step, future: seq<Step>, i: nat, times: nat)
    requires SweepsUseBudget(step) && HandsOut(Apply(sys, step), future, i, times)
    ensures HandsOut(sys, [step] + future, i, times)
  {
    RunStep(sys, step, future);
  }

  lemma {:induction false} Listing(rows: set<nat>) returns (order: seq<nat>)
    ensures Enumerates(order, rows)
  {
    order := [];
    if rows != {} {
      var s :| s in rows;
      var rest := Listing(rows - {s});
      order := [s] + rest;
      assert forall x :: x in order <==> x == s || x in rest;
    }
  }

  lemma {:induction false} TakeShortens(db: Db, n: nat, now: int, k: nat)
    requires k <= |db.commands|
    ensures AheadOf(TakeOldest(db, n, CLAIM_LIMIT, now).commands, n, k) == Max(0, AheadOf(db.commands, n, k) - CLAIM_LIMIT)
  {
    if k > 0 { TakeShortens(db, n, now, k - 1); }
  }

  /** The claims that are past their first statement take what is in front, and then the setup. */
  lemma {:induction false} TakingReaches(sys: Sys, n: nat, i: nat) returns (future: seq<Step>)
    requires i < |sys.db.commands| && Waiting(sys.db.commands[i], n)
    requires AheadOf(sys.db.commands, n, i) < CLAIM_LIMIT * |ClaimsOf(sys, n)|
    ensures HandsOut(sys, future, i, sys.db.commands[i].attempts)
    decreases |ClaimsOf(sys, n)|
  {
    var p :| p in ClaimsOf(sys, n);
    var step := OnQueue(ClaimTake(p, 0));
    var next := Apply(sys, step);
    assert next == sys.(db := TakeOldest(sys.db, n, CLAIM_LIMIT, 0), claimers := sys.claimers - {p});
    if AheadOf(sys.db.commands, n, i) < CLAIM_LIMIT {
      assert Taken(sys.db.commands, n, CLAIM_LIMIT, i);
      future := [step] + [];
      assert HandsOut(next, [], i, sys.db.commands[i].attempts);
      First(sys, step, [], i, sys.db.commands[i].attempts);
    } else {
      assert !Taken(sys.db.commands, n, CLAIM_LIMIT, i);
      assert ClaimsOf(next, n) == ClaimsOf(sys, n) - {p};
      TakeShortens(sys.db, n, 0, i);
      var rest := TakingReaches(next, n, i);
      future := [step] + rest;
      First(sys, step, rest, i, sys.db.commands[i].attempts);
    }
  }

  ghost predicate NobodyIsLive(db: Db) {
    forall s :: s in db.sessions ==> !Live(db.sessions[s])
  }

  /** When no session is live and what is in front was never delivered, all of it is hard. */
  lemma {:induction false} AllIsHard(db: Db, n: nat, i: nat)
    requires NobodyIsLive(db) && i <= |db.commands|
    requires forall j :: 0 <= j < i && Waiting(db.commands[j], n) ==> db.commands[j].attempts == 0
    ensures AheadOf(db.commands, n, i) == HardAhead(db, n, i)
  {
    if i > 0 { AllIsHard(db, n, i - 1); }
  }

  /** Acknowledgements finish whatever waits in front of the setup and was delivered before. */
  lemma {:induction false} AckingReaches(sys: Sys, n: nat, i: nat, from: nat) returns (future: seq<Step>)
    requires i < |sys.db.commands| && Waiting(sys.db.commands[i], n) && NobodyIsLive(sys.db) && from <= i
    requires HardAhead(sys.db, n, i) < CLAIM_LIMIT * |ClaimsOf(sys, n)|
    requires forall j :: 0 <= j < from && Waiting(sys.db.commands[j], n) ==> sys.db.commands[j].attempts == 0
    ensures HandsOut(sys, future, i, sys.db.commands[i].attempts)
    decreases i - from
  {
    if from == i {
      AllIsHard(sys.db, n, i);
      future := TakingReaches(sys, n, i);
    } else if !Waiting(sys.db.commands[from], n) || sys.db.commands[from].attempts == 0 {
      future := AckingReaches(sys, n, i, from + 1);
    } else {
      var p := Unused(sys.ackers.Keys);
      var read := Apply(sys, OnAck(Ack(p, n, from, true)));
      assert read == sys.(ackers := sys.ackers[p := Completing(from, true)], verdicts := read.verdicts);
      var written := Apply(read, OnAck(AckWrite(p)));
      assert written == sys.(db := Complete(sys.db, from, true), ackers := written.ackers, verdicts := read.verdicts);
      assert ClaimsOf(written, n) == ClaimsOf(sys, n);
      FewerHard(written.db, sys.db, n, i);
      var rest := AckingReaches(written, n, i, from + 1);
      First(read, OnAck(AckWrite(p)), rest, i, sys.db.commands[i].attempts);
      First(sys, OnAck(Ack(p, n, from, true)), [OnAck(AckWrite(p))] + rest, i, sys.db.commands[i].attempts);
      future := [OnAck(Ack(p, n, from, true))] + ([OnAck(AckWrite(p))] + rest);
    }
  }

  /** All live sessions are closed, which fails their setups; then the rest is acknowledged and taken. */
  lemma ClosingReaches(sys: Sys, i: nat) returns (future: seq<Step>)
    requires NoReturn.Orphaned(sys.db, i) && sys.db.commands[i].status.Queued?
    requires HardAhead(sys.db, sys.db.commands[i].node, i) < CLAIM_LIMIT * |ClaimsOf(sys, sys.db.commands[i].node)|
    ensures HandsOut(sys, future, i, sys.db.commands[i].attempts)
  {
    var n := sys.db.commands[i].node;
    var order := Listing(LiveInScope(sys.db, Everywhere));
    var step := OnClose(CloseScope(Everywhere, order, 0));
    var closed := Apply(sys, step);
    assert closed == sys.(db := CloseTogether(sys.db, order, 0));
    assert ClaimsOf(closed, n) == ClaimsOf(sys, n);
    ClosedIsEasier(sys.db, order, n, i);
    var rest := AckingReaches(closed, n, i, 0);
    First(sys, step, rest, i, sys.db.commands[i].attempts);
    future := [step] + rest;
  }

  lemma ClosedIsEasier(db: Db, order: seq<nat>, n: nat, i: nat)
    requires Enumerates(order, LiveInScope(db, Everywhere)) && NoReturn.Orphaned(db, i) && Waiting(db.commands[i], n)
    ensures
      var after := CloseTogether(db, order, 0);
      && NobodyIsLive(after) && i < |after.commands| && after.commands[i] == db.commands[i]
      && HardAhead(after, n, i) <= HardAhead(db, n, i)
  {
    var after := CloseTogether(db, order, 0);
    ScopeIsClosed(db, Everywhere, order, 0);
    FewerHard(after, db, n, i);
  }

  /** Enough claims are past their first statement when the sweep sends the setup round again. */
  lemma SweepingReaches(sys: Sys, i: nat) returns (future: seq<Step>)
    requires NoReturn.Sound(sys.db) && NoReturn.Orphaned(sys.db, i)
    requires sys.db.commands[i].status.Delivered? && sys.db.commands[i].attempts < MAX_ATTEMPTS
    requires |ClaimsOf(sys, sys.db.commands[i].node)| > i
    ensures HandsOut(sys, future, i, sys.db.commands[i].attempts)
  {
    var c := sys.db.commands[i];
    var step := OnQueue(Requeue(c.deliveredAt + 1, MAX_ATTEMPTS));
    var next := sys.(db := RequeueStale(sys.db, c.deliveredAt + 1, MAX_ATTEMPTS));
    assert Apply(sys, step) == next;
    NoReturn.Requeuing(sys.db, c.deliveredAt + 1, MAX_ATTEMPTS);
    assert next.db.commands[i] == c.(status := Queued);
    assert ClaimsOf(next, c.node) == ClaimsOf(sys, c.node);
    HardIsAhead(next.db, c.node, i);
    var rest := ClosingReaches(next, i);
    First(sys, step, rest, i, c.attempts);
    future := [step] + rest;
  }

  /** While the setup is with its node, any number of claims can get past their first statement. */
  lemma {:induction false} ClaimingReaches(sys: Sys, i: nat, more: nat) returns (future: seq<Step>)
    requires NoReturn.Sound(sys.db) && NoReturn.Orphaned(sys.db, i)
    requires sys.db.commands[i].status.Delivered? && sys.db.commands[i].attempts < MAX_ATTEMPTS
    requires |ClaimsOf(sys, sys.db.commands[i].node)| + more > i
    ensures HandsOut(sys, future, i, sys.db.commands[i].attempts)
    decreases more
  {
    if more == 0 {
      future := SweepingReaches(sys, i);
    } else {
      var c := sys.db.commands[i];
      var p := Unused(sys.claimers.Keys);
      var step := OnQueue(ClaimCancel(p, c.node));
      var next := sys.(db := CancelDead(sys.db, c.node), claimers := sys.claimers[p := c.node]);
      assert Apply(sys, step) == next;
      NoReturn.Cancelling(sys.db, c.node);
      assert next.db.commands[i] == c;
      assert ClaimsOf(next, c.node) == ClaimsOf(sys, c.node) + {p};
      var rest := ClaimingReaches(next, i, more - 1);
      First(sys, step, rest, i, c.attempts);
      future := [step] + rest;
    }
  }

  lemma ReachableIsReached(sys: Sys, i: nat) returns (future: seq<Step>)
    requires NoReturn.Sound(sys.db) && NoReturn.Orphaned(sys.db, i) && Reachable(sys, i)
    ensures HandsOut(sys, future, i, sys.db.commands[i].attempts)
  {
    if sys.db.commands[i].status.Queued? {
      future := ClosingReaches(sys, i);
    } else {
      future := ClaimingReaches(sys, i, i + 1);
    }
  }

  lemma {:induction false} RunKeepsSound(sys: Sys, steps: seq<Step>)
    requires Sound(sys)
    ensures Sound(Run(sys, steps))
    decreases |steps|
  {
    if steps != [] {
      NoReturn.StepKeeps(sys, steps[0]);
      WritersStayDelivered(sys, steps[0]);
      RunKeepsSound(Apply(sys, steps[0]), steps[1..]);
    }
  }

  /**
   * When the setup of an ended session can be handed out once more. In any state a run reaches: some
   * continuation delivers it again if and only if it is with its node and has attempts left, or it still
   * waits and the claims of its node that are between their statements can take all that is hard to pass
   * in front of it. Claims that begin later never do: their first statement fails it.
   */
  lemma HandedOutAgainIff(init: Sys, history: seq<Step>, sys: Sys, i: nat)
    requires Installed(init) && sys == Run(init, history) && NoReturn.Orphaned(sys.db, i)
    ensures (exists future :: HandsOut(sys, future, i, sys.db.commands[i].attempts)) <==> Reachable(sys, i)
  {
    NoReturn.InstalledIsSound(init);
    RunKeepsSound(init, history);
    if Reachable(sys, i) {
      var future := ReachableIsReached(sys, i);
      assert HandsOut(sys, future, i, sys.db.commands[i].attempts);
    } else {
      forall future ensures !HandsOut(sys, future, i, sys.db.commands[i].attempts) {
        if forall k :: 0 <= k < |future| ==> SweepsUseBudget(future[k]) { RunStaysUnreachable(sys, future, i); }
      }
    }
  }

  // -------------------------------------------------------- such a run -----

  const REVIVAL: seq<Step> := [
    Connect(0, 0, 0, 0, FREE),
    OnQueue(ClaimCancel(8, 0)),
    OnQueue(ClaimTake(8, 1)),
    OnAgent(Execute(0, 0, true)),
    OnClose(CloseScope(Everywhere, [0], 0)),
    Connect(0, 0, 0, 0, FREE),
    OnQueue(ClaimCancel(8, 0)),
    OnQueue(ClaimTake(8, 3)),
    OnAgent(ExecuteAndAck(7, 0, 1, true)),
    OnAck(AckWrite(7)),
    OnAck(AckRelease(7)),
    OnAgent(ExecuteAndAck(7, 0, 2, true)),
    OnAck(AckWrite(7)),
    OnAck(AckUpdate(7, 3)),
    OnQueue(ClaimCancel(8, 0)),
    OnQueue(Requeue(2, 5)),
    OnQueue(ClaimTake(8, 4)),
    OnAgent(ExecuteAndAck(7, 0, 0, true)),
    OnAck(AckWrite(7)),
    OnAck(AckUpdate(7, 4))]

  const SECOND := map[0 := Of(0, 1, Closed), 1 := Of(0, 2, Pending)]
  const RUNNING := map[0 := Of(0, 1, Closed), 1 := Of(0, 2, Active)]
  const LOST := Add(0, 0, 1, Delivered, 1, 1)
  const REMOVED := Remove(0, 0, 1, Done, 1, 3)
  const ADDED := Add(1, 0, 2, Done, 1, 3)

  const E0 := Ready(TWO)
  const E1 := OPENED_OF_TWO
  const E2 := CLAIMED_OF_TWO
  const E3 := HANDED_OF_TWO
  const E4 := At(LEASED, WAITING, 1, [LOST]).(peers := map[0 := map[10 := 1]])
  const E5 := At(LEASED, ENDED, 1, [LOST, Remove(0, 0, 1, Queued, 0, 0)]).(peers := map[0 := map[10 := 1]])
  const E6 := At(FULL, SECOND, 2, [LOST, Remove(0, 0, 1, Queued, 0, 0), Add(1, 0, 2, Queued, 0, 0)]).(peers := map[0 := map[10 := 1]])
  const E7 := E6.(claimers := map[8 := 0])
  const E8 := At(FULL, SECOND, 2, [LOST, Remove(0, 0, 1, Delivered, 1, 3), Add(1, 0, 2, Delivered, 1, 3)]).(peers := map[0 := map[10 := 1]])
  const E9 := At(FULL, SECOND, 2, [LOST, Remove(0, 0, 1, Delivered, 1, 3), Add(1, 0, 2, Delivered, 1, 3)]).(
    peers := map[0 := map[]], ackers := map[7 := Completing(1, true)], verdicts := map[1 := true])
  const E10 := At(FULL, SECOND, 2, [LOST, REMOVED, Add(1, 0, 2, Delivered, 1, 3)]).(
    peers := map[0 := map[]], ackers := map[7 := Releasing(1, 0, true)], verdicts := map[1 := true])
  const E11 := At(FREED, SECOND, 2, [LOST, REMOVED, Add(1, 0, 2, Delivered, 1, 3)]).(peers := map[0 := map[]], verdicts := map[1 := true])
  const E12 := At(FREED, SECOND, 2, [LOST, REMOVED, Add(1, 0, 2, Delivered, 1, 3)]).(
    peers := map[0 := map[10 := 2]], ackers := map[7 := Completing(2, true)], verdicts := map[1 := true, 2 := true])
  const E13 := At(FREED, SECOND, 2, [LOST, REMOVED, ADDED]).(
    peers := map[0 := map[10 := 2]], ackers := map[7 := Updating(2, 1, true)], verdicts := map[1 := true, 2 := true])
  const E14 := At(FREED, RUNNING, 2, [LOST, REMOVED, ADDED]).(peers := map[0 := map[10 := 2]], verdicts := map[1 := true, 2 := true])
  const E15 := E14.(claimers := map[8 := 0])
  const E16 := At(FREED, RUNNING, 2, [Add(0, 0, 1, Queued, 1, 1), REMOVED, ADDED]).(
    claimers := map[8 := 0], peers := map[0 := map[10 := 2]], verdicts := map[1 := true, 2 := true])
  const E17 := At(FREED, RUNNING, 2, [Add(0, 0, 1, Delivered, 2, 4), REMOVED, ADDED]).(
    peers := map[0 := map[10 := 2]], verdicts := map[1 := true, 2 := true])
  const E18 := At(FREED, RUNNING, 2, [Add(0, 0, 1, Delivered, 2, 4), REMOVED, ADDED]).(
    peers := map[0 := map[10 := 1]], ackers := map[7 := Completing(0, true)], verdicts := map[1 := true, 2 := true, 0 := true])
  const E19 := At(FREED, RUNNING, 2, [Add(0, 0, 1, Done, 2, 4), REMOVED, ADDED]).(
    peers := map[0 := map[10 := 1]], ackers := map[7 := Updating(0, 0, true)], verdicts := map[1 := true, 2 := true, 0 := true])
  const E20 := At(FREED, RUNNING, 2, [Add(0, 0, 1, Done, 2, 4), REMOVED, ADDED]).(
    peers := map[0 := map[10 := 1]], verdicts := map[1 := true, 2 := true, 0 := true])
  const REVIVED := [E0, E1, E2, E3, E4, E5, E6, E7, E8, E9, E10, E11, E12, E13, E14, E15, E16, E17, E18, E19, E20]

  lemma AckIsLost()
    ensures Apply(E3, REVIVAL[3]) == E4
  {
    assert REVIVAL[3] == OnAgent(Execute(0, 0, true));
    assert Executed(E3, 0, 0, true) == E4;
  }

  lemma FirstIsClosed()
    ensures Apply(E4, REVIVAL[4]) == E5
  {
    assert REVIVAL[4] == OnClose(CloseScope(Everywhere, [0], 0));
    assert LiveInScope(E4.db, Everywhere) == {0};
    assert CloseTogether(E4.db, [0], 0).commands == E5.db.commands;
    assert CloseTogether(E4.db, [0], 0) == E5.db;
  }

  lemma SecondCanOpen()
    ensures Here(E5) && E5.db.nextSession == 1 && 1 !in E5.db.sessions && |E5.db.sessions| == 1
    ensures IsLeast(2, FreeAddresses(E5.db, 0)) && LiveOfDevice(E5.db.sessions, 0) == {}
  {
    assert FreeAddresses(E5.db, 0) == {2};
  }

  lemma SecondIsOpened()
    ensures Opening(E5, 1, Of(0, 2, Pending)) == E6
  {
    assert Opening(E5, 1, Of(0, 2, Pending)).db == E6.db;
  }

  lemma SecondOpens()
    ensures Apply(E5, REVIVAL[5]) == E6
  {
    assert REVIVAL[5] == Connect(0, 0, 0, 0, FREE);
    SecondCanOpen();
    Opens(E5, 0, 2);
    SecondIsOpened();
  }

  lemma BothAreClaimedFirst()
    ensures Apply(E6, REVIVAL[6]) == E7
  {
    assert CancelDead(E6.db, 0).commands == E6.db.commands;
  }

  lemma BothAreClaimedSecond()
    ensures Apply(E7, REVIVAL[7]) == E8
  {
    assert AheadOf(E7.db.commands, 0, 0) == 0 && AheadOf(E7.db.commands, 0, 1) == 0 && AheadOf(E7.db.commands, 0, 2) == 1;
    assert TakeOldest(E7.db, 0, CLAIM_LIMIT, 3).commands == E8.db.commands;
  }

  lemma RemovalIsExecuted()
    ensures Apply(E8, REVIVAL[8]) == E9
  {
    assert REVIVAL[8] == OnAgent(ExecuteAndAck(7, 0, 1, true));
    assert Executed(E8, 0, 1, true) == E8.(peers := map[0 := map[]]);
  }

  lemma AddressIsReleasedFirst()
    ensures Apply(E9, REVIVAL[9]) == E10
  {
  }

  lemma AddressIsReleasedSecond()
    ensures Apply(E10, REVIVAL[10]) == E11
  {
    assert ReleaseLease(E10.db, 0).leases == E11.db.leases;
    assert E10.ackers - {7} == map[];
  }

  lemma SecondIsSetUpFirst()
    ensures Apply(E11, REVIVAL[11]) == E12
  {
    assert Executed(E11, 0, 2, true) == E11.(peers := map[0 := map[10 := 2]]);
  }

  lemma SecondIsSetUpSecond()
    ensures Apply(E12, REVIVAL[12]) == E13
  {
  }

  lemma SecondIsSetUpThird()
    ensures Apply(E13, REVIVAL[13]) == E14
  {
    assert SettleSession(E13.db, 1, true, 3).sessions == E14.db.sessions;
    assert E13.ackers - {7} == map[];
  }

  lemma SweepComesBetweenFirst()
    ensures Apply(E14, REVIVAL[14]) == E15
  {
    assert CancelDead(E14.db, 0).commands == E14.db.commands;
  }

  lemma SweepComesBetweenSecond()
    ensures Apply(E15, REVIVAL[15]) == E16
  {
    assert RequeueStale(E15.db, 2, 5).commands == E16.db.commands;
  }

  lemma SweepComesBetweenThird()
    ensures Apply(E16, REVIVAL[16]) == E17
  {
    assert RequeueStale(E15.db, 2, 5).commands == E16.db.commands;
    assert AheadOf(E16.db.commands, 0, 0) == 0;
    assert TakeOldest(E16.db, 0, CLAIM_LIMIT, 4).commands == E17.db.commands;
  }

  lemma OldSetupIsExecutedFirst()
    ensures Apply(E17, REVIVAL[17]) == E18
  {
    assert PeerEffect(map[10 := 2], E17.db.commands[0]) == map[10 := 1];
    assert Executed(E17, 0, 0, true) == E17.(peers := map[0 := map[10 := 1]]);
  }

  lemma OldSetupIsExecutedSecond()
    ensures Apply(E18, REVIVAL[18]) == E19
  {
  }

  lemma OldSetupIsExecutedThird()
    ensures Apply(E19, REVIVAL[19]) == E20
  {
    assert SettleSession(E19.db, 0, true, 4) == E19.db;
    assert E19.ackers - {7} == map[];
  }

  lemma RevivalBegins()
    ensures Apply(E0, REVIVAL[0]) == E1
    ensures Apply(E1, REVIVAL[1]) == E2
    ensures Apply(E2, REVIVAL[2]) == E3
  {
    assert REVIVAL[0] == Connect(0, 0, 0, 0, FREE) && REVIVAL[1] == OnQueue(ClaimCancel(8, 0)) && REVIVAL[2] == OnQueue(ClaimTake(8, 1));
    FirstOpensOfTwo();
    FirstIsClaimedOfTwo();
  }

  lemma RevivalStarts()
    ensures forall k :: 0 <= k < 9 ==> Apply(REVIVED[k], REVIVAL[k]) == REVIVED[k + 1]
  {
    RevivalBegins();
    AckIsLost();
    FirstIsClosed();
    SecondOpens();
    BothAreClaimedFirst();
    BothAreClaimedSecond();
    RemovalIsExecuted();
  }

  lemma RevivalEnds()
    ensures forall k :: 9 <= k < |REVIVAL| ==> Apply(REVIVED[k], REVIVAL[k]) == REVIVED[k + 1]
  {
    AddressIsReleasedFirst();
    AddressIsReleasedSecond();
    SecondIsSetUpFirst();
    SecondIsSetUpSecond();
    SecondIsSetUpThird();
    SweepComesBetweenFirst();
    SweepComesBetweenSecond();
    SweepComesBetweenThird();
    OldSetupIsExecutedFirst();
    OldSetupIsExecutedSecond();
    OldSetupIsExecutedThird();
  }

  /**
   * A setup is carried out and its acknowledgement lost; its session is closed and its device connects
   * again, with another address. Everything is acknowledged and the second session is ACTIVE when a claim
   * begins, a sweep requeues the first setup, and the claim hands it out. The node sets the key up with
   * the address of the session that ended.
   */
  lemma EndedSetupIsHandedOut()
    ensures Installed(Ready(TWO))
    ensures NoReturn.Ended(Run(Ready(TWO), REVIVAL[..16]).db, 0)
    ensures
      var before, after := Run(Ready(TWO), REVIVAL[..16]), Run(Ready(TWO), REVIVAL[..17]);
      && 0 < |before.db.commands| && IsAddOf(before.db.commands[0], 0)
      && 0 < |after.db.commands| && after.db.commands[0].attempts > before.db.commands[0].attempts
    ensures
      var sys := Run(Ready(TWO), REVIVAL);
      && sys.db.sessions == RUNNING && RUNNING[1] == Of(0, 2, Active)
      && RUNNING[1].key in Table(sys, 0) && Table(sys, 0)[RUNNING[1].key] != RUNNING[1].ip
  {
    ReadyIsInstalled(TWO);
    RevivalClaims();
    RevivalHandsOut();
    RevivalRuns();
    Counted();
  }

  lemma RevivalRuns()
    ensures Run(Ready(TWO), REVIVAL) == E20
  {
    RevivalReaches(20);
    assert REVIVAL[..20] == REVIVAL;
  }

  lemma RevivalClaims()
    ensures Run(Ready(TWO), REVIVAL[..16]) == E16
  {
    RevivalReaches(16);
    assert REVIVED[16] == E16;
  }

  lemma RevivalHandsOut()
    ensures Run(Ready(TWO), REVIVAL[..17]) == E17
  {
    RevivalReaches(17);
  }

  lemma RevivalReaches(k: nat)
    requires k <= 20
    ensures Run(Ready(TWO), REVIVAL[..k]) == REVIVED[k]
  {
    RevivalTraces();
    TraceReaches(REVIVED, REVIVAL, k);
  }

  lemma RevivalTraces()
    ensures Traces(REVIVED, REVIVAL)
  {
    RevivalStarts();
    RevivalEnds();
  }

  lemma Counted()
    ensures NoReturn.Ended(E16.db, 0) && E16.db.commands[0] == Add(0, 0, 1, Queued, 1, 1) && E17.db.commands[0] == Add(0, 0, 1, Delivered, 2, 4)
    ensures E20.db.sessions == RUNNING && Table(E20, 0) == map[10 := 1]
  {
  }
}
