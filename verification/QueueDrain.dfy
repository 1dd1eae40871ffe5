/**
 * The command queue terminates: no command is delivered for ever, and none is open again once it is
 * finished. What may still change is the verdict, and exactly when is said here too.
 */
module QueueDrain {
  import opened Rows
  import opened Plane
  import opened Protocol
  import Fifo
  import NoReturn

  /** The attempt budget the monitor passes to every stale sweep. */
  const MAX_ATTEMPTS := 5

  predicate WithinBudget(c: Command) {
    && c.attempts <= MAX_ATTEMPTS
    && (c.status.Queued? ==> c.attempts < MAX_ATTEMPTS)
    && (c.status.Delivered? ==> c.attempts >= 1)
  }

  predicate Budget(db: Db) {
    forall i :: 0 <= i < |db.commands| ==> WithinBudget(db.commands[i])
  }

  predicate SweepsUseBudget(step: Step) {
    step.OnQueue? && step.queue.Requeue? ==> step.queue.maxAttempts == MAX_ATTEMPTS
  }

  /** How many more times a command can still change hands: queued to delivered or back. */
  function Weight(c: Command): int {
    match c.status
    case Queued => 2 * (MAX_ATTEMPTS - c.attempts)
    case Delivered => 2 * (MAX_ATTEMPTS - c.attempts) + 1
    case _ => 0
  }

  function Potential(commands: seq<Command>): int {
    if commands == [] then 0 else Weight(commands[0]) + Potential(commands[1..])
  }

  lemma {:induction false} PotentialFalls(before: seq<Command>, after: seq<Command>)
    requires |before| == |after| && forall i :: 0 <= i < |before| ==> Weight(after[i]) <= Weight(before[i])
    ensures Potential(after) <= Potential(before)
    ensures (exists i :: 0 <= i < |before| && Weight(after[i]) < Weight(before[i])) ==> Potential(after) < Potential(before)
  {
    if before != [] {
      forall i | 0 <= i < |before[1..]| ensures Weight(after[1..][i]) <= Weight(before[1..][i]) {
        assert Weight(after[i + 1]) <= Weight(before[i + 1]);
      }
      PotentialFalls(before[1..], after[1..]);
      if i :| 0 <= i < |before| && Weight(after[i]) < Weight(before[i]) && i > 0 {
        assert Weight(after[1..][i - 1]) < Weight(before[1..][i - 1]);
      }
    }
  }

  lemma {:induction false} PotentialBounds(commands: seq<Command>)
    requires forall i :: 0 <= i < |commands| ==> WithinBudget(commands[i])
    ensures 0 <= Potential(commands) <= 2 * MAX_ATTEMPTS * |commands|
  {
    if commands != [] {
      assert WithinBudget(commands[0]);
      forall i | 0 <= i < |commands[1..]| ensures WithinBudget(commands[1..][i]) {
        assert WithinBudget(commands[i + 1]);
      }
      PotentialBounds(commands[1..]);
    }
  }

  /** Some command that was open is not as it was. */
  ghost predicate OpenChanges(db: Db, after: Db)
    requires |db.commands| == |after.commands|
  {
    exists i :: 0 <= i < |db.commands| && Open(db.commands[i]) && after.commands[i] != db.commands[i]
  }

  /** The potential never rises, and falls with every change of an open command. */
  ghost predicate Spends(db: Db, after: Db) {
    && |db.commands| == |after.commands|
    && Budget(after)
    && Potential(after.commands) <= Potential(db.commands)
    && (OpenChanges(db, after) ==> Potential(after.commands) < Potential(db.commands))
  }

  lemma CancelSpends(db: Db, n: nat)
    requires Budget(db)
    ensures Spends(db, CancelDead(db, n))
  {
    PotentialFalls(db.commands, CancelDead(db, n).commands);
  }

  lemma TakeSpends(db: Db, n: nat, limit: int, now: int)
    requires Budget(db)
    ensures Spends(db, TakeOldest(db, n, limit, now))
  {
    PotentialFalls(db.commands, TakeOldest(db, n, limit, now).commands);
  }

  lemma SweepSpends(db: Db, cutoff: int)
    requires Budget(db)
    ensures Spends(db, RequeueStale(db, cutoff, MAX_ATTEMPTS))
  {
    PotentialFalls(db.commands, RequeueStale(db, cutoff, MAX_ATTEMPTS).commands);
  }

  /** What happens to a queue when nothing new is asked for: a claim's two statements, sweeps, acknowledgements. */
  datatype Move =
    | Cancels(n: nat)
    | Takes(n: nat, limit: int, now: int)
    | Sweeps(cutoff: int)
    | Completes(i: nat, ok: bool)

  function Moved(db: Db, move: Move): Db {
    match move
    case Cancels(n) => CancelDead(db, n)
    case Takes(n, limit, now) => TakeOldest(db, n, limit, now)
    case Sweeps(cutoff) => RequeueStale(db, cutoff, MAX_ATTEMPTS)
    case Completes(i, ok) => if i < |db.commands| then Complete(db, i, ok) else db
  }

  lemma CompletionSpends(db: Db, i: nat, ok: bool)
    requires Budget(db) && i < |db.commands|
    ensures Spends(db, Complete(db, i, ok))
  {
    assert WithinBudget(db.commands[i]);
    PotentialFalls(db.commands, Complete(db, i, ok).commands);
    if Open(db.commands[i]) {
      assert Weight(Complete(db, i, ok).commands[i]) < Weight(db.commands[i]);
    }
  }

  lemma MoveSpends(db: Db, move: Move)
    requires Budget(db)
    ensures Spends(db, Moved(db, move))
  {
    match move
    case Cancels(n) => CancelSpends(db, n);
    case Takes(n, limit, now) => TakeSpends(db, n, limit, now);
    case Sweeps(cutoff) => SweepSpends(db, cutoff);
    case Completes(i, ok) =>
      if i < |db.commands| { CompletionSpends(db, i, ok); }
  }

  /** The number of moves in a sequence that change an open command. */
  ghost function Effective(db: Db, moves: seq<Move>): nat
    decreases |moves|
  {
    if moves == [] then 0
    else
      var next := Moved(db, moves[0]);
      (if |next.commands| == |db.commands| && OpenChanges(db, next) then 1 else 0) + Effective(next, moves[1..])
  }

  ghost function Final(db: Db, moves: seq<Move>): Db
    decreases |moves|
  {
    if moves == [] then db else Final(Moved(db, moves[0]), moves[1..])
  }

  lemma {:induction false} EffectiveSpend(db: Db, moves: seq<Move>)
    requires Budget(db)
    ensures Budget(Final(db, moves))
    ensures Effective(db, moves) + Potential(Final(db, moves).commands) <= Potential(db.commands)
    decreases |moves|
  {
    if moves != [] {
      MoveSpends(db, moves[0]);
      EffectiveSpend(Moved(db, moves[0]), moves[1..]);
    }
  }

  /**
   * However long nodes poll, the monitor sweeps and acknowledgements arrive, the open commands of a
   * queue of k change at most 10k times. An acknowledgement that overwrites a verdict costs nothing and
   * gives no command anything back.
   */
  lemma QueueDrains(db: Db, moves: seq<Move>)
    requires Budget(db)
    ensures Effective(db, moves) <= 2 * MAX_ATTEMPTS * |db.commands|
  {
    EffectiveSpend(db, moves);
    PotentialBounds(db.commands);
    PotentialBounds(Final(db, moves).commands);
  }

  lemma {:induction false} FirstWaiting(commands: seq<Command>, n: nat, i: nat) returns (first: nat)
    requires i < |commands| && Waiting(commands[i], n)
    ensures first <= i && Waiting(commands[first], n) && AheadOf(commands, n, first) == 0
  {
    if AheadOf(commands, n, i) == 0 {
      first := i;
    } else {
      var j := AheadIsNotEmpty(commands, n, i);
      first := FirstWaiting(commands, n, j);
    }
  }

  lemma {:induction false} AheadIsNotEmpty(commands: seq<Command>, n: nat, i: nat) returns (j: nat)
    requires i <= |commands| && AheadOf(commands, n, i) > 0
    ensures j < i && Waiting(commands[j], n)
  {
    if Waiting(commands[i - 1], n) {
      j := i - 1;
    } else {
      j := AheadIsNotEmpty(commands, n, i - 1);
    }
  }

  /** While a command is open, some poll or sweep changes the queue: it cannot get stuck before it is drained. */
  lemma OpenCanMove(db: Db, i: nat) returns (move: Move)
    requires i < |db.commands| && Open(db.commands[i])
    ensures |Moved(db, move).commands| == |db.commands| && OpenChanges(db, Moved(db, move))
  {
    var c := db.commands[i];
    if c.status.Queued? {
      move := Takes(c.node, 1, 0);
      var first := FirstWaiting(db.commands, c.node, i);
      assert !Moved(db, move).commands[first].status.Queued?;
    } else {
      move := Sweeps(c.deliveredAt + 1);
      assert !Moved(db, move).commands[i].status.Delivered?;
    }
  }

  // --------------------------------------------------------------- runs -----

  /** No command is lost, and a finished one is not open again nor delivered again. */
  ghost predicate FinishedStays(db: Db, after: Db) {
    && |db.commands| <= |after.commands|
    && forall i :: 0 <= i < |db.commands| && !Open(db.commands[i]) ==>
         !Open(after.commands[i]) && after.commands[i].attempts == db.commands[i].attempts
  }

  lemma ConnectKeeps(sys: Sys, u: nat, d: nat, version: nat, n: nat, plan: Plan)
    ensures Budget(sys.db) ==> Budget(Connected(sys, u, d, version, n, plan).db)
    ensures FinishedStays(sys.db, Connected(sys, u, d, version, n, plan).db)
  {
  }

  lemma SameQueueKeeps(db: Db, after: Db)
    requires after.commands == db.commands
    ensures Budget(db) ==> Budget(after)
    ensures FinishedStays(db, after)
  {
  }

  lemma DeleteKeeps(db: Db, d: nat)
    ensures Budget(db) ==> Budget(DeleteDevice(db, d))
    ensures FinishedStays(db, DeleteDevice(db, d))
  {
  }

  lemma RevokingKeeps(sys: Sys, d: nat, order: seq<nat>, now: int)
    ensures Budget(sys.db) ==> Budget(ApplyDevice(sys, RevokeDevice(d, order, now)).db)
    ensures FinishedStays(sys.db, ApplyDevice(sys, RevokeDevice(d, order, now)).db)
  {
    if d in sys.db.devices && Enumerates(order, LiveInScope(sys.db, OfDevice(d))) {
      ScopeKeeps(sys.db, order, now);
      SameQueueKeeps(CloseTogether(sys.db, order, now), ApplyDevice(sys, RevokeDevice(d, order, now)).db);
    }
  }

  lemma DeviceStepKeeps(sys: Sys, step: DeviceStep)
    ensures Budget(sys.db) ==> Budget(ApplyDevice(sys, step).db)
    ensures FinishedStays(sys.db, ApplyDevice(sys, step).db)
  {
    if step.RevokeDevice? { RevokingKeeps(sys, step.d, step.order, step.now); }
    else if step.RemoveDevice? { DeleteKeeps(sys.db, step.d); }
    else { RowStepKeeps(sys, step); }
  }

  lemma RowStepKeeps(sys: Sys, step: DeviceStep)
    requires !step.RevokeDevice? && !step.RemoveDevice?
    ensures Budget(sys.db) ==> Budget(ApplyDevice(sys, step).db)
    ensures FinishedStays(sys.db, ApplyDevice(sys, step).db)
  {
    NoReturn.RowsOnly(sys, step);
    SameQueueKeeps(sys.db, ApplyDevice(sys, step).db);
  }

  lemma ScopeKeeps(db: Db, order: seq<nat>, now: int)
    requires forall s :: s in order ==> s in db.sessions
    ensures Budget(db) ==> Budget(CloseTogether(db, order, now))
    ensures FinishedStays(db, CloseTogether(db, order, now))
  {
  }

  lemma EnqueueKeeps(sys: Sys, p: nat)
    ensures Budget(sys.db) ==> Budget(Enqueued(sys, p).db)
    ensures FinishedStays(sys.db, Enqueued(sys, p).db)
  {
    if p in sys.closers && sys.closers[p].Enqueuing? && sys.closers[p].session in sys.db.sessions {
      var s := sys.closers[p].session;
      assert Enqueued(sys, p).db.commands == sys.db.commands + [RemoveCommand(s, sys.db.sessions[s])];
    }
  }

  lemma CloseStepKeeps(sys: Sys, step: CloseStep)
    ensures Budget(sys.db) ==> Budget(ApplyClose(sys, step).db)
    ensures FinishedStays(sys.db, ApplyClose(sys, step).db)
  {
    match step
    case CloseScope(scope, order, now) =>
      if Enumerates(order, LiveInScope(sys.db, scope)) { ScopeKeeps(sys.db, order, now); }
    case CloserEnqueue(p) => EnqueueKeeps(sys, p);
    case CloserFinish(_, _) => NoRowKeeps(sys, step);
    case CloserRead(_, _) => NoRowKeeps(sys, step);
    case CloserCheck(_) => NoRowKeeps(sys, step);
  }

  lemma NoRowKeeps(sys: Sys, step: CloseStep)
    requires step.CloserFinish? || step.CloserRead? || step.CloserCheck?
    ensures ApplyClose(sys, step).db.commands == sys.db.commands
  {
  }

  lemma TakeKeeps(db: Db, n: nat, limit: int, now: int)
    ensures Budget(db) ==> Budget(TakeOldest(db, n, limit, now))
    ensures FinishedStays(db, TakeOldest(db, n, limit, now))
  {
  }

  lemma CancelKeeps(db: Db, n: nat)
    ensures Budget(db) ==> Budget(CancelDead(db, n))
    ensures FinishedStays(db, CancelDead(db, n))
  {
  }

  lemma SweepKeeps(db: Db, cutoff: int, maxAttempts: nat)
    ensures Budget(db) && maxAttempts == MAX_ATTEMPTS ==> Budget(RequeueStale(db, cutoff, maxAttempts))
    ensures FinishedStays(db, RequeueStale(db, cutoff, maxAttempts))
  {
  }

  lemma SyncKeeps(db: Db, n: nat)
    ensures Budget(db) ==> Budget(EnqueueSync(db, n))
    ensures FinishedStays(db, EnqueueSync(db, n))
  {
  }

  lemma QueueStepKeeps(sys: Sys, step: QueueStep)
    ensures Budget(sys.db) && SweepsUseBudget(OnQueue(step)) ==> Budget(ApplyQueue(sys, step).db)
    ensures FinishedStays(sys.db, ApplyQueue(sys, step).db)
  {
    match step
    case ClaimTake(p, now) =>
      if p in sys.claimers { TakeKeeps(sys.db, sys.claimers[p], CLAIM_LIMIT, now); } else { SameQueueKeeps(sys.db, sys.db); }
    case ClaimCancel(p, n) =>
      if p in sys.claimers { SameQueueKeeps(sys.db, sys.db); } else { CancelKeeps(sys.db, n); }
    case Requeue(cutoff, maxAttempts) => SweepKeeps(sys.db, cutoff, maxAttempts);
    case PolicyChange(n) => SyncKeeps(sys.db, n);
  }

  lemma WriteKeeps(sys: Sys, p: nat)
    ensures Budget(sys.db) ==> Budget(Completed(sys, p).db)
    ensures FinishedStays(sys.db, Completed(sys, p).db)
  {
    if Completed(sys, p) != sys && Budget(sys.db) {
      CompletionSpends(sys.db, sys.ackers[p].command, sys.ackers[p].ok);
    }
  }

  lemma AckStepKeeps(sys: Sys, step: AckStep)
    ensures Budget(sys.db) ==> Budget(ApplyAck(sys, step).db)
    ensures FinishedStays(sys.db, ApplyAck(sys, step).db)
  {
    if step.AckWrite? {
      WriteKeeps(sys, step.p);
    } else {
      OthersKeepQueue(sys, step);
      SameQueueKeeps(sys.db, ApplyAck(sys, step).db);
    }
  }

  lemma OthersKeepQueue(sys: Sys, step: AckStep)
    requires !step.AckWrite?
    ensures ApplyAck(sys, step).db.commands == sys.db.commands
  {
    match step
    case Ack(_, _, _, _) =>
    case AckUpdate(_, _) =>
    case AckRelease(_) =>
  }

  lemma LeaseStepKeeps(sys: Sys, step: LeaseStep)
    ensures Budget(sys.db) ==> Budget(ApplyLease(sys, step).db)
    ensures FinishedStays(sys.db, ApplyLease(sys, step).db)
  {
  }

  lemma AgentStepKeeps(sys: Sys, step: AgentStep)
    ensures Budget(sys.db) ==> Budget(ApplyAgent(sys, step).db)
    ensures FinishedStays(sys.db, ApplyAgent(sys, step).db)
  {
    AgentsChange(sys, step);
    SameQueueKeeps(sys.db, ApplyAgent(sys, step).db);
  }

  lemma StepKeeps(sys: Sys, step: Step)
    ensures Budget(sys.db) && SweepsUseBudget(step) ==> Budget(Apply(sys, step).db)
    ensures FinishedStays(sys.db, Apply(sys, step).db)
  {
    match step
    case Configure(_, _, _) => SameQueueKeeps(sys.db, Apply(sys, step).db);
    case Connect(u, d, version, n, plan) => ConnectKeeps(sys, u, d, version, n, plan);
    case OnDevice(device) => DeviceStepKeeps(sys, device);
    case OnClose(close) => CloseStepKeeps(sys, close);
    case OnQueue(queue) => QueueStepKeeps(sys, queue);
    case OnAck(ack) => AckStepKeeps(sys, ack);
    case OnLease(lease) => LeaseStepKeeps(sys, lease);
    case OnAgent(agent) => AgentStepKeeps(sys, agent);
  }

  lemma {:induction false} RunKeeps(sys: Sys, steps: seq<Step>)
    ensures Budget(sys.db) && (forall k :: 0 <= k < |steps| ==> SweepsUseBudget(steps[k])) ==> Budget(Run(sys, steps).db)
    ensures FinishedStays(sys.db, Run(sys, steps).db)
    decreases |steps|
  {
    if steps != [] {
      StepKeeps(sys, steps[0]);
      RunKeeps(Apply(sys, steps[0]), steps[1..]);
    }
  }

  /**
   * Across loss, requeues and duplicate acknowledgements: no command is delivered more than five
   * times, and one that is DONE or FAILED at some point of the run is never open or delivered again.
   */
  lemma DeliveriesAreBounded(init: Sys, history: seq<Step>, future: seq<Step>, i: nat)
    requires Installed(init) && forall k :: 0 <= k < |history + future| ==> SweepsUseBudget((history + future)[k])
    requires i < |Run(init, history).db.commands|
    ensures i < |Run(init, history + future).db.commands|
    ensures Run(init, history + future).db.commands[i].attempts <= MAX_ATTEMPTS
    ensures !Open(Run(init, history).db.commands[i]) ==>
      && !Open(Run(init, history + future).db.commands[i])
      && Run(init, history + future).db.commands[i].attempts == Run(init, history).db.commands[i].attempts
  {
    forall k | 0 <= k < |history| ensures SweepsUseBudget(history[k]) { assert (history + future)[k] == history[k]; }
    forall k | 0 <= k < |future| ensures SweepsUseBudget(future[k]) { assert (history + future)[|history| + k] == future[k]; }
    RunKeeps(init, history);
    RunKeeps(Run(init, history), future);
    RunAppend(init, history, future);
  }

  // ----------------------------------------------------------- verdicts -----

  /** Command `i` is finished with `status`, and whoever is still to write its row writes the same. */
  ghost predicate Settled(sys: Sys, i: nat, status: CommandStatus) {
    && i < |sys.db.commands| && sys.db.commands[i].status == status && (status.Done? || status.Aborted?)
    && forall p, ok :: IsWriting(sys, p, i, ok) ==> Verdict(ok) == status
  }

  /** What a step may do to the queue without touching a verdict. */
  ghost predicate VerdictsStay(db: Db, after: Db) {
    && |db.commands| <= |after.commands|
    && forall i :: 0 <= i < |db.commands| && !Open(db.commands[i]) ==> after.commands[i].status == db.commands[i].status
  }

  /** A step other than the late write: finished commands keep their verdict, and who reads them writes nothing. */
  ghost predicate Undisturbed(sys: Sys, after: Sys) {
    && VerdictsStay(sys.db, after.db)
    && (forall p, i: nat, ok :: i < |sys.db.commands| && !Open(sys.db.commands[i]) && IsWriting(after, p, i, ok) ==> IsWriting(sys, p, i, ok))
  }

  lemma UndisturbedSettles(sys: Sys, after: Sys, i: nat, status: CommandStatus)
    requires Settled(sys, i, status) && Undisturbed(sys, after)
    ensures Settled(after, i, status)
  {
  }

  /** Steps that leave the acknowledgement handlers alone. */
  lemma OthersUndisturb(sys: Sys, after: Sys)
    requires after.ackers == sys.ackers && VerdictsStay(sys.db, after.db)
    ensures Undisturbed(sys, after)
  {
    assert forall p, i, ok :: IsWriting(after, p, i, ok) ==> IsWriting(sys, p, i, ok);
  }

  lemma DeviceStepUndisturbs(sys: Sys, step: DeviceStep)
    ensures Undisturbed(sys, ApplyDevice(sys, step))
  {
    Fifo.DeviceStepIsCalm(sys, step);
    DevicesChange(sys, step);
    OthersUndisturb(sys, ApplyDevice(sys, step));
  }

  lemma CloseStepUndisturbs(sys: Sys, step: CloseStep)
    ensures Undisturbed(sys, ApplyClose(sys, step))
  {
    Fifo.CloseStepIsCalm(sys, step);
    ClosersChange(sys, step);
    OthersUndisturb(sys, ApplyClose(sys, step));
  }

  lemma QueueStepUndisturbs(sys: Sys, step: QueueStep)
    ensures Undisturbed(sys, ApplyQueue(sys, step))
  {
    OthersUndisturb(sys, ApplyQueue(sys, step));
  }

  lemma ReadUndisturbs(sys: Sys, p: nat, n: nat, i: nat, ok: bool)
    ensures Undisturbed(sys, Acknowledged(sys, p, n, i, ok))
  {
    var after := Acknowledged(sys, p, n, i, ok);
    forall q, j: nat, k | j < |sys.db.commands| && !Open(sys.db.commands[j]) && IsWriting(after, q, j, k) ensures IsWriting(sys, q, j, k) {
    }
  }

  lemma WriteSettles(sys: Sys, p: nat, i: nat, status: CommandStatus)
    requires Settled(sys, i, status)
    ensures Settled(Completed(sys, p), i, status)
  {
    var after := Completed(sys, p);
    if after != sys && sys.ackers[p].command == i { assert IsWriting(sys, p, i, sys.ackers[p].ok); }
    forall q, ok | IsWriting(after, q, i, ok) ensures Verdict(ok) == status { assert IsWriting(sys, q, i, ok); }
  }

  /** The rest of a handler: nobody starts to write. */
  lemma LaterUndisturbs(sys: Sys, step: AckStep)
    requires step.AckUpdate? || step.AckRelease?
    ensures Undisturbed(sys, ApplyAck(sys, step))
  {
    var after := ApplyAck(sys, step);
    assert after.db.commands == sys.db.commands;
    forall q, j: nat, ok | IsWriting(after, q, j, ok) ensures IsWriting(sys, q, j, ok) {}
  }

  lemma AckStepSettles(sys: Sys, step: AckStep, i: nat, status: CommandStatus)
    requires Settled(sys, i, status)
    ensures Settled(ApplyAck(sys, step), i, status)
  {
    match step
    case AckWrite(p) => WriteSettles(sys, p, i, status);
    case Ack(p, n, j, ok) =>
      ReadUndisturbs(sys, p, n, j, ok);
      UndisturbedSettles(sys, Acknowledged(sys, p, n, j, ok), i, status);
    case _ =>
      LaterUndisturbs(sys, step);
      UndisturbedSettles(sys, ApplyAck(sys, step), i, status);
  }

  lemma AgentStepSettles(sys: Sys, step: AgentStep, i: nat, status: CommandStatus)
    requires Settled(sys, i, status)
    ensures Settled(ApplyAgent(sys, step), i, status)
  {
    match step
    case ExecuteAndAck(p, n, j, ok) => CarryingSettles(sys, p, n, j, ok, i, status);
    case Execute(_, _, _) => SilentSettles(sys, step, i, status);
    case Report(_) => SilentSettles(sys, step, i, status);
    case ReportApply(_) => SilentSettles(sys, step, i, status);
  }

  lemma SilentSettles(sys: Sys, step: AgentStep, i: nat, status: CommandStatus)
    requires Settled(sys, i, status) && !step.ExecuteAndAck?
    ensures Settled(ApplyAgent(sys, step), i, status)
  {
    AgentsChange(sys, step);
    OthersUndisturb(sys, ApplyAgent(sys, step));
    UndisturbedSettles(sys, ApplyAgent(sys, step), i, status);
  }

  lemma CarryingSettles(sys: Sys, p: nat, n: nat, j: nat, ok: bool, i: nat, status: CommandStatus)
    requires Settled(sys, i, status)
    ensures Settled(Acknowledged(Executed(sys, n, j, ok), p, n, j, ok), i, status)
  {
    var executed := Executed(sys, n, j, ok);
    OthersUndisturb(sys, executed);
    UndisturbedSettles(sys, executed, i, status);
    ReadUndisturbs(executed, p, n, j, ok);
    UndisturbedSettles(executed, Acknowledged(executed, p, n, j, ok), i, status);
  }

  lemma LeaseStepUndisturbs(sys: Sys, step: LeaseStep)
    ensures Undisturbed(sys, ApplyLease(sys, step))
  {
    OthersUndisturb(sys, ApplyLease(sys, step));
  }

  lemma ConnectUndisturbs(sys: Sys, u: nat, d: nat, version: nat, n: nat, plan: Plan)
    ensures Undisturbed(sys, Connected(sys, u, d, version, n, plan))
  {
    OthersUndisturb(sys, Connected(sys, u, d, version, n, plan));
  }

  lemma OtherStepUndisturbs(sys: Sys, step: Step)
    requires !step.OnAck? && !step.OnAgent?
    ensures Undisturbed(sys, Apply(sys, step))
  {
    match step
    case OnDevice(device) => DeviceStepUndisturbs(sys, device);
    case OnClose(close) => CloseStepUndisturbs(sys, close);
    case OnQueue(queue) => QueueStepUndisturbs(sys, queue);
    case OnLease(lease) => LeaseStepUndisturbs(sys, lease);
    case Connect(u, d, version, n, plan) => ConnectUndisturbs(sys, u, d, version, n, plan);
    case Configure(_, _, _) => OthersUndisturb(sys, Apply(sys, step));
  }

  lemma StepSettles(sys: Sys, step: Step, i: nat, status: CommandStatus)
    requires Settled(sys, i, status)
    ensures Settled(Apply(sys, step), i, status)
  {
    match step
    case OnAck(ack) => AckStepSettles(sys, ack, i, status);
    case OnAgent(agent) => AgentStepSettles(sys, agent, i, status);
    case _ =>
      OtherStepUndisturbs(sys, step);
      UndisturbedSettles(sys, Apply(sys, step), i, status);
  }

  lemma {:induction false} RunSettles(sys: Sys, steps: seq<Step>, i: nat, status: CommandStatus)
    requires Settled(sys, i, status)
    ensures Settled(Run(sys, steps), i, status)
    decreases |steps|
  {
    if steps != [] {
      StepSettles(sys, steps[0], i, status);
      RunSettles(Apply(sys, steps[0]), steps[1..], i, status);
    }
  }

  ghost predicate TurnsInto(sys: Sys, future: seq<Step>, i: nat, status: CommandStatus) {
    i < |Run(sys, future).db.commands| && Run(sys, future).db.commands[i].status == status
  }

  /**
   * A command that is DONE or FAILED can still be seen with another status exactly when some
   * acknowledgement with the other verdict read its row while it was open and has not written it yet.
   * The write does not look at the status again.
   */
  lemma FinishedChangesIff(sys: Sys, i: nat)
    requires i < |sys.db.commands| && !Open(sys.db.commands[i])
    ensures
      (exists future, status :: TurnsInto(sys, future, i, status) && status != sys.db.commands[i].status) <==>
      (exists p, ok :: IsWriting(sys, p, i, ok) && Verdict(ok) != sys.db.commands[i].status)
  {
    var now := sys.db.commands[i].status;
    if p, ok :| IsWriting(sys, p, i, ok) && Verdict(ok) != now {
      WriteTurns(sys, p, i, ok);
    } else {
      forall future, status | TurnsInto(sys, future, i, status) ensures status == now {
        RunSettles(sys, future, i, now);
      }
    }
  }

  lemma WriteTurns(sys: Sys, p: nat, i: nat, ok: bool)
    requires i < |sys.db.commands| && IsWriting(sys, p, i, ok)
    ensures TurnsInto(sys, [OnAck(AckWrite(p))], i, Verdict(ok))
  {
    var next := Completed(sys, p);
    assert next.db.commands[i].status == Verdict(ok);
    assert Run(next, []) == next;
    assert [OnAck(AckWrite(p))][1..] == [];
    assert Apply(sys, OnAck(AckWrite(p))) == next;
  }
}
