/**
 * The services and handlers of the control plane over their tables, statement by statement.
 * Each method is proved to leave the database as the functions of Plane say.
 */
module ControlPlane {
  import opened Rows
  import P = Plane
  import opened Protocol

  /** The rows of a query, in the order in which the database happens to return them. */
  method Fetched(rows: set<nat>) returns (found: seq<nat>)
    ensures P.Enumerates(found, rows)
  {
    found := [];
    var rest := rows;
    while rest != {}
      invariant rest <= rows && forall s :: s in found <==> s in rows && s !in rest
      invariant forall i, j :: 0 <= i < j < |found| ==> found[i] != found[j]
      decreases rest
    {
      var s :| s in rest;
      found, rest := found + [s], rest - {s};
    }
  }

  /** The commands that wait for node `n`, oldest first, as many as one claim may take. */
  method OldestWaiting(commands: seq<Command>, n: nat, limit: int) returns (batch: seq<nat>)
    ensures |batch| <= P.BatchSize(limit)
    ensures forall i: nat :: i in batch <==> P.Taken(commands, n, limit, i)
    ensures forall a, b :: 0 <= a < b < |batch| ==> batch[a] < batch[b]
    ensures forall i :: i in batch ==> i < |commands| && commands[i].node == n && commands[i].status == Queued
    ensures forall i :: 0 <= i < |commands| && commands[i].node == n && commands[i].status == Queued && i !in batch ==>
      |batch| == P.BatchSize(limit) && forall j :: j in batch ==> j < i
  {
    var take := P.BatchSize(limit);
    batch := [];
    for i := 0 to |commands|
      invariant |batch| == Min(P.AheadOf(commands, n, i), take)
      invariant forall j: nat :: j in batch <==> j < i && P.Taken(commands, n, limit, j)
      invariant forall a, b :: 0 <= a < b < |batch| ==> batch[a] < batch[b]
      invariant forall j :: 0 <= j < i && P.Waiting(commands[j], n) && j !in batch ==>
        |batch| == take && forall k :: k in batch ==> k < j
    {
      ghost var before := batch;
      if P.Waiting(commands[i], n) && |batch| < take {
        batch := batch + [i];
        assert forall j: nat :: j in batch <==> j in before || j == i;
        assert forall a :: 0 <= a < |before| ==> before[a] in before;
      }
    }
  }

  function DeadSetups(sessions: map<nat, Session>, commands: seq<Command>, n: nat): set<int> {
    set i | 0 <= i < |commands| && commands[i].node == n && commands[i].kind.AddPeer? && commands[i].status.Queued?
      && (commands[i].session.None? || commands[i].session.value !in sessions || !Live(sessions[commands[i].session.value]))
  }

  /** A setup that waits for node `n` although its session is not there or has ended. */
  predicate IsDeadSetup(sessions: map<nat, Session>, c: Command, n: nat) {
    && c.node == n && c.kind == AddPeer && c.status == Queued
    && match c.session
       case None => true
       case Some(s) => s in sessions ==> sessions[s].status == Closed || sessions[s].status == Failed
  }

  function Deliver(commands: seq<Command>, batch: seq<nat>, now: int): seq<Command> {
    seq(|commands|, i requires 0 <= i < |commands| =>
      if i in batch then commands[i].(status := Delivered, attempts := commands[i].attempts + 1, deliveredAt := now)
      else commands[i])
  }

  predicate Stale(c: Command, cutoff: int) {
    c.status.Delivered? && c.deliveredAt < cutoff
  }

  function WithStatus(commands: seq<Command>, rows: set<int>, status: CommandStatus): seq<Command> {
    seq(|commands|, i requires 0 <= i < |commands| =>
      if i in rows then commands[i].(status := status) else commands[i])
  }

  function Retriable(commands: seq<Command>, cutoff: int, maxAttempts: nat): set<int> {
    set i | 0 <= i < |commands| && Stale(commands[i], cutoff) && commands[i].attempts < maxAttempts
  }

  function Exhausted(commands: seq<Command>, cutoff: int, maxAttempts: nat): set<int> {
    set i | 0 <= i < |commands| && Stale(commands[i], cutoff) && commands[i].attempts >= maxAttempts
  }

  lemma SweptInTwo(db: P.Db, cutoff: int, maxAttempts: nat, again: set<int>, given: set<int>)
    requires again == Retriable(db.commands, cutoff, maxAttempts)
    requires given == Exhausted(WithStatus(db.commands, again, Queued), cutoff, maxAttempts)
    ensures WithStatus(WithStatus(db.commands, again, Queued), given, Aborted) == P.RequeueStale(db, cutoff, maxAttempts).commands
    ensures
      var before, after := db.commands, P.RequeueStale(db, cutoff, maxAttempts).commands;
      && again == (set i | 0 <= i < |after| && after[i] != before[i] && after[i].status == Queued)
      && given == (set i | 0 <= i < |after| && after[i] != before[i] && after[i].status == Aborted)
  {
  }

  lemma ClaimedInTwo(db: P.Db, n: nat, limit: int, now: int, dead: set<int>, batch: seq<nat>)
    requires dead == DeadSetups(db.sessions, db.commands, n)
    requires forall i: nat :: i in batch <==> P.Taken(WithStatus(db.commands, dead, Aborted), n, limit, i)
    ensures WithStatus(db.commands, dead, Aborted) == P.CancelDead(db, n).commands
    ensures Deliver(WithStatus(db.commands, dead, Aborted), batch, now) == P.Claim(db, n, limit, now).commands
    ensures forall i :: 0 <= i < |db.commands| ==> (i in dead <==> IsDeadSetup(db.sessions, db.commands[i], n))
  {
    var cancelled := WithStatus(db.commands, dead, Aborted);
    assert cancelled == P.CancelDead(db, n).commands;
    assert forall i: nat :: i < |cancelled| ==> Deliver(cancelled, batch, now)[i] == P.Claim(db, n, limit, now).commands[i];
  }

  /** A connect is refused for a reason that is there. */
  predicate Refuses(db: P.Db, u: nat, d: nat, version: nat, n: nat, plan: Plan, error: P.ConnectError) {
    match error
    case UserRefused => u !in db.users || !db.users[u].active
    case DeviceRevoked => d !in db.devices || !db.devices[d].active || db.devices[d].tokenVersion != version
    case NodeUnavailable => n !in db.nodes || !db.nodes[n].online
    case TierTooLow => n in db.nodes && plan.tier < db.nodes[n].tier
    case Maintenance => db.maintenance || (n in db.nodes && db.nodes[n].maintenance)
    case SessionLimit =>
      var own := set s | s in db.sessions && Live(db.sessions[s]) && db.sessions[s].user == u;
      u in db.users && |own| >= 1 && |own| >= plan.maxSessions && (|own| >= db.users[u].maxSessions || |own| >= 20)
    case DeviceBusy => exists s :: s in db.sessions && Live(db.sessions[s]) && db.sessions[s].device == d
    case NodeFull => n in db.nodes && |set s | s in db.sessions && Live(db.sessions[s]) && db.sessions[s].node == n| >= db.nodes[n].capacity
    case NoAddress => forall l :: l in db.leases && l.0 == n ==> db.leases[l].Some?
  }

  /** The acknowledgement of `c` decides session `s`, which still waits for its setup. */
  predicate Decides(c: Command, s: nat, session: Session) {
    c.kind.AddPeer? && c.session == Some(s) && session.status.Pending?
  }

  /** The acknowledgement of `c` says that the address of session `s` is not in use: no setup, or removed again. */
  predicate Frees(c: Command, ok: bool, s: nat) {
    c.session == Some(s) && ((c.kind.AddPeer? && !ok) || (c.kind.RemovePeer? && ok))
  }

  function Acked(db: P.Db, i: nat, ok: bool, now: int): P.Db
    requires i < |db.commands|
  {
    var c := db.commands[i];
    db.(commands := if Open(c) then db.commands[i := c.(status := P.Verdict(ok))] else db.commands,
        sessions := map s | s in db.sessions :: if !Decides(c, s, db.sessions[s]) then db.sessions[s]
          else if ok then db.sessions[s].(status := Active) else P.Dead(db.sessions[s], Failed, now),
        leases := map l | l in db.leases :: if db.leases[l].Some? && Frees(c, ok, db.leases[l].value) then None else db.leases[l])
  }

  /**
   * An acknowledgement changes its own command if that is open, its own session if that is PENDING, and
   * leases of its own session only, which it frees exactly when the setup failed or the removal succeeded.
   */
  lemma AcksStayAtHome(db: P.Db, i: nat, ok: bool, now: int)
    requires i < |db.commands|
    ensures
      var c, after := db.commands[i], Acked(db, i, ok, now);
      && after == db.(commands := after.commands, sessions := after.sessions, leases := after.leases)
      && (forall j :: 0 <= j < |db.commands| && after.commands[j] != db.commands[j] ==> j == i)
      && |after.commands| == |db.commands|
      && after.commands[i] == (if c.status == Queued || c.status == Delivered then c.(status := if ok then Done else Aborted) else c)
      && after.sessions.Keys == db.sessions.Keys && after.leases.Keys == db.leases.Keys
      && (forall s :: s in db.sessions && !(c.kind == AddPeer && c.session == Some(s) && db.sessions[s].status == Pending) ==>
            after.sessions[s] == db.sessions[s])
      && (forall s :: s in db.sessions && c.kind == AddPeer && c.session == Some(s) && db.sessions[s].status == Pending ==>
            after.sessions[s] == if ok then db.sessions[s].(status := Active) else db.sessions[s].(status := Failed, disconnectedAt := Some(now)))
      && (forall l :: l in db.leases && after.leases[l] != db.leases[l] ==> after.leases[l].None? && db.leases[l] == c.session)
      && (forall l :: l in db.leases && c.session.Some? && db.leases[l] == c.session ==>
            (after.leases[l].None? <==> (c.kind == AddPeer && !ok) || (c.kind == RemovePeer && ok)))
  {
  }

  ghost function AckSteps(p: nat, n: nat, i: nat, ok: bool, now: int): seq<Step> {
    [OnAck(Ack(p, n, i, ok))] + ([OnAck(AckWrite(p))] + ([OnAck(AckUpdate(p, now))] + ([OnAck(AckRelease(p))] + [])))
  }

  /** The handler is the four statements of the protocol's acknowledgement run without interruption. */
  lemma AckIsItsSteps(sys: Sys, p: nat, n: nat, i: nat, ok: bool, now: int)
    requires WasDelivered(sys.db, n, i) && p !in sys.ackers
    ensures Run(sys, AckSteps(p, n, i, ok, now)).db == Acked(sys.db, i, ok, now)
    ensures Run(sys, AckSteps(p, n, i, ok, now)).ackers == sys.ackers
  {
    var read := Acknowledged(sys, p, n, i, ok);
    var written := Completed(read, p);
    var updated := ApplyAck(written, AckUpdate(p, now));
    var released := ApplyAck(updated, AckRelease(p));
    RunStep(sys, OnAck(Ack(p, n, i, ok)), [OnAck(AckWrite(p))] + ([OnAck(AckUpdate(p, now))] + ([OnAck(AckRelease(p))] + [])));
    RunStep(read, OnAck(AckWrite(p)), [OnAck(AckUpdate(p, now))] + ([OnAck(AckRelease(p))] + []));
    RunStep(written, OnAck(AckUpdate(p, now)), [OnAck(AckRelease(p))] + []);
    RunStep(updated, OnAck(AckRelease(p)), []);
    WriteFollowsRead(sys, p, n, i, ok);
    RestFollows(written, p, i, ok, now, sys.ackers);
    SettledInTwo(sys.db, i, ok, now);
  }

  /** closeSession is its four statements run without interruption. */
  lemma ClosingIsItsSteps(sys: Sys, p: nat, s: nat, now: int)
    requires p !in sys.closers
    ensures
      var after := Run(sys, [OnClose(CloserRead(p, s)), OnClose(CloserCheck(p)), OnClose(CloserEnqueue(p)), OnClose(CloserFinish(p, now))]);
      after == sys.(db := P.CloseSession(sys.db, s, now))
  {
    var check, enqueue, finish := OnClose(CloserCheck(p)), OnClose(CloserEnqueue(p)), OnClose(CloserFinish(p, now));
    var read := Apply(sys, OnClose(CloserRead(p, s)));
    var checked := Apply(read, check);
    var queued := Apply(checked, enqueue);
    RunStep(sys, OnClose(CloserRead(p, s)), [check, enqueue, finish]);
    RunStep(read, check, [enqueue, finish]);
    RunStep(checked, enqueue, [finish]);
    RunStep(queued, finish, []);
    assert [OnClose(CloserRead(p, s))] + [check, enqueue, finish] == [OnClose(CloserRead(p, s)), check, enqueue, finish];
    assert [check] + [enqueue, finish] == [check, enqueue, finish] && [enqueue] + [finish] == [enqueue, finish] && [finish] + [] == [finish];
    CloserGoesThrough(sys, p, s, now);
  }

  lemma CloserGoesThrough(sys: Sys, p: nat, s: nat, now: int)
    requires p !in sys.closers
    ensures
      ApplyClose(ApplyClose(ApplyClose(ApplyClose(sys, CloserRead(p, s)), CloserCheck(p)), CloserEnqueue(p)), CloserFinish(p, now))
        == sys.(db := P.CloseSession(sys.db, s, now))
  {
    if s in sys.db.sessions && Live(sys.db.sessions[s]) {
      var ready := sys.(db := if P.HasOpenRemove(sys.db, s) then sys.db else P.EnqueueRemove(sys.db, s), closers := sys.closers[p := Finishing(s)]);
      CloserGetsReady(sys, p, s);
      assert ready.closers - {p} == sys.closers;
      assert ApplyClose(ready, CloserFinish(p, now)) == sys.(db := P.CloseSession(sys.db, s, now));
    }
  }

  lemma CloserGetsReady(sys: Sys, p: nat, s: nat)
    requires p !in sys.closers && s in sys.db.sessions && Live(sys.db.sessions[s])
    ensures
      ApplyClose(ApplyClose(ApplyClose(sys, CloserRead(p, s)), CloserCheck(p)), CloserEnqueue(p)) ==
        sys.(db := if P.HasOpenRemove(sys.db, s) then sys.db else P.EnqueueRemove(sys.db, s), closers := sys.closers[p := Finishing(s)])
  {
    var read := sys.(closers := sys.closers[p := Reading(s)]);
    assert ApplyClose(sys, CloserRead(p, s)) == read;
    var next := if P.HasOpenRemove(sys.db, s) then Finishing(s) else Enqueuing(s);
    assert read.closers[p := next] == sys.closers[p := next];
    assert ApplyClose(read, CloserCheck(p)) == sys.(closers := sys.closers[p := next]);
    CloserQueues(sys, p, s, next);
  }

  lemma CloserQueues(sys: Sys, p: nat, s: nat, next: Closer)
    requires s in sys.db.sessions && next in {Finishing(s), Enqueuing(s)}
    ensures
      ApplyClose(sys.(closers := sys.closers[p := next]), CloserEnqueue(p)) ==
        sys.(db := if next == Finishing(s) then sys.db else P.EnqueueRemove(sys.db, s), closers := sys.closers[p := Finishing(s)])
  {
    assert sys.closers[p := next][p := Finishing(s)] == sys.closers[p := Finishing(s)];
  }

  /** A claim and a reclaim are their two statements run without interruption. */
  lemma ClaimingIsItsSteps(sys: Sys, p: nat, n: nat, now: int)
    requires p !in sys.claimers
    ensures Run(sys, [OnQueue(ClaimCancel(p, n)), OnQueue(ClaimTake(p, now))]) == sys.(db := P.Claim(sys.db, n, 10, now))
  {
    var cancelled := Apply(sys, OnQueue(ClaimCancel(p, n)));
    RunStep(sys, OnQueue(ClaimCancel(p, n)), [OnQueue(ClaimTake(p, now))]);
    RunStep(cancelled, OnQueue(ClaimTake(p, now)), []);
    assert [OnQueue(ClaimTake(p, now))] + [] == [OnQueue(ClaimTake(p, now))];
    assert sys.claimers[p := n] - {p} == sys.claimers;
  }

  lemma ReclaimingIsItsSteps(sys: Sys, p: nat, cutoff: int)
    requires p !in sys.selections
    ensures Run(sys, [OnLease(ReclaimSelect(p, cutoff)), OnLease(ReclaimFree(p))]) == sys.(db := P.FreeLeases(sys.db, P.StaleLeases(sys.db, cutoff)))
  {
    var selected := Apply(sys, OnLease(ReclaimSelect(p, cutoff)));
    RunStep(sys, OnLease(ReclaimSelect(p, cutoff)), [OnLease(ReclaimFree(p))]);
    RunStep(selected, OnLease(ReclaimFree(p)), []);
    assert [OnLease(ReclaimFree(p))] + [] == [OnLease(ReclaimFree(p))];
    assert sys.selections[p := P.StaleLeases(sys.db, cutoff)] - {p} == sys.selections;
  }

  /** The two halves of what an acknowledgement writes: the command, then the session and the lease. */
  function Answered(db: P.Db, i: nat, ok: bool): P.Db
    requires i < |db.commands|
  {
    var c := db.commands[i];
    db.(commands := if Open(c) then db.commands[i := c.(status := P.Verdict(ok))] else db.commands)
  }

  lemma SettledInTwo(db: P.Db, i: nat, ok: bool, now: int)
    requires i < |db.commands|
    ensures Acked(Answered(db, i, ok), i, ok, now) == Acked(db, i, ok, now)
  {
    var answered := Answered(db, i, ok);
    assert answered.sessions == db.sessions && answered.leases == db.leases;
    assert Acked(answered, i, ok, now).sessions == Acked(db, i, ok, now).sessions;
    assert Acked(answered, i, ok, now).leases == Acked(db, i, ok, now).leases;
    assert Acked(answered, i, ok, now).commands == Acked(db, i, ok, now).commands;
  }

  lemma WriteFollowsRead(sys: Sys, p: nat, n: nat, i: nat, ok: bool)
    requires WasDelivered(sys.db, n, i) && p !in sys.ackers
    ensures
      var written := Completed(Acknowledged(sys, p, n, i, ok), p);
      written.db == Answered(sys.db, i, ok) && written.ackers == Proceeding(sys.ackers, p, i, sys.db.commands[i], ok)
  {
    var c := sys.db.commands[i];
    var read := Acknowledged(sys, p, n, i, ok);
    if Open(c) {
      assert read.ackers[p] == Completing(i, ok);
      assert sys.ackers[p := Completing(i, ok)] - {p} == sys.ackers - {p};
      assert Completed(read, p).ackers == Proceeding(read.ackers, p, i, c, ok) == Proceeding(sys.ackers, p, i, c, ok);
    }
  }

  lemma RestFollows(sys: Sys, p: nat, i: nat, ok: bool, now: int, others: map<nat, Acker>)
    requires i < |sys.db.commands| && !Open(sys.db.commands[i]) && p !in others
    requires sys.ackers == Proceeding(others, p, i, sys.db.commands[i], ok)
    ensures
      var after := ApplyAck(ApplyAck(sys, AckUpdate(p, now)), AckRelease(p));
      after.db == Acked(sys.db, i, ok, now) && after.ackers == others
  {
    var c := sys.db.commands[i];
    assert others[p := Releasing(i, 0, ok)] - {p} == others - {p} == others;
    if c.session.Some? && c.kind.AddPeer? {
      SetupFollows(sys, p, i, ok, now, others, c.session.value);
    } else if c.session.Some? && c.kind.RemovePeer? && ok {
      RemovalFollows(sys, p, i, now, others, c.session.value);
    } else {
      assert ApplyAck(sys, AckUpdate(p, now)) == sys && ApplyAck(sys, AckRelease(p)) == sys;
      assert Acked(sys.db, i, ok, now).sessions == sys.db.sessions;
      assert Acked(sys.db, i, ok, now).leases == sys.db.leases;
    }
  }

  lemma RemovalFollows(sys: Sys, p: nat, i: nat, now: int, others: map<nat, Acker>, s: nat)
    requires i < |sys.db.commands| && !Open(sys.db.commands[i]) && p !in others
    requires P.IsRemoveOf(sys.db.commands[i], s) && sys.ackers == others[p := Releasing(i, s, true)]
    ensures
      var after := ApplyAck(ApplyAck(sys, AckUpdate(p, now)), AckRelease(p));
      after.db == Acked(sys.db, i, true, now) && after.ackers == others
  {
    assert ApplyAck(sys, AckUpdate(p, now)) == sys;
    var after := ApplyAck(sys, AckRelease(p));
    assert after.db == P.ReleaseLease(sys.db, s);
    assert Acked(sys.db, i, true, now).sessions == sys.db.sessions;
    assert Acked(sys.db, i, true, now).leases == after.db.leases;
    assert after.ackers == sys.ackers - {p} == others;
  }

  lemma SetupFollows(sys: Sys, p: nat, i: nat, ok: bool, now: int, others: map<nat, Acker>, s: nat)
    requires i < |sys.db.commands| && !Open(sys.db.commands[i]) && p !in others
    requires P.IsAddOf(sys.db.commands[i], s) && sys.ackers == others[p := Updating(i, s, ok)]
    ensures
      var after := ApplyAck(ApplyAck(sys, AckUpdate(p, now)), AckRelease(p));
      after.db == Acked(sys.db, i, ok, now) && after.ackers == others
  {
    var settled := P.SettleSession(sys.db, s, ok, now);
    AckedSetup(sys.db, i, ok, now, s);
    if ok {
      assert sys.ackers - {p} == others;
      assert ApplyAck(sys, AckUpdate(p, now)) == sys.(db := settled, ackers := others);
    } else {
      var failed := sys.(db := settled, ackers := sys.ackers[p := Releasing(i, s, ok)]);
      assert ApplyAck(sys, AckUpdate(p, now)) == failed;
      assert failed.ackers - {p} == others;
      assert ApplyAck(failed, AckRelease(p)) == failed.(db := P.ReleaseLease(settled, s), ackers := others);
    }
  }

  lemma AckedSetup(db: P.Db, i: nat, ok: bool, now: int, s: nat)
    requires i < |db.commands| && !Open(db.commands[i]) && P.IsAddOf(db.commands[i], s)
    ensures
      var settled := P.SettleSession(db, s, ok, now);
      Acked(db, i, ok, now) == if ok then settled else P.ReleaseLease(settled, s)
  {
    AckedSessions(db, i, ok, now, s);
    AckedLeases(db, i, ok, now, s);
  }

  lemma AckedSessions(db: P.Db, i: nat, ok: bool, now: int, s: nat)
    requires i < |db.commands| && P.IsAddOf(db.commands[i], s)
    ensures Acked(db, i, ok, now).sessions == P.SettleSession(db, s, ok, now).sessions
  {
  }

  lemma AckedLeases(db: P.Db, i: nat, ok: bool, now: int, s: nat)
    requires i < |db.commands| && P.IsAddOf(db.commands[i], s)
    ensures Acked(db, i, ok, now).leases == if ok then db.leases else P.ReleaseLease(db, s).leases
  {
  }

  lemma ConnectMeans(db: P.Db, u: nat, d: nat, version: nat, key: nat, n: nat, plan: Plan)
    ensures P.CreateSession(db, u, d, version, key, n, plan).Ok? <==> P.Admissible(db, u, d, version, n, plan)
    ensures
      match P.CreateSession(db, u, d, version, key, n, plan)
      case Err(error) => Refuses(db, u, d, version, n, plan, error)
      case Ok(after) =>
        && db.nextSession in after.sessions && P.IsLeast(after.sessions[db.nextSession].ip, P.FreeAddresses(db, n))
        && (db.nextSession !in db.sessions ==> WithinLimits(after, db.nextSession, u, d, n, plan))
  {
    if db.nextSession !in db.sessions { P.ConnectAdmits(db, u, d, version, key, n, plan); }
    SetsOfRows(db, u, d, n);
    match P.CreateSession(db, u, d, version, key, n, plan)
    case Err(error) =>
      if error.DeviceBusy? {
        var s :| s in LiveOfDevice(db.sessions, d);
      } else if error.NoAddress? {
        FreeMeansFree(db, n);
      }
    case Ok(after) => SetsOfRows(after, u, d, n);
  }

  /**
   * With session `s` open on device `d` the account is within its plan's number, or within its own and
   * 20, or has this session only; the node is within its capacity, and the device has no other session.
   */
  predicate WithinLimits(db: P.Db, s: nat, u: nat, d: nat, n: nat, plan: Plan) {
    var own := set t | t in db.sessions && Live(db.sessions[t]) && db.sessions[t].user == u;
    && u in db.users && (|own| == 1 || |own| <= plan.maxSessions || (|own| <= db.users[u].maxSessions && |own| <= 20))
    && n in db.nodes && |set t | t in db.sessions && Live(db.sessions[t]) && db.sessions[t].node == n| <= db.nodes[n].capacity
    && forall t :: t in db.sessions && Live(db.sessions[t]) && db.sessions[t].device == d ==> t == s
  }

  lemma SetsOfRows(db: P.Db, u: nat, d: nat, n: nat)
    ensures LiveOfUser(db.sessions, u) == set s | s in db.sessions && Live(db.sessions[s]) && db.sessions[s].user == u
    ensures LiveOfNode(db.sessions, n) == set s | s in db.sessions && Live(db.sessions[s]) && db.sessions[s].node == n
    ensures forall s :: s in LiveOfDevice(db.sessions, d) <==> s in db.sessions && Live(db.sessions[s]) && db.sessions[s].device == d
  {
  }

  lemma FreeMeansFree(db: P.Db, n: nat)
    requires P.FreeAddresses(db, n) == {}
    ensures forall l :: l in db.leases && l.0 == n ==> db.leases[l].Some?
  {
    assert forall l :: l in db.leases && l.0 == n && db.leases[l].None? ==> l.1 in P.FreeAddresses(db, n);
  }

  /** The holder of a lease is a session that was closed, or failed, before `cutoff`. */
  predicate EndedBefore(holder: Option<nat>, sessions: map<nat, Session>, cutoff: int) {
    match holder
    case None => false
    case Some(s) =>
      && s in sessions && (sessions[s].status == Closed || sessions[s].status == Failed)
      && match sessions[s].disconnectedAt
         case None => false
         case Some(at) => at < cutoff
  }

  class Tables {
    var maintenance: bool
    var users: map<nat, User>
    var nodes: map<nat, Node>
    var devices: map<nat, Device>
    var sessions: map<nat, Session>
    var nextSession: nat
    var leases: map<P.Lease, Option<nat>>
    var commands: seq<Command>

    ghost function Db(): P.Db
      reads this
    {
      P.Db(maintenance, users, nodes, devices, sessions, nextSession, leases, commands)
    }

    constructor (users: map<nat, User>, nodes: map<nat, Node>, devices: map<nat, Device>)
      ensures Db() == P.Db(false, users, nodes, devices, map[], 0, map[], [])
    {
      this.maintenance := false;
      this.users, this.nodes, this.devices := users, nodes, devices;
      this.sessions, this.nextSession, this.leases, this.commands := map[], 0, map[], [];
    }

    /**
     * Opens a session exactly when every gate is open, or names a gate that is closed and changes nothing.
     * One session, the lease of one free address and one setup at the end of the queue are added, every
     * other row is as it was, and no limit is exceeded.
     */
    method CreateSessionWithLease(u: nat, d: nat, version: nat, key: nat, n: nat, plan: Plan)
      returns (r: Result<nat, P.ConnectError>)
      modifies this
      ensures r.Ok? <==> P.Admissible(old(Db()), u, d, version, n, plan)
      ensures r.Err? ==> Db() == old(Db()) && Refuses(Db(), u, d, version, n, plan, r.error)
      ensures r.Ok? ==>
        var s := old(nextSession);
        && r.value == s && s in sessions && sessions == old(sessions)[s := sessions[s]]
        && sessions[s] == Session(u, d, n, sessions[s].ip, key, Pending, None)
        && leases == old(leases)[(n, sessions[s].ip) := Some(s)]
        && commands == old(commands) + [Command(n, AddPeer, Some(s), key, sessions[s].ip, Queued, 0, 0)]
        && users == old(users) && nodes == old(nodes) && devices == old(devices) && maintenance == old(maintenance)
      ensures r.Ok? && old(nextSession !in sessions) ==> WithinLimits(Db(), r.value, u, d, n, plan)
      ensures r.Ok? ==>
        var ip := sessions[r.value].ip;
        (n, ip) in old(leases) && old(leases)[(n, ip)].None? && forall l :: l in old(leases) && l.0 == n && l.1 < ip ==> old(leases)[l].Some?
      ensures P.CreateSession(old(Db()), u, d, version, key, n, plan) == if r.Ok? then Ok(Db()) else Err(r.error)
    {
      ghost var before := Db();
      ConnectMeans(before, u, d, version, key, n, plan);
      if u !in users || !users[u].active { return Err(P.UserRefused); }
      if d !in devices || !devices[d].active || devices[d].tokenVersion != version { return Err(P.DeviceRevoked); }
      if n !in nodes { return Err(P.NodeUnavailable); }
      if plan.tier < nodes[n].tier { return Err(P.TierTooLow); }
      if maintenance || nodes[n].maintenance { return Err(P.Maintenance); }
      if !nodes[n].online { return Err(P.NodeUnavailable); }
      var allowed := Max(EffectiveSessionLimit(users[u]), plan.maxSessions);
      if |LiveOfUser(sessions, u)| >= allowed { return Err(P.SessionLimit); }
      if LiveOfDevice(sessions, d) != {} { return Err(P.DeviceBusy); }
      if |LiveOfNode(sessions, n)| >= nodes[n].capacity { return Err(P.NodeFull); }
      var free := set l | l in leases && l.0 == n && leases[l].None? :: l.1;
      if free == {} { return Err(P.NoAddress); }
      var ip := P.FirstAddress(free);
      assert forall l :: l in leases && l.0 == n && leases[l].None? ==> l.1 in free;
      var s := nextSession;
      sessions := sessions[s := Session(u, d, n, ip, key, Pending, None)];
      nextSession := s + 1;
      leases := leases[(n, ip) := Some(s)];
      commands := commands + [Command(n, AddPeer, Some(s), key, ip, Queued, 0, 0)];
      assert free == P.FreeAddresses(before, n);
      assert P.CreateSession(before, u, d, version, key, n, plan) == Ok(Db());
      return Ok(s);
    }

    method HasOpenCommand(s: nat) returns (found: bool)
      ensures found == P.HasOpenRemove(Db(), s)
      ensures found <==> exists i :: (0 <= i < |commands| && commands[i].kind == RemovePeer && commands[i].session == Some(s)
                                      && (commands[i].status == Queued || commands[i].status == Delivered))
    {
      found := false;
      for i := 0 to |commands|
        invariant found == exists j :: 0 <= j < i && P.IsRemoveOf(commands[j], s) && Open(commands[j])
      {
        if P.IsRemoveOf(commands[i], s) && Open(commands[i]) { found := true; }
      }
    }

    /** Queues the peer's removal unless one is open already, then closes the row; ended sessions are left alone. */
    method CloseSession(s: nat, now: int)
      modifies this`sessions, this`commands
      ensures Db() == P.CloseSession(old(Db()), s, now)
      ensures s !in old(sessions) || old(sessions[s].status == Closed || sessions[s].status == Failed) ==> Db() == old(Db())
      ensures s in old(sessions) && old(sessions[s].status == Pending || sessions[s].status == Active) ==>
        var session := old(sessions)[s];
        && sessions == old(sessions)[s := session.(status := Closed, disconnectedAt := Some(now))]
        && commands == old(commands) + if old(P.HasOpenRemove(Db(), s)) then []
                                       else [Command(session.node, RemovePeer, Some(s), session.key, session.ip, Queued, 0, 0)]
    {
      if s !in sessions || !Live(sessions[s]) { return; }
      var alreadyQueued := HasOpenCommand(s);
      if !alreadyQueued {
        commands := commands + [P.RemoveCommand(s, sessions[s])];
      }
      sessions := sessions[s := P.Dead(sessions[s], Closed, now)];
    }

    /** Closes every live session in scope and returns how many; `order` is the order the rows came in. */
    method CloseSessionsInTransaction(scope: P.Scope, now: int) returns (closed: nat, ghost order: seq<nat>)
      modifies this`sessions, this`commands
      ensures P.Enumerates(order, P.LiveInScope(old(Db()), scope)) && closed == |order|
      ensures Db() == P.CloseTogether(old(Db()), order, now)
    {
      var rows := set s | s in sessions && Live(sessions[s]) && P.InScope(sessions[s], scope);
      var found := Fetched(rows);
      assert rows == set s | s in found;
      var removals := P.Removals(sessions, found);
      sessions := P.CloseRows(sessions, rows, now);
      commands := P.AbortAdds(commands, rows);
      commands := commands + removals;
      order, closed := found, |found|;
    }

    /**
     * Hands the oldest waiting commands of node `n` to its agent, at most 50 at a time, after failing
     * the setups of sessions that are no longer live: run without interruption, no such setup is handed out.
     */
    method ClaimPendingCommands(n: nat, limit: int, now: int) returns (batch: seq<nat>)
      modifies this`commands
      ensures Db() == P.Claim(old(Db()), n, limit, now)
      ensures |commands| == |old(commands)| && forall a, b :: 0 <= a < b < |batch| ==> batch[a] < batch[b]
      ensures forall i :: i in batch ==> i < |commands|
      ensures forall i :: 0 <= i < |commands| ==>
        var c := old(commands)[i];
        commands[i] == if i in batch then c.(status := Delivered, attempts := c.attempts + 1, deliveredAt := now)
                       else if IsDeadSetup(sessions, c, n) then c.(status := Aborted) else c
      ensures forall i :: i in batch ==>
        old(commands)[i].node == n && old(commands)[i].status == Queued && !IsDeadSetup(sessions, old(commands)[i], n)
      ensures |batch| <= P.BatchSize(limit) && forall i :: 0 <= i < |commands| && commands[i].node == n && commands[i].status == Queued ==>
        |batch| == P.BatchSize(limit) && forall j :: j in batch ==> j < i
    {
      ghost var before := Db();
      var dead := DeadSetups(sessions, commands, n);
      commands := WithStatus(commands, dead, Aborted);
      batch := OldestWaiting(commands, n, limit);
      ClaimedInTwo(before, n, limit, now, dead, batch);
      commands := Deliver(commands, batch, now);
    }

    /**
     * The acknowledgement handler: an open command gets its verdict, a session that waits for its setup
     * becomes ACTIVE or FAILED, and the address is free again when the node says that no peer uses it.
     */
    method AcknowledgeCommand(n: nat, i: nat, ok: bool, now: int) returns (found: bool)
      modifies this`sessions, this`commands, this`leases
      ensures found <==> i < |old(commands)| && old(commands)[i].node == n
      ensures !found ==> Db() == old(Db())
      ensures found ==> Db() == Acked(old(Db()), i, ok, now)
    {
      if i >= |commands| || commands[i].node != n { return false; }
      ghost var before := Db();
      var c := commands[i];
      if Open(c) {
        commands := commands[i := c.(status := P.Verdict(ok))];
      }
      ghost var answered := Db();
      SettledInTwo(before, i, ok, now);
      assert answered == Answered(before, i, ok);
      if c.session.Some? {
        var s := c.session.value;
        if c.kind.AddPeer? {
          var pending := s in sessions && sessions[s].status.Pending?;
          if ok {
            if pending { sessions := sessions[s := sessions[s].(status := Active)]; }
          } else {
            if pending { sessions := sessions[s := P.Dead(sessions[s], Failed, now)]; }
            FreeLeaseOf(s);
          }
          AckedSetup(answered, i, ok, now, s);
        }
        if c.kind.RemovePeer? && ok { FreeLeaseOf(s); }
      }
      return true;
    }

    method FreeLeaseOf(s: nat)
      modifies this`leases
      ensures Db() == P.ReleaseLease(old(Db()), s)
    {
      leases := map l | l in leases :: if leases[l] == Some(s) then None else leases[l];
    }

    /** Sends unacknowledged commands round again, or fails those that had all their attempts. */
    method RequeueStaleCommands(cutoff: int, maxAttempts: nat) returns (requeued: nat, failed: nat)
      modifies this`commands
      ensures Db() == P.RequeueStale(old(Db()), cutoff, maxAttempts)
      ensures |commands| == |old(commands)|
      ensures forall i :: 0 <= i < |commands| ==>
        var c := old(commands)[i];
        commands[i] == if c.status == Delivered && c.deliveredAt < cutoff
                       then c.(status := if c.attempts < maxAttempts then Queued else Aborted) else c
      ensures requeued == |set i | 0 <= i < |commands| && commands[i] != old(commands)[i] && commands[i].status == Queued|
      ensures failed == |set i | 0 <= i < |commands| && commands[i] != old(commands)[i] && commands[i].status == Aborted|
    {
      ghost var before := Db();
      var again := Retriable(commands, cutoff, maxAttempts);
      commands := WithStatus(commands, again, Queued);
      var given := Exhausted(commands, cutoff, maxAttempts);
      commands := WithStatus(commands, given, Aborted);
      SweptInTwo(before, cutoff, maxAttempts, again, given);
      requeued, failed := |again|, |given|;
    }

    /** Run without interruption, the monitor's reclaim frees leases of sessions that ended before `cutoff` only. */
    method ReclaimLeases(cutoff: int) returns (reclaimed: nat)
      modifies this`leases
      ensures Db() == P.FreeLeases(old(Db()), P.StaleLeases(old(Db()), cutoff))
      ensures reclaimed == |P.StaleLeases(old(Db()), cutoff)|
      ensures leases.Keys == old(leases).Keys && forall l :: l in leases ==>
        leases[l] == if EndedBefore(old(leases)[l], sessions, cutoff) then None else old(leases)[l]
      ensures reclaimed == |set l | l in leases && leases[l] != old(leases)[l]|
    {
      var stale := set l | l in leases && leases[l].Some? && leases[l].value in sessions && P.LongDead(sessions[leases[l].value], cutoff);
      reclaimed := |stale|;
      if reclaimed > 0 {
        leases := map l | l in leases :: if l in stale then None else leases[l];
      }
      assert stale == set l | l in leases && leases[l] != old(leases)[l];
    }
  
    /**
     * One tick of the monitor: closes every live session that must not stay open, sends stale commands
     * round again, reclaims old leases. `others` are the sessions closed for reasons outside these
     * tables: an unpaid tier, a spent allowance, a node disabled or silent for too long.
     */
    method MonitorTick(others: set<nat>, now: int, cutoff: int, reclaimCutoff: int)
      returns (closed: nat, requeued: nat, failed: nat, reclaimed: nat, ghost order: seq<nat>)
      modifies this
      ensures P.Enumerates(order, Doomed(old(Db()), others)) && closed == |order|
      ensures sessions.Keys == old(sessions).Keys
      ensures forall s :: s in sessions ==>
        var before := old(sessions)[s];
        var stays := old(MayStay(maintenance, users, nodes, devices, sessions[s])) && s !in others;
        sessions[s] == if before.status == Closed || before.status == Failed || stays then before
                       else before.(status := Closed, disconnectedAt := Some(now))
      ensures
        var swept := P.RequeueStale(CloseEach(old(Db()), order, now), cutoff, 5);
        Db() == P.FreeLeases(swept, P.StaleLeases(swept, reclaimCutoff))
    {
      ghost var before := Db();
      var doomed := set s | s in sessions && Live(sessions[s]) && HasReason(maintenance, users, nodes, devices, sessions[s], s in others);
      var found := Fetched(doomed);
      for i := 0 to |found|
        invariant Db() == CloseEach(before, found[..i], now)
      {
        CloseSession(found[i], now);
        assert found[..i + 1][..i] == found[..i];
      }
      assert found[..|found|] == found;
      order, closed := found, |found|;
      NothingDoomedStaysOpen(before, others, found, now);
      requeued, failed := RequeueStaleCommands(cutoff, 5);
      reclaimed := ReclaimLeases(reclaimCutoff);
    }
  }

  /** Nothing in the tables speaks against a session: no maintenance, an active account, an active device. */
  predicate MayStay(maintenance: bool, users: map<nat, User>, nodes: map<nat, Node>, devices: map<nat, Device>, session: Session) {
    && !maintenance && (session.node in nodes ==> !nodes[session.node].maintenance)
    && session.user in users && users[session.user].active
    && session.device in devices && devices[session.device].active
  }

  /** Why the monitor closes a live session; `other` says that a reason outside these tables applies. */
  predicate HasReason(maintenance: bool, users: map<nat, User>, nodes: map<nat, Node>, devices: map<nat, Device>, session: Session, other: bool) {
    || maintenance || (session.node in nodes && nodes[session.node].maintenance)
    || session.user !in users || !users[session.user].active
    || session.device !in devices || !devices[session.device].active
    || other
  }

  function Doomed(db: P.Db, others: set<nat>): set<nat> {
    set s | s in db.sessions && Live(db.sessions[s]) && HasReason(db.maintenance, db.users, db.nodes, db.devices, db.sessions[s], s in others)
  }

  function CloseEach(db: P.Db, order: seq<nat>, now: int): P.Db {
    if order == [] then db else P.CloseSession(CloseEach(db, order[..|order| - 1], now), order[|order| - 1], now)
  }

  /** Closing sessions one by one closes exactly those, leaves an open removal for each, and touches nothing else. */
  lemma {:induction false} EachIsClosed(db: P.Db, order: seq<nat>, now: int)
    requires forall i :: 0 <= i < |order| ==> order[i] in db.sessions && Live(db.sessions[order[i]])
    ensures
      var after := CloseEach(db, order, now);
      && after == db.(sessions := after.sessions, commands := after.commands)
      && after.sessions.Keys == db.sessions.Keys
      && (forall s :: s in db.sessions ==> after.sessions[s] == if s in order then P.Dead(db.sessions[s], Closed, now) else db.sessions[s])
      && |db.commands| <= |after.commands| && after.commands[..|db.commands|] == db.commands
      && (forall i :: 0 <= i < |order| ==> P.HasOpenRemove(after, order[i]))
  {
    if order != [] {
      var front, last := order[..|order| - 1], order[|order| - 1];
      EachIsClosed(db, front, now);
      var before, after := CloseEach(db, front, now), CloseEach(db, order, now);
      assert order == front + [last];
      OneIsClosed(before, last, now);
      if last in front {
        assert after == before;
      }
      forall i | 0 <= i < |order| ensures P.HasOpenRemove(after, order[i]) {
        if i < |front| {
          assert front[i] == order[i];
          OpenRemovesStay(before, after, order[i]);
        } else if last in front {
          var j :| 0 <= j < |front| && front[j] == last;
        }
      }
    }
  }

  lemma OpenRemovesStay(before: P.Db, after: P.Db, s: nat)
    requires P.HasOpenRemove(before, s)
    requires |before.commands| <= |after.commands| && after.commands[..|before.commands|] == before.commands
    ensures P.HasOpenRemove(after, s)
  {
    var i :| 0 <= i < |before.commands| && P.IsRemoveOf(before.commands[i], s) && Open(before.commands[i]);
    assert after.commands[..|before.commands|][i] == after.commands[i];
  }

  lemma OneIsClosed(db: P.Db, s: nat, now: int)
    requires s in db.sessions
    ensures
      var after := P.CloseSession(db, s, now);
      && after == db.(sessions := after.sessions, commands := after.commands)
      && after.sessions == (if Live(db.sessions[s]) then db.sessions[s := P.Dead(db.sessions[s], Closed, now)] else db.sessions)
      && |db.commands| <= |after.commands| && after.commands[..|db.commands|] == db.commands
      && (Live(db.sessions[s]) ==> P.HasOpenRemove(after, s))
  {
    var after := P.CloseSession(db, s, now);
    if Live(db.sessions[s]) && !P.HasOpenRemove(db, s) {
      var i := |db.commands|;
      assert P.IsRemoveOf(after.commands[i], s) && Open(after.commands[i]);
    }
  }

  /** After a tick's closes nothing is live that the monitor had a reason to close, and every one of those has its removal queued. */
  lemma NothingDoomedStaysOpen(db: P.Db, others: set<nat>, order: seq<nat>, now: int)
    requires P.Enumerates(order, Doomed(db, others))
    ensures
      var after := CloseEach(db, order, now);
      && after.sessions.Keys == db.sessions.Keys
      && (forall s :: s in db.sessions ==>
            var before := db.sessions[s];
            var stays := MayStay(db.maintenance, db.users, db.nodes, db.devices, before) && s !in others;
            after.sessions[s] == if before.status == Closed || before.status == Failed || stays then before
                                 else before.(status := Closed, disconnectedAt := Some(now)))
      && (forall s :: s in db.sessions && db.sessions[s] != after.sessions[s] ==> P.HasOpenRemove(after, s))
      && Doomed(after, others) == {}
  {
    var after := CloseEach(db, order, now);
    forall i | 0 <= i < |order| ensures order[i] in db.sessions && Live(db.sessions[order[i]]) {
      assert order[i] in order;
    }
    EachIsClosed(db, order, now);
    forall s | s in order ensures P.HasOpenRemove(after, s) {
      var i :| 0 <= i < |order| && order[i] == s;
    }
  }
}
