/**
 * What each statement, transaction and handler of the control plane does to the database.
 *
 * Every function maps the committed database before the statement to the committed database
 * after it. Commands are kept in creation order: the index of a command is its place in the queue.
 */
module Plane {
  import opened Rows

  /** A lease row is named by its unique (node, address) pair and holds the session that uses it. */
  type Lease = (nat, nat)

  datatype Db = Db(
    maintenance: bool,
    users: map<nat, User>,
    nodes: map<nat, Node>,
    devices: map<nat, Device>,
    sessions: map<nat, Session>,
    nextSession: nat,
    leases: map<Lease, Option<nat>>,
    commands: seq<Command>)

  predicate IsLive(db: Db, s: nat) {
    s in db.sessions && Live(db.sessions[s])
  }

  // ------------------------------------------------------------- connect ----

  datatype ConnectError =
    | UserRefused | DeviceRevoked | NodeUnavailable | TierTooLow | Maintenance
    | SessionLimit | DeviceBusy | NodeFull | NoAddress

  function FreeAddresses(db: Db, n: nat): set<nat> {
    set l | l in db.leases && l.0 == n && db.leases[l].None? :: l.1
  }

  ghost predicate IsLeast(x: nat, xs: set<nat>) {
    x in xs && forall y :: y in xs ==> x <= y
  }

  lemma {:induction false} LeastExists(xs: set<nat>) returns (least: nat)
    requires xs != {}
    ensures IsLeast(least, xs)
    decreases |xs|
  {
    var x :| x in xs;
    least := x;
    if xs - {x} != {} {
      var m := LeastExists(xs - {x});
      least := if x <= m then x else m;
    }
    forall y | y in xs ensures least <= y {
      if y != x { assert y in xs - {x}; }
    }
  }

  /** The free address that comes first in the database's order of addresses. */
  function FirstAddress(xs: set<nat>): (least: nat)
    requires xs != {}
    ensures IsLeast(least, xs)
  {
    assert exists x :: IsLeast(x, xs) by { var x := LeastExists(xs); }
    var x :| x in xs && forall y :: y in xs ==> x <= y;
    x
  }

  /**
   * The transaction that opens a session: every check is repeated on the committed rows, the
   * first free lease is taken, and the session row and its ADD_PEER are written together.
   * `version` and `key` are what the caller read from the device row when it authenticated.
   */
  function CreateSession(db: Db, u: nat, d: nat, version: nat, key: nat, n: nat, plan: Plan)
    : Result<Db, ConnectError>
  {
    if u !in db.users || !db.users[u].active then Err(UserRefused)
    else if d !in db.devices || !db.devices[d].active || db.devices[d].tokenVersion != version then Err(DeviceRevoked)
    else if n !in db.nodes then Err(NodeUnavailable)
    else if plan.tier < db.nodes[n].tier then Err(TierTooLow)
    else if db.maintenance || db.nodes[n].maintenance then Err(Maintenance)
    else if !db.nodes[n].online then Err(NodeUnavailable)
    else if |LiveOfUser(db.sessions, u)| >= Allowance(db.users[u], plan) then Err(SessionLimit)
    else if LiveOfDevice(db.sessions, d) != {} then Err(DeviceBusy)
    else if |LiveOfNode(db.sessions, n)| >= db.nodes[n].capacity then Err(NodeFull)
    else if FreeAddresses(db, n) == {} then Err(NoAddress)
    else
      var ip := FirstAddress(FreeAddresses(db, n));
      var s := db.nextSession;
      Ok(db.(
        sessions := db.sessions[s := Session(u, d, n, ip, key, Pending, None)],
        nextSession := s + 1,
        leases := db.leases[(n, ip) := Some(s)],
        commands := db.commands + [Command(n, AddPeer, Some(s), key, ip, Queued, 0, 0)]))
  }

  /** One session more than `live` is the only one, or within the plan's number, or within the account's and 20. */
  predicate HasRoom(user: User, plan: Plan, live: int) {
    live < 1 || live < plan.maxSessions || (live < user.maxSessions && live < 20)
  }

  /** Everything that must be so for a connect to succeed. */
  predicate Admissible(db: Db, u: nat, d: nat, version: nat, n: nat, plan: Plan) {
    && u in db.users && db.users[u].active
    && d in db.devices && db.devices[d].active && db.devices[d].tokenVersion == version
    && n in db.nodes && db.nodes[n].online && db.nodes[n].tier <= plan.tier
    && !db.maintenance && !db.nodes[n].maintenance
    && HasRoom(db.users[u], plan, |LiveOfUser(db.sessions, u)|)
    && LiveOfDevice(db.sessions, d) == {}
    && |LiveOfNode(db.sessions, n)| < db.nodes[n].capacity
    && FreeAddresses(db, n) != {}
  }

  /**
   * A connect succeeds exactly when it is admissible. Then the account, the device and the node have
   * one live session more and stay within their limits, and the new session alone takes a lease, of an
   * address that was free, and is set up by the last command of the queue.
   */
  lemma ConnectAdmits(db: Db, u: nat, d: nat, version: nat, key: nat, n: nat, plan: Plan)
    requires db.nextSession !in db.sessions
    ensures CreateSession(db, u, d, version, key, n, plan).Ok? <==> Admissible(db, u, d, version, n, plan)
    ensures Admissible(db, u, d, version, n, plan) ==>
      var after, s := CreateSession(db, u, d, version, key, n, plan).value, db.nextSession;
      && LiveOfUser(after.sessions, u) == LiveOfUser(db.sessions, u) + {s}
      && |LiveOfUser(after.sessions, u)| <= Allowance(db.users[u], plan)
      && HasRoom(db.users[u], plan, |LiveOfUser(after.sessions, u)| - 1)
      && LiveOfDevice(after.sessions, d) == {s}
      && LiveOfNode(after.sessions, n) == LiveOfNode(db.sessions, n) + {s}
      && |LiveOfNode(after.sessions, n)| <= db.nodes[n].capacity
    ensures Admissible(db, u, d, version, n, plan) ==>
      var after, s := CreateSession(db, u, d, version, key, n, plan).value, db.nextSession;
      var l := (n, after.sessions[s].ip);
      && after.sessions == db.sessions[s := Session(u, d, n, l.1, key, Pending, None)]
      && l in db.leases && db.leases[l].None? && after.leases == db.leases[l := Some(s)]
      && |after.commands| == |db.commands| + 1 && after.commands[..|db.commands|] == db.commands
      && IsAddOf(after.commands[|db.commands|], s) && Waiting(after.commands[|db.commands|], n)
      && after.commands[|db.commands|].key == key && after.commands[|db.commands|].ip == l.1
  {
    if Admissible(db, u, d, version, n, plan) {
      var after := CreateSession(db, u, d, version, key, n, plan).value;
      assert after.sessions[db.nextSession].ip in FreeAddresses(db, n);
    }
  }

  /** Creates the lease rows of a node's pool; rows that exist already are skipped. */
  function EnsurePool(db: Db, n: nat, ips: set<nat>): Db {
    if exists l :: l in db.leases && l.0 == n then db
    else db.(leases := (map ip | ip in ips :: (n, ip) := None) + db.leases)
  }

  /** A node without lease rows gets one for each address, all free; nothing else changes, and a node that has some keeps them. */
  lemma PoolIsCreated(db: Db, n: nat, ips: set<nat>)
    ensures
      var after := EnsurePool(db, n, ips);
      && after == db.(leases := after.leases)
      && (forall l :: l in db.leases ==> l in after.leases && after.leases[l] == db.leases[l])
      && (forall l :: l in after.leases && l !in db.leases ==> l.0 == n && l.1 in ips && after.leases[l].None?)
      && ((exists l :: l in db.leases && l.0 == n) ==> after == db)
      && ((forall l :: l in db.leases ==> l.0 != n) ==> forall ip :: ip in ips ==> (n, ip) in after.leases)
  {
  }

  lemma {:induction false} Unused(ids: set<nat>) returns (p: nat)
    ensures forall q :: q in ids ==> q < p
  {
    p := 0;
    if ids != {} {
      var q :| q in ids;
      var r := Unused(ids - {q});
      p := if q < r then r else q + 1;
      assert forall x :: x in ids ==> x == q || x in ids - {q};
    }
  }

  // --------------------------------------------------------------- close ----

  predicate HasOpenRemove(db: Db, s: nat) {
    exists i :: 0 <= i < |db.commands| && IsRemoveOf(db.commands[i], s) && Open(db.commands[i])
  }

  predicate IsRemoveOf(c: Command, s: nat) {
    c.kind.RemovePeer? && c.session == Some(s)
  }

  predicate IsAddOf(c: Command, s: nat) {
    c.kind.AddPeer? && c.session == Some(s)
  }

  function RemoveCommand(s: nat, session: Session): Command {
    Command(session.node, RemovePeer, Some(s), session.key, session.ip, Queued, 0, 0)
  }

  /** closeSession, third statement: queue REMOVE_PEER. Fails on a row that was deleted meanwhile. */
  function EnqueueRemove(db: Db, s: nat): Db {
    if s !in db.sessions then db
    else db.(commands := db.commands + [RemoveCommand(s, db.sessions[s])])
  }

  function Dead(session: Session, status: SessionStatus, now: int): Session {
    session.(status := status, disconnectedAt := Some(now))
  }

  /** closeSession, last statement: the row is closed whatever its status has become. */
  function FinishClose(db: Db, s: nat, now: int): Db {
    if s !in db.sessions then db
    else db.(sessions := db.sessions[s := Dead(db.sessions[s], Closed, now)])
  }

  /** closeSession without interruption: removal queued unless one is open, row closed; ended sessions are left alone. */
  function CloseSession(db: Db, s: nat, now: int): Db {
    if s !in db.sessions || !Live(db.sessions[s]) then db
    else FinishClose(if HasOpenRemove(db, s) then db else EnqueueRemove(db, s), s, now)
  }

  datatype Scope = Everywhere | OnNode(node: nat) | OfDevice(device: nat)

  predicate InScope(session: Session, scope: Scope) {
    match scope
    case Everywhere => true
    case OnNode(n) => session.node == n
    case OfDevice(d) => session.device == d
  }

  function LiveInScope(db: Db, scope: Scope): set<nat> {
    set s | s in db.sessions && Live(db.sessions[s]) && InScope(db.sessions[s], scope)
  }

  /** The rows a query returns, in whatever order the database chose. */
  ghost predicate Enumerates(order: seq<nat>, rows: set<nat>) {
    && (forall s :: s in order <==> s in rows)
    && (forall i, j :: 0 <= i < j < |order| ==> order[i] != order[j])
  }

  function CloseRows(sessions: map<nat, Session>, rows: set<nat>, now: int): map<nat, Session> {
    map s | s in sessions :: if s in rows && Live(sessions[s]) then Dead(sessions[s], Closed, now) else sessions[s]
  }

  function AbortAdds(commands: seq<Command>, rows: set<nat>): seq<Command> {
    seq(|commands|, i requires 0 <= i < |commands| =>
      var c := commands[i];
      if c.kind.AddPeer? && c.status.Queued? && c.session.Some? && c.session.value in rows
      then c.(status := Aborted) else c)
  }

  function Removals(sessions: map<nat, Session>, order: seq<nat>): seq<Command>
    requires forall s :: s in order ==> s in sessions
  {
    seq(|order|, i requires 0 <= i < |order| => RemoveCommand(order[i], sessions[order[i]]))
  }

  /** closeSessionsInTransaction: rows closed, unclaimed ADD_PEERs failed, removals queued, atomically. */
  function CloseTogether(db: Db, order: seq<nat>, now: int): Db
    requires forall s :: s in order ==> s in db.sessions
  {
    var rows := set s | s in order;
    db.(sessions := CloseRows(db.sessions, rows, now),
        commands := AbortAdds(db.commands, rows) + Removals(db.sessions, order))
  }

  /**
   * A mass close ends exactly the live sessions of the node or the device, or all of them, and leaves
   * every other row and all leases as they were. It fails exactly the setups of those sessions that nobody
   * has claimed yet, and queues one removal for each at the end, with its node, key and address.
   */
  lemma ScopeIsClosed(db: Db, scope: Scope, order: seq<nat>, now: int)
    requires Enumerates(order, LiveInScope(db, scope))
    ensures
      var after := CloseTogether(db, order, now);
      && after == db.(sessions := after.sessions, commands := after.commands) && after.sessions.Keys == db.sessions.Keys
      && (scope.Everywhere? ==> forall s :: s in after.sessions ==> !Live(after.sessions[s]))
      && (scope.OnNode? ==> forall s :: s in db.sessions ==>
            Live(after.sessions[s]) == (Live(db.sessions[s]) && db.sessions[s].node != scope.node))
      && (scope.OfDevice? ==> forall s :: s in db.sessions ==>
            Live(after.sessions[s]) == (Live(db.sessions[s]) && db.sessions[s].device != scope.device))
      && (forall s :: s in db.sessions && Live(db.sessions[s]) == Live(after.sessions[s]) ==> after.sessions[s] == db.sessions[s])
      && (forall s :: s in db.sessions && Live(db.sessions[s]) != Live(after.sessions[s]) ==>
            after.sessions[s] == db.sessions[s].(status := Closed, disconnectedAt := Some(now)))
    ensures
      var after := CloseTogether(db, order, now);
      && |after.commands| == |db.commands| + |order|
      && (forall s :: s in order <==> s in db.sessions && Live(db.sessions[s]) && !Live(after.sessions[s]))
      && (forall i :: 0 <= i < |db.commands| ==>
            var c := db.commands[i];
            var fails := c.kind == AddPeer && c.status == Queued && c.session.Some? && c.session.value in order;
            after.commands[i] == if fails then c.(status := Aborted) else c)
      && (forall k :: 0 <= k < |order| ==>
            var session := db.sessions[order[k]];
            after.commands[|db.commands| + k] == Command(session.node, RemovePeer, Some(order[k]), session.key, session.ip, Queued, 0, 0))
  {
    var after := CloseTogether(db, order, now);
    forall k | 0 <= k < |order| ensures after.commands[|db.commands| + k] == RemoveCommand(order[k], db.sessions[order[k]]) {
      assert after.commands[|db.commands| + k] == Removals(db.sessions, order)[k];
    }
    forall i | 0 <= i < |db.commands| ensures after.commands[i] == AbortAdds(db.commands, set s | s in order)[i] {}
  }

  // --------------------------------------------------------------- queue ----

  /** An ADD_PEER that must not be delivered any more. */
  predicate Cancellable(db: Db, c: Command) {
    && c.kind.AddPeer? && c.status.Queued?
    && (c.session.None? || c.session.value !in db.sessions || !Live(db.sessions[c.session.value]))
  }

  /** A command the node has still to be given. */
  predicate Waiting(c: Command, n: nat) {
    c.node == n && c.status.Queued?
  }

  /** How many commands wait for node `n` strictly before position `i`. */
  function AheadOf(commands: seq<Command>, n: nat, i: nat): nat
    requires i <= |commands|
  {
    if i == 0 then 0 else AheadOf(commands, n, i - 1) + if Waiting(commands[i - 1], n) then 1 else 0
  }

  function BatchSize(limit: int): (size: nat)
    ensures 1 <= size <= 50 && (1 <= limit <= 50 ==> size == limit)
    ensures (limit < 1 ==> size == 1) && (limit > 50 ==> size == 50)
  {
    Min(Max(limit, 1), 50)
  }

  predicate Taken(commands: seq<Command>, n: nat, limit: int, i: nat) {
    i < |commands| && Waiting(commands[i], n) && AheadOf(commands, n, i) < BatchSize(limit)
  }

  /** claimPendingCommands, first statement: setups of sessions that are not live fail. */
  function CancelDead(db: Db, n: nat): Db {
    db.(commands := seq(|db.commands|, i requires 0 <= i < |db.commands| =>
      var c := db.commands[i];
      if c.node == n && Cancellable(db, c) then c.(status := Aborted) else c))
  }

  /** claimPendingCommands, the statements after: the oldest waiting rows are locked and delivered. */
  function TakeOldest(db: Db, n: nat, limit: int, now: int): Db {
    db.(commands := seq(|db.commands|, i requires 0 <= i < |db.commands| =>
      var c := db.commands[i];
      if Taken(db.commands, n, limit, i) then c.(status := Delivered, attempts := c.attempts + 1, deliveredAt := now)
      else c))
  }

  /** claimPendingCommands without interruption. */
  function Claim(db: Db, n: nat, limit: int, now: int): Db {
    TakeOldest(CancelDead(db, n), n, limit, now)
  }

  function Verdict(ok: bool): CommandStatus {
    if ok then Done else Aborted
  }

  /** completeCommand, the write: the row gets the verdict whatever its status has become. */
  function Complete(db: Db, i: nat, ok: bool): Db
    requires i < |db.commands|
  {
    db.(commands := db.commands[i := db.commands[i].(status := Verdict(ok))])
  }

  /** The session half of an ADD_PEER acknowledgement; both updates match PENDING rows only. */
  function SettleSession(db: Db, s: nat, ok: bool, now: int): Db {
    if s !in db.sessions || !db.sessions[s].status.Pending? then db
    else db.(sessions := db.sessions[s :=
      if ok then db.sessions[s].(status := Active) else Dead(db.sessions[s], Failed, now)])
  }

  function ReleaseLease(db: Db, s: nat): Db {
    db.(leases := map l | l in db.leases :: if db.leases[l] == Some(s) then None else db.leases[l])
  }

  function RequeueStale(db: Db, cutoff: int, maxAttempts: nat): Db {
    db.(commands := seq(|db.commands|, i requires 0 <= i < |db.commands| =>
      var c := db.commands[i];
      if !c.status.Delivered? || c.deliveredAt >= cutoff then c
      else c.(status := if c.attempts < maxAttempts then Queued else Aborted)))
  }

  function EnqueueSync(db: Db, n: nat): Db {
    db.(commands := db.commands + [Command(n, Sync, None, 0, 0, Queued, 0, 0)])
  }

  // -------------------------------------------------------------- leases ----

  predicate LongDead(session: Session, cutoff: int) {
    !Live(session) && session.disconnectedAt.Some? && session.disconnectedAt.value < cutoff
  }

  /** Monitor, first statement of the reclaim: the leases of sessions that ended before `cutoff`. */
  function StaleLeases(db: Db, cutoff: int): set<Lease> {
    set l | l in db.leases && db.leases[l].Some? && db.leases[l].value in db.sessions
      && LongDead(db.sessions[db.leases[l].value], cutoff)
  }

  /** Monitor, second statement: the selected rows are freed by id, whoever holds them by then. */
  function FreeLeases(db: Db, selected: set<Lease>): Db {
    db.(leases := map l | l in db.leases :: if l in selected then None else db.leases[l])
  }

  // ------------------------------------------------------------- devices ----

  predicate KeyFree(db: Db, key: nat) {
    forall d :: d in db.devices ==> db.devices[d].key != key
  }

  /** Deleting a device row cascades to its sessions and clears what referred to them. */
  function DeleteDevice(db: Db, d: nat): Db {
    var gone := set s | s in db.sessions && db.sessions[s].device == d;
    db.(devices := db.devices - {d},
        sessions := db.sessions - gone,
        leases := map l | l in db.leases ::
          if db.leases[l].Some? && db.leases[l].value in gone then None else db.leases[l],
        commands := seq(|db.commands|, i requires 0 <= i < |db.commands| =>
          var c := db.commands[i];
          if c.session.Some? && c.session.value in gone then c.(session := None) else c))
  }

  /** No row refers to a session of a deleted device any more, and nothing else changes. */
  lemma DeletionCascades(db: Db, d: nat)
    ensures
      var after := DeleteDevice(db, d);
      && after == db.(devices := db.devices - {d}, sessions := after.sessions, leases := after.leases, commands := after.commands)
      && (forall s :: s in after.sessions <==> s in db.sessions && db.sessions[s].device != d)
      && (forall s :: s in after.sessions ==> after.sessions[s] == db.sessions[s])
      && after.leases.Keys == db.leases.Keys && |after.commands| == |db.commands|
      && (forall l :: l in db.leases && after.leases[l] != db.leases[l] ==> after.leases[l].None?)
      && (forall l :: l in db.leases ==> (after.leases[l] == db.leases[l] <==>
            db.leases[l].None? || db.leases[l].value !in db.sessions || db.leases[l].value in after.sessions))
      && (forall i :: 0 <= i < |db.commands| ==>
            var c := db.commands[i];
            var gone := c.session.Some? && c.session.value in db.sessions && c.session.value !in after.sessions;
            after.commands[i] == if gone then c.(session := None) else c)
  {
  }
}
