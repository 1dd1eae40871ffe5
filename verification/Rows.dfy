/** The rows of the control plane's tables that the session protocol reads and writes. */
module Rows {
  datatype Option<+T> = None | Some(value: T)

  datatype Result<+T, +E> = Ok(value: T) | Err(error: E)

  datatype SessionStatus = Pending | Active | Closed | Failed

  /** `key` is the WireGuard key the session was opened with, `ip` its assigned tunnel address. */
  datatype Session = Session(
    user: nat, device: nat, node: nat, ip: nat, key: nat,
    status: SessionStatus, disconnectedAt: Option<int>)

  datatype CommandKind = AddPeer | RemovePeer | Sync

  /** `Queued` is the PENDING status of a command row and `Aborted` its FAILED status. */
  datatype CommandStatus = Queued | Delivered | Done | Aborted

  datatype Command = Command(
    node: nat, kind: CommandKind, session: Option<nat>, key: nat, ip: nat,
    status: CommandStatus, attempts: nat, deliveredAt: int)

  datatype User = User(active: bool, maxSessions: int)

  /** `online` abbreviates "heartbeat fresh, and reported peers below capacity". */
  datatype Node = Node(maintenance: bool, online: bool, tier: int, capacity: int)

  datatype Device = Device(user: nat, key: nat, active: bool, tokenVersion: nat)

  /** The part of a resolved entitlement that opening a session depends on. */
  datatype Plan = Plan(tier: int, maxSessions: int)

  const SESSION_LIMIT_CEILING := 20

  predicate Live(s: Session) {
    s.status.Pending? || s.status.Active?
  }

  predicate Open(c: Command) {
    c.status.Queued? || c.status.Delivered?
  }

  function Max(a: int, b: int): int {
    if a > b then a else b
  }

  function Min(a: int, b: int): int {
    if a < b then a else b
  }

  function EffectiveSessionLimit(user: User): int {
    Max(1, Min(user.maxSessions, SESSION_LIMIT_CEILING))
  }

  /** The sessions an account may hold: the largest of one, its plan's number, and its own up to 20. */
  function Allowance(user: User, plan: Plan): (allowed: int)
    ensures allowed >= 1 && allowed >= plan.maxSessions && (allowed >= user.maxSessions || allowed >= 20)
    ensures allowed == 1 || allowed == plan.maxSessions || (allowed <= user.maxSessions && allowed <= 20)
  {
    Max(EffectiveSessionLimit(user), plan.maxSessions)
  }

  function LiveOfUser(sessions: map<nat, Session>, u: nat): set<nat> {
    set s | s in sessions && Live(sessions[s]) && sessions[s].user == u
  }

  function LiveOfDevice(sessions: map<nat, Session>, d: nat): set<nat> {
    set s | s in sessions && Live(sessions[s]) && sessions[s].device == d
  }

  function LiveOfNode(sessions: map<nat, Session>, n: nat): set<nat> {
    set s | s in sessions && Live(sessions[s]) && sessions[s].node == n
  }
}
