/** A small installation for concrete runs: one node, three devices of one user, a pool of one or two addresses. */
module Scene {
  import opened Rows
  import opened Plane
  import opened Protocol

  const FREE := Plan(0, 1)
  const USERS := map[0 := User(true, 5)]
  const NODES := map[0 := Node(false, true, 0, 50)]
  const DEVICES := map[0 := Device(0, 10, true, 0), 1 := Device(0, 11, true, 0), 2 := Device(0, 12, true, 0)]
  const SNAPSHOTS: map<(nat, nat), nat> := map[(0, 0) := 10, (1, 0) := 11, (2, 0) := 12]

  const ONE: map<Lease, Option<nat>> := map[(0, 1) := None]
  const TWO: map<Lease, Option<nat>> := map[(0, 1) := None, (0, 2) := None]

  /** The installation with these tables, nothing under way and no peers. */
  function At(leases: map<Lease, Option<nat>>, sessions: map<nat, Session>, next: nat, commands: seq<Command>): Sys {
    Sys(Db(false, USERS, NODES, DEVICES, sessions, next, leases, commands),
        SNAPSHOTS, map[], map[], map[], map[], map[], map[], map[])
  }

  function Ready(pool: map<Lease, Option<nat>>): Sys {
    At(pool, map[], 0, [])
  }

  /** A session of the device, which has the key 10 plus its number. */
  function Of(device: nat, ip: nat, status: SessionStatus): Session {
    Session(0, device, 0, ip, 10 + device, status, if status.Closed? then Some(0) else None)
  }

  function Add(s: nat, device: nat, ip: nat, status: CommandStatus, attempts: nat, at: int): Command {
    Command(0, AddPeer, Some(s), 10 + device, ip, status, attempts, at)
  }

  function Remove(s: nat, device: nat, ip: nat, status: CommandStatus, attempts: nat, at: int): Command {
    Command(0, RemovePeer, Some(s), 10 + device, ip, status, attempts, at)
  }

  /** Who holds the only address, and the first session before and after its end. */
  const FIRST := map[(0, 1) := Some(0)]
  const OTHER := map[(0, 1) := Some(1)]
  const WAITING := map[0 := Of(0, 1, Pending)]
  const ENDED := map[0 := Of(0, 1, Closed)]

  /** Who holds the two addresses. */
  const LEASED := map[(0, 1) := Some(0), (0, 2) := None]
  const FULL := map[(0, 1) := Some(0), (0, 2) := Some(1)]
  const FREED := map[(0, 1) := None, (0, 2) := Some(1)]

  lemma SnapshotsFit()
    ensures SNAPSHOTS.Keys == set d | d in DEVICES :: (d, DEVICES[d].tokenVersion)
    ensures forall d :: d in DEVICES ==> SNAPSHOTS[(d, DEVICES[d].tokenVersion)] == DEVICES[d].key
    ensures forall d, e :: d in DEVICES && e in DEVICES && DEVICES[d].key == DEVICES[e].key ==> d == e
  {
    assert SNAPSHOTS.Keys == {(0, 0), (1, 0), (2, 0)};
    assert (set d | d in DEVICES :: (d, DEVICES[d].tokenVersion)) == {(0, 0), (1, 0), (2, 0)} by {
      assert forall d :: d in DEVICES ==> DEVICES[d].tokenVersion == 0;
      assert 0 in DEVICES && 1 in DEVICES && 2 in DEVICES;
    }
  }

  lemma ReadyIsInstalled(pool: map<Lease, Option<nat>>)
    requires pool == ONE || pool == TWO
    ensures Installed(Ready(pool))
  {
    SnapshotsFit();
  }

  // ------------------------------------------------ what a step writes -----

  function Queueing(sys: Sys, commands: seq<Command>): Sys {
    sys.(db := sys.db.(commands := commands))
  }

  function Opening(sys: Sys, s: nat, session: Session): Sys {
    sys.(db := sys.db.(
      sessions := sys.db.sessions[s := session], nextSession := s + 1,
      leases := sys.db.leases[(0, session.ip) := Some(s)],
      commands := sys.db.commands + [Add(s, session.device, session.ip, Queued, 0, 0)]))
  }

  predicate Here(sys: Sys) {
    && !sys.db.maintenance && sys.db.users == USERS && sys.db.nodes == NODES && sys.db.devices == DEVICES
    && sys.snapshots == SNAPSHOTS
  }

  /** A connect of `device`, which has no live session, when `ip` is the first free address. */
  lemma Opens(sys: Sys, device: nat, ip: nat)
    requires Here(sys) && device < 3 && LiveOfDevice(sys.db.sessions, device) == {} && |sys.db.sessions| < 5
    requires sys.db.nextSession !in sys.db.sessions && IsLeast(ip, FreeAddresses(sys.db, 0))
    ensures Apply(sys, Connect(0, device, 0, 0, FREE)) == Opening(sys, sys.db.nextSession, Of(device, ip, Pending))
  {
    assert (device, 0) in sys.snapshots && sys.snapshots[(device, 0)] == 10 + device;
    Created(sys, device, ip);
  }

  lemma Created(sys: Sys, device: nat, ip: nat)
    requires Here(sys) && device < 3 && LiveOfDevice(sys.db.sessions, device) == {} && |sys.db.sessions| < 5
    requires sys.db.nextSession !in sys.db.sessions && IsLeast(ip, FreeAddresses(sys.db, 0))
    ensures CreateSession(sys.db, 0, device, 0, 10 + device, 0, FREE) == Ok(Opening(sys, sys.db.nextSession, Of(device, ip, Pending)).db)
  {
    MayConnect(sys, device);
    assert sys.db.devices[device].key == 10 + device;
    assert FirstAddress(FreeAddresses(sys.db, 0)) == ip;
  }

  lemma MayConnect(sys: Sys, device: nat)
    requires Here(sys) && device < 3 && LiveOfDevice(sys.db.sessions, device) == {} && |sys.db.sessions| < 5
    requires sys.db.nextSession !in sys.db.sessions && FreeAddresses(sys.db, 0) != {}
    ensures CreateSession(sys.db, 0, device, 0, 10 + device, 0, FREE).Ok?
  {
    FewAreLive(sys.db.sessions);
    assert Admissible(sys.db, 0, device, 0, 0, FREE);
    ConnectAdmits(sys.db, 0, device, 0, 10 + device, 0, FREE);
  }

  lemma FewAreLive(sessions: map<nat, Session>)
    requires |sessions| < 5
    ensures |LiveOfUser(sessions, 0)| < 5 && |LiveOfNode(sessions, 0)| < 5
  {
    SubsetIsSmaller(LiveOfUser(sessions, 0), sessions.Keys);
    SubsetIsSmaller(LiveOfNode(sessions, 0), sessions.Keys);
    assert |sessions.Keys| == |sessions|;
  }

  lemma {:induction false} SubsetIsSmaller(a: set<nat>, b: set<nat>)
    requires a <= b
    ensures |a| <= |b|
  {
    if a != {} {
      var x :| x in a;
      SubsetIsSmaller(a - {x}, b - {x});
    }
  }

  // ------------------------------------------------ how the runs begin -----

  /** The first device has connected, its setup is claimed, and then delivered. */
  const OPENED := At(FIRST, WAITING, 1, [Add(0, 0, 1, Queued, 0, 0)])
  const CLAIMED := At(FIRST, WAITING, 1, [Add(0, 0, 1, Queued, 0, 0)]).(claimers := map[8 := 0])
  const HANDED := At(FIRST, WAITING, 1, [Add(0, 0, 1, Delivered, 1, 1)])

  const OPENED_OF_TWO := At(LEASED, WAITING, 1, [Add(0, 0, 1, Queued, 0, 0)])
  const CLAIMED_OF_TWO := At(LEASED, WAITING, 1, [Add(0, 0, 1, Queued, 0, 0)]).(claimers := map[8 := 0])
  const HANDED_OF_TWO := At(LEASED, WAITING, 1, [Add(0, 0, 1, Delivered, 1, 1)])

  /** A closeSession has read the first session and found no removal open. */
  const ASKED := At(FIRST, WAITING, 1, [Add(0, 0, 1, Queued, 0, 0)]).(closers := map[9 := Reading(0)])
  const CHECKED := At(FIRST, WAITING, 1, [Add(0, 0, 1, Queued, 0, 0)]).(closers := map[9 := Enqueuing(0)])

  lemma FirstOpens()
    ensures Apply(Ready(ONE), Connect(0, 0, 0, 0, FREE)) == OPENED
  {
    assert FreeAddresses(Ready(ONE).db, 0) == {1};
    Opens(Ready(ONE), 0, 1);
  }

  lemma FirstIsClaimed()
    ensures Apply(OPENED, OnQueue(ClaimCancel(8, 0))) == CLAIMED
    ensures Apply(CLAIMED, OnQueue(ClaimTake(8, 1))) == HANDED
  {
    assert CancelDead(OPENED.db, 0).commands == OPENED.db.commands;
    assert AheadOf(CLAIMED.db.commands, 0, 0) == 0;
    assert TakeOldest(CLAIMED.db, 0, CLAIM_LIMIT, 1).commands == HANDED.db.commands;
  }

  lemma FirstOpensOfTwo()
    ensures Apply(Ready(TWO), Connect(0, 0, 0, 0, FREE)) == OPENED_OF_TWO
  {
    assert FreeAddresses(Ready(TWO).db, 0) == {1, 2};
    Opens(Ready(TWO), 0, 1);
  }

  lemma FirstIsClaimedOfTwo()
    ensures Apply(OPENED_OF_TWO, OnQueue(ClaimCancel(8, 0))) == CLAIMED_OF_TWO
    ensures Apply(CLAIMED_OF_TWO, OnQueue(ClaimTake(8, 1))) == HANDED_OF_TWO
  {
    assert CancelDead(OPENED_OF_TWO.db, 0).commands == OPENED_OF_TWO.db.commands;
    assert AheadOf(CLAIMED_OF_TWO.db.commands, 0, 0) == 0;
    assert TakeOldest(CLAIMED_OF_TWO.db, 0, CLAIM_LIMIT, 1).commands == HANDED_OF_TWO.db.commands;
  }

  lemma CloseBegins()
    ensures Apply(OPENED, OnClose(CloserRead(9, 0))) == ASKED
    ensures Apply(ASKED, OnClose(CloserCheck(9))) == CHECKED
  {
    assert OPENED.closers[9 := Reading(0)] == ASKED.closers;
    assert ASKED.closers[9 := Enqueuing(0)] == CHECKED.closers && !HasOpenRemove(ASKED.db, 0);
  }
}
