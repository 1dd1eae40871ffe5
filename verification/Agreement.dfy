/**
 * When the peer table of a node agrees with the sessions of the control plane.
 *
 * The runs considered are those without loss, as Fifo describes them. Everything else - several closes of
 * one session at a time, reconnects, revocations, reports, the two statements of a claim and the four of
 * an acknowledgement - is interleaved freely.
 */
module Agreement {
  import opened Rows
  import opened Plane
  import opened Protocol
  import NoReturn
  import Exclusive
  import Leases
  import Keys
  import opened Fifo
  import opened Subjects

  /** A live session nobody has queued a removal for. */
  ghost predicate Wanted(db: Db, s: nat) {
    IsLive(db, s) && !Exclusive.RemovalIssued(db, s)
  }

  predicate RemovesKey(c: Command, n: nat, key: nat) {
    c.kind.RemovePeer? && c.node == n && c.key == key
  }

  ghost predicate OpenRemoval(db: Db, n: nat, key: nat) {
    exists r :: 0 <= r < |db.commands| && RemovesKey(db.commands[r], n, key) && Open(db.commands[r])
  }

  /** The command is DONE, or its success has been acknowledged and is about to be written. */
  ghost predicate CarriedOut(sys: Sys, a: nat) {
    a < |sys.db.commands| && (sys.db.commands[a].status.Done? || exists q :: IsWriting(sys, q, a, true))
  }

  /** The session's setup was carried out. */
  ghost predicate SetUp(sys: Sys, s: nat) {
    exists a :: 0 <= a < |sys.db.commands| && IsAddOf(sys.db.commands[a], s) && CarriedOut(sys, a)
  }

  ghost predicate Failing(sys: Sys, a: nat, s: nat) {
    exists q :: q in sys.ackers && sys.ackers[q] == Updating(a, s, false)
  }

  // ---------------------------------------------------------- invariants ----

  /** The setup has been carried out, is still to be, or has failed and is about to end the session. */
  ghost predicate Served(sys: Sys, a: nat, s: nat)
    requires a < |sys.db.commands|
  {
    var c := sys.db.commands[a];
    if CarriedOut(sys, a) then c.key in Table(sys, c.node) && Table(sys, c.node)[c.key] == c.ip
    else Open(c) || Failing(sys, a, s)
  }

  ghost predicate WantedAreServed(sys: Sys) {
    forall a, s :: 0 <= a < |sys.db.commands| && IsAddOf(sys.db.commands[a], s) && Wanted(sys.db, s) ==> Served(sys, a, s)
  }

  ghost predicate Explained(sys: Sys, n: nat, key: nat, ip: nat) {
    || OpenRemoval(sys.db, n, key)
    || exists s :: Wanted(sys.db, s) && sys.db.sessions[s].node == n && sys.db.sessions[s].key == key
         && sys.db.sessions[s].ip == ip && SetUp(sys, s)
  }

  ghost predicate PeersAreExplained(sys: Sys) {
    forall n, key :: key in Table(sys, n) ==> Explained(sys, n, key, Table(sys, n)[key])
  }

  /** No removal of somebody else's waits behind the setup of a live session with the same key. */
  ghost predicate Unopposed(db: Db) {
    forall a, r :: 0 <= a < r < |db.commands| && db.commands[a].kind.AddPeer? && db.commands[a].session.Some? ==>
      RemovesKey(db.commands[r], db.commands[a].node, db.commands[a].key) && IsLive(db, db.commands[a].session.value) ==>
      db.commands[r].session == db.commands[a].session
  }

  ghost predicate RemovalBehind(db: Db, a: nat)
    requires a < |db.commands|
  {
    exists r :: a < r < |db.commands| && RemovesKey(db.commands[r], db.commands[a].node, db.commands[a].key)
  }

  ghost predicate OpenAddsAreJustified(db: Db) {
    forall a :: 0 <= a < |db.commands| && db.commands[a].kind.AddPeer? && Open(db.commands[a]) ==>
      (db.commands[a].session.Some? && Wanted(db, db.commands[a].session.value)) || RemovalBehind(db, a)
  }

  ghost predicate RepliesAreSafe(sys: Sys) {
    forall n, s :: n in sys.replies && IsLive(sys.db, s) ==>
      sys.db.sessions[s].node == n && sys.db.sessions[s].key in sys.replies[n] ==> !SetUp(sys, s)
  }

  ghost predicate VerdictsAreRecorded(sys: Sys) {
    && (forall q :: q in sys.ackers && sys.ackers[q].Updating? ==>
          var a := sys.ackers[q];
          && a.command < |sys.db.commands|
          && sys.db.commands[a.command].kind.AddPeer?
          && (a.session in sys.db.sessions ==> sys.db.commands[a.command].session == Some(a.session))
          && a.session < sys.db.nextSession
          && sys.db.commands[a.command].status == if a.ok then Done else Aborted)
    && (forall a :: 0 <= a < |sys.db.commands| && sys.db.commands[a].kind.AddPeer? && sys.db.commands[a].session.Some? ==>
          var s := sys.db.commands[a].session.value;
          s in sys.db.sessions && sys.db.sessions[s].status.Active? ==> sys.db.commands[a].status.Done?)
  }

  ghost predicate FinishersHaveQueued(sys: Sys) {
    forall p :: p in sys.closers ==>
      && sys.closers[p].session < sys.db.nextSession
      && (sys.closers[p].Finishing? && sys.closers[p].session in sys.db.sessions ==>
            Exclusive.RemovalIssued(sys.db, sys.closers[p].session))
  }

  ghost predicate Queue(db: Db) {
    && Unopposed(db)
    && OpenAddsAreJustified(db)
  }

  ghost predicate WritersInRange(sys: Sys) {
    forall q, i: nat, ok :: IsWriting(sys, q, i, ok) ==> i < |sys.db.commands|
  }

  ghost predicate Peers(sys: Sys) {
    && WritersInRange(sys)
    && WantedAreServed(sys)
    && PeersAreExplained(sys)
    && RepliesAreSafe(sys)
  }

  ghost predicate Processes(sys: Sys) {
    && VerdictsAreRecorded(sys)
    && FinishersHaveQueued(sys)
    && Exclusive.RemovalsAreClosing(sys)
  }

  ghost predicate Inv(sys: Sys) {
    Structure(sys) && Queue(sys.db) && Peers(sys) && Processes(sys)
  }

  // ------------------------------------------------------------ framing -----

  lemma RemovalsStay(db: Db, after: Db)
    requires SameCommands(db, after)
    ensures forall s :: Exclusive.RemovalIssued(db, s) ==> Exclusive.RemovalIssued(after, s)
    ensures |after.commands| == |db.commands| ==> forall s :: Exclusive.RemovalIssued(after, s) ==> Exclusive.RemovalIssued(db, s)
  {
    forall s | Exclusive.RemovalIssued(db, s) ensures Exclusive.RemovalIssued(after, s) {
      var i :| 0 <= i < |db.commands| && IsRemoveOf(db.commands[i], s);
      assert IsRemoveOf(after.commands[i], s);
    }
    if |after.commands| == |db.commands| {
      forall s | Exclusive.RemovalIssued(after, s) ensures Exclusive.RemovalIssued(db, s) {
        var i :| 0 <= i < |after.commands| && IsRemoveOf(after.commands[i], s);
        assert IsRemoveOf(db.commands[i], s);
      }
    }
  }

  lemma RemovalsBehindStay(db: Db, after: Db)
    requires SameCommands(db, after)
    ensures forall a :: 0 <= a < |db.commands| && RemovalBehind(db, a) ==> RemovalBehind(after, a)
  {
    forall a | 0 <= a < |db.commands| && RemovalBehind(db, a) ensures RemovalBehind(after, a) {
      var r :| a < r < |db.commands| && RemovesKey(db.commands[r], db.commands[a].node, db.commands[a].key);
      assert RemovesKey(after.commands[r], after.commands[a].node, after.commands[a].key);
    }
  }

  lemma OpenRemovalsStay(db: Db, after: Db)
    requires |db.commands| <= |after.commands|
    requires forall i :: 0 <= i < |db.commands| && db.commands[i].kind.RemovePeer? && Open(db.commands[i]) ==>
      after.commands[i].kind.RemovePeer? && Open(after.commands[i])
      && after.commands[i].node == db.commands[i].node && after.commands[i].key == db.commands[i].key
    ensures forall n, key :: OpenRemoval(db, n, key) ==> OpenRemoval(after, n, key)
  {
    forall n, key | OpenRemoval(db, n, key) ensures OpenRemoval(after, n, key) {
      var r :| 0 <= r < |db.commands| && RemovesKey(db.commands[r], n, key) && Open(db.commands[r]);
      assert RemovesKey(after.commands[r], n, key) && Open(after.commands[r]);
    }
  }

  /** The same commands are done or about to be written as done. */
  lemma SetupsStay(sys: Sys, after: Sys)
    requires SameCommands(sys.db, after.db) && WritersInRange(sys)
    requires forall i :: 0 <= i < |sys.db.commands| ==> (after.db.commands[i].status.Done? <==> sys.db.commands[i].status.Done?)
    requires forall i :: |sys.db.commands| <= i < |after.db.commands| ==> !after.db.commands[i].status.Done?
    requires forall q, i, ok :: IsWriting(after, q, i, ok) <==> IsWriting(sys, q, i, ok)
    ensures WritersInRange(after)
    ensures forall a :: CarriedOut(after, a) <==> CarriedOut(sys, a)
    ensures forall s :: SetUp(after, s) <==> SetUp(sys, s)
  {
    forall a ensures CarriedOut(after, a) <==> CarriedOut(sys, a) {
      if q :| IsWriting(sys, q, a, true) { assert IsWriting(after, q, a, true); }
    }
    forall s ensures SetUp(after, s) <==> SetUp(sys, s) {
      if SetUp(sys, s) {
        var a :| 0 <= a < |sys.db.commands| && IsAddOf(sys.db.commands[a], s) && CarriedOut(sys, a);
        assert IsAddOf(after.db.commands[a], s);
      }
      if SetUp(after, s) {
        var a :| 0 <= a < |after.db.commands| && IsAddOf(after.db.commands[a], s) && CarriedOut(after, a);
        assert IsAddOf(sys.db.commands[a], s);
      }
    }
  }

  lemma SameSetUp(sys: Sys, after: Sys)
    requires after.db.commands == sys.db.commands && after.ackers == sys.ackers
    ensures forall q, i, ok :: IsWriting(after, q, i, ok) <==> IsWriting(sys, q, i, ok)
    ensures forall a :: CarriedOut(after, a) <==> CarriedOut(sys, a)
    ensures forall s :: SetUp(after, s) <==> SetUp(sys, s)
  {
    assert forall q, i, ok :: IsWriting(after, q, i, ok) == IsWriting(sys, q, i, ok);
    assert forall a :: CarriedOut(after, a) == CarriedOut(sys, a);
  }

  /**
   * When peer tables are not touched, they stay explained if whoever stops being wanted has an
   * open removal, and stay sufficient if setups of wanted sessions only move forward.
   */
  lemma ExplainedFrame(sys: Sys, after: Sys)
    requires PeersAreExplained(sys) && after.peers == sys.peers
    requires forall s :: Wanted(sys.db, s) && SetUp(sys, s) ==>
      if Wanted(after.db, s) then SetUp(after, s) && SameSession(sys.db, after.db, s)
      else OpenRemoval(after.db, sys.db.sessions[s].node, sys.db.sessions[s].key)
    requires forall n, key :: OpenRemoval(sys.db, n, key) ==> OpenRemoval(after.db, n, key)
    ensures PeersAreExplained(after)
  {
    forall n, key | key in Table(after, n) ensures Explained(after, n, key, Table(after, n)[key]) {
      assert Table(after, n) == Table(sys, n);
      var ip := Table(sys, n)[key];
      assert Explained(sys, n, key, ip);
      if !OpenRemoval(sys.db, n, key) {
        var s :| Wanted(sys.db, s) && sys.db.sessions[s].node == n && sys.db.sessions[s].key == key
          && sys.db.sessions[s].ip == ip && SetUp(sys, s);
        if Wanted(after.db, s) { assert after.db.sessions[s].key == key; }
      }
    }
  }

  lemma ServedFrame(sys: Sys, after: Sys)
    requires WantedAreServed(sys) && after.peers == sys.peers
    requires forall a, s :: 0 <= a < |after.db.commands| && IsAddOf(after.db.commands[a], s) && Wanted(after.db, s) ==>
      (Open(after.db.commands[a]) && !CarriedOut(after, a)) ||
      (a < |sys.db.commands| && IsAddOf(sys.db.commands[a], s) && Wanted(sys.db, s)
       && after.db.commands[a].node == sys.db.commands[a].node && after.db.commands[a].key == sys.db.commands[a].key
       && after.db.commands[a].ip == sys.db.commands[a].ip
       && (CarriedOut(after, a) <==> CarriedOut(sys, a))
       && (Open(sys.db.commands[a]) ==> Open(after.db.commands[a]))
       && (Failing(sys, a, s) ==> Failing(after, a, s)))
    ensures WantedAreServed(after)
  {
    forall a, s | 0 <= a < |after.db.commands| && IsAddOf(after.db.commands[a], s) && Wanted(after.db, s) ensures Served(after, a, s) {
      if !(Open(after.db.commands[a]) && !CarriedOut(after, a)) {
        assert Served(sys, a, s);
        assert Table(after, after.db.commands[a].node) == Table(sys, sys.db.commands[a].node);
      }
    }
  }

  lemma PeersFrame(sys: Sys, after: Sys)
    requires Peers(sys)
    requires after.peers == sys.peers && after.replies == sys.replies && WritersInRange(after)
    requires forall s :: IsLive(after.db, s) && SetUp(after, s) ==>
      IsLive(sys.db, s) && SetUp(sys, s) && SameSession(sys.db, after.db, s)
    requires forall s :: Wanted(sys.db, s) && SetUp(sys, s) ==>
      if Wanted(after.db, s) then SetUp(after, s) && SameSession(sys.db, after.db, s)
      else OpenRemoval(after.db, sys.db.sessions[s].node, sys.db.sessions[s].key)
    requires forall n, key :: OpenRemoval(sys.db, n, key) ==> OpenRemoval(after.db, n, key)
    requires forall a, s :: 0 <= a < |after.db.commands| && IsAddOf(after.db.commands[a], s) && Wanted(after.db, s) ==>
      (Open(after.db.commands[a]) && !CarriedOut(after, a)) ||
      (a < |sys.db.commands| && IsAddOf(sys.db.commands[a], s) && Wanted(sys.db, s)
       && after.db.commands[a].node == sys.db.commands[a].node && after.db.commands[a].key == sys.db.commands[a].key
       && after.db.commands[a].ip == sys.db.commands[a].ip
       && (CarriedOut(after, a) <==> CarriedOut(sys, a))
       && (Open(sys.db.commands[a]) ==> Open(after.db.commands[a]))
       && (Failing(sys, a, s) ==> Failing(after, a, s)))
    ensures Peers(after)
  {
    ExplainedFrame(sys, after);
    ServedFrame(sys, after);
  }

  /** The same processes, with live sessions, statuses and removals that do not contradict them. */
  lemma ProcessesFrame(sys: Sys, after: Sys)
    requires Processes(sys)
    requires after.closers == sys.closers && after.ackers == sys.ackers
    requires SameCommands(sys.db, after.db) && after.db.nextSession >= sys.db.nextSession
    requires forall i :: 0 <= i < |sys.db.commands| && !Open(sys.db.commands[i]) ==> after.db.commands[i].status == sys.db.commands[i].status
    requires forall i :: |sys.db.commands| <= i < |after.db.commands| && after.db.commands[i].session.Some? ==>
      after.db.commands[i].session.value !in after.db.sessions || !after.db.sessions[after.db.commands[i].session.value].status.Active?
    requires forall s :: s in after.db.sessions ==> s in sys.db.sessions || s >= sys.db.nextSession
    requires forall s :: s in after.db.sessions && s in sys.db.sessions ==>
      (Live(after.db.sessions[s]) ==> Live(sys.db.sessions[s])) && (after.db.sessions[s].status.Active? ==> sys.db.sessions[s].status.Active?)
    requires forall s :: s in after.db.sessions && s !in sys.db.sessions ==> after.db.sessions[s].status.Pending?
    requires forall s :: IsLive(after.db, s) && Exclusive.RemovalIssued(after.db, s) ==>
      s in sys.db.sessions && (Exclusive.RemovalIssued(sys.db, s) || Exclusive.BeingClosed(sys, s))
    ensures Processes(after)
  {
    RemovalsStay(sys.db, after.db);
    assert forall s :: Exclusive.BeingClosed(sys, s) ==> Exclusive.BeingClosed(after, s);
  }

  // -------------------------------------------------------- queue steps -----

  lemma CancelKeepsQueue(db: Db, n: nat)
    requires Queue(db)
    ensures Queue(CancelDead(db, n))
  {
    var after := CancelDead(db, n);
    RemovalsStay(db, after);
    RemovalsBehindStay(db, after);
  }

  lemma CancelKeepsPeers(sys: Sys, n: nat)
    requires Peers(sys)
    ensures Peers(sys.(db := CancelDead(sys.db, n)))
  {
    var after := sys.(db := CancelDead(sys.db, n));
    RemovalsStay(sys.db, after.db);
    OpenRemovalsStay(sys.db, after.db);
    SetupsStay(sys, after);
    assert forall s :: Wanted(after.db, s) == Wanted(sys.db, s);
    assert forall a, s :: Failing(sys, a, s) ==> Failing(after, a, s);
    PeersFrame(sys, after);
  }

  lemma CancelKeeps(sys: Sys, n: nat)
    requires Inv(sys)
    ensures Inv(sys.(db := CancelDead(sys.db, n)))
  {
    var after := sys.(db := CancelDead(sys.db, n));
    CancelKeepsStructure(sys, n);
    CancelKeepsQueue(sys.db, n);
    CancelKeepsPeers(sys, n);
    RemovalsStay(sys.db, after.db);
    ProcessesFrame(sys, after);
  }

  lemma TakeKeepsQueue(db: Db, n: nat, limit: int, now: int)
    requires Queue(db)
    ensures Queue(TakeOldest(db, n, limit, now))
  {
    var after := TakeOldest(db, n, limit, now);
    RemovalsStay(db, after);
    RemovalsBehindStay(db, after);
  }

  lemma TakeKeepsPeers(sys: Sys, n: nat, limit: int, now: int)
    requires Peers(sys)
    ensures Peers(sys.(db := TakeOldest(sys.db, n, limit, now)))
  {
    var after := sys.(db := TakeOldest(sys.db, n, limit, now));
    RemovalsStay(sys.db, after.db);
    OpenRemovalsStay(sys.db, after.db);
    SetupsStay(sys, after);
    assert forall s :: Wanted(after.db, s) == Wanted(sys.db, s);
    assert forall a, s :: Failing(sys, a, s) ==> Failing(after, a, s);
    PeersFrame(sys, after);
  }

  lemma TakeKeeps(sys: Sys, n: nat, limit: int, now: int)
    requires Inv(sys)
    ensures Inv(sys.(db := TakeOldest(sys.db, n, limit, now)))
  {
    var after := sys.(db := TakeOldest(sys.db, n, limit, now));
    TakeKeepsStructure(sys, n, limit, now);
    TakeKeepsQueue(sys.db, n, limit, now);
    TakeKeepsPeers(sys, n, limit, now);
    RemovalsStay(sys.db, after.db);
    ProcessesFrame(sys, after);
  }

  /** Nothing but the claims in flight is different. */
  lemma ClaimersOnlyKeep(sys: Sys, after: Sys)
    requires Inv(sys) && after == sys.(claimers := after.claimers)
    ensures Inv(after)
  {
    assert Keys.Inv(after);
    QuietKeeps(sys, after);
  }

  /** Appending to a queue and letting sessions end keeps the queue in order. */
  lemma QueueFrame(db: Db, after: Db)
    requires Queue(db) && SameCommands(db, after)
    requires forall i :: 0 <= i < |db.commands| ==>
      after.commands[i].status == db.commands[i].status
      || (db.commands[i].kind.AddPeer? && db.commands[i].status.Queued? && after.commands[i].status.Aborted?)
    requires forall i :: |db.commands| <= i < |after.commands| ==>
      var c := after.commands[i];
      c.status.Queued? && (c.kind.AddPeer? ==> c.session.Some? && Wanted(after, c.session.value))
    requires forall a, r :: 0 <= a < |db.commands| <= r < |after.commands| && db.commands[a].kind.AddPeer? && db.commands[a].session.Some? ==>
      RemovesKey(after.commands[r], db.commands[a].node, db.commands[a].key) && IsLive(after, db.commands[a].session.value) ==>
      after.commands[r].session == db.commands[a].session
    requires forall a :: 0 <= a < |db.commands| && db.commands[a].kind.AddPeer? && db.commands[a].session.Some? ==>
      (IsLive(after, db.commands[a].session.value) ==> IsLive(db, db.commands[a].session.value))
      && (Wanted(db, db.commands[a].session.value) ==>
            !Open(after.commands[a]) || Wanted(after, db.commands[a].session.value) || RemovalBehind(after, a))
    requires forall i, j :: |db.commands| <= i < j < |after.commands| && after.commands[i].kind.AddPeer? ==> !after.commands[j].kind.RemovePeer?
    ensures Queue(after)
  {
    RemovalsBehindStay(db, after);
  }

  lemma SyncWanted(db: Db, n: nat)
    ensures forall s :: Exclusive.RemovalIssued(EnqueueSync(db, n), s) <==> Exclusive.RemovalIssued(db, s)
  {
    RemovalsStay(db, EnqueueSync(db, n));
    assert forall s :: Exclusive.RemovalIssued(EnqueueSync(db, n), s) ==> Exclusive.RemovalIssued(db, s);
  }

  lemma SyncKeepsQueue(db: Db, n: nat)
    requires Queue(db)
    ensures Queue(EnqueueSync(db, n))
  {
    SyncWanted(db, n);
    QueueFrame(db, EnqueueSync(db, n));
  }

  lemma SyncKeepsPeers(sys: Sys, n: nat)
    requires Peers(sys)
    ensures Peers(sys.(db := EnqueueSync(sys.db, n)))
  {
    var after := sys.(db := EnqueueSync(sys.db, n));
    SyncWanted(sys.db, n);
    OpenRemovalsStay(sys.db, after.db);
    SetupsStay(sys, after);
    assert forall a, s :: Failing(sys, a, s) ==> Failing(after, a, s);
    PeersFrame(sys, after);
  }

  lemma SyncKeeps(sys: Sys, n: nat)
    requires Inv(sys)
    ensures Inv(sys.(db := EnqueueSync(sys.db, n)))
  {
    SyncKeepsStructure(sys, n);
    SyncKeepsQueue(sys.db, n);
    SyncKeepsPeers(sys, n);
    SyncWanted(sys.db, n);
    ProcessesFrame(sys, sys.(db := EnqueueSync(sys.db, n)));
  }

  // -------------------------------------------------------- close steps -----

  lemma TogetherWanted(db: Db, order: seq<nat>, now: int)
    requires LiveRows(db, order)
    ensures forall s :: Wanted(CloseTogether(db, order, now), s) <==> Wanted(db, s) && s !in order
  {
    var after := CloseTogether(db, order, now);
    RemovalsStay(db, after);
    assert forall s :: IsLive(after, s) <==> IsLive(db, s) && s !in order;
    forall s | s !in order && Exclusive.RemovalIssued(after, s) ensures Exclusive.RemovalIssued(db, s) {
      var i :| 0 <= i < |after.commands| && IsRemoveOf(after.commands[i], s);
      assert i < |db.commands| && IsRemoveOf(db.commands[i], s);
    }
  }

  /** Every closed row's removal stands at the end of the queue. */
  lemma TogetherRemoves(db: Db, order: seq<nat>, now: int, s: nat)
    requires LiveRows(db, order) && s in order
    ensures OpenRemoval(CloseTogether(db, order, now), db.sessions[s].node, db.sessions[s].key)
    ensures forall a :: 0 <= a < |db.commands| && db.commands[a].node == db.sessions[s].node && db.commands[a].key == db.sessions[s].key ==>
      RemovalBehind(CloseTogether(db, order, now), a)
  {
    var after := CloseTogether(db, order, now);
    var k :| 0 <= k < |order| && order[k] == s;
    var r := |db.commands| + k;
    assert after.commands[r] == RemoveCommand(s, db.sessions[s]);
    assert RemovesKey(after.commands[r], db.sessions[s].node, db.sessions[s].key) && Open(after.commands[r]);
  }

  /** The removals queued together are for the sessions closed together: none of them is for a session still live. */
  lemma TogetherUnopposed(sys: Sys, order: seq<nat>, now: int, a: nat, r: nat)
    requires Structure(sys) && CommandsMatch(sys.db) && LiveRows(sys.db, order)
    requires a < |sys.db.commands| <= r < |CloseTogether(sys.db, order, now).commands|
    requires sys.db.commands[a].kind.AddPeer? && sys.db.commands[a].session.Some?
    requires IsLive(CloseTogether(sys.db, order, now), sys.db.commands[a].session.value)
    ensures !RemovesKey(CloseTogether(sys.db, order, now).commands[r], sys.db.commands[a].node, sys.db.commands[a].key)
  {
    var db, after := sys.db, CloseTogether(sys.db, order, now);
    var s, t := db.commands[a].session.value, order[r - |db.commands|];
    assert after.commands[r] == RemoveCommand(t, db.sessions[t]);
    assert t in order && IsLive(db, t) && IsLive(db, s) && s !in order;
    if db.sessions[s].key == db.sessions[t].key { Keys.SameKeySameSession(sys, s, t); }
  }

  lemma TogetherKeepsQueue(sys: Sys, order: seq<nat>, now: int)
    requires Structure(sys) && Queue(sys.db) && LiveRows(sys.db, order)
    ensures Queue(CloseTogether(sys.db, order, now))
  {
    var db, after := sys.db, CloseTogether(sys.db, order, now);
    TogetherWanted(db, order, now);
    forall a | 0 <= a < |db.commands| && db.commands[a].kind.AddPeer? && db.commands[a].session.Some? && db.commands[a].session.value in order
      ensures RemovalBehind(after, a)
    {
      TogetherRemoves(db, order, now, db.commands[a].session.value);
    }
    forall a, r | 0 <= a < |db.commands| <= r < |after.commands| && db.commands[a].kind.AddPeer? && db.commands[a].session.Some?
        && IsLive(after, db.commands[a].session.value)
      ensures !RemovesKey(after.commands[r], db.commands[a].node, db.commands[a].key)
    {
      TogetherUnopposed(sys, order, now, a, r);
    }
    QueueFrame(db, after);
  }

  lemma TogetherKeepsPeers(sys: Sys, order: seq<nat>, now: int)
    requires Peers(sys) && LiveRows(sys.db, order)
    ensures Peers(sys.(db := CloseTogether(sys.db, order, now)))
  {
    var after := sys.(db := CloseTogether(sys.db, order, now));
    TogetherWanted(sys.db, order, now);
    OpenRemovalsStay(sys.db, after.db);
    SetupsStay(sys, after);
    forall s | s in order ensures OpenRemoval(after.db, sys.db.sessions[s].node, sys.db.sessions[s].key) {
      TogetherRemoves(sys.db, order, now, s);
    }
    assert forall a, s :: Failing(sys, a, s) ==> Failing(after, a, s);
    PeersFrame(sys, after);
  }

  lemma TogetherKeepsProcesses(sys: Sys, order: seq<nat>, now: int)
    requires Processes(sys) && LiveRows(sys.db, order)
    ensures Processes(sys.(db := CloseTogether(sys.db, order, now)))
  {
    TogetherWanted(sys.db, order, now);
    ProcessesFrame(sys, sys.(db := CloseTogether(sys.db, order, now)));
  }

  lemma TogetherKeeps(sys: Sys, order: seq<nat>, now: int)
    requires Inv(sys) && LiveRows(sys.db, order)
    ensures Inv(sys.(db := CloseTogether(sys.db, order, now)))
  {
    TogetherKeepsStructure(sys, order, now);
    TogetherKeepsQueue(sys, order, now);
    TogetherKeepsPeers(sys, order, now);
    TogetherKeepsProcesses(sys, order, now);
  }

  /** No other live session of the node has the session's key: nobody reconnected in its place. */
  ghost predicate Unreplaced(db: Db, s: nat)
    requires s in db.sessions
  {
    forall t :: IsLive(db, t) && db.sessions[t].node == db.sessions[s].node && db.sessions[t].key == db.sessions[s].key ==> t == s
  }

  lemma EnqueueWanted(db: Db, s: nat)
    requires s in db.sessions
    ensures forall t :: Exclusive.RemovalIssued(EnqueueRemove(db, s), t) <==> Exclusive.RemovalIssued(db, t) || t == s
    ensures OpenRemoval(EnqueueRemove(db, s), db.sessions[s].node, db.sessions[s].key)
    ensures forall a :: 0 <= a < |db.commands| && db.commands[a].node == db.sessions[s].node && db.commands[a].key == db.sessions[s].key ==>
      RemovalBehind(EnqueueRemove(db, s), a)
  {
    var after := EnqueueRemove(db, s);
    RemovalsStay(db, after);
    var r := |db.commands|;
    assert after.commands[r] == RemoveCommand(s, db.sessions[s]);
    assert IsRemoveOf(after.commands[r], s);
    assert RemovesKey(after.commands[r], db.sessions[s].node, db.sessions[s].key) && Open(after.commands[r]);
    forall t | Exclusive.RemovalIssued(after, t) && t != s ensures Exclusive.RemovalIssued(db, t) {
      var i :| 0 <= i < |after.commands| && IsRemoveOf(after.commands[i], t);
      assert i < |db.commands| && IsRemoveOf(db.commands[i], t);
    }
  }

  lemma EnqueueKeepsQueue(sys: Sys, s: nat)
    requires Structure(sys) && Queue(sys.db) && s in sys.db.sessions && Unreplaced(sys.db, s)
    ensures Queue(EnqueueRemove(sys.db, s))
  {
    EnqueueWanted(sys.db, s);
    QueueFrame(sys.db, EnqueueRemove(sys.db, s));
  }

  /** Otherwise the removal stands behind the setup of the session that took over the key. */
  lemma LateRemovalOpposes(db: Db, s: nat)
    requires EachHasAdd(db) && CommandsMatch(db) && s in db.sessions && !Unreplaced(db, s)
    ensures !Unopposed(EnqueueRemove(db, s))
  {
    var after := EnqueueRemove(db, s);
    var t :| IsLive(db, t) && db.sessions[t].node == db.sessions[s].node && db.sessions[t].key == db.sessions[s].key && t != s;
    var a :| 0 <= a < |db.commands| && IsAddOf(db.commands[a], t);
    var r := |db.commands|;
    assert after.commands[a] == db.commands[a] && after.commands[r] == RemoveCommand(s, db.sessions[s]);
    assert RemovesKey(after.commands[r], after.commands[a].node, after.commands[a].key);
  }

  lemma EnqueueKeepsPeers(sys: Sys, s: nat)
    requires Peers(sys) && s in sys.db.sessions
    ensures Peers(sys.(db := EnqueueRemove(sys.db, s)))
  {
    var after := sys.(db := EnqueueRemove(sys.db, s));
    EnqueueWanted(sys.db, s);
    OpenRemovalsStay(sys.db, after.db);
    SetupsStay(sys, after);
    assert forall a, s :: Failing(sys, a, s) ==> Failing(after, a, s);
    PeersFrame(sys, after);
  }

  lemma EnqueueKeepsProcesses(sys: Sys, p: nat, s: nat)
    requires Processes(sys) && p in sys.closers && sys.closers[p] == Enqueuing(s) && s in sys.db.sessions
    ensures Processes(Enqueued(sys, p))
  {
    var after := Enqueued(sys, p);
    EnqueueWanted(sys.db, s);
    assert after.closers[p] == Finishing(s);
    forall t | Exclusive.BeingClosed(sys, t) ensures Exclusive.BeingClosed(after, t) {
      var q :| q in sys.closers && sys.closers[q] == Finishing(t);
      assert after.closers[q] == Finishing(t);
    }
  }

  lemma ClosersOnlyKeep(sys: Sys, after: Sys)
    requires Inv(sys) && after == sys.(closers := after.closers) && Processes(after)
    ensures Inv(after)
  {
    assert Keys.Inv(after);
    SameSetUp(sys, after);
    assert forall a, s :: Failing(sys, a, s) ==> Failing(after, a, s);
    PeersFrame(sys, after);
  }

  /**
   * Queueing the removal of session `s` keeps the node on course exactly when no other live
   * session has taken over its key meanwhile. closeSession does not check this again after it
   * read the row.
   */
  lemma EnqueueKeepsIff(sys: Sys, p: nat, s: nat)
    requires Inv(sys) && p in sys.closers && sys.closers[p] == Enqueuing(s) && s in sys.db.sessions
    ensures Inv(Enqueued(sys, p)) <==> Unreplaced(sys.db, s)
  {
    var after := Enqueued(sys, p);
    EnqueueKeepsStructure(sys, s);
    if Unreplaced(sys.db, s) { EnqueueKeepsQueue(sys, s); } else { LateRemovalOpposes(sys.db, s); }
    EnqueueKeepsPeers(sys, s);
    EnqueueKeepsProcesses(sys, p, s);
    var queued := sys.(db := EnqueueRemove(sys.db, s));
    assert after == queued.(closers := after.closers);
    assert Structure(after) by { assert Keys.Inv(after); }
    assert Peers(after) by {
      SameSetUp(queued, after);
      assert forall a, s :: Failing(queued, a, s) ==> Failing(after, a, s);
      PeersFrame(queued, after);
    }
  }

  lemma FinishKeepsPeers(sys: Sys, s: nat, now: int)
    requires Peers(sys) && (s in sys.db.sessions ==> Exclusive.RemovalIssued(sys.db, s))
    ensures Peers(sys.(db := FinishClose(sys.db, s, now)))
  {
    var after := sys.(db := FinishClose(sys.db, s, now));
    assert forall t :: Exclusive.RemovalIssued(after.db, t) == Exclusive.RemovalIssued(sys.db, t);
    assert forall t :: Wanted(after.db, t) == Wanted(sys.db, t);
    OpenRemovalsStay(sys.db, after.db);
    SetupsStay(sys, after);
    assert forall a, s :: Failing(sys, a, s) ==> Failing(after, a, s);
    PeersFrame(sys, after);
  }

  lemma FinishKeepsQueue(db: Db, s: nat, now: int)
    requires Queue(db) && (s in db.sessions ==> Exclusive.RemovalIssued(db, s))
    ensures Queue(FinishClose(db, s, now))
  {
    var after := FinishClose(db, s, now);
    assert forall t :: Exclusive.RemovalIssued(after, t) == Exclusive.RemovalIssued(db, t);
    assert forall t :: Wanted(after, t) == Wanted(db, t);
    QueueFrame(db, after);
  }

  lemma FinishKeepsProcesses(sys: Sys, s: nat, now: int)
    requires Processes(sys)
    ensures Processes(sys.(db := FinishClose(sys.db, s, now)))
  {
    var after := sys.(db := FinishClose(sys.db, s, now));
    assert forall t :: Exclusive.RemovalIssued(after.db, t) == Exclusive.RemovalIssued(sys.db, t);
    ProcessesFrame(sys, after);
  }

  lemma FinishedKeeps(sys: Sys, p: nat)
    requires Inv(sys) && p in sys.closers && !IsLive(sys.db, sys.closers[p].session)
    ensures Inv(sys.(closers := sys.closers - {p}))
  {
    var after := sys.(closers := sys.closers - {p});
    forall t | Exclusive.BeingClosed(sys, t) && IsLive(sys.db, t) ensures Exclusive.BeingClosed(after, t) {
      var q :| q in sys.closers && sys.closers[q] == Finishing(t);
      assert after.closers[q] == Finishing(t);
    }
    ClosersOnlyKeep(sys, after);
  }

  lemma FinishKeeps(sys: Sys, s: nat, now: int)
    requires Inv(sys) && (s in sys.db.sessions ==> Exclusive.RemovalIssued(sys.db, s))
    ensures Inv(sys.(db := FinishClose(sys.db, s, now)))
  {
    FinishKeepsStructure(sys, s, now);
    FinishKeepsQueue(sys.db, s, now);
    FinishKeepsPeers(sys, s, now);
    FinishKeepsProcesses(sys, s, now);
  }

  lemma WaitingKeeps(sys: Sys, p: nat, closer: Closer)
    requires Inv(sys) && (p in sys.closers ==> !sys.closers[p].Finishing?) && closer.session < sys.db.nextSession
    requires closer.Finishing? && closer.session in sys.db.sessions ==> Exclusive.RemovalIssued(sys.db, closer.session)
    ensures Inv(sys.(closers := sys.closers[p := closer]))
  {
    var after := sys.(closers := sys.closers[p := closer]);
    forall t | Exclusive.BeingClosed(sys, t) ensures Exclusive.BeingClosed(after, t) {
      var q :| q in sys.closers && sys.closers[q] == Finishing(t);
      assert after.closers[q] == Finishing(t);
    }
    ClosersOnlyKeep(sys, after);
  }

  /** The enqueue statement of a close comes while nobody else has the key, or after the row is gone. */
  ghost predicate NotOvertaken(sys: Sys, step: CloseStep) {
    match step
    case CloserEnqueue(p) =>
      p in sys.closers && sys.closers[p].session in sys.db.sessions ==> Unreplaced(sys.db, sys.closers[p].session)
    case _ => true
  }

  lemma CloseStepKeeps(sys: Sys, step: CloseStep)
    requires Inv(sys) && NotOvertaken(sys, step)
    ensures Inv(ApplyClose(sys, step))
  {
    match step
    case CloseScope(scope, order, now) =>
      if Enumerates(order, LiveInScope(sys.db, scope)) { TogetherKeeps(sys, order, now); }
    case CloserRead(p, s) =>
      if p !in sys.closers && IsLive(sys.db, s) { WaitingKeeps(sys, p, Reading(s)); }
    case CloserCheck(p) =>
      if p in sys.closers && sys.closers[p].Reading? {
        var s := sys.closers[p].session;
        WaitingKeeps(sys, p, if HasOpenRemove(sys.db, s) then Finishing(s) else Enqueuing(s));
      }
    case CloserEnqueue(p) => CloserEnqueueKeeps(sys, p);
    case CloserFinish(p, now) => CloserFinishKeeps(sys, p, now);
  }

  lemma CloserEnqueueKeeps(sys: Sys, p: nat)
    requires Inv(sys) && NotOvertaken(sys, CloserEnqueue(p))
    ensures Inv(Enqueued(sys, p))
  {
    if p in sys.closers && sys.closers[p].Enqueuing? {
      var s := sys.closers[p].session;
      if s in sys.db.sessions { EnqueueKeepsIff(sys, p, s); } else { FinishedKeeps(sys, p); }
    }
  }

  lemma CloserFinishKeeps(sys: Sys, p: nat, now: int)
    requires Inv(sys)
    ensures Inv(ApplyClose(sys, CloserFinish(p, now)))
  {
    if p in sys.closers && sys.closers[p].Finishing? { FinisherKeeps(sys, p, now); }
  }

  lemma FinisherKeeps(sys: Sys, p: nat, now: int)
    requires Inv(sys) && p in sys.closers && sys.closers[p].Finishing?
    ensures Inv(sys.(db := FinishClose(sys.db, sys.closers[p].session, now), closers := sys.closers - {p}))
  {
    var closed := sys.(db := FinishClose(sys.db, sys.closers[p].session, now));
    FinishKeeps(sys, sys.closers[p].session, now);
    FinishedKeeps(closed, p);
    assert closed.closers - {p} == sys.closers - {p};
  }

  // ------------------------------------------------------- device steps -----

  /** Steps that touch neither sessions, commands, processes nor peers. */
  ghost predicate Quiet(sys: Sys, after: Sys) {
    && after.db.sessions == sys.db.sessions && after.db.commands == sys.db.commands && after.db.nextSession == sys.db.nextSession
    && after.closers == sys.closers && after.ackers == sys.ackers
    && after.peers == sys.peers && after.replies == sys.replies
  }

  lemma QuietWanted(sys: Sys, after: Sys)
    requires Quiet(sys, after)
    ensures forall s :: Wanted(after.db, s) <==> Wanted(sys.db, s)
    ensures forall a :: CarriedOut(after, a) <==> CarriedOut(sys, a)
    ensures forall s :: SetUp(after, s) <==> SetUp(sys, s)
    ensures WritersInRange(sys) ==> WritersInRange(after)
    ensures forall a, s :: Failing(after, a, s) <==> Failing(sys, a, s)
    ensures forall n, key :: OpenRemoval(after.db, n, key) <==> OpenRemoval(sys.db, n, key)
    ensures forall s :: Exclusive.RemovalIssued(after.db, s) <==> Exclusive.RemovalIssued(sys.db, s)
  {
    SameSetUp(sys, after);
  }

  lemma QuietKeepsPeers(sys: Sys, after: Sys)
    requires Peers(sys) && Quiet(sys, after)
    ensures Peers(after)
  {
    QuietWanted(sys, after);
    PeersFrame(sys, after);
  }

  lemma QuietKeepsQueue(sys: Sys, after: Sys)
    requires Queue(sys.db) && Quiet(sys, after)
    ensures Queue(after.db)
  {
    QuietWanted(sys, after);
    QueueFrame(sys.db, after.db);
  }

  lemma QuietKeepsProcesses(sys: Sys, after: Sys)
    requires Processes(sys) && Quiet(sys, after)
    ensures Processes(after)
  {
    QuietWanted(sys, after);
    ProcessesFrame(sys, after);
  }

  lemma QuietKeeps(sys: Sys, after: Sys)
    requires Inv(sys) && Quiet(sys, after) && Keys.Inv(after)
    ensures Inv(after)
  {
    QuietKeepsStructure(sys, after);
    QuietKeepsQueue(sys, after);
    QuietKeepsPeers(sys, after);
    QuietKeepsProcesses(sys, after);
  }

  lemma DeletedWanted(sys: Sys, d: nat)
    requires LiveOfDevice(sys.db.sessions, d) == {} && WritersInRange(sys)
    ensures
      var after := sys.(db := DeleteDevice(sys.db, d));
      && WritersInRange(after)
      && (forall s :: IsLive(after.db, s) <==> IsLive(sys.db, s))
      && (forall s :: s in after.db.sessions ==> (Exclusive.RemovalIssued(after.db, s) <==> Exclusive.RemovalIssued(sys.db, s)))
      && (forall a :: CarriedOut(after, a) <==> CarriedOut(sys, a))
      && (forall s :: s in after.db.sessions ==> (SetUp(after, s) <==> SetUp(sys, s)))
  {
    var db, after := sys.db, sys.(db := DeleteDevice(sys.db, d));
    assert forall s :: s in db.sessions && Live(db.sessions[s]) && db.sessions[s].device == d ==> s in LiveOfDevice(db.sessions, d);
    forall s | s in after.db.sessions ensures Exclusive.RemovalIssued(after.db, s) <==> Exclusive.RemovalIssued(db, s) {
      assert forall i :: 0 <= i < |db.commands| ==> IsRemoveOf(after.db.commands[i], s) == IsRemoveOf(db.commands[i], s);
    }
    assert forall q, i, ok :: IsWriting(after, q, i, ok) == IsWriting(sys, q, i, ok);
    assert forall a :: CarriedOut(after, a) == CarriedOut(sys, a);
    forall s | s in after.db.sessions ensures SetUp(after, s) <==> SetUp(sys, s) {
      assert forall i :: 0 <= i < |db.commands| ==> IsAddOf(after.db.commands[i], s) == IsAddOf(db.commands[i], s);
    }
  }

  lemma DeletedQueueWanted(db: Db, d: nat)
    requires LiveOfDevice(db.sessions, d) == {}
    ensures forall s :: IsLive(DeleteDevice(db, d), s) <==> IsLive(db, s)
    ensures forall s :: Wanted(DeleteDevice(db, d), s) <==> Wanted(db, s)
  {
    var after := DeleteDevice(db, d);
    assert forall s :: s in db.sessions && Live(db.sessions[s]) && db.sessions[s].device == d ==> s in LiveOfDevice(db.sessions, d);
    forall s | s in after.sessions ensures Exclusive.RemovalIssued(after, s) <==> Exclusive.RemovalIssued(db, s) {
      assert forall i :: 0 <= i < |db.commands| ==> IsRemoveOf(after.commands[i], s) == IsRemoveOf(db.commands[i], s);
    }
  }

  lemma DeletingKeepsQueue(db: Db, d: nat)
    requires Queue(db) && LiveOfDevice(db.sessions, d) == {}
    ensures Queue(DeleteDevice(db, d))
  {
    var after := DeleteDevice(db, d);
    DeletedQueueWanted(db, d);
    forall a | 0 <= a < |db.commands| && RemovalBehind(db, a) ensures RemovalBehind(after, a) {
      var r :| a < r < |db.commands| && RemovesKey(db.commands[r], db.commands[a].node, db.commands[a].key);
      assert RemovesKey(after.commands[r], after.commands[a].node, after.commands[a].key);
    }
  }

  lemma DeletingKeepsPeers(sys: Sys, d: nat)
    requires Peers(sys) && LiveOfDevice(sys.db.sessions, d) == {}
    ensures Peers(sys.(db := DeleteDevice(sys.db, d)))
  {
    var after := sys.(db := DeleteDevice(sys.db, d));
    DeletedWanted(sys, d);
    OpenRemovalsStay(sys.db, after.db);
    assert forall a, s :: Failing(sys, a, s) ==> Failing(after, a, s);
    PeersFrame(sys, after);
  }

  lemma DeletingKeepsProcesses(sys: Sys, d: nat)
    requires Processes(sys) && LiveOfDevice(sys.db.sessions, d) == {} && WritersInRange(sys)
    ensures Processes(sys.(db := DeleteDevice(sys.db, d)))
  {
    var after := sys.(db := DeleteDevice(sys.db, d));
    DeletedWanted(sys, d);
    assert forall s :: Exclusive.BeingClosed(sys, s) ==> Exclusive.BeingClosed(after, s);
  }

  lemma DeviceRowsKeep(sys: Sys)
    requires Inv(sys)
    ensures forall d, device :: Keys.Inv(WithDevice(sys, d, device)) ==> Inv(WithDevice(sys, d, device))
  {
    forall d, device | Keys.Inv(WithDevice(sys, d, device)) ensures Inv(WithDevice(sys, d, device)) {
      QuietKeeps(sys, WithDevice(sys, d, device));
    }
  }

  lemma DeviceStepKeeps(sys: Sys, step: DeviceStep)
    requires Inv(sys)
    requires step.RemoveDevice? ==> LiveOfDevice(sys.db.sessions, step.d) == {}
    ensures Inv(ApplyDevice(sys, step))
  {
    Keys.DeviceStepKeeps(sys, step);
    match step
    case RemoveDevice(d) =>
      DeletingKeepsStructure(sys, d);
      DeletingKeepsQueue(sys.db, d);
      DeletingKeepsPeers(sys, d);
      DeletingKeepsProcesses(sys, d);
    case RevokeDevice(d, order, now) =>
      if d in sys.db.devices && Enumerates(order, LiveInScope(sys.db, OfDevice(d))) {
        TogetherKeeps(sys, order, now);
        DeviceRowsKeep(sys.(db := CloseTogether(sys.db, order, now)));
      }
    case _ => DeviceRowsKeep(sys);
  }

  // ------------------------------------------------------------ connect -----

  lemma ConnectWanted(sys: Sys, u: nat, d: nat, version: nat, n: nat, plan: Plan)
    requires Structure(sys) && Connected(sys, u, d, version, n, plan) != sys
    ensures
      var db, after := sys.db, Connected(sys, u, d, version, n, plan).db;
      && (forall s :: Exclusive.RemovalIssued(after, s) <==> Exclusive.RemovalIssued(db, s))
      && !Exclusive.RemovalIssued(db, db.nextSession)
      && (forall s :: Wanted(after, s) <==> Wanted(db, s) || s == db.nextSession)
  {
    var db, after := sys.db, Connected(sys, u, d, version, n, plan).db;
    RemovalsStay(db, after);
    forall s | Exclusive.RemovalIssued(after, s) ensures Exclusive.RemovalIssued(db, s) {
      var i :| 0 <= i < |after.commands| && IsRemoveOf(after.commands[i], s);
      assert i < |db.commands| && IsRemoveOf(db.commands[i], s);
    }
  }

  lemma ConnectKeepsQueue(sys: Sys, u: nat, d: nat, version: nat, n: nat, plan: Plan)
    requires Structure(sys) && Queue(sys.db) && Connected(sys, u, d, version, n, plan) != sys
    ensures Queue(Connected(sys, u, d, version, n, plan).db)
  {
    ConnectWanted(sys, u, d, version, n, plan);
    QueueFrame(sys.db, Connected(sys, u, d, version, n, plan).db);
  }

  lemma ConnectKeepsPeers(sys: Sys, u: nat, d: nat, version: nat, n: nat, plan: Plan)
    requires Structure(sys) && Peers(sys) && Connected(sys, u, d, version, n, plan) != sys
    ensures Peers(Connected(sys, u, d, version, n, plan))
  {
    var after := Connected(sys, u, d, version, n, plan);
    ConnectWanted(sys, u, d, version, n, plan);
    OpenRemovalsStay(sys.db, after.db);
    SetupsStay(sys, after);
    assert !SetUp(sys, sys.db.nextSession);
    assert forall a, s :: Failing(sys, a, s) ==> Failing(after, a, s);
    PeersFrame(sys, after);
  }

  lemma ConnectKeepsProcesses(sys: Sys, u: nat, d: nat, version: nat, n: nat, plan: Plan)
    requires Structure(sys) && Processes(sys) && Connected(sys, u, d, version, n, plan) != sys
    ensures Processes(Connected(sys, u, d, version, n, plan))
  {
    ConnectWanted(sys, u, d, version, n, plan);
    ProcessesFrame(sys, Connected(sys, u, d, version, n, plan));
  }

  lemma ConnectKeeps(sys: Sys, u: nat, d: nat, version: nat, n: nat, plan: Plan)
    requires Inv(sys)
    ensures Inv(Connected(sys, u, d, version, n, plan))
  {
    if Connected(sys, u, d, version, n, plan) != sys {
      ConnectKeepsStructure(sys, u, d, version, n, plan);
      ConnectKeepsQueue(sys, u, d, version, n, plan);
      ConnectKeepsPeers(sys, u, d, version, n, plan);
      ConnectKeepsProcesses(sys, u, d, version, n, plan);
    }
  }

  // ---------------------------------------------------- acknowledgements ----

  lemma SettlingWanted(sys: Sys, p: nat, now: int)
    requires Structure(sys) && Processes(sys) && p in sys.ackers && sys.ackers[p].Updating?
    ensures
      var a := sys.ackers[p];
      var after := SettleSession(sys.db, a.session, a.ok, now);
      && (forall s :: IsLive(after, s) <==> IsLive(sys.db, s) && (a.ok || s != a.session))
      && (forall s :: Wanted(after, s) <==> Wanted(sys.db, s) && (a.ok || s != a.session))
  {
    var a := sys.ackers[p];
    var after := SettleSession(sys.db, a.session, a.ok, now);
    assert after.commands == sys.db.commands;
    assert forall s :: Exclusive.RemovalIssued(after, s) == Exclusive.RemovalIssued(sys.db, s);
  }

  /** A session whose setup failed has not been set up: it has no other setup. */
  lemma FailedIsNotSetUp(sys: Sys, p: nat)
    requires Fifo.Inv(sys) && Structure(sys) && Processes(sys)
    requires p in sys.ackers && sys.ackers[p].Updating? && !sys.ackers[p].ok
    ensures SetUp(sys, sys.ackers[p].session) ==> sys.ackers[p].session !in sys.db.sessions
  {
    var s := sys.ackers[p].session;
    forall a: nat | a < |sys.db.commands| && IsAddOf(sys.db.commands[a], s) && s in sys.db.sessions ensures !CarriedOut(sys, a) {
      assert a == sys.ackers[p].command;
      assert forall q :: IsWriting(sys, q, a, true) ==> WritesHead(sys, a, true);
    }
  }

  lemma SettlingKeepsQueue(sys: Sys, p: nat, now: int)
    requires Structure(sys) && Processes(sys) && Queue(sys.db) && p in sys.ackers && sys.ackers[p].Updating?
    ensures Queue(SettleSession(sys.db, sys.ackers[p].session, sys.ackers[p].ok, now))
  {
    var after := SettleSession(sys.db, sys.ackers[p].session, sys.ackers[p].ok, now);
    SettlingWanted(sys, p, now);
    assert after == sys.db.(sessions := after.sessions);
    QueueFrame(sys.db, after);
  }

  lemma OtherFailuresStay(sys: Sys, p: nat, now: int)
    requires p in sys.ackers && sys.ackers[p].Updating?
    ensures forall c, s :: Failing(sys, c, s) && (sys.ackers[p].ok || s != sys.ackers[p].session) ==>
      Failing(ApplyAck(sys, AckUpdate(p, now)), c, s)
  {
    var a, after := sys.ackers[p], ApplyAck(sys, AckUpdate(p, now));
    forall c, s | Failing(sys, c, s) && (a.ok || s != a.session) ensures Failing(after, c, s) {
      var q :| q in sys.ackers && sys.ackers[q] == Updating(c, s, false);
      assert after.ackers[q] == Updating(c, s, false);
    }
  }

  lemma SettlingKeepsPeers(sys: Sys, p: nat, now: int)
    requires Fifo.Inv(sys) && Structure(sys) && Processes(sys) && Peers(sys) && p in sys.ackers && sys.ackers[p].Updating?
    ensures Peers(ApplyAck(sys, AckUpdate(p, now)))
  {
    var a, after := sys.ackers[p], ApplyAck(sys, AckUpdate(p, now));
    assert after.peers == sys.peers && after.replies == sys.replies && after.db.commands == sys.db.commands;
    SettlingWanted(sys, p, now);
    if !a.ok { FailedIsNotSetUp(sys, p); }
    assert forall q, i, ok :: IsWriting(after, q, i, ok) <==> IsWriting(sys, q, i, ok);
    OpenRemovalsStay(sys.db, after.db);
    SetupsStay(sys, after);
    OtherFailuresStay(sys, p, now);
    PeersFrame(sys, after);
  }

  lemma SettlingKeepsProcesses(sys: Sys, p: nat, now: int)
    requires Structure(sys) && Processes(sys) && p in sys.ackers && sys.ackers[p].Updating?
    ensures Processes(ApplyAck(sys, AckUpdate(p, now)))
  {
    var after := ApplyAck(sys, AckUpdate(p, now));
    SettlingWanted(sys, p, now);
    assert after.db.commands == sys.db.commands && after.closers == sys.closers;
    assert forall s :: Exclusive.RemovalIssued(after.db, s) == Exclusive.RemovalIssued(sys.db, s);
    assert forall s :: Exclusive.BeingClosed(after, s) == Exclusive.BeingClosed(sys, s);
  }

  lemma AckUpdateKeeps(sys: Sys, p: nat, now: int)
    requires Fifo.Inv(sys) && Inv(sys)
    ensures Inv(ApplyAck(sys, AckUpdate(p, now)))
  {
    if p in sys.ackers && sys.ackers[p].Updating? {
      var a := sys.ackers[p];
      SettlingKeepsStructure(sys, a.session, a.ok, now);
      SettlingKeepsQueue(sys, p, now);
      SettlingKeepsPeers(sys, p, now);
      SettlingKeepsProcesses(sys, p, now);
      assert Keys.Inv(ApplyAck(sys, AckUpdate(p, now)));
    }
  }

  /** An acknowledgement that has updated its session may leave at any time. */
  lemma AckerLeaves(sys: Sys, p: nat)
    requires Inv(sys) && p in sys.ackers && sys.ackers[p].Releasing?
    ensures Inv(sys.(ackers := sys.ackers - {p}))
  {
    var after := sys.(ackers := sys.ackers - {p});
    assert forall q, i, ok :: IsWriting(after, q, i, ok) <==> IsWriting(sys, q, i, ok);
    SetupsStay(sys, after);
    forall c, s | Failing(sys, c, s) ensures Failing(after, c, s) {
      var q :| q in sys.ackers && sys.ackers[q] == Updating(c, s, false);
      assert after.ackers[q] == Updating(c, s, false);
    }
    PeersFrame(sys, after);
    assert forall s :: Exclusive.BeingClosed(after, s) == Exclusive.BeingClosed(sys, s);
    assert Keys.Inv(after);
  }

  lemma AckReleaseKeeps(sys: Sys, p: nat)
    requires Inv(sys)
    ensures Inv(ApplyAck(sys, AckRelease(p)))
  {
    if p in sys.ackers && sys.ackers[p].Releasing? {
      var released := sys.(db := ReleaseLease(sys.db, sys.ackers[p].session));
      assert Keys.Inv(released);
      QuietKeeps(sys, released);
      AckerLeaves(released, p);
    }
  }

  // ------------------------------------------------- the verdict's write -----

  lemma WritingProceeds(sys: Sys, p: nat, i: nat, ok: bool)
    requires Fifo.Inv(sys) && IsWriting(sys, p, i, ok)
    ensures
      var after := Completed(sys, p);
      && i < |sys.db.commands| && WritesHead(sys, i, ok)
      && after == sys.(db := Complete(sys.db, i, ok), ackers := after.ackers)
      && (forall q :: q != p ==> (q in after.ackers <==> q in sys.ackers) && (q in sys.ackers ==> after.ackers[q] == sys.ackers[q]))
      && (p in after.ackers && after.ackers[p].Updating? ==>
            sys.db.commands[i].session.Some? && sys.db.commands[i].kind.AddPeer? && after.ackers[p] == Updating(i, sys.db.commands[i].session.value, ok))
      && (forall s :: IsAddOf(sys.db.commands[i], s) ==> p in after.ackers && after.ackers[p] == Updating(i, s, ok))
      && (forall q, j, yes :: IsWriting(after, q, j, yes) <==> IsWriting(sys, q, j, yes) && q != p)
  {
  }

  lemma WritingKeepsCarried(sys: Sys, p: nat, i: nat, ok: bool)
    requires Fifo.Inv(sys) && IsWriting(sys, p, i, ok) && i < |sys.db.commands|
    ensures
      var after := Completed(sys, p);
      && (forall a :: CarriedOut(after, a) <==> CarriedOut(sys, a))
      && (forall s :: SetUp(after, s) <==> SetUp(sys, s))
      && WritersInRange(after)
  {
    var after := Completed(sys, p);
    WritingProceeds(sys, p, i, ok);
    forall a: nat ensures CarriedOut(after, a) <==> CarriedOut(sys, a) {
      if a == i {
        if q :| IsWriting(sys, q, i, true) { assert q == p; }
      } else if q :| IsWriting(sys, q, a, true) {
        assert IsWriting(after, q, a, true);
      }
    }
    forall s ensures SetUp(after, s) <==> SetUp(sys, s) {
      assert forall a :: 0 <= a < |sys.db.commands| ==> IsAddOf(after.db.commands[a], s) == IsAddOf(sys.db.commands[a], s);
    }
    forall q, j: nat, yes | IsWriting(after, q, j, yes) ensures j < |after.db.commands| {
      assert IsWriting(sys, q, j, yes) && WritesHead(sys, j, yes);
    }
  }

  lemma WritingWanted(db: Db, i: nat, ok: bool)
    requires i < |db.commands|
    ensures forall s :: Wanted(Complete(db, i, ok), s) <==> Wanted(db, s)
    ensures forall m, key :: OpenRemoval(db, m, key) ==> OpenRemoval(Complete(db, i, ok), m, key) || RemovesKey(db.commands[i], m, key)
  {
    var after := Complete(db, i, ok);
    RemovalsStay(db, after);
    forall m, key | OpenRemoval(db, m, key) && !RemovesKey(db.commands[i], m, key) ensures OpenRemoval(after, m, key) {
      var r :| 0 <= r < |db.commands| && RemovesKey(db.commands[r], m, key) && Open(db.commands[r]);
      assert RemovesKey(after.commands[r], m, key) && Open(after.commands[r]);
    }
  }

  lemma WritingKeepsServed(sys: Sys, p: nat, i: nat, ok: bool)
    requires Fifo.Inv(sys) && WantedAreServed(sys) && IsWriting(sys, p, i, ok) && i < |sys.db.commands|
    ensures WantedAreServed(Completed(sys, p))
  {
    var after := Completed(sys, p);
    WritingProceeds(sys, p, i, ok);
    WritingKeepsCarried(sys, p, i, ok);
    WritingWanted(sys.db, i, ok);
    forall a, s | 0 <= a < |after.db.commands| && IsAddOf(after.db.commands[a], s) && Wanted(after.db, s) ensures Served(after, a, s) {
      assert IsAddOf(sys.db.commands[a], s) && Served(sys, a, s);
      assert after.peers == sys.peers;
      if a == i {
        if !CarriedOut(sys, i) { assert after.ackers[p] == Updating(i, s, false); }
      } else if Failing(sys, a, s) {
        var q :| q in sys.ackers && sys.ackers[q] == Updating(a, s, false);
        assert after.ackers[q] == Updating(a, s, false);
      }
    }
  }

  /** Once a removal is written as done its peer is gone, and nothing is left to explain. */
  lemma WritingKeepsExplained(sys: Sys, p: nat, i: nat, ok: bool)
    requires Fifo.Inv(sys) && PeersAreExplained(sys) && IsWriting(sys, p, i, ok) && i < |sys.db.commands|
    ensures PeersAreExplained(Completed(sys, p))
  {
    var after := Completed(sys, p);
    WritingProceeds(sys, p, i, ok);
    WritingKeepsCarried(sys, p, i, ok);
    WritingWanted(sys.db, i, ok);
    forall m, key | key in Table(after, m) ensures Explained(after, m, key, Table(after, m)[key]) {
      assert Table(after, m) == Table(sys, m) && Explained(sys, m, key, Table(sys, m)[key]);
    }
  }

  lemma WritingKeepsProcesses(sys: Sys, p: nat, i: nat, ok: bool)
    requires Fifo.Inv(sys) && Structure(sys) && Processes(sys) && IsWriting(sys, p, i, ok) && i < |sys.db.commands|
    ensures Processes(Completed(sys, p))
  {
    var after := Completed(sys, p);
    WritingRecords(sys, p, i, ok);
    WritingProceeds(sys, p, i, ok);
    RemovalsStay(sys.db, after.db);
    assert forall s :: Exclusive.BeingClosed(after, s) == Exclusive.BeingClosed(sys, s);
  }

  lemma WritingRecords(sys: Sys, p: nat, i: nat, ok: bool)
    requires Fifo.Inv(sys) && Structure(sys) && Processes(sys) && IsWriting(sys, p, i, ok) && i < |sys.db.commands|
    ensures VerdictsAreRecorded(Completed(sys, p))
  {
    var after := Completed(sys, p);
    WritingProceeds(sys, p, i, ok);
    assert Open(sys.db.commands[i]);
    forall q | q in after.ackers && after.ackers[q].Updating? && q != p ensures after.ackers[q].command != i {
      assert q in sys.ackers && after.ackers[q] == sys.ackers[q];
    }
  }

  lemma WritingKeepsQueue(db: Db, i: nat, ok: bool)
    requires Queue(db) && i < |db.commands|
    ensures Queue(Complete(db, i, ok))
  {
    var after := Complete(db, i, ok);
    WritingWanted(db, i, ok);
    RemovalsBehindStay(db, after);
  }

  lemma AckWriteKeeps(sys: Sys, p: nat)
    requires Fifo.Inv(sys) && Inv(sys)
    ensures Inv(Completed(sys, p))
  {
    if p in sys.ackers && sys.ackers[p].Completing? {
      var i, ok := sys.ackers[p].command, sys.ackers[p].ok;
      var after := Completed(sys, p);
      assert IsWriting(sys, p, i, ok);
      WritingProceeds(sys, p, i, ok);
      WritingKeepsStructure(sys, i, ok);
      assert Structure(after) by { assert Keys.Inv(after); }
      WritingKeepsQueue(sys.db, i, ok);
      WritingKeepsServed(sys, p, i, ok);
      WritingKeepsExplained(sys, p, i, ok);
      WritingKeepsCarried(sys, p, i, ok);
      WritingKeepsProcesses(sys, p, i, ok);
      assert RepliesAreSafe(after);
    }
  }

  // ------------------------------------------------------------- agents -----

  /** Whoever is wanted and set up on the node has its setup in front of nothing that is still open. */
  lemma SetUpIsBehindUs(db: Db, n: nat, i: nat, a: nat)
    requires InOrder(db) && i < |db.commands| && db.commands[i].node == n && Open(db.commands[i])
    requires a < |db.commands| && db.commands[a].node == n && db.commands[a].status.Done?
    ensures a < i
  {
  }

  lemma NothingOpposes(db: Db, a: nat, s: nat)
    requires Queue(db) && a < |db.commands| && IsAddOf(db.commands[a], s) && Wanted(db, s)
    ensures forall r :: a < r < |db.commands| ==> !RemovesKey(db.commands[r], db.commands[a].node, db.commands[a].key)
  {
    assert forall r :: 0 <= r < |db.commands| ==> !IsRemoveOf(db.commands[r], s);
  }

  /** No wanted session that has been set up shares the key of a removal, or of another setup, at the head. */
  lemma HeadKeyIsFree(sys: Sys, n: nat, i: nat, a: nat, s: nat)
    requires Fifo.Inv(sys) && Structure(sys) && Queue(sys.db)
    requires AtHead(sys.db, n, i) && !InFlight(sys, i) && !sys.db.commands[i].kind.Sync?
    requires a < |sys.db.commands| && IsAddOf(sys.db.commands[a], s) && CarriedOut(sys, a) && Wanted(sys.db, s)
    requires sys.db.commands[a].node == n
    ensures sys.db.commands[a].key != sys.db.commands[i].key
  {
    var db := sys.db;
    assert forall q :: IsWriting(sys, q, a, true) ==> WritesHead(sys, a, true) && a == i;
    SetUpIsBehindUs(db, n, i, a);
    NothingOpposes(db, a, s);
    if db.commands[i].kind.AddPeer? && db.commands[i].session.Some? && Wanted(db, db.commands[i].session.value) {
      var t := db.commands[i].session.value;
      if db.sessions[s].key == db.sessions[t].key { Keys.SameKeySameSession(sys, s, t); }
    }
  }

  lemma CarriedSetUp(sys: Sys, p: nat, n: nat, i: nat, ok: bool)
    requires Fifo.Inv(sys) && Executable(sys, p, n, i, ok)
    ensures
      var after := Carried(sys, p, n, i, ok);
      && WritersInRange(after)
      && (forall a :: CarriedOut(after, a) <==> CarriedOut(sys, a) || (ok && a == i))
      && (forall s :: SetUp(sys, s) ==> SetUp(after, s))
      && (forall s :: SetUp(after, s) ==> SetUp(sys, s) || (ok && IsAddOf(sys.db.commands[i], s)))
      && (forall c, s :: Failing(sys, c, s) ==> Failing(after, c, s))
  {
    var after := Carried(sys, p, n, i, ok);
    CarriedIs(sys, p, n, i, ok);
    forall q, j: nat, yes | IsWriting(after, q, j, yes) ensures j < |sys.db.commands| {
      if IsWriting(sys, q, j, yes) { assert WritesHead(sys, j, yes); }
    }
    forall a: nat ensures CarriedOut(after, a) <==> CarriedOut(sys, a) || (ok && a == i) {
      if q :| IsWriting(sys, q, a, true) { assert IsWriting(after, q, a, true); }
      if ok && a == i { assert IsWriting(after, p, i, true); }
    }
    forall s | SetUp(sys, s) ensures SetUp(after, s) {
      var a :| 0 <= a < |sys.db.commands| && IsAddOf(sys.db.commands[a], s) && CarriedOut(sys, a);
      assert CarriedOut(after, a);
    }
    forall c, s | Failing(sys, c, s) ensures Failing(after, c, s) {
      var q :| q in sys.ackers && sys.ackers[q] == Updating(c, s, false);
      assert after.ackers[q] == Updating(c, s, false);
    }
  }

  lemma CarriedKeepsServed(sys: Sys, p: nat, n: nat, i: nat, ok: bool)
    requires Fifo.Inv(sys) && Inv(sys) && Executable(sys, p, n, i, ok)
    ensures WantedAreServed(Carried(sys, p, n, i, ok))
  {
    var after := Carried(sys, p, n, i, ok);
    var db := sys.db;
    CarriedIs(sys, p, n, i, ok);
    CarriedSetUp(sys, p, n, i, ok);
    forall a, s | 0 <= a < |db.commands| && IsAddOf(after.db.commands[a], s) && Wanted(after.db, s) ensures Served(after, a, s) {
      assert IsAddOf(db.commands[a], s) && Served(sys, a, s);
      if a != i && CarriedOut(sys, a) && db.commands[a].node == n && !db.commands[i].kind.Sync? {
        HeadKeyIsFree(sys, n, i, a, s);
      }
    }
  }

  lemma CarriedKeepsExplained(sys: Sys, p: nat, n: nat, i: nat, ok: bool)
    requires Fifo.Inv(sys) && Inv(sys) && Executable(sys, p, n, i, ok)
    ensures PeersAreExplained(Carried(sys, p, n, i, ok))
  {
    var after := Carried(sys, p, n, i, ok);
    var c := sys.db.commands[i];
    CarriedIs(sys, p, n, i, ok);
    CarriedSetUp(sys, p, n, i, ok);
    forall m, key | key in Table(after, m) ensures Explained(after, m, key, Table(after, m)[key]) {
      if m == n && c.kind.AddPeer? && ok && key == c.key {
        SetupIsExplained(sys, p, n, i);
      } else {
        assert key in Table(sys, m) && Table(after, m)[key] == Table(sys, m)[key];
        assert Explained(sys, m, key, Table(sys, m)[key]);
      }
    }
  }

  lemma SetupIsExplained(sys: Sys, p: nat, n: nat, i: nat)
    requires Fifo.Inv(sys) && Inv(sys) && Executable(sys, p, n, i, true) && sys.db.commands[i].kind.AddPeer?
    ensures Explained(Carried(sys, p, n, i, true), n, sys.db.commands[i].key, sys.db.commands[i].ip)
  {
    var after := Carried(sys, p, n, i, true);
    var db := sys.db;
    CarriedIs(sys, p, n, i, true);
    CarriedSetUp(sys, p, n, i, true);
    if RemovalBehind(db, i) {
      var r :| i < r < |db.commands| && RemovesKey(db.commands[r], n, db.commands[i].key);
      assert RemovesKey(after.db.commands[r], n, db.commands[i].key) && Open(after.db.commands[r]);
    } else {
      var s := db.commands[i].session.value;
      assert IsAddOf(after.db.commands[i], s) && CarriedOut(after, i);
      assert Wanted(after.db, s) && SetUp(after, s);
    }
  }

  lemma CarriedKeeps(sys: Sys, p: nat, n: nat, i: nat, ok: bool)
    requires Fifo.Inv(sys) && Inv(sys) && Executable(sys, p, n, i, ok)
    ensures Inv(Carried(sys, p, n, i, ok))
  {
    var after := Carried(sys, p, n, i, ok);
    CarriedIs(sys, p, n, i, ok);
    CarriedSetUp(sys, p, n, i, ok);
    CarriedKeepsServed(sys, p, n, i, ok);
    CarriedKeepsExplained(sys, p, n, i, ok);
    assert Structure(after) by { assert Keys.Inv(after); }
    assert RepliesAreSafe(after);
    assert Processes(after) by {
      assert forall s :: Exclusive.BeingClosed(after, s) == Exclusive.BeingClosed(sys, s);
    }
  }

  lemma PeersOnlyKeep(sys: Sys, after: Sys)
    requires Inv(sys) && after == sys.(peers := after.peers, replies := after.replies) && Peers(after)
    ensures Inv(after)
  {
    assert Structure(after) by { assert Keys.Inv(after); }
    assert Processes(after) by {
      assert forall s :: Exclusive.BeingClosed(after, s) == Exclusive.BeingClosed(sys, s);
    }
  }

  lemma ReportKeepsPeers(sys: Sys, n: nat)
    requires Peers(sys)
    ensures Peers(ApplyAgent(sys, Report(n)))
  {
    var after := ApplyAgent(sys, Report(n));
    assert after.db == sys.db && after.ackers == sys.ackers && after.peers == sys.peers;
    SameSetUp(sys, after);
    assert forall s :: IsLive(sys.db, s) && sys.db.sessions[s].node == n ==> s in LiveOfNode(sys.db.sessions, n);
    assert forall a, s :: Failing(sys, a, s) ==> Failing(after, a, s);
    forall m, key | key in Table(after, m) ensures Explained(after, m, key, Table(after, m)[key]) {
      assert Explained(sys, m, key, Table(sys, m)[key]);
    }
  }

  /** What a report answer removes is nobody's peer, even if sessions were opened since. */
  lemma ReportApplyKeepsPeers(sys: Sys, n: nat)
    requires Peers(sys) && CommandsMatch(sys.db) && n in sys.replies
    ensures Peers(ApplyAgent(sys, ReportApply(n)))
  {
    var after := ApplyAgent(sys, ReportApply(n));
    SameSetUp(sys, after);
    assert forall a, s :: Failing(sys, a, s) ==> Failing(after, a, s);
    forall m, key | key in Table(after, m) ensures Explained(after, m, key, Table(after, m)[key]) {
      assert Explained(sys, m, key, Table(sys, m)[key]);
    }
    forall a, s | 0 <= a < |sys.db.commands| && IsAddOf(sys.db.commands[a], s) && Wanted(sys.db, s) ensures Served(after, a, s) {
      assert Served(sys, a, s);
      if CarriedOut(sys, a) { assert SetUp(sys, s); }
    }
  }

  lemma AgentStepKeeps(sys: Sys, step: AgentStep)
    requires Fifo.Inv(sys) && Inv(sys) && Orderly(sys, OnAgent(step))
    ensures Inv(ApplyAgent(sys, step))
  {
    match step
    case ExecuteAndAck(p, n, i, ok) => CarriedKeeps(sys, p, n, i, ok);
    case Report(n) =>
      ReportKeepsPeers(sys, n);
      PeersOnlyKeep(sys, ApplyAgent(sys, Report(n)));
    case ReportApply(n) =>
      if n in sys.replies {
        ReportApplyKeepsPeers(sys, n);
        PeersOnlyKeep(sys, ApplyAgent(sys, ReportApply(n)));
      }
  }

  // --------------------------------------------------------------- runs -----

  /** One step of a run without loss in which no removal is overtaken and no live session's rows are deleted. */
  ghost predicate LossFree(sys: Sys, step: Step) {
    && Orderly(sys, step)
    && match step
       case OnDevice(RemoveDevice(d)) => LiveOfDevice(sys.db.sessions, d) == {}
       case OnClose(close) => NotOvertaken(sys, close)
       case _ => true
  }

  lemma QueueStepKeeps(sys: Sys, step: QueueStep)
    requires Inv(sys) && LossFree(sys, OnQueue(step))
    ensures Inv(ApplyQueue(sys, step))
  {
    var after := ApplyQueue(sys, step);
    match step
    case ClaimCancel(p, n) =>
      if p !in sys.claimers {
        CancelKeeps(sys, n);
        ClaimersOnlyKeep(sys.(db := CancelDead(sys.db, n)), after);
      }
    case ClaimTake(p, now) =>
      if p in sys.claimers {
        TakeKeeps(sys, sys.claimers[p], CLAIM_LIMIT, now);
        ClaimersOnlyKeep(sys.(db := TakeOldest(sys.db, sys.claimers[p], CLAIM_LIMIT, now)), after);
      }
    case PolicyChange(n) => SyncKeeps(sys, n);
    case Requeue(cutoff, maxAttempts) => Fifo.FreshSweep(sys, cutoff, maxAttempts);
  }

  lemma LeaseStepKeeps(sys: Sys, step: LeaseStep)
    requires Inv(sys)
    ensures Inv(ApplyLease(sys, step))
  {
    Keys.LeaseStepKeeps(sys, step);
    LeasesChange(sys, step);
    QuietKeeps(sys, ApplyLease(sys, step));
  }

  lemma StepKeeps(sys: Sys, step: Step)
    requires Fifo.Inv(sys) && Inv(sys) && LossFree(sys, step)
    ensures Inv(Apply(sys, step))
  {
    match step
    case Configure(_, _, _) =>
      Keys.StepKeeps(sys, step);
      QuietKeeps(sys, Apply(sys, step));
    case Connect(u, d, version, n, plan) => ConnectKeeps(sys, u, d, version, n, plan);
    case OnDevice(device) => DeviceStepKeeps(sys, device);
    case OnClose(close) => CloseStepKeeps(sys, close);
    case OnQueue(queue) => QueueStepKeeps(sys, queue);
    case OnAck(AckWrite(p)) => AckWriteKeeps(sys, p);
    case OnAck(AckUpdate(p, now)) => AckUpdateKeeps(sys, p, now);
    case OnAck(AckRelease(p)) => AckReleaseKeeps(sys, p);
    case OnLease(lease) => LeaseStepKeeps(sys, lease);
    case OnAgent(agent) => AgentStepKeeps(sys, agent);
  }

  ghost predicate LossFreeRun(sys: Sys, steps: seq<Step>)
    decreases |steps|
  {
    steps != [] ==> LossFree(sys, steps[0]) && LossFreeRun(Apply(sys, steps[0]), steps[1..])
  }

  lemma {:induction false} TraceIsLossFree(states: seq<Sys>, steps: seq<Step>, first: nat, last: nat)
    requires Traces(states, steps) && first <= last <= |steps|
    requires forall k :: first <= k < last ==> LossFree(states[k], steps[k])
    ensures LossFreeRun(states[first], steps[first..last])
    decreases last - first
  {
    if first < last {
      TraceIsLossFree(states, steps, first + 1, last);
      assert steps[first..last][1..] == steps[first + 1..last];
    }
  }

  lemma {:induction false} RunKeeps(sys: Sys, steps: seq<Step>)
    requires Fifo.Inv(sys) && Inv(sys) && LossFreeRun(sys, steps)
    ensures Fifo.Inv(Run(sys, steps)) && Inv(Run(sys, steps))
    decreases |steps|
  {
    if steps != [] {
      Fifo.StepKeeps(sys, steps[0]);
      StepKeeps(sys, steps[0]);
      RunKeeps(Apply(sys, steps[0]), steps[1..]);
    }
  }

  lemma InstalledIsSound(init: Sys)
    requires Installed(init)
    ensures Fifo.Inv(init) && Inv(init)
  {
    Keys.InstalledIsSound(init);
    Fifo.InstalledIsInOrder(init);
  }

  /** The node has nothing left to do. */
  ghost predicate Quiescent(sys: Sys, n: nat) {
    forall i :: 0 <= i < |sys.db.commands| && sys.db.commands[i].node == n ==> !Open(sys.db.commands[i])
  }

  /** A request is about to end the session: a closeSession, or the handler that was told its setup failed. */
  ghost predicate Ending(sys: Sys, s: nat) {
    Exclusive.BeingClosed(sys, s) || exists a :: Failing(sys, a, s)
  }

  lemma StayingHavePeers(sys: Sys, n: nat, s: nat)
    requires Inv(sys) && Quiescent(sys, n) && s in LiveOfNode(sys.db.sessions, n) && !Ending(sys, s)
    ensures sys.db.sessions[s].key in Table(sys, n) && Table(sys, n)[sys.db.sessions[s].key] == sys.db.sessions[s].ip
  {
    var a :| 0 <= a < |sys.db.commands| && IsAddOf(sys.db.commands[a], s);
    assert !Failing(sys, a, s);
    assert Wanted(sys.db, s) && Served(sys, a, s);
  }

  lemma PeersAreLive(sys: Sys, n: nat, key: nat) returns (s: nat)
    requires PeersAreExplained(sys) && Quiescent(sys, n) && key in Table(sys, n)
    ensures s in LiveOfNode(sys.db.sessions, n) && sys.db.sessions[s].key == key && sys.db.sessions[s].ip == Table(sys, n)[key]
    ensures Wanted(sys.db, s) && SetUp(sys, s)
  {
    assert Explained(sys, n, key, Table(sys, n)[key]) && !OpenRemoval(sys.db, n, key);
    s :| Wanted(sys.db, s) && sys.db.sessions[s].node == n && sys.db.sessions[s].key == key
      && sys.db.sessions[s].ip == Table(sys, n)[key] && SetUp(sys, s);
    assert s in LiveOfNode(sys.db.sessions, n);
  }

  lemma WantedAreNotEnding(sys: Sys, s: nat)
    requires Fifo.Inv(sys) && Inv(sys) && Wanted(sys.db, s) && SetUp(sys, s)
    ensures !Ending(sys, s)
  {
    if a: nat :| Failing(sys, a, s) {
      var q :| q in sys.ackers && sys.ackers[q] == Updating(a, s, false);
      FailedIsNotSetUp(sys, q);
    }
  }

  /**
   * After any run without loss, a node with nothing left to do has the peer of a live session, with its
   * own address, if and only if no request is about to end that session.
   */
  lemma HasPeerIff(init: Sys, steps: seq<Step>, sys: Sys, n: nat, s: nat)
    requires Installed(init) && LossFreeRun(init, steps) && sys == Run(init, steps) && Quiescent(sys, n)
    requires s in LiveOfNode(sys.db.sessions, n)
    ensures sys.db.sessions[s].key in Table(sys, n) <==> !Ending(sys, s)
    ensures !Ending(sys, s) ==> Table(sys, n)[sys.db.sessions[s].key] == sys.db.sessions[s].ip
  {
    InstalledIsSound(init);
    RunKeeps(init, steps);
    if !Ending(sys, s) {
      StayingHavePeers(sys, n, s);
    } else if sys.db.sessions[s].key in Table(sys, n) {
      var t := PeersAreLive(sys, n, sys.db.sessions[s].key);
      Keys.SameKeySameSession(sys, s, t);
      WantedAreNotEnding(sys, t);
    }
  }

  /**
   * So it has exactly the peers of its live sessions that nobody is about to end, each with the session's
   * own address, whatever requests for other nodes have left unfinished.
   */
  lemma PeersAgreeWithSessions(init: Sys, steps: seq<Step>, sys: Sys, n: nat, key: nat, ip: nat)
    requires Installed(init) && LossFreeRun(init, steps) && sys == Run(init, steps) && Quiescent(sys, n)
    ensures
      key in Table(sys, n) && Table(sys, n)[key] == ip <==>
      exists s :: s in LiveOfNode(sys.db.sessions, n) && !Ending(sys, s) && sys.db.sessions[s].key == key && sys.db.sessions[s].ip == ip
  {
    InstalledIsSound(init);
    RunKeeps(init, steps);
    if key in Table(sys, n) {
      var s := PeersAreLive(sys, n, key);
      WantedAreNotEnding(sys, s);
    }
    forall s | s in LiveOfNode(sys.db.sessions, n) && !Ending(sys, s) ensures
      sys.db.sessions[s].key in Table(sys, n) && Table(sys, n)[sys.db.sessions[s].key] == sys.db.sessions[s].ip {
      StayingHavePeers(sys, n, s);
    }
  }

  /** No two peers of such a node share an address unless the session of one of them was robbed of its lease. */
  lemma PeersShareIfRobbed(init: Sys, steps: seq<Step>, sys: Sys, n: nat, k1: nat, k2: nat)
    requires Installed(init) && LossFreeRun(init, steps) && sys == Run(init, steps) && Quiescent(sys, n)
    requires k1 in Table(sys, n) && k2 in Table(sys, n) && k1 != k2 && Table(sys, n)[k1] == Table(sys, n)[k2]
    ensures exists s :: s in LiveOfNode(sys.db.sessions, n) && sys.db.sessions[s].key in {k1, k2} && Leases.Robbed(init, steps, s)
  {
    InstalledIsSound(init);
    RunKeeps(init, steps);
    var s := PeersAreLive(sys, n, k1);
    var t := PeersAreLive(sys, n, k2);
    Leases.UnrobbedAreDistinct(init, steps, sys, s, t);
  }

  /** If leases are reclaimed with care, none do. */
  lemma PeerAddressesAreDistinct(init: Sys, steps: seq<Step>, sys: Sys, n: nat, k1: nat, k2: nat)
    requires Installed(init) && LossFreeRun(init, steps) && Exclusive.Careful(init, steps)
    requires sys == Run(init, steps) && Quiescent(sys, n)
    requires k1 in Table(sys, n) && k2 in Table(sys, n) && Table(sys, n)[k1] == Table(sys, n)[k2]
    ensures k1 == k2
  {
    InstalledIsSound(init);
    RunKeeps(init, steps);
    var s := PeersAreLive(sys, n, k1);
    var t := PeersAreLive(sys, n, k2);
    WantedAreNotEnding(sys, s);
    WantedAreNotEnding(sys, t);
    Exclusive.AddressesAreDistinct(init, steps, sys, s, t);
  }
}
