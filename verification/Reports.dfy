/**
 * The report handler: a node sends its whole peer table with byte counters, the control plane moves
 * the counters of the sessions behind it forward, closes active sessions whose peer is gone, and
 * answers with the peers that have no live session. It compares keys; Repair says what that repairs.
 */
module Reports {
  import opened Rows

  datatype Peer = Peer(key: nat, rx: nat, tx: nat, handshake: Option<int>)

  /** The part of a session row a report deals with; `wireguard` is false for gateway and browser sessions. */
  datatype Row = Row(
    node: nat, key: nat, status: SessionStatus, wireguard: bool, connectedAt: int,
    rx: nat, tx: nat, handshake: Option<int>)

  predicate LiveOn(row: Row, n: nat) {
    row.node == n && (row.status.Pending? || row.status.Active?)
  }

  function KeysOf(peers: seq<Peer>): set<nat> {
    set i | 0 <= i < |peers| :: peers[i].key
  }

  /** The entry that is applied last when a key is listed more than once. */
  function LastEntry(peers: seq<Peer>, key: nat): (r: Option<Peer>)
    ensures r.Some? <==> key in KeysOf(peers)
    ensures r.Some? ==> r.value in peers && r.value.key == key
  {
    if peers == [] then None
    else if peers[|peers| - 1].key == key then
      assert peers[|peers| - 1] in peers; Some(peers[|peers| - 1])
    else
      var rest := peers[..|peers| - 1];
      KeysOfLast(rest, peers[|peers| - 1]);
      assert peers == rest + [peers[|peers| - 1]];
      LastEntry(rest, key)
  }

  /** Counters only move forward, and a missing handshake leaves the known one. */
  function Counted(row: Row, peer: Peer): Row {
    row.(rx := Max(peer.rx, row.rx), tx := Max(peer.tx, row.tx),
         handshake := if peer.handshake.Some? then peer.handshake else row.handshake)
  }

  function LiveRows(rows: map<nat, Row>, n: nat): set<nat> {
    set s | s in rows && LiveOn(rows[s], n)
  }

  /** The rows a query returns, in whatever order the database chose. */
  ghost predicate Enumerates(order: seq<nat>, rows: set<nat>) {
    && (forall s :: s in order <==> s in rows)
    && (forall i, j :: 0 <= i < j < |order| ==> order[i] != order[j])
  }

  /** The handler's index by key: of two live sessions with one key it keeps the later of the query's order. */
  predicate Owns(rows: map<nat, Row>, order: seq<nat>, s: nat) {
    exists i :: 0 <= i < |order| && order[i] == s && s in rows
      && forall j :: i < j < |order| && order[j] in rows ==> rows[order[j]].key != rows[s].key
  }

  /** Session `s` is the one a handler that read `read` finds under the key. */
  ghost predicate IsOwner(read: map<nat, Row>, order: seq<nat>, key: nat, s: nat) {
    Owns(read, order, s) && read[s].key == key
  }

  function WithCounters(rows: map<nat, Row>, order: seq<nat>, s: nat, peers: seq<Peer>): Row
    requires s in rows
  {
    var entry := LastEntry(peers, rows[s].key);
    if Owns(rows, order, s) && entry.Some? then Counted(rows[s], entry.value) else rows[s]
  }

  predicate PeerMissing(row: Row, n: nat, peers: seq<Peer>, cutoff: int) {
    row.node == n && row.status.Active? && row.wireguard && row.key !in KeysOf(peers) && row.connectedAt <= cutoff
  }

  function AfterReport(rows: map<nat, Row>, order: seq<nat>, n: nat, s: nat, peers: seq<Peer>, cutoff: int): Row
    requires s in rows
  {
    if PeerMissing(rows[s], n, peers, cutoff) then rows[s].(status := Closed) else WithCounters(rows, order, s, peers)
  }

  function LiveKeysOf(rows: map<nat, Row>, n: nat): set<nat> {
    set s | s in rows && LiveOn(rows[s], n) :: rows[s].key
  }

  /** The reported peers no live session stands behind, in the order they were reported. */
  function Unknown(rows: map<nat, Row>, n: nat, peers: seq<Peer>): seq<nat> {
    if peers == [] then []
    else
      var last := peers[|peers| - 1];
      Unknown(rows, n, peers[..|peers| - 1]) + if last.key in LiveKeysOf(rows, n) then [] else [last.key]
  }

  lemma {:induction false} UnknownAreTheStrangers(rows: map<nat, Row>, n: nat, peers: seq<Peer>)
    ensures forall k :: k in Unknown(rows, n, peers) <==> k in KeysOf(peers) && k !in LiveKeysOf(rows, n)
  {
    if peers != [] {
      var front, last := peers[..|peers| - 1], peers[|peers| - 1];
      UnknownAreTheStrangers(rows, n, front);
      KeysOfLast(front, last);
      assert peers == front + [last];
    }
  }

  lemma KeysOfLast(front: seq<Peer>, last: Peer)
    ensures KeysOf(front + [last]) == KeysOf(front) + {last.key}
  {
    var peers := front + [last];
    forall i | 0 <= i < |peers| ensures peers[i].key in KeysOf(front) + {last.key} {
      if i < |front| { assert front[i] == peers[i]; }
    }
    forall i | 0 <= i < |front| ensures front[i].key in KeysOf(peers) { assert peers[i] == front[i]; }
    assert peers[|front|].key in KeysOf(peers);
  }

  function AllCounted(rows: map<nat, Row>, order: seq<nat>, peers: seq<Peer>): map<nat, Row> {
    map s | s in rows :: WithCounters(rows, order, s, peers)
  }

  lemma OneMore(peers: seq<Peer>, peer: Peer, key: nat)
    ensures LastEntry(peers + [peer], key) == if peer.key == key then Some(peer) else LastEntry(peers, key)
  {
    assert (peers + [peer])[..|peers|] == peers;
  }

  /** What the handler writes for a session: the counters are compared with the row it read at the start. */
  function Overwritten(row: Row, peer: Peer, read: Row): Row {
    row.(rx := Max(peer.rx, read.rx), tx := Max(peer.tx, read.tx),
         handshake := if peer.handshake.Some? then peer.handshake else read.handshake)
  }

  lemma OneMoreUnknown(rows: map<nat, Row>, n: nat, peers: seq<Peer>, peer: Peer)
    ensures Unknown(rows, n, peers + [peer]) ==
      Unknown(rows, n, peers) + (if peer.key in LiveKeysOf(rows, n) then [] else [peer.key])
  {
    assert (peers + [peer])[..|peers|] == peers;
  }

  lemma StrangerIsNotCounted(rows: map<nat, Row>, order: seq<nat>, n: nat, peers: seq<Peer>, peer: Peer)
    requires Enumerates(order, LiveRows(rows, n)) && peer.key !in LiveKeysOf(rows, n)
    ensures AllCounted(rows, order, peers + [peer]) == AllCounted(rows, order, peers)
  {
    forall s | s in rows ensures WithCounters(rows, order, s, peers + [peer]) == WithCounters(rows, order, s, peers) {
      OneMore(peers, peer, rows[s].key);
      if Owns(rows, order, s) {
        assert s in order;
        assert rows[s].key in LiveKeysOf(rows, n);
      }
    }
  }

  lemma OwnerIsAlone(rows: map<nat, Row>, order: seq<nat>, s: nat, t: nat)
    requires Owns(rows, order, s) && Owns(rows, order, t) && rows[s].key == rows[t].key
    ensures s == t
  {
  }

  lemma OwnerIsCounted(rows: map<nat, Row>, order: seq<nat>, peers: seq<Peer>, peer: Peer, s: nat)
    requires Owns(rows, order, s) && rows[s].key == peer.key
    ensures AllCounted(rows, order, peers + [peer]) ==
      AllCounted(rows, order, peers)[s := Overwritten(AllCounted(rows, order, peers)[s], peer, rows[s])]
  {
    forall t | t in rows
      ensures WithCounters(rows, order, t, peers + [peer]) == if t == s then Counted(rows[s], peer) else WithCounters(rows, order, t, peers)
    {
      OneMore(peers, peer, rows[t].key);
      if t != s && Owns(rows, order, t) && rows[t].key == peer.key { OwnerIsAlone(rows, order, s, t); }
    }
  }

  // ---------------------------------------------- what a report does to a row ----

  /**
   * A live session of the node that the report lists keeps all but its counters and handshake; one that
   * is an active tunnel past its grace period and not listed is closed; every other row stays.
   */
  predicate IsApplied(before: Row, after: Row, n: nat, peers: seq<Peer>, cutoff: int) {
    var listed := exists i :: 0 <= i < |peers| && peers[i].key == before.key;
    if before.node != n || before.status == Closed || before.status == Failed then after == before
    else if listed then after == before.(rx := after.rx, tx := after.tx, handshake := after.handshake)
    else if before.status == Active && before.wireguard && before.connectedAt <= cutoff then after == before.(status := Closed)
    else after == before
  }

  /** `i` is the last entry for the key of `s`, the one live session of the node that has it. */
  predicate IsOnlyEntry(rows: map<nat, Row>, n: nat, s: nat, peers: seq<Peer>, i: int) {
    && s in rows && LiveOn(rows[s], n) && 0 <= i < |peers| && peers[i].key == rows[s].key
    && (forall j :: i < j < |peers| ==> peers[j].key != rows[s].key)
    && forall t :: t in rows && LiveOn(rows[t], n) && rows[t].key == rows[s].key ==> t == s
  }

  predicate IsCounted(before: Row, after: Row, peer: Peer) {
    && after.rx == (if peer.rx > before.rx then peer.rx else before.rx)
    && after.tx == (if peer.tx > before.tx then peer.tx else before.tx)
    && after.handshake == if peer.handshake != None then peer.handshake else before.handshake
  }

  lemma ReportIsApplied(rows: map<nat, Row>, order: seq<nat>, n: nat, peers: seq<Peer>, cutoff: int, s: nat)
    requires s in rows && Enumerates(order, LiveRows(rows, n))
    ensures IsApplied(rows[s], AfterReport(rows, order, n, s, peers, cutoff), n, peers, cutoff)
  {
    assert Owns(rows, order, s) ==> s in order;
    assert rows[s].key in KeysOf(peers) <==> exists i :: 0 <= i < |peers| && peers[i].key == rows[s].key;
  }

  lemma OnlyEntryIsCounted(rows: map<nat, Row>, order: seq<nat>, n: nat, peers: seq<Peer>, cutoff: int, s: nat, i: int)
    requires Enumerates(order, LiveRows(rows, n)) && IsOnlyEntry(rows, n, s, peers, i)
    ensures IsCounted(rows[s], AfterReport(rows, order, n, s, peers, cutoff), peers[i])
  {
    assert s in order;
    var k :| 0 <= k < |order| && order[k] == s;
    forall j | k < j < |order| && order[j] in rows ensures rows[order[j]].key != rows[s].key {
      assert order[j] in order;
    }
    assert Owns(rows, order, s);
    LastIsEntry(peers, i);
  }

  lemma StrangersAreListed(rows: map<nat, Row>, n: nat, peers: seq<Peer>)
    ensures forall key :: key in Unknown(rows, n, peers) <==>
      && (exists i :: 0 <= i < |peers| && peers[i].key == key)
      && forall s :: s in rows && rows[s].node == n && rows[s].status in {Pending, Active} ==> rows[s].key != key
  {
    UnknownAreTheStrangers(rows, n, peers);
    assert forall key :: key in KeysOf(peers) <==> exists i :: 0 <= i < |peers| && peers[i].key == key;
    assert forall key :: key in LiveKeysOf(rows, n) <==> exists s :: s in rows && LiveOn(rows[s], n) && rows[s].key == key;
  }

  lemma AllIsApplied(rows: map<nat, Row>, order: seq<nat>, n: nat, peers: seq<Peer>, cutoff: int)
    requires Enumerates(order, LiveRows(rows, n))
    ensures forall s :: s in rows ==> IsApplied(rows[s], AfterReport(rows, order, n, s, peers, cutoff), n, peers, cutoff)
    ensures forall s, i :: s in rows && IsOnlyEntry(rows, n, s, peers, i) ==>
      IsCounted(rows[s], AfterReport(rows, order, n, s, peers, cutoff), peers[i])
  {
    forall s | s in rows ensures IsApplied(rows[s], AfterReport(rows, order, n, s, peers, cutoff), n, peers, cutoff) {
      ReportIsApplied(rows, order, n, peers, cutoff, s);
    }
    forall s, i | s in rows && IsOnlyEntry(rows, n, s, peers, i) ensures IsCounted(rows[s], AfterReport(rows, order, n, s, peers, cutoff), peers[i]) {
      OnlyEntryIsCounted(rows, order, n, peers, cutoff, s, i);
    }
  }

  lemma {:induction false} LastIsEntry(peers: seq<Peer>, i: nat)
    requires i < |peers| && forall j :: i < j < |peers| ==> peers[j].key != peers[i].key
    ensures LastEntry(peers, peers[i].key) == Some(peers[i])
    decreases |peers|
  {
    if i < |peers| - 1 { LastIsEntry(peers[..|peers| - 1], i); }
  }

  class SessionTable {
    var rows: map<nat, Row>
    /** Sessions with an open REMOVE_PEER. */
    var removals: set<nat>

    constructor (rows: map<nat, Row>)
      ensures this.rows == rows && removals == {}
    {
      this.rows, this.removals := rows, {};
    }

    /** The index of the live sessions of a node by key, in the order the query returns them. */
    method IndexByKey(n: nat) returns (byKey: map<nat, nat>, ghost order: seq<nat>)
      ensures Enumerates(order, LiveRows(rows, n))
      ensures byKey.Keys == LiveKeysOf(rows, n)
      ensures forall key :: key in byKey ==> Owns(rows, order, byKey[key]) && rows[byKey[key]].key == key
    {
      byKey, order := map[], [];
      var rest := LiveRows(rows, n);
      while rest != {}
        invariant rest <= LiveRows(rows, n) && Enumerates(order, LiveRows(rows, n) - rest)
        invariant forall i :: 0 <= i < |order| ==> order[i] in rows && rows[order[i]].key in byKey
        invariant forall key :: key in byKey ==> Owns(rows, order, byKey[key]) && rows[byKey[key]].key == key
        decreases rest
      {
        var s :| s in rest;
        ghost var before, indexed := order, byKey;
        order, rest := order + [s], rest - {s};
        byKey := byKey[rows[s].key := s];
        forall key | key in byKey ensures Owns(rows, order, byKey[key]) && rows[byKey[key]].key == key {
          if key == rows[s].key {
            assert order[|before|] == s;
          } else {
            var i :| 0 <= i < |before| && before[i] == indexed[key]
              && forall j :: i < j < |before| && before[j] in rows ==> rows[before[j]].key != rows[indexed[key]].key;
            assert order[i] == indexed[key];
          }
        }
        assert order[|before|] == s;
      }
      assert byKey.Keys == LiveKeysOf(rows, n) by {
        forall key | key in LiveKeysOf(rows, n) ensures key in byKey {
          var s :| s in rows && LiveOn(rows[s], n) && rows[s].key == key;
          assert s in order;
        }
        forall key | key in byKey ensures key in LiveKeysOf(rows, n) {
          assert byKey[key] in order;
        }
      }
    }

    /** First loop: counters of known peers, and the keys to remove. */
    method CountPeers(n: nat, peers: seq<Peer>) returns (removePeers: seq<nat>, ghost order: seq<nat>)
      modifies this`rows
      ensures Enumerates(order, LiveRows(old(rows), n))
      ensures removePeers == Unknown(old(rows), n, peers)
      ensures rows == AllCounted(old(rows), order, peers)
    {
      ghost var before := rows;
      var live := rows;
      var byKey;
      byKey, order := IndexByKey(n);
      removePeers := [];
      for i := 0 to |peers|
        invariant removePeers == Unknown(before, n, peers[..i])
        invariant rows == AllCounted(before, order, peers[..i])
      {
        var peer := peers[i];
        assert peers[..i + 1] == peers[..i] + [peer];
        OneMoreUnknown(before, n, peers[..i], peer);
        if peer.key !in byKey {
          StrangerIsNotCounted(before, order, n, peers[..i], peer);
          removePeers := removePeers + [peer.key];
        } else {
          var s := byKey[peer.key];
          OwnerIsCounted(before, order, peers[..i], peer, s);
          rows := rows[s := Overwritten(rows[s], peer, live[s])];
        }
      }
      assert peers[..|peers|] == peers;
    }

    /** Second loop: active sessions past the grace period whose peer the node does not have are closed, each with a removal. */
    method ClosePeerless(n: nat, peers: seq<Peer>, cutoff: int)
      modifies this
      ensures rows == map s | s in old(rows) ::
        if PeerMissing(old(rows)[s], n, peers, cutoff) then old(rows)[s].(status := Closed) else old(rows)[s]
      ensures removals == old(removals) + set s | s in old(rows) && PeerMissing(old(rows)[s], n, peers, cutoff)
    {
      ghost var before, queued := rows, removals;
      var live := map s | s in rows && LiveOn(rows[s], n) :: rows[s];
      var reported := KeysOf(peers);
      var rest := live.Keys;
      while rest != {}
        invariant rest <= live.Keys && rows.Keys == before.Keys
        invariant forall s :: s in before ==>
          rows[s] == if s !in rest && PeerMissing(before[s], n, peers, cutoff) then before[s].(status := Closed) else before[s]
        invariant removals == queued + set s | s in before && s !in rest && PeerMissing(before[s], n, peers, cutoff)
        decreases rest
      {
        var s :| s in rest;
        rest := rest - {s};
        if live[s].status.Active? && live[s].wireguard && live[s].key !in reported && live[s].connectedAt <= cutoff {
          removals := removals + {s};
          rows := rows[s := rows[s].(status := Closed)];
        }
      }
    }

    method ApplyReport(n: nat, peers: seq<Peer>, cutoff: int) returns (removePeers: seq<nat>, missing: set<nat>, ghost order: seq<nat>)
      modifies this
      ensures Enumerates(order, LiveRows(old(rows), n))
      ensures removePeers == Unknown(old(rows), n, peers)
      ensures missing == set s | s in old(rows) && LiveOn(old(rows)[s], n) && old(rows)[s].key !in KeysOf(peers)
      ensures rows == map s | s in old(rows) :: AfterReport(old(rows), order, n, s, peers, cutoff)
      ensures removals == old(removals) + set s | s in old(rows) && PeerMissing(old(rows)[s], n, peers, cutoff)
      ensures rows.Keys == old(rows).Keys && forall s :: s in rows ==> IsApplied(old(rows)[s], rows[s], n, peers, cutoff)
      ensures forall s, i :: s in rows && IsOnlyEntry(old(rows), n, s, peers, i) ==> IsCounted(old(rows)[s], rows[s], peers[i])
      ensures forall key :: key in removePeers <==>
        && (exists i :: 0 <= i < |peers| && peers[i].key == key)
        && forall s :: s in old(rows) && old(rows)[s].node == n && old(rows)[s].status in {Pending, Active} ==> old(rows)[s].key != key
    {
      ghost var before := rows;
      missing := set s | s in rows && LiveOn(rows[s], n) && rows[s].key !in KeysOf(peers);
      removePeers, order := CountPeers(n, peers);
      CountingLeavesStatus(before, order, n, peers, cutoff);
      ClosePeerless(n, peers, cutoff);
      StrangersAreListed(before, n, peers);
      AllIsApplied(before, order, n, peers, cutoff);
    }
  }

  lemma CountingLeavesStatus(rows: map<nat, Row>, order: seq<nat>, n: nat, peers: seq<Peer>, cutoff: int)
    ensures forall s :: s in rows ==>
      PeerMissing(AllCounted(rows, order, peers)[s], n, peers, cutoff) == PeerMissing(rows[s], n, peers, cutoff)
    ensures forall s :: s in rows && PeerMissing(rows[s], n, peers, cutoff) ==> AllCounted(rows, order, peers)[s] == rows[s]
  {
  }

  function AllAfterReport(rows: map<nat, Row>, order: seq<nat>, n: nat, peers: seq<Peer>, cutoff: int): map<nat, Row> {
    map s | s in rows :: AfterReport(rows, order, n, s, peers, cutoff)
  }

  /**
   * Once a report has been handled and the agent has dropped the peers it was told to, every peer left
   * has the key of a live session, every active tunnel past its grace period has a peer, and what a live
   * session had is as it was, addresses included.
   */
  lemma ReportRepairs(rows: map<nat, Row>, order: seq<nat>, n: nat, peers: seq<Peer>, cutoff: int, table: map<nat, nat>)
    requires table.Keys == KeysOf(peers)
    ensures
      var next := AllAfterReport(rows, order, n, peers, cutoff);
      var repaired := table - (set k | k in Unknown(rows, n, peers));
      && repaired.Keys <= LiveKeysOf(next, n)
      && (forall s :: s in next && LiveOn(next[s], n) && next[s].status.Active? && next[s].wireguard && next[s].connectedAt <= cutoff
            ==> next[s].key in repaired)
      && (forall k :: k in table && k in LiveKeysOf(rows, n) ==> k in repaired && repaired[k] == table[k])
      && (forall s :: s in rows && LiveOn(rows[s], n) && rows[s].key in table ==> next[s].status == rows[s].status)
  {
    UnknownAreTheStrangers(rows, n, peers);
    ReportedStayLive(rows, order, n, peers, cutoff);
    PeerlessAreClosed(rows, order, n, peers, cutoff);
  }

  lemma ReportedStayLive(rows: map<nat, Row>, order: seq<nat>, n: nat, peers: seq<Peer>, cutoff: int)
    ensures forall k :: k in KeysOf(peers) && k in LiveKeysOf(rows, n) ==> k in LiveKeysOf(AllAfterReport(rows, order, n, peers, cutoff), n)
  {
    var next := AllAfterReport(rows, order, n, peers, cutoff);
    forall k | k in KeysOf(peers) && k in LiveKeysOf(rows, n) ensures k in LiveKeysOf(next, n) {
      var s :| s in rows && LiveOn(rows[s], n) && rows[s].key == k;
      assert next[s].key == k && LiveOn(next[s], n);
    }
  }

  lemma PeerlessAreClosed(rows: map<nat, Row>, order: seq<nat>, n: nat, peers: seq<Peer>, cutoff: int)
    ensures
      var next := AllAfterReport(rows, order, n, peers, cutoff);
      forall s :: s in next && LiveOn(next[s], n) && next[s].status.Active? && next[s].wireguard && next[s].connectedAt <= cutoff
        ==> next[s].key in KeysOf(peers) && next[s].key in LiveKeysOf(rows, n)
  {
    var next := AllAfterReport(rows, order, n, peers, cutoff);
    forall s | s in next && LiveOn(next[s], n) ensures next[s].key in LiveKeysOf(rows, n) {
      assert LiveOn(rows[s], n) && rows[s].key == next[s].key;
    }
  }

  /** Within one handler no counter of any session falls, and it never exceeds both what was known and what was sent. */
  lemma CountersMoveForward(rows: map<nat, Row>, order: seq<nat>, n: nat, peers: seq<Peer>, cutoff: int, s: nat)
    requires s in rows
    ensures
      var next := AllAfterReport(rows, order, n, peers, cutoff)[s];
      && next.rx >= rows[s].rx && next.tx >= rows[s].tx
      && (next.rx == rows[s].rx || exists i :: 0 <= i < |peers| && peers[i].key == rows[s].key && peers[i].rx == next.rx)
      && (next.tx == rows[s].tx || exists i :: 0 <= i < |peers| && peers[i].key == rows[s].key && peers[i].tx == next.tx)
  {
    var entry := LastEntry(peers, rows[s].key);
    if entry.Some? {
      var i :| 0 <= i < |peers| && peers[i] == entry.value;
    }
  }
}
