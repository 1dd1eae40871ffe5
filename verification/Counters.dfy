/**
 * Report handlers that overlap. Each reads the sessions of its node once, and then writes one entry of its
 * list after the other, comparing it with the row as it was read; anything may happen in between.
 */
module Counters {
  import opened Rows
  import opened Reports

  /** A handler between its statements: what it read, in which order, after how many writes, and the entry it is at. */
  datatype Handler = Handler(node: nat, peers: seq<Peer>, read: map<nat, Row>, order: seq<nat>, since: nat, next: nat)

  datatype Write = Write(p: nat, s: nat, rx: nat, tx: nat)

  /** `log` is the history of counter writes; session ids below `nextId` have been given out. */
  datatype State = State(rows: map<nat, Row>, nextId: nat, handlers: map<nat, Handler>, log: seq<Write>)

  datatype Step =
    | ReportRead(p: nat, n: nat, peers: seq<Peer>, order: seq<nat>)
    | ReportWrite(p: nat)
    | Elsewhere(rows: map<nat, Row>, nextId: nat)

  /** What everybody else does to the table: rows come with new ids, go, and change in all but their counters. */
  predicate Admits(sys: State, rows: map<nat, Row>, nextId: nat) {
    && sys.nextId <= nextId
    && forall s :: s in rows ==>
         s < nextId && (s < sys.nextId ==> s in sys.rows && rows[s].rx == sys.rows[s].rx && rows[s].tx == sys.rows[s].tx)
  }

  ghost function OwnerOf(read: map<nat, Row>, order: seq<nat>, key: nat): (r: Option<nat>)
    ensures r.Some? ==> IsOwner(read, order, key, r.value)
  {
    if exists s :: IsOwner(read, order, key, s) then
      var s :| IsOwner(read, order, key, s);
      Some(s)
    else None
  }

  function Ends(sys: State, p: nat): State {
    sys.(handlers := sys.handlers - {p})
  }

  /** The update of one session; on a row that is gone it fails, and with it the handler. */
  function Written(sys: State, p: nat, s: nat, peer: Peer): State
    requires p in sys.handlers && s in sys.handlers[p].read
  {
    if s !in sys.rows then Ends(sys, p)
    else
      var row := Overwritten(sys.rows[s], peer, sys.handlers[p].read[s]);
      sys.(rows := sys.rows[s := row], log := sys.log + [Write(p, s, row.rx, row.tx)],
           handlers := sys.handlers[p := sys.handlers[p].(next := sys.handlers[p].next + 1)])
  }

  ghost function Apply(sys: State, step: Step): State {
    match step
    case ReportRead(p, n, peers, order) =>
      if p in sys.handlers || !Enumerates(order, LiveRows(sys.rows, n)) then sys
      else sys.(handlers := sys.handlers[p := Handler(n, peers, sys.rows, order, |sys.log|, 0)])
    case ReportWrite(p) =>
      if p !in sys.handlers then sys
      else
        var h := sys.handlers[p];
        if h.next >= |h.peers| then Ends(sys, p)
        else
          var owner := OwnerOf(h.read, h.order, h.peers[h.next].key);
          if owner.None? then sys.(handlers := sys.handlers[p := h.(next := h.next + 1)])
          else Written(sys, p, owner.value, h.peers[h.next])
    case Elsewhere(rows, nextId) =>
      if !Admits(sys, rows, nextId) then sys else sys.(rows := rows, nextId := nextId)
  }

  ghost function Run(sys: State, steps: seq<Step>): State
    decreases |steps|
  {
    if steps == [] then sys else Run(Apply(sys, steps[0]), steps[1..])
  }

  /** Any table, and nobody is handling a report. */
  predicate Initial(sys: State) {
    sys.handlers == map[] && sys.log == [] && forall s :: s in sys.rows ==> s < sys.nextId
  }

  /** The last write to `s` among those from `since` on. */
  function LastSince(log: seq<Write>, since: nat, s: nat): (r: Option<Write>)
    decreases |log|
  {
    if |log| <= since then None
    else if log[|log| - 1].s == s then Some(log[|log| - 1])
    else LastSince(log[..|log| - 1], since, s)
  }

  lemma LastOfMore(log: seq<Write>, write: Write, since: nat, s: nat)
    requires since <= |log|
    ensures LastSince(log + [write], since, s) == if write.s == s then Some(write) else LastSince(log, since, s)
  {
    assert (log + [write])[..|log|] == log;
  }

  /** It is the last one: later writes are to other sessions. */
  predicate IsLast(log: seq<Write>, since: nat, s: nat, j: nat) {
    since <= j < |log| && log[j].s == s && forall k :: j < k < |log| ==> log[k].s != s
  }

  lemma {:induction false} LastIs(log: seq<Write>, since: nat, s: nat, write: Write)
    ensures LastSince(log, since, s) == Some(write) <==> exists j: nat :: IsLast(log, since, s, j) && log[j] == write
    decreases |log|
  {
    if |log| > since {
      var last, front := log[|log| - 1], log[..|log| - 1];
      if last.s == s {
        assert IsLast(log, since, s, |log| - 1);
      } else {
        LastIs(front, since, s, write);
        assert forall j: nat :: IsLast(log, since, s, j) <==> IsLast(front, since, s, j);
        assert forall j: nat :: IsLast(front, since, s, j) ==> front[j] == log[j];
      }
    }
  }

  // ---------------------------------------------------------- invariants ----

  /** A counter of a row the handler read is what the last write since left, or what it read. */
  ghost predicate Remembers(sys: State, h: Handler) {
    && h.since <= |sys.log| && h.next <= |h.peers|
    && (forall s :: s in h.read ==> s < sys.nextId)
    && (forall s :: s in h.read && s in sys.rows ==>
          match LastSince(sys.log, h.since, s)
          case None => sys.rows[s].rx == h.read[s].rx && sys.rows[s].tx == h.read[s].tx
          case Some(w) => sys.rows[s].rx == w.rx && sys.rows[s].tx == w.tx)
  }

  /** What the handler itself has written since were entries before the one it is at. */
  ghost predicate OwnWrites(sys: State, p: nat) {
    p in sys.handlers ==>
      var h := sys.handlers[p];
      forall j :: 0 <= h.since <= j < |sys.log| && sys.log[j].p == p ==>
        exists i :: 0 <= i < h.next && i < |h.peers| && IsOwner(h.read, h.order, h.peers[i].key, sys.log[j].s)
  }

  ghost predicate Inv(sys: State) {
    && (forall s :: s in sys.rows ==> s < sys.nextId)
    && (forall p :: p in sys.handlers ==> Remembers(sys, sys.handlers[p]))
    && (forall p :: OwnWrites(sys, p))
  }

  lemma ReadKeeps(sys: State, p: nat, n: nat, peers: seq<Peer>, order: seq<nat>)
    requires Inv(sys)
    ensures Inv(Apply(sys, ReportRead(p, n, peers, order)))
  {
    var after := Apply(sys, ReportRead(p, n, peers, order));
    forall q ensures OwnWrites(after, q) { assert OwnWrites(sys, q); }
  }

  lemma WriteRemembers(sys: State, p: nat, s: nat, peer: Peer, h: Handler)
    requires p in sys.handlers && s in sys.handlers[p].read && s in sys.rows && Remembers(sys, h)
    ensures Remembers(Written(sys, p, s, peer), h)
  {
    var after := Written(sys, p, s, peer);
    forall t | t in h.read && t in after.rows ensures
      match LastSince(after.log, h.since, t)
      case None => after.rows[t].rx == h.read[t].rx && after.rows[t].tx == h.read[t].tx
      case Some(w) => after.rows[t].rx == w.rx && after.rows[t].tx == w.tx
    {
      LastOfMore(sys.log, after.log[|sys.log|], h.since, t);
    }
  }

  lemma WriteIsOwn(sys: State, p: nat, q: nat)
    requires p in sys.handlers && OwnWrites(sys, q) && sys.handlers[p].next < |sys.handlers[p].peers|
    requires
      var h := sys.handlers[p];
      OwnerOf(h.read, h.order, h.peers[h.next].key).Some?
    ensures OwnWrites(Apply(sys, ReportWrite(p)), q)
  {
    var h, after := sys.handlers[p], Apply(sys, ReportWrite(p));
    var s := OwnerOf(h.read, h.order, h.peers[h.next].key).value;
    if q in after.handlers {
      var g := after.handlers[q];
      forall j | 0 <= g.since <= j < |after.log| && after.log[j].p == q
        ensures exists i :: 0 <= i < g.next && i < |g.peers| && IsOwner(g.read, g.order, g.peers[i].key, after.log[j].s)
      {
        if j < |sys.log| {
          assert sys.log[j] == after.log[j];
          var i :| 0 <= i < sys.handlers[q].next && i < |g.peers| && IsOwner(g.read, g.order, g.peers[i].key, sys.log[j].s);
          assert i < g.next;
        } else {
          assert q == p && IsOwner(g.read, g.order, g.peers[h.next].key, s);
        }
      }
    }
  }

  lemma WriteKeeps(sys: State, p: nat)
    requires Inv(sys) && p in sys.handlers && sys.handlers[p].next < |sys.handlers[p].peers|
    requires
      var h := sys.handlers[p];
      OwnerOf(h.read, h.order, h.peers[h.next].key).Some?
    ensures Inv(Apply(sys, ReportWrite(p)))
  {
    var h, after := sys.handlers[p], Apply(sys, ReportWrite(p));
    var s := OwnerOf(h.read, h.order, h.peers[h.next].key).value;
    forall q ensures OwnWrites(after, q) { WriteIsOwn(sys, p, q); }
    if s in sys.rows {
      forall q | q in after.handlers ensures Remembers(after, after.handlers[q]) {
        WriteRemembers(sys, p, s, h.peers[h.next], sys.handlers[q]);
      }
    }
  }

  lemma SkipKeeps(sys: State, p: nat)
    requires Inv(sys) && p in sys.handlers
    ensures Inv(Ends(sys, p))
    ensures sys.handlers[p].next < |sys.handlers[p].peers| ==>
      Inv(sys.(handlers := sys.handlers[p := sys.handlers[p].(next := sys.handlers[p].next + 1)]))
  {
    forall q ensures OwnWrites(Ends(sys, p), q) { assert OwnWrites(sys, q); }
    var h := sys.handlers[p];
    if h.next < |h.peers| {
      var after := sys.(handlers := sys.handlers[p := h.(next := h.next + 1)]);
      forall q ensures OwnWrites(after, q) { SkipIsOwn(sys, p, q); }
    }
  }

  lemma SkipIsOwn(sys: State, p: nat, q: nat)
    requires OwnWrites(sys, q) && p in sys.handlers
    ensures OwnWrites(sys.(handlers := sys.handlers[p := sys.handlers[p].(next := sys.handlers[p].next + 1)]), q)
  {
    if q in sys.handlers {
      var h := sys.handlers[q];
      var next := if q == p then h.next + 1 else h.next;
      forall j | 0 <= h.since <= j < |sys.log| && sys.log[j].p == q
        ensures exists i :: 0 <= i < next && i < |h.peers| && IsOwner(h.read, h.order, h.peers[i].key, sys.log[j].s)
      {
        var i :| 0 <= i < h.next && i < |h.peers| && IsOwner(h.read, h.order, h.peers[i].key, sys.log[j].s);
        assert i < next;
      }
    }
  }

  lemma ElsewhereKeeps(sys: State, rows: map<nat, Row>, nextId: nat)
    requires Inv(sys)
    ensures Inv(Apply(sys, Elsewhere(rows, nextId)))
  {
    var after := Apply(sys, Elsewhere(rows, nextId));
    forall q ensures OwnWrites(after, q) { assert OwnWrites(sys, q); }
    forall q | q in after.handlers ensures Remembers(after, after.handlers[q]) { assert Remembers(sys, sys.handlers[q]); }
  }

  lemma StepKeeps(sys: State, step: Step)
    requires Inv(sys)
    ensures Inv(Apply(sys, step))
  {
    match step
    case ReportRead(p, n, peers, order) => ReadKeeps(sys, p, n, peers, order);
    case ReportWrite(p) =>
      if p in sys.handlers {
        var h := sys.handlers[p];
        SkipKeeps(sys, p);
        if h.next < |h.peers| && OwnerOf(h.read, h.order, h.peers[h.next].key).Some? { WriteKeeps(sys, p); }
      }
    case Elsewhere(rows, nextId) => ElsewhereKeeps(sys, rows, nextId);
  }

  lemma {:induction false} RunKeeps(sys: State, steps: seq<Step>)
    requires Inv(sys)
    ensures Inv(Run(sys, steps))
    decreases |steps|
  {
    if steps != [] {
      StepKeeps(sys, steps[0]);
      RunKeeps(Apply(sys, steps[0]), steps[1..]);
    }
  }

  // -------------------------------------------------------- main results ----

  /** Handler `p` is about to write its next entry, and to session `s`. */
  ghost predicate AboutToWrite(sys: State, p: nat, s: nat) {
    && p in sys.handlers && sys.handlers[p].next < |sys.handlers[p].peers| && s in sys.rows
    && OwnerOf(sys.handlers[p].read, sys.handlers[p].order, sys.handlers[p].peers[sys.handlers[p].next].key) == Some(s)
  }

  predicate Listed(peers: seq<Peer>, next: nat) {
    exists i :: 0 <= i < next && next < |peers| && i < |peers| && peers[i].key == peers[next].key
  }

  /**
   * In every run, whatever handlers overlap and whenever each of them read: the next write of a handler
   * moves a counter of session `s` back if and only if the last write to `s` since that handler's read
   * left a value beyond both what it read and what it was sent. Receive and transmit counters alike.
   */
  lemma OverlapFallsIff(start: State, steps: seq<Step>, sys: State, p: nat, s: nat)
    requires Initial(start) && sys == Run(start, steps) && AboutToWrite(sys, p, s)
    ensures
      var h, after := sys.handlers[p], Apply(sys, ReportWrite(p));
      var peer := h.peers[h.next];
      && s in after.rows
      && (after.rows[s].rx < sys.rows[s].rx <==>
            exists j: nat :: IsLast(sys.log, h.since, s, j) && h.read[s].rx < sys.log[j].rx && peer.rx < sys.log[j].rx)
      && (after.rows[s].tx < sys.rows[s].tx <==>
            exists j: nat :: IsLast(sys.log, h.since, s, j) && h.read[s].tx < sys.log[j].tx && peer.tx < sys.log[j].tx)
  {
    InitialHolds(start);
    RunKeeps(start, steps);
    var h := sys.handlers[p];
    var last := LastSince(sys.log, h.since, s);
    assert Remembers(sys, h);
    if last.Some? {
      LastIs(sys.log, h.since, s, last.value);
      assert forall i: nat, j: nat :: IsLast(sys.log, h.since, s, i) && IsLast(sys.log, h.since, s, j) ==> i == j;
    } else {
      forall j: nat | IsLast(sys.log, h.since, s, j) ensures false { LastIs(sys.log, h.since, s, sys.log[j]); }
    }
  }

  lemma InitialHolds(start: State)
    requires Initial(start)
    ensures Inv(start)
  {
  }

  /** It is another handler's write, unless the handler's own list has the key twice. */
  lemma AnotherHandlerWrote(start: State, steps: seq<Step>, sys: State, p: nat, s: nat, j: nat)
    requires Initial(start) && sys == Run(start, steps) && AboutToWrite(sys, p, s)
    requires IsLast(sys.log, sys.handlers[p].since, s, j)
    ensures sys.log[j].p != p || Listed(sys.handlers[p].peers, sys.handlers[p].next)
  {
    InitialHolds(start);
    RunKeeps(start, steps);
    var h := sys.handlers[p];
    if sys.log[j].p == p {
      assert OwnWrites(sys, p);
      var i :| 0 <= i < h.next && i < |h.peers| && IsOwner(h.read, h.order, h.peers[i].key, s);
      assert h.peers[i].key == h.peers[h.next].key;
    }
  }

  function Writes(p: nat, k: nat): seq<Step> {
    if k == 0 then [] else Writes(p, k - 1) + [ReportWrite(p)]
  }

  /** A handler nobody comes between does what the loop of the report handler does. */
  lemma {:induction false} AloneIsTheLoop(sys: State, p: nat, n: nat, peers: seq<Peer>, order: seq<nat>, k: nat)
    requires p !in sys.handlers && Enumerates(order, LiveRows(sys.rows, n)) && k <= |peers|
    ensures
      var after := Run(Apply(sys, ReportRead(p, n, peers, order)), Writes(p, k));
      && after.rows == AllCounted(sys.rows, order, peers[..k])
      && p in after.handlers && after.handlers[p] == Handler(n, peers, sys.rows, order, |sys.log|, k)
  {
    var read := Apply(sys, ReportRead(p, n, peers, order));
    if k == 0 {
      forall s | s in sys.rows ensures WithCounters(sys.rows, order, s, peers[..0]) == sys.rows[s] {
        assert LastEntry(peers[..0], sys.rows[s].key) == None;
      }
    } else {
      AloneIsTheLoop(sys, p, n, peers, order, k - 1);
      RunLast(read, Writes(p, k - 1), ReportWrite(p));
      assert peers[..k] == peers[..k - 1] + [peers[k - 1]];
      OneEntry(sys, Run(read, Writes(p, k - 1)), p, n, peers, order, k - 1);
    }
  }

  lemma OneEntry(sys: State, at: State, p: nat, n: nat, peers: seq<Peer>, order: seq<nat>, k: nat)
    requires Enumerates(order, LiveRows(sys.rows, n)) && k < |peers|
    requires at.rows == AllCounted(sys.rows, order, peers[..k])
    requires p in at.handlers && at.handlers[p] == Handler(n, peers, sys.rows, order, |sys.log|, k)
    ensures
      var after := Apply(at, ReportWrite(p));
      && after.rows == AllCounted(sys.rows, order, peers[..k] + [peers[k]])
      && p in after.handlers && after.handlers[p] == Handler(n, peers, sys.rows, order, |sys.log|, k + 1)
  {
    var owner := OwnerOf(sys.rows, order, peers[k].key);
    if owner.Some? {
      OwnerIsCounted(sys.rows, order, peers[..k], peers[k], owner.value);
    } else {
      NobodyOwnsStrangers(sys.rows, order, n, peers[k].key);
      StrangerIsNotCounted(sys.rows, order, n, peers[..k], peers[k]);
    }
  }

  lemma {:induction false} RunLast(sys: State, steps: seq<Step>, last: Step)
    ensures Run(sys, steps + [last]) == Apply(Run(sys, steps), last)
    decreases |steps|
  {
    if steps == [] {
      assert [] + [last] == [last];
      assert Run(sys, [last]) == Run(Apply(sys, last), []);
    } else {
      assert (steps + [last])[1..] == steps[1..] + [last];
      RunLast(Apply(sys, steps[0]), steps[1..], last);
    }
  }

  /** A key without an owner is the key of no live session: the latest of the query's order owns it. */
  lemma NobodyOwnsStrangers(rows: map<nat, Row>, order: seq<nat>, n: nat, key: nat)
    requires Enumerates(order, LiveRows(rows, n)) && forall s :: !IsOwner(rows, order, key, s)
    ensures key !in LiveKeysOf(rows, n)
  {
    if key in LiveKeysOf(rows, n) {
      var s :| s in rows && LiveOn(rows[s], n) && rows[s].key == key;
      assert s in order;
      var i := LatestWith(rows, order, key, |order|);
      assert IsOwner(rows, order, key, order[i]);
    }
  }

  lemma {:induction false} LatestWith(rows: map<nat, Row>, order: seq<nat>, key: nat, k: nat) returns (i: nat)
    requires k <= |order| && (forall s :: s in order ==> s in rows)
    requires exists j :: 0 <= j < k && rows[order[j]].key == key
    ensures i < k && rows[order[i]].key == key && forall j :: i < j < k ==> rows[order[j]].key != key
  {
    if rows[order[k - 1]].key == key { i := k - 1; } else { i := LatestWith(rows, order, key, k - 1); }
  }

  // -------------------------------------------------------- such a run -----

  function One(rx: nat): map<nat, Row> {
    map[0 := Row(0, 5, Active, true, 0, rx, 0, None)]
  }

  /** A handler that was sent `sent` bytes for the one session when its counter stood at `read`. */
  function Sent(sent: nat, read: nat, since: nat, next: nat): Handler {
    Handler(0, [Peer(5, sent, 0, None)], One(read), [0], since, next)
  }

  lemma OneOwns(read: nat)
    ensures OwnerOf(One(read), [0], 5) == Some(0)
    ensures Enumerates([0], LiveRows(One(read), 0))
  {
    assert [0][0] == 0 && Owns(One(read), [0], 0);
    assert IsOwner(One(read), [0], 5, 0);
  }

  lemma Reads(sys: State, p: nat, sent: nat, read: nat)
    requires sys.rows == One(read) && p !in sys.handlers
    ensures Apply(sys, ReportRead(p, 0, [Peer(5, sent, 0, None)], [0])) == sys.(handlers := sys.handlers[p := Sent(sent, read, |sys.log|, 0)])
  {
    OneOwns(read);
  }

  lemma WritesTo(sys: State, p: nat, sent: nat, read: nat, since: nat, now: nat)
    requires sys.rows == One(now) && p in sys.handlers && sys.handlers[p] == Sent(sent, read, since, 0)
    ensures Apply(sys, ReportWrite(p)) ==
      sys.(rows := One(Max(sent, read)), log := sys.log + [Write(p, 0, Max(sent, read), 0)], handlers := sys.handlers[p := Sent(sent, read, since, 1)])
  {
    OneOwns(read);
    assert Written(sys, p, 0, Peer(5, sent, 0, None)).rows == One(Max(sent, read));
  }

  const START := State(One(0), 1, map[], [])
  const OVERLAP: seq<Step> := [
    ReportRead(1, 0, [Peer(5, 8, 0, None)], [0]),
    ReportRead(2, 0, [Peer(5, 10, 0, None)], [0]),
    ReportWrite(2),
    ReportRead(3, 0, [Peer(5, 7, 0, None)], [0]),
    ReportWrite(3),
    ReportWrite(1)]

  /**
   * The first of three handlers reads, the second reads and writes 10, the third reads that and its
   * smaller entry leaves it, and the write of the first takes the counter back to 8. The write before was
   * of a row read after the first handler had read, and its entry, 7, is not what decides.
   */
  lemma CounterFalls()
    ensures Initial(START)
    ensures Run(START, OVERLAP[..5]).rows == One(10) && Run(START, OVERLAP).rows == One(8)
  {
    var s1 := START.(handlers := START.handlers[1 := Sent(8, 0, 0, 0)]);
    Reads(START, 1, 8, 0);
    var s2 := s1.(handlers := s1.handlers[2 := Sent(10, 0, 0, 0)]);
    Reads(s1, 2, 10, 0);
    WritesTo(s2, 2, 10, 0, 0, 0);
    var s3 := Apply(s2, ReportWrite(2));
    Reads(s3, 3, 7, 10);
    var s4 := s3.(handlers := s3.handlers[3 := Sent(7, 10, 1, 0)]);
    WritesTo(s4, 3, 7, 10, 1, 10);
    var s5 := Apply(s4, ReportWrite(3));
    WritesTo(s5, 1, 8, 0, 0, 10);
    RunsThrough(s1, s2, s3, s4, s5);
  }

  lemma RunsThrough(s1: State, s2: State, s3: State, s4: State, s5: State)
    requires Apply(START, OVERLAP[0]) == s1 && Apply(s1, OVERLAP[1]) == s2 && Apply(s2, OVERLAP[2]) == s3
    requires Apply(s3, OVERLAP[3]) == s4 && Apply(s4, OVERLAP[4]) == s5
    ensures Run(START, OVERLAP[..5]) == s5 && Run(START, OVERLAP) == Apply(s5, OVERLAP[5])
  {
    assert OVERLAP[..1] == [] + [OVERLAP[0]];
    RunLast(START, [], OVERLAP[0]);
    assert OVERLAP[..2] == OVERLAP[..1] + [OVERLAP[1]];
    RunLast(START, OVERLAP[..1], OVERLAP[1]);
    assert OVERLAP[..3] == OVERLAP[..2] + [OVERLAP[2]];
    RunLast(START, OVERLAP[..2], OVERLAP[2]);
    assert OVERLAP[..4] == OVERLAP[..3] + [OVERLAP[3]];
    RunLast(START, OVERLAP[..3], OVERLAP[3]);
    assert OVERLAP[..5] == OVERLAP[..4] + [OVERLAP[4]];
    RunLast(START, OVERLAP[..4], OVERLAP[4]);
    assert OVERLAP == OVERLAP[..5] + [OVERLAP[5]];
    RunLast(START, OVERLAP[..5], OVERLAP[5]);
  }
}
