/** The agent's command loop over its WireGuard peer table. */
module NodeAgent {
  import opened Rows
  import opened Plane
  import opened Protocol

  datatype WireKind = WireAdd | WireRemove | WireSyncPeers | WireSyncPolicy | WireOther

  /** A command as it arrives: key and address are absent when the payload does not hold a valid one. */
  datatype Wire = Wire(kind: WireKind, key: Option<nat>, ip: Option<nat>)

  /** What the control plane puts on the wire for a queued row. */
  function OnWire(c: Command): Wire {
    match c.kind
    case AddPeer => Wire(WireAdd, Some(c.key), Some(c.ip))
    case RemovePeer => Wire(WireRemove, Some(c.key), Some(c.ip))
    case Sync => Wire(WireSyncPolicy, None, None)
  }

  /** `toolOk`: the system call or policy download the command leads to did not throw. */
  predicate Succeeds(w: Wire, toolOk: bool, gateway: bool) {
    match w.kind
    case WireAdd => w.key.Some? && w.ip.Some? && toolOk
    case WireRemove => w.key.Some? && toolOk
    case WireSyncPeers => true
    case WireSyncPolicy => gateway && toolOk
    case WireOther => false
  }

  /** The effect of a command that succeeded. */
  function Effect(table: map<nat, nat>, w: Wire): map<nat, nat> {
    if w.kind.WireAdd? && w.key.Some? && w.ip.Some? then table[w.key.value := w.ip.value]
    else if w.kind.WireRemove? && w.key.Some? then table - {w.key.value}
    else table
  }

  function After(table: map<nat, nat>, batch: seq<Wire>, oks: seq<bool>): map<nat, nat>
    requires |oks| == |batch|
    decreases |batch|
  {
    if batch == [] then table
    else After(if oks[0] then Effect(table, batch[0]) else table, batch[1..], oks[1..])
  }

  class Agent {
    var peers: map<nat, nat>
    var reportDue: bool
    const gateway: bool

    constructor (gateway: bool)
      ensures peers == map[] && !reportDue && this.gateway == gateway
    {
      this.peers, this.reportDue, this.gateway := map[], false, gateway;
    }

    method RunCommand(w: Wire, toolOk: bool) returns (failed: bool)
      modifies this
      ensures failed <==> !Succeeds(w, toolOk, gateway)
      ensures peers == if failed then old(peers) else Effect(old(peers), w)
      ensures !failed <==>
        || w.kind == WireSyncPeers || (w.kind == WireSyncPolicy && gateway && toolOk)
        || (w.kind == WireAdd && w.key != None && w.ip != None && toolOk) || (w.kind == WireRemove && w.key != None && toolOk)
      ensures forall key :: key in peers <==>
        if !failed && w.key == Some(key) && w.kind == WireAdd then true
        else if !failed && w.key == Some(key) && w.kind == WireRemove then false
        else key in old(peers)
      ensures forall key :: key in peers ==>
        if !failed && w.kind == WireAdd && w.key == Some(key) then w.ip == Some(peers[key]) else key in old(peers) && peers[key] == old(peers)[key]
      ensures reportDue <==> old(reportDue) || w.kind.WireSyncPeers?
    {
      match w.kind
      case WireSyncPolicy =>
        return !gateway || !toolOk;
      case WireAdd =>
        if w.key.None? || w.ip.None? { return true; }
        if !toolOk { return true; }
        peers := peers[w.key.value := w.ip.value];
        return false;
      case WireRemove =>
        if w.key.None? { return true; }
        if !toolOk { return true; }
        peers := peers - {w.key.value};
        return false;
      case WireSyncPeers =>
        reportDue := true;
        return false;
      case WireOther =>
        return true;
    }

    /** Runs a batch in order; every command is acknowledged with what happened to it. */
    method HandleCommands(batch: seq<Wire>, toolOk: seq<bool>) returns (acks: seq<bool>)
      requires |toolOk| == |batch|
      modifies this
      ensures |acks| == |batch|
      ensures forall i :: 0 <= i < |batch| ==> acks[i] == Succeeds(batch[i], toolOk[i], gateway)
      ensures peers == After(old(peers), batch, acks)
    {
      acks := [];
      for k := 0 to |batch|
        invariant |acks| == k
        invariant forall i :: 0 <= i < k ==> acks[i] == Succeeds(batch[i], toolOk[i], gateway)
        invariant peers == After(old(peers), batch[..k], acks)
      {
        ghost var before := acks;
        var failed := RunCommand(batch[k], toolOk[k]);
        acks := acks + [!failed];
        AfterLast(old(peers), batch[..k], before, batch[k], !failed);
        assert batch[..k + 1] == batch[..k] + [batch[k]];
      }
      assert batch[..|batch|] == batch;
    }

    /**
     * Drops the peers the control plane answered it has no live session for: keys that are not valid are
     * passed over, and a removal the tool refuses leaves its peer and does not stop the others.
     */
    method DropPeers(removePeers: seq<nat>, valid: seq<bool>, toolOk: seq<bool>)
      requires |valid| == |toolOk| == |removePeers|
      modifies this`peers
      ensures peers == old(peers) - Dropped(removePeers, valid, toolOk)
      ensures forall key :: key in peers ==> key in old(peers) && peers[key] == old(peers)[key]
      ensures forall key :: key in old(peers) ==>
        (key !in peers <==> exists i :: 0 <= i < |removePeers| && removePeers[i] == key && valid[i] && toolOk[i])
    {
      for i := 0 to |removePeers|
        invariant peers == old(peers) - Dropped(removePeers[..i], valid[..i], toolOk[..i])
      {
        DroppedOneMore(removePeers, valid, toolOk, i);
        if !valid[i] { continue; }
        if toolOk[i] { peers := peers - {removePeers[i]}; }
      }
      assert removePeers[..|removePeers|] == removePeers && valid[..|valid|] == valid && toolOk[..|toolOk|] == toolOk;
    }
  }

  function Dropped(keys: seq<nat>, valid: seq<bool>, toolOk: seq<bool>): set<nat>
    requires |valid| == |toolOk| == |keys|
  {
    set i | 0 <= i < |keys| && valid[i] && toolOk[i] :: keys[i]
  }

  lemma DroppedOneMore(keys: seq<nat>, valid: seq<bool>, toolOk: seq<bool>, i: nat)
    requires |valid| == |toolOk| == |keys| && i < |keys|
    ensures Dropped(keys[..i + 1], valid[..i + 1], toolOk[..i + 1]) ==
      Dropped(keys[..i], valid[..i], toolOk[..i]) + (if valid[i] && toolOk[i] then {keys[i]} else {})
  {
    var before, after := Dropped(keys[..i], valid[..i], toolOk[..i]), Dropped(keys[..i + 1], valid[..i + 1], toolOk[..i + 1]);
    forall j | 0 <= j < i && valid[j] && toolOk[j] ensures keys[j] in after && keys[j] in before {
      assert keys[..i][j] == keys[..i + 1][j] && valid[..i + 1][j] && toolOk[..i + 1][j] && valid[..i][j] && toolOk[..i][j];
    }
    forall k | k in after ensures k in before || (k == keys[i] && valid[i] && toolOk[i]) {
      var j :| 0 <= j < |keys[..i + 1]| && valid[..i + 1][j] && toolOk[..i + 1][j] && keys[..i + 1][j] == k;
      if j < i { assert keys[..i][j] == k && valid[..i][j] && toolOk[..i][j]; }
    }
    if valid[i] && toolOk[i] { assert keys[..i + 1][i] == keys[i] && valid[..i + 1][i] && toolOk[..i + 1][i]; }
  }

  lemma {:induction false} AfterLast(table: map<nat, nat>, batch: seq<Wire>, oks: seq<bool>, w: Wire, ok: bool)
    requires |oks| == |batch|
    ensures After(table, batch + [w], oks + [ok]) ==
      (if ok then Effect(After(table, batch, oks), w) else After(table, batch, oks))
    decreases |batch|
  {
    if batch == [] {
      assert batch + [w] == [w] && oks + [ok] == [ok];
    } else {
      var next := if oks[0] then Effect(table, batch[0]) else table;
      assert (batch + [w])[1..] == batch[1..] + [w] && (oks + [ok])[1..] == oks[1..] + [ok];
      AfterLast(next, batch[1..], oks[1..], w, ok);
    }
  }

  /** The keys whose entry a batch decides, because a command on them succeeds. */
  function Touched(batch: seq<Wire>, oks: seq<bool>): set<nat>
    requires |oks| == |batch|
  {
    set i | 0 <= i < |batch| && oks[i] && Decides(batch[i]) :: batch[i].key.value
  }

  predicate Decides(w: Wire) {
    w.key.Some? && (w.kind.WireRemove? || (w.kind.WireAdd? && w.ip.Some?))
  }

  ghost predicate AgreeOutside(a: map<nat, nat>, b: map<nat, nat>, keys: set<nat>) {
    forall k :: k !in keys ==> (k in a <==> k in b) && (k in a ==> a[k] == b[k])
  }

  /** A batch leaves the same table behind whatever its keys held before. */
  lemma {:induction false} BatchDecides(a: map<nat, nat>, b: map<nat, nat>, batch: seq<Wire>, oks: seq<bool>)
    requires |oks| == |batch|
    requires AgreeOutside(a, b, Touched(batch, oks))
    ensures After(a, batch, oks) == After(b, batch, oks)
    decreases |batch|
  {
    if batch == [] {
      assert forall k :: k in a <==> k in b;
    } else {
      var w, rest, restOks := batch[0], batch[1..], oks[1..];
      assert forall k :: k in Touched(batch, oks) ==> k in Touched(rest, restOks) || (oks[0] && Decides(w) && k == w.key.value) by {
        forall k | k in Touched(batch, oks) ensures k in Touched(rest, restOks) || (oks[0] && Decides(w) && k == w.key.value) {
          var i :| 0 <= i < |batch| && oks[i] && Decides(batch[i]) && batch[i].key.value == k;
          if i > 0 { assert rest[i - 1] == batch[i] && restOks[i - 1]; }
        }
      }
      BatchDecides(if oks[0] then Effect(a, w) else a, if oks[0] then Effect(b, w) else b, rest, restOks);
    }
  }

  lemma {:induction false} AfterTouchesOnly(table: map<nat, nat>, batch: seq<Wire>, oks: seq<bool>)
    requires |oks| == |batch|
    ensures AgreeOutside(table, After(table, batch, oks), Touched(batch, oks))
    decreases |batch|
  {
    if batch != [] {
      var rest, restOks := batch[1..], oks[1..];
      assert Touched(rest, restOks) <= Touched(batch, oks) by {
        forall i | 0 <= i < |rest| && restOks[i] && Decides(rest[i]) ensures rest[i].key.value in Touched(batch, oks) {
          assert batch[i + 1] == rest[i] && oks[i + 1];
        }
      }
      if oks[0] && Decides(batch[0]) { assert batch[0].key.value in Touched(batch, oks); }
      AfterTouchesOnly(if oks[0] then Effect(table, batch[0]) else table, rest, restOks);
    }
  }

  /**
   * At-least-once delivery within one batch is harmless: an agent that stopped after any prefix of a
   * batch and is given the whole batch again ends with the table one complete pass would have left.
   */
  lemma RedeliveryIsHarmless(table: map<nat, nat>, batch: seq<Wire>, oks: seq<bool>, done: nat)
    requires |oks| == |batch| && done <= |batch|
    ensures After(After(table, batch[..done], oks[..done]), batch, oks) == After(table, batch, oks)
  {
    AfterTouchesOnly(table, batch[..done], oks[..done]);
    assert Touched(batch[..done], oks[..done]) <= Touched(batch, oks);
    BatchDecides(table, After(table, batch[..done], oks[..done]), batch, oks);
  }

  datatype Outcome = Untouched | Removed | SetTo(ip: nat)

  /** What the last command of a batch that concerns the key and succeeds makes of its entry. */
  function Decision(batch: seq<Wire>, oks: seq<bool>, key: nat): Outcome
    requires |oks| == |batch|
    decreases |batch|
  {
    if batch == [] then Untouched
    else
      var later := Decision(batch[1..], oks[1..], key);
      if !later.Untouched? then later
      else if !oks[0] || !Decides(batch[0]) || batch[0].key != Some(key) then Untouched
      else if batch[0].kind.WireRemove? then Removed
      else SetTo(batch[0].ip.value)
  }

  predicate Has(table: map<nat, nat>, key: nat, ip: nat) {
    key in table && table[key] == ip
  }

  /** After a pass a key has the address of the last setup for it, no peer after a removal, and else what it had. */
  lemma {:induction false} LastCommandDecides(table: map<nat, nat>, batch: seq<Wire>, oks: seq<bool>, key: nat, ip: nat)
    requires |oks| == |batch|
    ensures Has(After(table, batch, oks), key, ip) <==>
      match Decision(batch, oks, key)
      case Untouched => Has(table, key, ip)
      case Removed => false
      case SetTo(last) => ip == last
    decreases |batch|
  {
    if batch != [] {
      LastCommandDecides(if oks[0] then Effect(table, batch[0]) else table, batch[1..], oks[1..], key, ip);
    }
  }

  /** The steps of the protocol that stand for one pass over a delivered batch. */
  ghost function Executions(n: nat, batch: seq<nat>, oks: seq<bool>): seq<Step>
    requires |oks| == |batch|
  {
    seq(|batch|, k requires 0 <= k < |batch| => OnAgent(Execute(n, batch[k], oks[k])))
  }

  function Wires(commands: seq<Command>, batch: seq<nat>): seq<Wire>
    requires forall k :: 0 <= k < |batch| ==> batch[k] < |commands|
  {
    seq(|batch|, k requires 0 <= k < |batch| => OnWire(commands[batch[k]]))
  }

  predicate AllDelivered(db: Db, n: nat, batch: seq<nat>) {
    forall k :: 0 <= k < |batch| ==> batch[k] < |db.commands| && WasDelivered(db, n, batch[k])
  }

  /** The agent's loop does to its table what the protocol's Execute steps do to the node's. */
  lemma {:induction false} LoopRefinesProtocol(sys: Sys, n: nat, batch: seq<nat>, oks: seq<bool>)
    requires |oks| == |batch| && AllDelivered(sys.db, n, batch)
    ensures Table(Run(sys, Executions(n, batch, oks)), n) == After(Table(sys, n), Wires(sys.db.commands, batch), oks)
    ensures Run(sys, Executions(n, batch, oks)).db == sys.db
    decreases |batch|
  {
    if batch != [] {
      var next := Executed(sys, n, batch[0], oks[0]);
      ExecutionsUnfold(n, batch, oks);
      OneExecution(sys, n, batch[0], oks[0]);
      assert Wires(sys.db.commands, batch)[1..] == Wires(sys.db.commands, batch[1..]);
      LoopRefinesProtocol(next, n, batch[1..], oks[1..]);
    }
  }

  lemma ExecutionsUnfold(n: nat, batch: seq<nat>, oks: seq<bool>)
    requires |oks| == |batch| > 0
    ensures Executions(n, batch, oks) == [OnAgent(Execute(n, batch[0], oks[0]))] + Executions(n, batch[1..], oks[1..])
  {
  }

  lemma OneExecution(sys: Sys, n: nat, i: nat, ok: bool)
    requires WasDelivered(sys.db, n, i)
    ensures
      var next := Executed(sys, n, i, ok);
      && next.db == sys.db
      && Table(next, n) == (if ok then Effect(Table(sys, n), OnWire(sys.db.commands[i])) else Table(sys, n))
  {
  }
}
