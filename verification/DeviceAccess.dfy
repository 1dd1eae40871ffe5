/**
 * Device slots and credential epochs. A device token names a device and the epoch, `version`, it was
 * minted at; every request compares both with the device row.
 */
module DeviceAccess {
  import opened Rows

  const DEVICE_LIMIT_CEILING := 20

  /** `name` stands for the pair of device name and platform. */
  datatype Slot = Slot(user: nat, key: nat, name: nat, active: bool, version: nat, createdAt: int)

  datatype Owner = Owner(active: bool, maxDevices: int)

  datatype Token = Token(user: nat, device: nat, epoch: nat)

  datatype RegisterError = AccountRefused | KeyOfNode | KeyTaken | DeviceLimitReached

  function EffectiveDeviceLimit(owner: Owner): int {
    Max(1, Min(owner.maxDevices, DEVICE_LIMIT_CEILING))
  }

  function ActiveOf(devices: map<nat, Slot>, u: nat): set<nat> {
    set d | d in devices && devices[d].active && devices[d].user == u
  }

  /** The device half of requireUser. */
  predicate Accepted(devices: map<nat, Slot>, token: Token) {
    && token.device in devices && devices[token.device].user == token.user
    && devices[token.device].active && devices[token.device].version == token.epoch
  }

  // ----------------------------------------------------------- operations ----

  function Retired(slot: Slot): Slot {
    slot.(active := false, version := slot.version + 1)
  }

  ghost predicate IsKeyOf(devices: map<nat, Slot>, key: nat, d: nat) {
    d in devices && devices[d].key == key
  }

  /**
   * What a registration meets in the table: the row that already has the key, or else an active row
   * of the account with the same name and no live session, whose key can be rotated.
   */
  datatype Found = Existing(device: nat) | Twin(device: nat) | Nobody

  ghost predicate Finds(devices: map<nat, Slot>, u: nat, key: nat, name: nat, live: set<nat>, found: Found) {
    match found
    case Existing(d) => IsKeyOf(devices, key, d)
    case Twin(d) =>
      && (forall e :: !IsKeyOf(devices, key, e))
      && d in ActiveOf(devices, u) && devices[d].name == name && d !in live
    case Nobody =>
      && (forall e :: !IsKeyOf(devices, key, e))
      && (forall d :: d in ActiveOf(devices, u) && devices[d].name == name ==> d in live)
  }

  function Registered(devices: map<nat, Slot>, u: nat, owner: Owner, key: nat, name: nat, nodeKeys: set<nat>, found: Found, id: nat, now: int)
    : Result<map<nat, Slot>, RegisterError>
  {
    if !owner.active then Err(AccountRefused)
    else if key in nodeKeys then Err(KeyOfNode)
    else
      match found
      case Existing(d) =>
        if d !in devices || devices[d].user != u then Err(KeyTaken)
        else if devices[d].active then Ok(devices[d := devices[d].(name := name)])
        else if |ActiveOf(devices, u)| >= EffectiveDeviceLimit(owner) then Err(DeviceLimitReached)
        else Ok(devices[d := devices[d].(name := name, active := true, version := devices[d].version + 1)])
      case Twin(d) =>
        if d !in devices then Err(KeyTaken)
        else Ok(devices[d := devices[d].(key := key, version := devices[d].version + 1)])
      case Nobody =>
        if |ActiveOf(devices, u)| >= EffectiveDeviceLimit(owner) then Err(DeviceLimitReached)
        else Ok(devices[id := Slot(u, key, name, true, 0, now)])
  }

  function Revoked(devices: map<nat, Slot>, d: nat): map<nat, Slot> {
    if d !in devices || !devices[d].active then devices else devices[d := Retired(devices[d])]
  }

  function AdminRevoked(devices: map<nat, Slot>, d: nat): map<nat, Slot> {
    if d !in devices then devices else devices[d := devices[d].(active := false)]
  }

  function RetiredAll(devices: map<nat, Slot>, extra: set<nat>): map<nat, Slot> {
    map d | d in devices :: if d in extra then Retired(devices[d]) else devices[d]
  }

  function Keep(allowance: int): nat {
    Max(1, allowance)
  }

  /** The active devices of an account as the query returns them, oldest first. */
  ghost predicate OldestFirst(devices: map<nat, Slot>, u: nat, active: seq<nat>) {
    && (forall d :: d in active <==> d in ActiveOf(devices, u))
    && (forall i, j :: 0 <= i < j < |active| ==> active[i] != active[j])
    && (forall i, j :: 0 <= i < j < |active| ==> active[i] in devices && active[j] in devices ==> devices[active[i]].createdAt <= devices[active[j]].createdAt)
  }

  function Elements(s: seq<nat>): set<nat> {
    set d | d in s
  }

  function Extra(active: seq<nat>, allowance: int): set<nat> {
    if |active| <= Keep(allowance) then {} else Elements(active[Keep(allowance)..])
  }

  class DeviceTable {
    var devices: map<nat, Slot>
    var nextId: nat

    ghost predicate Valid()
      reads this
    {
      && (forall d :: d in devices ==> d < nextId)
      && forall d, e :: d in devices && e in devices && devices[d].key == devices[e].key ==> d == e
    }

    constructor ()
      ensures Valid() && devices == map[]
    {
      devices, nextId := map[], 0;
    }

    /** Registers a key for an account: a new slot, a slot brought back, or a twin's key rotated. */
    method RegisterDeviceSlot(u: nat, owner: Owner, key: nat, name: nat, nodeKeys: set<nat>, live: set<nat>, found: Found, now: int)
      returns (r: Result<nat, RegisterError>)
      requires Valid() && Finds(devices, u, key, name, live, found)
      modifies this
      ensures Valid()
      ensures
        var outcome := Registered(old(devices), u, owner, key, name, nodeKeys, found, old(nextId), now);
        if outcome.Err? then r == Err(outcome.error) && devices == old(devices)
        else r.Ok? && devices == outcome.value
      ensures r.Ok? ==>
        var d := r.value;
        && d in devices && devices == old(devices)[d := devices[d]]
        && owner.active && key !in nodeKeys && (forall e :: e in old(devices) && old(devices)[e].key == key ==> e == d)
        && if d !in old(devices) then devices[d] == Slot(u, key, name, true, 0, now)
           else
             var before := old(devices)[d];
             && before.user == u
             && if before.active && before.key == key then devices[d] == before.(name := name)
                else devices[d] == before.(name := name, key := key, active := true, version := before.version + 1)
      ensures r.Ok? && !(r.value in old(devices) && old(devices)[r.value].active) ==>
        var own := set d | d in old(devices) && old(devices)[d].active && old(devices)[d].user == u;
        |own| < 1 || (|own| < owner.maxDevices && |own| < 20)
      ensures r == Err(AccountRefused) ==> !owner.active
      ensures r == Err(KeyOfNode) ==> key in nodeKeys
      ensures r == Err(KeyTaken) ==> exists d :: d in devices && devices[d].key == key && devices[d].user != u
      ensures r == Err(DeviceLimitReached) ==>
        var own := set d | d in devices && devices[d].active && devices[d].user == u;
        |own| >= 1 && (|own| >= owner.maxDevices || |own| >= 20) && forall d :: d in own ==> devices[d].key != key
    {
      if !owner.active { return Err(AccountRefused); }
      if key in nodeKeys { return Err(KeyOfNode); }
      assert forall d :: d in devices && devices[d].key == key ==> IsKeyOf(devices, key, d);
      if found.Existing? && devices[found.device].user != u { return Err(KeyTaken); }
      if found.Twin? {
        var twin := devices[found.device];
        devices := devices[found.device := twin.(key := key, version := twin.version + 1)];
        return Ok(found.device);
      }
      var reactivating := found.Existing? && !devices[found.device].active;
      if found.Nobody? || reactivating {
        var active := set d | d in devices && devices[d].active && devices[d].user == u;
        assert active == ActiveOf(devices, u);
        if |active| >= EffectiveDeviceLimit(owner) { return Err(DeviceLimitReached); }
      }
      if found.Existing? {
        var slot := devices[found.device];
        devices := devices[found.device :=
          if reactivating then slot.(name := name, active := true, version := slot.version + 1) else slot.(name := name)];
        return Ok(found.device);
      }
      var id := nextId;
      devices, nextId := devices[id := Slot(u, key, name, true, 0, now)], id + 1;
      return Ok(id);
    }

    method RevokeDeviceAccess(u: nat, d: nat) returns (found: bool)
      requires Valid()
      modifies this`devices
      ensures Valid() && (found <==> d !in old(devices) || old(devices)[d].user == u)
      ensures devices == if d in old(devices) && old(devices)[d].user == u then Revoked(old(devices), d) else old(devices)
      ensures devices.Keys == old(devices).Keys && forall e :: e in devices ==>
        var before := old(devices)[e];
        devices[e] == if e == d && before.user == u && before.active then before.(active := false, version := before.version + 1) else before
    {
      if d !in devices { return true; }
      if devices[d].user != u { return false; }
      if devices[d].active { devices := devices[d := Retired(devices[d])]; }
      return true;
    }

    /** Keeps the oldest devices of an account and retires the rest, one after the other. */
    method EnforceDeviceAllowance(u: nat, allowance: int, active: seq<nat>) returns (kept: nat, revoked: nat)
      requires Valid() && OldestFirst(devices, u, active)
      modifies this`devices
      ensures Valid()
      ensures devices == RetiredAll(old(devices), Extra(active, allowance))
      ensures kept == (if allowance < 1 then Min(|active|, 1) else Min(|active|, allowance)) && kept + revoked == |active|
      ensures devices.Keys == old(devices).Keys && forall d :: d in devices ==>
        var before := old(devices)[d];
        devices[d] == if d in active[kept..] then before.(active := false, version := before.version + 1) else before
    {
      var keep := Max(1, allowance);
      if |active| <= keep {
        assert RetiredAll(devices, {}) == devices;
        return |active|, 0;
      }
      var extra := active[keep..];
      for i := 0 to |extra|
        invariant devices == RetiredAll(old(devices), Elements(extra[..i]))
      {
        assert extra[i] in active;
        assert extra[i] !in extra[..i];
        assert extra[..i + 1] == extra[..i] + [extra[i]];
        devices := devices[extra[i] := Retired(devices[extra[i]])];
      }
      assert extra[..|extra|] == extra;
      return keep, |extra|;
    }
  }

  // ---------------------------------------------------------------- slots ----

  function Stay(active: seq<nat>, allowance: int): seq<nat> {
    if |active| <= Keep(allowance) then active else active[..Keep(allowance)]
  }

  lemma StayOrExtra(active: seq<nat>, allowance: int, d: nat)
    requires forall i, j :: 0 <= i < j < |active| ==> active[i] != active[j]
    ensures d in active <==> d in Stay(active, allowance) || d in Extra(active, allowance)
    ensures !(d in Stay(active, allowance) && d in Extra(active, allowance))
  {
    var stay := Stay(active, allowance);
    assert active == stay + active[|stay|..];
  }

  /** Enforcing an allowance leaves exactly as many devices of the account as allowed, and touches no other account. */
  lemma AllowanceIsMet(devices: map<nat, Slot>, u: nat, allowance: int, active: seq<nat>)
    requires OldestFirst(devices, u, active)
    ensures
      var after := RetiredAll(devices, Extra(active, allowance));
      && ActiveOf(after, u) == Elements(Stay(active, allowance))
      && |ActiveOf(after, u)| == Min(|active|, Keep(allowance))
      && forall v :: v != u ==> ActiveOf(after, v) == ActiveOf(devices, v)
  {
    var after := RetiredAll(devices, Extra(active, allowance));
    forall d ensures d in ActiveOf(after, u) <==> d in Stay(active, allowance) { StayOrExtra(active, allowance, d); }
    DistinctCount(Stay(active, allowance));
    forall v, d | v != u && d in ActiveOf(devices, v) ensures d !in Extra(active, allowance) { StayOrExtra(active, allowance, d); }
  }

  /** The devices that stay are the oldest: nobody who stays was registered after somebody who goes. */
  lemma OldestStay(devices: map<nat, Slot>, u: nat, allowance: int, active: seq<nat>, d: nat, e: nat)
    requires OldestFirst(devices, u, active) && d in Stay(active, allowance) && e in Extra(active, allowance)
    ensures d in devices && e in devices && devices[d].createdAt <= devices[e].createdAt
  {
    StayOrExtra(active, allowance, d);
    StayOrExtra(active, allowance, e);
    var keep := Keep(allowance);
    var i :| 0 <= i < keep && active[i] == d;
    var j :| keep <= j < |active| && active[j] == e;
    assert d in ActiveOf(devices, u) && e in ActiveOf(devices, u);
  }

  lemma {:induction false} DistinctCount(s: seq<nat>)
    requires forall i, j :: 0 <= i < j < |s| ==> s[i] != s[j]
    ensures |Elements(s)| == |s|
  {
    if s != [] {
      var front, last := s[..|s| - 1], s[|s| - 1];
      DistinctCount(front);
      assert forall i :: 0 <= i < |front| ==> front[i] == s[i];
      assert Elements(s) == Elements(front) + {last} by { assert s == front + [last]; }
    }
  }

  /** Registering never takes an account past its limit: the number of active devices grows only while it is below. */
  lemma RegistrationRespectsLimit(devices: map<nat, Slot>, u: nat, owner: Owner, key: nat, name: nat, nodeKeys: set<nat>, live: set<nat>, found: Found, id: nat, now: int)
    requires Finds(devices, u, key, name, live, found) && id !in devices
    ensures
      var outcome := Registered(devices, u, owner, key, name, nodeKeys, found, id, now);
      outcome.Ok? ==> |ActiveOf(outcome.value, u)| <= Max(|ActiveOf(devices, u)|, EffectiveDeviceLimit(owner))
  {
    var outcome := Registered(devices, u, owner, key, name, nodeKeys, found, id, now);
    if outcome.Ok? {
      match found
      case Twin(d) => assert ActiveOf(outcome.value, u) == ActiveOf(devices, u);
      case Existing(d) => Reactivated(devices, u, d, outcome.value[d]);
      case Nobody => Reactivated(devices, u, id, outcome.value[id]);
    }
  }

  lemma Reactivated(devices: map<nat, Slot>, u: nat, d: nat, slot: Slot)
    requires slot.active && slot.user == u
    ensures ActiveOf(devices[d := slot], u) == ActiveOf(devices, u) + {d}
  {
  }

  // --------------------------------------------------------------- epochs ----

  datatype Step =
    | Register(u: nat, owner: Owner, key: nat, name: nat, nodeKeys: set<nat>, found: Found, id: nat, now: int)
    | Revoke(u: nat, d: nat)
    | AdminRevoke(d: nat)
    | Enforce(u: nat, allowance: int, active: seq<nat>)
    /** purgeStaleDevices deletes rows that are not active. */
    | Purge(gone: set<nat>)

  /** Ids of new rows are random; one that was ever used does not come again. */
  datatype State = State(devices: map<nat, Slot>, used: set<nat>)

  function Apply(sys: State, step: Step): State {
    match step
    case Register(u, owner, key, name, nodeKeys, found, id, now) =>
      if id in sys.used then sys
      else
        var outcome := Registered(sys.devices, u, owner, key, name, nodeKeys, found, id, now);
        if outcome.Ok? then State(outcome.value, sys.used + {id}) else sys
    case Revoke(u, d) =>
      if d in sys.devices && sys.devices[d].user == u then sys.(devices := Revoked(sys.devices, d)) else sys
    case AdminRevoke(d) => sys.(devices := AdminRevoked(sys.devices, d))
    case Enforce(u, allowance, active) => sys.(devices := RetiredAll(sys.devices, Extra(active, allowance)))
    case Purge(gone) => sys.(devices := map d | d in sys.devices && (d !in gone || sys.devices[d].active) :: sys.devices[d])
  }

  function Run(sys: State, steps: seq<Step>): State
    decreases |steps|
  {
    if steps == [] then sys else Run(Apply(sys, steps[0]), steps[1..])
  }

  /** A token is minted for a device that exists, at an epoch the device has reached. */
  predicate Minted(sys: State, token: Token) {
    token.device in sys.used && (token.device in sys.devices ==> token.epoch <= sys.devices[token.device].version)
  }

  lemma {:induction false} RefusedStaysRefused(sys: State, steps: seq<Step>, token: Token)
    requires Minted(sys, token) && !Accepted(sys.devices, token)
    ensures !Accepted(Run(sys, steps).devices, token)
    decreases |steps|
  {
    if steps != [] {
      var next := Apply(sys, steps[0]);
      assert Minted(next, token) && !Accepted(next.devices, token) by { OneStep(sys, steps[0], token); }
      RefusedStaysRefused(next, steps[1..], token);
    }
  }

  lemma OneStep(sys: State, step: Step, token: Token)
    requires Minted(sys, token)
    ensures Minted(Apply(sys, step), token)
    ensures Accepted(Apply(sys, step).devices, token) ==> Accepted(sys.devices, token)
  {
  }

  /**
   * The one token accepted for an active device is its owner's at the present epoch. Every operation that
   * takes a device away or changes its key refuses the tokens minted for it so far: revocation by its owner
   * or an administrator, enforcement past the allowance, rotation and reactivation. A purge takes rows that
   * are not active.
   */
  lemma TokensEnd(sys: State, step: Step, token: Token)
    requires Minted(sys, token) && token.device in sys.devices
    ensures
      var device := sys.devices[token.device];
      Accepted(sys.devices, token) <==> device.active && token == Token(device.user, token.device, device.version)
    ensures
      var d, after := token.device, Apply(sys, step).devices;
      && (step.Purge? ==> (d !in after <==> d in step.gone && !sys.devices[d].active) && (d in after ==> after[d] == sys.devices[d]))
      && (step == AdminRevoke(d) || step == Revoke(sys.devices[d].user, d) ==> !Accepted(after, token))
      && (step.Enforce? && d in step.active && (forall i :: 0 <= i < |step.active| && (i < 1 || i < step.allowance) ==> step.active[i] != d) ==>
            !Accepted(after, token))
      && (d in after && (after[d].key != sys.devices[d].key || (after[d].active && !sys.devices[d].active)) ==> !Accepted(after, token))
  {
    if step.Enforce? && token.device in step.active {
      var i :| 0 <= i < |step.active| && step.active[i] == token.device;
      if Keep(step.allowance) <= i { assert step.active[Keep(step.allowance)..][i - Keep(step.allowance)] == token.device; }
    }
  }

  /**
   * Once refused, refused for ever: a token that was accepted and then refused because its device was
   * revoked, rotated, retired or removed is not accepted in any later state, reactivation included.
   */
  lemma TokensDieForGood(sys: State, before: seq<Step>, after: seq<Step>, token: Token)
    requires token.device in sys.used && Accepted(sys.devices, token)
    requires !Accepted(Run(sys, before).devices, token)
    ensures !Accepted(Run(Run(sys, before), after).devices, token)
  {
    StaysMinted(sys, before, token);
    RefusedStaysRefused(Run(sys, before), after, token);
  }

  lemma {:induction false} StaysMinted(sys: State, steps: seq<Step>, token: Token)
    requires Minted(sys, token)
    ensures Minted(Run(sys, steps), token)
    decreases |steps|
  {
    if steps != [] {
      OneStep(sys, steps[0], token);
      StaysMinted(Apply(sys, steps[0]), steps[1..], token);
    }
  }
}
