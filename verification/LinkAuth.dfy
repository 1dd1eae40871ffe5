/**
 * Sign-in by link, the device authorization grant of RFC 8628, one step per database statement. Any
 * number of polls, approvals, denials and lookups interleave, each between its read and its write.
 */
module LinkAuth {
  import opened Rows

  datatype LinkStatus = Waiting | Approved | Denied | Expired | Used

  /** `secret` is the hash of the poll secret. Waiting is PENDING in the table. */
  datatype Request = Request(secret: nat, status: LinkStatus, user: Option<nat>, expiresAt: int)

  datatype Proc =
    | Approving(request: nat, user: nat)
    | Denying(request: nat)
    /** settleExpiry after it found the request past its time: its write tests no status. */
    | Expiring(request: nat)
    /** A poll that read an approved request with this user and offered the right secret. */
    | Collecting(request: nat, user: nat, offered: nat)
    /** The poll that flipped APPROVED to USED, about to call mint. */
    | Minting(request: nat, user: nat, offered: nat)

  datatype Mint = Mint(request: nat, user: nat, offered: nat)

  datatype State = State(
    requests: map<nat, Request>,
    procs: map<nat, Proc>,
    /** Every request ever started with its secret's hash, every winning approval, every call of mint. */
    secrets: map<nat, nat>,
    approvals: map<nat, nat>,
    mints: seq<Mint>)

  datatype Step =
    | Start(id: nat, secret: nat, now: int)
    | ApproveRead(p: nat, id: nat, user: nat, now: int)
    | ApproveClaim(p: nat)
    | DenyRead(p: nat, id: nat, now: int)
    | DenyClaim(p: nat)
    | LookUp(p: nat, id: nat, now: int)
    | ExpireWrite(p: nat)
    | PollRead(p: nat, id: nat, offered: nat, now: int)
    | PollClaim(p: nat)
    | CallMint(p: nat)
    | Purge(gone: set<nat>)

  const TTL_MS := 5 * 60 * 1000

  const POLL_INTERVAL_MS := 2000

  function ShownStatus(request: Request, now: int): LinkStatus {
    if request.status.Waiting? && request.expiresAt <= now then Expired else request.status
  }

  /** The guard of settleExpiry. */
  predicate PastItsTime(request: Request, now: int) {
    request.status.Waiting? && request.expiresAt <= now
  }

  function Goes(sys: State, p: nat, proc: Proc): State {
    sys.(procs := sys.procs[p := proc])
  }

  function Ends(sys: State, p: nat): State {
    sys.(procs := sys.procs - {p})
  }

  function WithStatus(sys: State, id: nat, status: LinkStatus): State
    requires id in sys.requests
  {
    sys.(requests := sys.requests[id := sys.requests[id].(status := status)])
  }

  function Apply(sys: State, step: Step): State {
    match step
    case Start(id, secret, now) =>
      if id in sys.secrets then sys
      else sys.(requests := sys.requests[id := Request(secret, Waiting, None, now + TTL_MS)], secrets := sys.secrets[id := secret])
    case ApproveRead(p, id, user, now) =>
      if p in sys.procs || id !in sys.requests then sys
      else if ShownStatus(sys.requests[id], now).Waiting? then Goes(sys, p, Approving(id, user))
      else if PastItsTime(sys.requests[id], now) then Goes(sys, p, Expiring(id))
      else sys
    case ApproveClaim(p) =>
      if p !in sys.procs || !sys.procs[p].Approving? then sys
      else
        var Approving(id, user) := sys.procs[p];
        if id !in sys.requests || !sys.requests[id].status.Waiting? then Ends(sys, p)
        else Ends(sys.(requests := sys.requests[id := sys.requests[id].(status := Approved, user := Some(user))],
                       approvals := sys.approvals[id := user]), p)
    case DenyRead(p, id, now) =>
      if p in sys.procs || id !in sys.requests || !ShownStatus(sys.requests[id], now).Waiting? then sys
      else Goes(sys, p, Denying(id))
    case DenyClaim(p) =>
      if p !in sys.procs || !sys.procs[p].Denying? then sys
      else
        var id := sys.procs[p].request;
        if id !in sys.requests || !sys.requests[id].status.Waiting? then Ends(sys, p) else Ends(WithStatus(sys, id, Denied), p)
    case LookUp(p, id, now) =>
      if p in sys.procs || id !in sys.requests || !PastItsTime(sys.requests[id], now) then sys
      else Goes(sys, p, Expiring(id))
    case ExpireWrite(p) =>
      if p !in sys.procs || !sys.procs[p].Expiring? then sys
      else
        var id := sys.procs[p].request;
        if id !in sys.requests then Ends(sys, p) else Ends(WithStatus(sys, id, Expired), p)
    case PollRead(p, id, offered, now) =>
      if p in sys.procs || id !in sys.requests || sys.requests[id].secret != offered then sys
      else
        var request := sys.requests[id];
        if request.status.Approved? && request.user.Some? then Goes(sys, p, Collecting(id, request.user.value, offered))
        else if PastItsTime(request, now) then Goes(sys, p, Expiring(id))
        else sys
    case PollClaim(p) =>
      if p !in sys.procs || !sys.procs[p].Collecting? then sys
      else
        var Collecting(id, user, offered) := sys.procs[p];
        if id !in sys.requests || !sys.requests[id].status.Approved? then Ends(sys, p)
        else Goes(WithStatus(sys, id, Used), p, Minting(id, user, offered))
    case CallMint(p) =>
      if p !in sys.procs || !sys.procs[p].Minting? then sys
      else
        var Minting(id, user, offered) := sys.procs[p];
        Ends(sys.(mints := sys.mints + [Mint(id, user, offered)]), p)
    case Purge(gone) => sys.(requests := sys.requests - gone)
  }

  function Run(sys: State, steps: seq<Step>): State
    decreases |steps|
  {
    if steps == [] then sys else Run(Apply(sys, steps[0]), steps[1..])
  }

  predicate Initial(sys: State) {
    sys.requests == map[] && sys.procs == map[] && sys.secrets == map[] && sys.approvals == map[] && sys.mints == []
  }

  // ----------------------------------------------------------- invariant ----

  predicate Over(status: LinkStatus) {
    status.Denied? || status.Expired? || status.Used?
  }

  predicate IsMinting(proc: Proc, id: nat) {
    proc.Minting? && proc.request == id
  }

  ghost predicate MintedOrMinting(sys: State, id: nat) {
    || (exists p :: p in sys.procs && IsMinting(sys.procs[p], id))
    || (exists i :: 0 <= i < |sys.mints| && sys.mints[i].request == id)
  }

  ghost predicate RequestsFit(sys: State) {
    forall id :: id in sys.requests ==>
      && id in sys.secrets && sys.requests[id].secret == sys.secrets[id]
      && (sys.requests[id].status.Waiting? ==> id !in sys.approvals)
      && (sys.requests[id].status.Approved? ==> id in sys.approvals && sys.requests[id].user == Some(sys.approvals[id]))
      && (!Over(sys.requests[id].status) ==> !MintedOrMinting(sys, id))
  }

  ghost predicate PollersFit(sys: State) {
    && (forall p :: p in sys.procs && (sys.procs[p].Collecting? || sys.procs[p].Minting?) ==>
          Authorised(sys, sys.procs[p].request, sys.procs[p].user, sys.procs[p].offered))
    && (forall p, q :: p in sys.procs && q in sys.procs && sys.procs[p].Minting? && IsMinting(sys.procs[q], sys.procs[p].request) ==> p == q)
    && (forall p, i :: p in sys.procs && 0 <= i < |sys.mints| ==> !IsMinting(sys.procs[p], sys.mints[i].request))
  }

  ghost predicate Authorised(sys: State, id: nat, user: nat, offered: nat) {
    id in sys.approvals && sys.approvals[id] == user && id in sys.secrets && sys.secrets[id] == offered
  }

  ghost predicate MintsFit(sys: State) {
    && (forall i :: 0 <= i < |sys.mints| ==> Authorised(sys, sys.mints[i].request, sys.mints[i].user, sys.mints[i].offered))
    && (forall i, j :: 0 <= i < j < |sys.mints| ==> sys.mints[i].request != sys.mints[j].request)
    && (forall id :: id in sys.approvals ==> id in sys.secrets)
  }

  ghost predicate Inv(sys: State) {
    RequestsFit(sys) && PollersFit(sys) && MintsFit(sys)
  }

  /** A step that neither mints nor claims: processes may come and go, requests may move on. */
  ghost predicate Ordinary(before: State, after: State) {
    && after.mints == before.mints
    && (forall id :: id in before.secrets ==> id in after.secrets && after.secrets[id] == before.secrets[id])
    && (forall id :: id in before.approvals ==> id in after.approvals && after.approvals[id] == before.approvals[id])
    && (forall p :: p in after.procs && after.procs[p].Minting? ==> p in before.procs && before.procs[p] == after.procs[p])
  }

  lemma OrdinaryKeepsMinting(before: State, after: State, id: nat)
    requires Ordinary(before, after) && MintedOrMinting(after, id)
    ensures MintedOrMinting(before, id)
  {
    if p :| p in after.procs && IsMinting(after.procs[p], id) {
      assert p in before.procs && IsMinting(before.procs[p], id);
    } else {
      var i :| 0 <= i < |after.mints| && after.mints[i].request == id;
      assert before.mints[i].request == id;
    }
  }

  lemma OrdinaryKeeps(before: State, after: State)
    requires Inv(before) && Ordinary(before, after)
    requires forall id :: id in after.approvals ==> id in after.secrets
    requires forall p :: p in after.procs && after.procs[p].Collecting? ==>
      Authorised(after, after.procs[p].request, after.procs[p].user, after.procs[p].offered)
    requires forall id :: id in after.requests ==>
      && id in after.secrets && after.requests[id].secret == after.secrets[id]
      && (after.requests[id].status.Waiting? ==> id !in after.approvals)
      && (after.requests[id].status.Approved? ==> id in after.approvals && after.requests[id].user == Some(after.approvals[id]))
      && (!Over(after.requests[id].status) ==> !MintedOrMinting(before, id))
    ensures Inv(after)
  {
    forall id | id in after.requests && !Over(after.requests[id].status) ensures !MintedOrMinting(after, id) {
      if MintedOrMinting(after, id) { OrdinaryKeepsMinting(before, after, id); }
    }
  }

  lemma MintedWasStarted(sys: State, id: nat)
    requires Inv(sys) && MintedOrMinting(sys, id)
    ensures id in sys.secrets
  {
    if p :| p in sys.procs && IsMinting(sys.procs[p], id) {
      assert Authorised(sys, id, sys.procs[p].user, sys.procs[p].offered);
    } else {
      var i :| 0 <= i < |sys.mints| && sys.mints[i].request == id;
      assert Authorised(sys, id, sys.mints[i].user, sys.mints[i].offered);
    }
  }

  lemma StartKeeps(sys: State, id: nat, secret: nat, now: int)
    requires Inv(sys)
    ensures Inv(Apply(sys, Start(id, secret, now)))
  {
    if MintedOrMinting(sys, id) { MintedWasStarted(sys, id); }
    if id !in sys.secrets { OrdinaryKeeps(sys, Apply(sys, Start(id, secret, now))); }
  }

  lemma ApproveClaimKeeps(sys: State, p: nat)
    requires Inv(sys)
    ensures Inv(Apply(sys, ApproveClaim(p)))
  {
    OrdinaryKeeps(sys, Apply(sys, ApproveClaim(p)));
  }

  lemma DenialKeeps(sys: State, step: Step)
    requires Inv(sys) && (step.DenyRead? || step.DenyClaim?)
    ensures Inv(Apply(sys, step))
  {
    OrdinaryKeeps(sys, Apply(sys, step));
  }

  lemma ExpiryKeeps(sys: State, step: Step)
    requires Inv(sys) && (step.LookUp? || step.ExpireWrite? || step.Purge?)
    ensures Inv(Apply(sys, step))
  {
    match step
    case LookUp(_, _, _) => OrdinaryKeeps(sys, Apply(sys, step));
    case ExpireWrite(_) => OrdinaryKeeps(sys, Apply(sys, step));
    case Purge(_) => OrdinaryKeeps(sys, Apply(sys, step));
  }

  lemma ApproveReadKeeps(sys: State, step: Step)
    requires Inv(sys) && (step.ApproveRead?)
    ensures Inv(Apply(sys, step))
  {
    OrdinaryKeeps(sys, Apply(sys, step));
  }

  lemma PollReadKeeps(sys: State, step: Step)
    requires Inv(sys) && (step.PollRead?)
    ensures Inv(Apply(sys, step))
  {
    OrdinaryKeeps(sys, Apply(sys, step));
  }

  lemma PollClaimKeeps(sys: State, p: nat)
    requires Inv(sys)
    ensures Inv(Apply(sys, PollClaim(p)))
  {
    var after := Apply(sys, PollClaim(p));
    if p in sys.procs && sys.procs[p].Collecting? {
      var Collecting(id, user, offered) := sys.procs[p];
      if id in sys.requests && sys.requests[id].status.Approved? {
        assert !MintedOrMinting(sys, id);
        assert forall q :: q in sys.procs ==> !IsMinting(sys.procs[q], id);
        assert forall i :: 0 <= i < |sys.mints| ==> sys.mints[i].request != id;
        forall other | other in after.requests && !Over(after.requests[other].status) ensures !MintedOrMinting(after, other) {
          assert other != id && !MintedOrMinting(sys, other);
          assert forall q :: q in sys.procs ==> !IsMinting(sys.procs[q], other);
        }
      } else {
        OrdinaryKeeps(sys, after);
      }
    }
  }

  lemma CallMintKeeps(sys: State, p: nat)
    requires Inv(sys)
    ensures Inv(Apply(sys, CallMint(p)))
  {
    if p in sys.procs && sys.procs[p].Minting? {
      var after := Apply(sys, CallMint(p));
      var id := sys.procs[p].request;
      assert IsMinting(sys.procs[p], id);
      forall other | other in after.requests && !Over(after.requests[other].status) ensures !MintedOrMinting(after, other) {
        assert !MintedOrMinting(sys, other);
      }
    }
  }

  lemma StepKeeps(sys: State, step: Step)
    requires Inv(sys)
    ensures Inv(Apply(sys, step))
  {
    match step
    case Start(id, secret, now) => StartKeeps(sys, id, secret, now);
    case PollClaim(p) => PollClaimKeeps(sys, p);
    case CallMint(p) => CallMintKeeps(sys, p);
    case ApproveClaim(p) => ApproveClaimKeeps(sys, p);
    case ApproveRead(_, _, _, _) => ApproveReadKeeps(sys, step);
    case PollRead(_, _, _, _) => PollReadKeeps(sys, step);
    case DenyRead(_, _, _) => DenialKeeps(sys, step);
    case DenyClaim(_) => DenialKeeps(sys, step);
    case _ => ExpiryKeeps(sys, step);
  }

  lemma {:induction false} RunKeeps(sys: State, steps: seq<Step>)
    requires Inv(sys)
    ensures Inv(Run(sys, steps))
    decreases |steps|
  {
    if steps != [] {
      StepKeeps(sys, steps[0]);
      RunKeeps(Apply(sys, steps[0]), steps[1..]);
    }
  }

  // --------------------------------------------------------- main results ----

  /**
   * Tokens are minted at most once per request, for the user of its winning approval and no other,
   * and only for a poller that offered the secret the request was started with.
   */
  lemma MintedOncePerRequest(start: State, steps: seq<Step>, i: nat, j: nat)
    requires Initial(start) && i < |Run(start, steps).mints| && j < |Run(start, steps).mints|
    ensures
      var sys := Run(start, steps);
      var mint := sys.mints[i];
      && (mint.request == sys.mints[j].request ==> i == j)
      && mint.request in sys.approvals && sys.approvals[mint.request] == mint.user
      && mint.request in sys.secrets && sys.secrets[mint.request] == mint.offered
  {
    RunKeeps(start, steps);
    var sys := Run(start, steps);
    assert Authorised(sys, sys.mints[i].request, sys.mints[i].user, sys.mints[i].offered);
  }

  predicate Behind(before: LinkStatus, after: LinkStatus) {
    match before
    case Waiting => true
    case Approved => !after.Waiting?
    case _ => Over(after)
  }

  lemma {:induction false} NeverBack(sys: State, steps: seq<Step>, id: nat)
    requires id in sys.secrets
    requires id in sys.approvals ==> id in sys.requests ==> !sys.requests[id].status.Waiting?
    ensures
      var after := Run(sys, steps);
      && id in after.secrets
      && (id in after.requests ==> id in sys.requests && Behind(sys.requests[id].status, after.requests[id].status))
      && (id in sys.approvals ==> id in after.approvals)
      && (id in sys.approvals && (id !in sys.requests || !sys.requests[id].status.Waiting?) ==> after.approvals[id] == sys.approvals[id])
    decreases |steps|
  {
    if steps != [] {
      var next := Apply(sys, steps[0]);
      assert id in next.requests ==> id in sys.requests && Behind(sys.requests[id].status, next.requests[id].status);
      NeverBack(next, steps[1..], id);
    }
  }

  /**
   * A request that is used, denied or expired is never approved again, even by the write of a lookup
   * that read it long before; and the first winning approval of a request is its only one.
   */
  lemma OverStaysOver(start: State, steps: seq<Step>, more: seq<Step>, id: nat)
    requires Initial(start) && id in Run(start, steps).secrets
    ensures
      var sys := Run(start, steps);
      var later := Run(sys, more);
      && (id in sys.requests && Over(sys.requests[id].status) && id in later.requests ==> Over(later.requests[id].status))
      && (id !in sys.requests ==> id !in later.requests)
      && (id in sys.approvals ==> id in later.approvals && later.approvals[id] == sys.approvals[id])
  {
    RunKeeps(start, steps);
    NeverBack(Run(start, steps), more, id);
  }

  // ------------------------------------------------------------ the handlers ----

  datatype Refusal = Unknown | TimedOut | Already

  datatype PollOutcome = PollUnknown | PollSlowDown | PollPending | PollDenied | PollExpired | PollApproved(user: nat)

  /** The statements of a poll that finds the request approved, one after the other. */
  lemma PollLeaves(sys: State, id: nat, offered: nat, now: int, p: nat)
    requires p !in sys.procs
    ensures
      id !in sys.requests || sys.requests[id].secret != offered ||
      (!PastItsTime(sys.requests[id], now) && !(sys.requests[id].status.Approved? && sys.requests[id].user.Some?)) ==>
        Apply(Apply(Apply(Apply(sys, PollRead(p, id, offered, now)), PollClaim(p)), CallMint(p)), ExpireWrite(p)) == sys
  {
  }

  lemma PollExpires(sys: State, id: nat, offered: nat, now: int, p: nat)
    requires p !in sys.procs && id in sys.requests && sys.requests[id].secret == offered && ShownStatus(sys.requests[id], now).Expired?
    ensures
      Apply(Apply(Apply(Apply(sys, PollRead(p, id, offered, now)), PollClaim(p)), CallMint(p)), ExpireWrite(p)) ==
        Apply(Apply(sys, LookUp(p, id, now)), ExpireWrite(p))
  {
  }

  lemma PollSpends(sys: State, id: nat, offered: nat, now: int, p: nat)
    requires p !in sys.procs && id in sys.requests && sys.requests[id].secret == offered
    requires sys.requests[id].status.Approved? && sys.requests[id].user.Some?
    ensures
      var user := sys.requests[id].user.value;
      Apply(Apply(Apply(Apply(sys, PollRead(p, id, offered, now)), PollClaim(p)), CallMint(p)), ExpireWrite(p)) ==
        WithStatus(sys, id, Used).(mints := sys.mints + [Mint(id, user, offered)])
  {
    var user := sys.requests[id].user.value;
    var read := Apply(sys, PollRead(p, id, offered, now));
    assert read == Goes(sys, p, Collecting(id, user, offered));
    var claimed := Apply(read, PollClaim(p));
    assert claimed.procs == sys.procs[p := Minting(id, user, offered)];
    assert claimed.procs - {p} == sys.procs;
  }

  class LinkRequests {
    var requests: map<nat, Request>
    var secrets: map<nat, nat>
    var approvals: map<nat, nat>
    var mints: seq<Mint>
    /** When a pending request was last polled. */
    var polls: map<nat, int>

    /** The table together with whatever other calls are between two statements. */
    ghost function With(procs: map<nat, Proc>): State
      reads this
    {
      State(requests, procs, secrets, approvals, mints)
    }

    constructor ()
      ensures Initial(With(map[]))
    {
      requests, secrets, approvals, mints, polls := map[], map[], map[], [], map[];
    }

    method SettleExpiry(id: nat, now: int, ghost p: nat, ghost procs: map<nat, Proc>)
      requires id in requests && p !in procs
      modifies this`requests
      ensures With(procs) == Apply(Apply(old(With(procs)), LookUp(p, id, now)), ExpireWrite(p))
      ensures
        var request := old(requests)[id];
        requests == if request.status == Waiting && request.expiresAt <= now then old(requests)[id := request.(status := Expired)] else old(requests)
    {
      if requests[id].status.Waiting? && requests[id].expiresAt <= now {
        requests := requests[id := requests[id].(status := Expired)];
      }
      assert procs[p := Expiring(id)] - {p} == procs;
    }

    /** Records who allowed the request; a request is allowed once, and not after its time. */
    method ApproveLink(id: nat, user: nat, now: int, ghost p: nat, ghost procs: map<nat, Proc>) returns (r: Option<Refusal>)
      requires p !in procs
      modifies this`requests, this`approvals
      ensures With(procs) == Apply(Apply(Apply(old(With(procs)), ApproveRead(p, id, user, now)), ApproveClaim(p)), ExpireWrite(p))
      ensures r.None? <==> id in old(requests) && old(requests)[id].status.Waiting? && old(requests)[id].expiresAt > now
      ensures r.None? ==>
        requests == old(requests)[id := old(requests)[id].(status := Approved, user := Some(user))] && approvals == old(approvals)[id := user]
      ensures r == Some(Unknown) <==> id !in old(requests)
      ensures r == Some(TimedOut) <==>
        id in old(requests) && (old(requests)[id].status == Expired || (old(requests)[id].status == Waiting && old(requests)[id].expiresAt <= now))
      ensures r.Some? ==> approvals == old(approvals)
      ensures r.Some? && r != Some(TimedOut) ==> requests == old(requests)
      ensures r == Some(TimedOut) ==> requests == old(requests)[id := old(requests)[id].(status := Expired)]
    {
      assert procs[p := Approving(id, user)] - {p} == procs && procs[p := Expiring(id)] - {p} == procs;
      if id !in requests { return Some(Unknown); }
      var current := ShownStatus(requests[id], now);
      if current.Expired? {
        SettleExpiry(id, now, p, procs);
        return Some(TimedOut);
      }
      if !current.Waiting? { return Some(Already); }
      requests := requests[id := requests[id].(status := Approved, user := Some(user))];
      approvals := approvals[id := user];
      return None;
    }

    method DenyLink(id: nat, now: int, ghost p: nat, ghost procs: map<nat, Proc>) returns (r: Option<Refusal>)
      requires p !in procs
      modifies this`requests
      ensures With(procs) == Apply(Apply(old(With(procs)), DenyRead(p, id, now)), DenyClaim(p))
      ensures r.None? <==> id in old(requests) && old(requests)[id].status.Waiting? && old(requests)[id].expiresAt > now
      ensures r == Some(Unknown) <==> id !in old(requests)
      ensures requests == if r.None? then old(requests)[id := old(requests)[id].(status := Denied)] else old(requests)
    {
      assert procs[p := Denying(id)] - {p} == procs;
      if id !in requests { return Some(Unknown); }
      if !ShownStatus(requests[id], now).Waiting? { return Some(Already); }
      requests := requests[id := requests[id].(status := Denied)];
      return None;
    }

    /** A request waits for an answer for as long as its codes are good. */
    method StartLink(id: nat, secret: nat, now: int, ghost procs: map<nat, Proc>)
      requires id !in secrets
      modifies this`requests, this`secrets
      ensures With(procs) == Apply(old(With(procs)), Start(id, secret, now))
      ensures id in requests && forall later :: ShownStatus(requests[id], later).Waiting? <==> later - now < 5 * 60 * 1000
      ensures requests == old(requests)[id := Request(secret, Waiting, None, now + 5 * 60 * 1000)]
    {
      requests, secrets := requests[id := Request(secret, Waiting, None, now + TTL_MS)], secrets[id := secret];
    }

    /** Pending requests are answered at most once in half a polling interval. */
    predicate TooSoon(id: nat, now: int)
      reads this`polls
    {
      now - (if id in polls then polls[id] else 0) < POLL_INTERVAL_MS / 2
    }

    /**
     * The first poll after approval is handed tokens, if minting them succeeds, and its request is spent
     * either way. `minted` says whether it does.
     */
    method PollLink(id: nat, offered: nat, now: int, minted: bool, ghost p: nat, ghost procs: map<nat, Proc>) returns (r: PollOutcome)
      requires p !in procs
      modifies this`requests, this`mints, this`polls
      ensures With(procs) == Apply(Apply(Apply(Apply(old(With(procs)), PollRead(p, id, offered, now)), PollClaim(p)), CallMint(p)), ExpireWrite(p))
      ensures r.PollUnknown? <==> id !in old(requests) || old(requests)[id].secret != offered
      ensures !r.PollUnknown? ==>
        var request := old(requests)[id];
        && (r.PollSlowDown? || r.PollPending? <==> request.status.Waiting? && now < request.expiresAt)
        && (r.PollSlowDown? ==> now - (if id in old(polls) then old(polls)[id] else 0) < 1000 && requests == old(requests) && polls == old(polls))
        && (r.PollPending? ==>
              now - (if id in old(polls) then old(polls)[id] else 0) >= 1000 && requests == old(requests) && polls == old(polls)[id := now])
        && (r.PollApproved? <==> request.status.Approved? && request.user.Some? && minted)
        && (r.PollApproved? ==> request.user == Some(r.user))
        && (r.PollDenied? <==> request.status.Denied? || (request.status.Approved? && request.user.Some? && !minted))
        && (request.status.Approved? && request.user.Some? ==>
              mints == old(mints) + [Mint(id, request.user.value, offered)] && requests == old(requests)[id := request.(status := Used)])
        && (!(request.status.Approved? && request.user.Some?) ==> mints == old(mints))
        && (request.status.Waiting? && request.expiresAt <= now ==> r == PollExpired && requests == old(requests)[id := request.(status := Expired)])
        && (Over(request.status) ==> requests == old(requests))
    {
      if id !in requests {
        PollLeaves(With(procs), id, offered, now, p);
        return PollUnknown;
      }
      var request := requests[id];
      if request.secret != offered {
        PollLeaves(With(procs), id, offered, now, p);
        return PollUnknown;
      }
      var status := ShownStatus(request, now);
      if status.Waiting? {
        PollLeaves(With(procs), id, offered, now, p);
        if TooSoon(id, now) { return PollSlowDown; }
        polls := polls[id := now];
        return PollPending;
      }
      if status.Approved? && request.user.Some? {
        PollSpends(With(procs), id, offered, now, p);
        requests, polls := requests[id := request.(status := Used)], polls[id := now];
        mints := mints + [Mint(id, request.user.value, offered)];
        return if minted then PollApproved(request.user.value) else PollDenied;
      }
      if status.Expired? {
        PollExpires(With(procs), id, offered, now, p);
        SettleExpiry(id, now, p, procs);
        return PollExpired;
      }
      PollLeaves(With(procs), id, offered, now, p);
      return if status.Denied? then PollDenied else PollExpired;
    }
  }
}
