/** The election decision of one reconcile tick: a pure function of what was observed. */
module Decide {
  import opened Prelude

  const SECOND := 1_000_000_000

  datatype Backend = Backend(pod: string, url: string, priority: int, restarts: int)

  datatype Leadership = Leadership(
    role: string,
    isLeader: bool,
    latestTs: nat,
    leaseTs: Option<nat>,
    leaseUnverifiedSecs: Option<nat>,
    tailerHealthy: bool)

  datatype Observation = Observation(be: Backend, status: Leadership, reach: bool, wasTransitioning: bool)

  datatype DemoteTarget = DemoteTarget(pod: string, url: string, leaseTs: Option<nat>)

  /** `eligibleSince == None` is Go's zero time. */
  datatype FailbackState = FailbackState(candidate: string, restarts: int, eligibleSince: Option<nat>)

  const NO_FAILBACK := FailbackState("", 0, None)

  datatype Decision = Decision(
    leaderPod: string,
    leaderUrl: string,
    liveLeaderCount: nat,
    incumbentUnreachable: bool,
    hasTransitioning: bool,
    promoteTarget: Option<Observation>,
    demotes: seq<DemoteTarget>,
    failbackTarget: Option<Observation>,
    failbackState: FailbackState)

  datatype FailbackParams = FailbackParams(
    enabled: bool,
    stabilityWindow: nat,
    warmthLagNs: nat,
    now: nat,
    prior: FailbackState)

  datatype DecideParams = DecideParams(
    incumbent: string,
    leaseUnverifiedGrace: int,
    attempted: map<string, nat>,
    failback: FailbackParams)

  // ---- Tests on one observation

  predicate IsLiveLeaderClaim(o: Observation, grace: int) {
    && o.reach
    && o.status.isLeader
    && (grace <= 0 || o.status.leaseUnverifiedSecs.None? || o.status.leaseUnverifiedSecs.value <= grace / SECOND)
  }

  predicate IsTransitioning(o: Observation) {
    if !o.reach then o.wasTransitioning
    else !o.status.isLeader && (o.status.leaseTs.Some? || o.status.role == "promoting")
  }

  predicate IsPromotable(o: Observation) {
    o.reach && !o.status.isLeader && !IsTransitioning(o) && o.status.tailerHealthy
  }

  predicate WarmEnough(candTs: nat, leaderTs: nat, lagNs: nat) {
    candTs >= leaderTs || leaderTs - candTs <= lagNs
  }

  predicate IsFailbackCandidate(o: Observation, leader: Observation, lagNs: nat) {
    && IsPromotable(o)
    && o.be.priority > leader.be.priority
    && WarmEnough(o.status.latestTs, leader.status.latestTs, lagNs)
  }

  // ---- Comparisons of two observations

  predicate BetterLeader(a: Observation, b: Observation) {
    match (a.status.leaseTs, b.status.leaseTs)
    case (Some(at), Some(bt)) => if at != bt then at > bt else Less(a.be.pod, b.be.pod)
    case (Some(_), None) => true
    case (None, Some(_)) => false
    case (None, None) => Less(a.be.pod, b.be.pod)
  }

  predicate MorePreferred(a: Observation, b: Observation) {
    if a.be.priority != b.be.priority then a.be.priority > b.be.priority
    else if a.status.latestTs != b.status.latestTs then a.status.latestTs > b.status.latestTs
    else Less(a.be.pod, b.be.pod)
  }

  /** A pod missing from the map was never attempted, which precedes every attempt. */
  function AttemptOf(attempted: map<string, nat>, o: Observation): Option<nat> {
    if o.be.pod in attempted then Some(attempted[o.be.pod]) else None
  }

  predicate Earlier(a: Option<nat>, b: Option<nat>) {
    b.Some? && (a.None? || a.value < b.value)
  }

  predicate LessRecentlyAttempted(a: Observation, b: Observation, attempted: map<string, nat>) {
    var at, bt := AttemptOf(attempted, a), AttemptOf(attempted, b);
    if at != bt then Earlier(at, bt) else MorePreferred(a, b)
  }

  // ---- The loops, named by what they keep and by how they rank

  datatype Keep =
    | Live(grace: int)
    | Promotable
    | Failback(leader: Observation, lagNs: nat)

  predicate Keeps(k: Keep, o: Observation) {
    match k
    case Live(grace) => IsLiveLeaderClaim(o, grace)
    case Promotable => IsPromotable(o)
    case Failback(leader, lagNs) => IsFailbackCandidate(o, leader, lagNs)
  }

  datatype Ranking =
    | ByLease
    | ByAttempt(attempted: map<string, nat>)
    | ByPreference

  predicate Beats(r: Ranking, a: Observation, b: Observation) {
    match r
    case ByLease => BetterLeader(a, b)
    case ByAttempt(attempted) => LessRecentlyAttempted(a, b, attempted)
    case ByPreference => MorePreferred(a, b)
  }

  function Select(obs: seq<Observation>, k: Keep): seq<Observation> {
    if obs == [] then []
    else
      var o := obs[|obs| - 1];
      Select(obs[..|obs| - 1], k) + if Keeps(k, o) then [o] else []
  }

  function Best(obs: seq<Observation>, r: Ranking): Option<Observation> {
    if obs == [] then None
    else
      var best, o := Best(obs[..|obs| - 1], r), obs[|obs| - 1];
      if best.None? || Beats(r, o, best.value) then Some(o) else best
  }

  predicate AnyTransitioning(obs: seq<Observation>) {
    exists o | o in obs :: IsTransitioning(o)
  }

  predicate IncumbentDiscoveredUnreachable(obs: seq<Observation>, incumbent: string) {
    incumbent != "" && exists i | 0 <= i < |obs| ::
      obs[i].be.pod == incumbent && !obs[i].reach && forall j | 0 <= j < i :: obs[j].be.pod != incumbent
  }

  function Demotes(claims: seq<Observation>, leader: Observation): seq<DemoteTarget> {
    if claims == [] then []
    else
      var o := claims[|claims| - 1];
      Demotes(claims[..|claims| - 1], leader)
      + if o.be.pod != leader.be.pod then [DemoteTarget(o.be.pod, o.be.url, o.status.leaseTs)] else []
  }

  predicate StillCandidate(o: Observation, prior: FailbackState) {
    o.be.pod == prior.candidate && o.be.restarts == prior.restarts && IsPromotable(o)
  }

  function RetainedFailback(obs: seq<Observation>, prior: FailbackState): FailbackState {
    if exists o | o in obs :: StillCandidate(o, prior) then prior else NO_FAILBACK
  }

  function FailbackClock(cand: Observation, p: FailbackParams): nat {
    if p.prior.candidate == cand.be.pod && p.prior.restarts == cand.be.restarts && p.prior.eligibleSince.Some?
    then p.prior.eligibleSince.value
    else p.now
  }

  function FailbackOf(obs: seq<Observation>, leader: Observation, p: FailbackParams)
    : (Option<Observation>, FailbackState)
  {
    if !p.enabled then (None, NO_FAILBACK)
    else
      match Best(Select(obs, Failback(leader, p.warmthLagNs)), ByPreference)
      case None => (None, NO_FAILBACK)
      case Some(cand) =>
        var since := FailbackClock(cand, p);
        (if p.now - since >= p.stabilityWindow then Some(cand) else None,
         FailbackState(cand.be.pod, cand.be.restarts, Some(since)))
  }

  function DecisionOf(obs: seq<Observation>, p: DecideParams): Decision {
    var claims := Select(obs, Live(p.leaseUnverifiedGrace));
    var busy := AnyTransitioning(obs);
    match Best(claims, ByLease)
    case None =>
      Decision("", "", |claims|, IncumbentDiscoveredUnreachable(obs, p.incumbent), busy,
               if busy then None else Best(Select(obs, Promotable), ByAttempt(p.attempted)),
               [], None, RetainedFailback(obs, p.failback.prior))
    case Some(leader) =>
      var (fb, state) := FailbackOf(obs, leader, p.failback);
      Decision(leader.be.pod, leader.be.url, |claims|, false, busy, None, Demotes(claims, leader),
               if |claims| == 1 && !busy then fb else None, state)
  }

  // ---- The same computations as the loops that perform them

  method ClaimedLeaders(obs: seq<Observation>, grace: int) returns (out: seq<Observation>)
    ensures out == Select(obs, Live(grace))
  {
    out := [];
    for i := 0 to |obs|
      invariant out == Select(obs[..i], Live(grace))
    {
      assert obs[..i + 1][..i] == obs[..i];
      if IsLiveLeaderClaim(obs[i], grace) {
        out := out + [obs[i]];
      }
    }
    assert obs[..|obs|] == obs;
  }

  method PickLeader(claims: seq<Observation>) returns (best: Observation)
    requires claims != []
    ensures Best(claims, ByLease) == Some(best)
  {
    best := claims[0];
    assert claims[..1] == [claims[0]] && claims[..1][..0] == [];
    for i := 1 to |claims|
      invariant Best(claims[..i], ByLease) == Some(best)
    {
      assert claims[..i + 1][..i] == claims[..i];
      if BetterLeader(claims[i], best) {
        best := claims[i];
      }
    }
    assert claims[..|claims|] == claims;
  }

  method BestCandidate(obs: seq<Observation>, attempted: map<string, nat>) returns (best: Option<Observation>)
    ensures best == Best(Select(obs, Promotable), ByAttempt(attempted))
  {
    best := None;
    for i := 0 to |obs|
      invariant best == Best(Select(obs[..i], Promotable), ByAttempt(attempted))
    {
      assert obs[..i + 1][..i] == obs[..i];
      SelectAppend(obs[..i], obs[i], Promotable, ByAttempt(attempted));
      if IsPromotable(obs[i]) {
        if best.None? || LessRecentlyAttempted(obs[i], best.value, attempted) {
          best := Some(obs[i]);
        }
      }
    }
    assert obs[..|obs|] == obs;
  }

  method BestFailbackCandidate(obs: seq<Observation>, leader: Observation, lagNs: nat)
    returns (best: Option<Observation>)
    ensures best == Best(Select(obs, Failback(leader, lagNs)), ByPreference)
  {
    best := None;
    for i := 0 to |obs|
      invariant best == Best(Select(obs[..i], Failback(leader, lagNs)), ByPreference)
    {
      assert obs[..i + 1][..i] == obs[..i];
      SelectAppend(obs[..i], obs[i], Failback(leader, lagNs), ByPreference);
      if IsFailbackCandidate(obs[i], leader, lagNs) {
        if best.None? || MorePreferred(obs[i], best.value) {
          best := Some(obs[i]);
        }
      }
    }
    assert obs[..|obs|] == obs;
  }

  lemma SelectAppend(obs: seq<Observation>, o: Observation, k: Keep, r: Ranking)
    ensures Select(obs + [o], k) == Select(obs, k) + if Keeps(k, o) then [o] else []
    ensures Best(Select(obs + [o], k), r) ==
            (var best := Best(Select(obs, k), r);
             if Keeps(k, o) && (best.None? || Beats(r, o, best.value)) then Some(o) else best)
  {
    assert (obs + [o])[..|obs|] == obs;
    var s := Select(obs, k);
    assert (s + [o])[..|s|] == s;
    assert s + [] == s;
  }

  method EvaluateFailback(obs: seq<Observation>, leader: Observation, p: FailbackParams)
    returns (target: Option<Observation>, state: FailbackState)
    ensures (target, state) == FailbackOf(obs, leader, p)
  {
    if !p.enabled {
      return None, NO_FAILBACK;
    }
    var cand := BestFailbackCandidate(obs, leader, p.warmthLagNs);
    if cand.None? {
      return None, NO_FAILBACK;
    }
    var since := p.now;
    if p.prior.candidate == cand.value.be.pod && p.prior.restarts == cand.value.be.restarts
       && p.prior.eligibleSince.Some?
    {
      since := p.prior.eligibleSince.value;
    }
    state := FailbackState(cand.value.be.pod, cand.value.be.restarts, Some(since));
    target := if p.now - since >= p.stabilityWindow then cand else None;
  }

  method DecideTick(obs: seq<Observation>, p: DecideParams) returns (d: Decision)
    ensures d == DecisionOf(obs, p)
  {
    var claims := ClaimedLeaders(obs, p.leaseUnverifiedGrace);
    var busy := AnyTransitioning(obs);
    d := Decision("", "", |claims|, false, busy, None, [], None, NO_FAILBACK);
    BestOfNone(claims, ByLease);
    if |claims| == 0 {
      d := d.(failbackState := RetainedFailback(obs, p.failback.prior),
              incumbentUnreachable := IncumbentDiscoveredUnreachable(obs, p.incumbent));
      if busy {
        return;
      }
      var cand := BestCandidate(obs, p.attempted);
      d := d.(promoteTarget := cand);
      return;
    }
    var leader := PickLeader(claims);
    d := d.(leaderPod := leader.be.pod, leaderUrl := leader.be.url);
    for i := 0 to |claims|
      invariant d == Decision(leader.be.pod, leader.be.url, |claims|, false, busy, None,
                              Demotes(claims[..i], leader), None, NO_FAILBACK)
    {
      assert claims[..i + 1][..i] == claims[..i];
      var o := claims[i];
      if o.be.pod != leader.be.pod {
        d := d.(demotes := d.demotes + [DemoteTarget(o.be.pod, o.be.url, o.status.leaseTs)]);
      }
    }
    assert claims[..|claims|] == claims;
    var fb, state := EvaluateFailback(obs, leader, p.failback);
    d := d.(failbackState := state);
    if |claims| == 1 && !busy {
      d := d.(failbackTarget := fb);
    }
  }

  lemma BestOfNone(obs: seq<Observation>, r: Ranking)
    ensures Best(obs, r).None? <==> obs == []
  {}
}
