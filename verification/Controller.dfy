/** The state the election controller keeps for one deployment, and every step that changes it.
    The functions say what each step does to that state; the class performs the steps in
    place and is proved to do exactly that. */
module Controller {
  import opened Prelude
  import opened Decide

  datatype Config = Config(
    promoteDebounce: int,
    failbackEnabled: bool,
    failbackStability: nat,
    failbackWarmthLagNs: nat,
    unreachableLeaderGrace: nat,
    leaseUnverifiedGrace: int,
    emptyDiscoveryDebounce: int)

  datatype Leader = Leader(pod: string, url: string)

  const NO_LEADER := Leader("", "")

  /** `published` is what the registry was last told; `incumbentUnreachableSince == None` is
      Go's zero time. */
  datatype DState = DState(
    leaderlessStreak: nat,
    emptyStreak: nat,
    incumbentPod: string,
    incumbentUnreachableSince: Option<nat>,
    promoting: bool,
    demoting: bool,
    discoveryDown: bool,
    failback: FailbackState,
    transitioningSeen: map<string, nat>,
    promoteAttempts: map<string, nat>,
    published: Leader)

  const INITIAL := DState(0, 0, "", None, false, false, false, NO_FAILBACK, map[], map[], NO_LEADER)

  /** The result of a promote request: no response (the request may or may not have left),
      or a response with a status code. */
  datatype PostOutcome = NoResponse(sent: bool) | Status(code: nat)

  const HTTP_OK := 200
  const HTTP_ACCEPTED := 202

  /** The outcomes after which the pod may be mid-promotion. */
  predicate MayHaveStarted(outcome: PostOutcome) {
    match outcome
    case NoResponse(sent) => sent
    case Status(code) => code == HTTP_OK || code == HTTP_ACCEPTED
  }

  // ---- What each step does to the state

  function AfterDiscovery(s: DState, down: bool): DState {
    s.(failback := if down then NO_FAILBACK else s.failback, discoveryDown := down)
  }

  function Purged(seen: map<string, nat>, pollStart: nat, grace: nat): map<string, nat> {
    map pod | pod in seen && pollStart - seen[pod] < grace :: seen[pod]
  }

  function RememberOne(seen: map<string, nat>, o: Observation, pollStart: nat): (map<string, nat>, Observation) {
    var pod := o.be.pod;
    if !o.reach then (seen, o.(wasTransitioning := pod in seen))
    else if IsTransitioning(o) then
      (if pod !in seen || pollStart > seen[pod] then seen[pod := pollStart] else seen, o)
    else
      (if pod in seen && seen[pod] < pollStart then seen - {pod} else seen, o)
  }

  function RememberAll(seen: map<string, nat>, obs: seq<Observation>, pollStart: nat)
    : (r: (map<string, nat>, seq<Observation>))
    ensures |r.1| == |obs|
  {
    if obs == [] then (seen, [])
    else
      var (seen1, obs1) := RememberAll(seen, obs[..|obs| - 1], pollStart);
      var (seen2, o) := RememberOne(seen1, obs[|obs| - 1], pollStart);
      (seen2, obs1 + [o])
  }

  function Remembered(seen: map<string, nat>, obs: seq<Observation>, pollStart: nat, grace: nat)
    : (map<string, nat>, seq<Observation>)
  {
    RememberAll(Purged(seen, pollStart, grace), obs, pollStart)
  }

  function Marked(s: DState, pod: string, now: nat): DState {
    s.(transitioningSeen := s.transitioningSeen[pod := now])
  }

  function Finished(s: DState, pod: string, outcome: PostOutcome, now: nat): DState {
    (if MayHaveStarted(outcome) then Marked(s, pod, now) else s).(promoting := false)
  }

  function LeaderlessStreakAfter(s: DState, dec: Decision, emptyList: bool, cfg: Config): nat {
    if emptyList then
      if s.emptyStreak + 1 >= cfg.emptyDiscoveryDebounce then 0 else s.leaderlessStreak
    else if dec.liveLeaderCount > 0 then 0
    else if !dec.hasTransitioning then s.leaderlessStreak + 1
    else s.leaderlessStreak
  }

  function UnreachableSinceAfter(s: DState, dec: Decision, emptyList: bool, now: nat): Option<nat> {
    if dec.incumbentUnreachable then
      if s.incumbentUnreachableSince.None? then Some(now) else s.incumbentUnreachableSince
    else if !emptyList then None
    else s.incumbentUnreachableSince
  }

  function Committed(s: DState, dec: Decision, emptyList: bool, now: nat, cfg: Config): DState {
    s.(failback := dec.failbackState,
       emptyStreak := if emptyList then s.emptyStreak + 1 else 0,
       leaderlessStreak := LeaderlessStreakAfter(s, dec, emptyList, cfg),
       promoteAttempts := if !emptyList && dec.liveLeaderCount > 0 then map[] else s.promoteAttempts,
       incumbentUnreachableSince := UnreachableSinceAfter(s, dec, emptyList, now))
  }

  predicate Retains(s: DState, dec: Decision, now: nat, cfg: Config) {
    dec.incumbentUnreachable && s.incumbentUnreachableSince.Some?
    && now - s.incumbentUnreachableSince.value < cfg.unreachableLeaderGrace
  }

  function WithLeader(s: DState, leader: Leader): DState {
    s.(incumbentPod := leader.pod, published := leader)
  }

  predicate CanPromote(s: DState, pollStart: nat) {
    !s.promoting && forall pod | pod in s.transitioningSeen :: s.transitioningSeen[pod] <= pollStart
  }

  /** A new state together with the actuation goroutines the step starts. */
  datatype Effect = Effect(state: DState, promote: Option<Observation>, demote: seq<DemoteTarget>)

  function ActEmpty(s: DState, streak: nat, cfg: Config): DState {
    if streak < cfg.emptyDiscoveryDebounce then s else WithLeader(s, NO_LEADER)
  }

  function ActLeaderless(s: DState, d: Decision, streak: nat, retain: bool, pollStart: nat, cfg: Config): Effect {
    if streak < cfg.promoteDebounce || retain then Effect(s, None, [])
    else if d.promoteTarget.None? then Effect(WithLeader(s, NO_LEADER), None, [])
    else if !CanPromote(s, pollStart) then Effect(s, None, [])
    else
      var pod := d.promoteTarget.value.be.pod;
      Effect(WithLeader(s, NO_LEADER).(promoting := true, promoteAttempts := s.promoteAttempts[pod := pollStart]),
             d.promoteTarget, [])
  }

  /** Exactly when a leaderless tick clears the leader: past the debounce, with no incumbent to
      retain, and with either nobody to promote or the promotion acquired. */
  predicate ClearsLeader(s: DState, d: Decision, streak: nat, retain: bool, pollStart: nat, cfg: Config) {
    streak >= cfg.promoteDebounce && !retain && (d.promoteTarget.None? || CanPromote(s, pollStart))
  }

  lemma LeaderlessEffect(s: DState, d: Decision, streak: nat, retain: bool, pollStart: nat, cfg: Config)
    ensures var e := ActLeaderless(s, d, streak, retain, pollStart, cfg);
            var clears := ClearsLeader(s, d, streak, retain, pollStart, cfg);
            && e.demote == []
            && e.promote == (if clears then d.promoteTarget else None)
            && e.state.transitioningSeen == s.transitioningSeen
            && e.state.published == (if clears then NO_LEADER else s.published)
            && e.state.incumbentPod == (if clears then "" else s.incumbentPod)
  {}

  function ActLeaderful(s: DState, d: Decision): Effect {
    var led := WithLeader(s, Leader(d.leaderPod, d.leaderUrl));
    if d.demotes == [] || s.demoting then Effect(led, None, [])
    else Effect(led.(demoting := true), None, d.demotes)
  }

  function ActFailback(s: DState, target: Observation, pollStart: nat): Effect {
    if !CanPromote(s, pollStart) then Effect(s, None, [])
    else
      Effect(s.(promoting := true, failback := s.failback.(eligibleSince := Some(pollStart))), Some(target), [])
  }

  /** A whole `act` with nothing running beside it. */
  function Act(s: DState, d: Decision, streak: nat, retain: bool, pollStart: nat, cfg: Config): Effect {
    if d.liveLeaderCount == 0 then ActLeaderless(s, d, streak, retain, pollStart, cfg)
    else
      var led := ActLeaderful(s, d);
      if d.failbackTarget.None? then led
      else ActFailback(led.state, d.failbackTarget.value, pollStart).(demote := led.demote)
  }

  function ParamsOf(s: DState, now: nat, cfg: Config): DecideParams {
    DecideParams(s.incumbentPod, cfg.leaseUnverifiedGrace, s.promoteAttempts,
                 FailbackParams(cfg.failbackEnabled, cfg.failbackStability, cfg.failbackWarmthLagNs, now, s.failback))
  }

  /** A whole successful reconcile with nothing running beside it. */
  function Reconciled(s: DState, polled: seq<Observation>, pollStart: nat, now: nat, cfg: Config): Effect {
    var found := AfterDiscovery(s, false);
    var (seen, obs) := Remembered(found.transitioningSeen, polled, pollStart, cfg.unreachableLeaderGrace);
    var d := DecisionOf(obs, ParamsOf(found, now, cfg));
    var next := Committed(found.(transitioningSeen := seen), d, obs == [], now, cfg);
    if obs == [] then Effect(ActEmpty(next, next.emptyStreak, cfg), None, [])
    else Act(next, d, next.leaderlessStreak, Retains(next, d, now, cfg), pollStart, cfg)
  }

  // ---- The steps, in place

  class Deployment {
    const cfg: Config
    var leaderlessStreak: nat
    var emptyStreak: nat
    var incumbentPod: string
    var incumbentUnreachableSince: Option<nat>
    var promoting: bool
    var demoting: bool
    var discoveryDown: bool
    var failback: FailbackState
    var transitioningSeen: map<string, nat>
    var promoteAttempts: map<string, nat>
    var published: Leader

    function State(): DState
      reads this
    {
      DState(leaderlessStreak, emptyStreak, incumbentPod, incumbentUnreachableSince, promoting, demoting,
             discoveryDown, failback, transitioningSeen, promoteAttempts, published)
    }

    constructor (cfg: Config)
      ensures this.cfg == cfg && State() == INITIAL
    {
      this.cfg := cfg;
      leaderlessStreak, emptyStreak, incumbentPod, incumbentUnreachableSince := 0, 0, "", None;
      promoting, demoting, discoveryDown := false, false, false;
      failback, transitioningSeen, promoteAttempts, published := NO_FAILBACK, map[], map[], NO_LEADER;
    }

    method SetDiscoveryDown(down: bool) returns (changed: bool)
      modifies this
      ensures State() == AfterDiscovery(old(State()), down)
      ensures discoveryDown == down && failback == if down then FailbackState("", 0, None) else old(failback)
      ensures changed <==> old(discoveryDown) != down
    {
      if down {
        failback := NO_FAILBACK;
      }
      if discoveryDown == down {
        return false;
      }
      discoveryDown := down;
      changed := true;
    }

    /** First half of rememberTransitions: drop the memories that have outlived the grace. */
    method ForgetExpired(pollStart: nat)
      modifies this`transitioningSeen
      ensures transitioningSeen == Purged(old(transitioningSeen), pollStart, cfg.unreachableLeaderGrace)
    {
      var pods := transitioningSeen.Keys;
      ghost var seen0 := transitioningSeen;
      ghost var kept := Purged(seen0, pollStart, cfg.unreachableLeaderGrace);
      while pods != {}
        invariant pods <= seen0.Keys
        invariant forall pod :: pod in transitioningSeen <==> pod in kept || pod in pods
        invariant forall pod | pod in transitioningSeen :: transitioningSeen[pod] == seen0[pod]
        decreases pods
      {
        var pod :| pod in pods;
        if pollStart - transitioningSeen[pod] >= cfg.unreachableLeaderGrace {
          transitioningSeen := transitioningSeen - {pod};
        }
        pods := pods - {pod};
      }
    }

    method RememberTransitions(obs: array<Observation>, pollStart: nat)
      modifies this`transitioningSeen, obs
      ensures (transitioningSeen, obs[..]) ==
              Remembered(old(transitioningSeen), old(obs[..]), pollStart, cfg.unreachableLeaderGrace)
    {
      ForgetExpired(pollStart);
      ghost var kept, before := transitioningSeen, obs[..];
      for i := 0 to obs.Length
        invariant forall j | i <= j < obs.Length :: obs[j] == before[j]
        invariant (transitioningSeen, obs[..i]) == RememberAll(kept, before[..i], pollStart)
      {
        ghost var front := obs[..i];
        assert before[..i + 1][..i] == before[..i];
        var pod := obs[i].be.pod;
        var known := pod in transitioningSeen;
        if !obs[i].reach {
          obs[i] := obs[i].(wasTransitioning := known);
        } else if IsTransitioning(obs[i]) {
          if !known || pollStart > transitioningSeen[pod] {
            transitioningSeen := transitioningSeen[pod := pollStart];
          }
        } else if known && transitioningSeen[pod] < pollStart {
          transitioningSeen := transitioningSeen - {pod};
        }
        assert obs[..i] == front;
        assert obs[..i + 1] == front + [obs[i]];
      }
      assert obs[..obs.Length] == obs[..] && before[..obs.Length] == before;
    }

    method MarkTransitioning(pod: string, now: nat)
      modifies this
      ensures State() == Marked(old(State()), pod, now)
    {
      transitioningSeen := transitioningSeen[pod := now];
    }

    method RecordPromoteAttempt(pod: string, at: nat)
      modifies this
      ensures State() == old(State()).(promoteAttempts := old(promoteAttempts)[pod := at])
    {
      promoteAttempts := promoteAttempts[pod := at];
    }

    method RestartFailbackClock(at: nat)
      modifies this
      ensures State() == old(State()).(failback := old(failback).(eligibleSince := Some(at)))
    {
      failback := failback.(eligibleSince := Some(at));
    }

    method CommitState(dec: Decision, emptyList: bool, now: nat) returns (streak: nat, empty: nat, retain: bool)
      modifies this
      ensures State() == Committed(old(State()), dec, emptyList, now, cfg)
      ensures streak == leaderlessStreak && empty == emptyStreak
      ensures retain <==> Retains(State(), dec, now, cfg)
    {
      failback := dec.failbackState;
      if emptyList {
        emptyStreak := emptyStreak + 1;
        if emptyStreak >= cfg.emptyDiscoveryDebounce {
          leaderlessStreak := 0;
        }
      } else {
        emptyStreak := 0;
        if dec.liveLeaderCount > 0 {
          leaderlessStreak := 0;
          promoteAttempts := map[];
        } else if !dec.hasTransitioning {
          leaderlessStreak := leaderlessStreak + 1;
        }
      }
      retain := false;
      if dec.incumbentUnreachable {
        if incumbentUnreachableSince.None? {
          incumbentUnreachableSince := Some(now);
        }
        retain := now - incumbentUnreachableSince.value < cfg.unreachableLeaderGrace;
      } else if !emptyList {
        incumbentUnreachableSince := None;
      }
      streak, empty := leaderlessStreak, emptyStreak;
    }

    method SetLeader(pod: string, url: string)
      modifies this
      ensures State() == old(State()).(incumbentPod := pod, published := Leader(pod, url))
    {
      if incumbentPod != pod {
        incumbentPod := pod;
      }
      published := Leader(pod, url);
    }

    method TryAcquirePromote(pollStart: nat) returns (ok: bool)
      modifies this
      ensures ok <==> !old(promoting) && forall pod | pod in transitioningSeen :: transitioningSeen[pod] <= pollStart
      ensures State() == if ok then old(State()).(promoting := true) else old(State())
    {
      if promoting {
        return false;
      }
      var pods := transitioningSeen.Keys;
      while pods != {}
        invariant pods <= transitioningSeen.Keys
        invariant forall pod | pod in transitioningSeen && pod !in pods :: transitioningSeen[pod] <= pollStart
        invariant State() == old(State())
        decreases pods
      {
        var pod :| pod in pods;
        if transitioningSeen[pod] > pollStart {
          return false;
        }
        pods := pods - {pod};
      }
      promoting := true;
      ok := true;
    }

    method TryAcquireDemote() returns (ok: bool)
      modifies this
      ensures ok <==> !old(demoting)
      ensures State() == old(State()).(demoting := true)
    {
      if demoting {
        return false;
      }
      demoting := true;
      ok := true;
    }

    /** The tail of the promote goroutine: record that the pod may have started, then release. It
        may have after 200, after 202, and after a request that was sent and not answered. */
    method FinishPromotion(pod: string, outcome: PostOutcome, now: nat)
      modifies this
      ensures State() == Finished(old(State()), pod, outcome, now)
      ensures transitioningSeen == if outcome in {NoResponse(true), Status(200), Status(202)}
                                   then old(transitioningSeen)[pod := now] else old(transitioningSeen)
      ensures State() == old(State()).(promoting := false, transitioningSeen := transitioningSeen)
    {
      match outcome {
        case NoResponse(sent) =>
          if sent {
            MarkTransitioning(pod, now);
          }
        case Status(code) =>
          if code == HTTP_OK || code == HTTP_ACCEPTED {
            MarkTransitioning(pod, now);
          }
      }
      promoting := false;
    }

    method DemoteAll(targets: seq<DemoteTarget>) returns (started: seq<DemoteTarget>)
      modifies this
      ensures started == if targets == [] || old(demoting) then [] else targets
      ensures State() == old(State()).(demoting := old(demoting) || targets != [])
    {
      if |targets| == 0 {
        return [];
      }
      var ok := TryAcquireDemote();
      started := if ok then targets else [];
    }

    method ActOnEmptyDiscovery(streak: nat)
      modifies this
      ensures State() == ActEmpty(old(State()), streak, cfg)
      ensures State() == if streak >= cfg.emptyDiscoveryDebounce
                         then old(State()).(incumbentPod := "", published := NO_LEADER) else old(State())
    {
      if streak < cfg.emptyDiscoveryDebounce {
        return;
      }
      SetLeader("", "");
    }

    method ActWhenLeaderless(d: Decision, streak: nat, retain: bool, pollStart: nat)
      returns (promote: Option<Observation>)
      modifies this
      ensures Effect(State(), promote, []) == ActLeaderless(old(State()), d, streak, retain, pollStart, cfg)
      ensures promote == if streak >= cfg.promoteDebounce && !retain && !old(promoting)
                            && forall pod | pod in transitioningSeen :: transitioningSeen[pod] <= pollStart
                         then d.promoteTarget else None
      ensures promote.Some? ==>
                State() == old(State()).(promoting := true, incumbentPod := "", published := NO_LEADER,
                                         promoteAttempts := old(promoteAttempts)[promote.value.be.pod := pollStart])
      ensures promote.None? ==>
                State() == if streak >= cfg.promoteDebounce && !retain && d.promoteTarget.None?
                           then old(State()).(incumbentPod := "", published := NO_LEADER) else old(State())
    {
      promote := None;
      if streak < cfg.promoteDebounce {
        return;
      }
      if retain {
        return;
      }
      if d.promoteTarget.None? {
        SetLeader("", "");
        return;
      }
      var ok := TryAcquirePromote(pollStart);
      if !ok {
        return;
      }
      SetLeader("", "");
      promote := d.promoteTarget;
      RecordPromoteAttempt(promote.value.be.pod, pollStart);
    }

    method FailBack(target: Observation, pollStart: nat) returns (promote: Option<Observation>)
      modifies this
      ensures Effect(State(), promote, []) == ActFailback(old(State()), target, pollStart)
      ensures promote == if !old(promoting)
                            && forall pod | pod in transitioningSeen :: transitioningSeen[pod] <= pollStart
                         then Some(target) else None
      ensures State() == if promote.None? then old(State())
                         else old(State()).(promoting := true,
                                            failback := old(failback).(eligibleSince := Some(pollStart)))
    {
      var ok := TryAcquirePromote(pollStart);
      if !ok {
        return None;
      }
      RestartFailbackClock(pollStart);
      promote := Some(target);
    }

    method ActOn(d: Decision, streak: nat, retain: bool, pollStart: nat)
      returns (promote: Option<Observation>, demote: seq<DemoteTarget>)
      modifies this
      ensures Effect(State(), promote, demote) == Act(old(State()), d, streak, retain, pollStart, cfg)
      ensures demote == if d.liveLeaderCount > 0 && !old(demoting) then d.demotes else []
      ensures demoting == (old(demoting) || demote != [])
      ensures d.liveLeaderCount > 0 ==>
                && incumbentPod == d.leaderPod && published == Leader(d.leaderPod, d.leaderUrl)
                && (promote.Some? ==> promote == d.failbackTarget)
    {
      demote := [];
      if d.liveLeaderCount == 0 {
        promote := ActWhenLeaderless(d, streak, retain, pollStart);
        return;
      }
      SetLeader(d.leaderPod, d.leaderUrl);
      demote := DemoteAll(d.demotes);
      promote := None;
      if d.failbackTarget.Some? {
        promote := FailBack(d.failbackTarget.value, pollStart);
      }
    }

    /** One reconcile after a successful discovery; `obs` holds the poll answers. */
    method Reconcile(obs: array<Observation>, pollStart: nat, now: nat)
      returns (promote: Option<Observation>, demote: seq<DemoteTarget>)
      modifies this, obs
      ensures Effect(State(), promote, demote) == Reconciled(old(State()), old(obs[..]), pollStart, now, cfg)
    {
      var recovered := SetDiscoveryDown(false);
      ghost var found := State();
      RememberTransitions(obs, pollStart);
      assert State() == found.(transitioningSeen := transitioningSeen);
      var dec := DecideTick(obs[..], ParamsOf(State(), now, cfg));
      var streak, empty, retain := CommitState(dec, obs.Length == 0, now);
      promote, demote := None, [];
      if obs.Length == 0 {
        ActOnEmptyDiscovery(empty);
        return;
      }
      promote, demote := ActOn(dec, streak, retain, pollStart);
    }
  }
}
