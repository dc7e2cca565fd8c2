/** What holds of every reachable state of the election, whatever is being proved about it. */
module ElectionShape {
  import opened Prelude
  import opened Decide
  import opened DecideOrder
  import opened DecisionMeaning
  import opened Controller
  import opened ElectionSystem

  // ---- rememberTransitions, pod by pod

  /** The loop leaves alone the memory of a pod it was not given. */
  lemma {:induction false} RememberOthers(seen: map<string, nat>, obs: seq<Observation>, pollStart: nat, pod: string)
    requires forall o | o in obs :: o.be.pod != pod
    ensures var after := RememberAll(seen, obs, pollStart).0;
            (pod in after <==> pod in seen) && (pod in seen ==> after[pod] == seen[pod])
  {
    if obs != [] {
      RememberOthers(seen, obs[..|obs| - 1], pollStart, pod);
    }
  }

  /** With distinct pods the loop treats each pod as if it were the only one. */
  lemma {:induction false} RememberAt(seen: map<string, nat>, obs: seq<Observation>, pollStart: nat, i: nat)
    requires DistinctPods(obs) && i < |obs|
    ensures var (after, out) := RememberAll(seen, obs, pollStart);
            var (one, o) := RememberOne(seen, obs[i], pollStart);
            var pod := obs[i].be.pod;
            && out[i] == o
            && (pod in after <==> pod in one)
            && (pod in one ==> after[pod] == one[pod])
  {
    var n := |obs| - 1;
    if i < n {
      RememberAt(seen, obs[..n], pollStart, i);
    } else {
      RememberOthers(seen, obs[..n], pollStart, obs[i].be.pod);
    }
  }

  /** What the memory holds of a pod after a poll, and what the poll is told of it: a memory older
      than the grace is gone; a pod seen in transition is remembered from this poll or from
      later; one seen settled is forgotten, unless it was marked since the poll began; and one
      that was not reached keeps its memory and is told of it. */
  lemma RemembersExactly(seen: map<string, nat>, obs: seq<Observation>, pollStart: nat, grace: nat, i: nat)
    requires DistinctPods(obs) && i < |obs|
    ensures var (after, out) := Remembered(seen, obs, pollStart, grace);
            var o, pod := obs[i], obs[i].be.pod;
            var known := pod in seen && seen[pod] + grace > pollStart;
            && (!o.reach ==>
                  out[i] == o.(wasTransitioning := known) && (pod in after <==> known)
                  && (known ==> after[pod] == seen[pod]))
            && (o.reach ==> out[i] == o)
            && (o.reach && InTransition(o) ==>
                  pod in after && after[pod] == if known && seen[pod] > pollStart then seen[pod] else pollStart)
            && (o.reach && !InTransition(o) ==>
                  (pod in after <==> known && seen[pod] >= pollStart) && (pod in after ==> after[pod] == seen[pod]))
  {
    RememberAt(Purged(seen, pollStart, grace), obs, pollStart, i);
    TermsAgree(obs[i], 0);
  }

  /** The memory of a pod that was not discovered only expires. */
  lemma ForgetsOnlyExpired(seen: map<string, nat>, obs: seq<Observation>, pollStart: nat, grace: nat, pod: string)
    requires forall o | o in obs :: o.be.pod != pod
    ensures var after := Remembered(seen, obs, pollStart, grace).0;
            && (pod in after <==> pod in seen && seen[pod] + grace > pollStart)
            && (pod in after ==> after[pod] == seen[pod])
  {
    RememberOthers(Purged(seen, pollStart, grace), obs, pollStart, pod);
  }

  lemma RememberKeepsPods(seen: map<string, nat>, obs: seq<Observation>, pollStart: nat)
    requires DistinctPods(obs)
    ensures DistinctPods(RememberAll(seen, obs, pollStart).1)
  {
    var out := RememberAll(seen, obs, pollStart).1;
    forall i, j | 0 <= i < j < |out| ensures out[i].be.pod != out[j].be.pod {
      RememberAt(seen, obs, pollStart, i);
      RememberAt(seen, obs, pollStart, j);
    }
  }

  // ---- The shape of a reachable state

  function TimeOf(t: Tick): nat {
    match t
    case DiscoveryFailed(at) => at
    case Decided(_, now, _, _, _, _, _, _) => now
  }

  function StartOf(t: Tick): nat {
    match t
    case DiscoveryFailed(at) => at
    case Decided(pollStart, _, _, _, _, _, _, _) => pollStart
  }

  /** A recorded tick was decided by `decide` from its own observations, and counted by
      `commitState`. */
  ghost predicate TickOk(t: Tick, cfg: Config) {
    t.Decided? ==>
      && t.pollStart <= t.now
      && DistinctPods(t.obs)
      && t.dec == DecisionOf(t.obs, ParamsOf(t.before, t.now, cfg))
      && var st := Committed(t.before, t.dec, t.obs == [], t.now, cfg);
         && t.streak == st.leaderlessStreak && t.emptyStreak == st.emptyStreak
         && t.retain == Retains(st, t.dec, t.now, cfg)
  }

  ghost predicate TicksOk(s: Sys, cfg: Config) {
    && (forall i | 0 <= i < |s.ticks| :: TickOk(s.ticks[i], cfg) && TimeOf(s.ticks[i]) <= s.clock)
    && (forall i, j | 0 <= i < j < |s.ticks| :: TimeOf(s.ticks[i]) <= StartOf(s.ticks[j]))
  }

  ghost predicate PollsOk(s: Sys) {
    && (forall j | 0 <= j < |s.polls| :: s.polls[j].start <= s.clock)
    && (forall i, j | 0 <= i < j < |s.polls| :: s.polls[i].start <= s.polls[j].start)
    && (forall k | 0 <= k < |s.marks| :: s.marks[k].at <= s.clock)
  }

  /** The last tick is the one the loop is acting on. */
  ghost predicate LastTick(s: Sys, tick: nat, pollStart: nat) {
    && tick == |s.ticks| - 1
    && s.ticks[tick].Decided?
    && s.ticks[tick].pollStart == pollStart
    && LastPoll(s, s.ticks[tick].obs, pollStart)
  }

  ghost predicate LastPoll(s: Sys, obs: seq<Observation>, pollStart: nat) {
    && s.polls != []
    && s.polls[|s.polls| - 1] == Poll(pollStart, obs)
    && DistinctPods(obs)
  }

  ghost predicate PcOk(s: Sys) {
    match s.pc
    case Idle => true
    case Polling(pods, pollStart) =>
      && DistinctBackends(pods) && pollStart <= s.clock
      && (forall j | 0 <= j < |s.polls| :: s.polls[j].start <= pollStart)
      && (forall i | 0 <= i < |s.ticks| :: TimeOf(s.ticks[i]) <= pollStart)
    case Polled(obs, pollStart, now) =>
      && LastPoll(s, obs, pollStart) && pollStart <= now <= s.clock
      && (forall i | 0 <= i < |s.ticks| :: TimeOf(s.ticks[i]) <= pollStart)
    case Ready(tick, dec, streak, emptyStreak, retain, isEmpty, pollStart) =>
      && LastTick(s, tick, pollStart)
      && s.ticks[tick].dec == dec && s.ticks[tick].streak == streak && s.ticks[tick].emptyStreak == emptyStreak
      && s.ticks[tick].retain == retain && (isEmpty <==> s.ticks[tick].obs == [])
    case FailingBack(tick, target, pollStart) =>
      && LastTick(s, tick, pollStart)
      && s.ticks[tick].dec.failbackTarget == Some(target)
  }

  ghost predicate Shape(s: Sys, cfg: Config) {
    TicksOk(s, cfg) && PollsOk(s) && PcOk(s)
  }

  lemma ShapePolls(s: Sys, answers: seq<Option<Leadership>>, cfg: Config)
    requires Shape(s, cfg) && Enabled(s, FinishPolls(answers))
    ensures Shape(DoFinishPolls(s, answers, cfg), cfg)
  {
    var obs := PollAnswers(s.pc.pods, answers);
    RememberKeepsPods(Purged(s.st.transitioningSeen, s.pc.pollStart, cfg.unreachableLeaderGrace), obs, s.pc.pollStart);
  }

  lemma ShapeCommit(s: Sys, cfg: Config)
    requires Shape(s, cfg) && Enabled(s, Commit)
    ensures Shape(DoCommit(s, cfg), cfg)
  {
    var t := DoCommit(s, cfg);
    var n := |s.ticks|;
    assert t.ticks[..n] == s.ticks;
    assert forall i | 0 <= i < n :: t.ticks[i] == s.ticks[i];
    assert TickOk(t.ticks[n], cfg);
  }

  /** Only the clock, the loop position and the records matter. */
  lemma ShapeFrame(s: Sys, t: Sys, cfg: Config)
    requires Shape(s, cfg)
    requires t.ticks == s.ticks && t.polls == s.polls && t.marks == s.marks && t.clock >= s.clock
    requires t.pc == s.pc || t.pc == Idle || (t.pc.FailingBack? && PcOk(t))
    ensures Shape(t, cfg)
  {}

  lemma ShapeActuate(s: Sys, cfg: Config)
    requires Shape(s, cfg) && Enabled(s, Actuate)
    ensures Shape(DoActuate(s, cfg), cfg)
  {
    var t := DoActuate(s, cfg);
    assert PcOk(t) by {
      assert t.ticks == s.ticks && t.polls == s.polls;
    }
    ShapeFrame(s, t, cfg);
  }

  lemma ShapeAnswer(s: Sys, i: nat, outcome: PostOutcome, cfg: Config)
    requires Shape(s, cfg) && Enabled(s, Answer(i, outcome))
    ensures Shape(DoAnswer(s, i, outcome), cfg)
  {}

  lemma ShapeDiscover(s: Sys, step: Step, cfg: Config)
    requires Shape(s, cfg) && Enabled(s, step) && (step.Discover? || step.FailDiscovery?)
    ensures Shape(Next(s, step, cfg), cfg)
  {}

  lemma ShapeStep(s: Sys, step: Step, cfg: Config)
    requires Shape(s, cfg)
    ensures Shape(Next(s, step, cfg), cfg)
  {
    if Enabled(s, step) {
      match step
      case FinishPolls(answers) => ShapePolls(s, answers, cfg);
      case Commit => ShapeCommit(s, cfg);
      case Actuate => ShapeActuate(s, cfg);
      case Answer(i, outcome) => ShapeAnswer(s, i, outcome, cfg);
      case Discover(_) => ShapeDiscover(s, step, cfg);
      case FailDiscovery => ShapeDiscover(s, step, cfg);
      case TryFailback => ShapeFrame(s, DoTryFailback(s), cfg);
      case Release(i) => ShapeFrame(s, DoRelease(s, i), cfg);
      case Wait(d) => ShapeFrame(s, s.(clock := s.clock + d), cfg);
    }
  }

  lemma {:induction false} RunShape(steps: seq<Step>, cfg: Config)
    ensures Shape(Run(steps, cfg), cfg)
  {
    if steps != [] {
      var n := |steps| - 1;
      RunShape(steps[..n], cfg);
      ShapeStep(Run(steps[..n], cfg), steps[n], cfg);
    }
  }

  lemma UndisturbedAct(s: Sys, cfg: Config)
    requires s.pc.Ready?
    ensures var pc := s.pc;
            Next(Next(s, Actuate, cfg), TryFailback, cfg).st ==
            if pc.isEmpty then ActEmpty(s.st, pc.emptyStreak, cfg)
            else Act(s.st, pc.dec, pc.streak, pc.retain, pc.pollStart, cfg).state
  {
    var t := DoActuate(s, cfg);
    assert Next(s, Actuate, cfg) == t;
    if t.pc.FailingBack? {
      assert Next(t, TryFailback, cfg) == DoTryFailback(t);
    } else {
      assert Next(t, TryFailback, cfg) == t;
    }
  }

  lemma UndisturbedDecision(s: Sys, pods: seq<Backend>, answers: seq<Option<Leadership>>, cfg: Config)
    requires s.pc.Idle? && DistinctBackends(pods) && |answers| == |pods|
    ensures var t := Next(Next(Next(s, Discover(pods), cfg), FinishPolls(answers), cfg), Commit, cfg);
            var found := AfterDiscovery(s.st, false);
            var (seen, obs) := Remembered(found.transitioningSeen, PollAnswers(pods, answers), s.clock,
                                          cfg.unreachableLeaderGrace);
            var d := DecisionOf(obs, ParamsOf(found, s.clock, cfg));
            && t.st == Committed(found.(transitioningSeen := seen), d, obs == [], s.clock, cfg)
            && t.pc == Ready(|s.ticks|, d, t.st.leaderlessStreak, t.st.emptyStreak, Retains(t.st, d, s.clock, cfg),
                             obs == [], s.clock)
  {
    var s1 := DoDiscover(s, pods);
    assert Next(s, Discover(pods), cfg) == s1;
    var s2 := DoFinishPolls(s1, answers, cfg);
    assert Next(s1, FinishPolls(answers), cfg) == s2;
    assert Next(s2, Commit, cfg) == DoCommit(s2, cfg);
    assert ParamsOf(s2.st, s.clock, cfg) == ParamsOf(s1.st, s.clock, cfg);
  }

  /** With no step beside them, the steps of one tick do what one whole reconcile does. */
  lemma UndisturbedTick(s: Sys, pods: seq<Backend>, answers: seq<Option<Leadership>>, cfg: Config)
    requires s.pc.Idle? && DistinctBackends(pods) && |answers| == |pods|
    ensures var t := Next(Next(Next(s, Discover(pods), cfg), FinishPolls(answers), cfg), Commit, cfg);
            Next(Next(t, Actuate, cfg), TryFailback, cfg).st
            == Reconciled(s.st, PollAnswers(pods, answers), s.clock, s.clock, cfg).state
  {
    UndisturbedDecision(s, pods, answers, cfg);
    UndisturbedAct(Next(Next(Next(s, Discover(pods), cfg), FinishPolls(answers), cfg), Commit, cfg), cfg);
  }

  // ---- What a tick starts

  ghost predicate MayStart(s: Sys, pollStart: nat) {
    !s.st.promoting && forall pod | pod in s.st.transitioningSeen :: s.st.transitioningSeen[pod] <= pollStart
  }

  /** A tick with a leader publishes it and demotes all the others, unless demotions are running. */
  lemma LeaderfulTickStarts(s: Sys, cfg: Config)
    requires s.pc.Ready? && !s.pc.isEmpty && s.pc.dec.liveLeaderCount > 0
    ensures var t, d := Next(s, Actuate, cfg), s.pc.dec;
            && t.st.published == Leader(d.leaderPod, d.leaderUrl) && t.st.incumbentPod == d.leaderPod
            && t.flights == s.flights + (if d.demotes != [] && !s.st.demoting then [Demoting(d.demotes)] else [])
            && (d.demotes != [] ==> t.st.demoting)
            && t.promotions == s.promotions
            && (t.pc == if d.failbackTarget.None? then Idle
                        else FailingBack(s.pc.tick, d.failbackTarget.value, s.pc.pollStart))
  {
    assert s.flights + [] == s.flights;
  }

  /** A leaderless tick starts a promotion exactly if the streak is long enough, no incumbent is
      retained, there is a target, no promotion is running, and no pod is known to be in
      transition since the poll began. */
  lemma LeaderlessTickStarts(s: Sys, cfg: Config)
    requires s.pc.Ready? && !s.pc.isEmpty && s.pc.dec.liveLeaderCount == 0
    ensures var t, d := Next(s, Actuate, cfg), s.pc.dec;
            var starts := s.pc.streak >= cfg.promoteDebounce && !s.pc.retain && d.promoteTarget.Some?
                          && MayStart(s, s.pc.pollStart);
            && |t.promotions| == |s.promotions| + (if starts then 1 else 0)
            && (starts ==>
                  && t.flights == s.flights + [Promoting(|s.promotions|, d.promoteTarget.value.be.pod, false)]
                  && t.promotions[|s.promotions|].pod == d.promoteTarget.value.be.pod
                  && t.promotions[|s.promotions|].issuedAt == s.clock && t.st.promoting)
            && (!starts ==> t.flights == s.flights && t.promotions == s.promotions)
  {}

  /** A failback starts exactly if no promotion is running, and no pod is known to be in
      transition since the poll began. */
  lemma FailbackStarts(s: Sys, cfg: Config)
    requires s.pc.FailingBack?
    ensures var t := Next(s, TryFailback, cfg);
            var starts := MayStart(s, s.pc.pollStart);
            && |t.promotions| == |s.promotions| + (if starts then 1 else 0)
            && (starts ==>
                  && t.flights == s.flights + [Promoting(|s.promotions|, s.pc.target.be.pod, false)]
                  && t.promotions[|s.promotions|].pod == s.pc.target.be.pod
                  && t.st.promoting && t.st.failback.eligibleSince == Some(s.pc.pollStart))
            && (!starts ==> t.flights == s.flights && t.promotions == s.promotions && t.st == s.st)
  {}

  /** Run without interference, the answer and the release do what the end of the goroutine
      does. */
  lemma UndisturbedFinish(s: Sys, i: nat, outcome: PostOutcome, cfg: Config)
    requires Enabled(s, Answer(i, outcome))
    ensures Next(Next(s, Answer(i, outcome), cfg), Release(i), cfg).st ==
            Finished(s.st, s.flights[i].pod, outcome, s.clock)
  {
    var t := DoAnswer(s, i, outcome);
    assert Next(s, Answer(i, outcome), cfg) == t;
    assert Next(t, Release(i), cfg) == DoRelease(t, i);
  }
}
