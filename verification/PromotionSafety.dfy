/** The safety of promotions over whole runs: fresh polls, and no pod in transition. */
module PromotionSafety {
  import opened Prelude
  import opened Decide
  import opened DecideOrder
  import opened Controller
  import opened ElectionSystem
  import opened ElectionShape
  import opened SerialPromotions
  import opened TransitionFreeze

  // ---- Every recorded outcome is a mark that later promotions saw

  ghost predicate OutcomeMarked(s: Sys, i: nat)
    requires i < |s.promotions|
  {
    s.promotions[i].recordedAt.Some? ==>
      exists k :: 0 <= k < |s.marks| && s.marks[k] == Mark(s.promotions[i].pod, s.promotions[i].recordedAt.value)
        && forall j | i < j < |s.promotions| :: k < s.promotions[j].marksBefore
  }

  ghost predicate OutcomesMarked(s: Sys) {
    forall i | 0 <= i < |s.promotions| :: OutcomeMarked(s, i)
  }

  lemma OutcomesStay(s: Sys, t: Sys)
    requires OutcomesMarked(s) && s.marks <= t.marks
    requires |t.promotions| == |s.promotions| || |t.promotions| == |s.promotions| + 1
    requires forall i | 0 <= i < |s.promotions| ::
               t.promotions[i].recordedAt == s.promotions[i].recordedAt && t.promotions[i].pod == s.promotions[i].pod
               && t.promotions[i].marksBefore == s.promotions[i].marksBefore
    requires |t.promotions| > |s.promotions| ==>
               t.promotions[|s.promotions|].recordedAt.None? && t.promotions[|s.promotions|].marksBefore == |s.marks|
    ensures OutcomesMarked(t)
  {
    forall i | 0 <= i < |t.promotions| ensures OutcomeMarked(t, i) {
      if i < |s.promotions| && s.promotions[i].recordedAt.Some? {
        assert OutcomeMarked(s, i);
        var k :| 0 <= k < |s.marks| && s.marks[k] == Mark(s.promotions[i].pod, s.promotions[i].recordedAt.value)
                 && forall j | i < j < |s.promotions| :: k < s.promotions[j].marksBefore;
        assert t.marks[k] == s.marks[k];
      }
    }
  }

  lemma OutcomesAnswer(s: Sys, n: nat, outcome: PostOutcome)
    requires Serial(s) && OutcomesMarked(s) && Enabled(s, Answer(n, outcome))
    ensures OutcomesMarked(DoAnswer(s, n, outcome))
  {
    var t := DoAnswer(s, n, outcome);
    var last := |s.promotions| - 1;
    forall i | 0 <= i < |t.promotions| ensures OutcomeMarked(t, i) {
      if i == last {
        if MayHaveStarted(outcome) {
          assert t.marks[|s.marks|] == Mark(t.promotions[i].pod, s.clock);
        }
      } else if s.promotions[i].recordedAt.Some? {
        assert OutcomeMarked(s, i);
        var k :| 0 <= k < |s.marks| && s.marks[k] == Mark(s.promotions[i].pod, s.promotions[i].recordedAt.value)
                 && forall j | i < j < |s.promotions| :: k < s.promotions[j].marksBefore;
        assert t.marks[k] == s.marks[k];
      }
    }
  }

  lemma OutcomesStep(s: Sys, step: Step, cfg: Config)
    requires Serial(s) && OutcomesMarked(s)
    ensures OutcomesMarked(Next(s, step, cfg))
  {
    if Enabled(s, step) {
      match step
      case Answer(n, outcome) => OutcomesAnswer(s, n, outcome);
      case Actuate => OutcomesStay(s, DoActuate(s, cfg));
      case TryFailback => OutcomesStay(s, DoTryFailback(s));
      case Release(n) => OutcomesStay(s, DoRelease(s, n));
      case _ =>
        PromotionFrame(s, step, cfg);
        OutcomesStay(s, Next(s, step, cfg));
    }
  }

  lemma {:induction false} RunOutcomes(steps: seq<Step>, cfg: Config)
    ensures OutcomesMarked(Run(steps, cfg))
  {
    if steps != [] {
      var n := |steps| - 1;
      RunOutcomes(steps[..n], cfg);
      RunSerial(steps[..n], cfg);
      OutcomesStep(Run(steps[..n], cfg), steps[n], cfg);
    }
  }

  /** In every run: once a promotion was accepted, or sent without an answer, every later
      promotion is decided from a poll that started no earlier than the recording of that. */
  lemma PromotionsAreFresh(steps: seq<Step>, cfg: Config)
    ensures var s := Run(steps, cfg);
            forall i, j | 0 <= i < j < |s.promotions| && s.promotions[i].recordedAt.Some? ::
              && s.promotions[j].tick < |s.ticks| && s.ticks[s.promotions[j].tick].Decided?
              && s.ticks[s.promotions[j].tick].pollStart == s.promotions[j].pollStart
              && s.promotions[i].recordedAt.value <= s.promotions[j].pollStart
  {
    RunOutcomes(steps, cfg);
    RunFrozen(steps, cfg);
    var s := Run(steps, cfg);
    forall i, j | 0 <= i < j < |s.promotions| && s.promotions[i].recordedAt.Some?
      ensures s.promotions[i].recordedAt.value <= s.promotions[j].pollStart
    {
      assert OutcomeMarked(s, i) && IssuedOverNone(s, s.promotions[j], cfg);
    }
  }

  // ---- The same, of the steps themselves

  /** Marks and promotions are only added, and every promotion added later was issued after all
      the marks there are now. */
  ghost predicate IssuedAfter(s: Sys, t: Sys) {
    && s.marks <= t.marks && |s.promotions| <= |t.promotions|
    && forall j | |s.promotions| <= j < |t.promotions| :: |s.marks| <= t.promotions[j].marksBefore
  }

  lemma StepIssuesAfter(s: Sys, step: Step, cfg: Config)
    ensures IssuedAfter(s, Next(s, step, cfg))
    ensures forall j | 0 <= j < |s.promotions| ::
              Next(s, step, cfg).promotions[j].marksBefore == s.promotions[j].marksBefore
  {
    if Enabled(s, step) {
      match step
      case Actuate => assert Next(s, step, cfg) == DoActuate(s, cfg);
      case TryFailback => assert Next(s, step, cfg) == DoTryFailback(s);
      case Answer(i, outcome) => assert Next(s, step, cfg) == DoAnswer(s, i, outcome);
      case Release(i) => assert Next(s, step, cfg) == DoRelease(s, i);
      case _ => PromotionFrame(s, step, cfg);
    }
  }

  lemma {:induction false} RunIssuesAfter(steps: seq<Step>, more: seq<Step>, cfg: Config)
    ensures IssuedAfter(Run(steps, cfg), Run(steps + more, cfg))
  {
    if more == [] {
      assert steps + more == steps;
    } else {
      var n := |more| - 1;
      RunIssuesAfter(steps, more[..n], cfg);
      assert (steps + more)[..|steps + more| - 1] == steps + more[..n];
      StepIssuesAfter(Run(steps + more[..n], cfg), more[n], cfg);
    }
  }

  /** An answer after which the pod may be mid-promotion marks it there and then. */
  lemma AnswerMarks(s: Sys, i: nat, outcome: PostOutcome, cfg: Config)
    requires Enabled(s, Answer(i, outcome))
    ensures var t := Next(s, Answer(i, outcome), cfg);
            if outcome in {NoResponse(true), Status(200), Status(202)}
            then t.marks == s.marks + [Mark(s.flights[i].pod, s.clock)]
                 && t.st.transitioningSeen == s.st.transitioningSeen[s.flights[i].pod := s.clock]
            else t.marks == s.marks && t.st.transitioningSeen == s.st.transitioningSeen
  {}

  /** In every run: once the promote request of a promotion was answered with 200 or 202, or sent
      and not answered, at time c, every later promotion is decided from a poll that started no
      earlier than c. */
  lemma AnswersBindLaterPromotions(steps: seq<Step>, i: nat, outcome: PostOutcome, more: seq<Step>, cfg: Config, j: nat)
    requires Enabled(Run(steps, cfg), Answer(i, outcome))
    requires outcome in {NoResponse(true), Status(200), Status(202)}
    requires Run(steps, cfg).flights[i].issue < j < |Run(steps + [Answer(i, outcome)] + more, cfg).promotions|
    ensures var t := Run(steps + [Answer(i, outcome)] + more, cfg);
            var r := t.promotions[j];
            && r.tick < |t.ticks| && t.ticks[r.tick].Decided? && t.ticks[r.tick].pollStart == r.pollStart
            && Run(steps, cfg).clock <= r.pollStart
  {
    var s, answered := Run(steps, cfg), steps + [Answer(i, outcome)];
    assert answered[..|answered| - 1] == steps;
    var s1 := Run(answered, cfg);
    AnswerMarks(s, i, outcome, cfg);
    RunSerial(steps, cfg);
    FlightIsLast(s, i, outcome, cfg);
    RunIssuesAfter(answered, more, cfg);
    RunFrozen(answered + more, cfg);
    var t := Run(answered + more, cfg);
    assert IssuedOverNone(t, t.promotions[j], cfg);
    assert t.marks[|s.marks|] == s1.marks[|s.marks|];
  }

  /** The promotion that is being answered is the last one issued. */
  lemma FlightIsLast(s: Sys, i: nat, outcome: PostOutcome, cfg: Config)
    requires Serial(s) && Enabled(s, Answer(i, outcome))
    ensures s.flights[i].issue == |s.promotions| - 1
    ensures |Next(s, Answer(i, outcome), cfg).promotions| == |s.promotions|
  {}

  /** The pod was discovered by the poll of the promotion, and when the promotion was issued a
      transition of the pod at time m was on record, as a mark or as seen by a poll. */
  ghost predicate KnownAtIssue(s: Sys, r: Promotion, o: Observation, m: nat) {
    && r.tick < |s.ticks| && s.ticks[r.tick].Decided? && o in s.ticks[r.tick].obs
    && r.marksBefore <= |s.marks| && r.pollsBefore <= |s.polls|
    && Known(s, r.marksBefore, r.pollsBefore, o.be.pod, m)
  }

  /** In every run, for every promotion issued from a poll that started at p, and every pod
      that poll discovered: a transition of the pod recorded at m has m <= p, and unless m == p
      with the pod unreachable, either the grace has passed since m or a poll between m and p
      saw the pod settled. */
  lemma NoPromotionOverTransition(steps: seq<Step>, cfg: Config, i: nat, o: Observation, m: nat)
    requires i < |Run(steps, cfg).promotions| && KnownAtIssue(Run(steps, cfg), Run(steps, cfg).promotions[i], o, m)
    ensures var s := Run(steps, cfg);
            var p := s.promotions[i].pollStart;
            m <= p && (m < p || o.reach ==> Over(s.polls, o.be.pod, m, p, cfg.unreachableLeaderGrace))
  {
    RunFrozen(steps, cfg);
    assert IssuedOverNone(Run(steps, cfg), Run(steps, cfg).promotions[i], cfg);
  }

  // ---- Exactly when the freeze holds

  /** The promotion was issued from a poll on record: the one its tick decided on. */
  ghost predicate FromPoll(s: Sys, r: Promotion) {
    && r.tick < |s.ticks| && s.ticks[r.tick].Decided?
    && Poll(r.pollStart, s.ticks[r.tick].obs) in s.polls && DistinctPods(s.ticks[r.tick].obs)
  }

  ghost predicate AllFromPolls(s: Sys) {
    forall i | 0 <= i < |s.promotions| :: FromPoll(s, s.promotions[i])
  }

  lemma FromPollsStay(s: Sys, t: Sys)
    requires AllFromPolls(s) && s.ticks <= t.ticks && s.polls <= t.polls && |s.promotions| <= |t.promotions|
    requires forall i | 0 <= i < |s.promotions| ::
               t.promotions[i].tick == s.promotions[i].tick && t.promotions[i].pollStart == s.promotions[i].pollStart
    ensures forall i | 0 <= i < |s.promotions| :: FromPoll(t, t.promotions[i])
  {
    forall i | 0 <= i < |s.promotions| ensures FromPoll(t, t.promotions[i]) {
      assert FromPoll(s, s.promotions[i]);
    }
  }

  lemma FromPollsIssue(s: Sys, t: Sys)
    requires AllFromPolls(s) && PcOk(s) && (s.pc.Ready? || s.pc.FailingBack?)
    requires t.ticks == s.ticks && t.polls == s.polls && s.promotions <= t.promotions
    requires |t.promotions| <= |s.promotions| + 1
    requires |t.promotions| > |s.promotions| ==>
               && t.promotions[|s.promotions|].tick == s.pc.tick
               && t.promotions[|s.promotions|].pollStart == s.pc.pollStart
    ensures AllFromPolls(t)
  {
    FromPollsStay(s, t);
    var n := |s.polls| - 1;
    assert s.polls[n] == Poll(s.pc.pollStart, s.ticks[s.pc.tick].obs);
  }

  lemma FromPollsStep(s: Sys, step: Step, cfg: Config)
    requires Shape(s, cfg) && AllFromPolls(s)
    ensures AllFromPolls(Next(s, step, cfg))
  {
    if Enabled(s, step) {
      match step
      case Actuate =>
        ActuateFrame(s, cfg);
        FromPollsIssue(s, DoActuate(s, cfg));
      case TryFailback => FromPollsIssue(s, DoTryFailback(s));
      case Answer(n, outcome) => FromPollsStay(s, DoAnswer(s, n, outcome));
      case Release(n) => FromPollsStay(s, DoRelease(s, n));
      case _ => FromPollsOther(s, step, cfg);
    }
  }

  lemma FromPollsOther(s: Sys, step: Step, cfg: Config)
    requires AllFromPolls(s) && !step.Actuate? && !step.TryFailback? && !step.Answer? && !step.Release?
    ensures AllFromPolls(Next(s, step, cfg))
  {
    PromotionFrame(s, step, cfg);
    FromPollsStay(s, Next(s, step, cfg));
  }

  lemma {:induction false} RunFromPolls(steps: seq<Step>, cfg: Config)
    ensures AllFromPolls(Run(steps, cfg))
  {
    if steps != [] {
      var n := |steps| - 1;
      RunFromPolls(steps[..n], cfg);
      RunShape(steps[..n], cfg);
      FromPollsStep(Run(steps[..n], cfg), steps[n], cfg);
    }
  }

  /** No two polls start at the same instant. */
  ghost predicate StrictPolls(polls: seq<Poll>) {
    forall i, j | 0 <= i < j < |polls| :: polls[i].start < polls[j].start
  }

  /** The poll that did not reach the pod is the only one that started then, so none settled
      the pod. */
  lemma UnreachedIsNotOver(polls: seq<Poll>, obs: seq<Observation>, o: Observation, p: nat, grace: nat)
    requires StrictPolls(polls) && Poll(p, obs) in polls && DistinctPods(obs) && o in obs && !o.reach && grace > 0
    ensures !Over(polls, o.be.pod, p, p, grace)
  {
    var k :| 0 <= k < |polls| && polls[k] == Poll(p, obs);
    forall j | 0 <= j < |polls| && p <= polls[j].start <= p ensures !SawSettled(polls[j], o.be.pod) {
      assert j == k;
      forall x | x in obs && x.be.pod == o.be.pod ensures x == o {
        var a, b :| 0 <= a < |obs| && 0 <= b < |obs| && obs[a] == x && obs[b] == o;
        assert a == b;
      }
    }
  }

  /** In every run whose polls start at strictly increasing times, a transition known when a
      promotion was issued, of a pod that the promotion's poll discovered, is over by then if and
      only if it was recorded before that poll started, or the poll reached the pod, or there is
      no grace. */
  lemma FrozenExactly(steps: seq<Step>, cfg: Config, i: nat, o: Observation, m: nat)
    requires StrictPolls(Run(steps, cfg).polls)
    requires i < |Run(steps, cfg).promotions| && KnownAtIssue(Run(steps, cfg), Run(steps, cfg).promotions[i], o, m)
    ensures var s := Run(steps, cfg);
            var p := s.promotions[i].pollStart;
            Over(s.polls, o.be.pod, m, p, cfg.unreachableLeaderGrace) <==>
            m < p || o.reach || cfg.unreachableLeaderGrace == 0
  {
    RunFrozen(steps, cfg);
    RunFromPolls(steps, cfg);
    var s := Run(steps, cfg);
    var r := s.promotions[i];
    assert IssuedOverNone(s, r, cfg) && FromPoll(s, r);
    if m == r.pollStart && !o.reach && cfg.unreachableLeaderGrace > 0 {
      UnreachedIsNotOver(s.polls, s.ticks[r.tick].obs, o, m, cfg.unreachableLeaderGrace);
    }
  }

  // ---- The one exception happens

  const ONE_TICK := Config(1, false, 0, 0, 60, 0, 5)

  function Standby(): Leadership {
    Leadership("follower", false, 1, None, None, true)
  }

  const POD_A := Backend("a", "http://a", 1, 0)
  const POD_B := Backend("b", "http://b", 0, 0)

  const PODS := [POD_A, POD_B]

  function After(s: Sys, step: Step): Sys {
    Next(s, step, ONE_TICK)
  }

  ghost predicate Reached(s: Sys) {
    exists steps :: Run(steps, ONE_TICK) == s
  }

  lemma ReachedNext(s: Sys, step: Step)
    requires Reached(s)
    ensures Reached(After(s, step))
  {
    var steps :| Run(steps, ONE_TICK) == s;
    var more := steps + [step];
    assert more[..|steps|] == steps;
    assert Run(more, ONE_TICK) == After(s, step);
  }

  lemma {:induction false} RememberNothing(obs: seq<Observation>, pollStart: nat)
    requires forall o | o in obs :: !IsTransitioning(o) && !o.wasTransitioning
    ensures RememberAll(map[], obs, pollStart) == (map[], obs)
  {
    if obs != [] {
      var n := |obs| - 1;
      RememberNothing(obs[..n], pollStart);
      assert RememberOne(map[], obs[n], pollStart) == (map[], obs[n]);
      assert obs == obs[..n] + [obs[n]];
    }
  }

  function Seen(pod: Backend, answer: Option<Leadership>): Observation {
    if answer.Some? then Observation(pod, answer.value, true, false) else Observation(pod, SILENT, false, false)
  }

  /** Nothing is happening: no pod is remembered, and nobody leads. */
  predicate Quiet(s: Sys) {
    && s.st.transitioningSeen == map[] && s.st.incumbentPod == "" && s.st.failback == NO_FAILBACK
    && s.marks == []
  }

  lemma LeaderlessDecision(a: Observation, b: Observation, o: Observation, p: DecideParams)
    requires a.be.pod != b.be.pod && (o == a || o == b) && IsPromotable(o)
    requires !a.status.isLeader && !b.status.isLeader && !IsTransitioning(a) && !IsTransitioning(b)
    requires forall x | x in [a, b] && IsPromotable(x) && x != o :: LessRecentlyAttempted(o, x, p.attempted)
    requires p.incumbent == "" && p.failback.prior == NO_FAILBACK
    ensures var d := DecisionOf([a, b], p);
            && d.liveLeaderCount == 0 && d.promoteTarget == Some(o) && !d.hasTransitioning && !d.incumbentUnreachable
            && d.failbackState == NO_FAILBACK
  {
    PromotionExact([a, b], p, o);
    ClaimsPartition([a, b], p);
    BestOfNone(Select([a, b], Live(p.leaseUnverifiedGrace)), ByLease);
  }

  lemma PolledTwo(s: Sys, x: Option<Leadership>, y: Option<Leadership>) returns (t: Sys)
    requires Reached(s) && Quiet(s) && s.pc.Idle?
    requires (x == None || x == Some(Standby())) && (y == None || y == Some(Standby()))
    ensures Reached(t) && Quiet(t) && t.pc == Polled([Seen(POD_A, x), Seen(POD_B, y)], s.clock, s.clock)
    ensures t.flights == s.flights && t.promotions == s.promotions && t.ticks == s.ticks && t.clock == s.clock
    ensures t.polls == s.polls + [Poll(s.clock, t.pc.obs)]
    ensures t.st == AfterDiscovery(s.st, false)
  {
    var a, b := Seen(POD_A, x), Seen(POD_B, y);
    var s1 := DoDiscover(s, PODS);
    ReachedNext(s, Discover(PODS));
    assert s1 == After(s, Discover(PODS));
    assert PollAnswers(PODS, [x, y]) == [a, b];
    RememberNothing([a, b], s.clock);
    assert Purged(map[], s.clock, 60) == map[];
    t := DoFinishPolls(s1, [x, y], ONE_TICK);
    ReachedNext(s1, FinishPolls([x, y]));
  }

  /** A leaderless tick of the two pods that wants to promote `o`. */
  lemma LeaderlessTick(s: Sys, x: Option<Leadership>, y: Option<Leadership>, o: Observation) returns (t: Sys)
    requires Reached(s) && Quiet(s) && s.pc.Idle?
    requires (x == None || x == Some(Standby())) && (y == None || y == Some(Standby()))
    requires (o == Seen(POD_A, x) || o == Seen(POD_B, y)) && o.reach
    requires forall z | z in [Seen(POD_A, x), Seen(POD_B, y)] && z.reach && z != o ::
               LessRecentlyAttempted(o, z, s.st.promoteAttempts)
    ensures Reached(t) && Quiet(t)
    ensures t.flights == s.flights && t.promotions == s.promotions && t.st.promoting == s.st.promoting
    ensures WantsToPromote(t, o) && t.pc.tick == |s.ticks| && t.pc.pollStart == t.clock == s.clock
    ensures t.st.promoteAttempts == s.st.promoteAttempts
    ensures t.polls == s.polls + [Poll(s.clock, [Seen(POD_A, x), Seen(POD_B, y)])]
    ensures |t.ticks| == |s.ticks| + 1 && t.ticks[|s.ticks|].Decided?
    ensures t.ticks[|s.ticks|].obs == [Seen(POD_A, x), Seen(POD_B, y)]
  {
    var s2 := PolledTwo(s, x, y);
    LeaderlessDecision(Seen(POD_A, x), Seen(POD_B, y), o, ParamsOf(s2.st, s.clock, ONE_TICK));
    t := DoCommit(s2, ONE_TICK);
    ReachedNext(s2, Commit);
    assert t == After(s2, Commit);
  }

  predicate WantsToPromote(s: Sys, o: Observation) {
    && s.pc.Ready? && s.pc.dec.liveLeaderCount == 0 && s.pc.dec.promoteTarget == Some(o)
    && s.pc.streak >= 1 && !s.pc.retain && !s.pc.isEmpty
  }

  lemma PromoteFrom(s: Sys, o: Observation) returns (t: Sys)
    requires Reached(s) && WantsToPromote(s, o) && CanPromote(s.st, s.pc.pollStart)
    ensures Reached(t)
    ensures t == Started(s.(st := t.st, pc := Idle, clears := t.clears), Leaderless, o.be.pod,
                         s.pc.tick, s.pc.pollStart)
    ensures t.st == WithLeader(s.st, NO_LEADER).(promoting := true,
                                                 promoteAttempts := s.st.promoteAttempts[o.be.pod := s.pc.pollStart])
  {
    t := DoActuate(s, ONE_TICK);
    ReachedNext(s, Actuate);
    assert t == After(s, Actuate);
  }

  lemma AcceptAndRelease(s: Sys) returns (t: Sys)
    requires Reached(s) && Quiet(s) && s.flights == [Promoting(0, "a", false)] && |s.promotions| == 1
    ensures Reached(t) && t.marks == [Mark("a", s.clock)] && t.pc == s.pc && t.ticks == s.ticks && |t.promotions| == 1
    ensures t.polls == s.polls && t.clock == s.clock
    ensures t.st.transitioningSeen == map["a" := s.clock] && CanPromote(t.st, s.clock)
  {
    var s1 := DoAnswer(s, 0, Status(HTTP_ACCEPTED));
    ReachedNext(s, Answer(0, Status(HTTP_ACCEPTED)));
    assert s1 == After(s, Answer(0, Status(HTTP_ACCEPTED)));
    t := DoRelease(s1, 0);
    ReachedNext(s1, Release(0));
    assert t == After(s1, Release(0));
  }

  /** The exception is real: when the clock does not move between the start of a poll that
      does not reach a pod and the mark that the pod was promoted, another pod is promoted
      from that poll. Here "a" is marked at time 1, no later poll settled it, and the poll that
      started at time 1 promotes "b". */
  lemma EqualInstantsOverlap() returns (t: Sys)
    ensures Reached(t)
    ensures |t.promotions| == 2 && t.promotions[1].pod == "b" && t.promotions[1].pollStart == 1
    ensures t.marks == [Mark("a", 1)] && t.promotions[1].marksBefore == 1
    ensures t.promotions[1].tick == 1 && |t.ticks| == 2 && t.ticks[1].Decided?
    ensures t.ticks[1].obs == [Seen(POD_A, None), Seen(POD_B, Some(Standby()))]
    ensures !Over(t.polls, "a", 1, 1, ONE_TICK.unreachableLeaderGrace)
  {
    assert Run([], ONE_TICK) == START;
    var s := LeaderlessTick(START, Some(Standby()), Some(Standby()), Seen(POD_A, Some(Standby())));
    s := PromoteFrom(s, Seen(POD_A, Some(Standby())));
    ReachedNext(s, Wait(1));
    s := s.(clock := 1);
    s := LeaderlessTick(s, None, Some(Standby()), Seen(POD_B, Some(Standby())));
    s := AcceptAndRelease(s);
    t := PromoteFrom(s, Seen(POD_B, Some(Standby())));
    assert |t.polls| == 2 && t.polls[0].start == 0;
  }
}
