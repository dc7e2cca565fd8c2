/** No promotion is issued over a pod that may still be in transition, and none from a poll
    older than the last recorded outcome. */
module TransitionFreeze {
  import opened Prelude
  import opened Decide
  import opened Controller
  import opened ElectionSystem
  import opened ElectionShape

  predicate SawTransitioning(p: Poll, pod: string) {
    exists o | o in p.obs :: o.be.pod == pod && o.reach && IsTransitioning(o)
  }

  predicate SawSettled(p: Poll, pod: string) {
    exists o | o in p.obs :: o.be.pod == pod && o.reach && !IsTransitioning(o)
  }

  /** By time p the transition known at time m is over: the grace has passed, or a poll
      started in between saw the pod reachable and settled. */
  ghost predicate Over(polls: seq<Poll>, pod: string, m: nat, p: nat, grace: nat) {
    p - m >= grace || exists j :: 0 <= j < |polls| && m <= polls[j].start <= p && SawSettled(polls[j], pod)
  }

  /** The pod was known to be in transition at time m: marked among the first `marks` marks,
      or seen so by one of the first `polls` polls. */
  ghost predicate Known(s: Sys, marks: nat, polls: nat, pod: string, m: nat)
    requires marks <= |s.marks| && polls <= |s.polls|
  {
    || (exists k :: 0 <= k < marks && s.marks[k] == Mark(pod, m))
    || (exists j :: 0 <= j < polls && s.polls[j].start == m && SawTransitioning(s.polls[j], pod))
  }

  ghost predicate KnownNow(s: Sys, pod: string, m: nat) {
    Known(s, |s.marks|, |s.polls|, pod, m)
  }

  function LastStart(s: Sys): nat {
    if s.polls == [] then 0 else s.polls[|s.polls| - 1].start
  }

  /** Every known transition is still remembered, no older than it was, or is over. */
  ghost predicate Accounted(s: Sys, pod: string, m: nat, grace: nat) {
    || (pod in s.st.transitioningSeen && s.st.transitioningSeen[pod] >= m)
    || (s.polls != [] && m <= LastStart(s) && Over(s.polls, pod, m, LastStart(s), grace))
  }

  ghost predicate AllAccounted(s: Sys, cfg: Config) {
    forall pod, m | KnownNow(s, pod, m) :: Accounted(s, pod, m, cfg.unreachableLeaderGrace)
  }

  /** While a tick is being acted on: a pod it could not reach, and does not hold to be in
      transition, had nothing outstanding when the poll was remembered. */
  ghost predicate NothingOutstanding(s: Sys, cfg: Config) {
    InTick(s.pc) ==>
      && s.polls != []
      && forall o, m: nat | o in s.polls[|s.polls| - 1].obs && !o.reach && !o.wasTransitioning
                       && m < LastStart(s) && KnownNow(s, o.be.pod, m) ::
           Over(s.polls, o.be.pod, m, LastStart(s), cfg.unreachableLeaderGrace)
  }

  lemma OverLater(polls: seq<Poll>, more: seq<Poll>, pod: string, m: nat, p: nat, p': nat, grace: nat)
    requires Over(polls, pod, m, p, grace) && p <= p' && m <= p
    ensures Over(polls + more, pod, m, p', grace)
  {
    if p - m < grace {
      var j :| 0 <= j < |polls| && m <= polls[j].start <= p && SawSettled(polls[j], pod);
      assert (polls + more)[j] == polls[j];
    }
  }

  // ---- Remembering one poll

  /** What remembering a poll does to a pod it was told about. */
  lemma PollAccounts(s: Sys, answers: seq<Option<Leadership>>, cfg: Config, pod: string, m: nat)
    requires Shape(s, cfg) && Enabled(s, FinishPolls(answers))
    requires KnownNow(s, pod, m) && Accounted(s, pod, m, cfg.unreachableLeaderGrace)
    ensures Accounted(DoFinishPolls(s, answers, cfg), pod, m, cfg.unreachableLeaderGrace)
  {
    var t, grace, p := DoFinishPolls(s, answers, cfg), cfg.unreachableLeaderGrace, s.pc.pollStart;
    var kept := Purged(s.st.transitioningSeen, p, grace);
    var obs := PollAnswers(s.pc.pods, answers);
    if s.polls != [] && m <= LastStart(s) && Over(s.polls, pod, m, LastStart(s), grace) {
      OverLater(s.polls, [Poll(p, t.pc.obs)], pod, m, LastStart(s), p, grace);
    } else if pod !in kept {
      assert p - m >= grace;
      assert Over(t.polls, pod, m, p, grace);
    } else if i :| 0 <= i < |obs| && obs[i].be.pod == pod {
      RememberAt(kept, obs, p, i);
      var o := t.pc.obs[i];
      if pod !in t.st.transitioningSeen {
        assert o in t.polls[|s.polls|].obs;
        assert SawSettled(t.polls[|s.polls|], pod);
        assert m <= t.polls[|s.polls|].start <= p;
      }
    } else {
      RememberOthers(kept, obs, p, pod);
    }
  }

  /** A transition the poll itself saw is remembered from its start, or from later. */
  lemma PollRecords(s: Sys, answers: seq<Option<Leadership>>, cfg: Config, o: Observation)
    requires Shape(s, cfg) && Enabled(s, FinishPolls(answers))
    requires var t := DoFinishPolls(s, answers, cfg); o in t.pc.obs && o.reach && IsTransitioning(o)
    ensures Accounted(DoFinishPolls(s, answers, cfg), o.be.pod, s.pc.pollStart, cfg.unreachableLeaderGrace)
  {
    var t := DoFinishPolls(s, answers, cfg);
    var i :| 0 <= i < |t.pc.obs| && t.pc.obs[i] == o;
    RememberAt(Purged(s.st.transitioningSeen, s.pc.pollStart, cfg.unreachableLeaderGrace),
               PollAnswers(s.pc.pods, answers), s.pc.pollStart, i);
  }

  lemma PollForgets(s: Sys, answers: seq<Option<Leadership>>, cfg: Config, o: Observation)
    requires Shape(s, cfg) && Enabled(s, FinishPolls(answers))
    requires var t := DoFinishPolls(s, answers, cfg); o in t.pc.obs && !o.reach && !o.wasTransitioning
    ensures o.be.pod !in DoFinishPolls(s, answers, cfg).st.transitioningSeen
  {
    var t := DoFinishPolls(s, answers, cfg);
    var i :| 0 <= i < |t.pc.obs| && t.pc.obs[i] == o;
    RememberAt(Purged(s.st.transitioningSeen, s.pc.pollStart, cfg.unreachableLeaderGrace),
               PollAnswers(s.pc.pods, answers), s.pc.pollStart, i);
  }

  lemma KnownAfterPoll(s: Sys, t: Sys, q: Poll, pod: string, m: nat)
    requires t.polls == s.polls + [q] && t.marks == s.marks && KnownNow(t, pod, m)
    ensures KnownNow(s, pod, m) || (m == q.start && SawTransitioning(q, pod))
  {
    if !KnownNow(s, pod, m) {
      var j :| 0 <= j < |t.polls| && t.polls[j].start == m && SawTransitioning(t.polls[j], pod);
      assert j == |s.polls|;
    }
  }

  lemma FreezePoll(s: Sys, answers: seq<Option<Leadership>>, cfg: Config)
    requires Shape(s, cfg) && Enabled(s, FinishPolls(answers))
    requires AllAccounted(s, cfg)
    ensures AllAccounted(DoFinishPolls(s, answers, cfg), cfg)
    ensures NothingOutstanding(DoFinishPolls(s, answers, cfg), cfg)
  {
    var t := DoFinishPolls(s, answers, cfg);
    var q := Poll(s.pc.pollStart, t.pc.obs);
    forall pod, m | KnownNow(t, pod, m) ensures Accounted(t, pod, m, cfg.unreachableLeaderGrace) {
      KnownAfterPoll(s, t, q, pod, m);
      if KnownNow(s, pod, m) {
        PollAccounts(s, answers, cfg, pod, m);
      } else {
        var o :| o in q.obs && o.be.pod == pod && o.reach && IsTransitioning(o);
        PollRecords(s, answers, cfg, o);
      }
    }
    forall o, m: nat | o in t.pc.obs && !o.reach && !o.wasTransitioning && m < LastStart(t) && KnownNow(t, o.be.pod, m)
      ensures Over(t.polls, o.be.pod, m, LastStart(t), cfg.unreachableLeaderGrace)
    {
      PollForgets(s, answers, cfg, o);
      assert Accounted(t, o.be.pod, m, cfg.unreachableLeaderGrace);
    }
  }

  // ---- The other steps

  lemma FreezeAnswer(s: Sys, i: nat, outcome: PostOutcome, cfg: Config)
    requires Shape(s, cfg) && Enabled(s, Answer(i, outcome))
    requires AllAccounted(s, cfg) && NothingOutstanding(s, cfg)
    ensures AllAccounted(DoAnswer(s, i, outcome), cfg) && NothingOutstanding(DoAnswer(s, i, outcome), cfg)
  {
    var t := DoAnswer(s, i, outcome);
    assert LastStart(t) == LastStart(s) <= s.clock;
    forall pod, m | KnownNow(t, pod, m)
      ensures KnownNow(s, pod, m) || (t.marks != s.marks && m == s.clock && pod == s.flights[i].pod)
    {
      if k :| 0 <= k < |t.marks| && t.marks[k] == Mark(pod, m) {
        assert k < |s.marks| ==> s.marks[k] == t.marks[k];
      }
    }
    forall pod, m | KnownNow(t, pod, m) ensures Accounted(t, pod, m, cfg.unreachableLeaderGrace) {
      if KnownNow(s, pod, m) {
        assert Accounted(s, pod, m, cfg.unreachableLeaderGrace);
        KnownInPast(s, cfg, pod, m);
      }
    }
  }

  lemma KnownInPast(s: Sys, cfg: Config, pod: string, m: nat)
    requires Shape(s, cfg) && KnownNow(s, pod, m)
    ensures m <= s.clock
  {}

  lemma FreezeFrame(s: Sys, t: Sys, cfg: Config)
    requires AllAccounted(s, cfg) && NothingOutstanding(s, cfg)
    requires t.st.transitioningSeen == s.st.transitioningSeen && t.polls == s.polls && t.marks == s.marks
    requires InTick(t.pc) ==> InTick(s.pc)
    ensures AllAccounted(t, cfg) && NothingOutstanding(t, cfg)
  {
    forall pod, m | KnownNow(t, pod, m) ensures Accounted(t, pod, m, cfg.unreachableLeaderGrace) {
      assert KnownNow(s, pod, m);
    }
    if InTick(t.pc) {
      forall o, m: nat | o in t.polls[|t.polls| - 1].obs && !o.reach && !o.wasTransitioning
                    && m < LastStart(t) && KnownNow(t, o.be.pod, m)
        ensures Over(t.polls, o.be.pod, m, LastStart(t), cfg.unreachableLeaderGrace)
      {
        assert KnownNow(s, o.be.pod, m) && LastStart(t) == LastStart(s);
      }
    }
  }

  // ---- The promotions that were issued

  /** What the theorem says of one promotion: every transition of a pod it discovered that was
      known when it was issued is no later than its poll, and over unless it was recorded at
      the very instant the poll started and the poll did not reach the pod. */
  ghost predicate IssuedOverNone(s: Sys, r: Promotion, cfg: Config) {
    && r.tick < |s.ticks| && s.ticks[r.tick].Decided? && s.ticks[r.tick].pollStart == r.pollStart
    && r.marksBefore <= |s.marks| && r.pollsBefore <= |s.polls|
    && (forall k | 0 <= k < r.marksBefore :: s.marks[k].at <= r.pollStart)
    && forall o, m: nat | o in s.ticks[r.tick].obs && Known(s, r.marksBefore, r.pollsBefore, o.be.pod, m) ::
         && m <= r.pollStart
         && (m < r.pollStart || o.reach ==> Over(s.polls, o.be.pod, m, r.pollStart, cfg.unreachableLeaderGrace))
  }

  ghost predicate AllIssuedOverNone(s: Sys, cfg: Config) {
    forall i | 0 <= i < |s.promotions| :: IssuedOverNone(s, s.promotions[i], cfg)
  }

  lemma AcquiredAfterAll(s: Sys, cfg: Config, p: nat, pod: string, m: nat)
    requires AllAccounted(s, cfg) && CanPromote(s.st, p) && LastStart(s) <= p && KnownNow(s, pod, m)
    ensures m <= p
  {
    assert Accounted(s, pod, m, cfg.unreachableLeaderGrace);
  }

  lemma OverAtIssue(s: Sys, cfg: Config, o: Observation, m: nat)
    requires Shape(s, cfg) && NothingOutstanding(s, cfg)
    requires (s.pc.Ready? || s.pc.FailingBack?) && !s.ticks[s.pc.tick].dec.hasTransitioning
    requires o in s.ticks[s.pc.tick].obs && KnownNow(s, o.be.pod, m) && m <= s.pc.pollStart
    requires m < s.pc.pollStart || o.reach
    ensures Over(s.polls, o.be.pod, m, s.pc.pollStart, cfg.unreachableLeaderGrace)
  {
    var j := |s.polls| - 1;
    assert s.polls[j].obs == s.ticks[s.pc.tick].obs && s.polls[j].start == s.pc.pollStart;
    assert !IsTransitioning(o) by {
      assert TickOk(s.ticks[s.pc.tick], cfg);
      assert !AnyTransitioning(s.ticks[s.pc.tick].obs);
    }
    if o.reach {
      assert SawSettled(s.polls[j], o.be.pod);
    }
  }

  lemma IssueOverNone(s: Sys, t: Sys, cfg: Config, kind: Kind, pod: string)
    requires Shape(s, cfg) && AllAccounted(s, cfg) && NothingOutstanding(s, cfg)
    requires (s.pc.Ready? || s.pc.FailingBack?) && !s.ticks[s.pc.tick].dec.hasTransitioning
    requires CanPromote(s.st, s.pc.pollStart)
    requires t.ticks == s.ticks && t.marks == s.marks && t.polls == s.polls && t.promotions == s.promotions
    requires t.clock == s.clock
    ensures var u := Started(t, kind, pod, s.pc.tick, s.pc.pollStart);
            IssuedOverNone(u, u.promotions[|s.promotions|], cfg)
  {
    var u, p := Started(t, kind, pod, s.pc.tick, s.pc.pollStart), s.pc.pollStart;
    forall k | 0 <= k < |s.marks| ensures s.marks[k].at <= p {
      assert s.marks[k] == Mark(s.marks[k].pod, s.marks[k].at);
      AcquiredAfterAll(s, cfg, p, s.marks[k].pod, s.marks[k].at);
    }
    forall o, m: nat | o in s.ticks[s.pc.tick].obs && Known(u, |s.marks|, |s.polls|, o.be.pod, m)
      ensures m <= p
      ensures m < p || o.reach ==> Over(u.polls, o.be.pod, m, p, cfg.unreachableLeaderGrace)
    {
      assert KnownNow(s, o.be.pod, m);
      AcquiredAfterAll(s, cfg, p, o.be.pod, m);
      if m < p || o.reach {
        OverAtIssue(s, cfg, o, m);
      }
    }
  }

  /** The records only grow, so what was true of a promotion stays true. */
  lemma IssuedStays(s: Sys, t: Sys, r: Promotion, r': Promotion, cfg: Config)
    requires IssuedOverNone(s, r, cfg)
    requires s.ticks <= t.ticks && s.marks <= t.marks && s.polls <= t.polls
    requires r'.tick == r.tick && r'.pollStart == r.pollStart
    requires r'.marksBefore == r.marksBefore && r'.pollsBefore == r.pollsBefore
    ensures IssuedOverNone(t, r', cfg)
  {
    assert t.ticks[r.tick] == s.ticks[r.tick];
    assert forall k | 0 <= k < r.marksBefore :: t.marks[k] == s.marks[k];
    forall o, m: nat | o in s.ticks[r.tick].obs && Known(t, r.marksBefore, r.pollsBefore, o.be.pod, m)
      ensures m <= r.pollStart
      ensures m < r.pollStart || o.reach ==> Over(t.polls, o.be.pod, m, r.pollStart, cfg.unreachableLeaderGrace)
    {
      assert forall j | 0 <= j < r.pollsBefore :: t.polls[j] == s.polls[j];
      assert Known(s, r.marksBefore, r.pollsBefore, o.be.pod, m);
      if m < r.pollStart || o.reach {
        OverLater(s.polls, t.polls[|s.polls|..], o.be.pod, m, r.pollStart, r.pollStart, cfg.unreachableLeaderGrace);
        assert s.polls + t.polls[|s.polls|..] == t.polls;
      }
    }
  }

  /** How the list of promotions changes in one step. */
  ghost predicate SameIssues(a: seq<Promotion>, b: seq<Promotion>) {
    |a| <= |b| && forall i | 0 <= i < |a| ::
      a[i].tick == b[i].tick && a[i].pollStart == b[i].pollStart
      && a[i].marksBefore == b[i].marksBefore && a[i].pollsBefore == b[i].pollsBefore
  }

  lemma AllIssuedStay(s: Sys, t: Sys, cfg: Config)
    requires AllIssuedOverNone(s, cfg) && SameIssues(s.promotions, t.promotions)
    requires s.ticks <= t.ticks && s.marks <= t.marks && s.polls <= t.polls
    ensures forall i | 0 <= i < |s.promotions| :: IssuedOverNone(t, t.promotions[i], cfg)
  {
    forall i | 0 <= i < |s.promotions| ensures IssuedOverNone(t, t.promotions[i], cfg) {
      IssuedStays(s, t, s.promotions[i], t.promotions[i], cfg);
    }
  }

  ghost predicate Frozen(s: Sys, cfg: Config) {
    Shape(s, cfg) && AllAccounted(s, cfg) && NothingOutstanding(s, cfg) && AllIssuedOverNone(s, cfg)
  }

  lemma FrozenActuate(s: Sys, cfg: Config)
    requires Frozen(s, cfg) && Enabled(s, Actuate)
    ensures AllIssuedOverNone(DoActuate(s, cfg), cfg)
  {
    var pc, t := s.pc, DoActuate(s, cfg);
    AllIssuedStay(s, t, cfg);
    if !pc.isEmpty && pc.dec.liveLeaderCount == 0 {
      var e := ActLeaderless(s.st, pc.dec, pc.streak, pc.retain, pc.pollStart, cfg);
      if e.promote.Some? {
        assert TickOk(s.ticks[pc.tick], cfg);
        var t0 := s.(st := e.state, pc := Idle, clears := t.clears);
        IssueOverNone(s, t0, cfg, Leaderless, e.promote.value.be.pod);
        assert t == Started(t0, Leaderless, e.promote.value.be.pod, pc.tick, pc.pollStart);
      }
    }
  }

  lemma FrozenFailback(s: Sys, cfg: Config)
    requires Frozen(s, cfg) && Enabled(s, TryFailback)
    ensures AllIssuedOverNone(DoTryFailback(s), cfg)
  {
    var t := DoTryFailback(s);
    AllIssuedStay(s, t, cfg);
    var e := ActFailback(s.st, s.pc.target, s.pc.pollStart);
    if e.promote.Some? {
      assert TickOk(s.ticks[s.pc.tick], cfg);
      var t0 := s.(st := e.state, pc := Idle);
      IssueOverNone(s, t0, cfg, ToFailback, s.pc.target.be.pod);
      assert t == Started(t0, ToFailback, s.pc.target.be.pod, s.pc.tick, s.pc.pollStart);
    }
  }

  lemma FrozenIssues(s: Sys, step: Step, cfg: Config)
    requires Frozen(s, cfg)
    ensures AllIssuedOverNone(Next(s, step, cfg), cfg)
  {
    if Enabled(s, step) {
      match step
      case Actuate => FrozenActuate(s, cfg);
      case TryFailback => FrozenFailback(s, cfg);
      case Answer(i, outcome) => AllIssuedStay(s, DoAnswer(s, i, outcome), cfg);
      case Release(i) => AllIssuedStay(s, DoRelease(s, i), cfg);
      case _ =>
        PromotionFrame(s, step, cfg);
        AllIssuedStay(s, Next(s, step, cfg), cfg);
    }
  }

  lemma FrozenMemory(s: Sys, step: Step, cfg: Config)
    requires Frozen(s, cfg)
    ensures AllAccounted(Next(s, step, cfg), cfg) && NothingOutstanding(Next(s, step, cfg), cfg)
  {
    if Enabled(s, step) {
      match step
      case FinishPolls(answers) => FreezePoll(s, answers, cfg);
      case Answer(i, outcome) => FreezeAnswer(s, i, outcome, cfg);
      case _ =>
        MemoryFrame(s, step, cfg);
        FreezeFrame(s, Next(s, step, cfg), cfg);
    }
  }

  lemma {:induction false} RunFrozen(steps: seq<Step>, cfg: Config)
    ensures Frozen(Run(steps, cfg), cfg)
  {
    if steps != [] {
      var n := |steps| - 1;
      RunFrozen(steps[..n], cfg);
      var s := Run(steps[..n], cfg);
      ShapeStep(s, steps[n], cfg);
      FrozenIssues(s, steps[n], cfg);
      FrozenMemory(s, steps[n], cfg);
    }
  }
}
