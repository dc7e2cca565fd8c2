/** Failing back to a preferred pod waits for an unbroken window, and not more often than once
    per window. */
module Failback {
  import opened Prelude
  import opened Decide
  import opened DecideOrder
  import opened Controller
  import opened ElectionSystem
  import opened ElectionShape
  import opened ElectionCauses

  /** At this reconcile discovery succeeded and the pod, not restarted, was promotable; and if
      a leader was live, the pod was the most preferred of those warm enough and of higher
      priority than that leader. */
  ghost predicate EligibleAt(t: Tick, pod: string, restarts: int, cfg: Config) {
    t.Decided? && exists o | o in t.obs ::
      && o.be.pod == pod && o.be.restarts == restarts && IsPromotable(o)
      && match Best(Select(t.obs, Live(cfg.leaseUnverifiedGrace)), ByLease)
         case None => true
         case Some(l) =>
           && cfg.failbackEnabled
           && IsFailbackCandidate(o, l, cfg.failbackWarmthLagNs)
           && forall x | x in t.obs && IsFailbackCandidate(x, l, cfg.failbackWarmthLagNs) && x != o ::
                MorePreferred(o, x)
  }

  /** From tick `k` on, up to but not including `hi`, the pod was eligible at every reconcile. */
  ghost predicate EligibleFrom(ticks: seq<Tick>, fb: FailbackState, k: nat, hi: nat, cfg: Config)
    requires hi <= |ticks|
  {
    k < hi && forall j | k <= j < hi :: EligibleAt(ticks[j], fb.candidate, fb.restarts, cfg)
  }

  /** Tick `k` started the clock at `e`: it was decided then, or, if it fired a failback, it was
      polled then. */
  predicate StartedClock(ticks: seq<Tick>, k: nat, e: nat) {
    k < |ticks| && (e == TimeOf(ticks[k]) || e == StartOf(ticks[k]))
  }

  /** As the first `hi` ticks end, the pod has been eligible at every reconcile since the one
      that started the clock. */
  ghost predicate EligibleSince(ticks: seq<Tick>, fb: FailbackState, e: nat, hi: nat, cfg: Config)
    requires hi <= |ticks|
  {
    exists k: nat :: StartedClock(ticks, k, e) && EligibleFrom(ticks, fb, k, hi, cfg)
  }

  /** The same of the clock that tick `i` decided by, which it started itself only by deciding. */
  ghost predicate EligibleUpTo(ticks: seq<Tick>, fb: FailbackState, e: nat, i: nat, cfg: Config)
    requires i < |ticks|
  {
    var hi := i + 1;
    EligibleAt(ticks[i], fb.candidate, fb.restarts, cfg)
    && (e == TimeOf(ticks[i])
        || exists k: nat | k < i :: StartedClock(ticks, k, e) && EligibleFrom(ticks, fb, k, hi, cfg))
  }

  ghost predicate WindowOpen(ticks: seq<Tick>, fb: FailbackState, hi: nat, cfg: Config)
    requires hi <= |ticks|
  {
    fb.eligibleSince.Some? ==> EligibleSince(ticks, fb, fb.eligibleSince.value, hi, cfg)
  }

  ghost predicate WindowAt(ticks: seq<Tick>, i: nat, cfg: Config)
    requires i < |ticks| && ticks[i].Decided?
  {
    var fb := ticks[i].dec.failbackState;
    fb.eligibleSince.Some? ==> EligibleUpTo(ticks, fb, fb.eligibleSince.value, i, cfg)
  }

  lemma EligibleFromStays(ticks: seq<Tick>, t: Tick, fb: FailbackState, k: nat, hi: nat, cfg: Config)
    requires hi <= |ticks|
    ensures EligibleFrom(ticks + [t], fb, k, hi, cfg) == EligibleFrom(ticks, fb, k, hi, cfg)
  {
    if EligibleFrom(ticks + [t], fb, k, hi, cfg) {
      forall j | k <= j < hi ensures EligibleAt(ticks[j], fb.candidate, fb.restarts, cfg) {
        assert (ticks + [t])[j] == ticks[j];
      }
    }
  }

  lemma WindowStays(ticks: seq<Tick>, t: Tick, i: nat, cfg: Config)
    requires i < |ticks| && ticks[i].Decided? && WindowAt(ticks, i, cfg)
    ensures WindowAt(ticks + [t], i, cfg)
  {
    var fb, hi := ticks[i].dec.failbackState, i + 1;
    if fb.eligibleSince.Some? && fb.eligibleSince.value != TimeOf(ticks[i]) {
      var e := fb.eligibleSince.value;
      var k: nat :| k < i && StartedClock(ticks, k, e) && EligibleFrom(ticks, fb, k, hi, cfg);
      EligibleFromStays(ticks, t, fb, k, hi, cfg);
      assert StartedClock(ticks + [t], k, e);
    }
  }

  // ---- One decision

  /** A decision names a candidate only if the candidate is eligible at that very tick. */
  lemma CandidateEligible(t: Tick, cfg: Config)
    requires t.Decided? && TickOk(t, cfg) && t.dec.failbackState.eligibleSince.Some?
    ensures EligibleAt(t, t.dec.failbackState.candidate, t.dec.failbackState.restarts, cfg)
  {
    var p := ParamsOf(t.before, t.now, cfg);
    match Best(Select(t.obs, Live(cfg.leaseUnverifiedGrace)), ByLease)
    case None =>
      var o :| o in t.obs && StillCandidate(o, t.before.failback);
    case Some(l) =>
      var k := Keep.Failback(l, cfg.failbackWarmthLagNs);
      var o := Best(Select(t.obs, k), ByPreference).value;
      ChoiceExact(t.obs, k, ByPreference, o);
      assert Keeps(k, o);
      forall x | x in t.obs && IsFailbackCandidate(x, l, cfg.failbackWarmthLagNs) && x != o
        ensures MorePreferred(o, x)
      {
        assert Keeps(k, x);
        assert Beats(ByPreference, o, x);
      }
  }

  /** The clock of a decision is the clock it inherited, for the same pod and restart count, or
      starts now. */
  lemma ClockInherited(t: Tick, cfg: Config)
    requires t.Decided? && TickOk(t, cfg) && t.dec.failbackState.eligibleSince.Some?
    ensures var fb := t.dec.failbackState;
            || fb == t.before.failback
            || fb.eligibleSince == Some(t.now)
  {
    var p := ParamsOf(t.before, t.now, cfg);
    match Best(Select(t.obs, Live(cfg.leaseUnverifiedGrace)), ByLease)
    case None =>
    case Some(l) =>
      var k := Keep.Failback(l, cfg.failbackWarmthLagNs);
      assert FailbackOf(t.obs, l, p.failback).1 == t.dec.failbackState;
      assert Best(Select(t.obs, k), ByPreference).Some?;
  }

  /** A failback target is the candidate of the decision, and its window has passed. */
  lemma TargetWaited(t: Tick, cfg: Config)
    requires t.Decided? && TickOk(t, cfg) && t.dec.failbackTarget.Some?
    ensures var fb := t.dec.failbackState;
            && fb.eligibleSince.Some? && t.now - fb.eligibleSince.value >= cfg.failbackStability
            && t.dec.failbackTarget.value.be.pod == fb.candidate
            && t.dec.failbackTarget.value.be.restarts == fb.restarts
            && t.dec.failbackTarget.value in t.obs
  {
    var p := ParamsOf(t.before, t.now, cfg);
    match Best(Select(t.obs, Live(cfg.leaseUnverifiedGrace)), ByLease)
    case Some(l) =>
      var k := Keep.Failback(l, cfg.failbackWarmthLagNs);
      assert FailbackOf(t.obs, l, p.failback).1 == t.dec.failbackState;
      ChoiceExact(t.obs, k, ByPreference, t.dec.failbackTarget.value);
  }

  // ---- The invariant

  /** The failback actuations so far started no later than the clock says. */
  ghost predicate ClockAfter(s: Sys, fb: FailbackState, upTo: nat)
    requires upTo <= |s.promotions|
  {
    fb.eligibleSince.Some? ==>
      forall i | 0 <= i < upTo && s.promotions[i].kind == ToFailback ::
        s.promotions[i].pollStart <= fb.eligibleSince.value
  }

  /** Promotion `j` was decided by a clock that started no earlier than the polls of the
      failbacks before it. */
  ghost predicate Spaced(s: Sys, j: nat)
    requires j < |s.promotions|
  {
    var r := s.promotions[j];
    && r.tick < |s.ticks|
    && (r.kind == ToFailback ==> s.ticks[r.tick].Decided? && ClockAfter(s, s.ticks[r.tick].dec.failbackState, j))
  }

  ghost predicate FailbackKept(s: Sys, cfg: Config) {
    && WindowOpen(s.ticks, s.st.failback, |s.ticks|, cfg)
    && ClockAfter(s, s.st.failback, |s.promotions|)
    && (forall i | 0 <= i < |s.ticks| && s.ticks[i].Decided? :: WindowAt(s.ticks, i, cfg))
    && (forall j | 0 <= j < |s.promotions| :: Spaced(s, j))
    && (s.pc.Ready? || s.pc.FailingBack? ==>
          && s.pc.tick < |s.ticks| && s.ticks[s.pc.tick].Decided?
          && s.st.failback == s.ticks[s.pc.tick].dec.failbackState
          && forall j | 0 <= j < |s.promotions| :: s.promotions[j].tick < s.pc.tick)
  }

  ghost predicate SameFailbacks(a: seq<Promotion>, b: seq<Promotion>) {
    |a| <= |b| && forall i | 0 <= i < |a| ::
      a[i].kind == b[i].kind && a[i].tick == b[i].tick && a[i].pollStart == b[i].pollStart
  }

  lemma SpacedStays(s: Sys, t: Sys, j: nat)
    requires j < |s.promotions| && Spaced(s, j) && SameFailbacks(s.promotions, t.promotions) && s.ticks <= t.ticks
    ensures Spaced(t, j)
  {
    assert t.ticks[s.promotions[j].tick] == s.ticks[s.promotions[j].tick];
  }

  lemma FailbackFrame(s: Sys, t: Sys, cfg: Config)
    requires FailbackKept(s, cfg) && t.ticks == s.ticks && t.st.failback == s.st.failback
    requires |t.promotions| == |s.promotions| && SameFailbacks(s.promotions, t.promotions)
    requires t.pc.Ready? || t.pc.FailingBack? ==> (s.pc.Ready? || s.pc.FailingBack?) && t.pc.tick == s.pc.tick
    ensures FailbackKept(t, cfg)
  {
    forall j | 0 <= j < |t.promotions| ensures Spaced(t, j) {
      SpacedStays(s, t, j);
    }
  }

  /** One more tick on the record, eligible like those before it. */
  lemma WindowGoesOn(ticks: seq<Tick>, t: Tick, fb: FailbackState, e: nat, cfg: Config)
    requires EligibleSince(ticks, fb, e, |ticks|, cfg) && EligibleAt(t, fb.candidate, fb.restarts, cfg)
    ensures EligibleUpTo(ticks + [t], fb, e, |ticks|, cfg)
  {
    var hi := |ticks| + 1;
    var k: nat :| StartedClock(ticks, k, e) && EligibleFrom(ticks, fb, k, |ticks|, cfg);
    EligibleFromStays(ticks, t, fb, k, |ticks|, cfg);
    assert EligibleFrom(ticks + [t], fb, k, hi, cfg);
    assert StartedClock(ticks + [t], k, e);
  }

  lemma UpToIsSince(ticks: seq<Tick>, fb: FailbackState, e: nat, i: nat, cfg: Config)
    requires i < |ticks| && EligibleUpTo(ticks, fb, e, i, cfg)
    ensures EligibleSince(ticks, fb, e, i + 1, cfg)
  {
    var hi := i + 1;
    if e == TimeOf(ticks[i]) {
      assert StartedClock(ticks, i, e) && EligibleFrom(ticks, fb, i, hi, cfg);
    }
  }

  lemma WindowTick(ticks: seq<Tick>, t: Tick, cfg: Config)
    requires t.Decided? && TickOk(t, cfg) && WindowOpen(ticks, t.before.failback, |ticks|, cfg)
    ensures WindowAt(ticks + [t], |ticks|, cfg) && WindowOpen(ticks + [t], t.dec.failbackState, |ticks| + 1, cfg)
  {
    var fb := t.dec.failbackState;
    if fb.eligibleSince.Some? {
      var e := fb.eligibleSince.value;
      CandidateEligible(t, cfg);
      ClockInherited(t, cfg);
      if fb == t.before.failback {
        WindowGoesOn(ticks, t, fb, e, cfg);
      }
      assert (ticks + [t])[|ticks|] == t;
      UpToIsSince(ticks + [t], fb, e, |ticks|, cfg);
    }
  }

  lemma FailbackTick(s: Sys, t: Sys, tick: Tick, cfg: Config)
    requires Shape(s, cfg) && FailbackKept(s, cfg) && t.ticks == s.ticks + [tick] && t.promotions == s.promotions
    requires TickOk(tick, cfg) && tick.Decided? && tick.before == s.st
    requires t.st.failback == tick.dec.failbackState && tick.now <= s.clock
    requires forall i | 0 <= i < |s.promotions| :: s.promotions[i].pollStart <= tick.now
    requires t.pc.Ready? && t.pc.tick == |s.ticks|
    ensures FailbackKept(t, cfg)
  {
    WindowTick(s.ticks, tick, cfg);
    forall i | 0 <= i < |t.ticks| && t.ticks[i].Decided? ensures WindowAt(t.ticks, i, cfg) {
      if i < |s.ticks| {
        WindowStays(s.ticks, tick, i, cfg);
      }
    }
    forall j | 0 <= j < |t.promotions| ensures Spaced(t, j) && t.promotions[j].tick < t.pc.tick {
      assert Spaced(s, j);
      SpacedStays(s, t, j);
    }
    if tick.dec.failbackState.eligibleSince.Some? {
      ClockInherited(tick, cfg);
    }
  }

  lemma PolledInPast(s: Sys, cfg: Config)
    requires Shape(s, cfg) && AllCaused(s, cfg) && s.pc.Polled?
    ensures forall i | 0 <= i < |s.promotions| :: s.promotions[i].pollStart <= s.pc.now
  {
    forall i | 0 <= i < |s.promotions| ensures s.promotions[i].pollStart <= s.pc.now {
      assert Caused(s, s.promotions[i], cfg);
      assert TickOk(s.ticks[s.promotions[i].tick], cfg);
    }
  }

  lemma FailbackCommit(s: Sys, cfg: Config)
    requires Shape(s, cfg) && AllCaused(s, cfg) && FailbackKept(s, cfg) && Enabled(s, Commit)
    ensures FailbackKept(DoCommit(s, cfg), cfg)
  {
    var t := DoCommit(s, cfg);
    PolledInPast(s, cfg);
    ShapeCommit(s, cfg);
    FailbackTick(s, t, t.ticks[|s.ticks|], cfg);
  }

  lemma FailbackFailure(s: Sys, cfg: Config)
    requires FailbackKept(s, cfg) && Enabled(s, FailDiscovery)
    ensures FailbackKept(DoFailDiscovery(s), cfg)
  {
    var t, tick := DoFailDiscovery(s), DiscoveryFailed(s.clock);
    forall i | 0 <= i < |t.ticks| && t.ticks[i].Decided? ensures WindowAt(t.ticks, i, cfg) {
      WindowStays(s.ticks, tick, i, cfg);
    }
    forall j | 0 <= j < |t.promotions| ensures Spaced(t, j) {
      SpacedStays(s, t, j);
    }
  }

  lemma EarlierPolls(s: Sys, cfg: Config)
    requires Shape(s, cfg) && AllCaused(s, cfg) && FailbackKept(s, cfg) && s.pc.FailingBack?
    ensures forall j | 0 <= j < |s.promotions| :: s.promotions[j].pollStart <= s.pc.pollStart
  {
    forall j | 0 <= j < |s.promotions| ensures s.promotions[j].pollStart <= s.pc.pollStart {
      assert Caused(s, s.promotions[j], cfg);
      assert TimeOf(s.ticks[s.promotions[j].tick]) <= StartOf(s.ticks[s.pc.tick]);
    }
  }

  /** The restarted clock still has an eligible tick behind it: the one that fires. */
  lemma RestartedWindow(s: Sys, cfg: Config)
    requires Shape(s, cfg) && FailbackKept(s, cfg) && s.pc.FailingBack?
    ensures WindowOpen(s.ticks, s.st.failback.(eligibleSince := Some(s.pc.pollStart)), |s.ticks|, cfg)
  {
    var k := s.pc.tick;
    TargetWaited(s.ticks[k], cfg);
    CandidateEligible(s.ticks[k], cfg);
    assert StartedClock(s.ticks, k, s.pc.pollStart) && EligibleFrom(s.ticks, s.st.failback, k, |s.ticks|, cfg);
    assert EligibleSince(s.ticks, s.st.failback, s.pc.pollStart, |s.ticks|, cfg);
  }

  lemma FailbackIssue(s: Sys, t: Sys, pod: string, cfg: Config)
    requires FailbackKept(s, cfg) && s.pc.FailingBack?
    requires t.ticks == s.ticks && t.promotions == s.promotions && t.pc.Idle?
    requires t.st.failback == s.st.failback.(eligibleSince := Some(s.pc.pollStart))
    requires WindowOpen(t.ticks, t.st.failback, |t.ticks|, cfg)
    requires forall j | 0 <= j < |s.promotions| :: s.promotions[j].pollStart <= s.pc.pollStart
    ensures FailbackKept(Started(t, ToFailback, pod, s.pc.tick, s.pc.pollStart), cfg)
  {
    var u := Started(t, ToFailback, pod, s.pc.tick, s.pc.pollStart);
    forall j | 0 <= j < |u.promotions| ensures Spaced(u, j) {
      if j < |s.promotions| {
        SpacedStays(s, u, j);
      }
    }
  }

  lemma FailbackTry(s: Sys, cfg: Config)
    requires Shape(s, cfg) && AllCaused(s, cfg) && FailbackKept(s, cfg) && Enabled(s, TryFailback)
    ensures FailbackKept(DoTryFailback(s), cfg)
  {
    if CanPromote(s.st, s.pc.pollStart) {
      var t := s.(st := ActFailback(s.st, s.pc.target, s.pc.pollStart).state, pc := Idle);
      EarlierPolls(s, cfg);
      RestartedWindow(s, cfg);
      FailbackIssue(s, t, s.pc.target.be.pod, cfg);
    } else {
      FailbackFrame(s, DoTryFailback(s), cfg);
    }
  }

  lemma FailbackByActuate(s: Sys, cfg: Config)
    requires s.pc.Ready?
    ensures var t := DoActuate(s, cfg);
            && t.ticks == s.ticks && t.st.failback == s.st.failback
            && (t.pc.Idle? || (t.pc.FailingBack? && t.pc.tick == s.pc.tick))
  {}

  lemma FailbackActuate(s: Sys, cfg: Config)
    requires FailbackKept(s, cfg) && Enabled(s, Actuate)
    ensures FailbackKept(DoActuate(s, cfg), cfg)
  {
    var t := DoActuate(s, cfg);
    FailbackByActuate(s, cfg);
    forall j | 0 <= j < |t.promotions| ensures Spaced(t, j) {
      if j < |s.promotions| {
        SpacedStays(s, t, j);
      }
    }
  }

  lemma FailbackNeutral(s: Sys, step: Step, cfg: Config)
    requires step.Wait? || step.Discover? || step.FinishPolls?
    ensures var t := Next(s, step, cfg);
            && t.ticks == s.ticks && t.promotions == s.promotions && t.st.failback == s.st.failback
            && (t.pc.Ready? || t.pc.FailingBack? ==> t.pc == s.pc)
  {}

  lemma FailbackStep(s: Sys, step: Step, cfg: Config)
    requires Shape(s, cfg) && AllCaused(s, cfg) && FailbackKept(s, cfg)
    ensures FailbackKept(Next(s, step, cfg), cfg)
  {
    if Enabled(s, step) {
      match step
      case Commit => FailbackCommit(s, cfg);
      case FailDiscovery => FailbackFailure(s, cfg);
      case Actuate => FailbackActuate(s, cfg);
      case TryFailback => FailbackTry(s, cfg);
      case Answer(_, _) => FailbackFlight(s, step, cfg);
      case Release(_) => FailbackFlight(s, step, cfg);
      case _ => FailbackOther(s, step, cfg);
    }
  }

  lemma FailbackFlight(s: Sys, step: Step, cfg: Config)
    requires FailbackKept(s, cfg) && (step.Answer? || step.Release?) && Enabled(s, step)
    ensures FailbackKept(Next(s, step, cfg), cfg)
  {
    if step.Answer? {
      FailbackFrame(s, DoAnswer(s, step.flight, step.outcome), cfg);
    } else {
      FailbackFrame(s, DoRelease(s, step.flight), cfg);
    }
  }

  lemma FailbackOther(s: Sys, step: Step, cfg: Config)
    requires FailbackKept(s, cfg) && (step.Wait? || step.Discover? || step.FinishPolls?)
    ensures FailbackKept(Next(s, step, cfg), cfg)
  {
    FailbackNeutral(s, step, cfg);
    FailbackFrame(s, Next(s, step, cfg), cfg);
  }

  lemma {:induction false} RunFailback(steps: seq<Step>, cfg: Config)
    ensures FailbackKept(Run(steps, cfg), cfg)
  {
    if steps != [] {
      var n := |steps| - 1;
      RunFailback(steps[..n], cfg);
      RunShape(steps[..n], cfg);
      RunCaused(steps[..n], cfg);
      FailbackStep(Run(steps[..n], cfg), steps[n], cfg);
    }
  }

  // ---- The theorems

  /** The failback was decided at least a window after its clock started, and at every reconcile
      since the one that started it, that one included, the pod was eligible with the same
      restart count. */
  ghost predicate WaitedOut(s: Sys, r: Promotion, cfg: Config) {
    && r.tick < |s.ticks| && s.ticks[r.tick].Decided?
    && var t, fb := s.ticks[r.tick], s.ticks[r.tick].dec.failbackState;
       && fb.candidate == r.pod && fb.eligibleSince.Some?
       && EligibleUpTo(s.ticks, fb, fb.eligibleSince.value, r.tick, cfg)
       && t.now - fb.eligibleSince.value >= cfg.failbackStability
  }

  /** The second failback was decided at least a window after the poll of the first began. */
  ghost predicate Apart(s: Sys, i: nat, j: nat, cfg: Config)
    requires i < |s.promotions| && j < |s.promotions|
  {
    && s.promotions[j].tick < |s.ticks| && s.ticks[s.promotions[j].tick].Decided?
    && s.ticks[s.promotions[j].tick].now - s.promotions[i].pollStart >= cfg.failbackStability
  }

  lemma FailbackWaitedOut(s: Sys, r: Promotion, cfg: Config)
    requires Shape(s, cfg) && FailbackKept(s, cfg) && Caused(s, r, cfg) && r.kind == ToFailback
    ensures WaitedOut(s, r, cfg)
  {
    TargetWaited(s.ticks[r.tick], cfg);
  }

  lemma FailbacksApart(s: Sys, i: nat, j: nat, cfg: Config)
    requires Shape(s, cfg) && FailbackKept(s, cfg) && AllCaused(s, cfg) && i < j < |s.promotions|
    requires s.promotions[i].kind == ToFailback && s.promotions[j].kind == ToFailback
    ensures Apart(s, i, j, cfg)
  {
    assert Caused(s, s.promotions[j], cfg) && Spaced(s, j);
    TargetWaited(s.ticks[s.promotions[j].tick], cfg);
  }

  /** In every run, a failback fires only after an unbroken window of eligibility, and two
      failbacks are at least one window apart, from the start of the first one's poll to the
      decision of the second. */
  lemma FailbacksWaitAndSpace(steps: seq<Step>, cfg: Config)
    ensures var s := Run(steps, cfg);
            && (forall r | r in s.promotions && r.kind == ToFailback :: WaitedOut(s, r, cfg))
            && (forall i, j | 0 <= i < j < |s.promotions| && s.promotions[i].kind == ToFailback
                              && s.promotions[j].kind == ToFailback :: Apart(s, i, j, cfg))
  {
    RunShape(steps, cfg);
    RunFailback(steps, cfg);
    RunCaused(steps, cfg);
    var s := Run(steps, cfg);
    forall r | r in s.promotions && r.kind == ToFailback ensures WaitedOut(s, r, cfg) {
      var i :| 0 <= i < |s.promotions| && s.promotions[i] == r;
      assert Caused(s, s.promotions[i], cfg);
      FailbackWaitedOut(s, r, cfg);
    }
    forall i, j | 0 <= i < j < |s.promotions| && s.promotions[i].kind == ToFailback
                  && s.promotions[j].kind == ToFailback
      ensures Apart(s, i, j, cfg)
    {
      FailbacksApart(s, i, j, cfg);
    }
  }
}
