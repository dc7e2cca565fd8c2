/** The two streaks count exactly what they are for, and nothing is promoted or cleared short
    of them. */
module Hysteresis {
  import opened Controller
  import opened ElectionSystem
  import opened ElectionShape
  import opened ElectionCauses

  predicate Nonempty(t: Tick) {
    t.Decided? && t.obs != []
  }

  predicate Empty(t: Tick) {
    t.Decided? && t.obs == []
  }

  predicate LiveTick(t: Tick) {
    Nonempty(t) && t.dec.liveLeaderCount > 0
  }

  predicate LeaderlessTick(t: Tick) {
    Nonempty(t) && t.dec.liveLeaderCount == 0 && !t.dec.hasTransitioning
  }

  function CountLeaderless(ticks: seq<Tick>, lo: nat, hi: nat): nat
    requires lo <= hi <= |ticks|
  {
    if lo == hi then 0
    else CountLeaderless(ticks, lo, hi - 1) + if LeaderlessTick(ticks[hi - 1]) then 1 else 0
  }

  function CountEmpty(ticks: seq<Tick>, lo: nat, hi: nat): nat
    requires lo <= hi <= |ticks|
  {
    if lo == hi then 0
    else CountEmpty(ticks, lo, hi - 1) + if Empty(ticks[hi - 1]) then 1 else 0
  }

  /** Among the first `hi` ticks, the last `n` successful discoveries were empty, and the one
      before them, if any, was not. */
  ghost predicate EmptyFor(ticks: seq<Tick>, hi: nat, n: nat)
    requires hi <= |ticks|
  {
    exists e :: 0 <= e <= hi
      && (e > 0 ==> Nonempty(ticks[e - 1]))
      && (forall k | e <= k < hi :: !Nonempty(ticks[k]))
      && n == CountEmpty(ticks, e, hi)
  }

  ghost predicate EmptyAtLeast(ticks: seq<Tick>, hi: nat, least: int)
    requires hi <= |ticks|
  {
    exists n: nat :: EmptyFor(ticks, hi, n) && n >= least
  }

  /** The tick shows a live leader, or confirms that discovery is empty. */
  ghost predicate Resets(ticks: seq<Tick>, i: nat, cfg: Config)
    requires i < |ticks|
  {
    || LiveTick(ticks[i])
    || (Empty(ticks[i]) && EmptyAtLeast(ticks, i + 1, cfg.emptyDiscoveryDebounce))
  }

  /** Among the first `hi` ticks, exactly `n` were leaderless ticks since the last reset. */
  ghost predicate LeaderlessFor(ticks: seq<Tick>, hi: nat, n: nat, cfg: Config)
    requires hi <= |ticks|
  {
    exists r :: 0 <= r <= hi
      && (r > 0 ==> Resets(ticks, r - 1, cfg))
      && (forall k | r <= k < hi :: !Resets(ticks, k, cfg))
      && n == CountLeaderless(ticks, r, hi)
  }

  ghost predicate LeaderlessAtLeast(ticks: seq<Tick>, hi: nat, least: int, cfg: Config)
    requires hi <= |ticks|
  {
    exists n: nat :: LeaderlessFor(ticks, hi, n, cfg) && n >= least
  }

  // ---- The record only grows

  lemma {:induction false} CountsStay(ticks: seq<Tick>, t: Tick, lo: nat, hi: nat)
    requires lo <= hi <= |ticks|
    ensures CountLeaderless(ticks + [t], lo, hi) == CountLeaderless(ticks, lo, hi)
    ensures CountEmpty(ticks + [t], lo, hi) == CountEmpty(ticks, lo, hi)
  {
    if lo < hi {
      CountsStay(ticks, t, lo, hi - 1);
    }
  }

  lemma EmptyForStays(ticks: seq<Tick>, t: Tick, hi: nat, n: nat)
    requires hi <= |ticks|
    ensures EmptyFor(ticks + [t], hi, n) <==> EmptyFor(ticks, hi, n)
  {
    forall e | 0 <= e <= hi ensures CountEmpty(ticks + [t], e, hi) == CountEmpty(ticks, e, hi) {
      CountsStay(ticks, t, e, hi);
    }
    if EmptyFor(ticks, hi, n) {
      var e :| 0 <= e <= hi && (e > 0 ==> Nonempty(ticks[e - 1]))
               && (forall k | e <= k < hi :: !Nonempty(ticks[k])) && n == CountEmpty(ticks, e, hi);
      assert n == CountEmpty(ticks + [t], e, hi);
    }
    if EmptyFor(ticks + [t], hi, n) {
      var e :| 0 <= e <= hi && (e > 0 ==> Nonempty((ticks + [t])[e - 1]))
               && (forall k | e <= k < hi :: !Nonempty((ticks + [t])[k])) && n == CountEmpty(ticks + [t], e, hi);
      forall k | e <= k < hi ensures !Nonempty(ticks[k]) {
        assert (ticks + [t])[k] == ticks[k];
      }
      assert n == CountEmpty(ticks, e, hi);
    }
  }

  lemma ResetsStays(ticks: seq<Tick>, t: Tick, i: nat, cfg: Config)
    requires i < |ticks|
    ensures Resets(ticks + [t], i, cfg) <==> Resets(ticks, i, cfg)
  {
    var hi := i + 1;
    forall n: nat ensures EmptyFor(ticks + [t], hi, n) <==> EmptyFor(ticks, hi, n) {
      EmptyForStays(ticks, t, hi, n);
    }
  }

  lemma LeaderlessForStays(ticks: seq<Tick>, t: Tick, hi: nat, n: nat, cfg: Config)
    requires hi <= |ticks| && LeaderlessFor(ticks, hi, n, cfg)
    ensures LeaderlessFor(ticks + [t], hi, n, cfg)
  {
    var r :| 0 <= r <= hi && (r > 0 ==> Resets(ticks, r - 1, cfg))
             && (forall k | r <= k < hi :: !Resets(ticks, k, cfg)) && n == CountLeaderless(ticks, r, hi);
    forall i | 0 <= i < |ticks| ensures Resets(ticks + [t], i, cfg) <==> Resets(ticks, i, cfg) {
      ResetsStays(ticks, t, i, cfg);
    }
    CountsStay(ticks, t, r, hi);
  }

  lemma EmptyForUnique(ticks: seq<Tick>, hi: nat, m: nat, n: nat)
    requires hi <= |ticks| && EmptyFor(ticks, hi, m) && EmptyFor(ticks, hi, n)
    ensures m == n
  {
    var d :| 0 <= d <= hi && (d > 0 ==> Nonempty(ticks[d - 1]))
             && (forall k | d <= k < hi :: !Nonempty(ticks[k])) && m == CountEmpty(ticks, d, hi);
    var e :| 0 <= e <= hi && (e > 0 ==> Nonempty(ticks[e - 1]))
             && (forall k | e <= k < hi :: !Nonempty(ticks[k])) && n == CountEmpty(ticks, e, hi);
    assert d == e;
  }

  // ---- The counters follow the record

  ghost predicate Counted(ticks: seq<Tick>, streak: nat, empty: nat, cfg: Config) {
    EmptyFor(ticks, |ticks|, empty) && LeaderlessFor(ticks, |ticks|, streak, cfg)
  }

  lemma CountFailure(ticks: seq<Tick>, streak: nat, empty: nat, at: nat, cfg: Config)
    requires Counted(ticks, streak, empty, cfg)
    ensures Counted(ticks + [DiscoveryFailed(at)], streak, empty, cfg)
  {
    CountEmptyStep(ticks, DiscoveryFailed(at), empty);
    CountLeaderlessStep(ticks, DiscoveryFailed(at), streak, false, cfg);
  }

  lemma CountEmptyStep(ticks: seq<Tick>, t: Tick, empty: nat)
    requires EmptyFor(ticks, |ticks|, empty)
    ensures EmptyFor(ticks + [t], |ticks| + 1, if Nonempty(t) then 0 else if Empty(t) then empty + 1 else empty)
  {
    var n, more := |ticks|, ticks + [t];
    if Nonempty(t) {
      assert CountEmpty(more, n + 1, n + 1) == 0 && Nonempty(more[n]);
    } else {
      var e :| 0 <= e <= n && (e > 0 ==> Nonempty(ticks[e - 1]))
               && (forall k | e <= k < n :: !Nonempty(ticks[k])) && empty == CountEmpty(ticks, e, n);
      CountsStay(ticks, t, e, n);
      assert CountEmpty(more, e, n + 1) == CountEmpty(more, e, n) + if Empty(t) then 1 else 0;
      assert e > 0 ==> Nonempty(more[e - 1]);
    }
  }

  lemma CountLeaderlessStep(ticks: seq<Tick>, t: Tick, streak: nat, reset: bool, cfg: Config)
    requires LeaderlessFor(ticks, |ticks|, streak, cfg)
    requires reset <==> Resets(ticks + [t], |ticks|, cfg)
    ensures LeaderlessFor(ticks + [t], |ticks| + 1,
                          if reset then 0 else if LeaderlessTick(t) then streak + 1 else streak, cfg)
  {
    var n, more := |ticks|, ticks + [t];
    if reset {
      assert CountLeaderless(more, n + 1, n + 1) == 0 && Resets(more, n, cfg);
    } else {
      var r :| 0 <= r <= n && (r > 0 ==> Resets(ticks, r - 1, cfg))
               && (forall k | r <= k < n :: !Resets(ticks, k, cfg)) && streak == CountLeaderless(ticks, r, n);
      CountsStay(ticks, t, r, n);
      forall i | 0 <= i < n ensures Resets(more, i, cfg) <==> Resets(ticks, i, cfg) {
        ResetsStays(ticks, t, i, cfg);
      }
      assert CountLeaderless(more, r, n + 1) == CountLeaderless(more, r, n) + if LeaderlessTick(t) then 1 else 0;
    }
  }

  /** One commit moves the two counters exactly as the record says. */
  lemma CountCommit(ticks: seq<Tick>, t: Tick, cfg: Config)
    requires t.Decided? && TickOk(t, cfg)
    requires Counted(ticks, t.before.leaderlessStreak, t.before.emptyStreak, cfg)
    ensures Counted(ticks + [t], t.streak, t.emptyStreak, cfg)
  {
    var n, more := |ticks|, ticks + [t];
    CountEmptyStep(ticks, t, t.before.emptyStreak);
    assert EmptyFor(more, n + 1, t.emptyStreak);
    var reset := Resets(more, n, cfg);
    assert more[n] == t;
    if Empty(t) {
      if reset {
        var m: nat :| EmptyFor(more, n + 1, m) && m >= cfg.emptyDiscoveryDebounce;
        EmptyForUnique(more, n + 1, m, t.emptyStreak);
      }
    }
    CountLeaderlessStep(ticks, t, t.before.leaderlessStreak, reset, cfg);
  }

  ghost predicate AllCounted(s: Sys, cfg: Config) {
    && Counted(s.ticks, s.st.leaderlessStreak, s.st.emptyStreak, cfg)
    && forall i | 0 <= i < |s.ticks| && s.ticks[i].Decided? ::
         EmptyFor(s.ticks, i + 1, s.ticks[i].emptyStreak) && LeaderlessFor(s.ticks, i + 1, s.ticks[i].streak, cfg)
  }

  lemma CountedGrows(s: Sys, t: Sys, tick: Tick, cfg: Config)
    requires AllCounted(s, cfg) && t.ticks == s.ticks + [tick]
    requires Counted(t.ticks, t.st.leaderlessStreak, t.st.emptyStreak, cfg)
    requires tick.Decided? ==> tick.emptyStreak == t.st.emptyStreak && tick.streak == t.st.leaderlessStreak
    ensures AllCounted(t, cfg)
  {
    forall i | 0 <= i < |t.ticks| && t.ticks[i].Decided?
      ensures EmptyFor(t.ticks, i + 1, t.ticks[i].emptyStreak) && LeaderlessFor(t.ticks, i + 1, t.ticks[i].streak, cfg)
    {
      if i < |s.ticks| {
        EmptyForStays(s.ticks, tick, i + 1, s.ticks[i].emptyStreak);
        LeaderlessForStays(s.ticks, tick, i + 1, s.ticks[i].streak, cfg);
      }
    }
  }

  /** Only a failed discovery and a commit add to the record; no other step moves the counters. */
  lemma CounterFrame(s: Sys, step: Step, cfg: Config)
    requires !step.FailDiscovery? && !step.Commit?
    ensures var t := Next(s, step, cfg);
            && t.ticks == s.ticks
            && t.st.leaderlessStreak == s.st.leaderlessStreak && t.st.emptyStreak == s.st.emptyStreak
  {}

  lemma CountedStep(s: Sys, step: Step, cfg: Config)
    requires Shape(s, cfg) && AllCounted(s, cfg)
    ensures AllCounted(Next(s, step, cfg), cfg)
  {
    var t := Next(s, step, cfg);
    if Enabled(s, step) && step.Commit? {
      ShapeStep(s, step, cfg);
      assert t == DoCommit(s, cfg);
      CountCommit(s.ticks, t.ticks[|s.ticks|], cfg);
      CountedGrows(s, t, t.ticks[|s.ticks|], cfg);
    } else if Enabled(s, step) && step.FailDiscovery? {
      assert t == DoFailDiscovery(s);
      CountFailure(s.ticks, s.st.leaderlessStreak, s.st.emptyStreak, s.clock, cfg);
      CountedGrows(s, t, DiscoveryFailed(s.clock), cfg);
    } else if Enabled(s, step) {
      CounterFrame(s, step, cfg);
    }
  }

  lemma {:induction false} RunCounted(steps: seq<Step>, cfg: Config)
    ensures AllCounted(Run(steps, cfg), cfg)
  {
    if steps == [] {
      var s := START;
      assert CountEmpty(s.ticks, 0, 0) == 0 && CountLeaderless(s.ticks, 0, 0) == 0;
    } else {
      var n := |steps| - 1;
      RunCounted(steps[..n], cfg);
      RunShape(steps[..n], cfg);
      CountedStep(Run(steps[..n], cfg), steps[n], cfg);
    }
  }

  lemma TargetMeansSettled(t: Tick, cfg: Config)
    requires t.Decided? && TickOk(t, cfg) && t.dec.promoteTarget.Some?
    ensures !t.dec.hasTransitioning
  {}

  ghost predicate StreakReached(s: Sys, r: Promotion, cfg: Config) {
    r.tick < |s.ticks| && LeaderlessTick(s.ticks[r.tick])
    && LeaderlessAtLeast(s.ticks, r.tick + 1, cfg.promoteDebounce, cfg)
  }

  lemma CountedAt(s: Sys, i: nat, cfg: Config)
    requires AllCounted(s, cfg) && i < |s.ticks| && s.ticks[i].Decided?
    ensures EmptyFor(s.ticks, i + 1, s.ticks[i].emptyStreak) && LeaderlessFor(s.ticks, i + 1, s.ticks[i].streak, cfg)
  {}

  lemma PromotionReachedStreak(s: Sys, r: Promotion, cfg: Config)
    requires Caused(s, r, cfg) && r.kind == Leaderless && !s.ticks[r.tick].dec.hasTransitioning
    requires LeaderlessFor(s.ticks, r.tick + 1, s.ticks[r.tick].streak, cfg)
    ensures StreakReached(s, r, cfg)
  {
    EnoughLeaderless(s.ticks, r.tick + 1, s.ticks[r.tick].streak, cfg.promoteDebounce, cfg);
  }

  lemma EnoughLeaderless(ticks: seq<Tick>, hi: nat, n: nat, least: int, cfg: Config)
    requires hi <= |ticks| && LeaderlessFor(ticks, hi, n, cfg) && n >= least
    ensures LeaderlessAtLeast(ticks, hi, least, cfg)
  {}

  lemma EnoughEmpty(ticks: seq<Tick>, hi: nat, n: nat, least: int)
    requires hi <= |ticks| && EmptyFor(ticks, hi, n) && n >= least
    ensures EmptyAtLeast(ticks, hi, least)
  {}

  ghost predicate ClearJustified(s: Sys, c: nat, cfg: Config) {
    && c < |s.ticks|
    && (|| (Empty(s.ticks[c]) && EmptyAtLeast(s.ticks, c + 1, cfg.emptyDiscoveryDebounce))
        || (Nonempty(s.ticks[c]) && !LiveTick(s.ticks[c])
            && LeaderlessAtLeast(s.ticks, c + 1, cfg.promoteDebounce, cfg)))
  }

  lemma ClearReachedStreak(s: Sys, c: nat, cfg: Config)
    requires AllCounted(s, cfg) && ClearCaused(s, c, cfg)
    ensures ClearJustified(s, c, cfg)
  {
    var t := s.ticks[c];
    CountedAt(s, c, cfg);
    if t.obs == [] {
      EnoughEmpty(s.ticks, c + 1, t.emptyStreak, cfg.emptyDiscoveryDebounce);
    } else {
      EnoughLeaderless(s.ticks, c + 1, t.streak, cfg.promoteDebounce, cfg);
    }
  }

  lemma AllReachedStreak(s: Sys, cfg: Config)
    requires Shape(s, cfg) && AllCounted(s, cfg) && AllCaused(s, cfg)
    ensures forall r | r in s.promotions && r.kind == Leaderless :: StreakReached(s, r, cfg)
    ensures forall c | c in s.clears :: ClearJustified(s, c, cfg)
  {
    forall r | r in s.promotions && r.kind == Leaderless ensures StreakReached(s, r, cfg) {
      TargetMeansSettled(s.ticks[r.tick], cfg);
      CountedAt(s, r.tick, cfg);
      PromotionReachedStreak(s, r, cfg);
    }
    forall c | c in s.clears ensures ClearJustified(s, c, cfg) {
      ClearReachedStreak(s, c, cfg);
    }
  }

  /** In every run: a leaderless promotion is issued by a leaderless tick (pods discovered, none
      live, none in transition), and only when that tick and those before it make at least
      `promoteDebounce` leaderless ticks since the last live leader or confirmed-empty
      discovery. A clearing of the published leader comes either from a tick that confirms
      `emptyDiscoveryDebounce` consecutive empty successful discoveries, or from a tick with no
      live leader and at least `promoteDebounce` leaderless ticks since the last reset. */
  lemma NothingShortOfStreak(steps: seq<Step>, cfg: Config)
    ensures var s := Run(steps, cfg);
            && (forall r | r in s.promotions && r.kind == Leaderless :: StreakReached(s, r, cfg))
            && (forall c | c in s.clears :: ClearJustified(s, c, cfg))
  {
    RunCounted(steps, cfg);
    RunCaused(steps, cfg);
    RunShape(steps, cfg);
    AllReachedStreak(Run(steps, cfg), cfg);
  }
}
