/** A leaderless deployment tries its promotable pods in turn. */
module Rotation {
  import opened Prelude
  import opened Decide
  import opened DecideOrder
  import opened Controller
  import opened ElectionSystem
  import opened ElectionShape
  import opened ElectionCauses

  predicate SawLeader(t: Tick) {
    t.Decided? && t.obs != [] && t.dec.liveLeaderCount > 0
  }

  /** Where the leaderless stretch that the first `hi` ticks end in begins. */
  function StretchStart(ticks: seq<Tick>, hi: nat): (from: nat)
    requires hi <= |ticks|
    ensures from <= hi
  {
    if hi == 0 then 0 else if SawLeader(ticks[hi - 1]) then hi else StretchStart(ticks, hi - 1)
  }

  /** A leaderless promotion since tick `from`. */
  predicate InStretch(r: Promotion, from: nat) {
    r.kind == Leaderless && r.tick >= from
  }

  /** When each pod was last tried, going by the first `hi` promotions of a stretch. */
  function Attempts(promotions: seq<Promotion>, from: nat, hi: nat): map<string, nat>
    requires hi <= |promotions|
  {
    if hi == 0 then map[]
    else
      var r := promotions[hi - 1];
      var before := Attempts(promotions, from, hi - 1);
      if InStretch(r, from) then before[r.pod := r.pollStart] else before
  }

  lemma {:induction false} StretchStays(ticks: seq<Tick>, t: Tick, hi: nat)
    requires hi <= |ticks|
    ensures StretchStart(ticks + [t], hi) == StretchStart(ticks, hi)
  {
    if hi > 0 {
      StretchStays(ticks, t, hi - 1);
    }
  }

  ghost predicate SameRequests(a: seq<Promotion>, b: seq<Promotion>) {
    |a| <= |b| && forall i | 0 <= i < |a| ::
      a[i].kind == b[i].kind && a[i].pod == b[i].pod && a[i].tick == b[i].tick && a[i].pollStart == b[i].pollStart
  }

  lemma {:induction false} AttemptsSame(a: seq<Promotion>, b: seq<Promotion>, from: nat, hi: nat)
    requires SameRequests(a, b) && hi <= |a|
    ensures Attempts(a, from, hi) == Attempts(b, from, hi)
  {
    if hi > 0 {
      AttemptsSame(a, b, from, hi - 1);
    }
  }

  lemma {:induction false} NoAttemptsYet(promotions: seq<Promotion>, from: nat, hi: nat)
    requires hi <= |promotions| && forall i | 0 <= i < hi :: promotions[i].tick < from
    ensures Attempts(promotions, from, hi) == map[]
  {
    if hi > 0 {
      NoAttemptsYet(promotions, from, hi - 1);
    }
  }

  /** The attempts map is exactly the record of the stretch, now and at each promotion. */
  ghost predicate AttemptsRecorded(s: Sys) {
    && s.st.promoteAttempts == Attempts(s.promotions, StretchStart(s.ticks, |s.ticks|), |s.promotions|)
    && (forall j | 0 <= j < |s.promotions| :: AttemptsUsed(s, j))
    && (s.pc.Ready? && s.pc.dec.liveLeaderCount == 0 ==>
          && s.pc.tick == |s.ticks| - 1 && s.ticks[s.pc.tick].Decided?
          && s.ticks[s.pc.tick].dec == s.pc.dec
          && s.ticks[s.pc.tick].before.promoteAttempts == s.st.promoteAttempts)
  }

  ghost predicate AttemptsUsed(s: Sys, j: nat)
    requires j < |s.promotions|
  {
    var r := s.promotions[j];
    r.tick < |s.ticks| && (r.kind == Leaderless ==>
      && s.ticks[r.tick].Decided?
      && s.ticks[r.tick].before.promoteAttempts == Attempts(s.promotions, StretchStart(s.ticks, r.tick), j))
  }

  lemma UsedStays(s: Sys, t: Sys, j: nat)
    requires j < |s.promotions| && AttemptsUsed(s, j) && SameRequests(s.promotions, t.promotions)
    requires t.ticks == s.ticks || exists tick :: t.ticks == s.ticks + [tick]
    ensures AttemptsUsed(t, j)
  {
    var r := s.promotions[j];
    AttemptsSame(s.promotions, t.promotions, StretchStart(s.ticks, r.tick), j);
    if t.ticks != s.ticks {
      var tick :| t.ticks == s.ticks + [tick];
      StretchStays(s.ticks, tick, r.tick);
    }
  }

  lemma RecordedFrame(s: Sys, t: Sys)
    requires AttemptsRecorded(s) && t.ticks == s.ticks && t.st.promoteAttempts == s.st.promoteAttempts
    requires |t.promotions| == |s.promotions| && SameRequests(s.promotions, t.promotions)
    requires t.pc.Ready? ==> t.pc == s.pc
    ensures AttemptsRecorded(t)
  {
    AttemptsSame(s.promotions, t.promotions, StretchStart(s.ticks, |s.ticks|), |s.promotions|);
    forall j | 0 <= j < |t.promotions| ensures AttemptsUsed(t, j) {
      UsedStays(s, t, j);
    }
  }

  lemma RecordedTick(s: Sys, t: Sys, tick: Tick)
    requires AttemptsRecorded(s) && t.ticks == s.ticks + [tick] && t.promotions == s.promotions
    requires t.st.promoteAttempts == if SawLeader(tick) then map[] else s.st.promoteAttempts
    requires t.pc.Ready? && t.pc.dec.liveLeaderCount == 0 ==>
               t.pc.tick == |s.ticks| && tick.Decided? && tick.dec == t.pc.dec
               && tick.before.promoteAttempts == t.st.promoteAttempts
    ensures AttemptsRecorded(t)
  {
    StretchStays(s.ticks, tick, |s.ticks|);
    forall j | 0 <= j < |t.promotions| ensures AttemptsUsed(t, j) {
      UsedStays(s, t, j);
    }
    if SawLeader(tick) {
      forall j | 0 <= j < |s.promotions| ensures s.promotions[j].tick < |t.ticks| {
        assert AttemptsUsed(s, j);
      }
      NoAttemptsYet(t.promotions, |t.ticks|, |t.promotions|);
    }
  }

  lemma RecordedIssue(s: Sys, t: Sys, pod: string)
    requires AttemptsRecorded(s) && s.pc.Ready? && s.pc.dec.liveLeaderCount == 0
    requires t.ticks == s.ticks && t.promotions == s.promotions && !t.pc.Ready?
    requires t.st.promoteAttempts == s.st.promoteAttempts[pod := s.pc.pollStart]
    ensures AttemptsRecorded(Started(t, Leaderless, pod, s.pc.tick, s.pc.pollStart))
  {
    var u := Started(t, Leaderless, pod, s.pc.tick, s.pc.pollStart);
    var n, from := |s.promotions|, StretchStart(s.ticks, |s.ticks|);
    AttemptsSame(s.promotions, u.promotions, from, n);
    assert !SawLeader(s.ticks[s.pc.tick]);
    assert from == StretchStart(s.ticks, s.pc.tick);
    forall j | 0 <= j < |u.promotions| ensures AttemptsUsed(u, j) {
      if j < n {
        UsedStays(s, u, j);
      }
    }
  }

  lemma AttemptsByActuate(s: Sys, cfg: Config)
    requires AttemptsRecorded(s) && Enabled(s, Actuate)
    ensures AttemptsRecorded(DoActuate(s, cfg))
  {
    var pc, t := s.pc, DoActuate(s, cfg);
    if !pc.isEmpty && pc.dec.liveLeaderCount == 0 {
      var e := ActLeaderless(s.st, pc.dec, pc.streak, pc.retain, pc.pollStart, cfg);
      if e.promote.Some? {
        var t0 := s.(st := e.state, pc := Idle, clears := t.clears);
        RecordedIssue(s, t0, e.promote.value.be.pod);
        assert t == Started(t0, Leaderless, e.promote.value.be.pod, pc.tick, pc.pollStart);
      } else {
        RecordedFrame(s, t);
      }
    } else {
      RecordedFrame(s, t);
    }
  }

  lemma AttemptsByFailback(s: Sys)
    requires AttemptsRecorded(s) && Enabled(s, TryFailback) && s.pc.tick < |s.ticks|
    ensures AttemptsRecorded(DoTryFailback(s))
  {
    var t := DoTryFailback(s);
    var n, from := |s.promotions|, StretchStart(s.ticks, |s.ticks|);
    AttemptsSame(s.promotions, t.promotions, from, n);
    forall j | 0 <= j < |t.promotions| ensures AttemptsUsed(t, j) {
      if j < n {
        UsedStays(s, t, j);
      }
    }
  }

  lemma AttemptsFrame(s: Sys, step: Step, cfg: Config)
    requires step.Wait? || step.Discover? || step.FinishPolls?
    ensures var t := Next(s, step, cfg);
            && t.ticks == s.ticks && t.promotions == s.promotions && t.st.promoteAttempts == s.st.promoteAttempts
            && (t.pc.Ready? ==> t.pc == s.pc)
  {}

  lemma AttemptsStep(s: Sys, step: Step, cfg: Config)
    requires Shape(s, cfg) && AttemptsRecorded(s)
    ensures AttemptsRecorded(Next(s, step, cfg))
  {
    if Enabled(s, step) {
      match step
      case Actuate => AttemptsByActuate(s, cfg);
      case TryFailback => AttemptsByFailback(s);
      case Commit =>
        var t := DoCommit(s, cfg);
        RecordedTick(s, t, t.ticks[|s.ticks|]);
      case FailDiscovery => RecordedTick(s, DoFailDiscovery(s), DiscoveryFailed(s.clock));
      case Answer(i, outcome) => RecordedFrame(s, DoAnswer(s, i, outcome));
      case Release(i) => RecordedFrame(s, DoRelease(s, i));
      case _ => AttemptsOther(s, step, cfg);
    }
  }

  lemma AttemptsOther(s: Sys, step: Step, cfg: Config)
    requires AttemptsRecorded(s) && (step.Wait? || step.Discover? || step.FinishPolls?)
    ensures AttemptsRecorded(Next(s, step, cfg))
  {
    AttemptsFrame(s, step, cfg);
    RecordedFrame(s, Next(s, step, cfg));
  }

  lemma {:induction false} RunAttempts(steps: seq<Step>, cfg: Config)
    ensures AttemptsRecorded(Run(steps, cfg))
  {
    if steps != [] {
      var n := |steps| - 1;
      RunAttempts(steps[..n], cfg);
      RunShape(steps[..n], cfg);
      AttemptsStep(Run(steps[..n], cfg), steps[n], cfg);
    }
  }

  // ---- What the attempts map forces

  /** The first `hi` promotions, as far as they belong to the stretch, were polled at strictly
      increasing times. */
  ghost predicate StrictPolls(promotions: seq<Promotion>, from: nat, hi: nat)
    requires hi <= |promotions|
  {
    forall i, j | 0 <= i < j < hi && InStretch(promotions[i], from) && InStretch(promotions[j], from) ::
      promotions[i].pollStart < promotions[j].pollStart
  }

  /** The promotions before `j` in its stretch were polled at strictly increasing times. */
  ghost predicate StrictBefore(s: Sys, j: nat)
    requires j < |s.promotions|
  {
    s.promotions[j].tick < |s.ticks| && StrictPolls(s.promotions, StretchStart(s.ticks, s.promotions[j].tick), j)
  }

  predicate TriedIn(promotions: seq<Promotion>, pod: string, lo: nat, hi: nat) {
    exists m :: lo <= m < hi && m < |promotions| && promotions[m].pod == pod
  }

  /** An entry of the map is the last try of that pod. */
  lemma {:induction false} AttemptsMeaning(promotions: seq<Promotion>, from: nat, hi: nat, pod: string)
    requires hi <= |promotions| && pod in Attempts(promotions, from, hi)
    ensures exists m :: 0 <= m < hi && promotions[m].pod == pod && InStretch(promotions[m], from)
              && promotions[m].pollStart == Attempts(promotions, from, hi)[pod]
  {
    var r := promotions[hi - 1];
    if !(InStretch(r, from) && r.pod == pod) {
      AttemptsMeaning(promotions, from, hi - 1, pod);
    }
  }

  lemma {:induction false} AttemptsKeepsUp(promotions: seq<Promotion>, from: nat, hi: nat, i: nat)
    requires i < hi <= |promotions| && StrictPolls(promotions, from, hi) && InStretch(promotions[i], from)
    ensures promotions[i].pod in Attempts(promotions, from, hi)
    ensures Attempts(promotions, from, hi)[promotions[i].pod] >= promotions[i].pollStart
  {
    if i < hi - 1 {
      AttemptsKeepsUp(promotions, from, hi - 1, i);
    }
  }

  predicate PromotableAt(t: Tick, pod: string) {
    t.Decided? && exists o | o in t.obs :: o.be.pod == pod && IsPromotable(o)
  }

  /** Promotions `i` and `j` are leaderless, with no live leader seen in between. */
  ghost predicate SameStretch(s: Sys, i: nat, j: nat)
    requires i <= j < |s.promotions|
  {
    && s.promotions[i].kind == Leaderless && s.promotions[j].kind == Leaderless
    && s.promotions[j].tick < |s.ticks|
    && s.promotions[i].tick >= StretchStart(s.ticks, s.promotions[j].tick)
  }

  /** The pod of a leaderless promotion was tried no more recently than any other promotable pod. */
  lemma ChosenIsLeastRecent(s: Sys, cfg: Config, j: nat, q: string)
    requires Shape(s, cfg) && AllCaused(s, cfg) && AttemptsRecorded(s)
    requires j < |s.promotions| && s.promotions[j].kind == Leaderless
    requires s.promotions[j].tick < |s.ticks| && PromotableAt(s.ticks[s.promotions[j].tick], q)
    requires q != s.promotions[j].pod
    ensures var tried := Attempts(s.promotions, StretchStart(s.ticks, s.promotions[j].tick), j);
            var p := s.promotions[j].pod;
            p in tried ==> q in tried && tried[p] <= tried[q]
  {
    var r := s.promotions[j];
    var t := s.ticks[r.tick];
    assert Caused(s, r, cfg) && AttemptsUsed(s, j);
    var x :| x in t.obs && x.be.pod == q && IsPromotable(x);
    LeastRecentOf(t, cfg, t.dec.promoteTarget.value, x);
  }

  lemma LeastRecentOf(t: Tick, cfg: Config, o: Observation, x: Observation)
    requires TickOk(t, cfg) && t.Decided? && t.dec.promoteTarget == Some(o)
    requires x in t.obs && IsPromotable(x) && x != o
    ensures LessRecentlyAttempted(o, x, t.before.promoteAttempts)
  {
    PromotionExact(t.obs, ParamsOf(t.before, t.now, cfg), o);
  }

  /** A pod is promoted again only after every other pod that is promotable then has been
      tried since. */
  lemma NoRepeatBeforeOthers(s: Sys, cfg: Config, i: nat, j: nat, q: string)
    requires Shape(s, cfg) && AllCaused(s, cfg) && AttemptsRecorded(s)
    requires i < j < |s.promotions| && SameStretch(s, i, j) && s.promotions[i].pod == s.promotions[j].pod
    requires StrictBefore(s, j)
    requires PromotableAt(s.ticks[s.promotions[j].tick], q) && q != s.promotions[j].pod
    ensures TriedIn(s.promotions, q, i, j)
  {
    var from := StretchStart(s.ticks, s.promotions[j].tick);
    ChosenIsLeastRecent(s, cfg, j, q);
    AttemptsKeepsUp(s.promotions, from, j, i);
    AttemptsMeaning(s.promotions, from, j, q);
    var m :| 0 <= m < j && s.promotions[m].pod == q && InStretch(s.promotions[m], from)
             && s.promotions[m].pollStart == Attempts(s.promotions, from, j)[q];
    assert m >= i;
  }

  lemma {:induction false} Pigeonhole(xs: seq<string>, holes: set<string>)
    requires forall i | 0 <= i < |xs| :: xs[i] in holes
    requires forall i, j | 0 <= i < j < |xs| :: xs[i] != xs[j]
    ensures |xs| <= |holes|
  {
    if xs != [] {
      var n := |xs| - 1;
      Pigeonhole(xs[..n], holes - {xs[n]});
    }
  }

  /** `n` consecutive promotions of one stretch, of at most `n` pods, at each of which pod `q`
      was promotable; the stretch was polled at strictly increasing times. */
  ghost predicate Window(s: Sys, a: nat, n: nat, q: string, pods: set<string>) {
    && 0 < n && a + n <= |s.promotions| && |pods| <= n && q in pods
    && (forall i, j | a <= i <= j < a + n :: SameStretch(s, i, j))
    && (forall i | a <= i < a + n ::
          s.promotions[i].pod in pods && s.promotions[i].tick < |s.ticks| && StrictBefore(s, i)
          && PromotableAt(s.ticks[s.promotions[i].tick], q))
  }

  /** As long as `q` goes untried, no pod is tried twice. */
  lemma NoRepeatInWindow(s: Sys, cfg: Config, a: nat, n: nat, q: string, pods: set<string>, i: nat, j: nat)
    requires Shape(s, cfg) && AllCaused(s, cfg) && AttemptsRecorded(s)
    requires Window(s, a, n, q, pods) && a <= i < j < a + n && !TriedIn(s.promotions, q, a, a + n)
    ensures s.promotions[i].pod != s.promotions[j].pod && s.promotions[i].pod != q
  {
    assert SameStretch(s, i, j);
    if s.promotions[i].pod == s.promotions[j].pod {
      NoRepeatBeforeOthers(s, cfg, i, j, q);
    }
  }

  lemma WindowFits(window: seq<Promotion>, q: string, pods: set<string>)
    requires q in pods && forall r | r in window :: r.pod in pods && r.pod != q
    requires forall i, j | 0 <= i < j < |window| :: window[i].pod != window[j].pod
    ensures |window| < |pods|
  {
    var tried := seq(|window|, k requires 0 <= k < |window| => window[k].pod);
    Pigeonhole(tried, pods - {q});
  }

  /** With at most N pods, a pod that is promotable at each of N consecutive leaderless
      promotions of one stretch is promoted by one of them. */
  lemma TriedWithinN(s: Sys, cfg: Config, a: nat, n: nat, q: string, pods: set<string>)
    requires Shape(s, cfg) && AllCaused(s, cfg) && AttemptsRecorded(s)
    requires Window(s, a, n, q, pods)
    ensures TriedIn(s.promotions, q, a, a + n)
  {
    if !TriedIn(s.promotions, q, a, a + n) {
      forall i, j | a <= i < j < a + n ensures s.promotions[i].pod != s.promotions[j].pod {
        NoRepeatInWindow(s, cfg, a, n, q, pods, i, j);
      }
      WindowFits(s.promotions[a..a + n], q, pods);
    }
  }

  /** In every run: with at most N pods, a pod that stays promotable through N consecutive
      promotions of a leaderless stretch, polled at strictly increasing times, is promoted by one
      of them. */
  lemma PromotionsRotate(steps: seq<Step>, cfg: Config, a: nat, n: nat, q: string, pods: set<string>)
    requires Window(Run(steps, cfg), a, n, q, pods)
    ensures TriedIn(Run(steps, cfg).promotions, q, a, a + n)
  {
    RunShape(steps, cfg);
    RunCaused(steps, cfg);
    RunAttempts(steps, cfg);
    TriedWithinN(Run(steps, cfg), cfg, a, n, q, pods);
  }

  /** In every run, no pod is promoted twice in a leaderless stretch, polled at strictly
      increasing times, before every other pod that is promotable at the second promotion has
      been tried in between. */
  lemma NoPromotionRepeats(steps: seq<Step>, cfg: Config, i: nat, j: nat, q: string)
    requires i < j < |Run(steps, cfg).promotions| && SameStretch(Run(steps, cfg), i, j)
    requires StrictBefore(Run(steps, cfg), j)
    requires Run(steps, cfg).promotions[i].pod == Run(steps, cfg).promotions[j].pod != q
    requires PromotableAt(Run(steps, cfg).ticks[Run(steps, cfg).promotions[j].tick], q)
    ensures TriedIn(Run(steps, cfg).promotions, q, i, j)
  {
    RunShape(steps, cfg);
    RunCaused(steps, cfg);
    RunAttempts(steps, cfg);
    NoRepeatBeforeOthers(Run(steps, cfg), cfg, i, j, q);
  }
}
