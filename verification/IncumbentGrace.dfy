/** An incumbent that is discovered but does not answer is kept for exactly the grace. */
module IncumbentGrace {
  import opened Prelude
  import opened Decide
  import opened Controller
  import opened ElectionSystem
  import opened ElectionShape
  import opened ElectionCauses

  /** The tick discovered the incumbent, could not reach it, and saw no live leader. */
  predicate IncumbentSilent(t: Tick) {
    t.Decided? && t.dec.incumbentUnreachable
  }

  /** A successful, non-empty discovery with a live leader, a reachable incumbent, or none. */
  predicate EndsSilence(t: Tick) {
    t.Decided? && t.obs != [] && !t.dec.incumbentUnreachable
  }

  /** The tick that began the silence the first `hi` ticks end in, if they end in one. */
  function Beginning(ticks: seq<Tick>, hi: nat): (f: Option<nat>)
    requires hi <= |ticks|
    ensures f.Some? ==> f.value < hi && IncumbentSilent(ticks[f.value])
  {
    if hi == 0 || EndsSilence(ticks[hi - 1]) then None
    else
      var f := Beginning(ticks, hi - 1);
      if f.None? && IncumbentSilent(ticks[hi - 1]) then Some(hi - 1) else f
  }

  ghost predicate EndedBetween(ticks: seq<Tick>, k: nat, hi: nat)
    requires hi <= |ticks|
  {
    exists e :: k < e < hi && EndsSilence(ticks[e])
  }

  /** What a beginning is: nothing ended the silence since, and every earlier silent tick
      belongs to a silence that ended before it. */
  lemma {:induction false} BeginningMeaning(ticks: seq<Tick>, hi: nat)
    requires hi <= |ticks|
    ensures var f := Beginning(ticks, hi);
            var from := if f.Some? then f.value else hi;
            && (forall k | from <= k < hi :: !EndsSilence(ticks[k]))
            && (forall k | 0 <= k < from && IncumbentSilent(ticks[k]) :: EndedBetween(ticks, k, from))
  {
    if hi > 0 {
      BeginningMeaning(ticks, hi - 1);
      if EndsSilence(ticks[hi - 1]) {
        forall k | 0 <= k < hi && IncumbentSilent(ticks[k]) ensures EndedBetween(ticks, k, hi) {
          assert k < hi - 1 < hi;
        }
      }
    }
  }

  lemma {:induction false} BeginningStays(ticks: seq<Tick>, t: Tick, hi: nat)
    requires hi <= |ticks|
    ensures Beginning(ticks + [t], hi) == Beginning(ticks, hi)
  {
    if hi > 0 {
      BeginningStays(ticks, t, hi - 1);
    }
  }

  ghost predicate SameIncumbent(ticks: seq<Tick>, f: nat, hi: nat, incumbent: string)
    requires hi <= |ticks|
  {
    forall k | f <= k < hi && IncumbentSilent(ticks[k]) :: ticks[k].before.incumbentPod == incumbent
  }

  /** The anchor of the grace clock is the time of the tick that began the current silence, and
      the incumbent of that silence is the incumbent still, unless it has been cleared. */
  ghost predicate Anchored(ticks: seq<Tick>, since: Option<nat>, incumbent: string) {
    match Beginning(ticks, |ticks|)
    case None => since == None
    case Some(f) =>
      && since == Some(ticks[f].now)
      && SameIncumbent(ticks, f, |ticks|, ticks[f].before.incumbentPod)
      && (incumbent == ticks[f].before.incumbentPod || incumbent == "")
  }

  /** What is proved of every recorded tick: it retains the incumbent exactly when the incumbent
      is silent and the silence, all of it with this incumbent, is younger than the grace. */
  ghost predicate RetainsForGrace(ticks: seq<Tick>, i: nat, cfg: Config)
    requires i < |ticks|
  {
    ticks[i].Decided? ==>
      var f := Beginning(ticks, i + 1);
      && (IncumbentSilent(ticks[i]) ==>
            f.Some? && SameIncumbent(ticks, f.value, i + 1, ticks[i].before.incumbentPod))
      && (ticks[i].retain <==>
            IncumbentSilent(ticks[i]) && ticks[i].now - ticks[f.value].now < cfg.unreachableLeaderGrace)
  }

  lemma RetainsStays(ticks: seq<Tick>, t: Tick, i: nat, cfg: Config)
    requires i < |ticks| && RetainsForGrace(ticks, i, cfg)
    ensures RetainsForGrace(ticks + [t], i, cfg)
  {
    BeginningStays(ticks, t, i + 1);
  }

  ghost predicate GraceKept(s: Sys, cfg: Config) {
    && Anchored(s.ticks, s.st.incumbentUnreachableSince, s.st.incumbentPod)
    && (forall i | 0 <= i < |s.ticks| :: RetainsForGrace(s.ticks, i, cfg))
    && (s.pc.Ready? && !s.pc.isEmpty && s.pc.dec.liveLeaderCount > 0 ==> s.st.incumbentUnreachableSince.None?)
  }

  /** A decision calls the incumbent unreachable only when it has one, and sees no claim. */
  lemma SilenceNeedsIncumbent(obs: seq<Observation>, p: DecideParams)
    requires DecisionOf(obs, p).incumbentUnreachable
    ensures p.incumbent != "" && obs != [] && DecisionOf(obs, p).liveLeaderCount == 0
  {
    BestOfNone(Select(obs, Live(p.leaseUnverifiedGrace)), ByLease);
  }

  /** A tick joins the record: the anchor follows it. */
  lemma AnchorTick(ticks: seq<Tick>, t: Tick, since: Option<nat>, incumbent: string)
    requires Anchored(ticks, since, incumbent)
    requires IncumbentSilent(t) ==> t.before.incumbentPod == incumbent != ""
    ensures Anchored(ticks + [t],
                     if IncumbentSilent(t) then if since.None? then Some(t.now) else since
                     else if EndsSilence(t) then None else since,
                     incumbent)
    ensures IncumbentSilent(t) ==>
              var f := Beginning(ticks + [t], |ticks| + 1);
              f.Some? && SameIncumbent(ticks + [t], f.value, |ticks| + 1, incumbent)
  {
    BeginningStays(ticks, t, |ticks|);
  }

  /** One commit, on the record alone. */
  lemma GraceTick(ticks: seq<Tick>, t: Tick, cfg: Config)
    requires t.Decided?
    requires Anchored(ticks, t.before.incumbentUnreachableSince, t.before.incumbentPod)
    requires t.dec.incumbentUnreachable ==> t.before.incumbentPod != "" && t.obs != []
    requires var st := Committed(t.before, t.dec, t.obs == [], t.now, cfg);
             t.retain == Retains(st, t.dec, t.now, cfg)
    ensures Anchored(ticks + [t], UnreachableSinceAfter(t.before, t.dec, t.obs == [], t.now), t.before.incumbentPod)
    ensures RetainsForGrace(ticks + [t], |ticks|, cfg)
  {
    AnchorTick(ticks, t, t.before.incumbentUnreachableSince, t.before.incumbentPod);
  }

  lemma GraceCommit(s: Sys, cfg: Config)
    requires Shape(s, cfg) && GraceKept(s, cfg) && Enabled(s, Commit)
    ensures GraceKept(DoCommit(s, cfg), cfg)
  {
    var u := DoCommit(s, cfg);
    var t := u.ticks[|s.ticks|];
    var p := ParamsOf(s.st, s.pc.now, cfg);
    if t.dec.incumbentUnreachable {
      SilenceNeedsIncumbent(s.pc.obs, p);
    }
    GraceTick(s.ticks, t, cfg);
    forall i | 0 <= i < |u.ticks| ensures RetainsForGrace(u.ticks, i, cfg) {
      if i < |s.ticks| {
        RetainsStays(s.ticks, t, i, cfg);
      }
    }
  }

  lemma GraceFailure(s: Sys, cfg: Config)
    requires GraceKept(s, cfg) && Enabled(s, FailDiscovery)
    ensures GraceKept(DoFailDiscovery(s), cfg)
  {
    var t := DiscoveryFailed(s.clock);
    AnchorTick(s.ticks, t, s.st.incumbentUnreachableSince, s.st.incumbentPod);
    forall i | 0 <= i < |s.ticks| + 1 ensures RetainsForGrace(s.ticks + [t], i, cfg) {
      if i < |s.ticks| {
        RetainsStays(s.ticks, t, i, cfg);
      }
    }
  }

  lemma IncumbentByActuate(s: Sys, cfg: Config)
    requires s.pc.Ready?
    ensures var t := DoActuate(s, cfg);
            && t.ticks == s.ticks && t.st.incumbentUnreachableSince == s.st.incumbentUnreachableSince && !t.pc.Ready?
            && (t.st.incumbentPod == s.st.incumbentPod || t.st.incumbentPod == ""
                || (!s.pc.isEmpty && s.pc.dec.liveLeaderCount > 0))
  {
    if !s.pc.isEmpty && s.pc.dec.liveLeaderCount == 0 {
      LeaderlessEffect(s.st, s.pc.dec, s.pc.streak, s.pc.retain, s.pc.pollStart, cfg);
      assert DoActuate(s, cfg) == ActuateLeaderless(s, cfg);
    }
  }

  lemma GraceActuate(s: Sys, cfg: Config)
    requires GraceKept(s, cfg) && Enabled(s, Actuate)
    ensures GraceKept(DoActuate(s, cfg), cfg)
  {
    IncumbentByActuate(s, cfg);
  }

  lemma IncumbentFrame(s: Sys, step: Step, cfg: Config)
    requires !step.FailDiscovery? && !step.Commit? && !step.Actuate?
    ensures var t := Next(s, step, cfg);
            && t.ticks == s.ticks && t.st.incumbentPod == s.st.incumbentPod
            && t.st.incumbentUnreachableSince == s.st.incumbentUnreachableSince
            && (t.pc.Ready? ==> t.pc == s.pc)
  {}

  lemma GraceStep(s: Sys, step: Step, cfg: Config)
    requires Shape(s, cfg) && GraceKept(s, cfg)
    ensures GraceKept(Next(s, step, cfg), cfg)
  {
    if Enabled(s, step) {
      match step
      case Commit => GraceCommit(s, cfg);
      case FailDiscovery => GraceFailure(s, cfg);
      case Actuate => GraceActuate(s, cfg);
      case _ => IncumbentFrame(s, step, cfg);
    }
  }

  lemma {:induction false} RunGrace(steps: seq<Step>, cfg: Config)
    ensures GraceKept(Run(steps, cfg), cfg)
  {
    if steps != [] {
      var n := |steps| - 1;
      RunGrace(steps[..n], cfg);
      RunShape(steps[..n], cfg);
      GraceStep(Run(steps[..n], cfg), steps[n], cfg);
    }
  }

  /** Tick `f` began the silence that tick `i` belongs to: it was silent, no tick since ended the
      silence, and every earlier silent tick belongs to a silence that ended before. */
  ghost predicate SilenceBegan(ticks: seq<Tick>, f: nat, i: nat)
    requires i < |ticks|
  {
    && f <= i && IncumbentSilent(ticks[f])
    && (forall k | f <= k <= i :: !EndsSilence(ticks[k]))
    && forall k | 0 <= k < f && IncumbentSilent(ticks[k]) :: EndedBetween(ticks, k, f)
  }

  /** Nothing was promoted or cleared on account of tick `i`. */
  ghost predicate LeftAlone(s: Sys, i: nat) {
    (forall r | r in s.promotions :: r.tick != i) && i !in s.clears
  }

  /** A silent tick retains the incumbent exactly while the silence, all of it with this
      incumbent, is younger than the grace; no other tick does. A tick that retains neither
      promotes another pod nor clears the leader. */
  ghost predicate KeptForGrace(s: Sys, i: nat, cfg: Config)
    requires i < |s.ticks| && s.ticks[i].Decided?
  {
    var t := s.ticks[i];
    && (t.retain ==> IncumbentSilent(t) && LeftAlone(s, i))
    && (IncumbentSilent(t) ==> exists f: nat | SilenceBegan(s.ticks, f, i) ::
          && SameIncumbent(s.ticks, f, i + 1, t.before.incumbentPod)
          && s.ticks[f].Decided? && (t.retain <==> t.now - s.ticks[f].now < cfg.unreachableLeaderGrace))
  }

  lemma SilenceBeginning(ticks: seq<Tick>, i: nat)
    requires i < |ticks| && Beginning(ticks, i + 1).Some?
    ensures SilenceBegan(ticks, Beginning(ticks, i + 1).value, i)
  {
    BeginningMeaning(ticks, i + 1);
  }

  lemma RetainedLeftAlone(s: Sys, i: nat, cfg: Config)
    requires AllCaused(s, cfg) && i < |s.ticks| && s.ticks[i].Decided? && s.ticks[i].retain && s.ticks[i].obs != []
    requires s.ticks[i].dec.liveLeaderCount == 0
    ensures LeftAlone(s, i)
  {
    forall r | r in s.promotions ensures r.tick != i {
      var k :| 0 <= k < |s.promotions| && s.promotions[k] == r;
      assert Caused(s, s.promotions[k], cfg);
    }
  }

  lemma TickKept(s: Sys, i: nat, cfg: Config)
    requires Shape(s, cfg) && AllCaused(s, cfg) && i < |s.ticks| && s.ticks[i].Decided?
    requires RetainsForGrace(s.ticks, i, cfg)
    ensures KeptForGrace(s, i, cfg)
  {
    var t := s.ticks[i];
    if IncumbentSilent(t) {
      SilenceNeedsIncumbent(t.obs, ParamsOf(t.before, t.now, cfg));
      SilenceBeginning(s.ticks, i);
      if t.retain {
        RetainedLeftAlone(s, i, cfg);
      }
    }
  }

  /** In every run, a tick that finds its incumbent silent belongs to one silence, begun by a
      tick with the same incumbent; empty and failed discoveries in between do not restart it.
      The incumbent is retained exactly while that silence is younger than the grace, and a
      tick that retains it neither promotes another pod nor clears the leader. */
  lemma SilentIncumbentKept(steps: seq<Step>, cfg: Config)
    ensures var s := Run(steps, cfg);
            forall i | 0 <= i < |s.ticks| && s.ticks[i].Decided? :: KeptForGrace(s, i, cfg)
  {
    RunGrace(steps, cfg);
    RunShape(steps, cfg);
    RunCaused(steps, cfg);
    var s := Run(steps, cfg);
    forall i | 0 <= i < |s.ticks| && s.ticks[i].Decided? ensures KeptForGrace(s, i, cfg) {
      TickKept(s, i, cfg);
    }
  }
}
