/** Why the controller acted: every promotion, and every clearing of the published leader, is
    tied to the recorded tick that asked for it. */
module ElectionCauses {
  import opened Controller
  import opened ElectionSystem
  import opened ElectionShape

  /** The tick that issued the promotion asked for exactly this pod. */
  ghost predicate Caused(s: Sys, r: Promotion, cfg: Config) {
    && r.tick < |s.ticks| && s.ticks[r.tick].Decided? && s.ticks[r.tick].obs != []
    && r.pollStart == s.ticks[r.tick].pollStart
    && var t := s.ticks[r.tick];
       match r.kind
       case Leaderless =>
         && t.dec.liveLeaderCount == 0 && t.streak >= cfg.promoteDebounce && !t.retain
         && t.dec.promoteTarget.Some? && t.dec.promoteTarget.value.be.pod == r.pod
       case ToFailback =>
         && t.dec.liveLeaderCount > 0
         && t.dec.failbackTarget.Some? && t.dec.failbackTarget.value.be.pod == r.pod
  }

  /** The tick that cleared the leader was empty for long enough, or leaderless for long
      enough with no incumbent to retain. */
  ghost predicate ClearCaused(s: Sys, c: nat, cfg: Config) {
    && c < |s.ticks| && s.ticks[c].Decided?
    && var t := s.ticks[c];
       if t.obs == [] then t.emptyStreak >= cfg.emptyDiscoveryDebounce
       else t.dec.liveLeaderCount == 0 && t.streak >= cfg.promoteDebounce && !t.retain
  }

  ghost predicate AllCaused(s: Sys, cfg: Config) {
    && (forall i | 0 <= i < |s.promotions| :: Caused(s, s.promotions[i], cfg))
    && (forall i | 0 <= i < |s.clears| :: ClearCaused(s, s.clears[i], cfg))
  }

  lemma CausesStay(s: Sys, t: Sys, cfg: Config)
    requires AllCaused(s, cfg) && s.ticks <= t.ticks && t.clears == s.clears
    requires |t.promotions| == |s.promotions|
    requires forall i | 0 <= i < |s.promotions| ::
               t.promotions[i].tick == s.promotions[i].tick && t.promotions[i].pollStart == s.promotions[i].pollStart
               && t.promotions[i].kind == s.promotions[i].kind && t.promotions[i].pod == s.promotions[i].pod
    ensures AllCaused(t, cfg)
  {
    forall i | 0 <= i < |s.promotions| ensures Caused(t, t.promotions[i], cfg) {
      assert Caused(s, s.promotions[i], cfg);
    }
    forall i | 0 <= i < |s.clears| ensures ClearCaused(t, t.clears[i], cfg) {
      assert ClearCaused(s, s.clears[i], cfg);
    }
  }

  lemma CausesLeaderless(s: Sys, cfg: Config)
    requires Shape(s, cfg) && AllCaused(s, cfg) && s.pc.Ready? && !s.pc.isEmpty && s.pc.dec.liveLeaderCount == 0
    ensures AllCaused(ActuateLeaderless(s, cfg), cfg)
  {
    var t := ActuateLeaderless(s, cfg);
    assert t.ticks == s.ticks;
    forall i | 0 <= i < |t.promotions| ensures Caused(t, t.promotions[i], cfg) {
      if i < |s.promotions| {
        assert Caused(s, s.promotions[i], cfg);
      }
    }
    forall i | 0 <= i < |t.clears| ensures ClearCaused(t, t.clears[i], cfg) {
      if i < |s.clears| {
        assert ClearCaused(s, s.clears[i], cfg);
      }
    }
  }

  lemma CausesActuate(s: Sys, cfg: Config)
    requires Shape(s, cfg) && AllCaused(s, cfg) && Enabled(s, Actuate)
    ensures AllCaused(DoActuate(s, cfg), cfg)
  {
    if s.pc.isEmpty {
      var t := ActuateEmpty(s, cfg);
      forall i | 0 <= i < |t.clears| ensures ClearCaused(t, t.clears[i], cfg) {
        assert i < |s.clears| ==> ClearCaused(s, s.clears[i], cfg);
      }
      assert forall i | 0 <= i < |t.promotions| :: Caused(s, s.promotions[i], cfg);
    } else if s.pc.dec.liveLeaderCount == 0 {
      CausesLeaderless(s, cfg);
    } else {
      CausesStay(s, ActuateLeaderful(s), cfg);
    }
  }

  lemma NoTargetWhenEmpty(t: Tick, cfg: Config)
    requires TickOk(t, cfg) && t.Decided? && t.obs == []
    ensures t.dec.liveLeaderCount == 0 && t.dec.promoteTarget.None? && t.dec.failbackTarget.None?
  {}

  lemma CausesFailback(s: Sys, cfg: Config)
    requires Shape(s, cfg) && AllCaused(s, cfg) && Enabled(s, TryFailback)
    ensures AllCaused(DoTryFailback(s), cfg)
  {
    var t, pc := DoTryFailback(s), s.pc;
    assert t.ticks == s.ticks && TickOk(s.ticks[pc.tick], cfg);
    if s.ticks[pc.tick].obs == [] {
      NoTargetWhenEmpty(s.ticks[pc.tick], cfg);
    }
    forall i | 0 <= i < |t.promotions| ensures Caused(t, t.promotions[i], cfg) {
      if i < |s.promotions| {
        assert Caused(s, s.promotions[i], cfg);
      }
    }
    forall i | 0 <= i < |t.clears| ensures ClearCaused(t, t.clears[i], cfg) {
      assert ClearCaused(s, s.clears[i], cfg);
    }
  }

  lemma CausesStep(s: Sys, step: Step, cfg: Config)
    requires Shape(s, cfg) && AllCaused(s, cfg)
    ensures AllCaused(Next(s, step, cfg), cfg)
  {
    if Enabled(s, step) {
      match step
      case Actuate => CausesActuate(s, cfg);
      case TryFailback => CausesFailback(s, cfg);
      case Answer(i, outcome) => CausesStay(s, DoAnswer(s, i, outcome), cfg);
      case Release(i) => CausesStay(s, DoRelease(s, i), cfg);
      case _ =>
        PromotionFrame(s, step, cfg);
        CausesStay(s, Next(s, step, cfg), cfg);
    }
  }

  lemma {:induction false} RunCaused(steps: seq<Step>, cfg: Config)
    ensures AllCaused(Run(steps, cfg), cfg)
  {
    if steps != [] {
      var n := |steps| - 1;
      RunCaused(steps[..n], cfg);
      RunShape(steps[..n], cfg);
      CausesStep(Run(steps[..n], cfg), steps[n], cfg);
    }
  }

  lemma PublishedFrame(s: Sys, step: Step, cfg: Config)
    requires !step.Actuate?
    ensures Next(s, step, cfg).st.published == s.st.published
  {}

  ghost predicate PublishedFor(s: Sys, t: Sys) {
    s.pc.Ready? &&
    if s.pc.dec.liveLeaderCount > 0
    then t.st.published == Leader(s.pc.dec.leaderPod, s.pc.dec.leaderUrl) && t.clears == s.clears
    else t.st.published == NO_LEADER && t.clears == s.clears + [s.pc.tick]
  }

  lemma PublishedByEmpty(s: Sys, cfg: Config)
    requires s.pc.Ready? && s.pc.dec.liveLeaderCount == 0 && ActuateEmpty(s, cfg).st.published != s.st.published
    ensures PublishedFor(s, ActuateEmpty(s, cfg))
  {}

  lemma PublishedByLeaderless(s: Sys, cfg: Config)
    requires s.pc.Ready? && s.pc.dec.liveLeaderCount == 0 && ActuateLeaderless(s, cfg).st.published != s.st.published
    ensures PublishedFor(s, ActuateLeaderless(s, cfg))
  {
    LeaderlessEffect(s.st, s.pc.dec, s.pc.streak, s.pc.retain, s.pc.pollStart, cfg);
  }

  lemma PublishedByLeaderful(s: Sys)
    requires s.pc.Ready? && s.pc.dec.liveLeaderCount > 0 && ActuateLeaderful(s).st.published != s.st.published
    ensures PublishedFor(s, ActuateLeaderful(s))
  {}

  lemma PublishedByActuate(s: Sys, cfg: Config)
    requires Shape(s, cfg) && s.pc.Ready? && DoActuate(s, cfg).st.published != s.st.published
    ensures PublishedFor(s, DoActuate(s, cfg))
  {
    if s.pc.isEmpty {
      NoTargetWhenEmpty(s.ticks[s.pc.tick], cfg);
      PublishedByEmpty(s, cfg);
    } else if s.pc.dec.liveLeaderCount == 0 {
      PublishedByLeaderless(s, cfg);
    } else {
      PublishedByLeaderful(s);
    }
  }

  /** What the registry is told changes only to the leader a tick elected, or to nobody by a
      clearing that is on record. */
  lemma PublishedChanges(s: Sys, step: Step, cfg: Config)
    requires Shape(s, cfg) && Next(s, step, cfg).st.published != s.st.published
    ensures step.Actuate? && PublishedFor(s, Next(s, step, cfg))
  {
    if step.Actuate? {
      if s.pc.Ready? {
        PublishedByActuate(s, cfg);
      }
    } else {
      PublishedFrame(s, step, cfg);
    }
  }
}
