/** Promotions of one deployment never overlap, in any interleaving. */
module SerialPromotions {
  import opened Controller
  import opened ElectionSystem

  /** Every promotion but the newest has been released, and before the next was issued. */
  ghost predicate Queued(promotions: seq<Promotion>, clock: nat) {
    && (forall i | 0 <= i < |promotions| - 1 ::
          promotions[i].releasedAt.Some? && promotions[i].releasedAt.value <= promotions[i + 1].issuedAt)
    && (forall i | 0 <= i < |promotions| ::
          && promotions[i].issuedAt <= clock
          && (promotions[i].releasedAt.Some? ==> promotions[i].issuedAt <= promotions[i].releasedAt.value <= clock)
          && (promotions[i].recordedAt.Some? ==> promotions[i].issuedAt <= promotions[i].recordedAt.value <= clock)
          && (promotions[i].recordedAt.Some? && promotions[i].releasedAt.Some? ==>
                promotions[i].recordedAt.value <= promotions[i].releasedAt.value))
  }

  /** The flag is held exactly by the one running promotion, which is the newest. */
  ghost predicate FlagHeld(s: Sys) {
    && (forall i | 0 <= i < |s.flights| && s.flights[i].Promoting? ::
          && s.st.promoting
          && s.flights[i].issue == |s.promotions| - 1
          && s.promotions[s.flights[i].issue].releasedAt.None?
          && s.promotions[s.flights[i].issue].pod == s.flights[i].pod
          && (!s.flights[i].done ==> s.promotions[s.flights[i].issue].recordedAt.None?))
    && (forall i, j | 0 <= i < j < |s.flights| && s.flights[i].Promoting? :: s.flights[j].Demoting?)
    && (!s.st.promoting ==> forall i | 0 <= i < |s.promotions| :: s.promotions[i].releasedAt.Some?)
  }

  ghost predicate Serial(s: Sys) {
    Queued(s.promotions, s.clock) && FlagHeld(s)
  }

  /** The steps that neither start, answer nor release a promotion. */
  lemma SerialFrame(s: Sys, t: Sys)
    requires Serial(s)
    requires t.promotions == s.promotions && t.st.promoting == s.st.promoting && t.clock >= s.clock
    requires t.flights == s.flights || exists targets :: t.flights == s.flights + [Demoting(targets)]
    ensures Serial(t)
  {}

  lemma SerialStart(s: Sys, t: Sys, kind: Kind, pod: string, tick: nat, pollStart: nat)
    requires Serial(s) && !s.st.promoting
    requires t.promotions == s.promotions && t.flights == s.flights && t.clock == s.clock && t.st.promoting
    ensures Serial(Started(t, kind, pod, tick, pollStart))
  {
    var u := Started(t, kind, pod, tick, pollStart);
    var n := |s.promotions|;
    assert forall i | 0 <= i < n :: u.promotions[i] == s.promotions[i];
    assert forall i | 0 <= i < |s.flights| :: u.flights[i] == s.flights[i] && !s.flights[i].Promoting?;
  }

  lemma SerialActuate(s: Sys, cfg: Config)
    requires Serial(s) && Enabled(s, Actuate)
    ensures Serial(DoActuate(s, cfg))
  {
    var pc, t := s.pc, DoActuate(s, cfg);
    if !pc.isEmpty && pc.dec.liveLeaderCount == 0 {
      var e := ActLeaderless(s.st, pc.dec, pc.streak, pc.retain, pc.pollStart, cfg);
      if e.promote.Some? {
        SerialStart(s, s.(st := e.state, pc := Idle, clears := t.clears), Leaderless, e.promote.value.be.pod, pc.tick,
                    pc.pollStart);
      } else {
        SerialFrame(s, t);
      }
    } else {
      SerialFrame(s, t);
    }
  }

  lemma SerialFailback(s: Sys)
    requires Serial(s) && Enabled(s, TryFailback)
    ensures Serial(DoTryFailback(s))
  {
    var e := ActFailback(s.st, s.pc.target, s.pc.pollStart);
    if e.promote.Some? {
      SerialStart(s, s.(st := e.state, pc := Idle), ToFailback, s.pc.target.be.pod, s.pc.tick, s.pc.pollStart);
    } else {
      SerialFrame(s, DoTryFailback(s));
    }
  }

  lemma SerialAnswer(s: Sys, i: nat, outcome: PostOutcome)
    requires Serial(s) && Enabled(s, Answer(i, outcome))
    ensures Serial(DoAnswer(s, i, outcome))
  {}

  lemma SerialRelease(s: Sys, i: nat)
    requires Serial(s) && Enabled(s, Release(i))
    ensures Serial(DoRelease(s, i))
  {
    var t := DoRelease(s, i);
    assert forall j | 0 <= j < |t.flights| :: t.flights[j] == s.flights[if j < i then j else j + 1];
  }

  lemma SerialStep(s: Sys, step: Step, cfg: Config)
    requires Serial(s)
    ensures Serial(Next(s, step, cfg))
  {
    if Enabled(s, step) {
      match step
      case Actuate => SerialActuate(s, cfg);
      case TryFailback => SerialFailback(s);
      case Answer(i, outcome) => SerialAnswer(s, i, outcome);
      case Release(i) => SerialRelease(s, i);
      case _ => SerialFrame(s, Next(s, step, cfg));
    }
  }

  lemma {:induction false} RunSerial(steps: seq<Step>, cfg: Config)
    ensures Serial(Run(steps, cfg))
  {
    if steps != [] {
      var n := |steps| - 1;
      RunSerial(steps[..n], cfg);
      SerialStep(Run(steps[..n], cfg), steps[n], cfg);
    }
  }

  lemma {:induction false} ReleasedInOrder(promotions: seq<Promotion>, clock: nat, i: nat, j: nat)
    requires Queued(promotions, clock) && i < j < |promotions|
    ensures promotions[i].releasedAt.Some? && promotions[i].releasedAt.value <= promotions[j].issuedAt
    decreases j
  {
    if i + 1 < j {
      ReleasedInOrder(promotions, clock, i, j - 1);
    }
  }

  /** In every run, at most one promotion is running, and each promotion is released before
      any later one is issued. */
  lemma PromotionsNeverOverlap(steps: seq<Step>, cfg: Config)
    ensures var s := Run(steps, cfg);
            && (forall i, j | 0 <= i < j < |s.flights| :: s.flights[i].Demoting? || s.flights[j].Demoting?)
            && (forall i, j | 0 <= i < j < |s.promotions| ::
                  s.promotions[i].releasedAt.Some? && s.promotions[i].releasedAt.value <= s.promotions[j].issuedAt)
  {
    RunSerial(steps, cfg);
    var s := Run(steps, cfg);
    forall i, j | 0 <= i < j < |s.promotions|
      ensures s.promotions[i].releasedAt.Some? && s.promotions[i].releasedAt.value <= s.promotions[j].issuedAt
    {
      ReleasedInOrder(s.promotions, s.clock, i, j);
    }
  }
}
