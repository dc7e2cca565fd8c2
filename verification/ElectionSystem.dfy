/** One deployment's election as a step system: the reconcile loop, cut where it releases the
    lock, interleaved with the actuation goroutines it has started. Every step is total (a step
    that is not enabled changes nothing), so a run is any sequence of steps. The last fields
    of the state are a record of what happened; no step reads them. */
module ElectionSystem {
  import opened Prelude
  import opened Decide
  import opened Controller

  /** Where the reconcile loop is. */
  datatype Pc =
    | Idle
    | Polling(pods: seq<Backend>, pollStart: nat)
    | Polled(obs: seq<Observation>, pollStart: nat, now: nat)
    | Ready(tick: nat, dec: Decision, streak: nat, emptyStreak: nat, retain: bool, isEmpty: bool, pollStart: nat)
    | FailingBack(tick: nat, target: Observation, pollStart: nat)

  /** A running actuation goroutine. `issue` indexes `promotions`; `done` says that the
      answer has been recorded and only the release is left. */
  datatype Flight =
    | Promoting(issue: nat, pod: string, done: bool)
    | Demoting(targets: seq<DemoteTarget>)

  datatype Kind = Leaderless | ToFailback

  /** A promotion that was issued in tick `tick`, and what became of it; `marksBefore`
      and `pollsBefore` count the marks and polls recorded when it was issued. */
  datatype Promotion = Promotion(
    kind: Kind,
    pod: string,
    tick: nat,
    pollStart: nat,
    issuedAt: nat,
    marksBefore: nat,
    pollsBefore: nat,
    recordedAt: Option<nat>,
    releasedAt: Option<nat>)

  /** One reconcile as it was decided: a failed discovery, or the remembered observations,
      the state the decision was taken from, and the outcome of the commit. */
  datatype Tick =
    | DiscoveryFailed(at: nat)
    | Decided(pollStart: nat, now: nat, obs: seq<Observation>, before: DState, dec: Decision,
              streak: nat, emptyStreak: nat, retain: bool)

  /** A pod marked as possibly mid-promotion when a promote was answered or sent. */
  datatype Mark = Mark(pod: string, at: nat)

  /** The observations of one poll, as remembered, and the time it started. */
  datatype Poll = Poll(start: nat, obs: seq<Observation>)

  datatype Sys = Sys(
    st: DState,
    clock: nat,
    pc: Pc,
    flights: seq<Flight>,
    ticks: seq<Tick>,
    polls: seq<Poll>,
    marks: seq<Mark>,
    promotions: seq<Promotion>,
    clears: seq<nat>)

  datatype Step =
    | Wait(duration: nat)
    | FailDiscovery
    | Discover(pods: seq<Backend>)
    | FinishPolls(answers: seq<Option<Leadership>>)
    | Commit
    | Actuate
    | TryFailback
    | Answer(flight: nat, outcome: PostOutcome)
    | Release(flight: nat)

  const START := Sys(INITIAL, 0, Idle, [], [], [], [], [], [])

  predicate DistinctBackends(pods: seq<Backend>) {
    forall i, j | 0 <= i < j < |pods| :: pods[i].pod != pods[j].pod
  }

  const SILENT := Leadership("", false, 0, None, None, false)

  /** What pollAll returns: one observation per pod, unreachable when the poll failed. */
  function PollAnswers(pods: seq<Backend>, answers: seq<Option<Leadership>>): (obs: seq<Observation>)
    requires |answers| == |pods|
    ensures |obs| == |pods|
    ensures forall i | 0 <= i < |obs| ::
              && obs[i].be == pods[i] && (obs[i].reach <==> answers[i].Some?) && !obs[i].wasTransitioning
              && (answers[i].Some? ==> obs[i].status == answers[i].value)
  {
    seq(|pods|, i requires 0 <= i < |pods| =>
      match answers[i]
      case None => Observation(pods[i], SILENT, false, false)
      case Some(l) => Observation(pods[i], l, true, false))
  }

  function Started(s: Sys, kind: Kind, pod: string, tick: nat, pollStart: nat): Sys {
    s.(flights := s.flights + [Promoting(|s.promotions|, pod, false)],
       promotions := s.promotions
                     + [Promotion(kind, pod, tick, pollStart, s.clock, |s.marks|, |s.polls|, None, None)])
  }

  function DoFailDiscovery(s: Sys): Sys {
    s.(st := AfterDiscovery(s.st, true), ticks := s.ticks + [DiscoveryFailed(s.clock)])
  }

  function DoDiscover(s: Sys, pods: seq<Backend>): Sys {
    s.(st := AfterDiscovery(s.st, false), pc := Polling(pods, s.clock))
  }

  function DoFinishPolls(s: Sys, answers: seq<Option<Leadership>>, cfg: Config): Sys
    requires s.pc.Polling? && |answers| == |s.pc.pods|
  {
    var (seen, obs) := Remembered(s.st.transitioningSeen, PollAnswers(s.pc.pods, answers), s.pc.pollStart,
                                  cfg.unreachableLeaderGrace);
    s.(st := s.st.(transitioningSeen := seen),
       pc := Polled(obs, s.pc.pollStart, s.clock),
       polls := s.polls + [Poll(s.pc.pollStart, obs)])
  }

  function DoCommit(s: Sys, cfg: Config): Sys
    requires s.pc.Polled?
  {
    var dec := DecisionOf(s.pc.obs, ParamsOf(s.st, s.pc.now, cfg));
    var st := Committed(s.st, dec, s.pc.obs == [], s.pc.now, cfg);
    var retain := Retains(st, dec, s.pc.now, cfg);
    s.(st := st,
       pc := Ready(|s.ticks|, dec, st.leaderlessStreak, st.emptyStreak, retain, s.pc.obs == [], s.pc.pollStart),
       ticks := s.ticks + [Decided(s.pc.pollStart, s.pc.now, s.pc.obs, s.st, dec,
                                   st.leaderlessStreak, st.emptyStreak, retain)])
  }

  function ActuateEmpty(s: Sys, cfg: Config): Sys
    requires s.pc.Ready?
  {
    s.(st := ActEmpty(s.st, s.pc.emptyStreak, cfg), pc := Idle,
       clears := if s.pc.emptyStreak < cfg.emptyDiscoveryDebounce then s.clears else s.clears + [s.pc.tick])
  }

  function ActuateLeaderless(s: Sys, cfg: Config): Sys
    requires s.pc.Ready?
  {
    var pc := s.pc;
    var e := ActLeaderless(s.st, pc.dec, pc.streak, pc.retain, pc.pollStart, cfg);
    var clears := ClearsLeader(s.st, pc.dec, pc.streak, pc.retain, pc.pollStart, cfg);
    var s1 := s.(st := e.state, pc := Idle, clears := if clears then s.clears + [pc.tick] else s.clears);
    if e.promote.None? then s1 else Started(s1, Leaderless, e.promote.value.be.pod, pc.tick, pc.pollStart)
  }

  function ActuateLeaderful(s: Sys): Sys
    requires s.pc.Ready?
  {
    var e := ActLeaderful(s.st, s.pc.dec);
    s.(st := e.state,
       pc := if s.pc.dec.failbackTarget.None? then Idle
             else FailingBack(s.pc.tick, s.pc.dec.failbackTarget.value, s.pc.pollStart),
       flights := if e.demote == [] then s.flights else s.flights + [Demoting(e.demote)])
  }

  /** actEmptyDiscovery, or act up to (and not including) the failback attempt. */
  function DoActuate(s: Sys, cfg: Config): Sys
    requires s.pc.Ready?
  {
    if s.pc.isEmpty then ActuateEmpty(s, cfg)
    else if s.pc.dec.liveLeaderCount == 0 then ActuateLeaderless(s, cfg)
    else ActuateLeaderful(s)
  }

  function DoTryFailback(s: Sys): Sys
    requires s.pc.FailingBack?
  {
    var e := ActFailback(s.st, s.pc.target, s.pc.pollStart);
    var s1 := s.(st := e.state, pc := Idle);
    if e.promote.None? then s1 else Started(s1, ToFailback, s.pc.target.be.pod, s.pc.tick, s.pc.pollStart)
  }

  function DoAnswer(s: Sys, i: nat, outcome: PostOutcome): Sys
    requires i < |s.flights| && s.flights[i].Promoting? && s.flights[i].issue < |s.promotions|
  {
    var f := s.flights[i];
    var s1 := s.(flights := s.flights[i := f.(done := true)]);
    if !MayHaveStarted(outcome) then s1
    else
      s1.(st := Marked(s.st, f.pod, s.clock),
          marks := s.marks + [Mark(f.pod, s.clock)],
          promotions := s.promotions[f.issue := s.promotions[f.issue].(recordedAt := Some(s.clock))])
  }

  function DoRelease(s: Sys, i: nat): Sys
    requires i < |s.flights| && (s.flights[i].Promoting? ==> s.flights[i].issue < |s.promotions|)
  {
    var f := s.flights[i];
    var s1 := s.(flights := s.flights[..i] + s.flights[i + 1..]);
    match f
    case Promoting(issue, pod, done) =>
      s1.(st := s.st.(promoting := false),
          promotions := s.promotions[issue := s.promotions[issue].(releasedAt := Some(s.clock))])
    case Demoting(_) => s1.(st := s.st.(demoting := false))
  }

  predicate Enabled(s: Sys, step: Step) {
    match step
    case Wait(_) => true
    case FailDiscovery => s.pc.Idle?
    case Discover(pods) => s.pc.Idle? && DistinctBackends(pods)
    case FinishPolls(answers) => s.pc.Polling? && |answers| == |s.pc.pods|
    case Commit => s.pc.Polled?
    case Actuate => s.pc.Ready?
    case TryFailback => s.pc.FailingBack?
    case Answer(i, _) =>
      i < |s.flights| && s.flights[i].Promoting? && !s.flights[i].done && s.flights[i].issue < |s.promotions|
    case Release(i) =>
      i < |s.flights|
      && (s.flights[i].Promoting? ==> s.flights[i].done && s.flights[i].issue < |s.promotions|)
  }

  function Next(s: Sys, step: Step, cfg: Config): Sys {
    if !Enabled(s, step) then s
    else
      match step
      case Wait(d) => s.(clock := s.clock + d)
      case FailDiscovery => DoFailDiscovery(s)
      case Discover(pods) => DoDiscover(s, pods)
      case FinishPolls(answers) => DoFinishPolls(s, answers, cfg)
      case Commit => DoCommit(s, cfg)
      case Actuate => DoActuate(s, cfg)
      case TryFailback => DoTryFailback(s)
      case Answer(i, outcome) => DoAnswer(s, i, outcome)
      case Release(i) => DoRelease(s, i)
  }

  /** The state after a sequence of steps, in any interleaving. */
  function Run(steps: seq<Step>, cfg: Config): Sys {
    if steps == [] then START
    else Next(Run(steps[..|steps| - 1], cfg), steps[|steps| - 1], cfg)
  }

  predicate InTick(pc: Pc) {
    pc.Polled? || pc.Ready? || pc.FailingBack?
  }

  lemma ActuateFrame(s: Sys, cfg: Config)
    requires s.pc.Ready?
    ensures var t := DoActuate(s, cfg);
            && t.st.transitioningSeen == s.st.transitioningSeen && t.polls == s.polls && t.marks == s.marks
            && t.ticks == s.ticks && t.clock == s.clock && !t.pc.Polled? && !t.pc.Polling? && !t.pc.Ready?
  {
    if !s.pc.isEmpty && s.pc.dec.liveLeaderCount == 0 {
      LeaderlessEffect(s.st, s.pc.dec, s.pc.streak, s.pc.retain, s.pc.pollStart, cfg);
      assert DoActuate(s, cfg) == ActuateLeaderless(s, cfg);
    }
  }

  /** Only two kinds of step touch the memory of transitions: a poll and an answer. */
  lemma MemoryFrame(s: Sys, step: Step, cfg: Config)
    requires !step.FinishPolls? && !step.Answer?
    ensures var t := Next(s, step, cfg);
            && t.st.transitioningSeen == s.st.transitioningSeen && t.polls == s.polls && t.marks == s.marks
            && (InTick(t.pc) ==> InTick(s.pc))
            && t.clock >= s.clock
  {
    if step.Actuate? {
      if s.pc.Ready? {
        ActuateFrame(s, cfg);
      }
    }
  }

  /** Only three kinds of step write to the record of promotions. */
  lemma PromotionFrame(s: Sys, step: Step, cfg: Config)
    requires !step.Actuate? && !step.TryFailback? && !step.Answer? && !step.Release?
    ensures var t := Next(s, step, cfg);
            && t.promotions == s.promotions && t.clears == s.clears
            && t.flights == s.flights && t.st.promoting == s.st.promoting
            && s.ticks <= t.ticks && s.polls <= t.polls && t.marks == s.marks
            && t.clock >= s.clock
  {}
}
