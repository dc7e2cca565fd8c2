/** The registry of one deployment and one edge tracking it, across registry restarts, with
    stream lines that arrive late, repeatedly or never, and one poll at a time. */
module Agreement {
  import opened Prelude
  import opened LeaderRegistry
  import opened Tracker
  import Streams

  /** One life of the registry: its epoch and every event it published, version i at i - 1. */
  datatype Life = Life(epoch: nat, published: seq<LeaderEvent>)

  /** `from` is the life that answered. */
  datatype Poll = Idle | Asked | Answered(response: Response, from: nat)

  /** `adopted` remembers the lives whose epochs the edge has adopted, in order. */
  datatype System = System(
    dep: Option<Deployment>,
    lives: seq<Life>,
    view: View,
    poll: Poll,
    adopted: seq<nat>)

  datatype Step =
    | Ensure
    | Update(pod: string, url: string)
    | Restart(epoch: nat)
    | StreamLine(life: nat, version: nat)
    | Ask
    | Answer
    | LosePoll
    | ApplyPoll

  function Init(epoch: nat): System {
    System(None, [Life(epoch, [])], NOTHING, Idle, [])
  }

  function Current(s: System): Life
    requires s.lives != []
  {
    s.lives[|s.lives| - 1]
  }

  ghost predicate Enabled(s: System, step: Step)
    requires s.lives != []
  {
    match step
    case Ensure => s.dep.None?
    case Update(_, _) => s.dep.Some?
    case Restart(epoch) => epoch != 0 && forall life | life in s.lives :: life.epoch != epoch
    case StreamLine(life, version) => life < |s.lives| && 1 <= version <= |s.lives[life].published|
    case Ask => s.poll.Idle?
    case Answer => s.poll.Asked?
    case LosePoll => !s.poll.Idle?
    case ApplyPoll => s.poll.Answered?
  }

  function AfterUpdate(s: System, name: string, pod: string, url: string): System
    requires s.lives != [] && s.dep.Some?
  {
    var dep, life := Updated(s.dep.value, pod, url), Current(s);
    var published :=
      if Changed(s.dep.value, pod, url) then life.published + [EventOf(name, dep, life.epoch)] else life.published;
    s.(dep := Some(dep), lives := s.lives[|s.lives| - 1 := Life(life.epoch, published)])
  }

  function AfterPoll(s: System, parses: string -> bool): System
    requires s.poll.Answered?
  {
    var ev := Query(s.poll.response);
    if ev.None? then s.(poll := Idle)
    else
      var view := Applied(s.view, Delivery(ev.value, true), parses);
      s.(poll := Idle, view := view,
         adopted := if view.epoch != s.view.epoch then s.adopted + [s.poll.from] else s.adopted)
  }

  ghost function Next(s: System, name: string, parses: string -> bool, step: Step): (t: System)
    requires s.lives != []
    ensures t.lives != []
  {
    if !Enabled(s, step) then s
    else
      match step
      case Ensure => s.(dep := Some(UNPUBLISHED))
      case Update(pod, url) => AfterUpdate(s, name, pod, url)
      case Restart(epoch) => s.(dep := None, lives := s.lives + [Life(epoch, [])])
      case StreamLine(life, version) =>
        s.(view := Applied(s.view, Delivery(s.lives[life].published[version - 1], false), parses))
      case Ask => s.(poll := Asked)
      case Answer => s.(poll := Answered(GetLeader(name, s.dep, Current(s).epoch), |s.lives| - 1))
      case LosePoll => s.(poll := Idle)
      case ApplyPoll => AfterPoll(s, parses)
  }

  /** The state after a sequence of steps, in any interleaving. */
  ghost function Run(name: string, epoch: nat, parses: string -> bool, steps: seq<Step>): (s: System)
    ensures s.lives != []
  {
    if steps == [] then Init(epoch)
    else Next(Run(name, epoch, parses, steps[..|steps| - 1]), name, parses, steps[|steps| - 1])
  }

  // ---- The invariant

  predicate LifeOk(life: Life) {
    && life.epoch != 0
    && forall i | 0 <= i < |life.published| ::
         life.published[i].version == i + 1 && life.published[i].epoch == life.epoch
  }

  predicate LivesOk(lives: seq<Life>) {
    && lives != []
    && (forall k | 0 <= k < |lives| :: LifeOk(lives[k]))
    && forall j, k | 0 <= j < k < |lives| :: lives[j].epoch != lives[k].epoch
  }

  predicate RegistryOk(s: System, name: string)
    requires s.lives != []
  {
    match s.dep
    case None => Current(s).published == []
    case Some(d) =>
      && DeploymentOk(d) && d.version == |Current(s).published|
      && (d.published ==> Current(s).published[d.version - 1] == EventOf(name, d, Current(s).epoch))
  }

  /** The event is one that the given life published. */
  predicate PublishedIn(ev: LeaderEvent, lives: seq<Life>, k: nat) {
    k < |lives| && 1 <= ev.version <= |lives[k].published| && ev == lives[k].published[ev.version - 1]
  }

  predicate AdoptedOk(s: System) {
    && (forall i | 0 <= i < |s.adopted| :: s.adopted[i] < |s.lives|)
    && forall i, j | 0 <= i < j < |s.adopted| :: s.adopted[i] < s.adopted[j]
  }

  predicate ShowsPublished(view: View, life: Life) {
    && view.epoch == life.epoch && 1 <= view.version <= |life.published|
    && view.url == life.published[view.version - 1].url
  }

  /** The view is what the last adopted life published at the view's version. */
  predicate ViewOk(s: System) {
    if s.adopted == [] then s.view == NOTHING
    else
      var k := s.adopted[|s.adopted| - 1];
      k < |s.lives| && ShowsPublished(s.view, s.lives[k])
  }

  /** An answer under way comes from no earlier life than the last one adopted. */
  predicate PollOk(s: System) {
    s.poll.Answered? ==>
      && s.poll.from < |s.lives|
      && (s.adopted != [] ==> s.adopted[|s.adopted| - 1] <= s.poll.from)
      && (Query(s.poll.response).Some? ==> PublishedIn(Query(s.poll.response).value, s.lives, s.poll.from))
  }

  predicate Sound(s: System, name: string) {
    LivesOk(s.lives) && RegistryOk(s, name) && AdoptedOk(s) && ViewOk(s) && PollOk(s)
  }

  /** Lives only gain events, and new lives come at the end. */
  predicate LivesGrow(a: seq<Life>, b: seq<Life>) {
    && |a| <= |b|
    && forall k | 0 <= k < |a| :: a[k].epoch == b[k].epoch && a[k].published <= b[k].published
  }

  lemma LongerLives(s: System, t: System)
    requires AdoptedOk(s) && ViewOk(s) && PollOk(s) && LivesGrow(s.lives, t.lives)
    requires t.view == s.view && t.poll == s.poll && t.adopted == s.adopted
    ensures AdoptedOk(t) && ViewOk(t) && PollOk(t)
  {}

  lemma UpdatedLife(d: Deployment, life: Life, name: string, pod: string, url: string)
    requires LifeOk(life) && DeploymentOk(d) && d.version == |life.published|
    ensures var dep := Updated(d, pod, url);
            LifeOk(Life(life.epoch, life.published + [EventOf(name, dep, life.epoch)])) || !Changed(d, pod, url)
  {}

  lemma UpdateSound(s: System, name: string, pod: string, url: string)
    requires Sound(s, name) && s.dep.Some?
    ensures Sound(AfterUpdate(s, name, pod, url), name)
  {
    var t := AfterUpdate(s, name, pod, url);
    UpdatedLife(s.dep.value, Current(s), name, pod, url);
    assert LivesOk(t.lives);
    LongerLives(s, t);
  }

  lemma RestartSound(s: System, name: string, epoch: nat)
    requires Sound(s, name) && Enabled(s, Restart(epoch))
    ensures Sound(s.(dep := None, lives := s.lives + [Life(epoch, [])]), name)
  {
    LongerLives(s, s.(dep := None, lives := s.lives + [Life(epoch, [])]));
  }

  /** A stream line changes the view only within the adopted epoch. */
  lemma StreamLineSound(s: System, name: string, parses: string -> bool, life: nat, version: nat)
    requires Sound(s, name) && Enabled(s, StreamLine(life, version))
    ensures Sound(Next(s, name, parses, StreamLine(life, version)), name)
  {
    var ev := s.lives[life].published[version - 1];
    assert LifeOk(s.lives[life]);
    if s.adopted != [] && ev.epoch == s.view.epoch {
      assert s.adopted[|s.adopted| - 1] == life;
    }
  }

  lemma AnswerSound(s: System, name: string)
    requires Sound(s, name)
    ensures PollOk(s.(poll := Answered(GetLeader(name, s.dep, Current(s).epoch), |s.lives| - 1)))
  {
    assert LifeOk(Current(s));
    QueryOfRegistry(name, s.dep, Current(s).epoch);
  }

  /** A poll answered by a life the edge has already adopted brings the same epoch, and one
      answered by a later life another one. */
  lemma PollEpoch(s: System, name: string)
    requires Sound(s, name) && s.poll.Answered? && Query(s.poll.response).Some?
    ensures var ev := Query(s.poll.response).value;
            && ev.version >= 1 && ev.epoch == s.lives[s.poll.from].epoch != 0
            && (s.adopted == [] ==> ev.epoch != s.view.epoch)
            && (s.adopted != [] ==> (ev.epoch == s.view.epoch <==> s.adopted[|s.adopted| - 1] == s.poll.from))
  {
    assert LifeOk(s.lives[s.poll.from]);
  }

  lemma PollSound(s: System, name: string, parses: string -> bool)
    requires Sound(s, name) && s.poll.Answered?
    ensures Sound(AfterPoll(s, parses), name)
  {
    var ev := Query(s.poll.response);
    var t := AfterPoll(s, parses);
    if ev.None? || !Acceptable(ev.value.url, parses) {
      assert t == s.(poll := Idle);
    } else {
      PollEpoch(s, name);
      if ev.value.epoch == s.view.epoch {
        AppliedShows(s.view, ev.value, s.lives[s.poll.from], parses);
        ViewSound(s, name, t.view);
      } else {
        AdoptSound(s, name, s.poll.from, t.view);
      }
    }
  }

  lemma ViewSound(s: System, name: string, view: View)
    requires Sound(s, name) && s.adopted != [] && ShowsPublished(view, s.lives[s.adopted[|s.adopted| - 1]])
    ensures Sound(s.(poll := Idle, view := view), name)
  {}

  lemma AdoptSound(s: System, name: string, k: nat, view: View)
    requires Sound(s, name) && k < |s.lives| && ShowsPublished(view, s.lives[k])
    requires s.adopted != [] ==> s.adopted[|s.adopted| - 1] < k
    ensures Sound(s.(poll := Idle, view := view, adopted := s.adopted + [k]), name)
  {}

  lemma AppliedShows(view: View, ev: LeaderEvent, life: Life, parses: string -> bool)
    requires ShowsPublished(view, life)
    requires 1 <= ev.version <= |life.published| && ev == life.published[ev.version - 1] && ev.epoch == life.epoch
    ensures ShowsPublished(Applied(view, Delivery(ev, true), parses), life)
  {}

  lemma StepSound(s: System, name: string, parses: string -> bool, step: Step)
    requires Sound(s, name)
    ensures Sound(Next(s, name, parses, step), name)
  {
    if Enabled(s, step) {
      match step
      case Ensure =>
      case Update(pod, url) => UpdateSound(s, name, pod, url);
      case Restart(epoch) => RestartSound(s, name, epoch);
      case StreamLine(life, version) => StreamLineSound(s, name, parses, life, version);
      case Ask =>
      case Answer => AnswerSound(s, name);
      case LosePoll =>
      case ApplyPoll => PollSound(s, name, parses);
    }
  }

  lemma {:induction false} RunSound(name: string, epoch: nat, parses: string -> bool, steps: seq<Step>)
    requires epoch != 0
    ensures Sound(Run(name, epoch, parses, steps), name)
  {
    if steps != [] {
      var n := |steps| - 1;
      RunSound(name, epoch, parses, steps[..n]);
      StepSound(Run(name, epoch, parses, steps[..n]), name, parses, steps[n]);
    }
  }

  /** Every frame a stream writes is an event its life of the registry published, so the lines
      that reach the edge are among the ones modelled here. */
  lemma FramesAreLines(name: string, epoch: nat, steps: seq<Streams.Step>, id: nat, i: nat)
    requires id in Streams.Run(name, epoch, steps).subs
    requires i < |Streams.Frames(Streams.Run(name, epoch, steps).subs[id])|
    ensures var s := Streams.Run(name, epoch, steps);
            PublishedIn(Streams.Frames(s.subs[id])[i], [Life(epoch, s.published)], 0)
  {
    Streams.FramesEndAtTheCurrentState(name, epoch, steps, id);
  }

  // ---- What the edge shows

  /** In every run, the edge shows nothing until it adopts an epoch, and from then on exactly
      what the registry published under that epoch at that version. */
  lemma ViewWasPublished(name: string, epoch: nat, parses: string -> bool, steps: seq<Step>)
    requires epoch != 0
    ensures var s := Run(name, epoch, parses, steps);
            s.view == NOTHING || exists life | life in s.lives :: ShowsPublished(s.view, life)
  {
    RunSound(name, epoch, parses, steps);
    var s := Run(name, epoch, parses, steps);
    if s.adopted != [] {
      var k := s.adopted[|s.adopted| - 1];
      assert s.lives[k] in s.lives && ShowsPublished(s.view, s.lives[k]);
    }
  }

  /** How far the edge has come: the life it follows, and the version it has applied. */
  predicate NotBefore(s: System, t: System) {
    s.adopted == [] || (t.adopted != [] &&
      var j, k := s.adopted[|s.adopted| - 1], t.adopted[|t.adopted| - 1];
      j < k || (j == k && s.view.version <= t.view.version))
  }

  lemma StepNotBefore(s: System, name: string, parses: string -> bool, step: Step)
    requires Sound(s, name)
    ensures NotBefore(s, Next(s, name, parses, step))
  {
    if Enabled(s, step) && step.ApplyPoll? {
      PollSound(s, name, parses);
    }
  }

  lemma NotBeforeTransitive(a: System, b: System, c: System)
    requires NotBefore(a, b) && NotBefore(b, c)
    ensures NotBefore(a, c)
  {}

  lemma RunMore(name: string, epoch: nat, parses: string -> bool, steps: seq<Step>, more: seq<Step>)
    requires more != []
    ensures Run(name, epoch, parses, steps + more) ==
            Next(Run(name, epoch, parses, steps + more[..|more| - 1]), name, parses, more[|more| - 1])
  {
    assert (steps + more)[..|steps + more| - 1] == steps + more[..|more| - 1];
  }

  lemma RunStepNotBefore(name: string, epoch: nat, parses: string -> bool, steps: seq<Step>, step: Step)
    requires epoch != 0
    ensures NotBefore(Run(name, epoch, parses, steps), Next(Run(name, epoch, parses, steps), name, parses, step))
  {
    RunSound(name, epoch, parses, steps);
    StepNotBefore(Run(name, epoch, parses, steps), name, parses, step);
  }

  /** The edge never goes back to an earlier life of the registry, nor within one life to an
      earlier version, whatever arrives in whatever order. */
  lemma {:induction false} NeverGoesBack(name: string, epoch: nat, parses: string -> bool,
      steps: seq<Step>, more: seq<Step>)
    requires epoch != 0
    ensures NotBefore(Run(name, epoch, parses, steps), Run(name, epoch, parses, steps + more))
  {
    if more == [] {
      assert steps + more == steps;
    } else {
      var n := |more| - 1;
      var mid := Run(name, epoch, parses, steps + more[..n]);
      NeverGoesBack(name, epoch, parses, steps, more[..n]);
      RunStepNotBefore(name, epoch, parses, steps + more[..n], more[n]);
      RunMore(name, epoch, parses, steps, more);
      NotBeforeTransitive(Run(name, epoch, parses, steps), mid, Next(mid, name, parses, more[n]));
    }
  }

  // ---- One poll is enough

  predicate Quiet(step: Step) {
    !step.Ensure? && !step.Update? && !step.Restart?
  }

  predicate Agrees(s: System, name: string)
    requires s.lives != []
  {
    s.dep.Some? && s.view == View(s.dep.value.url, Current(s).epoch, s.dep.value.version)
  }

  /** While the registry is quiet, an answer to a poll is its current state. */
  predicate CurrentAnswer(s: System, name: string)
    requires s.lives != []
  {
    && s.dep.Some? && s.dep.value.published
    && s.poll == Answered(GetLeader(name, s.dep, Current(s).epoch), |s.lives| - 1)
  }

  lemma PollAgrees(s: System, name: string, parses: string -> bool)
    requires Sound(s, name) && CurrentAnswer(s, name)
    ensures Acceptable(s.dep.value.url, parses) ==> Agrees(AfterPoll(s, parses), name)
  {
    assert LifeOk(Current(s));
    QueryOfRegistry(name, s.dep, Current(s).epoch);
    if s.adopted != [] && s.view.epoch == Current(s).epoch {
      assert s.adopted[|s.adopted| - 1] == |s.lives| - 1;
    }
  }

  lemma QuietKeepsAgreement(s: System, name: string, parses: string -> bool, step: Step)
    requires Sound(s, name) && Agrees(s, name) && Quiet(step)
    ensures Agrees(Next(s, name, parses, step), name)
  {
    assert LifeOk(Current(s));
    if Enabled(s, step) {
      StepSound(s, name, parses, step);
      if step.StreamLine? {
        assert LifeOk(s.lives[step.life]);
      }
    }
  }

  predicate SameRegistry(s: System, t: System) {
    t.dep == s.dep && t.lives == s.lives
  }

  lemma QuietStep(name: string, epoch: nat, parses: string -> bool, steps: seq<Step>, step: Step)
    requires epoch != 0 && Quiet(step)
    ensures var s := Run(name, epoch, parses, steps);
            var t := Next(s, name, parses, step);
            SameRegistry(s, t) && (Agrees(s, name) ==> Agrees(t, name))
  {
    RunSound(name, epoch, parses, steps);
    var s := Run(name, epoch, parses, steps);
    if Agrees(s, name) {
      QuietKeepsAgreement(s, name, parses, step);
    }
  }

  /** Once they agree, edge and registry agree until the registry changes. */
  lemma {:induction false} QuietRun(name: string, epoch: nat, parses: string -> bool, steps: seq<Step>, more: seq<Step>)
    requires epoch != 0 && (forall step | step in more :: Quiet(step))
    ensures SameRegistry(Run(name, epoch, parses, steps), Run(name, epoch, parses, steps + more))
    ensures Agrees(Run(name, epoch, parses, steps), name) ==> Agrees(Run(name, epoch, parses, steps + more), name)
  {
    if more == [] {
      assert steps + more == steps;
    } else {
      var n := |more| - 1;
      QuietRun(name, epoch, parses, steps, more[..n]);
      QuietStep(name, epoch, parses, steps + more[..n], more[n]);
      RunMore(name, epoch, parses, steps, more);
    }
  }

  /** An URL that does not parse is never shown. */
  lemma {:induction false} ShownUrlsParse(name: string, epoch: nat, parses: string -> bool, steps: seq<Step>)
    ensures var url := Run(name, epoch, parses, steps).view.url; url == "" || parses(url)
  {
    if steps != [] {
      var n := |steps| - 1;
      ShownUrlsParse(name, epoch, parses, steps[..n]);
      var s := Run(name, epoch, parses, steps[..n]);
      assert Enabled(s, steps[n]) || Next(s, name, parses, steps[n]) == s;
    }
  }

  lemma {:induction false} LinesKeepPoll(name: string, epoch: nat, parses: string -> bool,
      steps: seq<Step>, lines: seq<Step>)
    requires forall step | step in lines :: step.StreamLine?
    ensures Run(name, epoch, parses, steps + lines).poll == Run(name, epoch, parses, steps).poll
  {
    if lines == [] {
      assert steps + lines == steps;
    } else {
      LinesKeepPoll(name, epoch, parses, steps, lines[..|lines| - 1]);
      RunMore(name, epoch, parses, steps, lines);
    }
  }

  lemma RunOne(name: string, epoch: nat, parses: string -> bool, steps: seq<Step>, step: Step)
    ensures Run(name, epoch, parses, steps + [step]) == Next(Run(name, epoch, parses, steps), name, parses, step)
  {
    assert (steps + [step])[..|steps + [step]| - 1] == steps;
  }

  /** From the moment the registry answers until the poll is applied, the answer is current. */
  lemma AnsweredIsCurrent(name: string, epoch: nat, parses: string -> bool, steps: seq<Step>, lines: seq<Step>)
    requires epoch != 0 && (forall step | step in lines :: step.StreamLine?)
    requires var s := Run(name, epoch, parses, steps); s.poll.Asked? && s.dep.Some? && s.dep.value.published
    ensures var s := Run(name, epoch, parses, steps + [Answer] + lines);
            CurrentAnswer(s, name) && SameRegistry(Run(name, epoch, parses, steps), s)
  {
    RunOne(name, epoch, parses, steps, Answer);
    LinesKeepPoll(name, epoch, parses, steps + [Answer], lines);
    QuietRun(name, epoch, parses, steps + [Answer], lines);
  }

  /** Once the registry is quiet, a single poll that gets through makes the edge agree with it,
      for as long as it stays quiet and whatever stale lines still arrive: exactly if the
      leader's URL is empty or parses. */
  lemma OnePollAgrees(name: string, epoch: nat, parses: string -> bool,
      steps: seq<Step>, lines: seq<Step>, after: seq<Step>)
    requires epoch != 0
    requires var s := Run(name, epoch, parses, steps); s.poll.Asked? && s.dep.Some? && s.dep.value.published
    requires (forall step | step in lines :: step.StreamLine?) && (forall step | step in after :: Quiet(step))
    ensures var s := Run(name, epoch, parses, steps);
            var t := Run(name, epoch, parses, steps + [Answer] + lines + [ApplyPoll] + after);
            SameRegistry(s, t) && (Agrees(t, name) <==> s.dep.value.url == "" || parses(s.dep.value.url))
  {
    var answered := steps + [Answer] + lines;
    AnsweredIsCurrent(name, epoch, parses, steps, lines);
    RunSound(name, epoch, parses, answered);
    PollAgrees(Run(name, epoch, parses, answered), name, parses);
    RunOne(name, epoch, parses, answered, ApplyPoll);
    QuietRun(name, epoch, parses, answered + [ApplyPoll], after);
    ShownUrlsParse(name, epoch, parses, answered + [ApplyPoll] + after);
  }
}
