/** One deployment's leader streams: an update sends to each channel step by step, while the
    streams drain their channels at any moment in between. */
module Streams {
  import opened Prelude
  import opened LeaderRegistry

  /** How far the update in progress has come with one channel. */
  datatype Sending = Settled | Trying | Full | Drained

  /** How far the stream has come: it subscribes, sees whether anything is published, writes
      the current state if so, and then writes what its channel yields. */
  datatype Stage = Subscribed | Snapshotting | Live

  /** `since` is the newest version at the time of the subscription. */
  datatype Sub = Sub(
    since: nat,
    slot: Option<LeaderEvent>,
    sending: Sending,
    stage: Stage,
    snapshot: Option<LeaderEvent>,
    received: seq<LeaderEvent>)

  /** `published` holds every event, version i at index i - 1. `busy` while an update holds
      the lock. */
  datatype System = System(dep: Deployment, published: seq<LeaderEvent>, busy: bool, subs: map<nat, Sub>)

  datatype Step =
    | UpdateBegin(pod: string, url: string)
    | TrySend(id: nat)
    | TryDrain(id: nat)
    | SendAgain(id: nat)
    | UpdateEnd
    | Subscribe(id: nat)
    | CheckPublished(id: nat)
    | WriteSnapshot(id: nat)
    | Receive(id: nat)
    | Cancel(id: nat)

  function Newest(s: System): nat {
    |s.published|
  }

  function With(s: System, id: nat, sub: Sub): System {
    s.(subs := s.subs[id := sub])
  }

  predicate Enabled(s: System, step: Step) {
    match step
    case UpdateBegin(_, _) => !s.busy
    case TrySend(id) => s.busy && id in s.subs && s.subs[id].sending == Trying
    case TryDrain(id) => s.busy && id in s.subs && s.subs[id].sending == Full
    case SendAgain(id) => s.busy && id in s.subs && s.subs[id].sending == Drained
    case UpdateEnd => s.busy && forall id | id in s.subs :: s.subs[id].sending == Settled
    case Subscribe(id) => !s.busy && id !in s.subs
    case CheckPublished(id) => !s.busy && id in s.subs && s.subs[id].stage == Subscribed
    case WriteSnapshot(id) => !s.busy && id in s.subs && s.subs[id].stage == Snapshotting
    case Receive(id) => id in s.subs && s.subs[id].stage == Live && s.subs[id].slot.Some?
    case Cancel(id) => !s.busy && id in s.subs
  }

  /** Channel operations never block: a send to a full channel and a receive from an empty one
      do nothing. */
  function Offered(sub: Sub, ev: LeaderEvent): Sub {
    if sub.slot.Some? then sub else sub.(slot := Some(ev))
  }

  function TriedSend(sub: Sub, ev: LeaderEvent): Sub {
    Offered(sub, ev).(sending := if sub.slot.Some? then Full else Settled)
  }

  function SubNext(sub: Sub, s: System, step: Step, name: string, epoch: nat): Sub
    requires s.busy ==> s.published != []
  {
    match step
    case TrySend(_) =>
      if s.busy then TriedSend(sub, s.published[|s.published| - 1]) else sub
    case TryDrain(_) => sub.(slot := None, sending := Drained)
    case SendAgain(_) => if s.busy then Offered(sub, s.published[|s.published| - 1]).(sending := Settled) else sub
    case CheckPublished(_) => sub.(stage := if s.dep.published then Snapshotting else Live)
    case WriteSnapshot(_) => sub.(stage := Live, snapshot := Some(EventOf(name, s.dep, epoch)))
    case Receive(_) => if sub.slot.Some? then sub.(slot := None, received := sub.received + [sub.slot.value]) else sub
    case _ => sub
  }

  function Begun(s: System, name: string, epoch: nat, pod: string, url: string): System {
    if !Changed(s.dep, pod, url) then s
    else
      var dep := Updated(s.dep, pod, url);
      s.(dep := dep, published := s.published + [EventOf(name, dep, epoch)], busy := true,
         subs := map id | id in s.subs :: s.subs[id].(sending := Trying))
  }

  function Next(s: System, name: string, epoch: nat, step: Step): System
    requires s.busy ==> s.published != []
  {
    if !Enabled(s, step) then s
    else
      match step
      case UpdateBegin(pod, url) => Begun(s, name, epoch, pod, url)
      case UpdateEnd => s.(busy := false)
      case Subscribe(id) => With(s, id, Sub(Newest(s), None, Settled, Subscribed, None, []))
      case Cancel(id) => s.(subs := s.subs - {id})
      case _ => With(s, step.id, SubNext(s.subs[step.id], s, step, name, epoch))
  }

  /** The state after a sequence of steps, in any interleaving. */
  function Run(name: string, epoch: nat, steps: seq<Step>): (s: System)
    ensures s.busy ==> s.published != []
  {
    if steps == [] then System(UNPUBLISHED, [], false, map[])
    else Next(Run(name, epoch, steps[..|steps| - 1]), name, epoch, steps[|steps| - 1])
  }

  // ---- The invariant

  predicate Is(ev: LeaderEvent, published: seq<LeaderEvent>, version: nat) {
    ev.version == version && 1 <= version <= |published| && ev == published[version - 1]
  }

  predicate Genuine(ev: LeaderEvent, published: seq<LeaderEvent>) {
    Is(ev, published, ev.version)
  }

  function LastVersion(sub: Sub): nat {
    if sub.received == [] then sub.since else sub.received[|sub.received| - 1].version
  }

  /** The stream has the event of the given version, in hand or in its channel. */
  predicate Covers(sub: Sub, version: nat) {
    version <= sub.since || LastVersion(sub) == version || (sub.slot.Some? && sub.slot.value.version == version)
  }

  predicate Increasing(evs: seq<LeaderEvent>) {
    forall i, j | 0 <= i < j < |evs| :: evs[i].version < evs[j].version
  }

  predicate ReceivedOk(sub: Sub, published: seq<LeaderEvent>) {
    && Increasing(sub.received)
    && forall i | 0 <= i < |sub.received| :: sub.received[i].version > sub.since && Genuine(sub.received[i], published)
  }

  predicate SnapshotOk(sub: Sub, published: seq<LeaderEvent>) {
    match sub.snapshot
    case None => sub.stage == Live ==> sub.since == 0
    case Some(ev) =>
      && sub.stage == Live && sub.since <= ev.version && Genuine(ev, published)
      && (sub.slot.Some? ==> ev.version <= sub.slot.value.version)
      && (sub.received != [] ==> ev.version <= sub.received[0].version)
  }

  /** What a channel holds is newer than what was received, and where an update has passed, or
      has not come yet, the newest event is either held or received. */
  predicate SubOk(sub: Sub, published: seq<LeaderEvent>, busy: bool) {
    && sub.since <= |published|
    && ReceivedOk(sub, published) && SnapshotOk(sub, published)
    && (sub.stage != Live ==> sub.received == [])
    && (sub.stage == Snapshotting ==> published != [])
    && (sub.slot.Some? ==> sub.slot.value.version > LastVersion(sub) && Genuine(sub.slot.value, published))
    && match sub.sending
       case Settled => Covers(sub, |published|)
       case Drained => busy && sub.slot.None? && LastVersion(sub) < |published|
       case _ => busy && LastVersion(sub) < |published| && Covers(sub, |published| - 1)
                 && (sub.slot.Some? ==> sub.slot.value.version < |published|)
  }

  predicate Sound(s: System, name: string, epoch: nat) {
    && DeploymentOk(s.dep) && s.dep.version == |s.published|
    && (s.published != [] ==> s.published[|s.published| - 1] == EventOf(name, s.dep, epoch))
    && (forall i | 0 <= i < |s.published| :: s.published[i].version == i + 1)
    && (s.busy ==> s.published != [])
    && forall id | id in s.subs :: SubOk(s.subs[id], s.published, s.busy)
  }

  predicate IsSend(step: Step) {
    step.TrySend? || step.TryDrain? || step.SendAgain?
  }

  lemma TrySendOk(sub: Sub, published: seq<LeaderEvent>)
    requires SubOk(sub, published, true) && sub.sending == Trying && published != []
    requires forall i | 0 <= i < |published| :: published[i].version == i + 1
    ensures SubOk(TriedSend(sub, published[|published| - 1]), published, true)
  {}

  lemma SendAgainOk(sub: Sub, published: seq<LeaderEvent>)
    requires SubOk(sub, published, true) && sub.sending == Drained && published != []
    requires forall i | 0 <= i < |published| :: published[i].version == i + 1
    ensures SubOk(Offered(sub, published[|published| - 1]).(sending := Settled), published, true)
  {}

  lemma TryDrainOk(sub: Sub, published: seq<LeaderEvent>)
    requires SubOk(sub, published, true) && sub.sending == Full
    ensures SubOk(sub.(slot := None, sending := Drained), published, true)
  {}

  lemma SentOne(s: System, id: nat, name: string, epoch: nat)
    requires Sound(s, name, epoch) && s.busy && id in s.subs
    ensures SubOk(s.subs[id], s.published, true) && s.published != []
    ensures forall i | 0 <= i < |s.published| :: s.published[i].version == i + 1
  {}

  lemma SendOk(s: System, step: Step, name: string, epoch: nat)
    requires Sound(s, name, epoch) && IsSend(step) && Enabled(s, step)
    ensures SubOk(SubNext(s.subs[step.id], s, step, name, epoch), s.published, s.busy)
  {
    SentOne(s, step.id, name, epoch);
    SendStepOk(s, step, name, epoch);
  }

  lemma SendStepOk(s: System, step: Step, name: string, epoch: nat)
    requires IsSend(step) && Enabled(s, step) && s.published != []
    requires SubOk(s.subs[step.id], s.published, true)
    requires forall i | 0 <= i < |s.published| :: s.published[i].version == i + 1
    ensures SubOk(SubNext(s.subs[step.id], s, step, name, epoch), s.published, true)
  {
    var sub := s.subs[step.id];
    match step
    case TrySend(_) => TrySendOk(sub, s.published);
    case TryDrain(_) => TryDrainOk(sub, s.published);
    case SendAgain(_) => SendAgainOk(sub, s.published);
  }

  lemma ReceivedOneOk(sub: Sub, published: seq<LeaderEvent>, busy: bool)
    requires SubOk(sub, published, busy) && sub.stage == Live && sub.slot.Some?
    ensures SubOk(sub.(slot := None, received := sub.received + [sub.slot.value]), published, busy)
  {
    var next := sub.(slot := None, received := sub.received + [sub.slot.value]);
    forall i, j | 0 <= i < j < |next.received| ensures next.received[i].version < next.received[j].version {
      assert i < |sub.received| - 1 ==> sub.received[i].version < sub.received[|sub.received| - 1].version;
    }
    assert ReceivedOk(next, published);
  }

  lemma ReceiveOk(s: System, step: Step, name: string, epoch: nat)
    requires Sound(s, name, epoch) && step.Receive? && Enabled(s, step)
    ensures SubOk(SubNext(s.subs[step.id], s, step, name, epoch), s.published, s.busy)
  {
    ReceivedOneOk(s.subs[step.id], s.published, s.busy);
  }

  lemma SnapshotStepOk(s: System, step: Step, name: string, epoch: nat)
    requires Sound(s, name, epoch) && (step.CheckPublished? || step.WriteSnapshot?) && Enabled(s, step)
    ensures SubOk(SubNext(s.subs[step.id], s, step, name, epoch), s.published, s.busy)
  {
    assert SubOk(s.subs[step.id], s.published, s.busy);
  }

  lemma BegunSubOk(sub: Sub, published: seq<LeaderEvent>, ev: LeaderEvent)
    requires SubOk(sub, published, false)
    ensures SubOk(sub.(sending := Trying), published + [ev], true)
  {}

  lemma BegunSound(s: System, name: string, epoch: nat, pod: string, url: string)
    requires Sound(s, name, epoch) && !s.busy
    ensures Sound(Begun(s, name, epoch, pod, url), name, epoch)
  {
    var ev := EventOf(name, Updated(s.dep, pod, url), epoch);
    forall id | id in s.subs ensures SubOk(s.subs[id].(sending := Trying), s.published + [ev], true) {
      BegunSubOk(s.subs[id], s.published, ev);
    }
  }

  lemma EndedSound(s: System, name: string, epoch: nat)
    requires Sound(s, name, epoch) && Enabled(s, UpdateEnd)
    ensures Sound(s.(busy := false), name, epoch)
  {}

  lemma SubscribedSound(s: System, name: string, epoch: nat, id: nat)
    requires Sound(s, name, epoch) && Enabled(s, Subscribe(id))
    ensures Sound(Next(s, name, epoch, Subscribe(id)), name, epoch)
  {}

  lemma SubSound(s: System, name: string, epoch: nat, id: nat, sub: Sub)
    requires Sound(s, name, epoch) && SubOk(sub, s.published, s.busy)
    ensures Sound(With(s, id, sub), name, epoch)
  {}

  lemma StepSound(s: System, name: string, epoch: nat, step: Step)
    requires Sound(s, name, epoch)
    ensures Sound(Next(s, name, epoch, step), name, epoch)
  {
    if Enabled(s, step) {
      match step
      case UpdateBegin(pod, url) => BegunSound(s, name, epoch, pod, url);
      case UpdateEnd => EndedSound(s, name, epoch);
      case Subscribe(id) => SubscribedSound(s, name, epoch, id);
      case Cancel(_) =>
      case _ => {
        if IsSend(step) {
          SendOk(s, step, name, epoch);
        } else if step.Receive? {
          ReceiveOk(s, step, name, epoch);
        } else {
          SnapshotStepOk(s, step, name, epoch);
        }
        SubSound(s, name, epoch, step.id, SubNext(s.subs[step.id], s, step, name, epoch));
      }
    }
  }

  lemma {:induction false} RunSound(name: string, epoch: nat, steps: seq<Step>)
    ensures Sound(Run(name, epoch, steps), name, epoch)
  {
    if steps != [] {
      var n := |steps| - 1;
      RunSound(name, epoch, steps[..n]);
      StepSound(Run(name, epoch, steps[..n]), name, epoch, steps[n]);
    }
  }

  // ---- What an update sends

  /** An update that changes the leader, or publishes the first one, publishes its event with the
      next version and starts sending it to every channel; one that changes nothing does
      nothing. */
  lemma UpdatePublishes(s: System, name: string, epoch: nat, pod: string, url: string)
    requires Sound(s, name, epoch) && !s.busy
    ensures var t := Next(s, name, epoch, UpdateBegin(pod, url));
            if s.dep.pod == pod && s.dep.url == url && s.dep.published then t == s
            else && t.published == s.published + [LeaderEvent(name, pod, url, |s.published| + 1, epoch)]
                 && t.dep == Deployment(pod, url, |s.published| + 1, true) && t.busy
                 && t.subs.Keys == s.subs.Keys && forall id | id in t.subs :: t.subs[id].sending == Trying
  {}

  /** Undisturbed, sending to a channel puts the newest event there, whatever it held. */
  lemma SendingReplaces(s: System, name: string, epoch: nat, id: nat)
    requires s.busy && s.published != [] && id in s.subs && s.subs[id].sending == Trying
    ensures var tried := Next(s, name, epoch, TrySend(id));
            var sent := if s.subs[id].slot.None? then tried
                        else Next(Next(tried, name, epoch, TryDrain(id)), name, epoch, SendAgain(id));
            sent.subs[id] == s.subs[id].(slot := Some(s.published[|s.published| - 1]), sending := Settled)
  {
    if s.subs[id].slot.Some? {
      var tried := Next(s, name, epoch, TrySend(id));
      assert tried == With(s, id, s.subs[id].(sending := Full));
      var drained := Next(tried, name, epoch, TryDrain(id));
      assert drained == With(s, id, s.subs[id].(slot := None, sending := Drained));
    }
  }

  // ---- What a stream sees

  /** The frames a stream has written. */
  function Frames(sub: Sub): seq<LeaderEvent> {
    (if sub.snapshot.Some? then [sub.snapshot.value] else []) + sub.received
  }

  lemma SettledSub(s: System, name: string, epoch: nat, id: nat)
    requires Sound(s, name, epoch) && id in s.subs
    ensures SubOk(s.subs[id], s.published, s.busy) && (!s.busy ==> s.subs[id].sending == Settled)
  {}

  /** In every interleaving of updates with draining streams: outside an update, each stream
      has received or still buffers the newest event published since it subscribed, and what
      it receives has strictly increasing versions. */
  lemma LatestWins(name: string, epoch: nat, steps: seq<Step>, id: nat)
    requires id in Run(name, epoch, steps).subs
    ensures var s := Run(name, epoch, steps);
            var sub := s.subs[id];
            && Increasing(sub.received)
            && (sub.slot.Some? && sub.received != [] ==>
                  sub.received[|sub.received| - 1].version < sub.slot.value.version)
            && (!s.busy && Newest(s) > sub.since ==>
                  (sub.slot.Some? && Is(sub.slot.value, s.published, Newest(s)))
                  || (sub.received != [] && Is(sub.received[|sub.received| - 1], s.published, Newest(s))))
  {
    RunSound(name, epoch, steps);
    SettledSub(Run(name, epoch, steps), name, epoch, id);
  }

  lemma FramesOk(sub: Sub, published: seq<LeaderEvent>, busy: bool)
    requires SubOk(sub, published, busy)
    ensures forall i, j | 0 <= i < j < |Frames(sub)| :: Frames(sub)[i].version <= Frames(sub)[j].version
    ensures forall i | 0 <= i < |Frames(sub)| :: Genuine(Frames(sub)[i], published)
  {
    var skip := if sub.snapshot.Some? then 1 else 0;
    assert forall i | skip <= i < |Frames(sub)| :: Frames(sub)[i] == sub.received[i - skip];
    forall j | 0 <= j < |sub.received| ensures sub.received[0].version <= sub.received[j].version {
      assert j == 0 || sub.received[0].version < sub.received[j].version;
    }
  }

  lemma FramesEnd(sub: Sub, published: seq<LeaderEvent>)
    requires SubOk(sub, published, false) && sub.sending == Settled
    requires sub.stage == Live && sub.slot.None? && published != []
    ensures Frames(sub) != [] && Is(Frames(sub)[|Frames(sub)| - 1], published, |published|)
  {
    if sub.received == [] {
      assert Frames(sub) == [sub.snapshot.value];
    } else {
      assert Frames(sub)[|Frames(sub)| - 1] == sub.received[|sub.received| - 1];
    }
  }

  lemma CurrentIsNewest(s: System, name: string, epoch: nat)
    requires Sound(s, name, epoch) && !s.busy && s.dep.published
    ensures s.published != [] && s.published[|s.published| - 1] == EventOf(name, s.dep, epoch)
  {}

  lemma FramesOfSound(s: System, name: string, epoch: nat, id: nat)
    requires Sound(s, name, epoch) && id in s.subs
    ensures var frames := Frames(s.subs[id]);
            && (forall i, j | 0 <= i < j < |frames| :: frames[i].version <= frames[j].version)
            && (forall i | 0 <= i < |frames| :: Genuine(frames[i], s.published))
            && (!s.busy && s.subs[id].stage == Live && s.subs[id].slot.None? && s.dep.published ==>
                  frames != [] && frames[|frames| - 1] == EventOf(name, s.dep, epoch))
  {
    SettledSub(s, name, epoch, id);
    FramesOk(s.subs[id], s.published, s.busy);
    if !s.busy && s.subs[id].stage == Live && s.subs[id].slot.None? && s.dep.published {
      CurrentIsNewest(s, name, epoch);
      FramesEnd(s.subs[id], s.published);
    }
  }

  /** Subscribing before reading the current state loses nothing: the frames of a stream never
      decrease in version, are all events that were published, and once its channel is empty
      end at the current state. */
  lemma FramesEndAtTheCurrentState(name: string, epoch: nat, steps: seq<Step>, id: nat)
    requires id in Run(name, epoch, steps).subs
    ensures var s := Run(name, epoch, steps);
            var frames := Frames(s.subs[id]);
            && (forall i, j | 0 <= i < j < |frames| :: frames[i].version <= frames[j].version)
            && (forall i | 0 <= i < |frames| :: Genuine(frames[i], s.published))
            && (!s.busy && s.subs[id].stage == Live && s.subs[id].slot.None? && s.dep.published ==>
                  frames != [] && frames[|frames| - 1] == EventOf(name, s.dep, epoch))
  {
    RunSound(name, epoch, steps);
    FramesOfSound(Run(name, epoch, steps), name, epoch, id);
  }
}
