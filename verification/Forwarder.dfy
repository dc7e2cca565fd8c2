/** The usage forwarder with its recorders: any number of them send while the worker coalesces,
    posts and, at shutdown, drains. */
module Forwarder {
  import opened Prelude
  import opened Coalesce

  /** What the worker is doing: waiting, or merging `parts` into a post. A post under way has
      taken its parts; `sealed` says that no more will be merged. */
  datatype Worker = Waiting | Merging(parts: seq<Batch>, bytes: nat, sealed: bool) | Stopped

  /** A post that has ended, with the batches it was merged from. */
  datatype Done = Done(parts: seq<Batch>, delivered: bool)

  /** `reserved` holds the batches of recorders between counting and sending; `accepted` and
      `refused` remember what became of every send. */
  datatype System = System(
    queue: seq<Batch>,
    carry: Option<Batch>,
    worker: Worker,
    stopping: bool,
    closed: bool,
    outstanding: int,
    dropped: nat,
    reserved: seq<Batch>,
    accepted: seq<Batch>,
    refused: seq<Batch>,
    done: seq<Done>)

  datatype Step =
    | Record(batch: Batch)
    | Send(i: nat)
    | Take
    | Merge
    | CarryOver
    | Seal
    | EndPost(answers: Answers, n: nat)
    | Shutdown
    | Close
    | Stop

  const INIT := System([], None, Waiting, false, false, 0, 0, [], [], [], [])

  predicate Enabled(s: System, step: Step) {
    match step
    case Record(batch) => batch != []
    case Send(i) => i < |s.reserved|
    case Take => s.worker.Waiting? && (s.carry.Some? || s.queue != [])
    case Merge =>
      && s.worker.Merging? && !s.worker.sealed && |s.worker.parts| < MAX_BATCHES_PER_POST
      && s.queue != [] && s.worker.bytes + JsonLen(s.queue[0]) <= MAX_POST_BYTES
    case CarryOver =>
      && s.worker.Merging? && !s.worker.sealed && |s.worker.parts| < MAX_BATCHES_PER_POST
      && s.queue != [] && s.worker.bytes + JsonLen(s.queue[0]) > MAX_POST_BYTES
    case Seal => s.worker.Merging? && !s.worker.sealed && (|s.worker.parts| == MAX_BATCHES_PER_POST || s.queue == [])
    case EndPost(_, _) => s.worker.Merging? && s.worker.sealed
    case Shutdown => true
    case Close => s.stopping && !s.closed && s.worker.Waiting? && s.carry.None?
    case Stop => s.closed && s.worker.Waiting? && s.carry.None? && s.queue == []
  }

  /** A send to a full or closed channel fails, and the batch is counted as dropped. */
  function Sent(s: System, i: nat): System
    requires i < |s.reserved|
  {
    var batch, rest := s.reserved[i], s.reserved[..i] + s.reserved[i + 1..];
    if s.closed || |s.queue| >= CHANNEL_CAPACITY
    then s.(reserved := rest, outstanding := s.outstanding - 1, dropped := s.dropped + 1,
            refused := s.refused + [batch])
    else s.(reserved := rest, queue := s.queue + [batch], accepted := s.accepted + [batch])
  }

  function Taken(s: System): System
    requires s.carry.Some? || s.queue != []
  {
    if s.carry.Some? then s.(carry := None, worker := Merging([s.carry.value], JsonLen(s.carry.value), false))
    else s.(queue := s.queue[1..], worker := Merging([s.queue[0]], JsonLen(s.queue[0]), false))
  }

  function Ended(s: System, delivered: bool): System
    requires s.worker.Merging?
  {
    var n := |s.worker.parts|;
    s.(worker := Waiting, outstanding := s.outstanding - n, dropped := s.dropped + if delivered then 0 else n,
       done := s.done + [Done(s.worker.parts, delivered)])
  }

  function Next(s: System, step: Step): System {
    if !Enabled(s, step) then s
    else
      match step
      case Record(batch) => s.(outstanding := s.outstanding + 1, reserved := s.reserved + [batch])
      case Send(i) => Sent(s, i)
      case Take => Taken(s)
      case Merge =>
        s.(queue := s.queue[1..],
           worker := Merging(s.worker.parts + [s.queue[0]], s.worker.bytes + JsonLen(s.queue[0]), false))
      case CarryOver => s.(queue := s.queue[1..], carry := Some(s.queue[0]), worker := s.worker.(sealed := true))
      case Seal => s.(worker := s.worker.(sealed := true))
      case EndPost(answers, n) => Ended(s, Delivers(answers, n, 1))
      case Shutdown => s.(stopping := true)
      case Close => s.(closed := true)
      case Stop => s.(worker := Stopped)
  }

  /** The state after a sequence of steps, in any interleaving. */
  function Run(steps: seq<Step>): System {
    if steps == [] then INIT else Next(Run(steps[..|steps| - 1]), steps[|steps| - 1])
  }

  // ---- The invariant

  /** The batches of the ended posts, in order. */
  function PartsOf(done: seq<Done>): seq<Batch> {
    if done == [] then [] else PartsOf(done[..|done| - 1]) + done[|done| - 1].parts
  }

  /** The batches of the ended posts that were, or were not, delivered. */
  function PartsWith(done: seq<Done>, delivered: bool): seq<Batch> {
    if done == [] then []
    else
      var d := done[|done| - 1];
      PartsWith(done[..|done| - 1], delivered) + if d.delivered == delivered then d.parts else []
  }

  function InPost(s: System): seq<Batch> {
    if s.worker.Merging? then s.worker.parts else []
  }

  /** Everything accepted and not yet posted, in the order it will be. */
  function Pending(s: System): seq<Batch> {
    InPost(s) + QueueOf(s.carry, s.queue)
  }

  predicate PartsOk(parts: seq<Batch>, bytes: nat) {
    && 1 <= |parts| <= MAX_BATCHES_PER_POST && bytes == Accounted(parts)
    && (|parts| > 1 ==> bytes <= MAX_POST_BYTES)
  }

  predicate Sound(s: System) {
    && s.accepted == PartsOf(s.done) + Pending(s)
    && s.outstanding == |s.reserved| + |Pending(s)|
    && s.dropped == |s.refused| + |PartsWith(s.done, false)|
    && NonEmpty(s.reserved) && NonEmpty(s.accepted)
    && (s.worker.Merging? ==> PartsOk(s.worker.parts, s.worker.bytes))
    && (s.carry.Some? && s.worker.Merging? ==> s.worker.sealed)
    && (forall i | 0 <= i < |s.done| :: PartsOk(s.done[i].parts, Accounted(s.done[i].parts)))
    && (s.worker.Stopped? ==> s.closed && s.carry.None? && s.queue == [])
  }

  lemma NonEmptyWithout(parts: seq<Batch>, i: nat)
    requires NonEmpty(parts) && i < |parts|
    ensures NonEmpty(parts[..i] + parts[i + 1..]) && parts[i] != []
  {}

  lemma PendingMore(s: System, batch: Batch)
    ensures Pending(s.(queue := s.queue + [batch])) == Pending(s) + [batch]
  {
    assert QueueOf(s.carry, s.queue + [batch]) == QueueOf(s.carry, s.queue) + [batch];
  }

  lemma RefusedSound(s: System, i: nat)
    requires Sound(s) && i < |s.reserved| && (s.closed || |s.queue| >= CHANNEL_CAPACITY)
    ensures Sound(Sent(s, i))
  {
    NonEmptyWithout(s.reserved, i);
    assert Pending(Sent(s, i)) == Pending(s);
  }

  lemma AcceptedSound(s: System, i: nat)
    requires Sound(s) && i < |s.reserved| && !s.closed && |s.queue| < CHANNEL_CAPACITY
    ensures Sound(Sent(s, i))
  {
    NonEmptyWithout(s.reserved, i);
    PendingMore(s, s.reserved[i]);
    assert Pending(Sent(s, i)) == Pending(s) + [s.reserved[i]];
    assert PartsOf(s.done) + Pending(s) + [s.reserved[i]] == PartsOf(s.done) + (Pending(s) + [s.reserved[i]]);
  }

  lemma TakenSound(s: System)
    requires Sound(s) && Enabled(s, Take)
    ensures Sound(Taken(s))
  {
    var all := QueueOf(s.carry, s.queue);
    assert Pending(s) == all && all == [all[0]] + all[1..];
    assert Accounted([all[0]]) == JsonLen(all[0]);
    assert Pending(Taken(s)) == all;
  }

  lemma MergedSound(s: System)
    requires Sound(s) && (Enabled(s, Merge) || Enabled(s, CarryOver))
    ensures Enabled(s, Merge) ==> Sound(Next(s, Merge))
    ensures Enabled(s, CarryOver) ==> Sound(Next(s, CarryOver))
  {
    assert s.queue == [s.queue[0]] + s.queue[1..];
    var parts := s.worker.parts;
    assert (parts + [s.queue[0]])[..|parts|] == parts;
    assert parts + s.queue == parts + [s.queue[0]] + s.queue[1..];
    assert Pending(s) == parts + s.queue;
  }

  lemma EndedSound(s: System, delivered: bool)
    requires Sound(s) && s.worker.Merging?
    ensures Sound(Ended(s, delivered))
  {
    var t := Ended(s, delivered);
    assert t.done[..|s.done|] == s.done;
    assert PartsOf(t.done) == PartsOf(s.done) + s.worker.parts;
    assert Pending(s) == s.worker.parts + Pending(t);
  }

  lemma ControlSound(s: System, step: Step)
    requires Sound(s) && Enabled(s, step)
    requires step.Record? || step.Seal? || step.Shutdown? || step.Close? || step.Stop?
    ensures Sound(Next(s, step))
  {
    assert Pending(Next(s, step)) == Pending(s);
  }

  lemma StepSound(s: System, step: Step)
    requires Sound(s)
    ensures Sound(Next(s, step))
  {
    if Enabled(s, step) {
      match step
      case Record(batch) => ControlSound(s, step);
      case Send(i) =>
        if s.closed || |s.queue| >= CHANNEL_CAPACITY {
          RefusedSound(s, i);
        } else {
          AcceptedSound(s, i);
        }
      case Take => TakenSound(s);
      case Merge => MergedSound(s);
      case CarryOver => MergedSound(s);
      case Seal => ControlSound(s, step);
      case EndPost(answers, n) => EndedSound(s, Delivers(answers, n, 1));
      case Shutdown => ControlSound(s, step);
      case Close => ControlSound(s, step);
      case Stop => ControlSound(s, step);
    }
  }

  lemma {:induction false} RunSound(steps: seq<Step>)
    ensures Sound(Run(steps))
  {
    if steps != [] {
      RunSound(steps[..|steps| - 1]);
      StepSound(Run(steps[..|steps| - 1]), steps[|steps| - 1]);
    }
  }

  // ---- What the forwarder promises

  /** The batches recorded by a run. */
  function Recorded(steps: seq<Step>): multiset<Batch> {
    if steps == [] then multiset{}
    else
      var n := |steps| - 1;
      Recorded(steps[..n])
      + if steps[n].Record? && Enabled(Run(steps[..n]), steps[n]) then multiset{steps[n].batch} else multiset{}
  }

  function Sends(s: System): multiset<Batch> {
    multiset(s.reserved) + multiset(s.accepted) + multiset(s.refused)
  }

  lemma SendsSent(s: System, i: nat)
    requires i < |s.reserved|
    ensures Sends(Sent(s, i)) == Sends(s)
  {
    assert s.reserved == s.reserved[..i] + [s.reserved[i]] + s.reserved[i + 1..];
  }

  lemma SendsStep(s: System, step: Step)
    ensures Sends(Next(s, step)) ==
            Sends(s) + if step.Record? && Enabled(s, step) then multiset{step.batch} else multiset{}
  {
    if step.Send? && Enabled(s, step) {
      SendsSent(s, step.i);
    }
  }

  lemma {:induction false} RecordedAre(steps: seq<Step>)
    ensures Recorded(steps) == Sends(Run(steps))
  {
    if steps != [] {
      var n := |steps| - 1;
      RecordedAre(steps[..n]);
      SendsStep(Run(steps[..n]), steps[n]);
    }
  }

  lemma {:induction false} PartsAre(done: seq<Done>)
    ensures multiset(PartsOf(done)) == multiset(PartsWith(done, true)) + multiset(PartsWith(done, false))
  {
    if done != [] {
      PartsAre(done[..|done| - 1]);
    }
  }

  /** The sink accepted the n-th post: one of the three attempts succeeded, and each before it
      failed in a way that may be retried. */
  ghost predicate SinkAccepted(answers: Answers, n: nat) {
    exists a: nat | 1 <= a <= 3 :: answers(n, a).Success? && forall b: nat | 1 <= b < a :: answers(n, b).Retryable?
  }

  /** The posts of a run, each with what the sink made of it. */
  ghost function Answered(steps: seq<Step>): seq<Done> {
    if steps == [] then []
    else
      var n, s := |steps| - 1, Run(steps[..|steps| - 1]);
      Answered(steps[..n])
      + if steps[n].EndPost? && Enabled(s, steps[n])
        then [Done(s.worker.parts, SinkAccepted(steps[n].answers, steps[n].n))]
        else []
  }

  /** Ending a post counts all its batches as dropped if the sink did not accept it, and none if
      it did; either way they are no longer outstanding. */
  lemma EndPostCounts(s: System, answers: Answers, n: nat)
    requires Enabled(s, EndPost(answers, n))
    ensures var t := Next(s, EndPost(answers, n));
            && t.done == s.done + [Done(s.worker.parts, SinkAccepted(answers, n))]
            && t.dropped == s.dropped + (if SinkAccepted(answers, n) then 0 else |s.worker.parts|)
            && t.outstanding == s.outstanding - |s.worker.parts|
  {
    DeliversExactly(answers, n);
  }

  /** A send fails exactly if the channel is closed or holds 2048 batches; then, and only then,
      the batch is counted as dropped and no longer outstanding. */
  lemma SendCounts(s: System, i: nat)
    requires Enabled(s, Send(i))
    ensures var t, refused := Next(s, Send(i)), s.closed || |s.queue| >= 2048;
            && t.refused == (if refused then s.refused + [s.reserved[i]] else s.refused)
            && t.queue == (if refused then s.queue else s.queue + [s.reserved[i]])
            && t.dropped == s.dropped + (if refused then 1 else 0)
            && t.outstanding == s.outstanding - (if refused then 1 else 0)
  {}

  lemma DoneOnlyByPosts(s: System, step: Step)
    requires !step.EndPost? || !Enabled(s, step)
    ensures Next(s, step).done == s.done
  {}

  lemma {:induction false} DoneAsAnswered(steps: seq<Step>)
    ensures Run(steps).done == Answered(steps)
  {
    if steps != [] {
      var n, s := |steps| - 1, Run(steps[..|steps| - 1]);
      DoneAsAnswered(steps[..n]);
      if steps[n].EndPost? && Enabled(s, steps[n]) {
        EndPostCounts(s, steps[n].answers, steps[n].n);
      } else {
        DoneOnlyByPosts(s, steps[n]);
      }
    }
  }

  /** The batches of the posts the sink accepted. */
  ghost function Delivered(steps: seq<Step>): multiset<Batch> {
    multiset(PartsWith(Answered(steps), true))
  }

  /** Those of the posts it did not accept, and those refused by the channel. */
  ghost function Dropped(steps: seq<Step>): multiset<Batch> {
    multiset(PartsWith(Answered(steps), false)) + multiset(Run(steps).refused)
  }

  /** Not sent yet, or sent and not posted yet. */
  function Outstanding(s: System): multiset<Batch> {
    multiset(s.reserved) + multiset(s.queue) + multiset(InPost(s))
    + if s.carry.Some? then multiset{s.carry.value} else multiset{}
  }

  lemma PendingAre(s: System)
    ensures multiset(Pending(s)) + multiset(s.reserved) == Outstanding(s)
  {}

  lemma SendsAre(s: System)
    requires s.accepted == PartsOf(s.done) + Pending(s)
    ensures Sends(s) ==
            multiset(PartsWith(s.done, true)) + multiset(PartsWith(s.done, false)) + multiset(s.refused)
            + Outstanding(s)
  {
    PartsAre(s.done);
    PendingAre(s);
    assert multiset(s.accepted) == multiset(PartsOf(s.done)) + multiset(Pending(s));
  }

  lemma CountersAre(s: System)
    requires Sound(s)
    ensures s.dropped == |multiset(PartsWith(s.done, false)) + multiset(s.refused)| && s.outstanding == |Outstanding(s)|
  {
    PendingAre(s);
    assert s.outstanding == |multiset(Pending(s)) + multiset(s.reserved)|;
  }

  /** In every run, the batches recorded are exactly those in posts that the sink accepted, those
      in posts it did not accept or refused by the channel, and those outstanding, each as often
      as it was recorded; and the two counters count the last two kinds. */
  lemma BatchesConserved(steps: seq<Step>)
    ensures var s := Run(steps);
            && Recorded(steps) == Delivered(steps) + Dropped(steps) + Outstanding(s)
            && s.dropped == |Dropped(steps)| && s.outstanding == |Outstanding(s)|
  {
    RunSound(steps);
    RecordedAre(steps);
    DoneAsAnswered(steps);
    SendsAre(Run(steps));
    CountersAre(Run(steps));
  }

  /** In every run, posts take the accepted batches in the order they were accepted, none
      twice and none skipped, whatever is recorded meanwhile. */
  lemma PostsInOrder(steps: seq<Step>)
    ensures var s := Run(steps);
            PartsOf(s.done) <= s.accepted && s.accepted == PartsOf(s.done) + InPost(s) + QueueOf(s.carry, s.queue)
  {
    RunSound(steps);
    var s := Run(steps);
    Regrouped(PartsOf(s.done), InPost(s), QueueOf(s.carry, s.queue));
  }

  lemma Regrouped(a: seq<Batch>, b: seq<Batch>, c: seq<Batch>)
    ensures a + (b + c) == a + b + c && a <= a + (b + c)
  {}

  /** In every run, a post merges at most 32 batches, and the JSON array of a post of several is
      at most 4 MiB long, and shorter than what the worker accounted for. */
  lemma PostsBounded(steps: seq<Step>, i: nat)
    requires i < |Run(steps).done|
    ensures var parts := Run(steps).done[i].parts;
            && 1 <= |parts| <= 32
            && |Json(Flatten(parts))| == Accounted(parts) - (|parts| - 1)
            && (|parts| > 1 ==> |Json(Flatten(parts))| < 4 * 1024 * 1024)
  {
    RunSound(steps);
    var s := Run(steps);
    PartsNonEmpty(s.done, s.accepted, i);
    MergedLength(s.done[i].parts);
    JsonLenIsLength(Flatten(s.done[i].parts));
  }

  lemma {:induction false} PartsNonEmpty(done: seq<Done>, accepted: seq<Batch>, i: nat)
    requires PartsOf(done) <= accepted && NonEmpty(accepted) && i < |done|
    ensures NonEmpty(done[i].parts)
  {
    var n := |done| - 1;
    if i < n {
      assert PartsOf(done[..n]) <= PartsOf(done);
      PartsNonEmpty(done[..n], accepted, i);
    } else {
      forall j | 0 <= j < |done[n].parts| ensures done[n].parts[j] != [] {
        assert done[n].parts[j] == accepted[|PartsOf(done[..n])| + j];
      }
    }
  }

  /** Once the worker has stopped, everything accepted was posted; what is still outstanding are
      recorders that have yet to find the channel closed. */
  lemma StoppedIsDrained(steps: seq<Step>)
    requires Run(steps).worker.Stopped?
    ensures var s := Run(steps);
            && s.queue == [] && s.carry == None && s.accepted == PartsOf(s.done) && s.outstanding == |s.reserved|
            && Recorded(steps) == Delivered(steps) + Dropped(steps) + multiset(s.reserved)
  {
    RunSound(steps);
    BatchesConserved(steps);
    assert Outstanding(Run(steps)) == multiset(Run(steps).reserved);
  }

  // ---- The merging steps are the loop of the worker

  function MergedMany(s: System, k: nat): System {
    if k == 0 then s else Next(MergedMany(s, k - 1), Merge)
  }

  lemma {:induction false} TakenPrefix(bytes: nat, batches: nat, queue: seq<Batch>, k: nat)
    requires k <= Coalesce.Taken(bytes, batches, queue)
    ensures Coalesce.Taken(bytes + Accounted(queue[..k]), batches + k, queue[k..]) ==
            Coalesce.Taken(bytes, batches, queue) - k
    decreases k
  {
    if k > 0 {
      TakenPrefix(bytes + JsonLen(queue[0]), batches + 1, queue[1..], k - 1);
      AccountedHead(queue, k);
      assert queue[1..][k - 1..] == queue[k..];
    }
  }

  function MergedTo(s: System, k: nat): System
    requires s.worker.Merging? && k <= |s.queue|
  {
    s.(queue := s.queue[k..],
       worker := Merging(s.worker.parts + s.queue[..k], s.worker.bytes + Accounted(s.queue[..k]), false))
  }

  lemma MergedOneMore(s: System, k: nat)
    requires s.worker.Merging? && k < |s.queue| && Enabled(MergedTo(s, k), Merge)
    ensures Next(MergedTo(s, k), Merge) == MergedTo(s, k + 1)
  {
    assert s.queue[k..][0] == s.queue[k] && s.queue[k..][1..] == s.queue[k + 1..];
    assert s.queue[..k + 1][..k] == s.queue[..k];
    assert s.worker.parts + s.queue[..k] + [s.queue[k]] == s.worker.parts + s.queue[..k + 1];
  }

  lemma MergeEnabled(s: System, k: nat)
    requires s.worker.Merging? && k <= Coalesce.Taken(s.worker.bytes, |s.worker.parts|, s.queue)
    ensures Enabled(MergedTo(s, k), Merge) <==> k < Coalesce.Taken(s.worker.bytes, |s.worker.parts|, s.queue)
  {
    TakenPrefix(s.worker.bytes, |s.worker.parts|, s.queue, k);
  }

  /** While nothing is sent, the worker's steps merge exactly the batches that coalescing takes,
      and then the post is either full, or out of batches, or the next one is carried over. */
  lemma {:induction false} UndisturbedMerge(s: System, k: nat)
    requires s.worker.Merging? && !s.worker.sealed
    requires k <= Coalesce.Taken(s.worker.bytes, |s.worker.parts|, s.queue)
    ensures MergedMany(s, k) == MergedTo(s, k)
    ensures Enabled(MergedMany(s, k), Merge) <==> k < Coalesce.Taken(s.worker.bytes, |s.worker.parts|, s.queue)
  {
    MergeEnabled(s, k);
    if k > 0 {
      UndisturbedMerge(s, k - 1);
      MergedOneMore(s, k - 1);
    } else {
      assert s.queue[0..] == s.queue && s.worker.parts + s.queue[..0] == s.worker.parts;
    }
  }
}
