/** The usage forwarder's worker on its own: coalescing queued batches into bounded posts, and
    draining the queue at shutdown. */
module Coalesce {
  import opened Prelude

  /** An event, as its JSON. */
  datatype Event = Event(json: string)

  type Batch = seq<Event>

  const MAX_BATCHES_PER_POST := 32
  const MAX_POST_BYTES := 4 * 1024 * 1024
  const CHANNEL_CAPACITY := 2048

  function Total(batch: Batch): nat {
    if batch == [] then 0 else Total(batch[..|batch| - 1]) + |batch[|batch| - 1].json|
  }

  /** The length of the JSON array: the events, the commas between them, and two brackets. */
  function JsonLen(batch: Batch): nat {
    Total(batch) + (if batch == [] then 0 else |batch| - 1) + 2
  }

  /** The events with commas between them. */
  function Joined(batch: Batch): string {
    if batch == [] then ""
    else if |batch| == 1 then batch[0].json
    else Joined(batch[..|batch| - 1]) + "," + batch[|batch| - 1].json
  }

  /** The JSON array that is posted. */
  function Json(batch: Batch): string {
    "[" + Joined(batch) + "]"
  }

  lemma {:induction false} JoinedLength(batch: Batch)
    ensures |Joined(batch)| == Total(batch) + if batch == [] then 0 else |batch| - 1
  {
    if |batch| > 1 {
      JoinedLength(batch[..|batch| - 1]);
    } else if |batch| == 1 {
      assert batch[..0] == [];
    }
  }

  /** The length the worker computes is that of the array. */
  lemma JsonLenIsLength(batch: Batch)
    ensures JsonLen(batch) == |Json(batch)|
  {
    JoinedLength(batch);
  }

  function Flatten(parts: seq<Batch>): Batch {
    if parts == [] then [] else Flatten(parts[..|parts| - 1]) + parts[|parts| - 1]
  }

  /** The bytes the worker accounts for: each batch as an array of its own. */
  function Accounted(parts: seq<Batch>): nat {
    if parts == [] then 0 else Accounted(parts[..|parts| - 1]) + JsonLen(parts[|parts| - 1])
  }

  predicate NonEmpty(parts: seq<Batch>) {
    forall i | 0 <= i < |parts| :: parts[i] != []
  }

  lemma {:induction false} TotalAppend(a: Batch, b: Batch)
    ensures Total(a + b) == Total(a) + Total(b)
  {
    if b == [] {
      assert a + b == a;
    } else {
      TotalAppend(a, b[..|b| - 1]);
      assert (a + b)[..|a + b| - 1] == a + b[..|b| - 1];
    }
  }

  /** Merging arrays replaces each inner pair of brackets by a comma: the merged array is
      shorter than the arrays apart, which are accounted for, by one for each merge. */
  lemma {:induction false} MergedLength(parts: seq<Batch>)
    requires parts != [] && NonEmpty(parts)
    ensures JsonLen(Flatten(parts)) == Accounted(parts) - (|parts| - 1) && Flatten(parts) != []
  {
    var n := |parts| - 1;
    assert parts[n] != [];
    if n == 0 {
      assert Flatten(parts) == parts[0];
    } else {
      MergedLength(parts[..n]);
      TotalAppend(Flatten(parts[..n]), parts[n]);
    }
  }

  // ---- One post

  /** How many of the queued batches are merged into a post that has `bytes` accounted for in
      `batches` batches. */
  function Taken(bytes: nat, batches: nat, queue: seq<Batch>): (k: nat)
    ensures k <= |queue|
    decreases |queue|
  {
    if batches >= MAX_BATCHES_PER_POST || queue == [] || bytes + JsonLen(queue[0]) > MAX_POST_BYTES then 0
    else 1 + Taken(bytes + JsonLen(queue[0]), batches + 1, queue[1..])
  }

  /** A post of the first batch and the next `k` fits. */
  predicate Fits(bytes: nat, batches: nat, queue: seq<Batch>, k: nat) {
    k <= |queue| && (k > 0 ==> batches + k <= 32 && bytes + Accounted(queue[..k]) <= 4 * 1024 * 1024)
  }

  lemma {:induction false} AccountedHead(queue: seq<Batch>, k: nat)
    requires 0 < k <= |queue|
    ensures Accounted(queue[..k]) == JsonLen(queue[0]) + Accounted(queue[1..][..k - 1])
  {
    if k == 1 {
      assert queue[..1][..0] == [] && queue[1..][..0] == [];
    } else {
      AccountedHead(queue, k - 1);
      assert queue[..k][..k - 1] == queue[..k - 1];
      assert queue[1..][..k - 1][..k - 2] == queue[1..][..k - 2];
      assert queue[1..][..k - 1][k - 2] == queue[k - 1];
    }
  }

  /** The worker merges as many queued batches as fit, and no more. */
  lemma {:induction false} TakenIsMaximal(bytes: nat, batches: nat, queue: seq<Batch>, k: nat)
    ensures Fits(bytes, batches, queue, Taken(bytes, batches, queue))
    ensures Fits(bytes, batches, queue, k) ==> k <= Taken(bytes, batches, queue)
    decreases |queue|
  {
    var n := Taken(bytes, batches, queue);
    if k > 0 && k <= |queue| {
      AccountedHead(queue, k);
    }
    if n > 0 {
      TakenIsMaximal(bytes + JsonLen(queue[0]), batches + 1, queue[1..], if k > 0 then k - 1 else 0);
      AccountedHead(queue, n);
    }
  }

  // ---- Attempts

  datatype Outcome = Success | ClientError | Retryable

  const ATTEMPTS := 3

  /** How the sink answers each attempt of each post. */
  type Answers = (nat, nat) -> Outcome

  /** What becomes of the n-th post, from the given attempt on. */
  function Delivers(answers: Answers, n: nat, attempt: nat): bool
    decreases ATTEMPTS - attempt
  {
    attempt <= ATTEMPTS
    && (answers(n, attempt).Success? || (answers(n, attempt).Retryable? && Delivers(answers, n, attempt + 1)))
  }

  /** A post is delivered exactly if one of three attempts succeeds and every one before it
      could be retried; a client error drops it at once. */
  lemma DeliversExactly(answers: Answers, n: nat)
    ensures Delivers(answers, n, 1) <==>
            exists a: nat | 1 <= a <= 3 ::
              answers(n, a).Success? && forall b: nat | 1 <= b < a :: answers(n, b).Retryable?
  {
    assert Delivers(answers, n, 2) <==>
           answers(n, 2).Success? || (answers(n, 2).Retryable? && Delivers(answers, n, 3));
    assert Delivers(answers, n, 3) <==> answers(n, 3).Success?;
  }

  // ---- The worker, in place

  datatype Post = Post(events: Batch, batches: nat, delivered: bool)

  function Posted(posts: seq<Post>): Batch {
    if posts == [] then [] else posts[0].events + Posted(posts[1..])
  }

  function BatchesIn(posts: seq<Post>, delivered: bool): nat {
    if posts == [] then 0
    else (if posts[0].delivered == delivered then posts[0].batches else 0) + BatchesIn(posts[1..], delivered)
  }

  predicate Bounded(p: Post) {
    1 <= p.batches <= 32 && (p.batches > 1 ==> |Json(p.events)| <= 4_194_304)
  }

  /** The post a worker makes next from a queue. */
  function NextPost(queue: seq<Batch>, delivered: bool): Post
    requires queue != []
  {
    var k := 1 + Taken(JsonLen(queue[0]), 1, queue[1..]);
    Post(Flatten(queue[..k]), k, delivered)
  }

  /** The posts that drain a queue, the first of them being the n-th ever made. */
  function Draining(queue: seq<Batch>, answers: Answers, n: nat): seq<Post>
    decreases |queue|
  {
    if queue == [] then []
    else
      var p := NextPost(queue, Delivers(answers, n, 1));
      [p] + Draining(queue[p.batches..], answers, n + 1)
  }

  function QueueOf(carry: Option<Batch>, queue: seq<Batch>): seq<Batch> {
    if carry.Some? then [carry.value] + queue else queue
  }

  class Sink {
    var queue: seq<Batch>
    var outstanding: int
    var dropped: nat
    var posts: seq<Post>

    /** Takes batches off the queue until 32 are merged, the queue is empty, or the next one
        would make the post too large; that one is carried over. */
    method CoalesceBatches(first: Batch) returns (events: Batch, batches: nat, carry: Option<Batch>)
      modifies this`queue
      ensures var all := [first] + old(queue);
              && batches == 1 + Taken(JsonLen(first), 1, old(queue)) && events == Flatten(all[..batches])
              && QueueOf(carry, queue) == all[batches..]
              && (carry.Some? <==> batches < MAX_BATCHES_PER_POST && batches < |all|)
    {
      events, batches, carry := first, 1, None;
      ghost var all := [first] + queue;
      var bytes: nat := JsonLen(first);
      assert all[..1] == [first] && all[1..] == queue;
      while batches < MAX_BATCHES_PER_POST
        invariant 1 <= batches <= |all| && queue == all[batches..]
        invariant events == Flatten(all[..batches])
        invariant Taken(JsonLen(first), 1, all[1..]) == batches - 1 + Taken(bytes, batches, queue)
        decreases |queue|
      {
        if queue == [] {
          break;
        }
        var more := queue[0];
        var moreBytes := JsonLen(more);
        queue := queue[1..];
        if bytes + moreBytes > MAX_POST_BYTES {
          carry := Some(more);
          break;
        }
        bytes := bytes + moreBytes;
        assert all[..batches + 1][..batches] == all[..batches];
        events := events + more;
        batches := batches + 1;
      }
    }

    method Send(events: Batch, batches: nat, answers: Answers) returns (delivered: bool)
      modifies this`dropped
      ensures events == [] ==> delivered && dropped == old(dropped)
      ensures events != [] ==> delivered == Delivers(answers, |posts|, 1)
      ensures dropped == old(dropped) + if delivered then 0 else batches
    {
      if events == [] {
        return true;
      }
      for attempt := 1 to ATTEMPTS + 1
        invariant dropped == old(dropped) && Delivers(answers, |posts|, 1) == Delivers(answers, |posts|, attempt)
      {
        var outcome := answers(|posts|, attempt);
        if outcome.Success? {
          return true;
        }
        if outcome.ClientError? {
          dropped := dropped + batches;
          return false;
        }
      }
      dropped := dropped + batches;
      delivered := false;
    }

    /** One post takes exactly the next batches of the queue. */
    method PostCoalesced(first: Batch, answers: Answers) returns (carry: Option<Batch>)
      requires first != []
      modifies this
      ensures var all := [first] + old(queue);
              var p := NextPost(all, Delivers(answers, |old(posts)|, 1));
              && posts == old(posts) + [p] && QueueOf(carry, queue) == all[p.batches..]
              && outstanding == old(outstanding) - p.batches
              && dropped == old(dropped) + if p.delivered then 0 else p.batches
    {
      ghost var all := [first] + queue;
      assert all[1..] == queue;
      var events, batches;
      events, batches, carry := CoalesceBatches(first);
      HeadInFlatten(all, batches);
      var delivered := Send(events, batches, answers);
      posts := posts + [Post(events, batches, delivered)];
      outstanding := outstanding - batches;
    }

    /** The next batch to post: the one carried over, or else the oldest one queued. */
    method PostNext(carry: Option<Batch>, answers: Answers) returns (rest: Option<Batch>)
      requires QueueOf(carry, queue) != [] && NonEmpty(QueueOf(carry, queue))
      modifies this
      ensures var all := old(QueueOf(carry, queue));
              var p := NextPost(all, Delivers(answers, |old(posts)|, 1));
              && posts == old(posts) + [p] && QueueOf(rest, queue) == all[p.batches..]
              && outstanding == old(outstanding) - p.batches
              && dropped == old(dropped) + if p.delivered then 0 else p.batches
    {
      ghost var all := QueueOf(carry, queue);
      var first;
      if carry.Some? {
        first := carry.value;
      } else {
        first := queue[0];
        queue := queue[1..];
      }
      assert [first] + queue == all && first == all[0];
      rest := PostCoalesced(first, answers);
    }

    /** Drains the queue; it terminates, with nothing queued and nothing carried over. */
    method Drain(answers: Answers)
      requires NonEmpty(queue)
      modifies this
      ensures queue == [] && posts == old(posts) + Draining(old(queue), answers, |old(posts)|)
      ensures outstanding == old(outstanding) - |old(queue)|
      ensures dropped == old(dropped) + BatchesIn(Draining(old(queue), answers, |old(posts)|), false)
    {
      var carry: Option<Batch> := None;
      ghost var plan, lost := PostsLeft(queue, posts, answers), DroppedLeft(queue, |posts|, dropped, answers);
      while carry.Some? || queue != []
        invariant NonEmpty(QueueOf(carry, queue))
        invariant PostsLeft(QueueOf(carry, queue), posts, answers) == plan
        invariant DroppedLeft(QueueOf(carry, queue), |posts|, dropped, answers) == lost
        invariant outstanding == old(outstanding) - |old(queue)| + |QueueOf(carry, queue)|
        decreases |QueueOf(carry, queue)|
      {
        PostsLeftStep(QueueOf(carry, queue), posts, answers);
        DroppedLeftStep(QueueOf(carry, queue), |posts|, dropped, answers);
        carry := PostNext(carry, answers);
      }
    }
  }

  lemma {:induction false} HeadInFlatten(parts: seq<Batch>, k: nat)
    requires 0 < k <= |parts| && parts[0] != []
    ensures Flatten(parts[..k]) != []
  {
    if k > 1 {
      HeadInFlatten(parts, k - 1);
      assert parts[..k][..k - 1] == parts[..k - 1];
    }
  }

  lemma DrainingStep(queue: seq<Batch>, answers: Answers, n: nat)
    requires queue != []
    ensures var p := NextPost(queue, Delivers(answers, n, 1));
            p.batches <= |queue| && Draining(queue, answers, n) == [p] + Draining(queue[p.batches..], answers, n + 1)
  {}

  lemma BatchesInMore(p: Post, rest: seq<Post>, delivered: bool)
    ensures BatchesIn([p] + rest, delivered) ==
            (if p.delivered == delivered then p.batches else 0) + BatchesIn(rest, delivered)
    ensures Posted([p] + rest) == p.events + Posted(rest)
  {
    assert ([p] + rest)[1..] == rest;
  }

  /** What the posts will be, once a queue is drained. */
  function PostsLeft(queue: seq<Batch>, posts: seq<Post>, answers: Answers): seq<Post> {
    posts + Draining(queue, answers, |posts|)
  }

  function DroppedLeft(queue: seq<Batch>, n: nat, dropped: nat, answers: Answers): nat {
    dropped + BatchesIn(Draining(queue, answers, n), false)
  }

  lemma PostsLeftStep(queue: seq<Batch>, posts: seq<Post>, answers: Answers)
    requires queue != []
    ensures var p := NextPost(queue, Delivers(answers, |posts|, 1));
            && p.batches <= |queue|
            && PostsLeft(queue[p.batches..], posts + [p], answers) == PostsLeft(queue, posts, answers)
  {
    DrainingStep(queue, answers, |posts|);
    var p := NextPost(queue, Delivers(answers, |posts|, 1));
    Regroup(posts, p, Draining(queue[p.batches..], answers, |posts| + 1));
  }

  lemma DroppedLeftStep(queue: seq<Batch>, n: nat, dropped: nat, answers: Answers)
    requires queue != []
    ensures var p := NextPost(queue, Delivers(answers, n, 1));
            var now := dropped + if p.delivered then 0 else p.batches;
            && p.batches <= |queue|
            && DroppedLeft(queue[p.batches..], n + 1, now, answers) == DroppedLeft(queue, n, dropped, answers)
  {
    DrainingStep(queue, answers, n);
    var p := NextPost(queue, Delivers(answers, n, 1));
    BatchesInMore(p, Draining(queue[p.batches..], answers, n + 1), false);
  }

  lemma Regroup(posts: seq<Post>, p: Post, rest: seq<Post>)
    ensures posts + ([p] + rest) == posts + [p] + rest && |posts + [p]| == |posts| + 1
  {}

  /** What draining posts: everything that was queued, once each and in order, each batch
      either delivered or dropped, in posts within the bounds. */
  lemma {:induction false} DrainingConserves(queue: seq<Batch>, answers: Answers, n: nat)
    requires NonEmpty(queue)
    ensures var posts := Draining(queue, answers, n);
            && Posted(posts) == Flatten(queue)
            && BatchesIn(posts, true) + BatchesIn(posts, false) == |queue|
            && forall i | 0 <= i < |posts| :: Bounded(posts[i])
    decreases |queue|
  {
    if queue != [] {
      var p := NextPost(queue, Delivers(answers, n, 1));
      NextPostBounded(queue, p.delivered);
      DrainingStep(queue, answers, n);
      DrainingConserves(queue[p.batches..], answers, n + 1);
      FlattenSplit(queue, p.batches, |queue|);
      assert queue[..|queue|] == queue && queue[p.batches..|queue|] == queue[p.batches..];
      BatchesInMore(p, Draining(queue[p.batches..], answers, n + 1), true);
      BatchesInMore(p, Draining(queue[p.batches..], answers, n + 1), false);
    }
  }

  /** A post holds at most 32 batches, and if it holds several, its event array is at most
      4 MiB of JSON; a single batch is posted whatever its size. */
  lemma NextPostBounded(queue: seq<Batch>, delivered: bool)
    requires queue != [] && NonEmpty(queue)
    ensures Bounded(NextPost(queue, delivered)) && NextPost(queue, delivered).events != []
  {
    var p := NextPost(queue, delivered);
    PostIsBounded(queue[0], queue[1..]);
    JsonLenIsLength(p.events);
    assert [queue[0]] + queue[1..][..p.batches - 1] == queue[..p.batches];
  }

  lemma PostIsBounded(first: Batch, queue: seq<Batch>)
    requires first != [] && NonEmpty(queue)
    ensures var k := Taken(JsonLen(first), 1, queue);
            var parts := [first] + queue[..k];
            && 1 + k <= MAX_BATCHES_PER_POST && Flatten(parts) != []
            && JsonLen(Flatten(parts)) == Accounted(parts) - k
            && (k > 0 ==> JsonLen(Flatten(parts)) <= MAX_POST_BYTES)
  {
    TakenIsMaximal(JsonLen(first), 1, queue, 0);
    var k := Taken(JsonLen(first), 1, queue);
    var parts := [first] + queue[..k];
    MergedLength(parts);
    AccountedHead(parts, |parts|);
    assert parts[..|parts|] == parts && parts[1..][..k] == queue[..k];
  }

  lemma {:induction false} FlattenSplit(all: seq<Batch>, lo: nat, hi: nat)
    requires lo <= hi <= |all|
    ensures Flatten(all[..hi]) == Flatten(all[..lo]) + Flatten(all[lo..hi])
  {
    if lo == hi {
      assert all[lo..hi] == [];
    } else {
      FlattenSplit(all, lo, hi - 1);
      assert all[..hi][..hi - 1] == all[..hi - 1] && all[lo..hi][..hi - lo - 1] == all[lo..hi - 1];
    }
  }
}
