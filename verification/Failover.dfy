/** What failover promises: over every run of lease steals, commits, replays and promotions. */
module Failover {
  import opened Prelude
  import opened Tailer
  import R = Roles
  import opened Cluster
  import opened Handoff

  // ---- No committed write is lost

  /** A promotion that still holds the row succeeds exactly if the idle timestamp is not behind
      the tailed one, and then leads from the fold of the whole log, with the idle timestamp as
      its latest: of every document it holds exactly what the last transaction to write it, of
      all those ever committed, has written. */
  lemma NoCommittedWriteLost(pods: set<string>, steps: seq<Step>, pod: string, idle: nat)
    requires Enabled(Run(pods, steps), BecomeLeader(pod, idle))
    requires HoldsRow(Run(pods, steps), Run(pods, steps).nodes[pod])
    ensures var s := Run(pods, steps);
            var n := Next(s, BecomeLeader(pod, idle)).nodes[pod];
            && (n.phase.Leading? <==> idle >= s.nodes[pod].tailer.tailed)
            && (n.phase.Leading? ==>
                  && CoversLog(s.log, idle) && n.tailer.snap.ts == idle
                  && (forall t: nat | t >= idle :: Replay(s.log, t) == n.tailer.snap.state)
                  && DocumentsOf(s.log, idle, n.tailer.snap.state.docs))
  {
    var s := Run(pods, steps);
    RunSound(pods, steps);
    assert NodeOk(s.nodes[pod], s.log, s.frozen, s.row);
    LeadsFromTheFold(s, pod, idle);
    ReplayIsDocuments(s.log, idle);
  }

  lemma LeadsFromTheFold(s: System, pod: string, idle: nat)
    requires Enabled(s, BecomeLeader(pod, idle)) && HoldsRow(s, s.nodes[pod])
    requires PhaseOk(s.nodes[pod], s.log, s.frozen, s.row)
    ensures var n := BecameLeader(s, pod, idle).nodes[pod];
            && (n.phase.Leading? <==> idle >= s.nodes[pod].tailer.tailed)
            && (n.phase.Leading? ==>
                  && n.tailer.snap.ts == idle
                  && forall t: nat | t >= idle :: Replay(s.log, t) == n.tailer.snap.state)
  {
    var tailed := s.nodes[pod].tailer.tailed;
    forall t: nat | t >= idle >= tailed ensures Replay(s.log, t) == Replay(s.log, tailed) {
      ReplayQuiet(s.log, tailed, t);
    }
  }

  /** The state a promotion started from is never contradicted: at every later time it is
      still the fold of the log up to its idle timestamp, with the older leases before it and
      its own and the newer ones after it. */
  lemma WinsStayTrue(pods: set<string>, steps: seq<Step>, w: Win)
    requires w in Run(pods, steps).wins && w.held
    ensures var log := Run(pods, steps).log;
            && w.snap == Snapshot(w.idle, Replay(log, w.idle))
            && forall t | t in log :: t <= w.idle <==> log[t].lease < w.lease
  {
    RunSound(pods, steps);
    assert WinOk(w, Run(pods, steps).log, Run(pods, steps).frozen, Run(pods, steps).row);
  }

  /** Every transaction in the log was committed under the lease of a promotion that succeeded
      while holding the row, after the timestamp it started from. */
  lemma EveryCommitWasWon(pods: set<string>, steps: seq<Step>, t: nat)
    requires t in Run(pods, steps).log
    ensures exists w | w in Run(pods, steps).wins :: w.held && w.lease == Run(pods, steps).log[t].lease && w.idle < t
  {
    RunSound(pods, steps);
  }

  /** Timestamps never interleave two leaders: the log in timestamp order is in lease order. */
  lemma LogOrderedByLease(pods: set<string>, steps: seq<Step>, t: nat, u: nat)
    requires t in Run(pods, steps).log && u in Run(pods, steps).log && t <= u
    ensures Run(pods, steps).log[t].lease <= Run(pods, steps).log[u].lease
  {
    EveryCommitWasWon(pods, steps, t);
    var w :| w in Run(pods, steps).wins && w.held && w.lease == Run(pods, steps).log[t].lease && w.idle < t;
    WinsStayTrue(pods, steps, w);
  }

  // ---- A frozen prefix stays

  predicate Grows(s: System, t: System) {
    && s.row <= t.row && s.frozen <= t.frozen && s.nodes.Keys == t.nodes.Keys
  }

  ghost predicate LogGrows(s: System, t: System) {
    SameUpTo(s.log, t.log, s.frozen) && forall ts | ts in s.log :: ts in t.log && t.log[ts] == s.log[ts]
  }

  lemma StepGrows(s: System, step: Step)
    ensures Grows(s, Next(s, step)) && LogGrows(s, Next(s, step))
  {
    if Enabled(s, step) && IsNodeStep(step) {
      assert Next(s, step) == With(s, step.pod, NodeNext(s.nodes[step.pod], s.log, s.frozen, step));
    }
  }

  lemma {:induction false} RunGrows(pods: set<string>, steps: seq<Step>, more: seq<Step>)
    ensures Grows(Run(pods, steps), Run(pods, steps + more)) && LogGrows(Run(pods, steps), Run(pods, steps + more))
  {
    if more == [] {
      assert steps + more == steps;
    } else {
      var n := |more| - 1;
      RunGrows(pods, steps, more[..n]);
      assert (steps + more)[..|steps + more| - 1] == steps + more[..n];
      StepGrows(Run(pods, steps + more[..n]), more[n]);
    }
  }

  // ---- Follower refinement

  predicate IsTailing(n: Node) {
    n.phase.Warming? || n.phase.Tailing? || n.phase.Streaming?
  }

  /** Through tailing, breaks in the stream, demands and cold reloads, a follower's snapshot is
      the fold of the log up to its tailed time; and since that part of the log is frozen, it
      still is at every later time: it holds of every document what was last written to it. A
      timestamp that was waited for is covered by it. */
  lemma FollowerRefines(pods: set<string>, steps: seq<Step>, more: seq<Step>, pod: string)
    requires pod in Run(pods, steps).nodes && IsTailing(Run(pods, steps).nodes[pod])
    ensures var t := Run(pods, steps).nodes[pod].tailer;
            && t.snap == Snapshot(t.tailed, Replay(Run(pods, steps + more).log, t.tailed))
            && t.tailed <= Run(pods, steps).frozen
            && DocumentsOf(Run(pods, steps + more).log, t.tailed, t.snap.state.docs)
            && (t.progress.Some? ==> t.progress.value <= t.snap.ts)
  {
    RunSound(pods, steps);
    RunGrows(pods, steps, more);
    var s, n := Run(pods, steps), Run(pods, steps).nodes[pod];
    assert NodeOk(n, s.log, s.frozen, s.row);
    ReplaySame(s.log, Run(pods, steps + more).log, n.tailer.tailed);
    ReplayIsDocuments(Run(pods, steps + more).log, n.tailer.tailed);
  }

  predicate NotBefore(a: TState, b: TState) {
    a.tailed <= b.tailed && (a.progress.Some? ==> b.progress.Some? && a.progress.value <= b.progress.value)
  }

  lemma NodeNotBefore(n: Node, log: Log, frozen: nat, row: nat, step: Step)
    requires NodeOk(n, log, frozen, row) && IsNodeStep(step) && !step.Restart?
    requires step.StreamOne? ==> n.phase.Streaming? || n.phase.Final?
    ensures NotBefore(n.tailer, NodeNext(n, log, frozen, step).tailer)
  {}

  lemma OthersNotBefore(s: System, step: Step, pod: string)
    requires !IsNodeStep(step) && Enabled(s, step) && pod in s.nodes
    ensures pod in Next(s, step).nodes && NotBefore(s.nodes[pod].tailer, Next(s, step).nodes[pod].tailer)
  {}

  lemma StepNotBefore(s: System, step: Step, pod: string)
    requires pod in s.nodes && NodeOk(s.nodes[pod], s.log, s.frozen, s.row) && step != Restart(pod)
    ensures pod in Next(s, step).nodes && NotBefore(s.nodes[pod].tailer, Next(s, step).nodes[pod].tailer)
  {
    if Enabled(s, step) {
      if !IsNodeStep(step) {
        OthersNotBefore(s, step, pod);
      } else if step.pod == pod {
        NodeNotBefore(s.nodes[pod], s.log, s.frozen, s.row, step);
      }
    }
  }

  /** Until a backend restarts, its tailed time and its published progress never go back:
      not in the final fast-forward, not on a cold reload, and not when the lease is lost. */
  lemma {:induction false} TimeNeverGoesBack(pods: set<string>, steps: seq<Step>, more: seq<Step>, pod: string)
    requires pod in Run(pods, steps).nodes && Restart(pod) !in more
    ensures pod in Run(pods, steps + more).nodes
    ensures NotBefore(Run(pods, steps).nodes[pod].tailer, Run(pods, steps + more).nodes[pod].tailer)
  {
    if more == [] {
      assert steps + more == steps;
    } else {
      var n := |more| - 1;
      TimeNeverGoesBack(pods, steps, more[..n], pod);
      RunSound(pods, steps + more[..n]);
      assert (steps + more)[..|steps + more| - 1] == steps + more[..n];
      StepNotBefore(Run(pods, steps + more[..n]), more[n], pod);
    }
  }

  // ---- The final fast-forward, with and without the lease

  /** The snapshot is the fold of the log up to the tailed time. */
  ghost predicate IsFold(n: Node, log: Log) {
    n.tailer.snap == Snapshot(n.tailer.tailed, Replay(log, n.tailer.tailed))
  }

  /** In every run, a backend in the final fast-forward, or through with it, that holds the row
      has the fold of the log as its snapshot; through with it, of the whole log. */
  lemma HolderRefines(pods: set<string>, steps: seq<Step>, pod: string)
    requires pod in Run(pods, steps).nodes && HoldsRow(Run(pods, steps), Run(pods, steps).nodes[pod])
    requires Run(pods, steps).nodes[pod].phase.Final? || Run(pods, steps).nodes[pod].phase.Ready?
    ensures var s := Run(pods, steps);
            var n := s.nodes[pod];
            IsFold(n, s.log) && (n.phase.Ready? ==> CoversLog(s.log, n.tailer.tailed))
  {
    RunSound(pods, steps);
    var s := Run(pods, steps);
    assert NodeOk(s.nodes[pod], s.log, s.frozen, s.row);
  }

  /** There is room for a commit between the frozen prefix and the tailed time. */
  ghost predicate Gap(log: Log, frozen: nat, tailed: nat) {
    exists ts: nat :: frozen < ts <= tailed && ts !in log
  }

  /** The leader may next commit a transaction that the snapshot of `pod` should hold and does
      not. */
  ghost predicate CommitBreaks(s: System, leader: string, pod: string)
    requires pod in s.nodes
  {
    exists ts, writes :: Enabled(s, Commit(leader, ts, writes)) && !IsFold(s.nodes[pod], CommittedLog(s, ts, writes))
  }

  lemma LateCommitSpares(s: System, leader: string, pod: string, ts: nat, writes: map<nat, Option<nat>>)
    requires pod in s.nodes && IsFold(s.nodes[pod], s.log) && Enabled(s, Commit(leader, ts, writes))
    requires ts > s.nodes[pod].tailer.tailed
    ensures IsFold(s.nodes[pod], CommittedLog(s, ts, writes))
  {
    ReplaySame(s.log, CommittedLog(s, ts, writes), s.nodes[pod].tailer.tailed);
  }

  lemma EarlyCommitBreaks(s: System, leader: string, pod: string, ts: nat)
    requires pod in s.nodes && IsFold(s.nodes[pod], s.log) && Enabled(s, Commit(leader, ts, PUT_A))
    requires ts <= s.nodes[pod].tailer.tailed
    ensures !IsFold(s.nodes[pod], CommittedLog(s, ts, PUT_A))
  {
    RevisionsGrow(s.log, ts, Txn(s.row, PUT_A), s.nodes[pod].tailer.tailed);
  }

  lemma {:induction false} RevisionsGrow(log: Log, ts: nat, txn: Txn, t: nat)
    requires ts !in log
    ensures Replay(log[ts := txn], t).revisions ==
            Replay(log, t).revisions + if ts <= t then |txn.writes| else 0
  {
    if t > 0 {
      RevisionsGrow(log, ts, txn, t - 1);
    }
  }

  lemma BreakingInGap(s: System, leader: string, pod: string, ts: nat, writes: map<nat, Option<nat>>)
    requires pod in s.nodes && IsFold(s.nodes[pod], s.log) && Enabled(s, Commit(leader, ts, writes))
    requires !IsFold(s.nodes[pod], CommittedLog(s, ts, writes))
    ensures s.frozen < ts <= s.nodes[pod].tailer.tailed && ts !in s.log
  {
    if ts > s.nodes[pod].tailer.tailed {
      LateCommitSpares(s, leader, pod, ts, writes);
    }
  }

  /** Exactly when a snapshot that is a fold is not safe: while another backend leads holding
      the row, some commit of that leader breaks the snapshot if and only if there is a free
      timestamp after the frozen prefix and up to the tailed time. */
  lemma FoldBreaksExactly(s: System, leader: string, pod: string)
    requires pod in s.nodes && IsFold(s.nodes[pod], s.log)
    requires leader in s.nodes && s.nodes[leader].phase.Leading? && HoldsRow(s, s.nodes[leader]) && leader != pod
    ensures CommitBreaks(s, leader, pod) <==> Gap(s.log, s.frozen, s.nodes[pod].tailer.tailed)
  {
    var tailed := s.nodes[pod].tailer.tailed;
    if CommitBreaks(s, leader, pod) {
      var ts: nat, writes: map<nat, Option<nat>> :|
        Enabled(s, Commit(leader, ts, writes)) && !IsFold(s.nodes[pod], CommittedLog(s, ts, writes));
      BreakingInGap(s, leader, pod, ts, writes);
    }
    if Gap(s.log, s.frozen, tailed) {
      var ts: nat :| s.frozen < ts <= tailed && ts !in s.log;
      assert Enabled(s, Commit(leader, ts, PUT_A));
      EarlyCommitBreaks(s, leader, pod, ts);
    }
  }

  /** A tailing follower leaves no such room, so no commit ever breaks its snapshot. */
  lemma TailingIsSafe(pods: set<string>, steps: seq<Step>, leader: string, pod: string)
    requires pod in Run(pods, steps).nodes && IsTailing(Run(pods, steps).nodes[pod])
    ensures !Gap(Run(pods, steps).log, Run(pods, steps).frozen, Run(pods, steps).nodes[pod].tailer.tailed)
    ensures !CommitBreaks(Run(pods, steps), leader, pod)
  {
    var s := Run(pods, steps);
    FollowerRefines(pods, steps, [], pod);
    assert steps + [] == steps;
    if CommitBreaks(s, leader, pod) {
      var ts, writes :| Enabled(s, Commit(leader, ts, writes)) && !IsFold(s.nodes[pod], CommittedLog(s, ts, writes));
      LateCommitSpares(s, leader, pod, ts, writes);
    }
  }

  // ---- A holder's promotion does not fail

  /** The timestamp is no newer than what the database holds: the frozen prefix and the log. */
  ghost predicate Within(log: Log, frozen: nat, t: nat) {
    t <= frozen || exists u | u in log :: t <= u
  }

  /** Every high-water mark read in the run was within the database. */
  ghost predicate MarksWithin(pods: set<string>, steps: seq<Step>) {
    forall i | 0 <= i < |steps| && steps[i].StartFinal? ::
      var s := Run(pods, steps[..i]);
      Within(s.log, s.frozen, steps[i].maxTs)
  }

  ghost predicate NodeWithin(n: Node, log: Log, frozen: nat) {
    && Within(log, frozen, n.tailer.tailed)
    && (n.tailer.demand.Some? ==> Within(log, frozen, n.tailer.demand.value))
    && (n.phase.Streaming? || n.phase.Final? ==> Within(log, frozen, n.phase.target))
  }

  ghost predicate AllWithin(s: System) {
    forall pod | pod in s.nodes :: NodeWithin(s.nodes[pod], s.log, s.frozen)
  }

  lemma NodeStepWithin(s: System, step: Step)
    requires IsNodeStep(step) && Enabled(s, step) && NodeWithin(s.nodes[step.pod], s.log, s.frozen)
    requires step.StartFinal? ==> Within(s.log, s.frozen, step.maxTs)
    ensures NodeWithin(NodeNext(s.nodes[step.pod], s.log, s.frozen, step), s.log, s.frozen)
  {}

  lemma OtherStepTails(s: System, step: Step, pod: string)
    requires !IsNodeStep(step) && Enabled(s, step) && pod in s.nodes
    ensures var n, m := s.nodes[pod], Next(s, step).nodes[pod];
            && m.tailer.tailed == n.tailer.tailed && m.tailer.demand == n.tailer.demand
            && (m.phase == n.phase || (!m.phase.Streaming? && !m.phase.Final?))
  {}

  lemma OtherStepWithin(s: System, step: Step)
    requires !IsNodeStep(step) && Enabled(s, step) && AllWithin(s)
    requires Grows(s, Next(s, step)) && LogGrows(s, Next(s, step))
    ensures AllWithin(Next(s, step))
  {
    forall pod | pod in s.nodes ensures NodeWithin(Next(s, step).nodes[pod], Next(s, step).log, Next(s, step).frozen) {
      OtherStepTails(s, step, pod);
      NodeWithinStays(s.nodes[pod], Next(s, step).nodes[pod], s, Next(s, step));
    }
  }

  lemma NodeWithinStays(n: Node, m: Node, s: System, t: System)
    requires NodeWithin(n, s.log, s.frozen) && s.frozen <= t.frozen && forall u | u in s.log :: u in t.log
    requires m.tailer.tailed == n.tailer.tailed && m.tailer.demand == n.tailer.demand
    requires m.phase == n.phase || (!m.phase.Streaming? && !m.phase.Final?)
    ensures NodeWithin(m, t.log, t.frozen)
  {}

  lemma {:induction false} RunWithin(pods: set<string>, steps: seq<Step>)
    requires MarksWithin(pods, steps)
    ensures AllWithin(Run(pods, steps))
  {
    if steps != [] {
      var n := |steps| - 1;
      assert forall i | 0 <= i < n :: steps[..n][i] == steps[i] && steps[..n][..i] == steps[..i];
      RunWithin(pods, steps[..n]);
      StepWithin(Run(pods, steps[..n]), steps[n]);
    }
  }

  lemma StepWithin(s: System, step: Step)
    requires AllWithin(s) && (step.StartFinal? ==> Within(s.log, s.frozen, step.maxTs))
    ensures AllWithin(Next(s, step))
  {
    if Enabled(s, step) {
      if IsNodeStep(step) {
        NodeStepWithin(s, step);
      } else {
        StepGrows(s, step);
        OtherStepWithin(s, step);
      }
    }
  }

  /** As long as high-water marks are read from the database, both invariants that become_leader
      checks hold: a promotion that still holds the row always succeeds, from the fold of the
      whole log. */
  lemma HoldersSucceed(pods: set<string>, steps: seq<Step>, pod: string, idle: nat)
    requires MarksWithin(pods, steps) && Enabled(Run(pods, steps), BecomeLeader(pod, idle))
    requires HoldsRow(Run(pods, steps), Run(pods, steps).nodes[pod])
    ensures var s := Run(pods, steps);
            var n := Next(s, BecomeLeader(pod, idle)).nodes[pod];
            && idle >= s.nodes[pod].tailer.tailed && n.phase.Leading?
            && n.tailer.snap == Snapshot(idle, Replay(s.log, idle))
  {
    RunWithin(pods, steps);
    assert NodeWithin(Run(pods, steps).nodes[pod], Run(pods, steps).log, Run(pods, steps).frozen);
    NoCommittedWriteLost(pods, steps, pod, idle);
  }

  // ---- The steps of a stream are the loop of the tailer

  function StreamedMany(n: Node, log: Log, k: nat): Node {
    if k == 0 then n
    else
      var m := StreamedMany(n, log, k - 1);
      if IsStreaming(m) then StreamedOne(m, log) else m
  }

  predicate IsStreaming(n: Node) {
    n.phase.Streaming? || n.phase.Final?
  }

  /** Undisturbed, the interleavable steps of a stream add up to one fast_forward_to; broken off
      after k of them, to the one that breaks off there. */
  lemma {:induction false} StreamIsFastForward(n: Node, log: Log, k: nat)
    requires IsStreaming(n) && n.tailer.tailed < n.phase.target
    requires k <= |Stamps(log, n.tailer.tailed, n.phase.target)|
    ensures var stamps := Stamps(log, n.tailer.tailed, n.phase.target);
            var broken := n.(tailer := FastForwarded(n.tailer, log, n.phase.target, Some(k)).0);
            var whole := n.(tailer := FastForwarded(n.tailer, log, n.phase.target, None).0,
                            phase := if n.phase.Final? then Ready else Tailing);
            && (k < |stamps| ==> StreamedMany(n, log, k) == broken)
            && (k == |stamps| ==> StreamedMany(n, log, k + 1) == whole)
  {
    var stamps := Stamps(log, n.tailer.tailed, n.phase.target);
    StampsInLog(log, n.tailer.tailed, n.phase.target);
    StreamPrefix(n, log, k);
    assert stamps[..|stamps|] == stamps;
  }

  lemma {:induction false} StreamPrefix(n: Node, log: Log, k: nat)
    requires IsStreaming(n) && k <= |Stamps(log, n.tailer.tailed, n.phase.target)|
    requires forall ts | ts in Stamps(log, n.tailer.tailed, n.phase.target) :: ts in log
    ensures var m := n.(tailer := AdvancedAll(n.tailer, log, Stamps(log, n.tailer.tailed, n.phase.target)[..k]));
            && StreamedMany(n, log, k) == m
            && Stamps(log, m.tailer.tailed, n.phase.target) == Stamps(log, n.tailer.tailed, n.phase.target)[k..]
  {
    var stamps := Stamps(log, n.tailer.tailed, n.phase.target);
    if k > 0 {
      StreamPrefix(n, log, k - 1);
      var m := StreamedMany(n, log, k - 1);
      assert stamps[..k][..k - 1] == stamps[..k - 1];
      assert stamps[k - 1..][0] == stamps[k - 1];
      assert NextStamp(log, m.tailer.tailed, n.phase.target) == Some(stamps[k - 1]);
      assert stamps[k - 1..][1..] == stamps[k..];
    }
  }

  // ---- Without the lease

  const PUT_A: map<nat, Option<nat>> := map[1 := Some(7)]
  const PUT_B: map<nat, Option<nat>> := map[2 := Some(8)]

  ghost predicate Reached(s: System) {
    exists steps :: Run({"a", "b"}, steps) == s
  }

  lemma ReachNext(s: System, step: Step)
    requires Reached(s)
    ensures Reached(Next(s, step))
  {
    var steps :| Run({"a", "b"}, steps) == s;
    assert (steps + [step])[..|steps + [step]| - 1] == steps;
    assert Run({"a", "b"}, steps + [step]) == Next(s, step);
  }

  ghost predicate Promotes(n: Node, lease: nat) {
    n == Node(R.Promoting(Some(R.Persistence(Some(lease)))), None, FreshTailer(map[], 0), Warming)
  }

  lemma Granted(s: System, pod: string) returns (t: System)
    requires Reached(s) && pod in s.nodes && s.nodes[pod] == FreshNode(map[], 0)
    ensures Reached(t) && pod in t.nodes && Promotes(t.nodes[pod], t.row) && t.row == s.row + 1
    ensures t == s.(row := t.row, nodes := s.nodes[pod := t.nodes[pod]], owner := t.owner)
  {
    ReachNext(s, Begin(pod));
    var s1 := Next(s, Begin(pod));
    ReachNext(s1, Acquire(pod, 0));
    var s2 := Next(s1, Acquire(pod, 0));
    ReachNext(s2, StoreLease(pod));
    t := Next(s2, StoreLease(pod));
  }

  ghost predicate TwoPromoting(s: System) {
    && Reached(s) && "a" in s.nodes && "b" in s.nodes && s.row == 2 && s.log == map[] && s.frozen == 0
    && Promotes(s.nodes["a"], 1) && Promotes(s.nodes["b"], 2)
  }

  lemma BothGranted() returns (s: System)
    ensures TwoPromoting(s)
  {
    var s0 := Init({"a", "b"});
    assert Run({"a", "b"}, []) == s0;
    var s1 := Granted(s0, "a");
    s := Granted(s1, "b");
  }

  ghost predicate LeaderAndStale(s: System, log: Log, phase: Phase, tailer: TState) {
    && Reached(s) && "a" in s.nodes && "b" in s.nodes && s.row == 2 && s.log == log && s.frozen == 0
    && s.nodes["a"] == Node(R.Promoting(Some(R.Persistence(Some(1)))), None, tailer, phase)
    && s.nodes["b"].phase.Leading? && R.LeaseOf(s.nodes["b"].role) == Some(2)
  }

  const START := TState(Snapshot(0, EMPTY), 0, Some(0), None)

  lemma NewerLeads(s: System) returns (t: System)
    requires TwoPromoting(s)
    ensures LeaderAndStale(t, map[], Warming, FreshTailer(map[], 0))
  {
    ReachNext(s, StartFinal("b", 0));
    var s1 := Next(s, StartFinal("b", 0));
    ReachNext(s1, BecomeLeader("b", 0));
    t := Next(s1, BecomeLeader("b", 0));
  }

  lemma StaleWarms(s: System) returns (t: System)
    requires LeaderAndStale(s, map[], Warming, FreshTailer(map[], 0))
    ensures LeaderAndStale(t, map[], Tailing, START)
  {
    ReachNext(s, Warm("a"));
    t := Next(s, Warm("a"));
  }

  const LATE: Log := map[2 := Txn(2, PUT_B)]
  const BOTH: Log := map[2 := Txn(2, PUT_B), 1 := Txn(2, PUT_A)]

  lemma NewerCommits(s: System) returns (t: System)
    requires LeaderAndStale(s, map[], Tailing, START)
    ensures LeaderAndStale(t, LATE, Final(2), START)
  {
    ReachNext(s, Commit("b", 2, PUT_B));
    var s1 := Next(s, Commit("b", 2, PUT_B));
    assert s1.log == LATE;
    ReachNext(s1, StartFinal("a", 2));
    t := Next(s1, StartFinal("a", 2));
  }

  lemma StaleStreamsOne(s: System) returns (t: System)
    requires LeaderAndStale(s, LATE, Final(2), START)
    ensures LeaderAndStale(t, LATE, Final(2), Advanced(START, 2, LATE[2]))
  {
    assert NextStamp(LATE, 0, 2) == Some(2);
    ReachNext(s, StreamOne("a"));
    t := Next(s, StreamOne("a"));
  }

  lemma StaleStreams(s: System) returns (t: System)
    requires LeaderAndStale(s, LATE, Final(2), START)
    ensures LeaderAndStale(t, LATE, Ready, Advanced(START, 2, LATE[2]))
  {
    var s1 := StaleStreamsOne(s);
    ReachNext(s1, StreamOne("a"));
    t := Next(s1, StreamOne("a"));
  }

  lemma FoldOfBoth()
    ensures 1 in Replay(BOTH, 2).docs && 1 !in Advanced(START, 2, LATE[2]).snap.state.docs
  {
    assert Replay(BOTH, 0) == EMPTY;
    assert 1 in Replay(BOTH, 1).docs;
    assert Replay(BOTH, 2) == ApplyTxn(Replay(BOTH, 1), Txn(2, PUT_B));
  }

  /** Only the lease makes the final fast-forward safe: in this run a backend whose lease was
      stolen in the middle of its promotion publishes that it has reached time 2, and its
      snapshot misses a transaction that the new leader then commits at time 1. */
  lemma StolenLeaseMissesWrites() returns (steps: seq<Step>)
    ensures "a" in Run({"a", "b"}, steps).nodes
    ensures var s := Run({"a", "b"}, steps);
            var n := s.nodes["a"];
            && !HoldsRow(s, n) && HasReached(n.tailer, 2)
            && n.tailer.snap.ts == 2 && n.tailer.snap.state != Replay(s.log, 2)
  {
    var s0 := BothGranted();
    var s1 := NewerLeads(s0);
    var s2 := StaleWarms(s1);
    s2 := NewerCommits(s2);
    var s3 := StaleStreams(s2);
    ReachNext(s3, Commit("b", 1, PUT_A));
    var s := Next(s3, Commit("b", 1, PUT_A));
    assert s.log == BOTH;
    FoldOfBoth();
    steps :| Run({"a", "b"}, steps) == s;
  }
}
