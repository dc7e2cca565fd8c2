/** Warm-standby handoff: what a backend starts leading from is exactly what was committed. */
module Handoff {
  import opened Prelude
  import opened Tailer
  import R = Roles
  import opened Cluster
  import opened Fencing

  // ---- One backend

  ghost predicate Wrote(log: Log, lease: nat) {
    exists t | t in log :: log[t].lease == lease
  }

  predicate Shows(n: Node, row: nat) {
    R.LeaseOf(n.role) == Some(row)
  }

  /** While it tails, the snapshot is the fold of a frozen part of the log, and so is every
      target it chases. */
  ghost predicate Tails(t: TState, log: Log, frozen: nat) {
    Faithful(t, log) && t.tailed <= frozen && (t.demand.Some? ==> t.demand.value <= frozen)
  }

  /** In the final fast-forward the target is the end of the log, for as long as the lease is
      held; once it is lost, nothing is promised. */
  ghost predicate PhaseOk(n: Node, log: Log, frozen: nat, row: nat) {
    match n.phase
    case Warming => Tails(n.tailer, log, frozen)
    case Tailing => Tails(n.tailer, log, frozen)
    case Streaming(target) => Tails(n.tailer, log, frozen) && n.tailer.tailed <= target <= frozen
    case Final(target) =>
      && R.LeaseOf(n.role).Some? && n.tailer.tailed <= target
      && (Shows(n, row) ==> Faithful(n.tailer, log) && CoversLog(log, target))
    case Ready =>
      && R.LeaseOf(n.role).Some?
      && (Shows(n, row) ==> Faithful(n.tailer, log) && CoversLog(log, n.tailer.tailed))
    case Leading => R.LeaseOf(n.role).Some?
    case Failed => true
  }

  /** Nothing is written under a lease before its backend leads. */
  ghost predicate Unwritten(n: Node, log: Log) {
    !n.phase.Leading? ==> forall lease | Has(n, lease) :: !Wrote(log, lease)
  }

  ghost predicate NodeOk(n: Node, log: Log, frozen: nat, row: nat) {
    && PhaseOk(n, log, frozen, row) && Unwritten(n, log)
    && (n.tailer.progress.Some? ==> n.tailer.progress.value == n.tailer.tailed)
  }

  lemma FreshNodeOk(log: Log, frozen: nat, row: nat)
    ensures NodeOk(FreshNode(log, frozen), log, frozen, row)
  {}

  lemma StreamedOneOk(n: Node, log: Log, frozen: nat, row: nat)
    requires NodeOk(n, log, frozen, row) && (n.phase.Streaming? || n.phase.Final?)
    ensures NodeOk(StreamedOne(n, log), log, frozen, row)
  {
    if Faithful(n.tailer, log) {
      if NextStamp(log, n.tailer.tailed, n.phase.target).Some? {
        AdvanceFaithful(n.tailer, log, n.phase.target);
      } else {
        FinishFaithful(n.tailer, log, n.phase.target);
      }
    }
  }

  lemma NodeStepOk(s: System, step: Step)
    requires IsNodeStep(step) && Enabled(s, step) && NodeOk(s.nodes[step.pod], s.log, s.frozen, s.row)
    ensures NodeOk(NodeNext(s.nodes[step.pod], s.log, s.frozen, step), s.log, s.frozen, s.row)
  {
    if step.StreamOne? {
      StreamedOneOk(s.nodes[step.pod], s.log, s.frozen, s.row);
    }
  }

  /** What the rest of the system may do to a backend: freeze more, move the row on, and, if
      the backend does not hold the row, commit past the frozen prefix. */
  lemma NodeOkFrame(n: Node, log: Log, frozen: nat, row: nat, log': Log, frozen': nat, row': nat)
    requires NodeOk(n, log, frozen, row) && frozen <= frozen'
    requires SameUpTo(log, log', frozen)
    requires Shows(n, row') && !n.phase.Leading? ==> log' == log && row' == row
    requires Unwritten(n, log')
    ensures NodeOk(n, log', frozen', row')
  {
    if Faithful(n.tailer, log) && n.tailer.tailed <= frozen {
      ReplaySame(log, log', n.tailer.tailed);
    }
  }

  // ---- The promotions that succeeded

  /** A promotion made while holding the row starts from the fold of everything committed
      before it, and separates it from everything committed since. */
  ghost predicate WinOk(w: Win, log: Log, frozen: nat, row: nat) {
    w.held ==>
      && w.idle <= frozen && w.lease <= row
      && w.snap == Snapshot(w.idle, Replay(log, w.idle))
      && forall t | t in log :: if t <= w.idle then log[t].lease < w.lease else log[t].lease >= w.lease
  }

  predicate HeldWin(wins: seq<Win>, lease: nat, before: nat) {
    exists w | w in wins :: w.held && w.lease == lease && w.idle < before
  }

  /** Every transaction was committed by a backend that won its promotion holding the row. */
  ghost predicate LogOk(log: Log, row: nat, wins: seq<Win>) {
    forall t | t in log :: log[t].lease <= row && HeldWin(wins, log[t].lease, t)
  }

  ghost predicate LeadersWon(s: System) {
    forall pod | pod in s.nodes && s.nodes[pod].phase.Leading? && HoldsRow(s, s.nodes[pod]) ::
      HeldWin(s.wins, s.row, s.frozen + 1)
  }

  ghost predicate Sound(s: System) {
    && (forall pod | pod in s.nodes :: NodeOk(s.nodes[pod], s.log, s.frozen, s.row))
    && (forall w | w in s.wins :: WinOk(w, s.log, s.frozen, s.row))
    && LogOk(s.log, s.row, s.wins)
    && LeadersWon(s)
  }

  lemma WinOkFrame(w: Win, log: Log, frozen: nat, row: nat, log': Log, frozen': nat, row': nat)
    requires WinOk(w, log, frozen, row) && frozen <= frozen' && row <= row'
    requires SameUpTo(log, log', frozen)
    requires forall t | t in log' && t !in log :: log'[t].lease == row && t > frozen
    requires forall t | t in log :: t in log' && log'[t] == log[t]
    ensures WinOk(w, log', frozen', row')
  {
    if w.held {
      ReplaySame(log, log', w.idle);
    }
  }

  // ---- Every step

  lemma SoundNodeStep(s: System, step: Step)
    requires Sound(s) && IsNodeStep(step) && Enabled(s, step)
    ensures Sound(Next(s, step))
  {
    NodeStepOk(s, step);
    NodeStepKeepsLease(s, step);
    SoundWith(s, step.pod, NodeNext(s.nodes[step.pod], s.log, s.frozen, step));
  }

  lemma SoundWith(s: System, pod: string, n: Node)
    requires Sound(s) && pod in s.nodes && NodeOk(n, s.log, s.frozen, s.row)
    requires n.phase.Leading? ==> s.nodes[pod].phase.Leading? && R.LeaseOf(n.role) == R.LeaseOf(s.nodes[pod].role)
    ensures Sound(With(s, pod, n))
  {}

  /** No step of its own gives a leading backend another lease. */
  lemma NodeStepKeepsLease(s: System, step: Step)
    requires IsNodeStep(step) && Enabled(s, step) && NodeOk(s.nodes[step.pod], s.log, s.frozen, s.row)
    ensures var n, m := s.nodes[step.pod], NodeNext(s.nodes[step.pod], s.log, s.frozen, step);
            m.phase.Leading? ==> n.phase.Leading? && R.LeaseOf(m.role) == R.LeaseOf(n.role)
  {}

  lemma SoundAcquire(s: System, pod: string, clock: nat)
    requires Sound(s) && LeasesOwned(s) && Enabled(s, Acquire(pod, clock))
    ensures Sound(Acquired(s, pod, clock))
  {
    var t := Acquired(s, pod, clock);
    forall q | q in s.nodes ensures !Shows(s.nodes[q], t.row) && NodeOk(t.nodes[q], s.log, s.frozen, t.row) {
      if Shows(s.nodes[q], t.row) {
        assert Has(s.nodes[q], t.row);
      }
      NodeOkFrame(s.nodes[q], s.log, s.frozen, s.row, s.log, s.frozen, t.row);
    }
    forall w | w in s.wins ensures WinOk(w, s.log, s.frozen, t.row) {
      WinOkFrame(w, s.log, s.frozen, s.row, s.log, s.frozen, t.row);
    }
  }

  lemma SoundFreeze(s: System, frozen: nat)
    requires Sound(s) && s.frozen <= frozen
    ensures Sound(s.(frozen := frozen))
  {
    forall q | q in s.nodes ensures NodeOk(s.nodes[q], s.log, frozen, s.row) {
      NodeOkFrame(s.nodes[q], s.log, s.frozen, s.row, s.log, frozen, s.row);
    }
    forall w | w in s.wins ensures WinOk(w, s.log, frozen, s.row) {
      WinOkFrame(w, s.log, s.frozen, s.row, s.log, frozen, s.row);
    }
    HeldWinLater(s.wins, s.row, s.frozen + 1, frozen + 1);
  }

  lemma HeldWinLater(wins: seq<Win>, lease: nat, before: nat, later: nat)
    requires before <= later
    ensures HeldWin(wins, lease, before) ==> HeldWin(wins, lease, later)
  {}

  lemma HolderIsUnique(s: System, a: string, b: string)
    requires LeasesOwned(s) && a in s.nodes && b in s.nodes
    requires HoldsRow(s, s.nodes[a]) && Has(s.nodes[b], s.row)
    ensures a == b
  {
    assert Has(s.nodes[a], s.row);
  }

  lemma SoundCommit(s: System, pod: string, ts: nat, writes: map<nat, Option<nat>>)
    requires Sound(s) && LeasesOwned(s) && Enabled(s, Commit(pod, ts, writes))
    ensures Sound(s.(log := CommittedLog(s, ts, writes)))
  {
    var log := CommittedLog(s, ts, writes);
    forall q | q in s.nodes ensures NodeOk(s.nodes[q], log, s.frozen, s.row) {
      CommitSpares(s, pod, ts, writes, q);
      NodeOkFrame(s.nodes[q], s.log, s.frozen, s.row, log, s.frozen, s.row);
    }
    forall w | w in s.wins ensures WinOk(w, log, s.frozen, s.row) {
      WinOkFrame(w, s.log, s.frozen, s.row, log, s.frozen, s.row);
    }
    HeldWinLater(s.wins, s.row, s.frozen + 1, ts);
  }

  /** A commit goes under a lease that no backend still promoting has. */
  lemma CommitSpares(s: System, pod: string, ts: nat, writes: map<nat, Option<nat>>, q: string)
    requires LeasesOwned(s) && Enabled(s, Commit(pod, ts, writes)) && q in s.nodes && Unwritten(s.nodes[q], s.log)
    ensures Unwritten(s.nodes[q], CommittedLog(s, ts, writes))
    ensures Shows(s.nodes[q], s.row) ==> s.nodes[q].phase.Leading?
  {
    if Has(s.nodes[q], s.row) {
      HolderIsUnique(s, pod, q);
    }
  }

  /** become_leader: the win it records starts from the fold of the whole log. */
  lemma NewWinOk(s: System, pod: string, idle: nat)
    requires Sound(s) && Enabled(s, BecomeLeader(pod, idle)) && HoldsRow(s, s.nodes[pod])
    requires idle >= s.nodes[pod].tailer.tailed
    ensures WinOk(Win(pod, s.row, idle, Bumped(s.nodes[pod].tailer.snap, idle), true), s.log, idle, s.row)
  {
    var n := s.nodes[pod];
    assert NodeOk(n, s.log, s.frozen, s.row) && Has(n, s.row);
    ReplayQuiet(s.log, n.tailer.tailed, idle);
  }

  lemma SoundLeader(s: System, pod: string, idle: nat)
    requires Sound(s) && Enabled(s, BecomeLeader(pod, idle))
    ensures Sound(BecameLeader(s, pod, idle))
  {
    var n := s.nodes[pod];
    var t := BecameLeader(s, pod, idle);
    var held := HoldsRow(s, n);
    var f := s.(frozen := t.frozen);
    SoundFreeze(s, t.frozen);
    if t.nodes[pod].phase.Leading? {
      var w := Win(pod, R.LeaseOf(n.role).value, idle, Bumped(n.tailer.snap, idle), held);
      assert t.wins == s.wins + [w];
      if held {
        NewWinOk(s, pod, idle);
        assert w in t.wins;
        assert HeldWin(t.wins, s.row, t.frozen + 1);
      }
      AddWin(f, pod, t.nodes[pod], w);
    } else {
      assert t == With(f, pod, t.nodes[pod]);
    }
  }

  lemma AddWin(s: System, pod: string, n: Node, w: Win)
    requires Sound(s) && pod in s.nodes && NodeOk(n, s.log, s.frozen, s.row) && WinOk(w, s.log, s.frozen, s.row)
    requires Shows(n, s.row) ==> HeldWin(s.wins + [w], s.row, s.frozen + 1)
    ensures Sound(With(s, pod, n).(wins := s.wins + [w]))
  {
    var wins := s.wins + [w];
    forall lease, before | HeldWin(s.wins, lease, before) ensures HeldWin(wins, lease, before) {
      var v :| v in s.wins && v.held && v.lease == lease && v.idle < before;
      assert v in wins;
    }
  }

  /** Polls, requests and their answers do not touch the database or a backend. */
  lemma SoundMessage(s: System, step: Step)
    requires Sound(s) && Enabled(s, step) && (step.PollNode? || step.DecideOn? || step.Deliver?)
    ensures Sound(Next(s, step))
  {
    SoundSame(s, Next(s, step));
  }

  lemma SoundSame(s: System, t: System)
    requires Sound(s) && t.nodes == s.nodes && t.log == s.log
    requires t.frozen == s.frozen && t.row == s.row && t.wins == s.wins
    ensures Sound(t)
  {}

  lemma SoundStep(s: System, step: Step)
    requires Sound(s) && LeasesOwned(s)
    ensures Sound(Next(s, step))
  {
    if Enabled(s, step) {
      match step
      case Acquire(pod, clock) => SoundAcquire(s, pod, clock);
      case BecomeLeader(pod, idle) => SoundLeader(s, pod, idle);
      case Commit(pod, ts, writes) => SoundCommit(s, pod, ts, writes);
      case Freeze(_, ts) => SoundFreeze(s, ts);
      case PollNode(_, _, _, _) => SoundMessage(s, step);
      case DecideOn(_, _) => SoundMessage(s, step);
      case Deliver(_) => SoundMessage(s, step);
      case _ => SoundNodeStep(s, step);
    }
  }

  lemma {:induction false} RunSound(pods: set<string>, steps: seq<Step>)
    ensures Sound(Run(pods, steps))
  {
    if steps == [] {
      FreshNodeOk(map[], 0, 0);
    } else {
      var n := |steps| - 1;
      RunSound(pods, steps[..n]);
      RunFenced(pods, steps[..n]);
      SoundStep(Run(pods, steps[..n]), steps[n]);
    }
  }
}
