/** Several backends sharing one database, and the election watching them: lease steals,
    lease-guarded commits, log replay, warm-standby promotion, stale polls and delayed
    demotions, in any interleaving. Every step is total, so a run is any sequence of steps. */
module Cluster {
  import opened Prelude
  import opened Decide
  import opened DecideOrder
  import R = Roles
  import opened Tailer

  /** What the tailer of a backend is doing. `Warming` lasts until search is bootstrapped;
      `Final` and `Ready` are the two halves of the promotion handshake; after `Leading` the
      committer runs; `Failed` backends can only restart. */
  datatype Phase =
    | Warming
    | Tailing
    | Streaming(target: nat)
    | Final(target: nat)
    | Ready
    | Leading
    | Failed

  /** One backend. `acquired` is a lease the database has granted that the role does not show
      yet. */
  datatype Node = Node(role: R.Role, acquired: Option<nat>, tailer: TState, phase: Phase)

  /** A promotion that succeeded: the lease it was made under, the timestamp and state it
      started from, and whether the backend still held the lease row at that moment. */
  datatype Win = Win(pod: string, lease: nat, idle: nat, snap: Snapshot, held: bool)

  /** A demotion that check_demotion accepted, with the lease of its target and the lease row
      at that moment. */
  datatype Accepted = Accepted(pod: string, lease: Option<nat>, row: nat)

  /** `frozen` is the newest persisted repeatable timestamp; `owner` remembers who acquired
      each lease. `polls` and `requests` are messages: they are never consumed, so they can
      arrive late, out of order and more than once. */
  datatype System = System(
    row: nat,
    log: Log,
    frozen: nat,
    nodes: map<string, Node>,
    owner: map<nat, string>,
    polls: seq<Observation>,
    requests: seq<DemoteTarget>,
    wins: seq<Win>,
    accepted: seq<Accepted>)

  datatype Step =
    // the role machine and the lease
    | Begin(pod: string)
    | Acquire(pod: string, clock: nat)
    | StoreLease(pod: string)
    | Abort(pod: string)
    | Finish(pod: string)
    | Restart(pod: string)
    // the tailer
    | Warm(pod: string)
    | Ask(pod: string, ts: nat)
    | TailStart(pod: string)
    | StreamOne(pod: string)
    | StreamBreak(pod: string)
    | Reload(pod: string)
    // the handoff
    | StartFinal(pod: string, maxTs: nat)
    | BecomeLeader(pod: string, idle: nat)
    // the leader's writes
    | Commit(pod: string, ts: nat, writes: map<nat, Option<nat>>)
    | Freeze(pod: string, ts: nat)
    // the election
    | PollNode(pod: string, be: Backend, unverified: Option<nat>, healthy: bool)
    | DecideOn(obs: seq<Observation>, params: DecideParams)
    | Deliver(request: nat)

  function FreshTailer(log: Log, frozen: nat): TState {
    TState(Snapshot(frozen, Replay(log, frozen)), frozen, None, None)
  }

  function FreshNode(log: Log, frozen: nat): Node {
    Node(R.Follower, None, FreshTailer(log, frozen), Warming)
  }

  /** All the backends start as followers of an empty log. */
  function Init(pods: set<string>): System {
    System(0, map[], 0, map pod | pod in pods :: FreshNode(map[], 0), map[], [], [], [], [])
  }

  /** The timestamp is at least that of every transaction in the log. */
  ghost predicate CoversLog(log: Log, ts: nat) {
    forall t | t in log :: t <= ts
  }

  predicate HoldsRow(s: System, n: Node) {
    R.LeaseOf(n.role) == Some(s.row)
  }

  function With(s: System, pod: string, n: Node): System {
    s.(nodes := s.nodes[pod := n])
  }

  /** What the leadership endpoint of a backend answers. */
  function Answer(n: Node, be: Backend, unverified: Option<nat>, healthy: bool): Observation {
    var role := R.SnapshotOf(n.role);
    Observation(be, Leadership(role.name, role.isLeader, n.tailer.snap.ts, role.leaseTs,
                               if role.isLeader then unverified else None,
                               healthy), true, false)
  }

  /** The election may decide on any mix of answers received at any time, and of pods it could
      not reach. */
  ghost predicate Genuine(s: System, obs: seq<Observation>) {
    DistinctPods(obs) && forall o | o in obs :: o.reach ==> o in s.polls
  }

  // ---- The steps of one backend

  function Acquired(s: System, pod: string, clock: nat): System
    requires pod in s.nodes
  {
    var lease := R.Stolen(s.row, clock);
    With(s, pod, s.nodes[pod].(acquired := Some(lease))).(row := lease, owner := s.owner[lease := pod])
  }

  function StreamedOne(n: Node, log: Log): Node
    requires n.phase.Streaming? || n.phase.Final?
  {
    match NextStamp(log, n.tailer.tailed, n.phase.target)
    case Some(ts) => n.(tailer := Advanced(n.tailer, ts, log[ts]))
    case None =>
      n.(tailer := Finished(n.tailer, n.phase.target), phase := if n.phase.Final? then Ready else Tailing)
  }

  /** become_leader after the handshake: it fails if the idle timestamp is behind the tailed
      one, and otherwise raises the snapshot to it. */
  function BecameLeader(s: System, pod: string, idle: nat): System
    requires pod in s.nodes && R.LeaseOf(s.nodes[pod].role).Some?
  {
    var n := s.nodes[pod];
    var snap := Bumped(n.tailer.snap, idle);
    if idle < n.tailer.tailed || snap.ts != idle then With(s, pod, n.(phase := Failed))
    else
      var lease := R.LeaseOf(n.role).value;
      With(s, pod, n.(phase := Leading, tailer := n.tailer.(snap := snap)))
      .(frozen := if lease == s.row && idle > s.frozen then idle else s.frozen,
        wins := s.wins + [Win(pod, lease, idle, snap, lease == s.row)])
  }

  /** The log after the backend holding the row commits. */
  function CommittedLog(s: System, ts: nat, writes: map<nat, Option<nat>>): Log {
    s.log[ts := Txn(s.row, writes)]
  }

  ghost predicate Enabled(s: System, step: Step) {
    match step
    case Begin(pod) => pod in s.nodes && s.nodes[pod].role.Follower?
    case Acquire(pod, _) => pod in s.nodes && s.nodes[pod].role == R.Promoting(None) && s.nodes[pod].acquired.None?
    case StoreLease(pod) => pod in s.nodes && s.nodes[pod].role == R.Promoting(None) && s.nodes[pod].acquired.Some?
    case Abort(pod) => pod in s.nodes && s.nodes[pod].role == R.Promoting(None)
    case Finish(pod) =>
      pod in s.nodes && s.nodes[pod].phase.Leading? && s.nodes[pod].role.Promoting? && s.nodes[pod].role.acquired.Some?
    case Restart(pod) => pod in s.nodes
    case Warm(pod) => pod in s.nodes && s.nodes[pod].phase.Warming?
    case Ask(pod, ts) => pod in s.nodes && ts <= s.frozen
    case TailStart(pod) => pod in s.nodes && s.nodes[pod].phase.Tailing?
    case StreamOne(pod) => pod in s.nodes && (s.nodes[pod].phase.Streaming? || s.nodes[pod].phase.Final?)
    case StreamBreak(pod) => pod in s.nodes && (s.nodes[pod].phase.Streaming? || s.nodes[pod].phase.Final?)
    case Reload(pod) => pod in s.nodes && (s.nodes[pod].phase.Warming? || s.nodes[pod].phase.Tailing?)
    case StartFinal(pod, maxTs) =>
      && pod in s.nodes && (s.nodes[pod].phase.Warming? || s.nodes[pod].phase.Tailing?)
      && s.nodes[pod].role.Promoting? && R.LeaseOf(s.nodes[pod].role).Some?
      && CoversLog(s.log, maxTs)
    case BecomeLeader(pod, idle) =>
      && pod in s.nodes && s.nodes[pod].phase.Ready? && R.LeaseOf(s.nodes[pod].role).Some?
      && CoversLog(s.log, idle) && idle >= s.frozen
    case Commit(pod, ts, _) =>
      pod in s.nodes && s.nodes[pod].phase.Leading? && HoldsRow(s, s.nodes[pod]) && ts > s.frozen && ts !in s.log
    case Freeze(pod, ts) =>
      pod in s.nodes && s.nodes[pod].phase.Leading? && HoldsRow(s, s.nodes[pod]) && ts >= s.frozen
    case PollNode(pod, be, _, _) => pod in s.nodes && be.pod == pod
    case DecideOn(obs, _) => Genuine(s, obs)
    case Deliver(i) => i < |s.requests| && s.requests[i].pod in s.nodes
  }

  /** The steps that change one backend and nothing else. */
  function NodeNext(n: Node, log: Log, frozen: nat, step: Step): Node {
    match step
    case Begin(_) => n.(role := R.RoleNext(n.role, R.Started))
    case StoreLease(_) => n.(role := R.RoleNext(n.role, R.Granted(R.Persistence(n.acquired))), acquired := None)
    case Abort(_) => n.(role := R.RoleNext(n.role, R.GivenUp), acquired := None)
    case Finish(_) =>
      if n.role.Promoting? && n.role.acquired.Some?
      then n.(role := R.RoleNext(n.role, R.Promoted(n.role.acquired.value)))
      else n
    case Restart(_) => FreshNode(log, frozen)
    case Warm(_) => n.(tailer := Warmed(n.tailer), phase := Tailing)
    case Ask(_, ts) => n.(tailer := n.tailer.(demand := Demanded(n.tailer.demand, ts)))
    case TailStart(_) =>
      var target := NextTarget(n.tailer, frozen);
      if target <= n.tailer.tailed then n else n.(phase := Streaming(target))
    case StreamOne(_) => if n.phase.Streaming? || n.phase.Final? then StreamedOne(n, log) else n
    case StreamBreak(_) => n.(phase := if n.phase.Final? then Failed else Tailing)
    case Reload(_) =>
      var at := if frozen > n.tailer.tailed then frozen else n.tailer.tailed;
      n.(tailer := Reloaded(n.tailer, at, Replay(log, at)), phase := Tailing)
    case StartFinal(_, maxTs) => n.(phase := if maxTs > n.tailer.tailed then Final(maxTs) else Ready)
    case _ => n
  }

  predicate IsNodeStep(step: Step) {
    !step.Acquire? && !step.BecomeLeader? && !step.Commit? && !step.Freeze? && !step.PollNode? && !step.DecideOn?
    && !step.Deliver?
  }

  ghost function Next(s: System, step: Step): System {
    if !Enabled(s, step) then s
    else
      match step
      case Acquire(pod, clock) => Acquired(s, pod, clock)
      case BecomeLeader(pod, idle) => BecameLeader(s, pod, idle)
      case Commit(pod, ts, writes) => s.(log := CommittedLog(s, ts, writes))
      case Freeze(_, ts) => s.(frozen := ts)
      case PollNode(pod, be, unverified, healthy) =>
        s.(polls := s.polls + [Answer(s.nodes[pod], be, unverified, healthy)])
      case DecideOn(obs, p) => s.(requests := s.requests + DecisionOf(obs, p).demotes)
      case Deliver(i) =>
        var n := s.nodes[s.requests[i].pod];
        if R.DemotionOf(n.role, s.requests[i].leaseTs) != R.IsLeader then s
        else s.(accepted := s.accepted + [Accepted(s.requests[i].pod, R.LeaseOf(n.role), s.row)])
      case _ => With(s, step.pod, NodeNext(s.nodes[step.pod], s.log, s.frozen, step))
  }

  /** The state after a sequence of steps, in any interleaving. */
  ghost function Run(pods: set<string>, steps: seq<Step>): System {
    if steps == [] then Init(pods)
    else Next(Run(pods, steps[..|steps| - 1]), steps[|steps| - 1])
  }
}
