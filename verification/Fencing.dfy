/** A demotion never hits the backend that holds the lease row. */
module Fencing {
  import opened Prelude
  import opened Decide
  import opened DecideOrder
  import opened DecisionMeaning
  import R = Roles
  import opened Cluster

  /** A lease a backend shows, or has been granted. */
  predicate Has(n: Node, lease: nat) {
    R.LeaseOf(n.role) == Some(lease) || n.acquired == Some(lease)
  }

  predicate OwnedBy(s: System, lease: nat, pod: string) {
    lease in s.owner && s.owner[lease] == pod
  }

  /** Leases are unique: each was granted to one backend, and none is ahead of the row. */
  ghost predicate LeasesOwned(s: System) {
    && (forall lease | lease in s.owner :: lease <= s.row)
    && (forall pod, lease | pod in s.nodes && Has(s.nodes[pod], lease) :: OwnedBy(s, lease, pod))
    && (forall pod | pod in s.nodes ::
          && (s.nodes[pod].role.Leader? ==> s.nodes[pod].role.persistence.leaseTs.Some?)
          && (s.nodes[pod].role.Promoting? && s.nodes[pod].role.acquired.Some? ==>
                s.nodes[pod].role.acquired.value.leaseTs.Some?)
          && (s.nodes[pod].acquired.Some? ==> s.nodes[pod].role == R.Promoting(None)))
  }

  /** An answer, however old, names a lease its pod owned, and a leader always names one. */
  ghost predicate PollsOwned(s: System) {
    forall o | o in s.polls ::
      && (o.status.isLeader ==> o.status.leaseTs.Some?)
      && (o.status.leaseTs.Some? ==> OwnedBy(s, o.status.leaseTs.value, o.be.pod))
  }

  /** A requested demotion names a lease that the row has left behind. */
  ghost predicate RequestsStale(s: System) {
    && (forall d | d in s.requests :: d.leaseTs.Some? && d.leaseTs.value < s.row)
    && (forall a | a in s.accepted :: a.lease.Some? && a.lease.value < a.row)
  }

  ghost predicate Fenced(s: System) {
    LeasesOwned(s) && PollsOwned(s) && RequestsStale(s)
  }

  // ---- The decision

  lemma MembersDiffer(obs: seq<Observation>, a: Observation, b: Observation)
    requires DistinctPods(obs) && a in obs && b in obs && a != b
    ensures a.be.pod != b.be.pod
  {}

  /** Every demoted claim is beaten by the live claim that is elected. */
  lemma DemotedIsBeaten(obs: seq<Observation>, p: DecideParams, d: DemoteTarget)
    returns (l: Observation, o: Observation)
    requires DistinctPods(obs) && d in DecisionOf(obs, p).demotes
    ensures l in obs && o in obs && l.be.pod != o.be.pod && TargetOf(o) == d && BetterLeader(l, o)
    ensures IsLiveLeaderClaim(l, p.leaseUnverifiedGrace) && IsLiveLeaderClaim(o, p.leaseUnverifiedGrace)
  {
    ClaimsPartition(obs, p);
    l :| Elects(obs, p, l);
    o :| o in obs && o != l && IsLiveLeaderClaim(o, p.leaseUnverifiedGrace) && TargetOf(o) == d;
    MembersDiffer(obs, l, o);
  }

  /** `decide` demotes only claims older than the one it elects. */
  lemma DemotesOlder(s: System, obs: seq<Observation>, p: DecideParams, d: DemoteTarget)
    requires LeasesOwned(s) && PollsOwned(s) && Genuine(s, obs) && d in DecisionOf(obs, p).demotes
    ensures d.leaseTs.Some? && d.leaseTs.value < s.row
  {
    var l, o := DemotedIsBeaten(obs, p, d);
    assert o in s.polls && l in s.polls;
    assert OwnedBy(s, l.status.leaseTs.value, l.be.pod) && OwnedBy(s, o.status.leaseTs.value, o.be.pod);
  }

  // ---- Every step

  lemma FencedFrame(s: System, t: System)
    requires Fenced(s) && t.owner == s.owner && t.row == s.row
    requires t.nodes == s.nodes && t.polls == s.polls && t.requests == s.requests && t.accepted == s.accepted
    ensures Fenced(t)
  {}

  lemma FencedNode(s: System, pod: string, n: Node)
    requires Fenced(s) && pod in s.nodes
    requires forall lease | Has(n, lease) :: Has(s.nodes[pod], lease)
    requires n.role.Leader? ==> n.role.persistence.leaseTs.Some?
    requires n.role.Promoting? && n.role.acquired.Some? ==> n.role.acquired.value.leaseTs.Some?
    requires n.acquired.Some? ==> n.role == R.Promoting(None)
    ensures Fenced(With(s, pod, n))
  {}

  lemma FencedNodeStep(s: System, step: Step)
    requires Fenced(s) && IsNodeStep(step) && Enabled(s, step)
    ensures Fenced(Next(s, step))
  {
    var n := s.nodes[step.pod];
    var m := NodeNext(n, s.log, s.frozen, step);
    FencedNode(s, step.pod, m);
  }

  lemma FencedAcquire(s: System, pod: string, clock: nat)
    requires Fenced(s) && Enabled(s, Acquire(pod, clock))
    ensures Fenced(Acquired(s, pod, clock))
  {
    assert R.Stolen(s.row, clock) !in s.owner;
  }

  lemma FencedLeader(s: System, pod: string, idle: nat)
    requires Fenced(s) && Enabled(s, BecomeLeader(pod, idle))
    ensures Fenced(BecameLeader(s, pod, idle))
  {
    var t := BecameLeader(s, pod, idle);
    FencedNode(s, pod, t.nodes[pod]);
    FencedFrame(With(s, pod, t.nodes[pod]), t);
  }

  lemma FencedPoll(s: System, step: Step)
    requires Fenced(s) && step.PollNode? && Enabled(s, step)
    ensures Fenced(Next(s, step))
  {
    var n := s.nodes[step.pod];
    var o := Answer(n, step.be, step.unverified, step.healthy);
    if o.status.leaseTs.Some? {
      assert Has(n, o.status.leaseTs.value);
    }
  }

  lemma FencedDecide(s: System, obs: seq<Observation>, p: DecideParams)
    requires Fenced(s) && Genuine(s, obs)
    ensures Fenced(s.(requests := s.requests + DecisionOf(obs, p).demotes))
  {
    forall d | d in DecisionOf(obs, p).demotes ensures d.leaseTs.Some? && d.leaseTs.value < s.row {
      DemotesOlder(s, obs, p, d);
    }
  }

  /** The compare in check_demotion: an accepted request names the very lease of its target. */
  lemma FencedDeliver(s: System, i: nat)
    requires Fenced(s) && Enabled(s, Deliver(i))
    ensures Fenced(Next(s, Deliver(i)))
  {
    var d := s.requests[i];
    assert d in s.requests;
    var n := s.nodes[d.pod];
    if R.DemotionOf(n.role, d.leaseTs) == R.IsLeader {
      assert R.LeaseOf(n.role) == d.leaseTs;
    }
  }

  lemma FencedStep(s: System, step: Step)
    requires Fenced(s)
    ensures Fenced(Next(s, step))
  {
    if Enabled(s, step) {
      match step
      case Acquire(pod, clock) => FencedAcquire(s, pod, clock);
      case BecomeLeader(pod, idle) => FencedLeader(s, pod, idle);
      case Commit(_, _, _) => FencedFrame(s, Next(s, step));
      case Freeze(_, _) => FencedFrame(s, Next(s, step));
      case PollNode(_, _, _, _) => FencedPoll(s, step);
      case DecideOn(obs, p) => FencedDecide(s, obs, p);
      case Deliver(i) => FencedDeliver(s, i);
      case _ => FencedNodeStep(s, step);
    }
  }

  lemma {:induction false} RunFenced(pods: set<string>, steps: seq<Step>)
    ensures Fenced(Run(pods, steps))
  {
    if steps != [] {
      var n := |steps| - 1;
      RunFenced(pods, steps[..n]);
      FencedStep(Run(pods, steps[..n]), steps[n]);
    }
  }

  /** In every run, however stale the polls and however late the requests: a demotion that is
      accepted hits a backend whose lease the row has moved past, never the lease holder. */
  lemma DemotionsMissTheHolder(pods: set<string>, steps: seq<Step>)
    ensures forall a | a in Run(pods, steps).accepted :: a.lease.Some? && a.lease.value < a.row
  {
    RunFenced(pods, steps);
  }

  /** In every run, no two backends ever show the same lease, so at most one holds the row. */
  lemma OneHolder(pods: set<string>, steps: seq<Step>, a: string, b: string)
    requires a in Run(pods, steps).nodes && b in Run(pods, steps).nodes && a != b
    ensures R.LeaseOf(Run(pods, steps).nodes[a].role).Some? ==>
              R.LeaseOf(Run(pods, steps).nodes[a].role) != R.LeaseOf(Run(pods, steps).nodes[b].role)
    ensures var s := Run(pods, steps); !(HoldsRow(s, s.nodes[a]) && HoldsRow(s, s.nodes[b]))
  {
    RunFenced(pods, steps);
    var s := Run(pods, steps);
    if lease :| R.LeaseOf(s.nodes[a].role) == Some(lease) && R.LeaseOf(s.nodes[b].role) == Some(lease) {
      assert Has(s.nodes[a], lease) && Has(s.nodes[b], lease);
    }
  }

  // ---- Demotions are asked for, and heeded

  /** A polled backend answers with its role and the lease it shows. */
  lemma PollShows(s: System, pod: string, be: Backend, unverified: Option<nat>, healthy: bool)
    requires Enabled(s, PollNode(pod, be, unverified, healthy))
    ensures var role, polls := s.nodes[pod].role, Next(s, PollNode(pod, be, unverified, healthy)).polls;
            && |polls| == |s.polls| + 1 && polls[..|s.polls|] == s.polls
            && var o := polls[|s.polls|];
               && o.be == be && o.reach && o.status.latestTs == s.nodes[pod].tailer.snap.ts
               && (o.status.isLeader <==> role.Leader?)
               && o.status.tailerHealthy == healthy
               && o.status.leaseUnverifiedSecs == (if role.Leader? then unverified else None)
               && o.status.role == (if role.Leader? then "leader"
                                    else if role.Promoting? then "promoting" else "follower")
               && o.status.leaseTs == (if role.Leader? then role.persistence.leaseTs
                                       else if role.Promoting? && role.acquired.Some? then role.acquired.value.leaseTs
                                       else None)
  {}

  /** A delivered request is accepted exactly if its target leads, on the lease the request names
      if it names one. */
  lemma AcceptedExactly(s: System, i: nat)
    requires Enabled(s, Deliver(i))
    ensures var d, role := s.requests[i], s.nodes[s.requests[i].pod].role;
            Next(s, Deliver(i)).accepted ==
            if role.Leader? && (d.leaseTs.Some? ==> role.persistence.leaseTs == d.leaseTs)
            then s.accepted + [Accepted(d.pod, role.persistence.leaseTs, s.row)] else s.accepted
  {}

  /** A decision asks to demote everyone who leads but the one with the newest lease. */
  lemma RequestedExactly(s: System, obs: seq<Observation>, p: DecideParams, l: Observation, o: Observation)
    requires Enabled(s, DecideOn(obs, p)) && l in obs && o in obs && l.be.pod != o.be.pod
    requires Leads(l, p.leaseUnverifiedGrace) && Leads(o, p.leaseUnverifiedGrace)
    requires forall x | x in obs && Leads(x, p.leaseUnverifiedGrace) :: NewestLease(l, x)
    ensures DemoteTarget(o.be.pod, o.be.url, o.status.leaseTs) in Next(s, DecideOn(obs, p)).requests
  {
    ElectsTheNewestLease(obs, p);
    var d := DecisionOf(obs, p);
    var e :| LeadsNewest(obs, p.leaseUnverifiedGrace, d, e);
    ChoosesTheNewestLease(obs, p.leaseUnverifiedGrace, l);
    ChoosesTheNewestLease(obs, p.leaseUnverifiedGrace, e);
    assert DemoteTarget(o.be.pod, o.be.url, o.status.leaseTs) in d.demotes;
  }

  // ---- The role machine

  /** A promotion goes from follower over promoting to leader on the lease it was granted, and
      turns back only before the lease shows. */
  predicate RoleEdge(a: R.Role, b: R.Role) {
    || a == b
    || (a.Follower? && b == R.Promoting(None))
    || (a == R.Promoting(None) && (b.Follower? || (b.Promoting? && R.LeaseOf(b).Some?)))
    || (a.Promoting? && a.acquired.Some? && b == R.Leader(a.acquired.value))
  }

  lemma RoleStep(s: System, step: Step, pod: string)
    requires LeasesOwned(s) && pod in s.nodes && step != Restart(pod)
    ensures pod in Next(s, step).nodes && RoleEdge(s.nodes[pod].role, Next(s, step).nodes[pod].role)
  {
    if Enabled(s, step) {
      if !IsNodeStep(step) {
        OtherRoleStep(s, step, pod);
      } else if step.pod == pod {
        NodeRoleStep(s, step);
      }
    }
  }

  lemma OtherRoleStep(s: System, step: Step, pod: string)
    requires !IsNodeStep(step) && Enabled(s, step) && pod in s.nodes
    ensures pod in Next(s, step).nodes && Next(s, step).nodes[pod].role == s.nodes[pod].role
  {}

  lemma NodeRoleStep(s: System, step: Step)
    requires IsNodeStep(step) && Enabled(s, step) && !step.Restart?
    ensures RoleEdge(s.nodes[step.pod].role, NodeNext(s.nodes[step.pod], s.log, s.frozen, step).role)
  {}

  /** In every run, until a backend restarts its role moves only along the promotion, so the
      lease it shows never changes: to lead on another lease it has to restart. */
  lemma {:induction false} LeaseKeptUntilRestart(pods: set<string>, steps: seq<Step>, more: seq<Step>, pod: string)
    requires pod in Run(pods, steps).nodes && R.LeaseOf(Run(pods, steps).nodes[pod].role).Some? && Restart(pod) !in more
    ensures var now, later := Run(pods, steps).nodes[pod].role, Run(pods, steps + more).nodes;
            && pod in later && R.LeaseOf(later[pod].role) == R.LeaseOf(now)
            && (now.Leader? ==> later[pod].role == now)
  {
    if more == [] {
      assert steps + more == steps;
    } else {
      var n := |more| - 1;
      LeaseKeptUntilRestart(pods, steps, more[..n], pod);
      RunFenced(pods, steps + more[..n]);
      assert (steps + more)[..|steps + more| - 1] == steps + more[..n];
      RoleStep(Run(pods, steps + more[..n]), more[n], pod);
    }
  }
}
