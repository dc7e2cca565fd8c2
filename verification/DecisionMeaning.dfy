/** What the election decides, said of the observations alone: in the terms of the design, not of
    the functions that compute it. */
module DecisionMeaning {
  import opened Prelude
  import opened Decide
  import opened DecideOrder

  // ---- The terms

  /** A pod leads if it says so and its lease was verified recently enough, if that matters. */
  predicate Leads(o: Observation, graceNs: int) {
    && o.reach && o.status.isLeader
    && (graceNs > 0 && o.status.leaseUnverifiedSecs.Some? ==>
          o.status.leaseUnverifiedSecs.value * 1_000_000_000 <= graceNs)
  }

  /** A pod that follows but has a lease, or says that it is promoting, is in transition; a pod
      that was not reached is if it was last known to be. */
  predicate InTransition(o: Observation) {
    && (o.reach ==> !o.status.isLeader && (o.status.leaseTs != None || o.status.role == "promoting"))
    && (!o.reach ==> o.wasTransitioning)
  }

  /** A warm standby: reached, healthy, and neither leading nor on its way there. */
  predicate Standby(o: Observation) {
    && o.reach && o.status.tailerHealthy && !o.status.isLeader
    && o.status.leaseTs == None && o.status.role != "promoting"
  }

  /** A standby of higher priority than the leader that lags behind it by at most `lagNs`. */
  predicate Outranks(o: Observation, leader: Observation, lagNs: nat) {
    Standby(o) && o.be.priority > leader.be.priority && leader.status.latestTs <= o.status.latestTs + lagNs
  }

  /** The order of names: they agree up to some place, at which the first one ends or has the
      smaller character. */
  ghost predicate NameBefore(a: string, b: string) {
    exists n: nat | n < |b| && n <= |a| :: a[..n] == b[..n] && (n == |a| || a[n] < b[n])
  }

  /** No other pod has a higher priority, or a newer snapshot at the same priority, or an earlier
      name at the same of both. */
  ghost predicate Preferred(o: Observation, x: Observation) {
    && x.be.priority <= o.be.priority
    && (x.be.priority == o.be.priority ==> x.status.latestTs <= o.status.latestTs)
    && (x.be.priority == o.be.priority && x.status.latestTs == o.status.latestTs && x != o ==>
          NameBefore(o.be.pod, x.be.pod))
  }

  /** The pod was never attempted, or no later than the other; at the same time, it is preferred. */
  ghost predicate Due(o: Observation, x: Observation, attempted: map<string, nat>) {
    && (o.be.pod in attempted ==> x.be.pod in attempted && attempted[o.be.pod] <= attempted[x.be.pod])
    && (o.be.pod !in attempted && x.be.pod !in attempted ==> Preferred(o, x))
    && (o.be.pod in attempted && x.be.pod in attempted && attempted[o.be.pod] == attempted[x.be.pod] ==>
          Preferred(o, x))
  }

  /** The claim has the newest lease: any lease is newer than none, and equal ones go by name. */
  ghost predicate NewestLease(l: Observation, x: Observation) {
    && (x.status.leaseTs.Some? ==> l.status.leaseTs.Some? && x.status.leaseTs.value <= l.status.leaseTs.value)
    && (x.status.leaseTs == l.status.leaseTs && x != l ==> NameBefore(l.be.pod, x.be.pod))
  }

  // ---- The functions mean these

  lemma {:induction false} LessIsNameBefore(a: string, b: string)
    ensures Less(a, b) <==> NameBefore(a, b)
  {
    if a != [] && b != [] && a[0] == b[0] {
      LessIsNameBefore(a[1..], b[1..]);
      if NameBefore(a[1..], b[1..]) {
        var n: nat :| n < |b[1..]| && n <= |a[1..]| && a[1..][..n] == b[1..][..n]
                      && (n == |a[1..]| || a[1..][n] < b[1..][n]);
        assert a[..n + 1] == [a[0]] + a[1..][..n] && b[..n + 1] == [b[0]] + b[1..][..n];
      }
      if NameBefore(a, b) {
        var n: nat :| n < |b| && n <= |a| && a[..n] == b[..n] && (n == |a| || a[n] < b[n]);
        assert n > 0;
        assert a[1..][..n - 1] == a[..n][1..] && b[1..][..n - 1] == b[..n][1..];
      }
    } else if b != [] && (a == [] || a[0] < b[0]) {
      assert a[..0] == b[..0];
    }
  }

  lemma TermsAgree(o: Observation, grace: int)
    ensures IsLiveLeaderClaim(o, grace) == Leads(o, grace)
    ensures IsTransitioning(o) == InTransition(o)
    ensures IsPromotable(o) == Standby(o)
  {}

  lemma PreferenceAgrees(o: Observation, x: Observation, attempted: map<string, nat>)
    requires o.be.pod != x.be.pod
    ensures MorePreferred(o, x) == Preferred(o, x)
    ensures LessRecentlyAttempted(o, x, attempted) == Due(o, x, attempted)
    ensures BetterLeader(o, x) == NewestLease(o, x)
  {
    LessIsNameBefore(o.be.pod, x.be.pod);
  }

  lemma AllTermsAgree(obs: seq<Observation>, grace: int)
    ensures forall o | o in obs ::
              && IsLiveLeaderClaim(o, grace) == Leads(o, grace) && IsTransitioning(o) == InTransition(o)
              && IsPromotable(o) == Standby(o)
  {
    forall o | o in obs
      ensures IsLiveLeaderClaim(o, grace) == Leads(o, grace) && IsTransitioning(o) == InTransition(o)
      ensures IsPromotable(o) == Standby(o)
    {
      TermsAgree(o, grace);
    }
  }

  lemma OthersDiffer(obs: seq<Observation>, o: Observation)
    requires DistinctPods(obs) && o in obs
    ensures forall x | x in obs && x != o :: x.be.pod != o.be.pod
  {}

  // ---- The choices

  /** The choice among standbys is the one due. */
  lemma ChoosesTheOneDue(obs: seq<Observation>, attempted: map<string, nat>, o: Observation)
    requires DistinctPods(obs)
    ensures Best(Select(obs, Promotable), ByAttempt(attempted)) == Some(o) <==>
            o in obs && Standby(o) && forall x | x in obs && Standby(x) :: Due(o, x, attempted)
  {
    ChoiceExact(obs, Promotable, ByAttempt(attempted), o);
    AllTermsAgree(obs, 0);
    assert forall x | x in obs :: Keeps(Promotable, x) == Standby(x);
    if o in obs {
      OthersDiffer(obs, o);
      forall x | x in obs && x != o ensures Beats(ByAttempt(attempted), o, x) == Due(o, x, attempted) {
        PreferenceAgrees(o, x, attempted);
      }
    }
  }

  /** The choice among claims is the newest lease. */
  lemma ChoosesTheNewestLease(obs: seq<Observation>, graceNs: int, l: Observation)
    requires DistinctPods(obs)
    ensures Best(Select(obs, Live(graceNs)), ByLease) == Some(l) <==>
            l in obs && Leads(l, graceNs) && forall x | x in obs && Leads(x, graceNs) :: NewestLease(l, x)
  {
    ChoiceExact(obs, Live(graceNs), ByLease, l);
    AllTermsAgree(obs, graceNs);
    assert forall x | x in obs :: Keeps(Live(graceNs), x) == Leads(x, graceNs);
    if l in obs {
      OthersDiffer(obs, l);
      forall x | x in obs && x != l ensures Beats(ByLease, l, x) == NewestLease(l, x) {
        PreferenceAgrees(l, x, map[]);
      }
    }
  }

  /** The choice among failback candidates is the most preferred pod that outranks the leader. */
  lemma ChoosesTheBestOutranking(obs: seq<Observation>, l: Observation, lagNs: nat, o: Observation)
    requires DistinctPods(obs)
    ensures Best(Select(obs, Failback(l, lagNs)), ByPreference) == Some(o) <==> BestOutranking(obs, l, o, lagNs)
  {
    ChoiceExact(obs, Failback(l, lagNs), ByPreference, o);
    OutrankingAgrees(obs, l, o, lagNs);
    assert forall x | x in obs :: Keeps(Failback(l, lagNs), x) == IsFailbackCandidate(x, l, lagNs);
  }

  // ---- The decision

  /** A leaderless tick promotes this pod if and only if it is a standby, nobody leads or is in
      transition, and of all standbys it is the one due: the least recently attempted, then the
      one of highest priority, then the one with the newest snapshot. */
  lemma PromotesTheOneDue(obs: seq<Observation>, p: DecideParams, o: Observation)
    requires DistinctPods(obs)
    ensures DecisionOf(obs, p).promoteTarget == Some(o) <==>
            && o in obs && Standby(o)
            && (forall x | x in obs :: !Leads(x, p.leaseUnverifiedGrace) && !InTransition(x))
            && forall x | x in obs && Standby(x) :: Due(o, x, p.attempted)
  {
    PromotionExact(obs, p, o);
    AllTermsAgree(obs, p.leaseUnverifiedGrace);
    if o in obs {
      OthersDiffer(obs, o);
      forall x | x in obs && x != o ensures LessRecentlyAttempted(o, x, p.attempted) == Due(o, x, p.attempted) {
        PreferenceAgrees(o, x, p.attempted);
      }
    }
  }

  /** The clock of the pod has run for the window: it is the one that was kept so far, if that is
      for this pod and restart count, and starts now otherwise. */
  predicate WindowOver(o: Observation, p: FailbackParams) {
    if p.prior.candidate == o.be.pod && p.prior.restarts == o.be.restarts && p.prior.eligibleSince.Some?
    then p.prior.eligibleSince.value + p.stabilityWindow <= p.now
    else p.stabilityWindow == 0
  }

  /** The most preferred of the pods that outrank the leader. */
  ghost predicate BestOutranking(obs: seq<Observation>, l: Observation, o: Observation, lagNs: nat) {
    o in obs && Outranks(o, l, lagNs) && forall x | x in obs && Outranks(x, l, lagNs) :: Preferred(o, x)
  }

  ghost predicate NobodyOutranks(obs: seq<Observation>, l: Observation, lagNs: nat) {
    forall o | o in obs :: !Outranks(o, l, lagNs)
  }

  lemma OutrankingAgrees(obs: seq<Observation>, l: Observation, o: Observation, lagNs: nat)
    requires DistinctPods(obs)
    ensures BestOutranking(obs, l, o, lagNs) <==>
            && o in obs && IsFailbackCandidate(o, l, lagNs)
            && forall x | x in obs && IsFailbackCandidate(x, l, lagNs) && x != o :: MorePreferred(o, x)
  {
    AllTermsAgree(obs, 0);
    forall x | x in obs ensures IsFailbackCandidate(x, l, lagNs) == Outranks(x, l, lagNs) {
      TermsAgree(x, 0);
    }
    if o in obs {
      OthersDiffer(obs, o);
      forall x | x in obs && x != o ensures MorePreferred(o, x) == Preferred(o, x) {
        PreferenceAgrees(o, x, map[]);
      }
    }
  }

  ghost predicate LeadsAlone(obs: seq<Observation>, l: Observation, graceNs: int) {
    l in obs && Leads(l, graceNs) && forall x | x in obs && x != l :: !Leads(x, graceNs)
  }

  /** A tick fails back to this pod if and only if failback is enabled, one pod leads, nobody is
      in transition, this pod is the most preferred of those that outrank the leader, and its
      window is over. */
  lemma FailsBackToTheBest(obs: seq<Observation>, p: DecideParams, o: Observation)
    requires DistinctPods(obs)
    ensures DecisionOf(obs, p).failbackTarget == Some(o) <==>
            && p.failback.enabled && WindowOver(o, p.failback)
            && (forall x | x in obs :: !InTransition(x))
            && exists l | l in obs ::
                 LeadsAlone(obs, l, p.leaseUnverifiedGrace) && BestOutranking(obs, l, o, p.failback.warmthLagNs)
  {
    FailbackExact(obs, p, o);
    AllTermsAgree(obs, p.leaseUnverifiedGrace);
    forall l | l in obs
      ensures BestOutranking(obs, l, o, p.failback.warmthLagNs) <==>
              && o in obs && IsFailbackCandidate(o, l, p.failback.warmthLagNs)
              && forall x | x in obs && IsFailbackCandidate(x, l, p.failback.warmthLagNs) && x != o ::
                   MorePreferred(o, x)
    {
      OutrankingAgrees(obs, l, o, p.failback.warmthLagNs);
    }
    assert WindowOver(o, p.failback) <==>
           p.failback.now - FailbackClock(o, p.failback) >= p.failback.stabilityWindow;
  }

  /** The pod leads with the newest lease, and everyone else who leads is demoted, each once, by
      name, URL and the lease it showed. */
  ghost predicate LeadsNewest(obs: seq<Observation>, graceNs: int, d: Decision, l: Observation) {
    && l in obs && Leads(l, graceNs) && d.leaderPod == l.be.pod && d.leaderUrl == l.be.url
    && (forall x | x in obs && Leads(x, graceNs) :: NewestLease(l, x))
    && (forall t | t in d.demotes :: multiset(d.demotes)[t] == 1)
    && (forall t :: t in d.demotes <==>
          exists o | o in obs :: o != l && Leads(o, graceNs) && t == DemoteTarget(o.be.pod, o.be.url, o.status.leaseTs))
  }

  /** If nobody leads, nobody is elected or demoted; otherwise the newest lease is. */
  lemma ElectsTheNewestLease(obs: seq<Observation>, p: DecideParams)
    requires DistinctPods(obs)
    ensures var d, grace := DecisionOf(obs, p), p.leaseUnverifiedGrace;
            if forall o | o in obs :: !Leads(o, grace)
            then d.liveLeaderCount == 0 && d.leaderPod == d.leaderUrl == "" && d.demotes == []
            else d.liveLeaderCount > 0 && exists l :: LeadsNewest(obs, grace, d, l)
  {
    var d, grace := DecisionOf(obs, p), p.leaseUnverifiedGrace;
    ClaimsPartition(obs, p);
    AllTermsAgree(obs, grace);
    BestOfNone(Select(obs, Live(grace)), ByLease);
    if d.liveLeaderCount > 0 {
      var l :| Elects(obs, p, l);
      OthersDiffer(obs, l);
      forall x | x in obs && Leads(x, grace) ensures NewestLease(l, x) {
        if x != l {
          PreferenceAgrees(l, x, map[]);
        }
      }
      ElectedIsNewest(obs, p, l);
    }
  }

  lemma ElectedIsNewest(obs: seq<Observation>, p: DecideParams, l: Observation)
    requires Elects(obs, p, l)
    requires forall o | o in obs :: IsLiveLeaderClaim(o, p.leaseUnverifiedGrace) == Leads(o, p.leaseUnverifiedGrace)
    requires forall x | x in obs && Leads(x, p.leaseUnverifiedGrace) :: NewestLease(l, x)
    ensures LeadsNewest(obs, p.leaseUnverifiedGrace, DecisionOf(obs, p), l)
  {}

  /** What the decision reports besides: whether anyone is in transition, and whether the
      incumbent was discovered but not reached while nobody leads. */
  lemma ReportsTheRest(obs: seq<Observation>, p: DecideParams)
    requires DistinctPods(obs)
    ensures DecisionOf(obs, p).hasTransitioning <==> exists o | o in obs :: InTransition(o)
    ensures DecisionOf(obs, p).incumbentUnreachable <==>
            && p.incumbent != "" && (forall o | o in obs :: !Leads(o, p.leaseUnverifiedGrace))
            && exists o | o in obs :: o.be.pod == p.incumbent && !o.reach
  {
    AllTermsAgree(obs, p.leaseUnverifiedGrace);
    ClaimsPartition(obs, p);
    IncumbentUnreachableExact(obs, p.incumbent);
    BestOfNone(Select(obs, Live(p.leaseUnverifiedGrace)), ByLease);
  }

  /** The failback clock that the decision keeps: without a leader, the one so far if its pod is
      still a standby with the same restart count; with one, that of the most preferred pod
      that outranks it, running on or starting now; and otherwise none. */
  lemma KeepsTheClock(obs: seq<Observation>, p: DecideParams)
    requires DistinctPods(obs)
    ensures var d, grace, prior := DecisionOf(obs, p), p.leaseUnverifiedGrace, p.failback.prior;
            && ((forall o | o in obs :: !Leads(o, grace)) ==>
                  d.failbackState ==
                  if exists o | o in obs :: o.be.pod == prior.candidate && o.be.restarts == prior.restarts && Standby(o)
                  then prior else FailbackState("", 0, None))
            && (forall l | LeadsNewest(obs, grace, d, l) ::
                  !p.failback.enabled || NobodyOutranks(obs, l, p.failback.warmthLagNs) ==>
                    d.failbackState == FailbackState("", 0, None))
            && forall l, o | LeadsNewest(obs, grace, d, l) && BestOutranking(obs, l, o, p.failback.warmthLagNs) ::
                 p.failback.enabled ==>
                   d.failbackState == FailbackState(o.be.pod, o.be.restarts,
                     if prior.candidate == o.be.pod && prior.restarts == o.be.restarts && prior.eligibleSince.Some?
                     then prior.eligibleSince else Some(p.failback.now))
  {
    var d, grace := DecisionOf(obs, p), p.leaseUnverifiedGrace;
    AllTermsAgree(obs, grace);
    ClaimsPartition(obs, p);
    BestOfNone(Select(obs, Live(grace)), ByLease);
    forall l | LeadsNewest(obs, grace, d, l)
      ensures !p.failback.enabled || NobodyOutranks(obs, l, p.failback.warmthLagNs) ==>
                d.failbackState == FailbackState("", 0, None)
    {
      if !p.failback.enabled || NobodyOutranks(obs, l, p.failback.warmthLagNs) {
        NoneOutranks(obs, p, l);
      }
    }
    forall l, o | LeadsNewest(obs, grace, d, l) && p.failback.enabled
                  && BestOutranking(obs, l, o, p.failback.warmthLagNs)
      ensures d.failbackState == FailbackState(o.be.pod, o.be.restarts, Some(FailbackClock(o, p.failback)))
    {
      NewestIsBest(obs, p, l);
      ChoosesTheBestOutranking(obs, l, p.failback.warmthLagNs, o);
    }
  }

  lemma NoneOutranks(obs: seq<Observation>, p: DecideParams, l: Observation)
    requires DistinctPods(obs) && LeadsNewest(obs, p.leaseUnverifiedGrace, DecisionOf(obs, p), l)
    requires !p.failback.enabled || NobodyOutranks(obs, l, p.failback.warmthLagNs)
    ensures DecisionOf(obs, p).failbackState == FailbackState("", 0, None)
  {
    NewestIsBest(obs, p, l);
    var k := Failback(l, p.failback.warmthLagNs);
    AllTermsAgree(obs, 0);
    assert forall x | x in obs :: Keeps(k, x) == Outranks(x, l, p.failback.warmthLagNs);
    ChoiceExact(obs, k, ByPreference, l);
  }

  lemma NewestIsBest(obs: seq<Observation>, p: DecideParams, l: Observation)
    requires DistinctPods(obs) && LeadsNewest(obs, p.leaseUnverifiedGrace, DecisionOf(obs, p), l)
    ensures Best(Select(obs, Live(p.leaseUnverifiedGrace)), ByLease) == Some(l)
  {
    ChoosesTheNewestLease(obs, p.leaseUnverifiedGrace, l);
  }
}
