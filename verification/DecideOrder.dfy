/** What the election decision means, and that it does not depend on the order of the polls. */
module DecideOrder {
  import opened Prelude
  import opened Decide

  ghost predicate DistinctPods(obs: seq<Observation>) {
    forall i, j | 0 <= i < j < |obs| :: obs[i].be.pod != obs[j].be.pod
  }

  ghost predicate Permutation<T>(a: seq<T>, b: seq<T>) {
    multiset(a) == multiset(b)
  }

  // ---- Every ranking is a strict total order on distinct pods

  lemma RankingStrict(r: Ranking, a: Observation, b: Observation)
    requires Beats(r, a, b)
    ensures !Beats(r, b, a) && a != b
  {
    var x, y := a.be.pod, b.be.pod;
    if Less(x, y) && Less(y, x) {
      LessTransitive(x, y, x);
    }
    LessIrreflexive(x);
  }

  lemma RankingTransitive(r: Ranking, a: Observation, b: Observation, c: Observation)
    requires Beats(r, a, b) && Beats(r, b, c)
    ensures Beats(r, a, c)
  {
    if Less(a.be.pod, b.be.pod) && Less(b.be.pod, c.be.pod) {
      LessTransitive(a.be.pod, b.be.pod, c.be.pod);
    }
  }

  lemma RankingTotal(r: Ranking, a: Observation, b: Observation)
    requires a.be.pod != b.be.pod
    ensures Beats(r, a, b) || Beats(r, b, a)
  {
    LessTotal(a.be.pod, b.be.pod);
  }

  // ---- Filtering and choosing, without the loops

  lemma {:induction false} SelectMembers(obs: seq<Observation>, k: Keep)
    ensures forall o :: o in Select(obs, k) <==> o in obs && Keeps(k, o)
    ensures DistinctPods(obs) ==> DistinctPods(Select(obs, k))
  {
    if obs != [] {
      var n := |obs| - 1;
      SelectMembers(obs[..n], k);
      assert obs == obs[..n] + [obs[n]];
      var s := Select(obs[..n], k);
      if DistinctPods(obs) {
        forall o | o in s ensures o.be.pod != obs[n].be.pod {
          var i :| 0 <= i < n && obs[i] == o;
        }
      }
    }
  }

  lemma {:induction false} SelectCounts(obs: seq<Observation>, k: Keep, x: Observation)
    ensures multiset(Select(obs, k))[x] == if Keeps(k, x) then multiset(obs)[x] else 0
  {
    if obs != [] {
      var n := |obs| - 1;
      SelectCounts(obs[..n], k, x);
      assert obs == obs[..n] + [obs[n]];
    }
  }

  ghost predicate IsTop(obs: seq<Observation>, r: Ranking, top: Observation) {
    top in obs && forall o | o in obs && o != top :: Beats(r, top, o)
  }

  lemma TopOfMore(front: seq<Observation>, r: Ranking, best: Observation, o: Observation)
    requires IsTop(front, r, best) && best.be.pod != o.be.pod
    ensures IsTop(front + [o], r, if Beats(r, o, best) then o else best)
  {
    if Beats(r, o, best) {
      forall x | x in front ensures Beats(r, o, x) {
        if x != best {
          RankingTransitive(r, o, best, x);
        }
      }
    } else {
      RankingTotal(r, o, best);
    }
  }

  /** The left-to-right scan finds the one observation that beats all the others. */
  lemma {:induction false} BestIsTop(obs: seq<Observation>, r: Ranking)
    requires DistinctPods(obs) && obs != []
    ensures Best(obs, r).Some? && IsTop(obs, r, Best(obs, r).value)
  {
    var n := |obs| - 1;
    assert obs == obs[..n] + [obs[n]];
    if n > 0 {
      BestIsTop(obs[..n], r);
      TopOfMore(obs[..n], r, Best(obs[..n], r).value, obs[n]);
    }
  }

  lemma TopIsUnique(obs: seq<Observation>, r: Ranking, a: Observation, b: Observation)
    requires IsTop(obs, r, a) && IsTop(obs, r, b)
    ensures a == b
  {
    if a != b {
      RankingStrict(r, a, b);
    }
  }

  /** The exact result of filtering and choosing: the kept observation that beats every other
      kept one, and nothing only when nothing is kept. */
  lemma ChoiceExact(obs: seq<Observation>, k: Keep, r: Ranking, o: Observation)
    requires DistinctPods(obs)
    ensures Best(Select(obs, k), r) == Some(o) <==>
            o in obs && Keeps(k, o) && forall x | x in obs && Keeps(k, x) && x != o :: Beats(r, o, x)
    ensures Best(Select(obs, k), r) == None <==> forall x | x in obs :: !Keeps(k, x)
  {
    SelectMembers(obs, k);
    var s := Select(obs, k);
    BestOfNone(s, r);
    if s != [] {
      BestIsTop(s, r);
      assert s[0] in s;
      if o in obs && Keeps(k, o) && forall x | x in obs && Keeps(k, x) && x != o :: Beats(r, o, x) {
        TopIsUnique(s, r, o, Best(s, r).value);
      }
    }
  }

  // ---- Permutations

  lemma {:induction false} RepeatedMember<T>(s: seq<T>, i: nat, j: nat)
    requires i < j < |s| && s[i] == s[j]
    ensures multiset(s)[s[i]] >= 2
  {
    assert s == s[..j] + s[j..];
    assert s[..j][i] in s[..j] && s[j..][0] in s[j..];
  }

  lemma {:induction false} CountedOnce(obs: seq<Observation>, x: Observation)
    requires DistinctPods(obs)
    ensures multiset(obs)[x] <= 1
  {
    if obs != [] {
      var n := |obs| - 1;
      assert obs == obs[..n] + [obs[n]];
      CountedOnce(obs[..n], x);
      assert obs[n] !in obs[..n];
    }
  }

  lemma PermutedMembers<T>(a: seq<T>, b: seq<T>)
    requires Permutation(a, b)
    ensures |a| == |b| && forall x :: x in a <==> x in b
  {
    assert |multiset(a)| == |a| && |multiset(b)| == |b|;
    forall x ensures x in a <==> x in b {
      assert x in a <==> multiset(a)[x] > 0;
      assert x in b <==> multiset(b)[x] > 0;
    }
  }

  lemma PermutedDistinct(a: seq<Observation>, b: seq<Observation>)
    requires Permutation(a, b) && DistinctPods(a)
    ensures DistinctPods(b)
  {
    PermutedMembers(a, b);
    forall i, j | 0 <= i < j < |b| ensures b[i].be.pod != b[j].be.pod {
      if b[i] == b[j] {
        RepeatedMember(b, i, j);
        CountedOnce(a, b[i]);
      }
      assert b[i] in a && b[j] in a;
      var k, l :| 0 <= k < |a| && 0 <= l < |a| && a[k] == b[i] && a[l] == b[j];
    }
  }

  lemma PermutedSelect(a: seq<Observation>, b: seq<Observation>, k: Keep)
    requires Permutation(a, b)
    ensures Permutation(Select(a, k), Select(b, k))
  {
    forall x ensures multiset(Select(a, k))[x] == multiset(Select(b, k))[x] {
      SelectCounts(a, k, x);
      SelectCounts(b, k, x);
    }
  }

  lemma PermutedChoice(a: seq<Observation>, b: seq<Observation>, k: Keep, r: Ranking)
    requires Permutation(a, b) && DistinctPods(a)
    ensures Best(Select(a, k), r) == Best(Select(b, k), r)
  {
    PermutedMembers(a, b);
    PermutedDistinct(a, b);
    match Best(Select(a, k), r)
    case None =>
      var o: Observation :| true;
      ChoiceExact(a, k, r, o);
      ChoiceExact(b, k, r, o);
    case Some(o) =>
      ChoiceExact(a, k, r, o);
      ChoiceExact(b, k, r, o);
  }

  function TargetOf(o: Observation): DemoteTarget {
    DemoteTarget(o.be.pod, o.be.url, o.status.leaseTs)
  }

  lemma {:induction false} DemotesCount(claims: seq<Observation>, leader: Observation, t: DemoteTarget)
    requires DistinctPods(claims)
    ensures multiset(Demotes(claims, leader))[t] ==
            if exists o | o in claims :: o.be.pod != leader.be.pod && TargetOf(o) == t then 1 else 0
  {
    if claims != [] {
      var n := |claims| - 1;
      DemotesCount(claims[..n], leader, t);
      assert claims == claims[..n] + [claims[n]];
    }
  }

  lemma PermutedDemotes(a: seq<Observation>, b: seq<Observation>, leader: Observation)
    requires Permutation(a, b) && DistinctPods(a)
    ensures Permutation(Demotes(a, leader), Demotes(b, leader))
  {
    PermutedMembers(a, b);
    PermutedDistinct(a, b);
    forall t ensures multiset(Demotes(a, leader))[t] == multiset(Demotes(b, leader))[t] {
      DemotesCount(a, leader, t);
      DemotesCount(b, leader, t);
    }
  }

  lemma IncumbentUnreachableExact(obs: seq<Observation>, incumbent: string)
    requires DistinctPods(obs)
    ensures IncumbentDiscoveredUnreachable(obs, incumbent) <==>
            incumbent != "" && exists o | o in obs :: o.be.pod == incumbent && !o.reach
  {
    if exists o | o in obs :: o.be.pod == incumbent && !o.reach {
      var o :| o in obs && o.be.pod == incumbent && !o.reach;
      var i :| 0 <= i < |obs| && obs[i] == o;
    }
  }

  lemma PermutedDecisionInputs(a: seq<Observation>, b: seq<Observation>, p: DecideParams)
    requires Permutation(a, b) && DistinctPods(a)
    ensures AnyTransitioning(a) == AnyTransitioning(b)
    ensures IncumbentDiscoveredUnreachable(a, p.incumbent) == IncumbentDiscoveredUnreachable(b, p.incumbent)
    ensures RetainedFailback(a, p.failback.prior) == RetainedFailback(b, p.failback.prior)
  {
    PermutedMembers(a, b);
    PermutedDistinct(a, b);
    IncumbentUnreachableExact(a, p.incumbent);
    IncumbentUnreachableExact(b, p.incumbent);
  }

  /** The order in which the polls are listed changes nothing but the order of the demotions. */
  lemma DecisionOrderFree(a: seq<Observation>, b: seq<Observation>, p: DecideParams)
    requires Permutation(a, b) && DistinctPods(a)
    ensures DecisionOf(a, p).(demotes := []) == DecisionOf(b, p).(demotes := [])
    ensures Permutation(DecisionOf(a, p).demotes, DecisionOf(b, p).demotes)
  {
    var live := Live(p.leaseUnverifiedGrace);
    PermutedSelect(a, b, live);
    PermutedMembers(Select(a, live), Select(b, live));
    SelectMembers(a, live);
    PermutedChoice(a, b, live, ByLease);
    PermutedDecisionInputs(a, b, p);
    match Best(Select(a, live), ByLease)
    case None =>
      PermutedChoice(a, b, Promotable, ByAttempt(p.attempted));
    case Some(leader) =>
      PermutedDemotes(Select(a, live), Select(b, live), leader);
      PermutedChoice(a, b, Failback(leader, p.failback.warmthLagNs), ByPreference);
  }

  // ---- What a decision says about the observations it was made from

  /** The decision elects this observation: it is live, it beats every other live claim (so its
      lease is the newest), and the others are exactly the demotion targets, once each. */
  ghost predicate Elects(obs: seq<Observation>, p: DecideParams, l: Observation) {
    var d := DecisionOf(obs, p);
    && l in obs && IsLiveLeaderClaim(l, p.leaseUnverifiedGrace)
    && d.leaderPod == l.be.pod && d.leaderUrl == l.be.url
    && (forall t | t in d.demotes :: t.pod != l.be.pod && multiset(d.demotes)[t] == 1)
    && (forall t :: t in d.demotes <==>
          exists o | o in obs :: o != l && IsLiveLeaderClaim(o, p.leaseUnverifiedGrace) && TargetOf(o) == t)
    && (forall o | o in obs && o != l && IsLiveLeaderClaim(o, p.leaseUnverifiedGrace) :: BetterLeader(l, o))
  }

  /** The live claims are exactly the elected leader and the demotion targets, and without a live
      claim nobody is elected or demoted. */
  lemma ClaimsPartition(obs: seq<Observation>, p: DecideParams)
    requires DistinctPods(obs)
    ensures DecisionOf(obs, p).liveLeaderCount == 0 <==>
            forall o | o in obs :: !IsLiveLeaderClaim(o, p.leaseUnverifiedGrace)
    ensures DecisionOf(obs, p).liveLeaderCount == 0 ==> DecisionOf(obs, p).demotes == []
    ensures DecisionOf(obs, p).liveLeaderCount > 0 ==> exists l :: Elects(obs, p, l)
  {
    var live := Live(p.leaseUnverifiedGrace);
    var claims := Select(obs, live);
    SelectMembers(obs, live);
    if claims == [] {
      forall o | o in obs ensures !IsLiveLeaderClaim(o, p.leaseUnverifiedGrace) {
        assert !(o in claims);
        assert !Keeps(live, o);
      }
    } else {
      assert claims[0] in claims && claims[0] in obs && Keeps(live, claims[0]);
      BestIsElected(obs, p);
    }
  }

  lemma BestIsElected(obs: seq<Observation>, p: DecideParams)
    requires DistinctPods(obs) && Select(obs, Live(p.leaseUnverifiedGrace)) != []
    ensures exists l :: Elects(obs, p, l)
  {
    var live := Live(p.leaseUnverifiedGrace);
    var claims := Select(obs, live);
    SelectMembers(obs, live);
    BestIsTop(claims, ByLease);
    var l := Best(claims, ByLease).value;
    var d := DecisionOf(obs, p);
    DemotesExact(claims, l);
    forall o ensures o in claims <==> o in obs && IsLiveLeaderClaim(o, p.leaseUnverifiedGrace) {
      assert Keeps(live, o) <==> IsLiveLeaderClaim(o, p.leaseUnverifiedGrace);
    }
    forall o | o in claims && o != l ensures BetterLeader(l, o) {
      assert Beats(ByLease, l, o);
    }
    assert Elects(obs, p, l);
  }

  lemma DemotesExact(claims: seq<Observation>, l: Observation)
    requires DistinctPods(claims) && l in claims
    ensures forall t :: t in Demotes(claims, l) <==> exists o | o in claims :: o != l && TargetOf(o) == t
    ensures forall t | t in Demotes(claims, l) :: t.pod != l.be.pod && multiset(Demotes(claims, l))[t] == 1
  {
    var k :| 0 <= k < |claims| && claims[k] == l;
    forall t ensures t in Demotes(claims, l) <==> exists o | o in claims :: o != l && TargetOf(o) == t
    ensures t in Demotes(claims, l) ==> t.pod != l.be.pod && multiset(Demotes(claims, l))[t] == 1 {
      DemotesCount(claims, l, t);
      assert t in Demotes(claims, l) <==> multiset(Demotes(claims, l))[t] > 0;
      if o :| o in claims && o != l && TargetOf(o) == t {
        var i :| 0 <= i < |claims| && claims[i] == o;
        assert o.be.pod != l.be.pod;
      }
    }
  }

  /** Exactly when, and whom, a leaderless tick wants to promote. */
  lemma PromotionExact(obs: seq<Observation>, p: DecideParams, o: Observation)
    requires DistinctPods(obs)
    ensures DecisionOf(obs, p).promoteTarget == Some(o) <==>
            && o in obs && IsPromotable(o)
            && (forall x | x in obs :: !IsLiveLeaderClaim(x, p.leaseUnverifiedGrace) && !IsTransitioning(x))
            && forall x | x in obs && IsPromotable(x) && x != o :: LessRecentlyAttempted(o, x, p.attempted)
  {
    ChoiceExact(obs, Live(p.leaseUnverifiedGrace), ByLease, o);
    ChoiceExact(obs, Promotable, ByAttempt(p.attempted), o);
    assert forall x | x in obs ::
        Keeps(Live(p.leaseUnverifiedGrace), x) == IsLiveLeaderClaim(x, p.leaseUnverifiedGrace);
    assert forall x | x in obs :: Keeps(Promotable, x) == IsPromotable(x);
    assert forall x | x in obs :: Beats(ByAttempt(p.attempted), o, x) == LessRecentlyAttempted(o, x, p.attempted);
  }

  /** Exactly when, and to whom, a tick with a live leader wants to fail back. */
  lemma FailbackExact(obs: seq<Observation>, p: DecideParams, o: Observation)
    requires DistinctPods(obs)
    ensures DecisionOf(obs, p).failbackTarget == Some(o) <==>
            exists l | l in obs ::
              && IsLiveLeaderClaim(l, p.leaseUnverifiedGrace)
              && (forall x | x in obs && x != l :: !IsLiveLeaderClaim(x, p.leaseUnverifiedGrace))
              && (forall x | x in obs :: !IsTransitioning(x))
              && p.failback.enabled
              && o in obs && IsFailbackCandidate(o, l, p.failback.warmthLagNs)
              && (forall x | x in obs && IsFailbackCandidate(x, l, p.failback.warmthLagNs) && x != o ::
                    MorePreferred(o, x))
              && p.failback.now - FailbackClock(o, p.failback) >= p.failback.stabilityWindow
  {
    var live := Live(p.leaseUnverifiedGrace);
    var claims := Select(obs, live);
    SelectMembers(obs, live);
    assert forall x | x in obs :: Keeps(live, x) == IsLiveLeaderClaim(x, p.leaseUnverifiedGrace);
    match Best(claims, ByLease)
    case None =>
      BestOfNone(claims, ByLease);
      forall l | l in obs ensures !IsLiveLeaderClaim(l, p.leaseUnverifiedGrace) {
        assert l !in claims;
      }
    case Some(leader) =>
      BestOfNone(claims, ByLease);
      BestIsTop(claims, ByLease);
      var k := Failback(leader, p.failback.warmthLagNs);
      ChoiceExact(obs, k, ByPreference, o);
      assert forall x | x in obs :: Keeps(k, x) == IsFailbackCandidate(x, leader, p.failback.warmthLagNs);
      SingleClaim(claims);
      if DecisionOf(obs, p).failbackTarget == Some(o) {
        assert claims[0] == leader;
        forall x | x in obs && x != leader ensures !IsLiveLeaderClaim(x, p.leaseUnverifiedGrace) {
          assert x !in claims;
        }
      }
  }

  lemma SingleClaim(claims: seq<Observation>)
    requires claims != [] && DistinctPods(claims)
    ensures |claims| == 1 <==> forall x, y | x in claims && y in claims :: x == y
  {
    if |claims| > 1 {
      assert claims[0] in claims && claims[1] in claims && claims[0].be.pod != claims[1].be.pod;
    }
  }
}
