/** The edge's view of who leads: a filter on (epoch, version) fed by a stream and a poll. */
module Tracker {
  import opened Prelude
  import opened LeaderRegistry

  datatype View = View(url: string, epoch: nat, version: nat)

  const NOTHING := View("", 0, 0)

  /** An event, and whether the poll or the stream brought it. */
  datatype Delivery = Delivery(ev: LeaderEvent, fromPoll: bool)

  predicate Acceptable(url: string, parses: string -> bool) {
    url == "" || parses(url)
  }

  function Applied(v: View, d: Delivery, parses: string -> bool): View {
    if !Acceptable(d.ev.url, parses) || (d.ev.epoch != v.epoch && !d.fromPoll) then v
    else
      var last := if d.ev.epoch != v.epoch then 0 else v.version;
      if d.ev.version <= last then v.(epoch := d.ev.epoch, version := last)
      else View(d.ev.url, d.ev.epoch, d.ev.version)
  }

  /** What a poll makes of a response whose body decodes to an event, or does not. */
  function Query(r: Response): Option<LeaderEvent> {
    if (r.status != 200 && r.status != 503) || r.body.None? then None
    else if r.status == 200 then r.body
    else if r.body.value.epoch == 0 then None
    else Some(r.body.value.(url := ""))
  }

  /** A poll succeeds exactly if the deployment is published, and then brings its state. */
  lemma QueryOfRegistry(name: string, d: Option<Deployment>, epoch: nat)
    requires epoch != 0
    ensures Query(GetLeader(name, d, epoch)) ==
            if d.Some? && d.value.published then Some(EventOf(name, d.value, epoch)) else None
  {}

  /** Where a proxy sends requests: a base URL, and a path instead of the URL's own, if any. */
  datatype Upstream = Upstream(url: string, path: Option<string>)

  const SITE_PATH := Some("/http")

  class UsherTracker {
    const siteHost: string
    var leaderUrl: string
    var proxy: Option<Upstream>
    var siteProxy: Option<Upstream>
    var lastEpoch: nat
    var lastVersion: nat
    var resolveWanted: bool

    function Abstract(): View
      reads this
    {
      View(leaderUrl, lastEpoch, lastVersion)
    }

    /** The proxies point where the leader URL does. */
    predicate Valid()
      reads this
    {
      && proxy == (if leaderUrl == "" then None else Some(Upstream(leaderUrl, None)))
      && siteProxy == (if leaderUrl == "" || siteHost == "" then None else Some(Upstream(leaderUrl, SITE_PATH)))
    }

    constructor (siteHost: string)
      ensures Valid() && Abstract() == NOTHING && this.siteHost == siteHost && !resolveWanted
    {
      this.siteHost := siteHost;
      leaderUrl, proxy, siteProxy, lastEpoch, lastVersion, resolveWanted := "", None, None, 0, 0, false;
    }

    /** An event of an unknown epoch on the stream only asks for a poll. */
    method ApplyLeader(ev: LeaderEvent, fromPoll: bool, parses: string -> bool) returns (changed: bool)
      requires Valid()
      modifies this
      ensures Valid() && Abstract() == Applied(old(Abstract()), Delivery(ev, fromPoll), parses)
      ensures changed <==> leaderUrl != old(leaderUrl)
      ensures resolveWanted <==>
                old(resolveWanted)
                || (!fromPoll && (ev.url == "" || parses(ev.url)) && ev.epoch != old(lastEpoch))
    {
      if ev.url != "" && !parses(ev.url) {
        return false;
      }
      if ev.epoch != lastEpoch {
        if !fromPoll {
          resolveWanted := true;
          return false;
        }
        lastEpoch := ev.epoch;
        lastVersion := 0;
      }
      if ev.version <= lastVersion {
        return false;
      }
      lastVersion := ev.version;
      if ev.url == leaderUrl {
        return false;
      }
      changed := true;
      if ev.url == "" {
        leaderUrl, proxy, siteProxy := "", None, None;
        return;
      }
      leaderUrl, proxy := ev.url, Some(Upstream(ev.url, None));
      if siteHost != "" {
        siteProxy := Some(Upstream(ev.url, SITE_PATH));
      }
    }

    /** Requests go to the current leader, site requests to its site path, and while there is
        none nowhere. */
    method CurrentLeader(site: bool) returns (target: Option<Upstream>)
      requires Valid()
      ensures target.None? <==> leaderUrl == "" || (site && siteHost == "")
      ensures target.Some? ==> target.value == Upstream(leaderUrl, if site then SITE_PATH else None)
    {
      target := if site then siteProxy else proxy;
    }

    /** One poll: `r` is what came back. It counts only with a body, and only with status 200, or
        with status 503 and an epoch; with 503 there is no leader. */
    method ResolveOnce(r: Response, parses: string -> bool)
      requires Valid()
      modifies this
      ensures Valid()
      ensures Abstract() ==
              if Query(r).None? then old(Abstract())
              else Applied(old(Abstract()), Delivery(Query(r).value, true), parses)
      ensures !(r.body.Some? && (r.status == 200 || (r.status == 503 && r.body.value.epoch != 0))) ==>
                Abstract() == old(Abstract())
      ensures r.body.Some? && (r.status == 200 || (r.status == 503 && r.body.value.epoch != 0)) ==>
                var ev := r.body.value;
                var url := if r.status == 503 then "" else ev.url;
                var newer := ev.epoch != old(lastEpoch) || ev.version > old(lastVersion);
                Abstract() == if (url == "" || parses(url)) && newer && ev.version > 0
                              then View(url, ev.epoch, ev.version)
                              else if url == "" || parses(url)
                              then View(old(leaderUrl), ev.epoch,
                                        if ev.epoch == old(lastEpoch) then old(lastVersion) else 0)
                              else old(Abstract())
    {
      if r.status != 200 && r.status != 503 {
        return;
      }
      if r.body.None? {
        return;
      }
      var ev := r.body.value;
      if r.status == 503 {
        if ev.epoch == 0 {
          return;
        }
        ev := ev.(url := "");
      }
      var _ := ApplyLeader(ev, true, parses);
    }
  }

  // ---- Within one epoch, the order of deliveries does not matter

  function Fold(v: View, ds: seq<Delivery>, parses: string -> bool): View {
    if ds == [] then v
    else Applied(Fold(v, ds[..|ds| - 1], parses), ds[|ds| - 1], parses)
  }

  /** Polls answer from the adopted epoch; events of one version agree. */
  predicate OneEpoch(v: View, ds: seq<Delivery>) {
    && (forall d | d in ds :: d.fromPoll ==> d.ev.epoch == v.epoch)
    && (forall d, e | d in ds && e in ds && d.ev.epoch == e.ev.epoch && d.ev.version == e.ev.version :: d.ev == e.ev)
  }

  predicate IsFresh(v: View, d: Delivery, parses: string -> bool) {
    d.ev.epoch == v.epoch && d.ev.version > v.version && (d.ev.url == "" || parses(d.ev.url))
  }

  predicate IsNewest(v: View, ds: seq<Delivery>, d: Delivery, parses: string -> bool) {
    d in ds && IsFresh(v, d, parses) && forall e | e in ds && IsFresh(v, e, parses) :: e.ev.version <= d.ev.version
  }

  function Newer(v: View, a: Delivery, b: Delivery, parses: string -> bool): Delivery {
    if IsFresh(v, b, parses) && b.ev.version > a.ev.version then b else a
  }

  lemma NewestOfMore(v: View, ds: seq<Delivery>, d: Delivery, x: Delivery, parses: string -> bool)
    requires IsNewest(v, ds, d, parses)
    ensures IsNewest(v, ds + [x], Newer(v, d, x, parses), parses)
  {}

  /** The state is that of the newest acceptable event of the adopted epoch, or unchanged if
      none is newer than what was applied. */
  predicate FoldsTo(v: View, ds: seq<Delivery>, r: View, parses: string -> bool) {
    if forall d | d in ds :: !IsFresh(v, d, parses) then r == v
    else exists d | d in ds :: IsNewest(v, ds, d, parses) && r == View(d.ev.url, v.epoch, d.ev.version)
  }

  lemma FoldsToMore(v: View, ds: seq<Delivery>, r: View, x: Delivery, parses: string -> bool)
    requires FoldsTo(v, ds, r, parses) && OneEpoch(v, ds + [x])
    ensures FoldsTo(v, ds + [x], Applied(r, x, parses), parses)
  {
    assert x in ds + [x];
    if forall d | d in ds :: !IsFresh(v, d, parses) {
      if IsFresh(v, x, parses) {
        assert IsNewest(v, ds + [x], x, parses);
      }
    } else {
      var d :| d in ds && IsNewest(v, ds, d, parses) && r == View(d.ev.url, v.epoch, d.ev.version);
      NewestOfMore(v, ds, d, x, parses);
      assert d in ds + [x];
    }
  }

  /** Folding any deliveries gives the state of the newest acceptable event of the adopted
      epoch among them. */
  lemma {:induction false} FoldIsNewest(v: View, ds: seq<Delivery>, parses: string -> bool)
    requires OneEpoch(v, ds)
    ensures FoldsTo(v, ds, Fold(v, ds, parses), parses)
  {
    if ds != [] {
      var n := |ds| - 1;
      FoldIsNewest(v, ds[..n], parses);
      assert ds == ds[..n] + [ds[n]];
      FoldsToMore(v, ds[..n], Fold(v, ds[..n], parses), ds[n], parses);
    }
  }

  ghost predicate SameInEpoch(v: View, ds: seq<Delivery>, es: seq<Delivery>) {
    forall d: Delivery | d.ev.epoch == v.epoch :: d in ds <==> d in es
  }

  lemma NewestAgree(v: View, ds: seq<Delivery>, es: seq<Delivery>, a: Delivery, b: Delivery, parses: string -> bool)
    requires OneEpoch(v, ds) && SameInEpoch(v, ds, es)
    requires IsNewest(v, ds, a, parses) && IsNewest(v, es, b, parses)
    ensures a.ev == b.ev
  {
    assert a in es && b in ds;
  }

  /** Any reordering and any duplication of the deliveries gives the same view; so does any
      number of stream events of other epochs among them. */
  lemma MergeIsOrderFree(v: View, ds: seq<Delivery>, es: seq<Delivery>, parses: string -> bool)
    requires OneEpoch(v, ds) && OneEpoch(v, es) && SameInEpoch(v, ds, es)
    ensures Fold(v, ds, parses) == Fold(v, es, parses)
  {
    FoldIsNewest(v, ds, parses);
    FoldIsNewest(v, es, parses);
    if d :| d in ds && IsFresh(v, d, parses) {
      assert d in es;
      var a :| a in ds && IsNewest(v, ds, a, parses) && Fold(v, ds, parses) == View(a.ev.url, v.epoch, a.ev.version);
      var b :| b in es && IsNewest(v, es, b, parses) && Fold(v, es, parses) == View(b.ev.url, v.epoch, b.ev.version);
      NewestAgree(v, ds, es, a, b, parses);
    } else {
      assert forall e | e in es :: IsFresh(v, e, parses) ==> e in ds;
    }
  }
}
