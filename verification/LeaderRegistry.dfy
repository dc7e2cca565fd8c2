/** Who leads each deployment, versioned, with one-slot channels to whoever listens. */
module LeaderRegistry {
  import opened Prelude

  datatype LeaderEvent = LeaderEvent(name: string, pod: string, url: string, version: nat, epoch: nat)

  datatype Deployment = Deployment(pod: string, url: string, version: nat, published: bool)

  const UNPUBLISHED := Deployment("", "", 0, false)

  const MAX_SUBSCRIBERS := 128

  predicate Changed(d: Deployment, pod: string, url: string) {
    d.pod != pod || d.url != url || !d.published
  }

  function Updated(d: Deployment, pod: string, url: string): Deployment {
    Deployment(pod, url, if Changed(d, pod, url) then d.version + 1 else d.version, true)
  }

  function EventOf(name: string, d: Deployment, epoch: nat): LeaderEvent {
    LeaderEvent(name, d.pod, d.url, d.version, epoch)
  }

  /** Only published deployments have a version. */
  predicate DeploymentOk(d: Deployment) {
    if d.published then d.version > 0 else d == UNPUBLISHED
  }

  // ---- What the leader endpoint answers

  datatype Response = Response(status: nat, body: Option<LeaderEvent>)

  function GetLeader(name: string, d: Option<Deployment>, epoch: nat): Response {
    match d
    case None => Response(404, None)
    case Some(d) =>
      if !d.published then Response(425, None)
      else Response(if d.url == "" then 503 else 200, Some(EventOf(name, d, epoch)))
  }

  type Channels = map<nat, Option<LeaderEvent>>

  function Broadcast(chans: Channels, ev: LeaderEvent): (sent: Channels)
    ensures |sent| == |chans|
  {
    var sent := map id | id in chans :: Some(ev);
    assert sent.Keys == chans.Keys;
    sent
  }

  /** A buffered event is the newest one published. */
  ghost predicate ChannelsOk(chans: Channels, name: string, d: Deployment, epoch: nat, nextId: nat) {
    && |chans| <= MAX_SUBSCRIBERS
    && forall id | id in chans ::
         id < nextId && (chans[id].Some? ==> d.published && chans[id].value == EventOf(name, d, epoch))
  }

  function Put(chans: Channels, id: nat, slot: Option<LeaderEvent>): Channels {
    chans[id := slot]
  }

  class Registry {
    var epoch: nat
    var deps: map<string, Deployment>
    var subs: map<string, Channels>
    var nextId: nat

    ghost predicate Valid()
      reads this
    {
      && epoch != 0
      && (forall n | n in deps :: DeploymentOk(deps[n]))
      && (forall n | n in subs :: n in deps && ChannelsOk(subs[n], n, deps[n], epoch, nextId))
    }

    constructor (random: nat)
      ensures Valid() && deps == map[] && subs == map[]
      ensures random != 0 ==> epoch == random
    {
      epoch, deps, subs, nextId := if random != 0 then random else 1, map[], map[], 0;
    }

    method EnsureDeployment(name: string)
      requires Valid()
      modifies this`deps
      ensures Valid()
      ensures deps == if name in old(deps) then old(deps) else old(deps)[name := UNPUBLISHED]
    {
      if name !in deps {
        deps := deps[name := UNPUBLISHED];
      }
    }

    /** A change is versioned, and replaces whatever each subscriber still has buffered. */
    method Update(name: string, pod: string, url: string)
      requires Valid()
      modifies this`deps, this`subs
      ensures Valid()
      ensures name !in old(deps) ==> deps == old(deps) && subs == old(subs)
      ensures name in old(deps) ==>
                var was := old(deps[name]);
                var changes := was.pod != pod || was.url != url || !was.published;
                var version := was.version + if changes then 1 else 0;
                && deps == old(deps)[name := Deployment(pod, url, version, true)]
                && subs == if changes && name in old(subs)
                           then var ev := LeaderEvent(name, pod, url, version, epoch);
                                old(subs)[name := Broadcast(old(subs[name]), ev)]
                           else old(subs)
    {
      if name !in deps {
        return;
      }
      var d := deps[name];
      var changed := d.pod != pod || d.url != url || !d.published;
      d := d.(pod := pod, url := url, published := true);
      if changed {
        d := d.(version := d.version + 1);
        if name in subs {
          var chans := Send(subs[name], EventOf(name, d, epoch));
          subs := subs[name := chans];
        }
      }
      deps := deps[name := d];
    }

    /** Per channel: try to send; if it is full, drain it and send again. */
    static method Send(chans: Channels, ev: LeaderEvent) returns (sent: Channels)
      ensures sent == Broadcast(chans, ev)
      ensures sent.Keys == chans.Keys && forall id | id in sent :: sent[id] == Some(ev)
    {
      sent := chans;
      var todo := chans.Keys;
      while todo != {}
        invariant todo <= chans.Keys && sent.Keys == chans.Keys
        invariant forall id | id in chans :: sent[id] == if id in todo then chans[id] else Some(ev)
        decreases |todo|
      {
        var id :| id in todo;
        if sent[id].Some? {
          sent := sent[id := None];
        }
        sent := sent[id := Some(ev)];
        todo := todo - {id};
      }
    }

    method Leader(name: string) returns (ev: LeaderEvent, ok: bool)
      ensures name !in deps ==> !ok && ev == LeaderEvent(name, "", "", 0, epoch)
      ensures name in deps ==>
                && ev == LeaderEvent(name, deps[name].pod, deps[name].url, deps[name].version, epoch)
                && (ok <==> ev.url != "")
      ensures name in deps ==> ev == EventOf(name, deps[name], epoch)
    {
      if name !in deps {
        return LeaderEvent(name, "", "", 0, epoch), false;
      }
      var d := deps[name];
      ev := LeaderEvent(name, d.pod, d.url, d.version, epoch);
      ok := d.url != "";
    }

    method Published(name: string) returns (p: bool)
      ensures p <==> name in deps && deps[name].published
    {
      p := name in deps && deps[name].published;
    }

    method AllPublished() returns (all: bool)
      ensures all <==> deps != map[] && forall n | n in deps :: deps[n].published
    {
      var todo := deps.Keys;
      while todo != {}
        invariant todo <= deps.Keys
        invariant forall n | n in deps && n !in todo :: deps[n].published
        decreases |todo|
      {
        var n :| n in todo;
        if !deps[n].published {
          return false;
        }
        todo := todo - {n};
      }
      all := |deps| > 0;
    }

    method GetLeaderEndpoint(name: string) returns (r: Response)
      ensures r == GetLeader(name, if name in deps then Some(deps[name]) else None, epoch)
      ensures name !in deps ==> r == Response(404, None)
      ensures name in deps && !deps[name].published ==> r == Response(425, None)
      ensures name in deps && deps[name].published ==>
                r == Response(if deps[name].url == "" then 503 else 200,
                              Some(LeaderEvent(name, deps[name].pod, deps[name].url, deps[name].version, epoch)))
    {
      if name !in deps {
        return Response(404, None);
      }
      var published := Published(name);
      if !published {
        return Response(425, None);
      }
      var ev, ok := Leader(name);
      r := Response(if ok then 200 else 503, Some(ev));
    }

    /** A new subscriber starts with an empty channel of its own. */
    method Subscribe(name: string) returns (id: Option<nat>)
      requires Valid()
      modifies this`subs, this`nextId
      ensures Valid()
      ensures id.Some? <==> name in deps && (name in old(subs) ==> |old(subs[name])| < 128)
      ensures id.None? ==> subs == old(subs)
      ensures id.Some? ==>
                var chans := if name in old(subs) then old(subs[name]) else map[];
                id.value !in chans && subs == old(subs)[name := Put(chans, id.value, None)]
    {
      if name !in deps {
        return None;
      }
      var chans := if name in subs then subs[name] else map[];
      if |chans| >= MAX_SUBSCRIBERS {
        return None;
      }
      id := Some(nextId);
      assert |chans[nextId := None]| == |chans| + 1;
      subs := subs[name := Put(chans, nextId, None)];
      nextId := nextId + 1;
    }

    method Cancel(name: string, id: nat)
      requires Valid()
      modifies this`subs
      ensures Valid()
      ensures subs == if name in old(subs) then old(subs)[name := old(subs[name]) - {id}] else old(subs)
    {
      if name !in subs {
        return;
      }
      if id !in subs[name] {
        assert subs[name] - {id} == subs[name];
        assert subs[name := subs[name] - {id}] == subs;
        return;
      }
      assert |subs[name]| == |subs[name] - {id}| + 1 by {
        assert (subs[name] - {id})[id := subs[name][id]] == subs[name];
      }
      subs := subs[name := subs[name] - {id}];
    }

    /** A subscriber drains its channel. */
    method Receive(name: string, id: nat) returns (ev: Option<LeaderEvent>)
      requires Valid() && name in subs && id in subs[name]
      modifies this`subs
      ensures Valid()
      ensures ev == old(subs[name][id])
      ensures subs == old(subs)[name := Put(old(subs[name]), id, None)]
    {
      ev := subs[name][id];
      assert subs[name][id := None].Keys == subs[name].Keys;
      assert |subs[name][id := None]| == |subs[name]|;
      subs := subs[name := Put(subs[name], id, None)];
    }
  }
}
