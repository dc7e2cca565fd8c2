/** A follower's replay of the log: the log, the plain fold of it, and the tailer that keeps a
    snapshot up to date with it. */
module Tailer {
  import opened Prelude

  // ---- The log and what it means

  /** A committed transaction: the lease it was committed under, and what it wrote (`None`
      deletes). */
  datatype Txn = Txn(lease: nat, writes: map<nat, Option<nat>>)

  /** The log by timestamp. It need not be written in timestamp order. */
  type Log = map<nat, Txn>

  /** The documents, and the number of revisions applied to get there (the source of its table
      summaries). */
  datatype State = State(docs: map<nat, nat>, revisions: nat)

  const EMPTY := State(map[], 0)

  function ApplyTxn(state: State, txn: Txn): State {
    var kept := map id | id in state.docs && id !in txn.writes :: state.docs[id];
    var written := map id | id in txn.writes && txn.writes[id].Some? :: txn.writes[id].value;
    State(kept + written, state.revisions + |txn.writes|)
  }

  /** The plain fold: the state after every transaction up to and including time t, in order. */
  function Replay(log: Log, t: nat): State {
    var before := if t == 0 then EMPTY else Replay(log, t - 1);
    if t in log then ApplyTxn(before, log[t]) else before
  }

  /** The first transaction after `lo` and no later than `hi`. */
  function NextStamp(log: Log, lo: nat, hi: nat): (r: Option<nat>)
    ensures r.Some? ==> lo < r.value <= hi && r.value in log
    decreases hi - lo
  {
    if lo >= hi then None
    else if lo + 1 in log then Some(lo + 1)
    else NextStamp(log, lo + 1, hi)
  }

  /** The order in which a range read streams the transactions. */
  function Stamps(log: Log, lo: nat, hi: nat): seq<nat>
    decreases hi - lo
  {
    match NextStamp(log, lo, hi)
    case None => []
    case Some(ts) => [ts] + Stamps(log, ts, hi)
  }

  lemma {:induction false} ReplayNext(log: Log, lo: nat, hi: nat)
    requires lo <= hi
    ensures match NextStamp(log, lo, hi)
            case None => Replay(log, hi) == Replay(log, lo) && forall t | lo < t <= hi :: t !in log
            case Some(ts) =>
              && Replay(log, ts) == ApplyTxn(Replay(log, lo), log[ts])
              && forall t | lo < t < ts :: t !in log
    decreases hi - lo
  {
    if lo < hi && lo + 1 !in log {
      ReplayNext(log, lo + 1, hi);
      assert Replay(log, lo + 1) == Replay(log, lo);
    }
  }

  ghost predicate SameUpTo(a: Log, b: Log, t: nat) {
    forall s | s <= t :: (s in a <==> s in b) && (s in a ==> a[s] == b[s])
  }

  lemma {:induction false} ReplaySame(a: Log, b: Log, t: nat)
    requires SameUpTo(a, b, t)
    ensures Replay(a, t) == Replay(b, t)
  {
    if t > 0 {
      ReplaySame(a, b, t - 1);
    }
  }

  lemma {:induction false} ReplayQuiet(log: Log, lo: nat, hi: nat)
    requires lo <= hi && forall t | lo < t <= hi :: t !in log
    ensures Replay(log, hi) == Replay(log, lo)
    decreases hi
  {
    if lo < hi {
      ReplayQuiet(log, lo, hi - 1);
    }
  }

  // ---- What the fold is, without folding

  /** Up to time t, the last transaction that wrote the document did so at `ts`. */
  ghost predicate LastWrite(log: Log, t: nat, id: nat, ts: nat) {
    && ts <= t && ts in log && id in log[ts].writes
    && forall u | u in log && ts < u <= t :: id !in log[u].writes
  }

  /** What the log says of a document: the value of its last write, and nothing if it was never
      written or its last write deleted it. */
  ghost predicate Holds(log: Log, t: nat, docs: map<nat, nat>, id: nat) {
    && (forall ts: nat | LastWrite(log, t, id, ts) ::
          if log[ts].writes[id].Some? then id in docs && docs[id] == log[ts].writes[id].value else id !in docs)
    && (id in docs ==> exists ts: nat :: LastWrite(log, t, id, ts))
  }

  /** The documents are those that the log says. */
  ghost predicate DocumentsOf(log: Log, t: nat, docs: map<nat, nat>) {
    forall id: nat :: Holds(log, t, docs, id)
  }

  /** What one transaction does to one document, and to nothing else. */
  lemma TransactionWrites(state: State, txn: Txn, id: nat)
    ensures var docs := ApplyTxn(state, txn).docs;
            if id !in txn.writes then (id in docs <==> id in state.docs) && (id in docs ==> docs[id] == state.docs[id])
            else (id in docs <==> txn.writes[id] != None) && (id in docs ==> txn.writes[id] == Some(docs[id]))
  {}

  lemma LastWriteEarlier(log: Log, t: nat, id: nat, ts: nat)
    requires t > 0 && !(t in log && id in log[t].writes)
    ensures LastWrite(log, t, id, ts) <==> LastWrite(log, t - 1, id, ts)
  {
    if LastWrite(log, t - 1, id, ts) {
      forall u | u in log && ts < u <= t ensures id !in log[u].writes {
        assert u == t || u <= t - 1;
      }
    }
  }

  lemma {:induction false} ReplayHolds(log: Log, t: nat, id: nat)
    ensures Holds(log, t, Replay(log, t).docs, id)
  {
    var before := if t == 0 then EMPTY else Replay(log, t - 1);
    if t in log {
      TransactionWrites(before, log[t], id);
    }
    if t in log && id in log[t].writes {
      assert LastWrite(log, t, id, t);
    } else if t > 0 {
      ReplayHolds(log, t - 1, id);
      forall ts: nat ensures LastWrite(log, t, id, ts) <==> LastWrite(log, t - 1, id, ts) {
        LastWriteEarlier(log, t, id, ts);
      }
      if id in Replay(log, t).docs {
        var ts: nat :| LastWrite(log, t - 1, id, ts);
        assert LastWrite(log, t, id, ts);
      }
    }
  }

  /** The fold holds exactly the documents that the log says: of each, the value last written. */
  lemma ReplayIsDocuments(log: Log, t: nat)
    ensures DocumentsOf(log, t, Replay(log, t).docs)
  {
    forall id: nat ensures Holds(log, t, Replay(log, t).docs, id) {
      ReplayHolds(log, t, id);
    }
  }

  /** And nothing else does. */
  lemma DocumentsUnique(log: Log, t: nat, a: map<nat, nat>, b: map<nat, nat>)
    requires DocumentsOf(log, t, a) && DocumentsOf(log, t, b)
    ensures a == b
  {
    forall id: nat ensures (id in a <==> id in b) && (id in a ==> a[id] == b[id]) {
      assert Holds(log, t, a, id) && Holds(log, t, b, id);
    }
  }

  // ---- What each step of the tailer does

  /** The newest snapshot: its timestamp and its state. */
  datatype Snapshot = Snapshot(ts: nat, state: State)

  /** `progress == None` until search is warm; `demand` is the newest timestamp asked for. */
  datatype TState = TState(snap: Snapshot, tailed: nat, progress: Option<nat>, demand: Option<nat>)

  /** apply_transaction: a transaction the snapshot already has is skipped. */
  function Pushed(snap: Snapshot, ts: nat, txn: Txn): Snapshot {
    if ts <= snap.ts then snap else Snapshot(ts, ApplyTxn(snap.state, txn))
  }

  function Bumped(snap: Snapshot, ts: nat): Snapshot {
    if ts > snap.ts then snap.(ts := ts) else snap
  }

  function Published(progress: Option<nat>, ts: nat): Option<nat> {
    if progress.None? then None else Some(ts)
  }

  /** Search is warm: from now on progress is published. */
  function Warmed(t: TState): TState {
    t.(progress := Some(t.tailed))
  }

  function Advanced(t: TState, ts: nat, txn: Txn): TState {
    t.(snap := Pushed(t.snap, ts, txn), tailed := ts, progress := Published(t.progress, ts))
  }

  function Finished(t: TState, target: nat): TState {
    t.(snap := Bumped(t.snap, target), tailed := target, progress := Published(t.progress, target))
  }

  function Reloaded(t: TState, ts: nat, state: State): TState {
    t.(snap := Snapshot(ts, state), tailed := ts, progress := Some(ts))
  }

  function Demanded(demand: Option<nat>, target: nat): Option<nat> {
    if demand.Some? && demand.value >= target then demand else Some(target)
  }

  predicate HasReached(t: TState, target: nat) {
    t.progress.Some? && t.progress.value >= target
  }

  function NextTarget(t: TState, recent: nat): nat {
    if t.demand.Some? && t.demand.value > t.tailed then t.demand.value else recent
  }

  function AdvancedAll(t: TState, log: Log, stamps: seq<nat>): TState
    requires forall ts | ts in stamps :: ts in log
  {
    if stamps == [] then t
    else
      var n := |stamps| - 1;
      Advanced(AdvancedAll(t, log, stamps[..n]), stamps[n], log[stamps[n]])
  }

  /** fast_forward_to, when the stream breaks off after `breaksAfter` transactions, or does
      not: the state it leaves, and whether it succeeded. */
  ghost function FastForwarded(t: TState, log: Log, target: nat, breaksAfter: Option<nat>): (TState, bool) {
    if target <= t.tailed then (t, true)
    else
      StampsInLog(log, t.tailed, target);
      var stamps := Stamps(log, t.tailed, target);
      if breaksAfter.Some? && breaksAfter.value < |stamps|
      then (AdvancedAll(t, log, stamps[..breaksAfter.value]), false)
      else (Finished(AdvancedAll(t, log, stamps), target), true)
  }

  // ---- The refinement

  /** The snapshot is the fold of the log up to the tailed time, and that is what is published. */
  ghost predicate Faithful(t: TState, log: Log) {
    && t.snap.ts == t.tailed
    && t.snap.state == Replay(log, t.tailed)
    && (t.progress.Some? ==> t.progress.value == t.tailed)
  }

  /** Applying the next transaction of the stream keeps the snapshot a fold of the log. */
  lemma AdvanceFaithful(t: TState, log: Log, target: nat)
    requires Faithful(t, log) && NextStamp(log, t.tailed, target).Some?
    ensures var ts := NextStamp(log, t.tailed, target).value;
            Faithful(Advanced(t, ts, log[ts]), log) && t.tailed < ts <= target
  {
    ReplayNext(log, t.tailed, target);
  }

  /** When the stream is exhausted, so is the log up to the target. */
  lemma FinishFaithful(t: TState, log: Log, target: nat)
    requires Faithful(t, log) && t.tailed <= target && NextStamp(log, t.tailed, target).None?
    ensures Faithful(Finished(t, target), log)
  {
    ReplayNext(log, t.tailed, target);
  }

  lemma {:induction false} StampsInLog(log: Log, lo: nat, hi: nat)
    ensures forall ts | ts in Stamps(log, lo, hi) :: lo < ts <= hi && ts in log
    decreases hi - lo
  {
    if NextStamp(log, lo, hi).Some? {
      StampsInLog(log, NextStamp(log, lo, hi).value, hi);
    }
  }

  /** Where the stream is after `k` of its transactions. */
  function StampAfter(log: Log, lo: nat, hi: nat, k: nat): (at: nat)
    requires k <= |Stamps(log, lo, hi)|
    ensures lo <= at <= hi || k == 0
    ensures at == if k == 0 then lo else Stamps(log, lo, hi)[k - 1]
    ensures Stamps(log, lo, hi)[k..] == Stamps(log, at, hi)
    decreases hi - lo
  {
    if k == 0 then lo
    else
      var ts := NextStamp(log, lo, hi).value;
      assert Stamps(log, lo, hi)[1..] == Stamps(log, ts, hi);
      assert Stamps(log, lo, hi)[k..] == Stamps(log, ts, hi)[k - 1..];
      StampAfter(log, ts, hi, k - 1)
  }

  /** Applying the first `k` transactions of a stream keeps the snapshot a fold of the log:
      none is skipped, and none is applied twice. */
  lemma {:induction false} StreamFaithful(t: TState, log: Log, target: nat, k: nat)
    requires Faithful(t, log) && k <= |Stamps(log, t.tailed, target)|
    requires forall ts | ts in Stamps(log, t.tailed, target) :: ts in log
    ensures var u := AdvancedAll(t, log, Stamps(log, t.tailed, target)[..k]);
            Faithful(u, log) && u.tailed == StampAfter(log, t.tailed, target, k)
  {
    var stamps := Stamps(log, t.tailed, target);
    if k > 0 {
      StreamFaithful(t, log, target, k - 1);
      assert stamps[..k][..k - 1] == stamps[..k - 1];
      var u := AdvancedAll(t, log, stamps[..k - 1]);
      assert stamps[k - 1..] == Stamps(log, u.tailed, target);
      assert stamps[k - 1] == stamps[k - 1..][0];
      AdvanceFaithful(u, log, target);
    }
  }

  // ---- The tailer, in place

  class FollowerTailer {
    var snapTs: nat
    var state: State
    var tailed: nat
    var progress: Option<nat>
    var demand: Option<nat>

    function Abstract(): TState
      reads this
    {
      TState(Snapshot(snapTs, state), tailed, progress, demand)
    }

    /** load_follower: the snapshot at a repeatable timestamp; nothing published yet. */
    constructor (log: Log, recent: nat)
      ensures Abstract() == TState(Snapshot(recent, Replay(log, recent)), recent, None, None)
    {
      snapTs, state, tailed, progress, demand := recent, Replay(log, recent), recent, None, None;
    }

    method WarmUp()
      modifies this
      ensures Abstract() == Warmed(old(Abstract())) && progress == Some(tailed)
    {
      progress := Some(tailed);
    }

    method ApplyTransaction(ts: nat, txn: Txn)
      modifies this
      ensures Abstract() == old(Abstract()).(snap := Pushed(old(Abstract()).snap, ts, txn))
      ensures ts <= old(snapTs) ==> Abstract() == old(Abstract())
      ensures ts > old(snapTs) ==>
                && snapTs == ts && state.revisions == old(state.revisions) + |txn.writes|
                && forall id: nat ::
                     if id !in txn.writes
                     then (id in state.docs <==> id in old(state.docs))
                          && (id in state.docs ==> state.docs[id] == old(state.docs)[id])
                     else (id in state.docs <==> txn.writes[id] != None)
                          && (id in state.docs ==> txn.writes[id] == Some(state.docs[id]))
    {
      if ts <= snapTs {
        return;
      }
      forall id: nat {
        TransactionWrites(state, txn, id);
      }
      state := ApplyTxn(state, txn);
      snapTs := ts;
    }

    method PublishProgress(ts: nat)
      modifies this
      ensures Abstract() == old(Abstract()).(progress := Published(old(progress), ts))
      ensures progress == if old(progress) == None then None else Some(ts)
    {
      if progress.None? {
        return;
      }
      progress := Some(ts);
    }

    method Bump(ts: nat)
      modifies this
      ensures Abstract() == old(Abstract()).(snap := Bumped(old(Abstract()).snap, ts))
      ensures state == old(state) && snapTs == if ts > old(snapTs) then ts else old(snapTs)
    {
      if ts > snapTs {
        snapTs := ts;
      }
    }

    /** Replays the stream up to the target, or up to where it breaks off. However it ends, a
        faithful snapshot stays faithful, and time never goes back. */
    method FastForwardTo(log: Log, target: nat, breaksAfter: Option<nat>) returns (ok: bool)
      modifies this
      ensures (Abstract(), ok) == FastForwarded(old(Abstract()), log, target, breaksAfter)
      ensures old(Faithful(Abstract(), log)) ==> Faithful(Abstract(), log)
      ensures ok && target > old(tailed) ==> tailed == target
      ensures old(tailed) <= tailed && (old(tailed) < tailed ==> tailed <= target)
    {
      if target <= tailed {
        return true;
      }
      ghost var start := Abstract();
      var stamps := Stamps(log, tailed, target);
      StampsInLog(log, tailed, target);
      for k := 0 to |stamps|
        invariant Abstract() == AdvancedAll(start, log, stamps[..k])
        invariant start.tailed <= tailed <= target
        invariant breaksAfter.Some? ==> k <= breaksAfter.value
      {
        if breaksAfter == Some(k) {
          if Faithful(start, log) {
            StreamFaithful(start, log, target, k);
          }
          return false;
        }
        var ts := stamps[k];
        assert stamps[..k + 1][..k] == stamps[..k];
        ApplyTransaction(ts, log[ts]);
        tailed := ts;
        PublishProgress(ts);
      }
      assert stamps[..|stamps|] == stamps;
      if Faithful(start, log) {
        StreamEnds(start, log, target);
      }
      Bump(target);
      tailed := target;
      PublishProgress(target);
      ok := true;
    }

    /** tail_once: chase the newest demand, or the newest repeatable timestamp. */
    method TailOnce(log: Log, recent: nat, breaksAfter: Option<nat>) returns (ok: bool)
      modifies this
      ensures (Abstract(), ok) ==
              FastForwarded(old(Abstract()), log, NextTarget(old(Abstract()), recent), breaksAfter)
      ensures old(Faithful(Abstract(), log)) ==> Faithful(Abstract(), log)
      ensures old(tailed) <= tailed
      ensures ok && old(demand).Some? && old(demand).value > old(tailed) ==> tailed == old(demand).value
      ensures ok && !(old(demand).Some? && old(demand).value > old(tailed)) ==>
                tailed == if recent > old(tailed) then recent else old(tailed)
    {
      var target := if demand.Some? && demand.value > tailed then demand.value else recent;
      ok := FastForwardTo(log, target, breaksAfter);
    }

    /** cold_reload: start over from a repeatable timestamp no older than the tailed one. */
    method ColdReload(log: Log, recent: nat)
      modifies this
      ensures var at := if recent > old(tailed) then recent else old(tailed);
              Abstract() == Reloaded(old(Abstract()), at, Replay(log, at))
      ensures Faithful(Abstract(), log) && progress == Some(tailed)
      ensures tailed == if recent > old(tailed) then recent else old(tailed)
    {
      var at := if recent > tailed then recent else tailed;
      snapTs, state := at, Replay(log, at);
      tailed, progress := at, Some(at);
    }

    /** handle_promote: the final fast-forward, to the end of the log. */
    method HandlePromote(log: Log, maxTs: nat, breaksAfter: Option<nat>) returns (ok: bool)
      modifies this
      ensures (Abstract(), ok) == FastForwarded(old(Abstract()), log, maxTs, breaksAfter)
      ensures old(Faithful(Abstract(), log)) ==> Faithful(Abstract(), log)
      ensures ok ==> tailed == if maxTs > old(tailed) then maxTs else old(tailed)
    {
      ok := true;
      if maxTs > tailed {
        ok := FastForwardTo(log, maxTs, breaksAfter);
      }
    }

    /** wait_for, up to its wait: an unreached target becomes the demand. */
    method Demand(target: nat) returns (reached: bool)
      modifies this
      ensures reached <==> old(progress).Some? && old(progress).value >= target
      ensures !reached ==> demand.Some? && demand.value >= target
      ensures !reached ==> demand == Some(target) || demand == old(demand)
      ensures Abstract() == if reached then old(Abstract())
                            else old(Abstract()).(demand := Demanded(old(demand), target))
    {
      if progress.Some? && progress.value >= target {
        return true;
      }
      if demand.None? || demand.value < target {
        demand := Some(target);
      }
      reached := false;
    }
  }

  lemma StreamEnds(t: TState, log: Log, target: nat)
    requires Faithful(t, log) && t.tailed <= target
    requires forall ts | ts in Stamps(log, t.tailed, target) :: ts in log
    ensures var u := AdvancedAll(t, log, Stamps(log, t.tailed, target));
            Faithful(u, log) && u.tailed <= target && Faithful(Finished(u, target), log)
  {
    var stamps := Stamps(log, t.tailed, target);
    StreamFaithful(t, log, target, |stamps|);
    assert stamps[..|stamps|] == stamps;
    var u := AdvancedAll(t, log, stamps);
    assert stamps[|stamps|..] == Stamps(log, u.tailed, target);
    FinishFaithful(u, log, target);
  }
}
