/** The ring that holds the latest rows of a deployment for Insights. */
module Insights {
  import opened Prelude

  datatype Kind = Occ | Read

  datatype Row = Row(
    ms: int,
    kind: Kind,
    udfId: string,
    component: Option<string>,
    table: Option<string>,
    failedPermanently: bool,
    calls: seq<Call>)

  datatype Call = Call(bytesRead: int, documentsRead: int)

  datatype ReadLimits = ReadLimits(documents: int, bytes: int, warningRatio: real)

  predicate ValidLimits(l: ReadLimits) {
    l.documents > 0 && l.bytes > 0 && 0.0 < l.warningRatio <= 1.0
  }

  // ---- The ring

  /** The last `n` elements. */
  function Last<T>(s: seq<T>, n: nat): (r: seq<T>)
    ensures |r| <= n && |r| <= |s|
  {
    if |s| <= n then s else s[|s| - n..]
  }

  /** The kept rows are the newest ones, as many as there is room for. */
  predicate IsTail(kept: seq<Row>, all: seq<Row>, cap: nat) {
    && |kept| == (if |all| < cap then |all| else cap)
    && forall i | 0 <= i < |kept| :: kept[i] == all[|all| - |kept| + i]
  }

  lemma LastIsTail(all: seq<Row>, cap: nat)
    ensures IsTail(Last(all, cap), all, cap)
  {}

  function InWindow(rows: seq<Row>, fromMs: int, toMs: int): seq<Row> {
    if rows == [] then []
    else
      var r := rows[|rows| - 1];
      InWindow(rows[..|rows| - 1], fromMs, toMs) + if fromMs <= r.ms < toMs then [r] else []
  }

  /** A ring that starts at `start`, in order. */
  function Rotated<T>(rows: seq<T>, start: nat): (r: seq<T>)
    requires start <= |rows|
    ensures |r| == |rows|
  {
    rows[start..] + rows[..start]
  }

  lemma ModuloOnce(a: nat, n: nat)
    requires a < 2 * n
    ensures a % n == if a < n then a else a - n
  {}

  lemma RotatedAt<T>(rows: seq<T>, start: nat, n: nat)
    requires start <= |rows| && n < |rows|
    ensures Rotated(rows, start)[n] == rows[(start + n) % |rows|]
  {
    ModuloOnce(start + n, |rows|);
  }

  /** Overwriting the oldest and moving the start on drops it and appends the newest. */
  lemma RotatedPush<T>(rows: seq<T>, start: nat, x: T)
    requires start < |rows|
    ensures (start + 1) % |rows| < |rows|
    ensures Rotated(rows[start := x], (start + 1) % |rows|) == Rotated(rows, start)[1..] + [x]
  {
    ModuloOnce(start + 1, |rows|);
  }

  class DeploymentRows {
    var rows: seq<Row>
    var start: nat
    var limits: ReadLimits

    predicate Valid(cap: nat)
      reads this
    {
      |rows| <= cap && (if |rows| < cap then start == 0 else start < cap)
    }

    /** The rows in the order they were pushed. */
    function Contents(): seq<Row>
      requires start <= |rows|
      reads this
    {
      Rotated(rows, start)
    }

    constructor (cap: nat)
      requires cap > 0
      ensures Valid(cap) && Contents() == []
    {
      rows, start, limits := [], 0, ReadLimits(0, 0, 0.0);
    }

    method Push(r: Row, cap: nat)
      requires cap > 0 && Valid(cap)
      modifies this`rows, this`start
      ensures Valid(cap)
      ensures Contents() == (if |old(Contents())| < cap then old(Contents()) else old(Contents())[1..]) + [r]
    {
      if |rows| < cap {
        rows := rows + [r];
        return;
      }
      RotatedPush(rows, start, r);
      rows := rows[start := r];
      start := (start + 1) % |rows|;
    }

    /** Bad limits leave everything as it was; otherwise the ring ends up with the last `cap` of
        what it held and what came in, and the number of rows that came in is returned. */
    method Ingest(newLimits: ReadLimits, incoming: seq<Row>, cap: nat) returns (ingested: Option<nat>)
      requires cap > 0 && Valid(cap)
      modifies this
      ensures Valid(cap) && ingested == if ValidLimits(newLimits) then Some(|incoming|) else None
      ensures ingested.Some? <==> newLimits.documents > 0 && newLimits.bytes > 0
                                  && newLimits.warningRatio > 0.0 && newLimits.warningRatio <= 1.0
      ensures limits == if ingested.Some? then newLimits else old(limits)
      ensures ingested.Some? ==> IsTail(Contents(), old(Contents()) + incoming, cap)
      ensures ingested.None? ==> Contents() == old(Contents())
      ensures Contents() == if ingested.Some? then Last(old(Contents()) + incoming, cap) else old(Contents())
    {
      if !ValidLimits(newLimits) {
        return None;
      }
      limits := newLimits;
      ghost var was := Contents();
      assert was + incoming[..0] == was;
      for i := 0 to |incoming|
        invariant Valid(cap) && limits == newLimits && Contents() == Last(was + incoming[..i], cap)
      {
        LastOfNext(was, incoming, i, cap);
        LastOfPush(Contents(), incoming[i], cap);
        Push(incoming[i], cap);
      }
      assert incoming[..|incoming|] == incoming;
      LastIsTail(was + incoming, cap);
      ingested := Some(|incoming|);
    }

    /** The rows in the window, in the order they came in. */
    method RowsBetween(fromMs: int, toMs: int, cap: nat) returns (out: seq<Row>, current: ReadLimits)
      requires Valid(cap)
      ensures out == InWindow(Contents(), fromMs, toMs) && current == limits
      ensures SelectsInOrder(out, Contents(), fromMs, toMs, Places(Contents(), fromMs, toMs))
    {
      out, current := [], limits;
      for n := 0 to |rows|
        invariant out == InWindow(Contents()[..n], fromMs, toMs)
      {
        var r := rows[(start + n) % |rows|];
        RotatedAt(rows, start, n);
        assert Contents()[..n + 1][..n] == Contents()[..n];
        if r.ms >= fromMs && r.ms < toMs {
          out := out + [r];
        }
      }
      assert Contents()[..|rows|] == Contents();
      WindowInOrder(Contents(), fromMs, toMs);
    }
  }

  lemma LastOfMore<T>(s: seq<T>, more: seq<T>, n: nat)
    ensures Last(Last(s, n) + more, n) == Last(s + more, n)
  {}

  lemma WindowOfNext(rows: seq<Row>, r: Row, fromMs: int, toMs: int)
    ensures InWindow(rows + [r], fromMs, toMs) ==
            InWindow(rows, fromMs, toMs) + if fromMs <= r.ms < toMs then [r] else []
  {
    assert (rows + [r])[..|rows|] == rows;
  }

  /** A window selects rows by their time alone, and keeps their order. */
  lemma {:induction false} WindowExact(rows: seq<Row>, fromMs: int, toMs: int, x: Row)
    ensures multiset(InWindow(rows, fromMs, toMs))[x] == if fromMs <= x.ms < toMs then multiset(rows)[x] else 0
  {
    if rows != [] {
      var n := |rows| - 1;
      WindowExact(rows[..n], fromMs, toMs, x);
      WindowOfNext(rows[..n], rows[n], fromMs, toMs);
      assert rows == rows[..n] + [rows[n]];
      assert multiset(rows)[x] == multiset(rows[..n])[x] + (if rows[n] == x then 1 else 0);
    }
  }

  lemma LastOfPush<T>(kept: seq<T>, x: T, n: nat)
    requires 0 < n && |kept| <= n
    ensures Last(kept + [x], n) == (if |kept| < n then kept else kept[1..]) + [x]
  {}

  lemma LastOfNext<T>(s: seq<T>, more: seq<T>, i: nat, n: nat)
    requires i < |more|
    ensures Last(Last(s + more[..i], n) + [more[i]], n) == Last(s + more[..i + 1], n)
  {
    LastOfMore(s + more[..i], [more[i]], n);
    assert s + more[..i + 1] == s + more[..i] + [more[i]];
  }

  /** The places of the rows of a window. */
  function Places(rows: seq<Row>, fromMs: int, toMs: int): (at: seq<nat>)
    ensures |at| == |InWindow(rows, fromMs, toMs)|
  {
    if rows == [] then []
    else
      var n := |rows| - 1;
      Places(rows[..n], fromMs, toMs) + if fromMs <= rows[n].ms < toMs then [n] else []
  }

  /** A window is the rows at some places, in their order: all the places whose time is in it. */
  ghost predicate SelectsInOrder(out: seq<Row>, rows: seq<Row>, fromMs: int, toMs: int, at: seq<nat>) {
    && |out| == |at|
    && (forall k | 0 <= k < |at| :: at[k] < |rows| && out[k] == rows[at[k]])
    && (forall j, k | 0 <= j < k < |at| :: at[j] < at[k])
    && forall i | 0 <= i < |rows| :: i in at <==> fromMs <= rows[i].ms < toMs
  }

  lemma SelectsMore(out: seq<Row>, rows: seq<Row>, r: Row, fromMs: int, toMs: int, at: seq<nat>)
    requires SelectsInOrder(out, rows, fromMs, toMs, at)
    ensures fromMs <= r.ms < toMs ==> SelectsInOrder(out + [r], rows + [r], fromMs, toMs, at + [|rows|])
    ensures !(fromMs <= r.ms < toMs) ==> SelectsInOrder(out, rows + [r], fromMs, toMs, at)
  {
    var more: seq<nat> := at + [|rows|];
    assert |rows| in more && forall i: nat | i in at :: i in more;
    assert forall i: nat | i in more :: i in at || i == |rows|;
  }

  lemma PlacesOfNext(rows: seq<Row>, r: Row, fromMs: int, toMs: int)
    ensures Places(rows + [r], fromMs, toMs) ==
            Places(rows, fromMs, toMs) + if fromMs <= r.ms < toMs then [|rows|] else []
  {
    assert (rows + [r])[..|rows|] == rows;
  }

  lemma {:induction false} WindowInOrder(rows: seq<Row>, fromMs: int, toMs: int)
    ensures SelectsInOrder(InWindow(rows, fromMs, toMs), rows, fromMs, toMs, Places(rows, fromMs, toMs))
  {
    if rows != [] {
      var n := |rows| - 1;
      WindowInOrder(rows[..n], fromMs, toMs);
      SelectsMore(InWindow(rows[..n], fromMs, toMs), rows[..n], rows[n], fromMs, toMs, Places(rows[..n], fromMs, toMs));
      WindowOfNext(rows[..n], rows[n], fromMs, toMs);
      PlacesOfNext(rows[..n], rows[n], fromMs, toMs);
      assert rows[..n] + [rows[n]] == rows;
    }
  }

  // ---- Any number of ingests, then a query

  datatype Request = Request(limits: ReadLimits, rows: seq<Row>)

  /** The rows of the requests that were not refused. */
  function Accepted(requests: seq<Request>): seq<Row> {
    if requests == [] then []
    else
      var q := requests[|requests| - 1];
      Accepted(requests[..|requests| - 1]) + if ValidLimits(q.limits) then q.rows else []
  }

  /** The limits of the last request that was not refused. */
  function LimitsAfter(requests: seq<Request>): Option<ReadLimits> {
    if requests == [] then None
    else
      var q := requests[|requests| - 1];
      if ValidLimits(q.limits) then Some(q.limits) else LimitsAfter(requests[..|requests| - 1])
  }

  /** What a ring holds after the requests, by what each of them does to it. */
  function Held(requests: seq<Request>, cap: nat): seq<Row> {
    if requests == [] then []
    else
      var held, q := Held(requests[..|requests| - 1], cap), requests[|requests| - 1];
      if ValidLimits(q.limits) then Last(held + q.rows, cap) else held
  }

  /** However the rows come in, the ring keeps exactly the last `cap` of those accepted. */
  lemma {:induction false} RingKeepsTheLast(requests: seq<Request>, cap: nat)
    ensures Held(requests, cap) == Last(Accepted(requests), cap)
    ensures IsTail(Held(requests, cap), Accepted(requests), cap)
  {
    LastIsTail(Accepted(requests), cap);
    if requests != [] {
      var n := |requests| - 1;
      RingKeepsTheLast(requests[..n], cap);
      LastOfMore(Accepted(requests[..n]), requests[n].rows, cap);
      assert Accepted(requests[..n]) + [] == Accepted(requests[..n]);
    }
  }

  /** End to end: a query after any requests returns, in the order they came in, exactly the rows
      in the window among the last `cap` accepted, with the limits of the last request that was
      not refused. */
  method QueryAfter(requests: seq<Request>, fromMs: int, toMs: int, cap: nat)
    returns (out: seq<Row>, limits: ReadLimits, ghost held: seq<Row>, ghost at: seq<nat>)
    requires cap > 0
    ensures IsTail(held, Accepted(requests), cap) && SelectsInOrder(out, held, fromMs, toMs, at)
    ensures out == InWindow(Last(Accepted(requests), cap), fromMs, toMs)
    ensures LimitsAfter(requests).Some? ==> limits == LimitsAfter(requests).value && ValidLimits(limits)
  {
    var ring := new DeploymentRows(cap);
    for i := 0 to |requests|
      invariant ring.Valid(cap) && fresh(ring) && ring.Contents() == Held(requests[..i], cap)
      invariant LimitsAfter(requests[..i]).Some? ==>
                  ring.limits == LimitsAfter(requests[..i]).value && ValidLimits(ring.limits)
    {
      assert requests[..i + 1][..i] == requests[..i];
      var _ := ring.Ingest(requests[i].limits, requests[i].rows, cap);
    }
    assert requests[..|requests|] == requests;
    RingKeepsTheLast(requests, cap);
    held := ring.Contents();
    at := Places(held, fromMs, toMs);
    out, limits := ring.RowsBetween(fromMs, toMs, cap);
  }
}
