/** What Insights reports of the rows in a window: conflicts by group, and reads near their
    limits. */
module InsightsReport {
  import opened Prelude
  import opened Insights

  // ---- Counting by key

  function Sum<K>(counts: seq<(K, nat)>): nat {
    if counts == [] then 0 else counts[0].1 + Sum(counts[1..])
  }

  predicate DistinctKeys<K(==)>(counts: seq<(K, nat)>) {
    forall i, j | 0 <= i < j < |counts| :: counts[i].0 != counts[j].0
  }

  function Keyed<K>(counts: seq<(K, nat)>): set<K> {
    set i | 0 <= i < |counts| :: counts[i].0
  }

  /** One count for each key that occurs, of how often it occurs. */
  predicate CountsExactly<K(==)>(counts: seq<(K, nat)>, keys: multiset<K>) {
    && DistinctKeys(counts)
    && (forall i | 0 <= i < |counts| :: counts[i].1 == keys[counts[i].0] > 0)
    && (forall k | k in keys :: k in Keyed(counts))
  }

  /** Counts by key add up to the number of things counted. */
  lemma {:induction false} CountsSum<K>(counts: seq<(K, nat)>, keys: multiset<K>)
    requires CountsExactly(counts, keys)
    ensures Sum(counts) == |keys|
    decreases |counts|
  {
    if counts == [] {
      assert forall k :: k !in keys;
      assert keys == multiset{};
    } else {
      var (k, n) := counts[0];
      var rest := keys[k := 0];
      forall x | x in rest ensures x in Keyed(counts[1..]) {
        var i :| 0 <= i < |counts| && counts[i].0 == x;
        assert counts[1..][i - 1].0 == x;
      }
      assert forall i | 0 <= i < |counts[1..]| :: counts[1..][i] == counts[i + 1];
      CountsSum(counts[1..], rest);
      assert keys == rest[k := n];
    }
  }

  lemma KeyedMore<K>(counts: seq<(K, nat)>, entry: (K, nat))
    ensures Keyed(counts + [entry]) == Keyed(counts) + {entry.0}
  {
    var more := counts + [entry];
    assert more[|counts|].0 == entry.0;
    forall k | k in Keyed(counts) ensures k in Keyed(more) {
      var i :| 0 <= i < |counts| && counts[i].0 == k;
      assert more[i].0 == k;
    }
  }

  ghost predicate Tallied(tally: map<int, nat>, keys: seq<int>) {
    && (forall k :: k in tally <==> k in multiset(keys))
    && (forall k | k in tally :: tally[k] == multiset(keys)[k])
  }

  predicate Ascending(counts: seq<(int, nat)>) {
    forall i, j | 0 <= i < j < |counts| :: counts[i].0 < counts[j].0
  }

  predicate IsEarliest(hours: set<int>, h: int) {
    h in hours && forall x | x in hours :: h <= x
  }

  ghost function Member<T>(s: set<T>): (x: T)
    requires s != {}
    ensures x in s
  {
    var x :| x in s;
    x
  }

  lemma {:induction false} EarliestExists(hours: set<int>, h: int)
    requires h in hours
    ensures exists e :: IsEarliest(hours, e)
    decreases |hours|
  {
    if IsEarliest(hours, h) {
    } else {
      var x :| x in hours && x < h;
      EarliestExists(hours - {h}, x);
      var e :| IsEarliest(hours - {h}, e);
      assert e <= x < h;
      forall z | z in hours ensures e <= z {
        assert z == h || z in hours - {h};
      }
      assert IsEarliest(hours, e);
    }
  }

  method TallyHours(hours: seq<int>) returns (tally: map<int, nat>)
    ensures Tallied(tally, hours)
  {
    tally := map[];
    for i := 0 to |hours|
      invariant Tallied(tally, hours[..i])
    {
      assert hours[..i + 1] == hours[..i] + [hours[i]];
      tally := tally[hours[i] := if hours[i] in tally then tally[hours[i]] + 1 else 1];
    }
    assert hours[..|hours|] == hours;
  }

  /** The hours tallied so far, in order, all before those still to do. */
  predicate Listed(counts: seq<(int, nat)>, tally: map<int, nat>, todo: set<int>) {
    && todo <= tally.Keys && Ascending(counts) && Keyed(counts) == tally.Keys - todo
    && (forall i | 0 <= i < |counts| :: counts[i].0 in tally && counts[i].1 == tally[counts[i].0])
    && forall i, h | 0 <= i < |counts| && h in todo :: counts[i].0 < h
  }

  lemma ListedMore(counts: seq<(int, nat)>, tally: map<int, nat>, todo: set<int>, h: int)
    requires Listed(counts, tally, todo) && IsEarliest(todo, h)
    ensures Listed(counts + [(h, tally[h])], tally, todo - {h})
  {
    KeyedMore(counts, (h, tally[h]));
  }

  lemma ListedAll(counts: seq<(int, nat)>, tally: map<int, nat>, hours: seq<int>)
    requires Listed(counts, tally, {}) && Tallied(tally, hours)
    ensures CountsExactly(counts, multiset(hours))
  {
    forall i | 0 <= i < |counts| ensures counts[i].1 == multiset(hours)[counts[i].0] > 0 {
      var h: int := counts[i].0;
      assert h in tally;
      assert h in multiset(hours) && counts[i].1 == multiset(hours)[h];
      assert multiset(hours)[h] > 0;
    }
    forall h | h in multiset(hours) ensures h in Keyed(counts) {
      assert h in tally;
    }
  }

  /** Counts by hour, in the order of the hours. */
  method Bucket(hours: seq<int>) returns (counts: seq<(int, nat)>)
    ensures CountsExactly(counts, multiset(hours)) && Ascending(counts)
  {
    var tally := TallyHours(hours);
    counts := [];
    var todo := tally.Keys;
    while todo != {}
      invariant Listed(counts, tally, todo)
      decreases |todo|
    {
      EarliestExists(todo, Member(todo));
      var h :| h in todo && IsEarliest(todo, h);
      ListedMore(counts, tally, todo, h);
      counts := counts + [(h, tally[h])];
      todo := todo - {h};
    }
    ListedAll(counts, tally, hours);
  }

  // ---- The most recent rows

  const MAX_RECENT := 50

  predicate NewestFirst(rows: seq<Row>) {
    forall i, j | 0 <= i < j < |rows| :: rows[i].ms >= rows[j].ms
  }

  /** At most fifty of the rows, newest first, and none that is left out is newer than any of
      them. Which of several equally old rows are left out is not determined. */
  predicate AreRecent(recent: seq<Row>, rows: seq<Row>) {
    && |recent| == (if |rows| < 50 then |rows| else 50)
    && NewestFirst(recent) && multiset(recent) <= multiset(rows)
    && forall r, older | r in recent && older in multiset(rows) - multiset(recent) :: older.ms <= r.ms
  }

  function Inserted(sorted: seq<Row>, r: Row): (out: seq<Row>)
    ensures multiset(out) == multiset(sorted) + multiset{r} && |out| == |sorted| + 1
  {
    if sorted == [] || sorted[0].ms < r.ms then [r] + sorted
    else
      assert sorted == [sorted[0]] + sorted[1..];
      [sorted[0]] + Inserted(sorted[1..], r)
  }

  lemma {:induction false} InsertedSorted(sorted: seq<Row>, r: Row)
    requires NewestFirst(sorted)
    ensures NewestFirst(Inserted(sorted, r))
  {
    if sorted != [] && sorted[0].ms >= r.ms {
      var rest := Inserted(sorted[1..], r);
      InsertedSorted(sorted[1..], r);
      forall k | 0 <= k < |rest| ensures rest[k].ms <= sorted[0].ms {
        assert rest[k] in multiset(rest);
        assert rest[k] == r || rest[k] in sorted[1..];
      }
    }
  }

  lemma FirstAreRecent(sorted: seq<Row>, rows: seq<Row>, n: nat)
    requires NewestFirst(sorted) && multiset(sorted) == multiset(rows) && n <= |sorted|
    ensures multiset(sorted[..n]) <= multiset(rows) && NewestFirst(sorted[..n])
    ensures forall r, older | r in sorted[..n] && older in multiset(rows) - multiset(sorted[..n]) :: older.ms <= r.ms
  {
    assert sorted == sorted[..n] + sorted[n..];
    forall r, older | r in sorted[..n] && older in multiset(rows) - multiset(sorted[..n]) ensures older.ms <= r.ms {
      assert older in multiset(sorted[n..]);
      var k :| 0 <= k < |sorted[n..]| && sorted[n..][k] == older;
      assert sorted[n + k] == older;
    }
  }

  lemma SameSize(sorted: seq<Row>, rows: seq<Row>)
    requires multiset(sorted) == multiset(rows)
    ensures |sorted| == |rows|
  {
    assert |multiset(sorted)| == |sorted| && |multiset(rows)| == |rows|;
  }

  method SortByTime(rows: seq<Row>) returns (sorted: seq<Row>)
    ensures NewestFirst(sorted) && multiset(sorted) == multiset(rows)
  {
    sorted := [];
    for i := 0 to |rows|
      invariant NewestFirst(sorted) && multiset(sorted) == multiset(rows[..i])
    {
      assert rows[..i + 1] == rows[..i] + [rows[i]];
      InsertedSorted(sorted, rows[i]);
      sorted := Inserted(sorted, rows[i]);
    }
    assert rows[..|rows|] == rows;
  }

  /** Sorts by time, newest first, and keeps the first fifty. */
  method MostRecent(rows: seq<Row>) returns (recent: seq<Row>)
    ensures AreRecent(recent, rows)
  {
    recent := SortByTime(rows);
    SameSize(recent, rows);
    var n := if |recent| > MAX_RECENT then MAX_RECENT else |recent|;
    FirstAreRecent(recent, rows, n);
    recent := recent[..n];
  }

  // ---- Conflicts, by function, component, table and outcome

  const ROOT_COMPONENT := "-root-component-"
  const MS_PER_HOUR := 3_600_000

  datatype OccKey = OccKey(udfId: string, component: string, table: string, permanently: bool)

  function OccKeyOf(r: Row): OccKey {
    OccKey(r.udfId, if r.component.Some? then r.component.value else ROOT_COMPONENT,
           if r.table.Some? then r.table.value else "", r.failedPermanently)
  }

  function HourOf(r: Row): int {
    r.ms / MS_PER_HOUR
  }

  /** An hour is the one that its rows fall in. */
  lemma HourIs(r: Row, hour: int)
    ensures HourOf(r) == hour <==> hour * 3600 * 1000 <= r.ms < (hour + 1) * 3600 * 1000
  {}

  /** Two conflicts are of one group exactly if they are of the same function, component, table
      and outcome; no component is the root component, and no table the table without a name. */
  lemma SameGroupExactly(a: Row, b: Row)
    ensures OccKeyOf(a) == OccKeyOf(b) <==>
            && a.udfId == b.udfId && a.failedPermanently == b.failedPermanently
            && (a.component == b.component || {a.component, b.component} == {None, Some("-root-component-")})
            && (a.table == b.table || {a.table, b.table} == {None, Some("")})
  {
    var root: Option<string>, unnamed: Option<string> := Some("-root-component-"), Some("");
    if {a.component, b.component} == {None, root} {
      assert a.component in {None, root} && b.component in {None, root};
    }
    if {a.table, b.table} == {None, unnamed} {
      assert a.table in {None, unnamed} && b.table in {None, unnamed};
    }
  }

  function OccKeys(rows: seq<Row>): seq<OccKey> {
    if rows == [] then []
    else
      var r := rows[|rows| - 1];
      OccKeys(rows[..|rows| - 1]) + if r.kind.Occ? then [OccKeyOf(r)] else []
  }

  /** The rows of one group, in order. */
  function GroupOf(rows: seq<Row>, key: OccKey): seq<Row> {
    if rows == [] then []
    else
      var r := rows[|rows| - 1];
      GroupOf(rows[..|rows| - 1], key) + if r.kind.Occ? && OccKeyOf(r) == key then [r] else []
  }

  function Hours(rows: seq<Row>): seq<int> {
    seq(|rows|, i requires 0 <= i < |rows| => HourOf(rows[i]))
  }

  lemma {:induction false} GroupSize(rows: seq<Row>, key: OccKey)
    ensures |GroupOf(rows, key)| == multiset(OccKeys(rows))[key]
  {
    if rows != [] {
      GroupSize(rows[..|rows| - 1], key);
    }
  }

  /** A group holds the conflicts with its key, as often as they occur, and nothing else. */
  lemma {:induction false} GroupExactly(rows: seq<Row>, key: OccKey, r: Row)
    ensures multiset(GroupOf(rows, key))[r] == if r.kind.Occ? && OccKeyOf(r) == key then multiset(rows)[r] else 0
  {
    if rows != [] {
      var n := |rows| - 1;
      GroupExactly(rows[..n], key, r);
      assert rows == rows[..n] + [rows[n]];
      assert multiset(rows)[r] == multiset(rows[..n])[r] + if rows[n] == r then 1 else 0;
    }
  }

  datatype OccGroup = OccGroup(key: OccKey, calls: nat, hourly: seq<(int, nat)>, recent: seq<Row>)

  /** The entry of a group: its size, its calls by hour, and its most recent rows. */
  predicate Describes(e: OccGroup, rows: seq<Row>) {
    && e.calls == |rows|
    && CountsExactly(e.hourly, multiset(Hours(rows))) && Ascending(e.hourly)
    && AreRecent(e.recent, rows)
  }

  method BuildOccRow(key: OccKey, rows: seq<Row>) returns (e: OccGroup)
    ensures e.key == key && Describes(e, rows)
  {
    var hourly := Bucket(Hours(rows));
    var recent := MostRecent(rows);
    e := OccGroup(key, |rows|, hourly, recent);
  }

  ghost predicate Grouped(groups: map<OccKey, seq<Row>>, rows: seq<Row>) {
    && (forall k :: k in groups <==> k in OccKeys(rows))
    && (forall k | k in groups :: groups[k] == GroupOf(rows, k))
  }

  lemma GroupEmpty(rows: seq<Row>, key: OccKey)
    requires key !in OccKeys(rows)
    ensures GroupOf(rows, key) == []
  {
    GroupSize(rows, key);
  }

  lemma GroupedMore(groups: map<OccKey, seq<Row>>, rows: seq<Row>, r: Row)
    requires Grouped(groups, rows)
    ensures var key := OccKeyOf(r);
            var more := groups[key := (if key in groups then groups[key] else []) + [r]];
            Grouped(if r.kind.Occ? then more else groups, rows + [r])
  {
    assert (rows + [r])[..|rows|] == rows;
    if r.kind.Occ? {
      if OccKeyOf(r) !in groups {
        GroupEmpty(rows, OccKeyOf(r));
      }
    } else {
      assert forall k :: GroupOf(rows + [r], k) == GroupOf(rows, k) + [];
    }
  }

  method GroupByOcc(rows: seq<Row>) returns (groups: map<OccKey, seq<Row>>)
    ensures Grouped(groups, rows)
  {
    groups := map[];
    for i := 0 to |rows|
      invariant Grouped(groups, rows[..i])
    {
      var r := rows[i];
      GroupedMore(groups, rows[..i], r);
      assert rows[..i + 1] == rows[..i] + [r];
      if r.kind.Occ? {
        var key := OccKeyOf(r);
        groups := groups[key := (if key in groups then groups[key] else []) + [r]];
      }
    }
    assert rows[..|rows|] == rows;
  }

  function CountsOf(out: seq<OccGroup>): seq<(OccKey, nat)> {
    seq(|out|, i requires 0 <= i < |out| => (out[i].key, out[i].calls))
  }

  predicate EntryOk(e: OccGroup, groups: map<OccKey, seq<Row>>) {
    e.key in groups && Describes(e, groups[e.key])
  }

  predicate EntriesOk(out: seq<OccGroup>, groups: map<OccKey, seq<Row>>, todo: set<OccKey>) {
    && todo <= groups.Keys && DistinctKeys(CountsOf(out))
    && (forall i | 0 <= i < |out| :: EntryOk(out[i], groups))
    && Keyed(CountsOf(out)) == groups.Keys - todo
  }

  lemma EntriesMore(out: seq<OccGroup>, groups: map<OccKey, seq<Row>>, todo: set<OccKey>, e: OccGroup)
    requires EntriesOk(out, groups, todo) && e.key in todo && EntryOk(e, groups)
    ensures EntriesOk(out + [e], groups, todo - {e.key})
  {
    var before, after := CountsOf(out), CountsOf(out + [e]);
    assert after == before + [(e.key, e.calls)];
    KeyedMore(before, (e.key, e.calls));
    forall i | 0 <= i < |before| ensures before[i].0 != e.key {
      assert before[i].0 in Keyed(before);
    }
  }

  lemma EntriesCount(out: seq<OccGroup>, groups: map<OccKey, seq<Row>>, rows: seq<Row>)
    requires EntriesOk(out, groups, {})
    requires Grouped(groups, rows)
    ensures CountsExactly(CountsOf(out), multiset(OccKeys(rows)))
  {
    forall i | 0 <= i < |out| ensures CountsOf(out)[i].1 == multiset(OccKeys(rows))[CountsOf(out)[i].0] > 0 {
      assert EntryOk(out[i], groups);
      GroupSize(rows, out[i].key);
    }
  }

  /** One entry a group, in some order. */
  method AggregateOcc(rows: seq<Row>) returns (out: seq<OccGroup>)
    ensures CountsExactly(CountsOf(out), multiset(OccKeys(rows)))
    ensures forall i | 0 <= i < |out| :: Describes(out[i], GroupOf(rows, out[i].key))
  {
    var groups := GroupByOcc(rows);
    out := [];
    var todo := groups.Keys;
    while todo != {}
      invariant EntriesOk(out, groups, todo)
      decreases |todo|
    {
      var key :| key in todo;
      var e := BuildOccRow(key, groups[key]);
      EntriesMore(out, groups, todo, e);
      out := out + [e];
      todo := todo - {key};
    }
    EntriesCount(out, groups, rows);
  }

  /** The groups account for every conflict exactly once, and the hours of a group for every
      call of the group. */
  lemma OccConserved(rows: seq<Row>, out: seq<OccGroup>, i: nat)
    requires CountsExactly(CountsOf(out), multiset(OccKeys(rows))) && i < |out|
    requires Describes(out[i], GroupOf(rows, out[i].key))
    ensures Sum(CountsOf(out)) == |OccKeys(rows)| && Sum(out[i].hourly) == out[i].calls
  {
    CountsSum(CountsOf(out), multiset(OccKeys(rows)));
    CountsSum(out[i].hourly, multiset(Hours(GroupOf(rows, out[i].key))));
  }

  // ---- Reads near their limit

  function Threshold(limit: nat, ratio: real): int {
    (limit as real * ratio).Floor
  }

  /** The warning threshold is never above the limit, so no row at the limit is overlooked. */
  lemma ThresholdBelowLimit(limit: nat, ratio: real)
    requires 0.0 < ratio <= 1.0
    ensures 0 <= Threshold(limit, ratio) <= limit
  {
    assert 0.0 <= limit as real * ratio <= limit as real;
  }

  /** The threshold is the part of the limit that the ratio gives, rounded down. */
  lemma ThresholdIs(limit: nat, ratio: real)
    ensures Threshold(limit, ratio) as real <= limit as real * ratio < Threshold(limit, ratio) as real + 1.0
  {}

  function SumBytes(calls: seq<Call>): int {
    if calls == [] then 0 else SumBytes(calls[..|calls| - 1]) + calls[|calls| - 1].bytesRead
  }

  function SumDocuments(calls: seq<Call>): int {
    if calls == [] then 0 else SumDocuments(calls[..|calls| - 1]) + calls[|calls| - 1].documentsRead
  }

  datatype Dimension = Bytes | Documents

  function Measure(d: Dimension, r: Row): int {
    if d.Bytes? then SumBytes(r.calls) else SumDocuments(r.calls)
  }

  /** Bytes are added up from the bytes that each call read, documents from its documents. */
  lemma MeasureIs(r: Row, calls: seq<Call>, c: Call)
    ensures Measure(Bytes, r.(calls := [])) == Measure(Documents, r.(calls := [])) == 0
    ensures Measure(Bytes, r.(calls := calls + [c])) == Measure(Bytes, r.(calls := calls)) + c.bytesRead
    ensures Measure(Documents, r.(calls := calls + [c])) == Measure(Documents, r.(calls := calls)) + c.documentsRead
  {
    assert (calls + [c])[..|calls|] == calls;
  }

  function LimitOf(d: Dimension, l: ReadLimits): int {
    if d.Bytes? then l.bytes else l.documents
  }

  /** The rows that reached the threshold, in order. */
  function Reaching(d: Dimension, rows: seq<Row>, threshold: int): seq<Row> {
    if rows == [] then []
    else
      var r := rows[|rows| - 1];
      Reaching(d, rows[..|rows| - 1], threshold) + if Measure(d, r) >= threshold then [r] else []
  }

  /** They are the rows at or above the threshold, as often as they occur. */
  lemma {:induction false} ReachingExactly(d: Dimension, rows: seq<Row>, threshold: int, r: Row)
    ensures multiset(Reaching(d, rows, threshold))[r] == if Measure(d, r) >= threshold then multiset(rows)[r] else 0
  {
    if rows != [] {
      var n := |rows| - 1;
      ReachingExactly(d, rows[..n], threshold, r);
      assert rows == rows[..n] + [rows[n]];
    }
  }

  datatype ReadRow =
    ReadRow(isLimit: bool, count: nat, limit: int, threshold: int, hourly: seq<(int, nat)>, recent: seq<Row>)

  /** One row a dimension, if anything reached the threshold. It is of the limit kind exactly if
      some row reached the limit, and describes the rows that reached the threshold. */
  method DimensionRow(d: Dimension, rows: seq<Row>, limits: ReadLimits) returns (out: Option<ReadRow>)
    requires ValidLimits(limits)
    ensures var limit := if d == Bytes then limits.bytes else limits.documents;
            var threshold := Threshold(limit, limits.warningRatio);
            var reaching := Reaching(d, rows, threshold);
            && (out.None? <==> forall r | r in rows :: Measure(d, r) < threshold)
            && (out.Some? ==>
                  && out.value.limit == limit && out.value.threshold == threshold
                  && (out.value.isLimit <==> exists r | r in rows :: Measure(d, r) >= limit)
                  && out.value.count == |reaching| == Sum(out.value.hourly)
                  && CountsExactly(out.value.hourly, multiset(Hours(reaching))) && Ascending(out.value.hourly)
                  && AreRecent(out.value.recent, reaching))
  {
    var limit := LimitOf(d, limits);
    var threshold := Threshold(limit, limits.warningRatio);
    ThresholdBelowLimit(limit, limits.warningRatio);
    var reaching, isLimit := ScanRows(d, rows, limit, threshold);
    if reaching == [] {
      return None;
    }
    var hourly := Bucket(Hours(reaching));
    CountsSum(hourly, multiset(Hours(reaching)));
    var recent := MostRecent(reaching);
    out := Some(ReadRow(isLimit, |reaching|, limit, threshold, hourly, recent));
  }

  method ScanRows(d: Dimension, rows: seq<Row>, limit: int, threshold: int)
    returns (reaching: seq<Row>, isLimit: bool)
    requires 0 < limit && threshold <= limit
    ensures reaching == Reaching(d, rows, threshold)
    ensures reaching == [] <==> forall r | r in rows :: Measure(d, r) < threshold
    ensures isLimit <==> exists r | r in rows :: Measure(d, r) >= limit
  {
    reaching := [];
    var peak := 0;
    for i := 0 to |rows|
      invariant reaching == Reaching(d, rows[..i], threshold)
      invariant reaching == [] <==> forall j | 0 <= j < i :: Measure(d, rows[j]) < threshold
      invariant peak >= limit <==> exists j | 0 <= j < i :: Measure(d, rows[j]) >= limit
    {
      assert rows[..i + 1][..i] == rows[..i];
      var v := Measure(d, rows[i]);
      if v < threshold {
        continue;
      }
      reaching := reaching + [rows[i]];
      peak := if v > peak then v else peak;
    }
    assert rows[..|rows|] == rows;
    isLimit := peak >= limit;
  }
}
