/** The metric tier tables and the SQL aggregation that fills one tier from the one below. */
module RollupTables {
  import opened Seqs

  /** Cluster, resource type, resource id and metric type: the GROUP BY columns. */
  datatype Key = Key(cluster: string, kind: string, resource: string, metric: int)

  /** A tier row. A raw sample is the row of one observation: min = max = avg and count 1. */
  datatype Row = Row(bucket: int, key: Key, min: real, max: real, avg: real, count: nat)

  function RawRow(timestamp: int, key: Key, value: real): Row {
    Row(timestamp, key, value, value, value, 1)
  }

  function InSpan(lo: int, hi: int, key: Key): Row -> bool {
    (r: Row) => r.key == key && lo <= r.bucket < hi
  }

  /** The rows of one group in [lo, hi). */
  function Group(t: seq<Row>, lo: int, hi: int, key: Key): seq<Row> {
    Filter(t, InSpan(lo, hi, key))
  }

  // ---- MIN, MAX, SUM and COUNT of a group ----

  datatype Stats = Empty | Stats(min: real, max: real, sum: real, count: nat)

  function Min(a: real, b: real): real { if a <= b then a else b }

  function Max(a: real, b: real): real { if a >= b then a else b }

  function Merge(a: Stats, b: Stats): Stats {
    if a.Empty? then b else if b.Empty? then a
    else Stats(Min(a.min, b.min), Max(a.max, b.max), a.sum + b.sum, a.count + b.count)
  }

  function RowStats(r: Row): Stats {
    Stats(r.min, r.max, r.avg * r.count as real, r.count)
  }

  function StatsOf(rows: seq<Row>): Stats {
    if rows == [] then Empty else Merge(StatsOf(rows[..|rows| - 1]), RowStats(rows[|rows| - 1]))
  }

  /** The row a rollup writes: weighted average and summed count. */
  function ToRow(bucket: int, key: Key, s: Stats): Row
    requires s.Stats? && s.count > 0
  {
    Row(bucket, key, s.min, s.max, s.sum / s.count as real, s.count)
  }

  lemma RowRoundTrip(bucket: int, key: Key, s: Stats)
    requires s.Stats? && s.count > 0
    ensures RowStats(ToRow(bucket, key, s)) == s
  {
    var c := s.count as real;
    assert s.sum / c * c == s.sum;
  }

  /** A stored row is determined by its bucket, key and statistics. */
  lemma RowFromStats(r: Row)
    requires r.count > 0
    ensures r == ToRow(r.bucket, r.key, RowStats(r))
  {
    var c := r.count as real;
    assert r.avg * c / c == r.avg;
  }

  ghost predicate Counted(t: seq<Row>) {
    forall r :: r in t ==> r.count > 0
  }

  /** Sample counts stay positive, so the division of a rollup is defined. */
  lemma {:induction false} GroupIsCounted(rows: seq<Row>)
    requires Counted(rows)
    ensures rows != [] ==> StatsOf(rows).Stats? && StatsOf(rows).count > 0
    ensures rows == [] <==> StatsOf(rows).Empty?
  {
    if rows != [] {
      assert rows[|rows| - 1] in rows;
      var front := rows[..|rows| - 1];
      assert Counted(front) by {
        forall r | r in front ensures r in rows { }
      }
      GroupIsCounted(front);
    }
  }

  ghost function Sum(rows: seq<Row>): real {
    if rows == [] then 0.0 else Sum(rows[..|rows| - 1]) + rows[|rows| - 1].avg
  }

  /** Over raw samples the statistics are the smallest, largest, total and number of values. */
  lemma {:induction false} StatsOfSamples(rows: seq<Row>)
    requires rows != [] && forall r :: r in rows ==> r == RawRow(r.bucket, r.key, r.avg)
    ensures var s := StatsOf(rows);
            && s.Stats? && s.count == |rows| && s.sum == Sum(rows)
            && (forall r :: r in rows ==> s.min <= r.avg <= s.max)
            && (exists r :: r in rows && r.avg == s.min) && (exists r :: r in rows && r.avg == s.max)
  {
    var front, last := rows[..|rows| - 1], rows[|rows| - 1];
    assert rows == front + [last];
    assert last in rows;
    if front != [] {
      StatsOfSamples(front);
      var lo :| lo in front && lo.avg == StatsOf(front).min;
      var hi :| hi in front && hi.avg == StatsOf(front).max;
      assert lo in rows && hi in rows;
    }
  }

  lemma StatsSnoc(rows: seq<Row>, r: Row)
    ensures StatsOf(rows + [r]) == Merge(StatsOf(rows), RowStats(r))
  {
    assert (rows + [r])[..|rows|] == rows;
  }

  lemma MergeReorders(a: Stats, b: Stats, c: Stats)
    ensures Merge(Merge(a, b), c) == Merge(Merge(a, c), b) == Merge(a, Merge(b, c))
  {
  }

  /** Aggregating a span is merging the aggregates of its two halves, whatever the row order. */
  lemma {:induction false} SpanSplit(t: seq<Row>, lo: int, mid: int, hi: int, key: Key)
    requires lo <= mid <= hi
    ensures StatsOf(Group(t, lo, hi, key)) == Merge(StatsOf(Group(t, lo, mid, key)), StatsOf(Group(t, mid, hi, key)))
  {
    if t != [] {
      var front, last := t[..|t| - 1], t[|t| - 1];
      assert t == front + [last];
      SpanSplit(front, lo, mid, hi, key);
      MergeReorders(StatsOf(Group(front, lo, mid, key)), StatsOf(Group(front, mid, hi, key)), RowStats(last));
      GroupSnoc(front, last, lo, hi, key);
      GroupSnoc(front, last, lo, mid, key);
      GroupSnoc(front, last, mid, hi, key);
    }
  }

  lemma GroupSnoc(t: seq<Row>, r: Row, lo: int, hi: int, key: Key)
    ensures Group(t + [r], lo, hi, key) == Group(t, lo, hi, key) + (if r.key == key && lo <= r.bucket < hi then [r] else [])
    ensures StatsOf(Group(t + [r], lo, hi, key)) ==
            if r.key == key && lo <= r.bucket < hi then Merge(StatsOf(Group(t, lo, hi, key)), RowStats(r))
            else StatsOf(Group(t, lo, hi, key))
  {
    FilterSnoc(t, r, InSpan(lo, hi, key));
    StatsSnoc(Group(t, lo, hi, key), r);
  }

  /** `t` and `base` aggregate to the same statistics over [lo, hi). */
  ghost predicate Same(t: seq<Row>, base: seq<Row>, lo: int, hi: int, key: Key) {
    StatsOf(Group(t, lo, hi, key)) == StatsOf(Group(base, lo, hi, key))
  }

  /** Agreement on the bucket of width w starting at b. */
  ghost predicate SameBucket(t: seq<Row>, base: seq<Row>, b: int, w: int, key: Key) {
    Same(t, base, b, b + w, key)
  }

  /** `b` starts a bucket of width w; `off` is where one bucket starts. */
  predicate Aligned(b: int, w: int, off: int)
    requires w > 0
  {
    (b - off) % w == 0
  }

  lemma AlignedStep(lo: int, hi: int, w: int, off: int)
    requires w > 0 && Aligned(lo, w, off)
    ensures Aligned(lo + w, w, off)
    ensures lo < hi && Aligned(hi, w, off) ==> lo + w <= hi
  {
    var q := (lo - off) / w;
    assert lo == off + w * q;
    assert lo + w - off == w * (q + 1);
    ModZero(w, q + 1);
    if lo < hi && Aligned(hi, w, off) {
      var q' := (hi - off) / w;
      assert hi == off + w * q';
      if hi < lo + w {
        assert w * q < w * q' < w * (q + 1);
        NoMultipleBetween(w, q, q');
      }
    }
  }

  lemma ModZero(w: int, q: int)
    requires w > 0
    ensures (w * q) % w == 0
  {
    assert (w * q) % w == 0 by {
      var r := (w * q) % w;
      var d := (w * q) / w;
      assert w * q == w * d + r && 0 <= r < w;
      assert r == w * (q - d);
      NoMultipleBetween(w, 0, q - d);
    }
  }

  lemma NoMultipleBetween(w: int, q: int, q': int)
    requires w > 0 && w * q <= w * q' < w * q + w
    ensures q' == q
  {
    var d := q' - q;
    assert w * q' == w * q + w * d;
    MulSign(w, d);
  }

  lemma MulSign(w: int, d: int)
    requires w > 0 && 0 <= w * d < w
    ensures d == 0
  {
  }

  /** The tier theorem: agreement on every bucket is agreement on the whole span. */
  lemma {:induction false} TierAgrees(t: seq<Row>, base: seq<Row>, lo: int, hi: int, w: int, off: int, key: Key)
    requires w > 0 && lo <= hi && Aligned(lo, w, off) && Aligned(hi, w, off)
    requires forall b :: Aligned(b, w, off) && lo <= b && b + w <= hi ==> SameBucket(t, base, b, w, key)
    ensures Same(t, base, lo, hi, key)
    decreases hi - lo
  {
    if lo == hi {
      EmptySpan(t, lo, key);
      EmptySpan(base, lo, key);
    } else {
      AlignedStep(lo, hi, w, off);
      assert SameBucket(t, base, lo, w, key);
      TierAgrees(t, base, lo + w, hi, w, off, key);
      HalvesAgree(t, base, lo, lo + w, hi, key);
    }
  }

  lemma HalvesAgree(t: seq<Row>, base: seq<Row>, lo: int, mid: int, hi: int, key: Key)
    requires lo <= mid <= hi
    requires Same(t, base, lo, mid, key) && Same(t, base, mid, hi, key)
    ensures Same(t, base, lo, hi, key)
  {
    SpanSplit(t, lo, mid, hi, key);
    SpanSplit(base, lo, mid, hi, key);
  }

  lemma EmptySpan(t: seq<Row>, lo: int, key: Key)
    ensures Group(t, lo, lo, key) == []
  {
    FilterNone(t, InSpan(lo, lo, key));
  }

  // ---- INSERT OR REPLACE ... SELECT ... GROUP BY ----

  /** The groups with rows in [lo, hi), each once. */
  function Keys(src: seq<Row>, lo: int, hi: int): (ks: seq<Key>)
    ensures NoDup(ks)
    ensures forall k :: k in ks <==> exists r :: r in src && r.key == k && lo <= r.bucket < hi
  {
    if src == [] then [] else
    var front, last := src[..|src| - 1], src[|src| - 1];
    assert src == front + [last];
    var ks := Keys(front, lo, hi);
    if lo <= last.bucket < hi && last.key !in ks then ks + [last.key] else ks
  }

  function NewRows(src: seq<Row>, lo: int, hi: int, ks: seq<Key>): (rows: seq<Row>)
    requires Counted(src) && forall k :: k in ks ==> k in Keys(src, lo, hi)
    ensures |rows| == |ks|
    ensures forall i :: 0 <= i < |ks| ==>
      && StatsOf(Group(src, lo, hi, ks[i])).Stats? && StatsOf(Group(src, lo, hi, ks[i])).count > 0
      && rows[i] == ToRow(lo, ks[i], StatsOf(Group(src, lo, hi, ks[i])))
  {
    if ks == [] then [] else
    var k := ks[|ks| - 1];
    assert k in ks;
    KeyHasGroup(src, lo, hi, k);
    NewRows(src, lo, hi, ks[..|ks| - 1]) + [ToRow(lo, k, StatsOf(Group(src, lo, hi, k)))]
  }

  lemma KeyHasGroup(src: seq<Row>, lo: int, hi: int, k: Key)
    requires Counted(src)
    ensures k in Keys(src, lo, hi) <==> Group(src, lo, hi, k) != []
    ensures Group(src, lo, hi, k) != [] ==>
      StatsOf(Group(src, lo, hi, k)).Stats? && StatsOf(Group(src, lo, hi, k)).count > 0
  {
    FilterIn(src, InSpan(lo, hi, k));
    if k in Keys(src, lo, hi) {
      var r :| r in src && r.key == k && lo <= r.bucket < hi;
      assert r in Group(src, lo, hi, k);
    }
    if Group(src, lo, hi, k) != [] {
      assert Group(src, lo, hi, k)[0] in Group(src, lo, hi, k);
    }
    GroupIsCounted(Group(src, lo, hi, k));
  }

  /** Rows that INSERT OR REPLACE leaves in place. */
  function NotReplaced(lo: int, ks: seq<Key>): Row -> bool {
    (r: Row) => !(r.bucket == lo && r.key in ks)
  }

  /** The destination after rolling [lo, hi) of `src` into bucket lo. */
  function Rollup(src: seq<Row>, dst: seq<Row>, lo: int, hi: int): seq<Row>
    requires Counted(src)
  {
    var ks := Keys(src, lo, hi);
    Filter(dst, NotReplaced(lo, ks)) + NewRows(src, lo, hi, ks)
  }

  /** Running the same rollup again on an unchanged source changes nothing. */
  lemma RollupIdempotent(src: seq<Row>, dst: seq<Row>, lo: int, hi: int)
    requires Counted(src)
    ensures Rollup(src, Rollup(src, dst, lo, hi), lo, hi) == Rollup(src, dst, lo, hi)
  {
    var ks := Keys(src, lo, hi);
    ReplaceTwice(dst, NewRows(src, lo, hi, ks), NotReplaced(lo, ks));
  }

  lemma ReplaceTwice(dst: seq<Row>, rows: seq<Row>, p: Row -> bool)
    requires forall i :: 0 <= i < |rows| ==> !p(rows[i])
    ensures Filter(Filter(dst, p) + rows, p) == Filter(dst, p)
  {
    FilterAppend(Filter(dst, p), rows, p);
    FilterIn(dst, p);
    FilterAll(Filter(dst, p), p);
    FilterNone(rows, p);
  }

  /**
   * The effect of a rollup on every group: bucket lo of the destination now aggregates
   * [lo, hi) of the source; spans that do not contain lo are untouched.
   */
  lemma RollupGroups(src: seq<Row>, dst: seq<Row>, lo: int, hi: int, key: Key, a: int, b: int)
    requires Counted(src) && lo < hi
    requires forall r :: r in dst ==> r.bucket < lo
    ensures !(a <= lo < b) ==> Group(Rollup(src, dst, lo, hi), a, b, key) == Group(dst, a, b, key)
    ensures a == lo && lo < b ==> StatsOf(Group(Rollup(src, dst, lo, hi), a, b, key)) == StatsOf(Group(src, lo, hi, key))
  {
    var ks := Keys(src, lo, hi);
    var rows := NewRows(src, lo, hi, ks);
    FilterAll(dst, NotReplaced(lo, ks));
    var inGroup := InSpan(a, b, key);
    FilterAppend(dst, rows, inGroup);
    KeyHasGroup(src, lo, hi, key);
    if !(a <= lo < b) {
      FilterNone(rows, inGroup);
    } else if a == lo {
      FilterNone(dst, inGroup);
      assert [] + Group(rows, a, b, key) == Group(rows, a, b, key);
      NewRowsGroup(src, lo, hi, ks, key, b);
    }
  }

  lemma {:induction false} NewRowsGroup(src: seq<Row>, lo: int, hi: int, ks: seq<Key>, key: Key, b: int)
    requires Counted(src) && NoDup(ks) && lo < b && forall k :: k in ks ==> k in Keys(src, lo, hi)
    ensures StatsOf(Group(NewRows(src, lo, hi, ks), lo, b, key)) ==
            if key in ks then StatsOf(Group(src, lo, hi, key)) else Empty
  {
    if ks != [] {
      var front, k := ks[..|ks| - 1], ks[|ks| - 1];
      assert ks == front + [k];
      NewRowsGroup(src, lo, hi, front, key, b);
      var rows := NewRows(src, lo, hi, ks);
      KeyHasGroup(src, lo, hi, k);
      var row := ToRow(lo, k, StatsOf(Group(src, lo, hi, k)));
      assert rows == NewRows(src, lo, hi, front) + [row];
      GroupSnoc(NewRows(src, lo, hi, front), row, lo, b, key);
      RowRoundTrip(lo, k, StatsOf(Group(src, lo, hi, k)));
    }
  }

  /** Rows stay counted and keep to their buckets. */
  lemma RollupRows(src: seq<Row>, dst: seq<Row>, lo: int, hi: int)
    requires Counted(src) && Counted(dst)
    ensures Counted(Rollup(src, dst, lo, hi))
    ensures forall r :: r in Rollup(src, dst, lo, hi) ==> r.bucket == lo || r in dst
  {
    var rows := NewRows(src, lo, hi, Keys(src, lo, hi));
    FilterIn(dst, NotReplaced(lo, Keys(src, lo, hi)));
    forall r | r in rows ensures r.count > 0 && r.bucket == lo {
      var i :| 0 <= i < |rows| && rows[i] == r;
    }
  }

  function NotBefore(cutoff: int): Row -> bool {
    (r: Row) => r.bucket >= cutoff
  }

  /** Retention: DELETE ... WHERE bucket < cutoff. */
  function Expire(t: seq<Row>, cutoff: int): seq<Row> {
    Filter(t, NotBefore(cutoff))
  }

  /** Expiry keeps every span at or after the cutoff. */
  lemma ExpireKeepsLater(t: seq<Row>, cutoff: int, lo: int, hi: int, key: Key)
    requires cutoff <= lo
    ensures Group(Expire(t, cutoff), lo, hi, key) == Group(t, lo, hi, key)
  {
    FilterFilter(t, NotBefore(cutoff), InSpan(lo, hi, key));
    FilterAgree(t, Both(NotBefore(cutoff), InSpan(lo, hi, key)), InSpan(lo, hi, key));
  }

  // ---- A rollup over rows that are there already ----

  /** Whatever the destination holds, a rollup leaves every group without source rows alone, and every span without its bucket. */
  lemma RollupLeaves(src: seq<Row>, dst: seq<Row>, lo: int, hi: int, key: Key, a: int, b: int)
    requires Counted(src) && (Group(src, lo, hi, key) == [] || !(a <= lo < b))
    ensures Group(Rollup(src, dst, lo, hi), a, b, key) == Group(dst, a, b, key)
  {
    var ks := Keys(src, lo, hi);
    var rows := NewRows(src, lo, hi, ks);
    var p, inGroup := NotReplaced(lo, ks), InSpan(a, b, key);
    KeyHasGroup(src, lo, hi, key);
    FilterAppend(Filter(dst, p), rows, inGroup);
    FilterFilter(dst, p, inGroup);
    forall r | r in dst ensures Both(p, inGroup)(r) == inGroup(r) {
    }
    FilterAgree(dst, Both(p, inGroup), inGroup);
    NewRowsAt(src, lo, hi, ks);
    forall r | r in rows ensures !inGroup(r) {
    }
    FilterNone(rows, inGroup);
    assert Group(dst, a, b, key) + [] == Group(dst, a, b, key);
  }

  lemma NewRowsAt(src: seq<Row>, lo: int, hi: int, ks: seq<Key>)
    requires Counted(src) && forall k :: k in ks ==> k in Keys(src, lo, hi)
    ensures forall r :: r in NewRows(src, lo, hi, ks) ==> r.bucket == lo && r.key in ks
  {
    var rows := NewRows(src, lo, hi, ks);
    hide Keys, StatsOf, Group;
    forall r | r in rows ensures r.bucket == lo && r.key in ks {
      var i :| 0 <= i < |rows| && rows[i] == r;
      assert ks[i] in ks;
    }
  }

  /** A group with source rows has one row in the bucket afterwards, the aggregate, whatever was there before. */
  lemma RollupReplaces(src: seq<Row>, dst: seq<Row>, lo: int, hi: int, key: Key)
    requires Counted(src) && Group(src, lo, hi, key) != []
    ensures StatsOf(Group(src, lo, hi, key)).Stats? && StatsOf(Group(src, lo, hi, key)).count > 0
    ensures Group(Rollup(src, dst, lo, hi), lo, lo + 1, key) == [ToRow(lo, key, StatsOf(Group(src, lo, hi, key)))]
  {
    var ks := Keys(src, lo, hi);
    var rows := NewRows(src, lo, hi, ks);
    var p, inGroup := NotReplaced(lo, ks), InSpan(lo, lo + 1, key);
    KeyHasGroup(src, lo, hi, key);
    FilterAppend(Filter(dst, p), rows, inGroup);
    FilterIn(dst, p);
    FilterNone(Filter(dst, p), inGroup);
    var i: nat :| i < |ks| && ks[i] == key;
    OnlyRowOf(src, lo, hi, ks, i);
  }

  /** Among the new rows exactly one is of a given key. */
  lemma OnlyRowOf(src: seq<Row>, lo: int, hi: int, ks: seq<Key>, i: nat)
    requires Counted(src) && NoDup(ks) && i < |ks| && forall k :: k in ks ==> k in Keys(src, lo, hi)
    ensures Filter(NewRows(src, lo, hi, ks), InSpan(lo, lo + 1, ks[i])) == [NewRows(src, lo, hi, ks)[i]]
  {
    var rows := NewRows(src, lo, hi, ks);
    var inGroup := InSpan(lo, lo + 1, ks[i]);
    hide Keys, StatsOf, Group, NewRows, Filter;
    assert forall j :: 0 <= j < |rows| ==> rows[j].bucket == lo && rows[j].key == ks[j];
    FilterOne(rows, inGroup, i);
  }
}
