/** Rollup schedule and retention: every run on time leaves each tier equal to direct aggregation. */
module RollupSchedule {
  import opened Seqs
  import opened RollupTables
  import opened CivilCalendar

  const HOUR := 3600
  const DAY := 86400
  const WEEK := 7 * 86400
  /** 1970-01-05T00:00Z, a Monday. */
  const MONDAY := 4 * 86400

  // ---- Calendar arithmetic in UTC seconds ----

  /** Sunday is 0, as in Go; the epoch was a Thursday. */
  function Weekday(now: int): int { (now / DAY + 4) % 7 }

  function Midnight(now: int): int { now - now % DAY }

  /** End of the bucket rollupWeekly processes at `now`. */
  function WeekEnd(now: int): int {
    var daysFromMonday := if Weekday(now) == 0 then 7 else Weekday(now);
    Midnight(now) + (1 - daysFromMonday) * DAY
  }

  /** First run of the weekly loop when the service starts at `now`. */
  function NextWeeklyRun(now: int): int {
    var d := (8 - Weekday(now)) % 7;
    var hour := now % DAY / HOUR;
    var days := if d == 0 && hour >= 1 then 7 else d;
    Midnight(now) + days * DAY + HOUR
  }

  /** Monday 00:00 of the calendar week of `now`. */
  ghost predicate IsMonday(b: int) { Aligned(b, WEEK, MONDAY) }

  /** At every instant the weekly bucket is the latest complete Monday-to-Sunday week. */
  lemma WeeklyBucketIsLatestCompleteWeek(now: int)
    ensures IsMonday(WeekEnd(now)) && WeekEnd(now) <= now < WeekEnd(now) + WEEK
  {
    var days := now / DAY;
    assert now == days * DAY + now % DAY;
    var q := (days + 4) / 7;
    assert days + 4 == 7 * q + Weekday(now);
    var k := if Weekday(now) == 0 then q - 2 else q - 1;
    assert WeekEnd(now) == MONDAY + WEEK * k;
    ModZero(WEEK, k);
  }

  lemma NextWeeklyRunBounds(now: int)
    ensures IsMonday(NextWeeklyRun(now) - HOUR) && now < NextWeeklyRun(now) <= now + WEEK
  {
    var days, second := now / DAY, now % DAY;
    assert now == days * DAY + second && 0 <= second < DAY;
    var q, w := (days + 4) / 7, Weekday(now);
    assert days + 4 == 7 * q + w && 0 <= w < 7;
    var d := if w == 0 then 1 else if w == 1 then (if second < HOUR then 0 else 7) else 8 - w;
    assert NextWeeklyRun(now) == days * DAY + d * DAY + HOUR by {
      assert second / HOUR >= 1 <==> second >= HOUR;
      assert w == 0 || w == 1 || (8 - w) % 7 == 8 - w;
    }
    hide NextWeeklyRun, Weekday;
    var k := if d == 0 || w == 0 then q - 1 else q;
    assert days + d == 4 + 7 * k;
    ModZero(WEEK, k);
    assert NextWeeklyRun(now) - HOUR - MONDAY == WEEK * k;
  }

  /** The weekly loop first runs at the first Monday 01:00 UTC strictly after `now`. */
  lemma NextWeeklyRunIsNextMonday(now: int, other: int)
    ensures IsMonday(NextWeeklyRun(now) - HOUR) && now < NextWeeklyRun(now)
    ensures IsMonday(other - HOUR) && now < other ==> NextWeeklyRun(now) <= other
  {
    NextWeeklyRunBounds(now);
    hide NextWeeklyRun, Aligned;
    if IsMonday(other - HOUR) && now < other < NextWeeklyRun(now) {
      AlignedStep(other - HOUR, NextWeeklyRun(now) - HOUR, WEEK, MONDAY);
    }
  }

  // ---- The tables and the code's operations on them ----

  datatype Retention = Retention(rawHours: int, hourlyDays: int, dailyDays: int, weeklyMonths: int)

  const DEFAULTS := Retention(24, 7, 30, 12)

  datatype Tables = Tables(raw: seq<Row>, hourly: seq<Row>, daily: seq<Row>, weekly: seq<Row>, monthly: seq<Row>)

  predicate CountedTables(t: Tables) {
    (forall r :: r in t.raw ==> r.count > 0) && (forall r :: r in t.hourly ==> r.count > 0) &&
    (forall r :: r in t.daily ==> r.count > 0)
  }

  function AfterCleanup(t: Tables, cfg: Retention, now: int): Tables {
    t.(raw := Expire(t.raw, now - cfg.rawHours * 3600),
       hourly := Expire(t.hourly, now - cfg.hourlyDays * 86400),
       daily := Expire(t.daily, now - cfg.dailyDays * 86400),
       weekly := Expire(t.weekly, now - cfg.weeklyMonths * 30 * 86400))
  }

  /** Retention keeps a row exactly while it is no older than its tier's limit; monthly rows stay for good. */
  lemma CleanupFates(t: Tables, cfg: Retention, now: int, r: Row)
    ensures var t' := AfterCleanup(t, cfg, now);
            && (r in t'.raw <==> r in t.raw && now - r.bucket <= cfg.rawHours * HOUR)
            && (r in t'.hourly <==> r in t.hourly && now - r.bucket <= cfg.hourlyDays * DAY)
            && (r in t'.daily <==> r in t.daily && now - r.bucket <= cfg.dailyDays * DAY)
            && (r in t'.weekly <==> r in t.weekly && now - r.bucket <= cfg.weeklyMonths * 30 * DAY)
            && t'.monthly == t.monthly
  {
    FilterIn(t.raw, NotBefore(now - cfg.rawHours * 3600));
    FilterIn(t.hourly, NotBefore(now - cfg.hourlyDays * 86400));
    FilterIn(t.daily, NotBefore(now - cfg.dailyDays * 86400));
    FilterIn(t.weekly, NotBefore(now - cfg.weeklyMonths * 30 * 86400));
    hide Filter;
  }

  datatype Event =
    | Sample(timestamp: int, key: Key, value: real)
    | Hourly | Daily | Weekly | Monthly | Cleanup

  /** The tables after one event, with the bucket bounds computed from the current time. */
  ghost function TablesAfter(cfg: Retention, tb: Tables, t: int, e: Event): Tables
    requires CountedTables(tb)
  {
    match e
    case Sample(ts, key, v) => tb.(raw := tb.raw + [RawRow(ts, key, v)])
    case Hourly =>
      var hi := t - t % HOUR;
      tb.(hourly := Rollup(tb.raw, tb.hourly, hi - HOUR, hi))
    case Daily =>
      var hi := Midnight(t);
      tb.(daily := Rollup(tb.hourly, tb.daily, hi - DAY, hi))
    case Weekly =>
      var hi := WeekEnd(t);
      tb.(weekly := Rollup(tb.daily, tb.weekly, hi - WEEK, hi))
    case Monthly =>
      tb.(monthly := Rollup(tb.daily, tb.monthly, MonthStart(MonthOf(t) - 1), MonthStart(MonthOf(t))))
    case Cleanup => AfterCleanup(tb, cfg, t)
  }

  class RollupService {
    const retention: Retention
    var raw: seq<Row>
    var hourly: seq<Row>
    var daily: seq<Row>
    var weekly: seq<Row>
    var monthly: seq<Row>

    ghost function Contents(): Tables
      reads this
    {
      Tables(raw, hourly, daily, weekly, monthly)
    }

    constructor (retention: Retention)
      ensures this.retention == retention && Contents() == Tables([], [], [], [], [])
    {
      this.retention := retention;
      raw, hourly, daily, weekly, monthly := [], [], [], [], [];
    }

    method RollupHourly(now: int)
      requires CountedTables(Contents())
      modifies this`hourly
      ensures Contents() == TablesAfter(retention, old(Contents()), now, Hourly)
    {
      hide Rollup;
      var hourEnd := now - now % HOUR;
      var hourStart := hourEnd - 3600;
      hourly := RollupSpan(raw, hourly, hourStart, hourEnd);
    }

    method RollupDaily(now: int)
      requires CountedTables(Contents())
      modifies this`daily
      ensures Contents() == TablesAfter(retention, old(Contents()), now, Daily)
    {
      var dayEnd := Midnight(now);
      var dayStart := dayEnd - 86400;
      daily := RollupSpan(hourly, daily, dayStart, dayEnd);
    }

    method RollupWeekly(now: int)
      requires CountedTables(Contents())
      modifies this`weekly
      ensures Contents() == TablesAfter(retention, old(Contents()), now, Weekly)
    {
      var weekEnd := WeekEnd(now);
      var weekStart := weekEnd - 7 * 86400;
      weekly := RollupSpan(daily, weekly, weekStart, weekEnd);
    }

    method RollupMonthly(now: int)
      requires CountedTables(Contents())
      modifies this`monthly
      ensures Contents() == TablesAfter(retention, old(Contents()), now, Monthly)
    {
      hide Rollup;
      var monthEnd := MonthStart(MonthOf(now));
      var monthStart := MonthStart(MonthOf(now) - 1);
      monthly := RollupSpan(daily, monthly, monthStart, monthEnd);
    }

    method Cleanup(now: int)
      modifies this`raw, this`hourly, this`daily, this`weekly
      ensures Contents() == AfterCleanup(old(Contents()), retention, now)
    {
      var rawCutoff := now - retention.rawHours * 3600;
      raw := Expire(raw, rawCutoff);
      var hourlyCutoff := now - retention.hourlyDays * 86400;
      hourly := Expire(hourly, hourlyCutoff);
      var dailyCutoff := now - retention.dailyDays * 86400;
      daily := Expire(daily, dailyCutoff);
      var weeklyCutoff := now - retention.weeklyMonths * 30 * 86400;
      weekly := Expire(weekly, weeklyCutoff);
    }
  }

  /** INSERT OR REPLACE ... SELECT ... GROUP BY as one scan with running aggregates. */
  method RollupSpan(src: seq<Row>, dst: seq<Row>, lo: int, hi: int) returns (out: seq<Row>)
    requires Counted(src)
    ensures out == Rollup(src, dst, lo, hi)
  {
    var keys: seq<Key>, groups: map<Key, Stats> := [], map[];
    for i := 0 to |src|
      invariant Grouped(src[..i], lo, hi, keys, groups)
    {
      var r := src[i];
      assert src[..i + 1] == src[..i] + [r];
      PrefixCounted(src, i);
      GroupStep(src[..i], r, lo, hi, keys, groups);
      if lo <= r.bucket < hi {
        if r.key in groups {
          groups := groups[r.key := Merge(groups[r.key], RowStats(r))];
        } else {
          keys := keys + [r.key];
          groups := groups[r.key := RowStats(r)];
        }
      }
    }
    assert src[..|src|] == src;
    var rows := RowsOf(src, lo, hi, keys, groups);
    out := Filter(dst, NotReplaced(lo, keys)) + rows;
  }

  /** The group totals turned into rows. */
  method RowsOf(src: seq<Row>, lo: int, hi: int, keys: seq<Key>, groups: map<Key, Stats>) returns (rows: seq<Row>)
    requires Counted(src) && Grouped(src, lo, hi, keys, groups)
    ensures rows == NewRows(src, lo, hi, keys)
  {
    hide NewRows, StatsOf, Group, Keys;
    rows := [];
    for i := 0 to |keys|
      invariant |rows| == i && forall j :: 0 <= j < i ==> rows[j] == NewRows(src, lo, hi, keys)[j]
    {
      KeyHasGroup(src, lo, hi, keys[i]);
      rows := rows + [ToRow(lo, keys[i], groups[keys[i]])];
    }
  }

  /** The running aggregates after scanning `src`. */
  ghost predicate Grouped(src: seq<Row>, lo: int, hi: int, keys: seq<Key>, groups: map<Key, Stats>) {
    && keys == Keys(src, lo, hi)
    && (forall k :: k in keys <==> k in groups)
    && (forall k :: k in groups ==> groups[k] == StatsOf(Group(src, lo, hi, k)))
  }

  lemma GroupStep(src: seq<Row>, r: Row, lo: int, hi: int, keys: seq<Key>, groups: map<Key, Stats>)
    requires Counted(src) && Grouped(src, lo, hi, keys, groups)
    ensures !(lo <= r.bucket < hi) ==> Grouped(src + [r], lo, hi, keys, groups)
    ensures lo <= r.bucket < hi && r.key in groups ==>
      Grouped(src + [r], lo, hi, keys, groups[r.key := Merge(groups[r.key], RowStats(r))])
    ensures lo <= r.bucket < hi && r.key !in groups ==>
      Grouped(src + [r], lo, hi, keys + [r.key], groups[r.key := RowStats(r)])
  {
    hide StatsOf, Group, Keys;
    KeyHasGroup(src, lo, hi, r.key);
    KeysSnoc(src, r, lo, hi);
    GroupSnocStats(src, r, lo, hi);
  }

  lemma KeysSnoc(src: seq<Row>, r: Row, lo: int, hi: int)
    ensures Keys(src + [r], lo, hi) ==
            if lo <= r.bucket < hi && r.key !in Keys(src, lo, hi) then Keys(src, lo, hi) + [r.key] else Keys(src, lo, hi)
  {
    assert (src + [r])[..|src|] == src;
  }

  lemma GroupSnocStats(src: seq<Row>, r: Row, lo: int, hi: int)
    ensures forall k ::
              StatsOf(Group(src + [r], lo, hi, k)) ==
              if r.key == k && lo <= r.bucket < hi then Merge(StatsOf(Group(src, lo, hi, k)), RowStats(r))
              else StatsOf(Group(src, lo, hi, k))
    ensures StatsOf([]) == Empty
  {
    forall k ensures StatsOf(Group(src + [r], lo, hi, k)) ==
            if r.key == k && lo <= r.bucket < hi then Merge(StatsOf(Group(src, lo, hi, k)), RowStats(r))
            else StatsOf(Group(src, lo, hi, k))
    {
      GroupSnoc(src, r, lo, hi, k);
    }
  }

  lemma PrefixCounted(src: seq<Row>, i: nat)
    requires Counted(src) && i <= |src|
    ensures Counted(src[..i])
  {
    forall r | r in src[..i] ensures r in src { }
  }

  // ---- Tiers and what each operation does to them ----

  ghost predicate Unique(t: seq<Row>) {
    NoDup(t) && forall x, y :: x in t && y in t && x.bucket == y.bucket && x.key == y.key ==> x == y
  }

  /**
   * A tier of bucket width w holds, for every bucket in [cut, done), exactly the aggregate of `base`
   * over that bucket, and nothing else.
   */
  ghost predicate Tier(t: seq<Row>, base: seq<Row>, w: int, off: int, cut: int, done: int) {
    && w > 0 && Unique(t) && Counted(t) && Aligned(done, w, off)
    && (forall r :: r in t ==> Aligned(r.bucket, w, off) && cut <= r.bucket < done)
    && (forall b, key :: Aligned(b, w, off) && cut <= b && b + w <= done ==> SameBucket(t, base, b, w, key))
  }

  lemma TierSpan(t: seq<Row>, base: seq<Row>, w: int, off: int, cut: int, done: int, lo: int, hi: int, key: Key)
    requires Tier(t, base, w, off, cut, done) && cut <= lo <= hi <= done
    requires Aligned(lo, w, off) && Aligned(hi, w, off)
    ensures Same(t, base, lo, hi, key)
  {
    TierAgrees(t, base, lo, hi, w, off, key);
  }

  lemma RollupUnique(src: seq<Row>, dst: seq<Row>, lo: int, hi: int)
    requires Counted(src) && Unique(dst) && forall r :: r in dst ==> r.bucket < lo
    ensures Unique(Rollup(src, dst, lo, hi))
  {
    var ks := Keys(src, lo, hi);
    FilterAll(dst, NotReplaced(lo, ks));
    NewRowsUnique(src, lo, hi, ks);
    UniqueAppend(dst, NewRows(src, lo, hi, ks), lo);
  }

  lemma NewRowsUnique(src: seq<Row>, lo: int, hi: int, ks: seq<Key>)
    requires Counted(src) && NoDup(ks) && forall k :: k in ks ==> k in Keys(src, lo, hi)
    ensures var rows := NewRows(src, lo, hi, ks); Unique(rows) && forall r :: r in rows ==> r.bucket == lo
  {
    hide Keys, StatsOf, Group;
    var rows := NewRows(src, lo, hi, ks);
    hide NewRows;
    assert forall i :: 0 <= i < |rows| ==> rows[i].bucket == lo && rows[i].key == ks[i];
    forall i, j | 0 <= i < j < |rows| ensures rows[i].key != rows[j].key {
      assert ks[i] != ks[j];
    }
  }

  lemma UniqueAppend(dst: seq<Row>, rows: seq<Row>, lo: int)
    requires Unique(dst) && Unique(rows) && (forall r :: r in dst ==> r.bucket < lo) && forall r :: r in rows ==> r.bucket == lo
    ensures Unique(dst + rows)
  {
    var t := dst + rows;
    forall i, j | 0 <= i < j < |t| ensures t[i] != t[j] {
      if i < |dst| <= j {
        assert t[i] in dst && t[j] in rows;
      }
    }
  }

  /** Rolling up the next bucket extends the tier by that bucket. */
  lemma TierRollup(src: seq<Row>, dst: seq<Row>, base: seq<Row>, w: int, off: int, cut: int, done: int)
    requires Counted(src) && Tier(dst, base, w, off, cut, done) && cut <= done
    requires forall key :: SameBucket(src, base, done, w, key)
    ensures Tier(Rollup(src, dst, done, done + w), base, w, off, cut, done + w)
  {
    var t := Rollup(src, dst, done, done + w);
    hide Rollup, Aligned, Unique, Counted, StatsOf, Group;
    AlignedStep(done, done, w, off);
    RollupRows(src, dst, done, done + w);
    RollupUnique(src, dst, done, done + w);
    forall b, key | Aligned(b, w, off) && cut <= b && b + w <= done + w ensures SameBucket(t, base, b, w, key) {
      AlignedStep(b, done, w, off);
      RolledBucket(src, dst, base, w, done, b, key);
    }
    hide SameBucket, Same;
  }

  lemma RolledBucket(src: seq<Row>, dst: seq<Row>, base: seq<Row>, w: int, done: int, b: int, key: Key)
    requires Counted(src) && w > 0 && forall r :: r in dst ==> r.bucket < done
    requires if b == done then SameBucket(src, base, done, w, key) else b + w <= done && SameBucket(dst, base, b, w, key)
    ensures SameBucket(Rollup(src, dst, done, done + w), base, b, w, key)
  {
    hide Rollup, StatsOf, Group, Counted;
    RollupGroups(src, dst, done, done + w, key, b, b + w);
  }

  lemma TierExpire(t: seq<Row>, base: seq<Row>, w: int, off: int, cut: int, done: int, cutoff: int)
    requires Tier(t, base, w, off, cut, done)
    ensures Tier(Expire(t, cutoff), base, w, off, Later(cut, cutoff), done)
  {
    var cut' := Later(cut, cutoff);
    FilterNoDup(t, NotBefore(cutoff));
    FilterIn(t, NotBefore(cutoff));
    hide Expire;
    forall b, key | Aligned(b, w, off) && cut' <= b && b + w <= done ensures SameBucket(Expire(t, cutoff), base, b, w, key) {
      ExpireKeepsLater(t, cutoff, b, b + w, key);
      assert SameBucket(t, base, b, w, key);
    }
  }

  /** Samples that arrive after the tier's frontier do not disturb it. */
  lemma TierNewSample(t: seq<Row>, base: seq<Row>, w: int, off: int, cut: int, done: int, r: Row)
    requires Tier(t, base, w, off, cut, done) && done <= r.bucket
    ensures Tier(t, base + [r], w, off, cut, done)
  {
    forall b, key | Aligned(b, w, off) && cut <= b && b + w <= done ensures SameBucket(t, base + [r], b, w, key) {
      GroupSnoc(base, r, b, b + w, key);
      assert SameBucket(t, base, b, w, key);
    }
  }

  /** In a tier, the row of a bucket and group is exactly the direct aggregate of its samples. */
  lemma TierRow(t: seq<Row>, base: seq<Row>, w: int, off: int, cut: int, done: int, r: Row)
    requires Tier(t, base, w, off, cut, done) && r in t
    ensures var s := StatsOf(Group(base, r.bucket, r.bucket + w, r.key));
            s.Stats? && s.count > 0 && r == ToRow(r.bucket, r.key, s)
  {
    AlignedStep(r.bucket, done, w, off);
    assert SameBucket(t, base, r.bucket, w, r.key);
    var p := InSpan(r.bucket, r.bucket + w, r.key);
    forall x | x in t && p(x) ensures x == r {
      if r.bucket < x.bucket {
        AlignedStep(r.bucket, x.bucket, w, off);
      }
    }
    FilterSingle(t, p, r);
    assert StatsOf([r]) == Merge(StatsOf([]), RowStats(r));
    RowFromStats(r);
  }

  /** Conversely every processed, unexpired bucket with samples has its row. */
  lemma TierHasRow(t: seq<Row>, base: seq<Row>, w: int, off: int, cut: int, done: int, b: int, key: Key)
    requires Tier(t, base, w, off, cut, done) && Counted(base)
    requires Aligned(b, w, off) && cut <= b && b + w <= done && Group(base, b, b + w, key) != []
    ensures exists r :: r in t && r.bucket == b && r.key == key
  {
    assert SameBucket(t, base, b, w, key);
    FilterIn(base, InSpan(b, b + w, key));
    FilterIn(t, InSpan(b, b + w, key));
    hide Group;
    GroupIsCounted(Group(base, b, b + w, key));
    GroupIsCounted(Group(t, b, b + w, key));
    var r := Group(t, b, b + w, key)[0];
    assert r in Group(t, b, b + w, key);
    if b < r.bucket {
      AlignedStep(b, r.bucket, w, off);
    }
  }

  lemma {:induction false} FilterSingle(s: seq<Row>, p: Row -> bool, r: Row)
    requires NoDup(s) && r in s && p(r) && forall x :: x in s && p(x) ==> x == r
    ensures Filter(s, p) == [r]
  {
    var front, last := s[..|s| - 1], s[|s| - 1];
    assert s == front + [last];
    if last == r {
      forall x | x in front ensures !p(x) {
        assert x in s;
      }
      FilterNone(front, p);
    } else {
      FilterSingle(front, p, r);
    }
  }

  // ---- Runs on the ideal schedule ----

  /** Upper end of the last processed bucket of each tier, and the highest cutoff applied so far. */
  datatype Progress = Progress(hourly: int, daily: int, weekly: int, monthly: int)

  datatype Cuts = Cuts(raw: int, hourly: int, daily: int, weekly: int)

  /** `history` is every sample so far; `months` gives, for each processed month, the first day whose row was still there. */
  datatype Sys = Sys(now: int, tables: Tables, history: seq<Row>, done: Progress, cuts: Cuts, months: map<int, int>)

  /** The first instant of a civil month. */
  predicate IsMonthStart(b: int) { b == MonthStart(MonthOf(b)) }

  /**
   * Events come in time order, each rollup at its scheduled offset after its bucket closed, and none is
   * overdue; a sample carries a timestamp whose hour has not been rolled up yet.
   */
  ghost predicate OnTime(s: Sys, t: int, e: Event) {
    && s.now <= t
    && t <= s.done.hourly + HOUR + 300
    && t <= s.done.daily + DAY + 900
    && t <= s.done.weekly + WEEK + 3600
    && t <= s.done.monthly + LengthAt(s.done.monthly) + 7200
    && match e
       case Sample(ts, _, _) => s.done.hourly <= ts <= t
       case Hourly => t == s.done.hourly + HOUR + 300
       case Daily => t == s.done.daily + DAY + 900
       case Weekly => t == s.done.weekly + WEEK + 3600
       case Monthly => t == s.done.monthly + LengthAt(s.done.monthly) + 7200
       case Cleanup => true
  }

  function Later(a: int, b: int): int { if a < b then b else a }

  /** The first day at or after `lo` that a cutoff leaves alone. */
  function FirstKept(cut: int, lo: int): int { if cut <= lo then lo else cut + (DAY - cut % DAY) % DAY }

  /** One event, with what it processed. */
  ghost function Step(cfg: Retention, s: Sys, t: int, e: Event): Sys
    requires CountedTables(s.tables)
  {
    var s' := s.(now := t, tables := TablesAfter(cfg, s.tables, t, e));
    match e
    case Sample(ts, key, v) => s'.(history := s.history + [RawRow(ts, key, v)])
    case Hourly => s'.(done := s.done.(hourly := t - t % HOUR))
    case Daily => s'.(done := s.done.(daily := Midnight(t)))
    case Weekly => s'.(done := s.done.(weekly := WeekEnd(t)))
    case Monthly =>
      var lo := MonthStart(MonthOf(t) - 1);
      s'.(done := s.done.(monthly := MonthStart(MonthOf(t))), months := s.months[lo := FirstKept(s.cuts.daily, lo)])
    case Cleanup =>
      s'.(cuts := Cuts(Later(s.cuts.raw, t - cfg.rawHours * 3600),
                       Later(s.cuts.hourly, t - cfg.hourlyDays * 86400),
                       Later(s.cuts.daily, t - cfg.dailyDays * 86400),
                       Later(s.cuts.weekly, t - cfg.weeklyMonths * 30 * 86400)))
  }

  /** Each retention covers the bucket that reads the tier plus the offset of its run. */
  predicate Covered(cfg: Retention) {
    && cfg.rawHours * 3600 >= HOUR + 300
    && cfg.hourlyDays * 86400 >= DAY + 900
    && cfg.dailyDays * 86400 >= WEEK + 3600
    && cfg.weeklyMonths >= 1
  }

  lemma DefaultsAreCovered()
    ensures Covered(DEFAULTS)
  {
  }

  /** The daily retention covers a month of that length plus the two-hour offset of its run. */
  predicate MonthCovered(cfg: Retention, length: int) { cfg.dailyDays * 86400 >= length + 7200 }

  /** Bucket b aggregates exactly the samples from `day` to the end of the month. */
  ghost predicate FromDay(monthly: seq<Row>, history: seq<Row>, b: int, day: int, length: int, key: Key) {
    StatsOf(Group(monthly, b, b + length, key)) == StatsOf(Group(history, day, b + length, key))
  }

  ghost predicate MonthsFromDay(cfg: Retention, s: Sys) {
    && (forall b :: b in s.months ==> b <= s.months[b] <= b + LengthAt(b) && (MonthCovered(cfg, LengthAt(b)) ==> s.months[b] == b))
    && (forall b, key :: b in s.months ==> FromDay(s.tables.monthly, s.history, b, s.months[b], LengthAt(b), key))
  }

  ghost predicate Inv(cfg: Retention, s: Sys) {
    var d, c, tb := s.done, s.cuts, s.tables;
    && d.weekly <= d.daily <= d.hourly <= s.now && d.monthly <= d.daily
    && IsMonthStart(d.monthly)
    && c.raw <= s.now - cfg.rawHours * 3600 && c.hourly <= s.now - cfg.hourlyDays * 86400
    && c.daily <= s.now - cfg.dailyDays * 86400 && c.weekly <= s.now - cfg.weeklyMonths * 30 * 86400
    && Counted(s.history) && Counted(tb.raw)
    && tb.raw == Expire(s.history, c.raw)
    && Tier(tb.hourly, s.history, HOUR, 0, c.hourly, d.hourly)
    && Tier(tb.daily, s.history, DAY, 0, c.daily, d.daily)
    && Tier(tb.weekly, s.history, WEEK, MONDAY, c.weekly, d.weekly)
    && (forall b :: b in s.months ==> b + LengthAt(b) <= d.monthly)
    && (forall r :: r in tb.monthly ==> r.bucket < d.monthly)
    && MonthsFromDay(cfg, s)
  }

  /** The service starts with empty tables, in the month of `now`. */
  ghost function Start(cfg: Retention, now: int): Sys {
    Sys(now, Tables([], [], [], [], []), [],
        Progress(now - now % HOUR, Midnight(now), NextWeeklyRun(now) - HOUR - WEEK, MonthStart(MonthOf(now))),
        Cuts(now - cfg.rawHours * 3600, now - cfg.hourlyDays * 86400, now - cfg.dailyDays * 86400, now - cfg.weeklyMonths * 30 * 86400),
        map[])
  }

  lemma EmptyTier(w: int, off: int, cut: int, done: int)
    requires w > 0 && Aligned(done, w, off)
    ensures Tier([], [], w, off, cut, done)
  {
  }

  lemma TierFacts(t: seq<Row>, base: seq<Row>, w: int, off: int, cut: int, done: int)
    requires Tier(t, base, w, off, cut, done)
    ensures w > 0 && Aligned(done, w, off) && Counted(t)
  {
  }

  lemma StartClocks(now: int, month: int)
    requires month <= now && Aligned(month, DAY, 0)
    ensures var w := NextWeeklyRun(now) - HOUR - WEEK;
            && Aligned(now - now % HOUR, HOUR, 0) && Aligned(Midnight(now), DAY, 0) && IsMonday(w)
            && w <= Midnight(now) <= now - now % HOUR <= now && month <= Midnight(now)
  {
    hide NextWeeklyRun, Midnight, Aligned;
    NextWeeklyRunIsNextMonday(now, now);
    WeekStartIsMidnight(NextWeeklyRun(now) - HOUR);
    NextWeeklyRunWithinWeek(now);
    HourAndDayStart(now, month);
  }

  /** How many buckets of width w lie between `off` and an aligned `b`. */
  lemma Buckets(b: int, w: int, off: int) returns (q: int)
    requires w > 0 && Aligned(b, w, off)
    ensures b == off + w * q
  {
    q := (b - off) / w;
  }

  lemma BucketStart(b: int, w: int, off: int, q: int)
    requires w > 0 && b == off + w * q
    ensures Aligned(b, w, off)
  {
    ModZero(w, q);
  }

  lemma HourAndDayStart(now: int, month: int)
    requires month <= now && Aligned(month, DAY, 0)
    ensures Aligned(now - now % HOUR, HOUR, 0) && Aligned(Midnight(now), DAY, 0)
    ensures month <= Midnight(now) <= now - now % HOUR <= now
  {
    var days := Floor(now, DAY);
    var hours := Floor(now, HOUR);
    var m := Buckets(month, DAY, 0);
    hide Aligned;
    BucketStart(Midnight(now), DAY, 0, days);
    BucketStart(now - now % HOUR, HOUR, 0, hours);
    FloorsNest(now, days, hours, m);
  }

  lemma Floor(now: int, w: int) returns (q: int)
    requires w > 0
    ensures now - now % w == w * q && w * q <= now < w * q + w
  {
    q := now / w;
  }

  lemma FloorsNest(now: int, days: int, hours: int, m: int)
    requires 86400 * days <= now < 86400 * days + 86400 && 3600 * hours <= now < 3600 * hours + 3600 && 86400 * m <= now
    ensures m <= days && 86400 * days <= 3600 * hours
  {
    LatestMultiple(now, 86400, days, m);
    LatestMultiple(now, 3600, hours, 24 * days);
  }

  lemma LatestMultiple(now: int, w: int, q: int, m: int)
    requires w > 0 && now < w * q + w && w * m <= now
    ensures m <= q
  {
    var d := m - q - 1;
    assert w * m == w * q + w + w * d;
    if d >= 0 {
      ProductIsNatural(w, d);
    }
  }

  lemma ProductIsNatural(a: int, b: int)
    requires a >= 0 && b >= 0
    ensures a * b >= 0
  {
  }

  lemma HourlyClock(hourly: int, t: int)
    requires Aligned(hourly, HOUR, 0) && hourly + HOUR <= t < hourly + HOUR + HOUR
    ensures t - t % HOUR == hourly + HOUR
  {
    var q := Buckets(hourly, HOUR, 0);
    var p := Floor(t, HOUR);
    hide Aligned;
    LatestMultiple(t, HOUR, p, q + 1);
    LatestMultiple(t, HOUR, q + 1, p);
  }

  lemma NextWeeklyRunWithinWeek(now: int)
    ensures NextWeeklyRun(now) <= Midnight(now) + WEEK + HOUR
  {
  }

  lemma StartHolds(cfg: Retention, now: int)
    ensures Inv(cfg, Start(cfg, now))
  {
    hide Tier, NextWeeklyRun, Midnight, MonthOf, MonthStart;
    var month := MonthStart(MonthOf(now));
    MonthBoundary(MonthOf(now));
    StartClocks(now, month);
    var s := Start(cfg, now);
    EmptyTier(HOUR, 0, s.cuts.hourly, s.done.hourly);
    EmptyTier(DAY, 0, s.cuts.daily, s.done.daily);
    EmptyTier(WEEK, MONDAY, s.cuts.weekly, s.done.weekly);
  }

  /** A month starts at midnight, its length is that of the calendar, and the next one starts where it ends. */
  lemma MonthBoundary(n: int)
    ensures var lo := MonthStart(n);
            && IsMonthStart(lo) && MonthOf(lo) == n && LengthAt(lo) == MonthLength(n) && Aligned(lo, DAY, 0)
            && lo + LengthAt(lo) == MonthStart(n + 1) && IsMonthStart(lo + LengthAt(lo))
            && 28 * DAY <= LengthAt(lo) <= 31 * DAY && LengthAt(lo) % DAY == 0
  {
    hide MonthOf, MonthStart, MonthLength;
    NextMonthStart(n);
    NextMonthStart(n + 1);
    StartsAtMidnight(n);
    MonthIsUnique(MonthStart(n), n);
    MonthIsUnique(MonthStart(n + 1), n + 1);
  }

  lemma MonthLengths(b: int)
    ensures 28 * DAY <= LengthAt(b) <= 31 * DAY && LengthAt(b) % DAY == 0
  {
    hide MonthLength, MonthOf;
  }

  /** At its due time the monthly rollup computes the bounds of the month it is due for. */
  lemma MonthlyBounds(lo: int, t: int)
    requires IsMonthStart(lo) && t == lo + LengthAt(lo) + 7200
    ensures MonthStart(MonthOf(t) - 1) == lo && MonthStart(MonthOf(t)) == lo + LengthAt(lo)
    ensures IsMonthStart(lo + LengthAt(lo)) && Aligned(lo, DAY, 0) && Aligned(lo + LengthAt(lo), DAY, 0)
  {
    hide MonthOf, MonthStart, MonthLength, LengthAt;
    var n := MonthOf(lo);
    MonthBoundary(n);
    MonthBoundary(n + 1);
    hide Aligned;
    MonthIsUnique(t, n + 1);
  }

  lemma WeekStartIsMidnight(b: int)
    requires IsMonday(b)
    ensures Aligned(b, DAY, 0) && IsMonday(b - WEEK) && IsMonday(b + WEEK)
  {
    var q := Buckets(b, WEEK, MONDAY);
    BucketStart(b, DAY, 0, 7 * q + 4);
    BucketStart(b - WEEK, WEEK, MONDAY, q - 1);
    BucketStart(b + WEEK, WEEK, MONDAY, q + 1);
  }

  /** Every event on time keeps every tier equal to the direct aggregate of the samples. */
  lemma StepKeepsInv(cfg: Retention, s: Sys, t: int, e: Event)
    requires Covered(cfg) && Inv(cfg, s) && OnTime(s, t, e)
    ensures Inv(cfg, Step(cfg, s, t, e))
  {
    match e
    case Sample(ts, key, v) => SampleKeepsInv(cfg, s, t, RawRow(ts, key, v));
    case Hourly => HourlyKeepsInv(cfg, s, t);
    case Daily => DailyKeepsInv(cfg, s, t);
    case Weekly => WeeklyKeepsInv(cfg, s, t);
    case Monthly => MonthlyKeepsInv(cfg, s, t);
    case Cleanup => CleanupKeepsInv(cfg, s, t);
  }

  lemma SampleKeepsInv(cfg: Retention, s: Sys, t: int, r: Row)
    requires Covered(cfg) && Inv(cfg, s) && OnTime(s, t, Sample(r.bucket, r.key, r.avg))
    requires r == RawRow(r.bucket, r.key, r.avg)
    ensures Inv(cfg, Step(cfg, s, t, Sample(r.bucket, r.key, r.avg)))
  {
    var d, c, tb, h := s.done, s.cuts, s.tables, s.history;
    assert Step(cfg, s, t, Sample(r.bucket, r.key, r.avg)) == s.(now := t, tables := tb.(raw := tb.raw + [r]), history := h + [r]);
    FilterSnoc(h, r, NotBefore(c.raw));
    hide Tier, Step, TablesAfter, Rollup, AfterCleanup;
    TierNewSample(tb.hourly, h, HOUR, 0, c.hourly, d.hourly, r);
    TierNewSample(tb.daily, h, DAY, 0, c.daily, d.daily, r);
    TierNewSample(tb.weekly, h, WEEK, MONDAY, c.weekly, d.weekly, r);
    hide FirstKept;
    forall b, key | b in s.months ensures FromDay(tb.monthly, h + [r], b, s.months[b], LengthAt(b), key) {
      GroupSnoc(h, r, s.months[b], b + LengthAt(b), key);
      assert FromDay(tb.monthly, h, b, s.months[b], LengthAt(b), key);
    }
  }

  lemma HourlyKeepsInv(cfg: Retention, s: Sys, t: int)
    requires Covered(cfg) && Inv(cfg, s) && OnTime(s, t, Hourly)
    ensures Inv(cfg, Step(cfg, s, t, Hourly))
  {
    hide Rollup, Tier, StatsOf, Group, SameBucket;
    var d, c, tb, h := s.done, s.cuts, s.tables, s.history;
    TierFacts(tb.hourly, h, HOUR, 0, c.hourly, d.hourly);
    TierFacts(tb.daily, h, DAY, 0, c.daily, d.daily);
    HourlyClock(d.hourly, t);
    hide Aligned;
    forall key ensures SameBucket(tb.raw, h, d.hourly, HOUR, key) {
      RawBucket(h, c.raw, d.hourly, HOUR, key);
    }
    TierRollup(tb.raw, tb.hourly, h, HOUR, 0, c.hourly, d.hourly);
  }

  lemma RawBucket(h: seq<Row>, cut: int, b: int, w: int, key: Key)
    requires cut <= b
    ensures SameBucket(Expire(h, cut), h, b, w, key)
  {
    ExpireKeepsLater(h, cut, b, b + w, key);
  }

  lemma DailyClock(daily: int, hourly: int, t: int)
    requires Aligned(daily, DAY, 0) && Aligned(hourly, HOUR, 0) && t == daily + DAY + 900 && t <= hourly + HOUR + 300
    ensures Midnight(t) == daily + DAY && daily + DAY <= hourly
    ensures Aligned(daily, HOUR, 0) && Aligned(daily + DAY, HOUR, 0)
  {
    var q := Buckets(daily, DAY, 0);
    var m := Buckets(hourly, HOUR, 0);
    BucketStart(daily, HOUR, 0, 24 * q);
    BucketStart(daily + DAY, HOUR, 0, 24 * q + 24);
    assert t / DAY == q + 1;
    hide Aligned;
  }

  lemma TierBuckets(t: seq<Row>, base: seq<Row>, w: int, off: int, cut: int, done: int, lo: int, width: int)
    requires Tier(t, base, w, off, cut, done) && cut <= lo && 0 <= width && lo + width <= done
    requires Aligned(lo, w, off) && Aligned(lo + width, w, off)
    ensures forall key :: SameBucket(t, base, lo, width, key)
  {
    forall key ensures SameBucket(t, base, lo, width, key) {
      TierSpan(t, base, w, off, cut, done, lo, lo + width, key);
    }
  }

  lemma DailyKeepsInv(cfg: Retention, s: Sys, t: int)
    requires Covered(cfg) && Inv(cfg, s) && OnTime(s, t, Daily)
    ensures Inv(cfg, Step(cfg, s, t, Daily))
  {
    hide Rollup, Tier, StatsOf, Group, SameBucket, Midnight, Aligned;
    var d, c, tb, h := s.done, s.cuts, s.tables, s.history;
    TierFacts(tb.hourly, h, HOUR, 0, c.hourly, d.hourly);
    TierFacts(tb.daily, h, DAY, 0, c.daily, d.daily);
    DailyClock(d.daily, d.hourly, t);
    TierBuckets(tb.hourly, h, HOUR, 0, c.hourly, d.hourly, d.daily, DAY);
    TierRollup(tb.hourly, tb.daily, h, DAY, 0, c.daily, d.daily);
  }

  lemma WeeklyClock(weekly: int, daily: int, t: int)
    requires IsMonday(weekly) && Aligned(daily, DAY, 0) && t == weekly + WEEK + 3600 && t <= daily + DAY + 900
    ensures WeekEnd(t) == weekly + WEEK && weekly + WEEK <= daily
    ensures Aligned(weekly, DAY, 0) && Aligned(weekly + WEEK, DAY, 0)
  {
    WeekStartIsMidnight(weekly);
    WeekStartIsMidnight(weekly + WEEK);
    WeeklyBucketIsLatestCompleteWeek(t);
    hide WeekEnd;
    if WeekEnd(t) < weekly + WEEK {
      AlignedStep(WeekEnd(t), weekly + WEEK, WEEK, MONDAY);
    } else if weekly + WEEK < WeekEnd(t) {
      AlignedStep(weekly + WEEK, WeekEnd(t), WEEK, MONDAY);
    }
    if daily < weekly + WEEK {
      AlignedStep(daily, weekly + WEEK, DAY, 0);
    }
  }

  lemma WeeklyKeepsInv(cfg: Retention, s: Sys, t: int)
    requires Covered(cfg) && Inv(cfg, s) && OnTime(s, t, Weekly)
    ensures Inv(cfg, Step(cfg, s, t, Weekly))
  {
    hide Rollup, Tier, StatsOf, Group, SameBucket, WeekEnd, Aligned;
    var d, c, tb, h := s.done, s.cuts, s.tables, s.history;
    TierFacts(tb.daily, h, DAY, 0, c.daily, d.daily);
    TierFacts(tb.weekly, h, WEEK, MONDAY, c.weekly, d.weekly);
    TierFacts(tb.hourly, h, HOUR, 0, c.hourly, d.hourly);
    WeeklyClock(d.weekly, d.daily, t);
    TierBuckets(tb.daily, h, DAY, 0, c.daily, d.daily, d.weekly, WEEK);
    TierRollup(tb.daily, tb.weekly, h, WEEK, MONDAY, c.weekly, d.weekly);
  }

  lemma MonthlyClock(monthly: int, length: int, daily: int, t: int)
    requires Aligned(monthly + length, DAY, 0) && Aligned(daily, DAY, 0)
    requires t == monthly + length + 7200 && t <= daily + DAY + 900
    ensures monthly + length <= daily
  {
    if daily < monthly + length {
      AlignedStep(daily, monthly + length, DAY, 0);
    }
  }

  lemma MonthlyKeepsInv(cfg: Retention, s: Sys, t: int)
    requires Covered(cfg) && Inv(cfg, s) && OnTime(s, t, Monthly)
    ensures Inv(cfg, Step(cfg, s, t, Monthly))
  {
    hide Rollup, Tier, StatsOf, Group, Aligned, MonthOf, MonthStart, LengthAt;
    var d, c, tb, h := s.done, s.cuts, s.tables, s.history;
    var lo, len := d.monthly, LengthAt(d.monthly);
    MonthlyBounds(lo, t);
    MonthLengths(lo);
    TierFacts(tb.daily, h, DAY, 0, c.daily, d.daily);
    TierFacts(tb.hourly, h, HOUR, 0, c.hourly, d.hourly);
    MonthlyClock(lo, len, d.daily, t);
    RollupBuckets(tb.daily, tb.monthly, lo, lo + len);
    FirstKeptDay(c.daily, lo, lo + len);
    var m, months := Rollup(tb.daily, tb.monthly, lo, lo + len), s.months[lo := FirstKept(c.daily, lo)];
    forall b, key | b in months ensures FromDay(m, h, b, months[b], LengthAt(b), key) {
      if b == lo {
        MonthReadsKeptDays(tb.daily, h, tb.monthly, c.daily, d.daily, lo, lo + len, key);
      } else {
        assert FromDay(tb.monthly, h, b, months[b], LengthAt(b), key);
        OtherMonthsStay(tb.daily, h, tb.monthly, lo, lo + len, b, months[b], LengthAt(b), key);
      }
    }
    hide FirstKept, FromDay;
  }

  lemma OtherMonthsStay(daily: seq<Row>, h: seq<Row>, monthly: seq<Row>, lo: int, hi: int, b: int, day: int, length: int, key: Key)
    requires Counted(daily) && lo < hi && (forall r :: r in monthly ==> r.bucket < lo) && b + length <= lo
    requires FromDay(monthly, h, b, day, length, key)
    ensures FromDay(Rollup(daily, monthly, lo, hi), h, b, day, length, key)
  {
    hide Rollup, StatsOf, Group;
    RollupGroups(daily, monthly, lo, hi, key, b, b + length);
  }

  /** The first kept day starts a day, and no row before it is left. */
  lemma FirstKeptDay(cut: int, lo: int, hi: int)
    requires Aligned(lo, DAY, 0) && Aligned(hi, DAY, 0) && lo <= hi && cut <= hi
    ensures var day := FirstKept(cut, lo); Aligned(day, DAY, 0) && lo <= day <= hi && cut <= day && (cut > lo ==> day < cut + DAY)
  {
    if cut > lo {
      var q := Floor(cut, DAY);
      var m := Buckets(lo, DAY, 0);
      var n := Buckets(hi, DAY, 0);
      hide Aligned;
      var r := cut % DAY;
      BucketStart(FirstKept(cut, lo), DAY, 0, if r == 0 then q else q + 1);
      if r != 0 {
        LatestMultiple(DAY * n - 1, DAY, n - 1, q);
      }
    }
  }

  /** What a monthly rollup writes: the aggregate of the samples from the first kept day on. */
  lemma MonthReadsKeptDays(daily: seq<Row>, h: seq<Row>, monthly: seq<Row>, cut: int, done: int, lo: int, hi: int, key: Key)
    requires Tier(daily, h, DAY, 0, cut, done) && Counted(daily) && lo < hi <= done && cut <= hi
    requires Aligned(lo, DAY, 0) && Aligned(hi, DAY, 0) && forall r :: r in monthly ==> r.bucket < lo
    ensures FromDay(Rollup(daily, monthly, lo, hi), h, lo, FirstKept(cut, lo), hi - lo, key)
  {
    hide Rollup, Aligned;
    var day := FirstKept(cut, lo);
    FirstKeptDay(cut, lo, hi);
    RollupGroups(daily, monthly, lo, hi, key, lo, hi);
    TierSpan(daily, h, DAY, 0, cut, done, day, hi, key);
    LostDaysAreEmpty(daily, h, cut, done, lo, key);
    SpanSplit(daily, lo, day, hi, key);
    hide StatsOf, Group;
    assert Merge(Empty, StatsOf(Group(daily, day, hi, key))) == StatsOf(Group(daily, day, hi, key));
  }

  lemma LostDaysAreEmpty(daily: seq<Row>, h: seq<Row>, cut: int, done: int, lo: int, key: Key)
    requires Tier(daily, h, DAY, 0, cut, done) && Aligned(lo, DAY, 0)
    ensures StatsOf(Group(daily, lo, FirstKept(cut, lo), key)) == Empty
  {
    var day := FirstKept(cut, lo);
    if cut > lo {
      forall r | r in daily ensures !InSpan(lo, day, key)(r) {
        if cut <= r.bucket < day {
          NoDayInside(cut, lo, r.bucket);
        }
      }
    }
    FilterNone(daily, InSpan(lo, day, key));
  }

  lemma NoDayInside(cut: int, lo: int, b: int)
    requires Aligned(b, DAY, 0) && lo < cut <= b
    ensures FirstKept(cut, lo) <= b
  {
    var q := Floor(cut, DAY);
    var m := Buckets(b, DAY, 0);
    hide Aligned;
    if cut % DAY != 0 {
      LatestMultiple(DAY * m - 1, DAY, m - 1, q);
    }
  }

  lemma RollupBuckets(src: seq<Row>, dst: seq<Row>, lo: int, hi: int)
    requires Counted(src)
    ensures forall r :: r in Rollup(src, dst, lo, hi) ==> r.bucket == lo || r in dst
  {
    FilterIn(dst, NotReplaced(lo, Keys(src, lo, hi)));
    var rows := NewRows(src, lo, hi, Keys(src, lo, hi));
    forall r | r in rows ensures r.bucket == lo {
      var i :| 0 <= i < |rows| && rows[i] == r;
    }
  }

  lemma RawCleanup(h: seq<Row>, cut: int, cutoff: int)
    requires Counted(h)
    ensures Expire(Expire(h, cut), cutoff) == Expire(h, Later(cut, cutoff))
    ensures Counted(Expire(h, Later(cut, cutoff)))
  {
    FilterIn(h, NotBefore(Later(cut, cutoff)));
    FilterFilter(h, NotBefore(cut), NotBefore(cutoff));
    FilterAgree(h, Both(NotBefore(cut), NotBefore(cutoff)), NotBefore(Later(cut, cutoff)));
  }

  lemma CleanupKeepsInv(cfg: Retention, s: Sys, t: int)
    requires Covered(cfg) && Inv(cfg, s) && OnTime(s, t, Cleanup)
    ensures Inv(cfg, Step(cfg, s, t, Cleanup))
  {
    hide Tier, Expire, SameBucket;
    var d, c, tb, h := s.done, s.cuts, s.tables, s.history;
    TierFacts(tb.daily, h, DAY, 0, c.daily, d.daily);
    TierFacts(tb.hourly, h, HOUR, 0, c.hourly, d.hourly);
    RawCleanup(h, c.raw, t - cfg.rawHours * 3600);
    TierExpire(tb.hourly, h, HOUR, 0, c.hourly, d.hourly, t - cfg.hourlyDays * 86400);
    TierExpire(tb.daily, h, DAY, 0, c.daily, d.daily, t - cfg.dailyDays * 86400);
    TierExpire(tb.weekly, h, WEEK, MONDAY, c.weekly, d.weekly, t - cfg.weeklyMonths * 30 * 86400);
  }

  datatype Timed = Timed(t: int, e: Event)

  lemma StepKeepsCounts(cfg: Retention, s: Sys, t: int, e: Event)
    requires CountedTables(s.tables)
    ensures CountedTables(Step(cfg, s, t, e).tables)
  {
    hide Rollup, WeekEnd, Midnight;
    var tb := s.tables;
    match e
    case Hourly => RollupRows(tb.raw, tb.hourly, t - t % HOUR - HOUR, t - t % HOUR);
    case Daily => RollupRows(tb.hourly, tb.daily, Midnight(t) - DAY, Midnight(t));
    case Cleanup =>
      FilterIn(tb.raw, NotBefore(t - cfg.rawHours * 3600));
      FilterIn(tb.hourly, NotBefore(t - cfg.hourlyDays * 86400));
      FilterIn(tb.daily, NotBefore(t - cfg.dailyDays * 86400));
    case _ =>
  }

  ghost predicate RunOnTime(cfg: Retention, s: Sys, es: seq<Timed>)
    requires CountedTables(s.tables)
    decreases |es|
  {
    es == [] ||
    (StepKeepsCounts(cfg, s, es[0].t, es[0].e);
     OnTime(s, es[0].t, es[0].e) && RunOnTime(cfg, Step(cfg, s, es[0].t, es[0].e), es[1..]))
  }

  ghost function Final(cfg: Retention, s: Sys, es: seq<Timed>): Sys
    requires CountedTables(s.tables) && RunOnTime(cfg, s, es)
    decreases |es|
  {
    if es == [] then s else
    StepKeepsCounts(cfg, s, es[0].t, es[0].e);
    Final(cfg, Step(cfg, s, es[0].t, es[0].e), es[1..])
  }

  lemma {:induction false} RunKeepsInv(cfg: Retention, s: Sys, es: seq<Timed>)
    requires Covered(cfg) && Inv(cfg, s)
    requires CountedTables(s.tables) && RunOnTime(cfg, s, es)
    ensures Inv(cfg, Final(cfg, s, es))
    decreases |es|
  {
    if es != [] {
      StepKeepsInv(cfg, s, es[0].t, es[0].e);
      RunKeepsInv(cfg, Step(cfg, s, es[0].t, es[0].e), es[1..]);
    }
  }

  /**
   * After any run on time, through three tiers of rollups and with retention deleting the sources,
   * every weekly row has the min, max, mean and count of all raw samples of its week.
   */
  lemma WeeklyRowIsDirectAggregate(cfg: Retention, now: int, es: seq<Timed>, r: Row)
    requires Covered(cfg)
    requires RunOnTime(cfg, Start(cfg, now), es)
    requires r in Final(cfg, Start(cfg, now), es).tables.weekly
    ensures var s := StatsOf(Group(Final(cfg, Start(cfg, now), es).history, r.bucket, r.bucket + WEEK, r.key));
            s.Stats? && s.count > 0 && r == ToRow(r.bucket, r.key, s)
  {
    StartHolds(cfg, now);
    RunKeepsInv(cfg, Start(cfg, now), es);
    var f := Final(cfg, Start(cfg, now), es);
    TierRow(f.tables.weekly, f.history, WEEK, MONDAY, f.cuts.weekly, f.done.weekly, r);
  }

}
