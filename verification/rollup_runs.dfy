/** What whole runs of the rollup schedule come to: they can always go on, and which months they aggregate exactly. */
module RollupRuns {
  import opened Seqs
  import opened RollupTables
  import opened RollupSchedule
  import opened CivilCalendar

  // ---- The schedule can always go on ----

  /** When the next run of each loop is due. */
  function DueHourly(s: Sys): int { s.done.hourly + HOUR + 300 }

  function DueDaily(s: Sys): int { s.done.daily + DAY + 900 }

  function DueWeekly(s: Sys): int { s.done.weekly + WEEK + 3600 }

  function DueMonthly(s: Sys): int { s.done.monthly + LengthAt(s.done.monthly) + 7200 }

  /** Nothing is due before `t`. */
  ghost predicate NothingDue(s: Sys, t: int) {
    t <= DueHourly(s) && t <= DueDaily(s) && t <= DueWeekly(s) && t <= DueMonthly(s)
  }

  /** The state satisfies the invariant and no rollup is overdue. */
  ghost predicate Live(cfg: Retention, s: Sys) {
    Inv(cfg, s) && CountedTables(s.tables) && NothingDue(s, s.now)
  }

  lemma StartIsLive(cfg: Retention, now: int)
    ensures Live(cfg, Start(cfg, now))
  {
    StartHolds(cfg, now);
    MonthBoundary(MonthOf(now));
    MonthLengths(MonthStart(MonthOf(now)));
    hide MonthOf, MonthStart, LengthAt;
    StartClocks(now, MonthStart(MonthOf(now)));
    NextWeeklyRunIsNextMonday(now, now);
    DayOf(now);
    hide Inv, NextWeeklyRun;
  }

  lemma DayOf(now: int)
    ensures now < Midnight(now) + DAY && now < now - now % HOUR + HOUR
  {
  }

  lemma StepStaysLive(cfg: Retention, s: Sys, t: int, e: Event)
    requires Covered(cfg) && Live(cfg, s) && OnTime(s, t, e)
    ensures Live(cfg, Step(cfg, s, t, e))
  {
    StepKeepsInv(cfg, s, t, e);
    StepKeepsCounts(cfg, s, t, e);
    StepAdvances(cfg, s, t, e);
    hide Inv, Step;
  }

  /** A rollup moves its own tier on by one bucket; nothing else moves a tier. */
  lemma StepAdvances(cfg: Retention, s: Sys, t: int, e: Event)
    requires Covered(cfg) && Inv(cfg, s) && CountedTables(s.tables) && OnTime(s, t, e)
    ensures var s' := Step(cfg, s, t, e);
            && s'.now == t
            && s'.done.hourly == (if e == Hourly then s.done.hourly + HOUR else s.done.hourly)
            && s'.done.daily == (if e == Daily then s.done.daily + DAY else s.done.daily)
            && s'.done.weekly == (if e == Weekly then s.done.weekly + WEEK else s.done.weekly)
            && s'.done.monthly == (if e == Monthly then s.done.monthly + LengthAt(s.done.monthly) else s.done.monthly)
            && 28 * DAY <= LengthAt(s.done.monthly) && 28 * DAY <= LengthAt(s'.done.monthly)
  {
    var d, c, tb, h := s.done, s.cuts, s.tables, s.history;
    TierFacts(tb.hourly, h, HOUR, 0, c.hourly, d.hourly);
    TierFacts(tb.daily, h, DAY, 0, c.daily, d.daily);
    TierFacts(tb.weekly, h, WEEK, MONDAY, c.weekly, d.weekly);
    MonthLengths(d.monthly);
    MonthLengths(Step(cfg, s, t, e).done.monthly);
    assert IsMonthStart(d.monthly);
    hide Inv, Tier, Midnight, WeekEnd, Rollup, Aligned, MonthsFromDay, MonthOf, MonthStart, LengthAt, IsMonthStart;
    match e
    case Hourly => HourlyClock(d.hourly, t);
    case Daily => DailyClock(d.daily, d.hourly, t);
    case Weekly => WeeklyClock(d.weekly, d.daily, t);
    case Monthly => MonthlyBounds(d.monthly, t);
    case _ =>
  }

  /** The next rollup due. */
  ghost function NextDue(s: Sys): Timed {
    var h, d, w, m := DueHourly(s), DueDaily(s), DueWeekly(s), DueMonthly(s);
    if h <= d && h <= w && h <= m then Timed(h, Hourly)
    else if d <= w && d <= m then Timed(d, Daily)
    else if w <= m then Timed(w, Weekly)
    else Timed(m, Monthly)
  }

  /** Whatever happened so far, the next rollup due is on time: a run never blocks itself. */
  lemma ScheduleContinues(cfg: Retention, now: int, es: seq<Timed>)
    requires Covered(cfg) && RunOnTime(cfg, Start(cfg, now), es)
    ensures var f := Final(cfg, Start(cfg, now), es); OnTime(f, NextDue(f).t, NextDue(f).e)
  {
    StartIsLive(cfg, now);
    FinalIsLive(cfg, Start(cfg, now), es);
  }

  lemma {:induction false} FinalIsLive(cfg: Retention, s: Sys, es: seq<Timed>)
    requires Covered(cfg) && Live(cfg, s) && RunOnTime(cfg, s, es)
    ensures Live(cfg, Final(cfg, s, es))
    decreases |es|
  {
    if es != [] {
      hide Inv, Step, NothingDue, OnTime;
      StepStaysLive(cfg, s, es[0].t, es[0].e);
      FinalIsLive(cfg, Step(cfg, s, es[0].t, es[0].e), es[1..]);
    }
  }

  lemma {:induction false} RunAppend(cfg: Retention, s: Sys, es: seq<Timed>, more: seq<Timed>)
    requires CountedTables(s.tables) && RunOnTime(cfg, s, es) && CountedTables(Final(cfg, s, es).tables)
    requires RunOnTime(cfg, Final(cfg, s, es), more)
    ensures RunOnTime(cfg, s, es + more)
    ensures Final(cfg, s, es + more) == Final(cfg, Final(cfg, s, es), more)
    decreases |es|
  {
    if es == [] {
      hide OnTime, Step, CountedTables;
      assert es + more == more;
      return;
    }
    hide RunOnTime, Final, Step, OnTime, CountedTables;
    var both, e := es + more, es[0];
    assert both[0] == e && both[1..] == es[1..] + more;
    FirstEvent(cfg, s, es);
    FirstEvent(cfg, s, both);
    RunAppend(cfg, Step(cfg, s, e.t, e.e), es[1..], more);
  }

  lemma FirstEvent(cfg: Retention, s: Sys, es: seq<Timed>)
    requires CountedTables(s.tables) && es != []
    ensures var s' := Step(cfg, s, es[0].t, es[0].e);
            && CountedTables(s'.tables)
            && (RunOnTime(cfg, s, es) <==> OnTime(s, es[0].t, es[0].e) && RunOnTime(cfg, s', es[1..]))
            && (RunOnTime(cfg, s, es) ==> Final(cfg, s, es) == Final(cfg, s', es[1..]))
  {
    StepKeepsCounts(cfg, s, es[0].t, es[0].e);
    hide Step, OnTime;
  }

  /** What the rollups alone leave as it is until the next month's run is due. */
  ghost predicate Untouched(s: Sys, f: Sys) {
    f.history == s.history && f.cuts == s.cuts && f.done.monthly == s.done.monthly && f.months == s.months
  }

  /** From any live state the due rollups, each on time, lead to any later moment. */
  lemma RunTo(cfg: Retention, s: Sys, t: int) returns (es: seq<Timed>)
    requires Covered(cfg) && Live(cfg, s) && s.now <= t
    ensures RunOnTime(cfg, s, es)
    ensures var f := Final(cfg, s, es);
            && Live(cfg, f) && f.now <= t && NothingDue(f, t)
            && f.history == s.history && f.cuts == s.cuts && (t <= DueMonthly(s) ==> Untouched(s, f))
    decreases Left(cfg, s, t)
  {
    if NothingDue(s, t) {
      return [];
    }
    hide Live, Step, Left, NothingDue, OnTime, NextDue;
    var next := NextDue(s);
    DueStep(cfg, s, t);
    var rest := RunTo(cfg, Step(cfg, s, next.t, next.e), t);
    es := [next] + rest;
    assert es[1..] == rest;
  }

  /** Handling the next rollup due brings the tiers closer to `t`. */
  lemma DueStep(cfg: Retention, s: Sys, t: int)
    requires Covered(cfg) && Live(cfg, s) && s.now <= t && !NothingDue(s, t)
    ensures var next := NextDue(s);
            var s' := Step(cfg, s, next.t, next.e);
            && OnTime(s, next.t, next.e) && Live(cfg, s') && s'.now <= t
            && Left(cfg, s', t) < Left(cfg, s, t)
            && s'.history == s.history && s'.cuts == s.cuts
            && (t <= DueMonthly(s) ==> Untouched(s, s') && DueMonthly(s') == DueMonthly(s))
  {
    hide Inv, Step, LengthAt, OnTime, NothingDue;
    var next := NextDue(s);
    NextDueIsOnTime(cfg, s, t);
    hide NextDue;
    StepStaysLive(cfg, s, next.t, next.e);
    StepAdvances(cfg, s, next.t, next.e);
    DueKeeps(cfg, s, next.t, next.e);
    LeftDrops(cfg, s, Step(cfg, s, next.t, next.e), t);
  }

  lemma NextDueIsOnTime(cfg: Retention, s: Sys, t: int)
    requires Live(cfg, s) && !NothingDue(s, t)
    ensures var next := NextDue(s);
            && OnTime(s, next.t, next.e) && next.t <= t && !next.e.Sample? && !next.e.Cleanup?
            && (t <= DueMonthly(s) ==> !next.e.Monthly?)
  {
    hide Inv, LengthAt;
  }

  lemma DueKeeps(cfg: Retention, s: Sys, t: int, e: Event)
    requires CountedTables(s.tables) && (e.Hourly? || e.Daily? || e.Weekly? || e.Monthly?)
    ensures var s' := Step(cfg, s, t, e); s'.history == s.history && s'.cuts == s.cuts && (!e.Monthly? ==> s'.months == s.months)
  {
    hide Rollup, WeekEnd, Midnight;
  }

  /** How far the tiers are behind `t`. */
  ghost function Left(cfg: Retention, s: Sys, t: int): nat
    requires Live(cfg, s) && s.now <= t
  {
    (t - s.done.hourly) + (t - s.done.daily) + (t - s.done.weekly) + (t - s.done.monthly)
  }

  lemma LeftDrops(cfg: Retention, s: Sys, s': Sys, t: int)
    requires Live(cfg, s) && Live(cfg, s') && s.now <= t && s'.now <= t
    requires s.done.hourly <= s'.done.hourly && s.done.daily <= s'.done.daily && s.done.weekly <= s'.done.weekly && s.done.monthly <= s'.done.monthly
    requires s.done != s'.done
    ensures Left(cfg, s', t) < Left(cfg, s, t)
  {
    hide Inv;
  }

  // ---- The civil calendar ----

  /** First run of the monthly loop when the service starts at `now`: the first of the next month at 02:00. */
  function NextMonthlyRun(now: int): int { MonthStart(MonthOf(now) + 1) + 7200 }

  /** The loop that runs the monthly rollup wakes up exactly when the schedule says it is due: at the start, and after each run. */
  lemma MonthlyLoopMeetsDue(cfg: Retention, s: Sys, t: int)
    requires Inv(cfg, s) && CountedTables(s.tables) && OnTime(s, t, Monthly)
    ensures NextMonthlyRun(t) == DueMonthly(Step(cfg, s, t, Monthly))
    ensures NextMonthlyRun(s.now) == DueMonthly(Start(cfg, s.now))
  {
    hide MonthOf, MonthStart, MonthLength, Rollup, Tier;
    MonthlyBounds(s.done.monthly, t);
    MonthBoundary(MonthOf(t));
    MonthBoundary(MonthOf(s.now));
  }

  // ---- Which months are aggregated exactly ----

  /** The monthly bucket b is the direct aggregate of the samples of its month. */
  ghost predicate MonthExact(f: Sys, b: int, key: Key) {
    SameBucket(f.tables.monthly, f.history, b, LengthAt(b), key)
  }

  /** A processed month aggregates exactly its samples from the first day whose row was still there. */
  lemma MonthlyBucketIsFromFirstKeptDay(cfg: Retention, now: int, es: seq<Timed>, b: int, key: Key)
    requires Covered(cfg)
    requires RunOnTime(cfg, Start(cfg, now), es)
    requires b in Final(cfg, Start(cfg, now), es).months
    ensures var f := Final(cfg, Start(cfg, now), es);
            && b <= f.months[b] <= b + LengthAt(b) && (MonthCovered(cfg, LengthAt(b)) ==> f.months[b] == b)
            && FromDay(f.tables.monthly, f.history, b, f.months[b], LengthAt(b), key)
            && Counted(f.history)
  {
    StartHolds(cfg, now);
    RunKeepsInv(cfg, Start(cfg, now), es);
    hide Tier, Step;
  }

  /** A processed month is the direct aggregate of its samples exactly when no sample lies in its lost days. */
  lemma MonthExactIffNothingLost(cfg: Retention, now: int, es: seq<Timed>, b: int, key: Key)
    requires Covered(cfg)
    requires RunOnTime(cfg, Start(cfg, now), es)
    requires b in Final(cfg, Start(cfg, now), es).months
    ensures var f := Final(cfg, Start(cfg, now), es);
            MonthExact(f, b, key) <==> Group(f.history, b, f.months[b], key) == []
  {
    hide RunOnTime, Final, FromDay, SameBucket, Counted, Group, LengthAt;
    MonthlyBucketIsFromFirstKeptDay(cfg, now, es, b, key);
    var f := Final(cfg, Start(cfg, now), es);
    SameIffNothingLost(f.tables.monthly, f.history, b, f.months[b], LengthAt(b), key);
  }

  /** A bucket that aggregates the samples from `day` on is that of the whole month exactly when there is none before. */
  lemma SameIffNothingLost(monthly: seq<Row>, history: seq<Row>, b: int, day: int, length: int, key: Key)
    requires FromDay(monthly, history, b, day, length, key) && Counted(history) && b <= day <= b + length
    ensures SameBucket(monthly, history, b, length, key) <==> Group(history, b, day, key) == []
  {
    hide Group;
    SpanSplit(history, b, day, b + length, key);
    GroupCounted(history, b, day, key);
    GroupCounted(history, day, b + length, key);
    GroupIsCounted(Group(history, b, day, key));
    GroupIsCounted(Group(history, day, b + length, key));
  }

  lemma GroupCounted(h: seq<Row>, lo: int, hi: int, key: Key)
    requires Counted(h)
    ensures Counted(Group(h, lo, hi, key))
  {
    FilterIn(h, InSpan(lo, hi, key));
  }

  /** With a daily retention that covers its length, a month is exact in every run. */
  lemma MonthlyBucketIsDirectAggregate(cfg: Retention, now: int, es: seq<Timed>, b: int, key: Key)
    requires Covered(cfg)
    requires RunOnTime(cfg, Start(cfg, now), es)
    requires b in Final(cfg, Start(cfg, now), es).months && MonthCovered(cfg, LengthAt(b))
    ensures MonthExact(Final(cfg, Start(cfg, now), es), b, key)
  {
    MonthlyBucketIsFromFirstKeptDay(cfg, now, es, b, key);
  }

  /** With a shorter retention a sample of the first day, and a cleanup before the monthly run, make a wrong bucket. */
  lemma LosingRun(cfg: Retention, month: int, key: Key) returns (es: seq<Timed>)
    requires Covered(cfg) && IsMonthStart(month) && !MonthCovered(cfg, LengthAt(month))
    ensures RunOnTime(cfg, Start(cfg, month), es)
    ensures var f := Final(cfg, Start(cfg, month), es); month in f.months && !MonthExact(f, month, key)
  {
    var s := Start(cfg, month);
    var due := month + LengthAt(month) + 7200;
    MonthLengths(month);
    hide MonthOf, MonthStart, LengthAt;
    StartIsLive(cfg, month);
    var first := [Timed(month, Sample(month, key, 1.0))];
    var s1 := Step(cfg, s, month, Sample(month, key, 1.0));
    assert OnTime(s, month, Sample(month, key, 1.0));
    StepStaysLive(cfg, s, month, Sample(month, key, 1.0));
    OneStep(cfg, s, month, Sample(month, key, 1.0));
    assert s1.history == [RawRow(month, key, 1.0)] && s1.done.monthly == month && s1.months == map[];
    hide Inv, Step, Start;
    var until := RunTo(cfg, s1, due);
    var s2 := Final(cfg, s1, until);
    var last := CleanThenRoll(cfg, s2, due);
    RunAppend(cfg, s1, until, last);
    RunAppend(cfg, s, first, until + last);
    es := first + (until + last);
    var f := Final(cfg, s, es);
    FirstDayIsLost(cfg, month, es, key);
  }

  lemma FirstDayIsLost(cfg: Retention, month: int, es: seq<Timed>, key: Key)
    requires Covered(cfg) && RunOnTime(cfg, Start(cfg, month), es)
    requires var f := Final(cfg, Start(cfg, month), es);
             f.history == [RawRow(month, key, 1.0)] && month in f.months && f.months[month] > month
    ensures !MonthExact(Final(cfg, Start(cfg, month), es), month, key)
  {
    MonthExactIffNothingLost(cfg, month, es, month, key);
    var f := Final(cfg, Start(cfg, month), es);
    hide RunOnTime, Final;
    FilterAll(f.history, InSpan(month, f.months[month], key));
  }

  lemma OneStep(cfg: Retention, s: Sys, t: int, e: Event)
    requires CountedTables(s.tables) && OnTime(s, t, e)
    ensures RunOnTime(cfg, s, [Timed(t, e)]) && Final(cfg, s, [Timed(t, e)]) == Step(cfg, s, t, e)
  {
    hide Step;
    StepKeepsCounts(cfg, s, t, e);
    assert [Timed(t, e)][1..] == [];
  }

  /** A cleanup at the moment the monthly rollup is due, and then that rollup. */
  lemma CleanThenRoll(cfg: Retention, s: Sys, due: int) returns (es: seq<Timed>)
    requires Covered(cfg) && Live(cfg, s) && s.now <= due && NothingDue(s, due)
    requires due == DueMonthly(s) && !MonthCovered(cfg, LengthAt(s.done.monthly))
    ensures RunOnTime(cfg, s, es)
    ensures var f, lo := Final(cfg, s, es), s.done.monthly;
            f.history == s.history && lo in f.months && f.months[lo] > lo
  {
    hide Inv, MonthOf, MonthStart, LengthAt, Rollup;
    var c := Step(cfg, s, due, Cleanup);
    assert OnTime(s, due, Cleanup);
    StepStaysLive(cfg, s, due, Cleanup);
    OneStep(cfg, s, due, Cleanup);
    assert c.done == s.done && c.history == s.history && c.now == due && c.cuts.daily > s.done.monthly;
    assert OnTime(c, due, Monthly);
    OneStep(cfg, c, due, Monthly);
    RunAppend(cfg, s, [Timed(due, Cleanup)], [Timed(due, Monthly)]);
    es := [Timed(due, Cleanup)] + [Timed(due, Monthly)];
    hide RunOnTime, Final;
    LosingMonth(cfg, c, due);
  }

  /** A monthly rollup after the cutoff has passed the first of the month. */
  lemma LosingMonth(cfg: Retention, c: Sys, due: int)
    requires Inv(cfg, c) && CountedTables(c.tables) && OnTime(c, due, Monthly) && c.cuts.daily > c.done.monthly
    ensures var f, lo := Step(cfg, c, due, Monthly), c.done.monthly;
            f.history == c.history && lo in f.months && f.months[lo] > lo
  {
    assert IsMonthStart(c.done.monthly);
    hide Inv, MonthOf, MonthStart, LengthAt, Rollup, IsMonthStart, FirstKept;
    MonthlyBounds(c.done.monthly, due);
    KeptAfter(c.cuts.daily, c.done.monthly);
  }

  lemma KeptAfter(cut: int, lo: int)
    requires cut > lo
    ensures FirstKept(cut, lo) > lo
  {
  }

  /** In every run on time, from whatever start, the bucket of that month is exact once it is processed. */
  ghost predicate ExactInEveryRun(cfg: Retention, b: int, key: Key) {
    forall now, es | RunOnTime(cfg, Start(cfg, now), es) ::
      var f := Final(cfg, Start(cfg, now), es); b in f.months ==> MonthExact(f, b, key)
  }

  /** A month is exact in every run on time if and only if the daily retention covers its length and the run offset. */
  lemma MonthExactIffCovered(cfg: Retention, b: int, key: Key)
    requires Covered(cfg) && IsMonthStart(b)
    ensures ExactInEveryRun(cfg, b, key) <==> MonthCovered(cfg, LengthAt(b))
  {
    hide Step, MonthExact;
    if MonthCovered(cfg, LengthAt(b)) {
      forall now, es | RunOnTime(cfg, Start(cfg, now), es)
        ensures var f := Final(cfg, Start(cfg, now), es); b in f.months ==> MonthExact(f, b, key)
      {
        if b in Final(cfg, Start(cfg, now), es).months {
          MonthlyBucketIsDirectAggregate(cfg, now, es, b, key);
        }
      }
    } else {
      var es := LosingRun(cfg, b, key);
    }
  }

  /** Under the default retention exactly the Februaries are safe: every other month can lose its first day. */
  lemma DefaultsLoseFirstDay(n: int, key: Key)
    ensures ExactInEveryRun(DEFAULTS, MonthStart(n), key) <==> n % 12 == 1
  {
    DefaultsAreCovered();
    MonthBoundary(n);
    MonthExactIffCovered(DEFAULTS, MonthStart(n), key);
    hide ExactInEveryRun, MonthStart, MonthOf;
    ShortMonths(n);
  }

  lemma ShortMonths(n: int)
    ensures MonthLength(n) <= 29 * DAY <==> n % 12 == 1
    ensures MonthCovered(DEFAULTS, MonthLength(n)) <==> n % 12 == 1
  {
    var days := MonthDays(1970 + n / 12, n % 12);
    assert days <= 29 <==> n % 12 == 1;
    hide MonthDays;
  }

  // ---- Weekly rows do appear ----

  /** From every start some run on time files a weekly row for any key. */
  lemma WeeklyRowAppears(cfg: Retention, now: int, key: Key) returns (es: seq<Timed>, r: Row)
    requires Covered(cfg)
    ensures RunOnTime(cfg, Start(cfg, now), es)
    ensures r in Final(cfg, Start(cfg, now), es).tables.weekly && r.key == key
  {
    var s := Start(cfg, now);
    StartIsLive(cfg, now);
    NextWeeklyRunBounds(now);
    var sample := Sample(now, key, 1.0);
    StepStaysLive(cfg, s, now, sample);
    OneStep(cfg, s, now, sample);
    var s1 := Step(cfg, s, now, sample);
    assert s1.history == [RawRow(now, key, 1.0)] && s1.cuts == s.cuts && s1.now == now;
    var week := NextWeeklyRun(now) - HOUR - WEEK;
    var b := if now < week + WEEK then week else week + WEEK;
    assert IsMonday(b) && b <= now < b + WEEK && s1.cuts.weekly <= b by {
      WeekStartIsMidnight(week);
    }
    hide Inv, Step, Start, NextWeeklyRun;
    var until := RunTo(cfg, s1, b + WEEK + 3601);
    RunAppend(cfg, s, [Timed(now, sample)], until);
    es := [Timed(now, sample)] + until;
    r := FiledWeek(cfg, Final(cfg, s1, until), b, now, key);
  }

  lemma FiledWeek(cfg: Retention, f: Sys, b: int, at: int, key: Key) returns (r: Row)
    requires Inv(cfg, f) && f.history == [RawRow(at, key, 1.0)] && IsMonday(b) && b <= at < b + WEEK && f.cuts.weekly <= b
    requires b + WEEK + 3601 <= f.done.weekly + WEEK + 3600
    ensures r in f.tables.weekly && r.key == key
  {
    TierFacts(f.tables.weekly, f.history, WEEK, MONDAY, f.cuts.weekly, f.done.weekly);
    AlignedStep(b, f.done.weekly, WEEK, MONDAY);
    FilterAll(f.history, InSpan(b, b + WEEK, key));
    hide Aligned;
    TierHasRow(f.tables.weekly, f.history, WEEK, MONDAY, f.cuts.weekly, f.done.weekly, b, key);
    r :| r in f.tables.weekly && r.bucket == b && r.key == key;
  }
}
