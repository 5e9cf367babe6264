/** Months of the Gregorian calendar in UTC seconds; month 0 is January 1970. */
module CivilCalendar {
  const SECONDS := 86400

  predicate Leap(year: int) { year % 4 == 0 && (year % 100 != 0 || year % 400 == 0) }

  /** Days of month m (January is 0) of a year. */
  function MonthDays(year: int, m: nat): (days: int)
    requires m < 12
    ensures 28 <= days <= 31
  {
    if m == 1 then (if Leap(year) then 29 else 28)
    else if m == 3 || m == 5 || m == 8 || m == 10 then 30
    else 31
  }

  /** Length in seconds of the n-th month. */
  function MonthLength(n: int): (length: int)
    ensures 28 * SECONDS <= length <= 31 * SECONDS && length % SECONDS == 0
  {
    MonthDays(1970 + n / 12, n % 12) * SECONDS
  }

  function MonthStart(n: int): int
    decreases if n < 0 then -n else n
  {
    if n == 0 then 0
    else if n > 0 then MonthStart(n - 1) + MonthLength(n - 1)
    else MonthStart(n + 1) - MonthLength(n)
  }

  /** Months follow each other without a gap. */
  lemma NextMonthStart(n: int)
    ensures MonthStart(n + 1) == MonthStart(n) + MonthLength(n)
  {
  }

  lemma {:induction false} StartsAtMidnight(n: int)
    ensures MonthStart(n) % SECONDS == 0
    decreases if n < 0 then -n else n
  {
    hide MonthLength;
    if n > 0 {
      StartsAtMidnight(n - 1);
    } else if n < 0 {
      StartsAtMidnight(n + 1);
    }
  }

  lemma {:induction false} LaterMonth(a: int, b: int)
    requires a < b
    ensures MonthStart(a + 1) <= MonthStart(b)
    decreases b - a
  {
    hide MonthStart, MonthLength;
    if a + 1 < b {
      LaterMonth(a, b - 1);
      NextMonthStart(b - 1);
    }
  }

  /** The month that `now` lies in: the year and month a date library reports. */
  function MonthOf(now: int): (n: int)
    ensures MonthStart(n) <= now < MonthStart(n + 1)
  {
    if now < 0 then Down(now, -1) else Up(now, 0)
  }

  function Up(now: int, n: int): (r: int)
    requires MonthStart(n) <= now
    ensures MonthStart(r) <= now < MonthStart(r + 1)
    decreases now - MonthStart(n)
  {
    hide MonthStart, MonthLength;
    NextMonthStart(n);
    if now < MonthStart(n + 1) then n else Up(now, n + 1)
  }

  function Down(now: int, n: int): (r: int)
    requires now < MonthStart(n + 1)
    ensures MonthStart(r) <= now < MonthStart(r + 1)
    decreases MonthStart(n + 1) - now
  {
    hide MonthStart, MonthLength;
    NextMonthStart(n);
    if MonthStart(n) <= now then n else Down(now, n - 1)
  }

  /** Only one month contains an instant. */
  lemma MonthIsUnique(now: int, n: int)
    requires MonthStart(n) <= now < MonthStart(n + 1)
    ensures MonthOf(now) == n
  {
    var m := MonthOf(now);
    hide MonthStart, MonthOf;
    if m < n {
      LaterMonth(m, n);
    } else if n < m {
      LaterMonth(n, m);
    }
  }

  /** The length of the month that contains `b`. */
  function LengthAt(b: int): int { MonthLength(MonthOf(b)) }

  // ---- The calendar in closed form ----

  /** Days from 1970-01-01 to the first of a month, counting years from March: `m` is 0 for March and 11 for February. */
  function DaysFromMarch(year: int, m: nat): int {
    365 * year + year / 4 - year / 100 + year / 400 + (153 * m + 2) / 5 - 719468
  }

  /** Days from 1970-01-01 to the first of the n-th month. */
  function DayNumber(n: int): int {
    var year, m := 1970 + n / 12, n % 12;
    if m >= 2 then DaysFromMarch(year, m - 2) else DaysFromMarch(year - 1, m + 10)
  }

  lemma DivStep(y: int, k: int)
    requires k > 0
    ensures y / k - (y - 1) / k == if y % k == 0 then 1 else 0
  {
    var q, r := y / k, y % k;
    assert y == k * q + r;
    if r == 0 {
      assert y - 1 == k * (q - 1) + (k - 1);
      QuotientIs(y - 1, k, q - 1, k - 1);
    } else {
      QuotientIs(y - 1, k, q, r - 1);
    }
  }

  lemma QuotientIs(a: int, k: int, q: int, r: int)
    requires k > 0 && a == k * q + r && 0 <= r < k
    ensures a / k == q
  {
    var d, e := a / k - q, a % k;
    assert a == k * (a / k) + e;
    assert k * d == r - e;
    assert k * -d == -(k * d);
    if d >= 1 {
      AtLeast(k, d);
    } else if d <= -1 {
      AtLeast(k, -d);
    }
  }

  lemma AtLeast(k: int, d: int)
    requires k > 0 && d >= 1
    ensures k * d >= k
  {
  }

  /** From the first of February of one count to the first of March of the next. */
  lemma FebruaryStep(year: int)
    ensures DaysFromMarch(year, 0) - DaysFromMarch(year - 1, 11) == if Leap(year) then 29 else 28
  {
    DivStep(year, 4);
    DivStep(year, 100);
    DivStep(year, 400);
    LeapQuarters(year);
  }

  lemma LeapQuarters(year: int)
    ensures year % 400 == 0 ==> year % 100 == 0
    ensures year % 100 == 0 ==> year % 4 == 0
  {
  }

  /** The days of a month are the distance to the first of the next one. */
  lemma MonthStep(n: int)
    ensures DayNumber(n + 1) - DayNumber(n) == MonthDays(1970 + n / 12, n % 12)
  {
    var year, m := 1970 + n / 12, n % 12;
    NextIndex(n);
    if m == 1 {
      FebruaryStep(year);
    }
  }

  lemma NextIndex(n: int)
    ensures if n % 12 == 11 then (n + 1) / 12 == n / 12 + 1 && (n + 1) % 12 == 0 else (n + 1) / 12 == n / 12 && (n + 1) % 12 == n % 12 + 1
  {
  }

  /** Every month starts where the civil day count in closed form puts it. */
  lemma {:induction false} MonthStartInClosedForm(n: int)
    ensures MonthStart(n) == SECONDS * DayNumber(n)
    decreases if n < 0 then -n else n
  {
    hide MonthDays, DayNumber;
    if n == 0 {
      EpochIsDayZero();
    } else if n > 0 {
      MonthStartInClosedForm(n - 1);
      MonthStep(n - 1);
    } else {
      MonthStartInClosedForm(n + 1);
      MonthStep(n);
    }
  }

  lemma EpochIsDayZero()
    ensures DayNumber(0) == 0
  {
  }
}
