/** Login lockout: failed-attempt counting and progressively longer locks. */
module LoginLockout {
  import opened Options

  /** MaxAttempts, the base lock in seconds, and whether repeated failures lengthen it. */
  datatype Policy = Policy(maxAttempts: int, lockSeconds: int, progressive: bool)

  datatype User = User(failedAttempts: nat, lockedUntil: Option<int>)

  /** Crashed is the division by zero that a progressive policy with no attempts would lead to. */
  datatype Outcome = Locked | InvalidCredentials | LoggedIn | Crashed

  /** Integer division that truncates toward zero. */
  function Quotient(a: nat, b: int): int
    requires b != 0
  {
    if b > 0 then a / b else -(a / -b)
  }

  predicate Divides(p: Policy) { p.progressive ==> p.maxAttempts != 0 }

  /** Lock length in base units after the (maxAttempts + i)-th failure. */
  function Multiplier(p: Policy, i: nat): int
    requires Divides(p)
  {
    if p.progressive && i > 0 then Quotient(i, p.maxAttempts) + 1 else 1
  }

  /** Length in seconds of the lock set by the (maxAttempts + i)-th failure. */
  function LockFor(p: Policy, i: nat): int
    requires Divides(p)
  {
    p.lockSeconds * Multiplier(p, i)
  }

  function OutcomeOf(p: Policy, u: User, now: int, correct: bool): Outcome {
    if u.lockedUntil.Some? && now < u.lockedUntil.value then Locked
    else if correct then LoggedIn
    else if Divides(p) then InvalidCredentials else Crashed
  }

  /** The user row after one login attempt. */
  function AfterAttempt(p: Policy, u: User, now: int, correct: bool): User {
    var n := u.failedAttempts + 1;
    match OutcomeOf(p, u, now, correct)
    case Locked => u
    case LoggedIn => if u.failedAttempts > 0 then User(0, None) else u
    case Crashed => u.(failedAttempts := n)
    case InvalidCredentials =>
      if n >= p.maxAttempts then User(n, Some(now + LockFor(p, n - p.maxAttempts)))
      else u.(failedAttempts := n)
  }

  class AuthService {
    const policy: Policy
    var users: map<string, User>

    constructor (policy: Policy)
      ensures this.policy == policy && users == map[]
    {
      this.policy := policy;
      users := map[];
    }

    /** `correct` is the outcome of the password check. */
    method Login(name: string, now: int, correct: bool) returns (outcome: Outcome)
      modifies this`users
      ensures name !in old(users) ==> outcome == InvalidCredentials && users == old(users)
      ensures name in old(users) ==>
        outcome == OutcomeOf(policy, old(users)[name], now, correct) &&
        users == old(users)[name := AfterAttempt(policy, old(users)[name], now, correct)]
    {
      if name !in users {
        return InvalidCredentials;
      }
      var user := users[name];
      if user.lockedUntil.Some? && now < user.lockedUntil.value {
        assert users == users[name := user];
        return Locked;
      }
      if !correct {
        user := user.(failedAttempts := user.failedAttempts + 1);
        users := users[name := user];
        if user.failedAttempts >= policy.maxAttempts {
          var duration := policy.lockSeconds;
          if policy.progressive && user.failedAttempts > policy.maxAttempts {
            if policy.maxAttempts == 0 {
              return Crashed;
            }
            var multiplier := Quotient(user.failedAttempts - policy.maxAttempts, policy.maxAttempts) + 1;
            duration := duration * multiplier;
          }
          user := user.(lockedUntil := Some(now + duration));
          users := users[name := user];
        }
        return InvalidCredentials;
      }
      if user.failedAttempts > 0 {
        user := User(0, None);
      }
      users := users[name := user];
      outcome := LoggedIn;
    }
  }

  // ---- Runs ----

  datatype Attempt = Attempt(now: int, correct: bool)

  /** A user together with the times of the wrong passwords checked since the last reset. */
  datatype Trace = Trace(user: User, wrong: seq<int>)

  ghost function Run(p: Policy, es: seq<Attempt>): Trace {
    if es == [] then Trace(User(0, None), []) else
    var t, e := Run(p, es[..|es| - 1]), es[|es| - 1];
    Trace(AfterAttempt(p, t.user, e.now, e.correct),
          match OutcomeOf(p, t.user, e.now, e.correct)
          case Locked => t.wrong
          case LoggedIn => []
          case InvalidCredentials => t.wrong + [e.now]
          case Crashed => t.wrong)
  }

  /** The total lock, in base units, of the first k locks. */
  ghost function Units(p: Policy, k: nat): int
    requires p.maxAttempts >= 1
  {
    if k == 0 then 0 else Units(p, k - 1) + Multiplier(p, k - 1)
  }

  /** The total length of the first k locks in seconds. */
  ghost function Wait(p: Policy, k: nat): int
    requires p.maxAttempts >= 1
  {
    if k == 0 then 0 else Wait(p, k - 1) + LockFor(p, k - 1)
  }

  lemma {:induction false} WaitInUnits(p: Policy, k: nat)
    requires p.maxAttempts >= 1
    ensures Wait(p, k) == p.lockSeconds * Units(p, k)
  {
    if k > 0 {
      hide Multiplier;
      WaitInUnits(p, k - 1);
      Distribute(p.lockSeconds, Units(p, k - 1), Multiplier(p, k - 1));
    }
  }

  lemma Distribute(l: int, u: int, m: int)
    ensures l * (u + m) == l * u + l * m
  {
  }

  /** An attempt rejected as locked changes neither the count nor the lock. */
  lemma LockedChangesNothing(p: Policy, u: User, now: int, correct: bool)
    requires OutcomeOf(p, u, now, correct) == Locked
    ensures AfterAttempt(p, u, now, correct) == u
  {
  }

  ghost predicate Spaced(p: Policy, wrong: seq<int>)
    requires p.maxAttempts >= 1
  {
    forall k :: 0 <= k && p.maxAttempts + k <= |wrong| ==>
      wrong[p.maxAttempts + k - 1] >= wrong[p.maxAttempts - 1] + Wait(p, k)
  }

  ghost predicate Inv(p: Policy, t: Trace)
    requires p.maxAttempts >= 1
  {
    var n, m := |t.wrong|, p.maxAttempts;
    && t.user.failedAttempts == n
    && Spaced(p, t.wrong)
    && (if n >= m then t.user.lockedUntil == Some(t.wrong[n - 1] + LockFor(p, n - m))
        else t.user.lockedUntil.None?)
  }

  lemma SpacedSnoc(p: Policy, wrong: seq<int>, now: int)
    requires p.maxAttempts >= 1 && Spaced(p, wrong)
    requires |wrong| >= p.maxAttempts ==> now >= wrong[|wrong| - 1] + LockFor(p, |wrong| - p.maxAttempts)
    ensures Spaced(p, wrong + [now])
  {
    hide LockFor;
    var m, w := p.maxAttempts, wrong + [now];
    forall k | 0 <= k && m + k <= |w| ensures w[m + k - 1] >= w[m - 1] + Wait(p, k) {
      if k > 0 {
        var j := k - 1;
        assert wrong[m + j - 1] >= wrong[m - 1] + Wait(p, j);
      }
    }
  }

  lemma {:induction false} RunInv(p: Policy, es: seq<Attempt>)
    requires p.maxAttempts >= 1
    ensures Inv(p, Run(p, es))
  {
    if es != [] {
      RunInv(p, es[..|es| - 1]);
      var t, e := Run(p, es[..|es| - 1]), es[|es| - 1];
      if OutcomeOf(p, t.user, e.now, e.correct) == InvalidCredentials {
        SpacedSnoc(p, t.wrong, e.now);
      }
    }
  }

  /**
   * In every run, the (maxAttempts + k)-th checked wrong password since the last reset comes at least the
   * sum of the first k locks after the maxAttempts-th.
   */
  lemma WrongPasswordsAreSpaced(p: Policy, es: seq<Attempt>, k: nat)
    requires p.maxAttempts >= 1 && p.maxAttempts + k <= |Run(p, es).wrong|
    ensures var w := Run(p, es).wrong;
            w[p.maxAttempts + k - 1] >= w[p.maxAttempts - 1] + p.lockSeconds * Units(p, k)
  {
    RunInv(p, es);
    WaitInUnits(p, k);
  }

  /** With a progressive policy the spacing after j full rounds of maxAttempts failures is quadratic in j. */
  lemma {:induction false} UnitsOfRounds(p: Policy, j: nat)
    requires p.maxAttempts >= 1 && p.progressive
    ensures 2 * Units(p, j * p.maxAttempts) == p.maxAttempts * j * (j + 1)
  {
    var m := p.maxAttempts;
    if j > 0 {
      UnitsOfRounds(p, j - 1);
      assert (j - 1) * m + m == j * m;
      UnitsOfRound(p, j - 1, m);
      RoundArithmetic(m, j, Units(p, (j - 1) * m), Units(p, j * m));
    }
  }

  lemma RoundArithmetic(m: int, j: int, before: int, after: int)
    requires 2 * before == m * (j - 1) * (j - 1 + 1) && after == before + m * (j - 1 + 1)
    ensures 2 * after == m * j * (j + 1)
  {
    var x, y := m * j * j, m * j;
    assert m * (j - 1) * j == x - y && m * j * (j + 1) == x + y;
  }

  lemma {:induction false} UnitsOfRound(p: Policy, j: nat, i: nat)
    requires p.maxAttempts >= 1 && p.progressive && i <= p.maxAttempts
    ensures j * p.maxAttempts >= 0 && Units(p, j * p.maxAttempts + i) == Units(p, j * p.maxAttempts) + i * (j + 1)
  {
    var m := p.maxAttempts;
    if i > 0 {
      UnitsOfRound(p, j, i - 1);
      QuotientInRound(j, m, i - 1);
      assert i * (j + 1) == (i - 1) * (j + 1) + (j + 1);
    }
  }

  lemma QuotientInRound(j: nat, m: nat, r: nat)
    requires m >= 1 && r < m
    ensures j * m >= 0 && (j * m + r) / m == j
  {
    var a := j * m + r;
    var q, rem := a / m, a % m;
    assert a == m * q + rem;
    assert m * (q - j) == r - rem;
    SmallMultiple(m, q - j);
  }

  lemma SmallMultiple(m: int, d: int)
    requires m > 0 && -m < m * d < m
    ensures d == 0
  {
  }

  /** The lock doubles from the first round of failures to the second, and never again. */
  lemma DoublesOnlyOnce(p: Policy, j: nat)
    requires p.maxAttempts >= 1 && p.progressive
    ensures j * p.maxAttempts >= 0 && (j + 1) * p.maxAttempts >= 0
    ensures Multiplier(p, (j + 1) * p.maxAttempts) == 2 * Multiplier(p, j * p.maxAttempts) <==> j == 0
  {
    QuotientInRound(j, p.maxAttempts, 0);
    QuotientInRound(j + 1, p.maxAttempts, 0);
    hide *;
    RoundMultiplier(p, j);
    RoundMultiplier(p, j + 1);
  }

  lemma RoundMultiplier(p: Policy, j: nat)
    requires p.maxAttempts >= 1 && p.progressive
    ensures j * p.maxAttempts >= 0 && Multiplier(p, j * p.maxAttempts) == j + 1
  {
    QuotientInRound(j, p.maxAttempts, 0);
  }

  // ---- The configured policy ----

  /** What loading the configuration makes of a policy: absent values get their defaults. */
  function Configured(p: Policy): (q: Policy)
    ensures q.maxAttempts != 0 && q.lockSeconds != 0 && q.progressive == p.progressive
    ensures p.maxAttempts != 0 ==> q.maxAttempts == p.maxAttempts
  {
    Policy(if p.maxAttempts == 0 then 5 else p.maxAttempts, if p.lockSeconds == 0 then 900 else p.lockSeconds, p.progressive)
  }

  /** No configuration makes a login divide by zero. */
  lemma ConfiguredNeverCrashes(p: Policy, u: User, now: int, correct: bool)
    ensures OutcomeOf(Configured(p), u, now, correct) != Crashed
  {
  }

  /** A wrong password at or past the limit leaves the account locked at that moment. */
  ghost predicate EveryFailureLocks(p: Policy) {
    forall u: User, now :: OutcomeOf(p, u, now, false) == InvalidCredentials && u.failedAttempts + 1 >= p.maxAttempts ==>
      OutcomeOf(p, AfterAttempt(p, u, now, false), now, false) == Locked
  }

  lemma NegativeMultiplier(p: Policy, n: nat)
    requires p.progressive && p.maxAttempts < 0 && n >= 1
    ensures Multiplier(p, n - p.maxAttempts) <= 0
  {
    var m := -p.maxAttempts;
    var q, r := (n + m) / m, (n + m) % m;
    assert n + m == m * q + r;
    AtLeastOnce(m, q, r, n);
  }

  lemma AtLeastOnce(m: int, q: int, r: int, n: int)
    requires m >= 1 && n >= 1 && 0 <= r < m && n + m == m * q + r
    ensures q >= 1
  {
    if q <= 0 {
      NonPositive(m, q);
    }
  }

  lemma NonPositive(m: int, q: int)
    requires m >= 1 && q <= 0
    ensures m * q <= 0
  {
  }

  lemma PositiveMultiplier(p: Policy, i: nat)
    requires !p.progressive || p.maxAttempts > 0
    ensures Multiplier(p, i) >= 1
  {
  }

  lemma PositiveProduct(a: int, b: int)
    requires a > 0
    ensures b >= 1 ==> a * b > 0
    ensures b <= 0 ==> a * b <= 0
  {
  }

  /** With a positive lock, failures at or past the limit lock exactly when the policy is not progressive with a negative limit. */
  lemma EveryFailureLocksIff(p: Policy)
    requires p.lockSeconds > 0 && p.maxAttempts != 0
    ensures EveryFailureLocks(p) <==> !p.progressive || p.maxAttempts > 0
  {
    if !p.progressive || p.maxAttempts > 0 {
      forall u: User, now | OutcomeOf(p, u, now, false) == InvalidCredentials && u.failedAttempts + 1 >= p.maxAttempts
        ensures OutcomeOf(p, AfterAttempt(p, u, now, false), now, false) == Locked
      {
        var i := u.failedAttempts + 1 - p.maxAttempts;
        PositiveMultiplier(p, i);
        hide Multiplier;
        PositiveProduct(p.lockSeconds, Multiplier(p, i));
      }
    } else {
      var u := User(0, None);
      NegativeMultiplier(p, 1);
      hide Multiplier;
      PositiveProduct(p.lockSeconds, Multiplier(p, 1 - p.maxAttempts));
      assert OutcomeOf(p, u, 0, false) == InvalidCredentials;
      assert OutcomeOf(p, AfterAttempt(p, u, 0, false), 0, false) != Locked;
    }
  }

  // ---- Whether an account is ever locked ----

  ghost predicate InOrder(es: seq<Attempt>) { forall i, j :: 0 <= i < j < |es| ==> es[i].now <= es[j].now }

  /** Some run in time order ends with an attempt that is rejected as locked. */
  ghost predicate CanLock(p: Policy) {
    exists es: seq<Attempt> :: es != [] && InOrder(es) && RejectsLast(p, es)
  }

  ghost predicate RejectsLast(p: Policy, es: seq<Attempt>)
    requires es != []
  {
    var t, e := Run(p, es[..|es| - 1]), es[|es| - 1];
    OutcomeOf(p, t.user, e.now, e.correct) == Locked
  }

  /** A progressive policy with a negative limit sets its locks in the past. */
  lemma {:induction false} LocksInThePast(p: Policy, es: seq<Attempt>)
    requires p.progressive && p.maxAttempts < 0 && p.lockSeconds > 0 && InOrder(es)
    ensures var u := Run(p, es).user; u.lockedUntil.Some? ==> es != [] && u.lockedUntil.value <= es[|es| - 1].now
  {
    if es != [] {
      var front, e := es[..|es| - 1], es[|es| - 1];
      LocksInThePast(p, front);
      var u := Run(p, front).user;
      NegativeMultiplier(p, u.failedAttempts + 1);
      hide Multiplier;
      PositiveProduct(p.lockSeconds, Multiplier(p, u.failedAttempts + 1 - p.maxAttempts));
    }
  }

  /** Wrong passwords at one moment are counted until the limit is reached. */
  lemma {:induction false} WrongAtZero(p: Policy, k: nat)
    requires !p.progressive || p.maxAttempts > 0
    requires k <= (if p.maxAttempts >= 1 then p.maxAttempts else 1)
    ensures var u := Run(p, seq(k, _ => Attempt(0, false))).user;
            && u.failedAttempts == k
            && u.lockedUntil == if k >= p.maxAttempts && k >= 1 then Some(p.lockSeconds) else None
  {
    var es := seq(k, _ => Attempt(0, false));
    if k > 0 {
      WrongAtZero(p, k - 1);
      assert es[..k - 1] == seq(k - 1, _ => Attempt(0, false));
    }
  }

  /** For every configured policy with a positive lock, accounts can be locked exactly when it is not progressive with a negative limit. */
  lemma CanLockIff(p: Policy)
    requires Configured(p).lockSeconds > 0
    ensures CanLock(Configured(p)) <==> !p.progressive || p.maxAttempts >= 0
  {
    var q := Configured(p);
    if q.progressive && q.maxAttempts < 0 {
      forall es: seq<Attempt> | es != [] && InOrder(es) ensures !RejectsLast(q, es) {
        LocksInThePast(q, es[..|es| - 1]);
      }
    } else {
      var k := if q.maxAttempts >= 1 then q.maxAttempts else 1;
      WrongAtZero(q, k);
      var es := seq(k + 1, _ => Attempt(0, false));
      assert es[..k] == seq(k, _ => Attempt(0, false));
      assert RejectsLast(q, es);
    }
  }

  /** An input: with a limit of -1 and progressive locks of 15 minutes, two wrong passwords at one moment are both checked. */
  lemma NegativeLimitNeverLocks()
    ensures var p := Policy(-1, 900, true);
            && Configured(p) == p && !CanLock(p)
            && Run(p, [Attempt(0, false), Attempt(0, false)]).wrong == [0, 0]
  {
    var p := Policy(-1, 900, true);
    CanLockIff(p);
    var one := [Attempt(0, false)];
    assert [Attempt(0, false), Attempt(0, false)][..1] == one && one[..0] == [];
    assert Run(p, one) == Trace(User(1, Some(0 + LockFor(p, 2))), [0]);
    assert LockFor(p, 2) == -900;
  }

  // ---- What each attempt comes to ----

  /** The account takes no attempts at that moment. */
  predicate IsLocked(u: User, now: int) { u.lockedUntil.Some? && u.lockedUntil.value > now }

  /** A correct password on an unlocked account logs in and clears the count and, with it, the lock. */
  lemma CorrectPasswordLogsIn(p: Policy, u: User, now: int)
    ensures OutcomeOf(p, u, now, true) == if IsLocked(u, now) then Locked else LoggedIn
    ensures !IsLocked(u, now) ==>
      var u' := AfterAttempt(p, u, now, true);
      u'.failedAttempts == 0 && (u.failedAttempts > 0 ==> u'.lockedUntil.None?) && !IsLocked(u', now)
  {
  }

  /** A wrong password on an unlocked account is counted, and below the limit it changes nothing else. */
  lemma WrongPasswordCounts(p: Policy, u: User, now: int)
    requires Divides(p) && !IsLocked(u, now)
    ensures OutcomeOf(p, u, now, false) == InvalidCredentials
    ensures var u' := AfterAttempt(p, u, now, false);
            && u'.failedAttempts == u.failedAttempts + 1
            && (if u'.failedAttempts < p.maxAttempts then u'.lockedUntil == u.lockedUntil
                else u'.lockedUntil == Some(now + LockFor(p, u'.failedAttempts - p.maxAttempts)))
  {
  }

  /** The i-th failure of round r past the limit: r + 1 base locks with a progressive policy, and one without. */
  lemma LockLengths(p: Policy, r: nat, i: nat)
    requires p.maxAttempts >= 1 && i < p.maxAttempts
    ensures r * p.maxAttempts + i >= 0
    ensures LockFor(p, r * p.maxAttempts + i) == if p.progressive then p.lockSeconds * (r + 1) else p.lockSeconds
  {
    QuotientInRound(r, p.maxAttempts, i);
  }
}
