/** The login limiter of the web panel: a counting window per address, and a lock once it holds too many failures. */
module LoginLimiter {
  import opened Prelude

  /** Times are in ticks. */
  const SECOND := 1_000_000
  const MAX_ADDRESSES := 20_000

  datatype Limits = Limits(maxFails: nat, window: nat, lock: nat)

  datatype Attempt = Attempt(fails: nat, lockedUntil: nat, windowStart: nat)

  type Table = map<string, Attempt>

  // --- what the methods compute ------------------------------------------------------------

  /** Whole seconds, rounded down: the last fraction of a second of a lock reads as no lock. */
  function LockedSeconds(s: Table, ip: string, now: nat): nat {
    if ip in s && s[ip].lockedUntil > now then (s[ip].lockedUntil - now) / SECOND else 0
  }

  /** The record after a failure at `now`; a new record starts its window at its own creation time. */
  function Counted(l: Limits, s: Table, ip: string, now: nat, created: nat): Attempt {
    var a := if ip in s then s[ip] else Attempt(0, 0, created);
    var b := if now - a.windowStart > l.window then Attempt(0, a.lockedUntil, now) else a;
    if b.fails + 1 >= l.maxFails then Attempt(0, now + l.lock, now) else b.(fails := b.fails + 1)
  }

  function RecordFailure(l: Limits, s: Table, ip: string, now: nat, created: nat): Table {
    var t := s[ip := Counted(l, s, ip, now, created)];
    if |t| > MAX_ADDRESSES then map[] else t
  }

  function RecordSuccess(s: Table, ip: string): Table {
    s - {ip}
  }

  class LoginRateLimiter {
    const limits: Limits
    var byIp: Table

    constructor (l: Limits)
      ensures limits == l && byIp == map[]
    {
      limits, byIp := l, map[];
    }

    method LockedFor(ip: string, now: nat) returns (seconds: nat)
      ensures seconds == LockedSeconds(byIp, ip, now)
    {
      if ip !in byIp {
        return 0;
      }
      var a := byIp[ip];
      if a.lockedUntil > now {
        return (a.lockedUntil - now) / SECOND;
      }
      seconds := 0;
    }

    method Fail(ip: string, now: nat, created: nat)
      modifies this
      ensures byIp == RecordFailure(limits, old(byIp), ip, now, created)
    {
      var a := if ip in byIp then byIp[ip] else Attempt(0, 0, created);
      if now - a.windowStart > limits.window {
        a := a.(windowStart := now, fails := 0);
      }
      a := a.(fails := a.fails + 1);
      if a.fails >= limits.maxFails {
        a := Attempt(0, now + limits.lock, now);
      }
      byIp := byIp[ip := a];
      if |byIp| > MAX_ADDRESSES {
        byIp := map[];
      }
    }

    method Succeed(ip: string)
      modifies this
      ensures byIp == RecordSuccess(old(byIp), ip)
    {
      byIp := byIp - {ip};
    }
  }

  // --- runs --------------------------------------------------------------------------------------

  /** A failed attempt, admitted by a lock check at `checked` that saw what the first `seen` steps had left, and
      recorded at `at`; or a successful one. */
  datatype Step =
    | Failure(ip: string, seen: nat, checked: nat, at: nat, created: nat)
    | Success(ip: string, at: nat, created: nat)

  function Next(l: Limits, s: Table, st: Step): Table {
    match st
    case Failure(ip, _, _, at, created) => RecordFailure(l, s, ip, at, created)
    case Success(ip, _, _) => RecordSuccess(s, ip)
  }

  function After(l: Limits, steps: seq<Step>, k: nat): Table
    requires k <= |steps|
  {
    if k == 0 then map[] else Next(l, After(l, steps, k - 1), steps[k - 1])
  }

  /** The step happens in order, and a failure was admitted by its check. */
  predicate Admitted(l: Limits, steps: seq<Step>, k: nat)
    requires k < |steps|
  {
    var st := steps[k];
    && st.at <= st.created
    && (k > 0 ==> steps[k - 1].created <= st.at)
    && (st.Failure? ==>
          && st.seen <= k && st.checked <= steps[st.seen].at
          && (st.seen > 0 ==> steps[st.seen - 1].created <= st.checked)
          && st.checked <= st.at && LockedSeconds(After(l, steps, st.seen), st.ip, st.checked) == 0)
  }

  /** Attempts from any addresses, which may overlap: the handler awaits the form between the check and the record. */
  ghost predicate IsRun(l: Limits, steps: seq<Step>) {
    forall k :: 0 <= k < |steps| ==> Admitted(l, steps, k)
  }

  predicate InFlightAt(st: Step, ip: string, k: nat) {
    st.Failure? && st.ip == ip && st.seen <= k
  }

  /** Failures of the address among steps k to n that were checked before step k: when step k is taken they are all
      between their check and their record. */
  function InFlight(steps: seq<Step>, ip: string, k: nat, n: nat): nat
    requires k <= n <= |steps|
  {
    if k == n then 0 else InFlight(steps, ip, k, n - 1) + if InFlightAt(steps[n - 1], ip, k) then 1 else 0
  }

  /** Never more than q attempts of the address are in flight; with q == 1 they do not overlap. */
  ghost predicate AtMostInFlight(steps: seq<Step>, ip: string, q: nat) {
    forall k :: 0 <= k <= |steps| ==> InFlight(steps, ip, k, |steps|) <= q
  }

  // --- the bound -----------------------------------------------------------------------------------

  predicate Within(l: Limits, st: Step, t: nat) {
    t <= st.at <= t + l.window
  }

  predicate Counts(l: Limits, st: Step, ip: string, t: nat) {
    st.Failure? && st.ip == ip && Within(l, st, t)
  }

  /** The step leaves no record of the address although it had one, or just made one. */
  predicate Forgets(l: Limits, s: Table, st: Step, ip: string) {
    ip !in Next(l, s, st) && (ip in s || (st.Failure? && st.ip == ip))
  }

  /** Failures of the address recorded in [t, t + window] during the first k steps. */
  function FailuresIn(l: Limits, steps: seq<Step>, k: nat, ip: string, t: nat): nat
    requires k <= |steps|
  {
    if k == 0 then 0 else FailuresIn(l, steps, k - 1, ip, t) + if Counts(l, steps[k - 1], ip, t) then 1 else 0
  }

  /** How often the record was lost in that interval, by a success or by emptying the table. */
  function ForgetsIn(l: Limits, steps: seq<Step>, k: nat, ip: string, t: nat): nat
    requires k <= |steps|
  {
    if k == 0 then 0
    else ForgetsIn(l, steps, k - 1, ip, t)
         + if Within(l, steps[k - 1], t) && Forgets(l, After(l, steps, k - 1), steps[k - 1], ip) then 1 else 0
  }

  /** Failures counted by `FailuresIn` since the last loss counted by `ForgetsIn`. */
  function Since(l: Limits, steps: seq<Step>, k: nat, ip: string, t: nat): nat
    requires k <= |steps|
  {
    if k == 0 then 0
    else if Within(l, steps[k - 1], t) && Forgets(l, After(l, steps, k - 1), steps[k - 1], ip) then 0
    else Since(l, steps, k - 1, ip, t) + if Counts(l, steps[k - 1], ip, t) then 1 else 0
  }

  predicate LongLock(l: Limits) {
    l.maxFails >= 1 && l.lock >= l.window + SECOND
  }

  /** A window that a lock has opened can be filled by attempts in flight, and over before the lock is. */
  predicate OutlivesLock(l: Limits, q: nat) {
    q >= l.maxFails && l.lock < 2 * l.window + SECOND
  }

  /** Failures that the interval can have from before the window that locks in it: those of a full window, all but its
      first unless a lock opened it. */
  function Carry(l: Limits, q: nat): nat
    requires l.maxFails >= 1 && q >= 1
  {
    if l.maxFails == 1 || OutlivesLock(l, q) then l.maxFails - 1 else l.maxFails - 2
  }

  /** That carry, the max_fails failures that lock, and the other attempts that are in flight then. */
  function Most(l: Limits, q: nat): nat
    requires l.maxFails >= 1 && q >= 1
  {
    Carry(l, q) + l.maxFails + q - 1
  }

  lemma {:induction false} InOrder(l: Limits, steps: seq<Step>, j: nat, k: nat)
    requires IsRun(l, steps) && j <= k < |steps|
    ensures steps[j].at <= steps[k].at
  {
    hide After;
    if j < k {
      InOrder(l, steps, j, k - 1);
      assert Admitted(l, steps, k - 1) && Admitted(l, steps, k);
    }
  }

  lemma {:induction false} InFlightGrows(steps: seq<Step>, ip: string, k: nat, m: nat, n: nat)
    requires k <= m <= n <= |steps|
    ensures InFlight(steps, ip, k, m) <= InFlight(steps, ip, k, n)
  {
    if m < n {
      InFlightGrows(steps, ip, k, m, n - 1);
    }
  }

  /** A failure of the address at step `at`, and from then up to step n its record is locked until `until`. */
  ghost predicate LockHolds(l: Limits, steps: seq<Step>, at: nat, n: nat, ip: string, until: nat)
    requires n <= |steps|
  {
    && at < n && steps[at].Failure? && steps[at].ip == ip
    && forall m :: at < m <= n ==> ip in After(l, steps, m) && After(l, steps, m)[ip].lockedUntil >= until
  }

  /** A failure recorded under a lock, more than the rounding before its end, was in flight when the lock began. */
  lemma LateFailureWasInFlight(l: Limits, steps: seq<Step>, at: nat, k: nat, ip: string, until: nat)
    requires k < |steps| && Admitted(l, steps, k) && steps[k].Failure? && steps[k].ip == ip
    requires LockHolds(l, steps, at, k, ip, until) && steps[k].at + SECOND <= until
    ensures InFlightAt(steps[k], ip, at)
    ensures InFlight(steps, ip, at, k + 1) == InFlight(steps, ip, at, k) + 1
  {
    hide After;
  }

  lemma LockExtends(l: Limits, steps: seq<Step>, at: nat, n: nat, ip: string, until: nat)
    requires n < |steps| && LockHolds(l, steps, at, n, ip, until)
    requires ip in After(l, steps, n + 1) && steps[n].at + l.lock >= until
    ensures LockHolds(l, steps, at, n + 1, ip, until)
  {
    var e := After(l, steps, n + 1);
    assert e == Next(l, After(l, steps, n), steps[n]);
    assert e[ip].lockedUntil >= until by { LockOnlyGrows(l, After(l, steps, n), steps[n], ip, until); }
    hide After;
  }

  lemma LockOnlyGrows(l: Limits, s: Table, st: Step, ip: string, until: nat)
    requires ip in s && s[ip].lockedUntil >= until && ip in Next(l, s, st) && st.at + l.lock >= until
    ensures Next(l, s, st)[ip].lockedUntil >= until
  {
  }

  // --- what the record of an address says about its failures so far in [t, t + window] ---------------

  /** Its window began before t, and the first failure of the window does not count. */
  predicate BeganBefore(a: Attempt, since: nat, t: nat) {
    a.windowStart < t && since < a.fails
  }

  /** Its window began before t with a lock; only attempts in flight then have been recorded since. */
  ghost predicate OldLock(l: Limits, steps: seq<Step>, n: nat, ip: string, since: nat, t: nat, at: nat)
    requires n <= |steps|
  {
    && at < n && LockHolds(l, steps, at, n, ip, steps[at].at + l.lock) && steps[at].at < t
    && var a := After(l, steps, n)[ip];
       && a.windowStart == steps[at].at && since <= a.fails && since < InFlight(steps, ip, at, n)
       && (since > 0 ==> t <= steps[at].at + l.window)
  }

  /** Its window began in the interval. */
  predicate BeganInside(l: Limits, a: Attempt, since: nat, t: nat, q: nat)
    requires l.maxFails >= 1 && q >= 1
  {
    a.windowStart >= t && since <= Carry(l, q) + a.fails
  }

  /** A lock covers the rest of the interval; only attempts in flight at its start have been recorded since. */
  ghost predicate NewLock(l: Limits, steps: seq<Step>, n: nat, ip: string, since: nat, t: nat, q: nat, at: nat)
    requires n <= |steps| && l.maxFails >= 1 && q >= 1
  {
    && at < n && LockHolds(l, steps, at, n, ip, t + l.window + SECOND)
    && 0 < since < Carry(l, q) + l.maxFails + InFlight(steps, ip, at, n)
  }

  ghost predicate Explained(l: Limits, steps: seq<Step>, n: nat, ip: string, since: nat, t: nat, q: nat)
    requires n <= |steps| && l.maxFails >= 1 && q >= 1
  {
    var s := After(l, steps, n);
    if ip !in s then since == 0
    else
      && s[ip].fails < l.maxFails
      && (|| BeganBefore(s[ip], since, t)
          || (exists at :: OldLock(l, steps, n, ip, since, t, at))
          || BeganInside(l, s[ip], since, t, q)
          || (exists at :: NewLock(l, steps, n, ip, since, t, q, at)))
  }

  /** Whatever the record says, there were not too many. */
  lemma ExplainedIsBounded(l: Limits, steps: seq<Step>, n: nat, ip: string, since: nat, t: nat, q: nat)
    requires n <= |steps| && LongLock(l) && q >= 1 && AtMostInFlight(steps, ip, q)
    requires Explained(l, steps, n, ip, since, t, q)
    ensures since <= Most(l, q)
  {
    hide After, LockHolds, InFlight;
    if at: nat :| NewLock(l, steps, n, ip, since, t, q, at) {
      InFlightGrows(steps, ip, at, n, |steps|);
      assert InFlight(steps, ip, at, |steps|) <= q;
    }
  }

  // --- one step -------------------------------------------------------------------------------------

  predicate Lost(l: Limits, steps: seq<Step>, n: nat, ip: string)
    requires n < |steps|
  {
    ip !in After(l, steps, n + 1)
  }

  /** A failure that locks. */
  lemma LockBegins(l: Limits, steps: seq<Step>, n: nat, ip: string, since: nat, t: nat, q: nat)
    requires n < |steps| && IsRun(l, steps) && LongLock(l) && q >= 1 && !Lost(l, steps, n, ip)
    requires steps[n].Failure? && steps[n].ip == ip
    requires After(l, steps, n + 1)[ip] == Attempt(0, steps[n].at + l.lock, steps[n].at)
    requires if steps[n].at < t then since == 0 else 0 < since <= Carry(l, q) + l.maxFails
    ensures Explained(l, steps, n + 1, ip, since, t, q)
  {
    hide After, Carry;
    assert Admitted(l, steps, n);
    assert InFlight(steps, ip, n, n) == 0 && InFlight(steps, ip, n, n + 1) == 1;
    if steps[n].at < t {
      assert OldLock(l, steps, n + 1, ip, since, t, n);
    } else {
      assert NewLock(l, steps, n + 1, ip, since, t, q, n);
    }
  }

  /** The failures that an old lock leaves for the interval, unless it covers the rest of it. */
  lemma OldLockCarries(l: Limits, steps: seq<Step>, n: nat, ip: string, since: nat, t: nat, q: nat, at: nat)
    requires n <= |steps| && LongLock(l) && q >= 1 && AtMostInFlight(steps, ip, q)
    requires OldLock(l, steps, n, ip, since, t, at) && After(l, steps, n)[ip].fails < l.maxFails
    ensures since < l.maxFails && (since <= Carry(l, q) || NewLock(l, steps, n, ip, since, t, q, at))
  {
    hide After, InFlight;
    InFlightGrows(steps, ip, at, n, |steps|);
    assert InFlight(steps, ip, at, |steps|) <= q;
  }

  /** What a failure does to the record, in the cases of the limiter. */
  lemma CountedCases(l: Limits, steps: seq<Step>, n: nat, ip: string)
    requires n < |steps| && steps[n].Failure? && steps[n].ip == ip && !Lost(l, steps, n, ip)
    ensures var s, e, st := After(l, steps, n), After(l, steps, n + 1)[ip], steps[n];
            var a := if ip in s then s[ip] else Attempt(0, 0, st.created);
            var over := st.at - a.windowStart > l.window;
            var fails := (if over then 0 else a.fails) + 1;
            e == if fails >= l.maxFails then Attempt(0, st.at + l.lock, st.at)
                 else Attempt(fails, a.lockedUntil, if over then st.at else a.windowStart)
  {
    assert After(l, steps, n + 1) == Next(l, After(l, steps, n), steps[n]);
  }

  /** A failure of the address with no lock in the interval so far. */
  lemma FailureUnlocked(l: Limits, steps: seq<Step>, n: nat, ip: string, since: nat, t: nat, q: nat)
    requires n < |steps| && IsRun(l, steps) && LongLock(l) && q >= 1 && AtMostInFlight(steps, ip, q)
    requires steps[n].Failure? && steps[n].ip == ip && !Lost(l, steps, n, ip)
    requires steps[n].at <= t + l.window && (steps[n].at < t ==> since == 0)
    requires var s := After(l, steps, n);
             if ip !in s then since == 0
             else s[ip].fails < l.maxFails && (BeganBefore(s[ip], since, t) || BeganInside(l, s[ip], since, t, q))
    ensures Explained(l, steps, n + 1, ip, since + (if steps[n].at >= t then 1 else 0), t, q)
  {
    hide After, OldLock, NewLock, AtMostInFlight;
    assert Admitted(l, steps, n);
    CountedCases(l, steps, n, ip);
    var e := After(l, steps, n + 1)[ip];
    if e.fails == 0 {
      LockBegins(l, steps, n, ip, since + (if steps[n].at >= t then 1 else 0), t, q);
    }
  }

  /** A failure of the address whose window began with a lock before the interval. */
  lemma FailureAfterOldLock(l: Limits, steps: seq<Step>, n: nat, ip: string, since: nat, t: nat, q: nat, at: nat)
    requires n < |steps| && IsRun(l, steps) && LongLock(l) && q >= 1 && AtMostInFlight(steps, ip, q)
    requires steps[n].Failure? && steps[n].ip == ip && !Lost(l, steps, n, ip)
    requires steps[n].at <= t + l.window && (steps[n].at < t ==> since == 0)
    requires OldLock(l, steps, n, ip, since, t, at) && After(l, steps, n)[ip].fails < l.maxFails
    ensures Explained(l, steps, n + 1, ip, since + (if steps[n].at >= t then 1 else 0), t, q)
  {
    hide After, NewLock, LockHolds, AtMostInFlight, InFlight, Carry;
    var st, now := steps[n], since + (if steps[n].at >= t then 1 else 0);
    assert Admitted(l, steps, n);
    assert ip in After(l, steps, n) by { HeldIsThere(l, steps, at, n, ip, steps[at].at + l.lock); }
    CountedCases(l, steps, n, ip);
    OldLockCarries(l, steps, n, ip, since, t, q, at);
    var e := After(l, steps, n + 1)[ip];
    if NewLock(l, steps, n, ip, since, t, q, at) {
      SinceIsPositive(l, steps, n, ip, since, t, q, at);
      FailureAfterNewLock(l, steps, n, ip, since, t, q, at);
    } else if e.fails == 0 {
      hide OldLock;
      LockBegins(l, steps, n, ip, now, t, q);
    } else if st.at - steps[at].at <= l.window {
      StillInFlight(l, steps, n, ip, since, t, at);
    } else if st.at < t {
      assert BeganBefore(e, now, t);
    } else {
      assert BeganInside(l, e, now, t, q);
    }
  }

  /** Within the window of the old lock the failure was in flight when it began. */
  lemma StillInFlight(l: Limits, steps: seq<Step>, n: nat, ip: string, since: nat, t: nat, at: nat)
    requires n < |steps| && IsRun(l, steps) && LongLock(l)
    requires steps[n].Failure? && steps[n].ip == ip && !Lost(l, steps, n, ip) && (steps[n].at < t ==> since == 0)
    requires OldLock(l, steps, n, ip, since, t, at) && After(l, steps, n)[ip].fails < l.maxFails
    requires steps[n].at - steps[at].at <= l.window && After(l, steps, n + 1)[ip].fails != 0
    ensures OldLock(l, steps, n + 1, ip, since + (if steps[n].at >= t then 1 else 0), t, at)
  {
    hide After, LockHolds, InFlight;
    assert Admitted(l, steps, n);
    assert ip in After(l, steps, n) by { HeldIsThere(l, steps, at, n, ip, steps[at].at + l.lock); }
    CountedCases(l, steps, n, ip);
    InOrder(l, steps, at, n);
    LateFailureWasInFlight(l, steps, at, n, ip, steps[at].at + l.lock);
    LockExtends(l, steps, at, n, ip, steps[at].at + l.lock);
  }

  lemma SinceIsPositive(l: Limits, steps: seq<Step>, n: nat, ip: string, since: nat, t: nat, q: nat, at: nat)
    requires n <= |steps| && l.maxFails >= 1 && q >= 1 && NewLock(l, steps, n, ip, since, t, q, at)
    ensures since > 0
  {
    hide LockHolds, Carry, InFlight;
  }

  lemma HeldIsThere(l: Limits, steps: seq<Step>, at: nat, n: nat, ip: string, until: nat)
    requires n <= |steps| && LockHolds(l, steps, at, n, ip, until)
    ensures ip in After(l, steps, n) && After(l, steps, n)[ip].lockedUntil >= until
  {
    hide After;
  }

  /** A failure of the address after a lock in the interval. */
  lemma FailureAfterNewLock(l: Limits, steps: seq<Step>, n: nat, ip: string, since: nat, t: nat, q: nat, at: nat)
    requires n < |steps| && IsRun(l, steps) && LongLock(l) && q >= 1
    requires steps[n].Failure? && steps[n].ip == ip && !Lost(l, steps, n, ip)
    requires t <= steps[n].at <= t + l.window
    requires NewLock(l, steps, n, ip, since, t, q, at) && After(l, steps, n)[ip].fails < l.maxFails
    ensures Explained(l, steps, n + 1, ip, since + 1, t, q)
  {
    hide After, OldLock, LockHolds, InFlight, Carry;
    assert Admitted(l, steps, n);
    assert ip in After(l, steps, n) by { HeldIsThere(l, steps, at, n, ip, t + l.window + SECOND); }
    CountedCases(l, steps, n, ip);
    LateFailureWasInFlight(l, steps, at, n, ip, t + l.window + SECOND);
    LockExtends(l, steps, at, n, ip, t + l.window + SECOND);
    assert NewLock(l, steps, n + 1, ip, since + 1, t, q, at);
  }

  /** A step that leaves the record of the address as it is. */
  lemma OtherStep(l: Limits, steps: seq<Step>, n: nat, ip: string, since: nat, t: nat, q: nat)
    requires n < |steps| && IsRun(l, steps) && LongLock(l) && q >= 1
    requires (steps[n].Success? || steps[n].ip != ip) && (steps[n].at < t ==> since == 0)
    requires !Lost(l, steps, n, ip) && Explained(l, steps, n, ip, since, t, q)
    ensures Explained(l, steps, n + 1, ip, since, t, q)
  {
    OthersKept(l, steps, n, ip);
    hide After, LockHolds, Carry;
    var s := After(l, steps, n);
    if at: nat :| OldLock(l, steps, n, ip, since, t, at) {
      InOrder(l, steps, at, n);
      LockExtends(l, steps, at, n, ip, steps[at].at + l.lock);
      assert OldLock(l, steps, n + 1, ip, since, t, at);
    } else if at: nat :| NewLock(l, steps, n, ip, since, t, q, at) {
      LockExtends(l, steps, at, n, ip, t + l.window + SECOND);
      assert NewLock(l, steps, n + 1, ip, since, t, q, at);
    }
  }

  lemma OthersKept(l: Limits, steps: seq<Step>, n: nat, ip: string)
    requires n < |steps| && (steps[n].Success? || steps[n].ip != ip) && !Lost(l, steps, n, ip)
    ensures ip in After(l, steps, n) && After(l, steps, n + 1)[ip] == After(l, steps, n)[ip]
  {
    assert After(l, steps, n + 1) == Next(l, After(l, steps, n), steps[n]);
  }

  lemma StepExplained(l: Limits, steps: seq<Step>, n: nat, ip: string, since: nat, t: nat, q: nat)
    requires n < |steps| && IsRun(l, steps) && LongLock(l) && q >= 1 && AtMostInFlight(steps, ip, q)
    requires steps[n].at <= t + l.window && (steps[n].at < t ==> since == 0) && !Lost(l, steps, n, ip)
    requires Explained(l, steps, n, ip, since, t, q)
    ensures Explained(l, steps, n + 1, ip, since + (if Counts(l, steps[n], ip, t) then 1 else 0), t, q)
  {
    hide After, OldLock, NewLock, BeganBefore, BeganInside, IsRun, AtMostInFlight;
    if steps[n].Success? || steps[n].ip != ip {
      OtherStep(l, steps, n, ip, since, t, q);
    } else if at: nat :| ip in After(l, steps, n) && OldLock(l, steps, n, ip, since, t, at) {
      FailureAfterOldLock(l, steps, n, ip, since, t, q, at);
    } else if at: nat :| ip in After(l, steps, n) && NewLock(l, steps, n, ip, since, t, q, at) {
      SinceIsPositive(l, steps, n, ip, since, t, q, at);
      FailureAfterNewLock(l, steps, n, ip, since, t, q, at);
    } else {
      FailureUnlocked(l, steps, n, ip, since, t, q);
    }
  }

  /** Losing the record costs nothing but a new start, even by the very failure that fills the table. */
  lemma BeforeLoss(l: Limits, steps: seq<Step>, n: nat, ip: string, since: nat, t: nat, q: nat)
    requires n < |steps| && IsRun(l, steps) && LongLock(l) && q >= 1 && AtMostInFlight(steps, ip, q)
    requires steps[n].at <= t + l.window && (steps[n].at < t ==> since == 0)
    requires Explained(l, steps, n, ip, since, t, q)
    ensures since + (if Counts(l, steps[n], ip, t) then 1 else 0) <= Most(l, q)
  {
    hide After, LockHolds;
    if at: nat :| ip in After(l, steps, n) && NewLock(l, steps, n, ip, since, t, q, at) {
      InFlightGrows(steps, ip, at, n, |steps|);
      assert InFlight(steps, ip, at, |steps|) <= q;
      if Counts(l, steps[n], ip, t) {
        assert Admitted(l, steps, n);
        LateFailureWasInFlight(l, steps, at, n, ip, t + l.window + SECOND);
        InFlightGrows(steps, ip, at, n + 1, |steps|);
      }
    } else if at: nat :| ip in After(l, steps, n) && OldLock(l, steps, n, ip, since, t, at) {
      OldLockCarries(l, steps, n, ip, since, t, q, at);
    }
  }

  // --- runs -------------------------------------------------------------------------------------------

  lemma {:induction false} RunExplained(l: Limits, steps: seq<Step>, n: nat, ip: string, t: nat, q: nat)
    requires IsRun(l, steps) && n <= |steps| && LongLock(l) && q >= 1 && AtMostInFlight(steps, ip, q)
    ensures var since := Since(l, steps, n, ip, t);
            && FailuresIn(l, steps, n, ip, t) <= ForgetsIn(l, steps, n, ip, t) * Most(l, q) + since
            && since <= Most(l, q)
            && (n > 0 && steps[n - 1].at < t ==> since == 0)
            && (n == 0 || steps[n - 1].at <= t + l.window ==> Explained(l, steps, n, ip, since, t, q))
  {
    hide After, Explained, Most, AtMostInFlight;
    if n == 0 {
      NothingExplained(l, steps, ip, t, q);
    } else {
      var st, was := steps[n - 1], Since(l, steps, n - 1, ip, t);
      RunExplained(l, steps, n - 1, ip, t, q);
      if n > 1 {
        InOrder(l, steps, n - 2, n - 1);
      }
      if st.at <= t + l.window {
        BeforeLoss(l, steps, n - 1, ip, was, t, q);
        OneMore(ForgetsIn(l, steps, n - 1, ip, t), Most(l, q));
        if Lost(l, steps, n - 1, ip) {
          LostIsExplained(l, steps, n, ip, was, t, q);
        } else {
          StepExplained(l, steps, n - 1, ip, was, t, q);
          KeptIsNotForgotten(l, steps, n - 1, ip);
        }
      }
    }
  }

  lemma NothingExplained(l: Limits, steps: seq<Step>, ip: string, t: nat, q: nat)
    requires LongLock(l) && q >= 1
    ensures Explained(l, steps, 0, ip, 0, t, q)
  {
  }

  lemma KeptIsNotForgotten(l: Limits, steps: seq<Step>, n: nat, ip: string)
    requires n < |steps| && !Lost(l, steps, n, ip)
    ensures !Forgets(l, After(l, steps, n), steps[n], ip)
  {
  }

  lemma LostIsExplained(l: Limits, steps: seq<Step>, n: nat, ip: string, was: nat, t: nat, q: nat)
    requires 0 < n <= |steps| && LongLock(l) && q >= 1 && Lost(l, steps, n - 1, ip)
    requires was == Since(l, steps, n - 1, ip, t) && steps[n - 1].at <= t + l.window
    requires steps[n - 1].at < t ==> was == 0
    requires Explained(l, steps, n - 1, ip, was, t, q)
    ensures Since(l, steps, n, ip, t) == 0 && Explained(l, steps, n, ip, 0, t, q)
    ensures steps[n - 1].at >= t && (was > 0 || Counts(l, steps[n - 1], ip, t)) ==>
              Forgets(l, After(l, steps, n - 1), steps[n - 1], ip)
  {
    hide OldLock, NewLock, BeganBefore, BeganInside;
    assert After(l, steps, n) == Next(l, After(l, steps, n - 1), steps[n - 1]);
  }

  /** In every run with at most q attempts of an address in flight, whatever other addresses do, any closed interval of
      length `window` holds at most 2 * max_fails + q - 3 recorded failures of it, times one more than its record was
      lost inside. It is one failure more if max_fails is 1, or if q reaches max_fails and the lock is shorter than two
      windows and a second. */
  lemma FailuresPerWindow(l: Limits, steps: seq<Step>, ip: string, t: nat, q: nat)
    requires IsRun(l, steps) && LongLock(l) && q >= 1 && AtMostInFlight(steps, ip, q)
    ensures FailuresIn(l, steps, |steps|, ip, t) <= (ForgetsIn(l, steps, |steps|, ip, t) + 1) * Most(l, q)
    ensures Most(l, q) == 2 * l.maxFails + q - (if l.maxFails == 1 || OutlivesLock(l, q) then 2 else 3)
  {
    hide After, Since, Explained, FailuresIn, ForgetsIn, AtMostInFlight;
    RunExplained(l, steps, |steps|, ip, t, q);
    hide Most;
    OneMore(ForgetsIn(l, steps, |steps|, ip, t), Most(l, q));
  }

  // --- the bound is reached ----------------------------------------------------------------------------

  /** One address alone loses no record. */
  lemma {:induction false} AloneForgetsNothing(l: Limits, steps: seq<Step>, k: nat, ip: string, t: nat)
    requires k <= |steps| && forall i :: 0 <= i < |steps| ==> steps[i].Failure? && steps[i].ip == ip
    ensures ForgetsIn(l, steps, k, ip, t) == 0 && After(l, steps, k).Keys <= {ip}
  {
    if k > 0 {
      AloneForgetsNothing(l, steps, k - 1, ip, t);
      KeptAlone(l, After(l, steps, k - 1), steps[k - 1]);
    }
  }

  lemma KeptAlone(l: Limits, s: Table, st: Step)
    requires st.Failure? && s.Keys <= {st.ip}
    ensures st.ip in Next(l, s, st) && Next(l, s, st).Keys <= {st.ip}
    ensures Next(l, s, st) == map[st.ip := Counted(l, s, st.ip, st.at, st.created)]
  {
    hide Counted;
    var t := s[st.ip := Counted(l, s, st.ip, st.at, st.created)];
    assert t.Keys == {st.ip};
    assert |t| == |t.Keys|;
  }

  /** One failure at once, then max - 2 at the end of its window, then max just after it, and with the last of these
      q - 1 more that were checked with it. */
  function BurstAt(l: Limits, i: nat): nat {
    if i == 0 then 0 else if i < l.maxFails - 1 then l.window else l.window + 1
  }

  function BurstSeen(l: Limits, i: nat): nat
    requires l.maxFails >= 2
  {
    Min(i, 2 * l.maxFails - 2)
  }

  function Burst(l: Limits, ip: string, q: nat): (r: seq<Step>)
    requires l.maxFails >= 2 && q >= 1
    ensures |r| == 2 * l.maxFails + q - 2
    ensures forall i :: 0 <= i < |r| ==>
              r[i] == Failure(ip, BurstSeen(l, i), BurstAt(l, i), BurstAt(l, i), BurstAt(l, i))
  {
    seq(2 * l.maxFails + q - 2,
        i requires 0 <= i => Failure(ip, BurstSeen(l, i), BurstAt(l, i), BurstAt(l, i), BurstAt(l, i)))
  }

  /** The record after k failures of the burst, while it is not locked. */
  function BurstRecord(l: Limits, k: nat): Attempt
    requires 0 < k < 2 * l.maxFails - 1
  {
    if k < l.maxFails then Attempt(k, 0, 0) else Attempt(k - l.maxFails + 1, 0, l.window + 1)
  }

  lemma NextBurstRecord(l: Limits, ip: string, k: nat)
    requires l.maxFails >= 2 && k < 2 * l.maxFails - 2
    ensures var s: Table := if k == 0 then map[] else map[ip := BurstRecord(l, k)];
            Counted(l, s, ip, BurstAt(l, k), BurstAt(l, k)) == BurstRecord(l, k + 1)
  {
  }

  lemma {:induction false} BurstRecords(l: Limits, ip: string, q: nat, k: nat)
    requires l.maxFails >= 2 && q >= 1 && k < 2 * l.maxFails - 1
    ensures After(l, Burst(l, ip, q), k) == if k == 0 then map[] else map[ip := BurstRecord(l, k)]
  {
    hide Counted, BurstRecord, BurstSeen;
    if k > 0 {
      BurstRecords(l, ip, q, k - 1);
      NextBurstRecord(l, ip, k - 1);
      KeptAlone(l, After(l, Burst(l, ip, q), k - 1), Burst(l, ip, q)[k - 1]);
    }
  }

  lemma BurstIsAdmitted(l: Limits, ip: string, q: nat, k: nat)
    requires l.maxFails >= 2 && q >= 1 && k < 2 * l.maxFails + q - 2
    ensures Admitted(l, Burst(l, ip, q), k)
  {
    hide After;
    BurstRecords(l, ip, q, BurstSeen(l, k));
  }

  lemma {:induction false} BurstFailures(l: Limits, ip: string, q: nat, k: nat)
    requires l.maxFails >= 2 && q >= 1 && l.window > 0 && k <= 2 * l.maxFails + q - 2
    ensures FailuresIn(l, Burst(l, ip, q), k, ip, 1) == if k == 0 then 0 else k - 1
  {
    hide BurstSeen;
    if k > 0 {
      BurstFailures(l, ip, q, k - 1);
    }
  }

  lemma {:induction false} BurstInFlight(l: Limits, ip: string, q: nat, k: nat, n: nat)
    requires l.maxFails >= 2 && q >= 1 && k <= n <= 2 * l.maxFails + q - 2
    ensures var last := 2 * l.maxFails - 2;
            InFlight(Burst(l, ip, q), ip, k, n) <= if k < last then Min(1, n - k) else n - k
  {
    if k < n {
      BurstInFlight(l, ip, q, k, n - 1);
    }
  }

  lemma BurstReaches(l: Limits, ip: string, q: nat)
    requires l.maxFails >= 2 && q >= 1 && l.window > 0
    ensures var steps := Burst(l, ip, q);
            && IsRun(l, steps) && AtMostInFlight(steps, ip, q)
            && FailuresIn(l, steps, |steps|, ip, 1) == 2 * l.maxFails + q - 3
  {
    hide Admitted, FailuresIn, InFlight;
    var steps := Burst(l, ip, q);
    forall k | 0 <= k < |steps| ensures Admitted(l, steps, k) {
      BurstIsAdmitted(l, ip, q, k);
    }
    forall k | 0 <= k <= |steps| ensures InFlight(steps, ip, k, |steps|) <= q {
      BurstInFlight(l, ip, q, k, |steps|);
    }
    BurstFailures(l, ip, q, |steps|);
  }

  /** A lock at once, with max - 1 more attempts in flight that are recorded at the end of the window it opens; and when
      the next one is over max failures that lock again, the last of them with q - 1 more in flight. */
  function RelockAt(l: Limits, i: nat): nat {
    if i < l.maxFails then 0 else if i < 2 * l.maxFails - 1 then l.window else 2 * l.window
  }

  function RelockSeen(l: Limits, i: nat): nat
    requires l.maxFails >= 2
  {
    if i < 2 * l.maxFails - 1 then Min(i, l.maxFails - 1) else Min(i, 3 * l.maxFails - 2)
  }

  function RelockChecked(l: Limits, i: nat): nat {
    if i < 2 * l.maxFails - 1 then 0 else 2 * l.window
  }

  function Relock(l: Limits, ip: string, q: nat): (r: seq<Step>)
    requires l.maxFails >= 2 && q >= 1
    ensures |r| == 3 * l.maxFails + q - 2
    ensures forall i :: 0 <= i < |r| ==>
              r[i] == Failure(ip, RelockSeen(l, i), RelockChecked(l, i), RelockAt(l, i), RelockAt(l, i))
  {
    seq(3 * l.maxFails + q - 2,
        i requires 0 <= i => Failure(ip, RelockSeen(l, i), RelockChecked(l, i), RelockAt(l, i), RelockAt(l, i)))
  }

  /** The record after k failures of it, up to those that are checked together at the end. */
  function RelockRecord(l: Limits, k: nat): Attempt
    requires l.maxFails >= 2 && 0 < k < 3 * l.maxFails - 1
  {
    if k < l.maxFails then Attempt(k, 0, 0)
    else if k < 2 * l.maxFails then Attempt(k - l.maxFails, l.lock, 0)
    else Attempt(k - 2 * l.maxFails + 1, l.lock, 2 * l.window)
  }

  lemma NextRelockRecord(l: Limits, ip: string, k: nat)
    requires l.maxFails >= 2 && l.window > 0 && k < 3 * l.maxFails - 2
    ensures var s: Table := if k == 0 then map[] else map[ip := RelockRecord(l, k)];
            Counted(l, s, ip, RelockAt(l, k), RelockAt(l, k)) == RelockRecord(l, k + 1)
  {
  }

  lemma {:induction false} RelockRecords(l: Limits, ip: string, q: nat, k: nat)
    requires l.maxFails >= 2 && l.window > 0 && q >= 1 && k < 3 * l.maxFails - 1
    ensures After(l, Relock(l, ip, q), k) == if k == 0 then map[] else map[ip := RelockRecord(l, k)]
  {
    hide Counted, RelockRecord, RelockSeen, RelockChecked;
    if k > 0 {
      RelockRecords(l, ip, q, k - 1);
      NextRelockRecord(l, ip, k - 1);
      KeptAlone(l, After(l, Relock(l, ip, q), k - 1), Relock(l, ip, q)[k - 1]);
    }
  }

  lemma RelockIsAdmitted(l: Limits, ip: string, q: nat, k: nat)
    requires l.maxFails >= 2 && l.window > 0 && q >= 1 && l.lock < 2 * l.window + SECOND
    requires k < 3 * l.maxFails + q - 2
    ensures Admitted(l, Relock(l, ip, q), k)
  {
    hide After;
    RelockRecords(l, ip, q, RelockSeen(l, k));
  }

  lemma {:induction false} RelockFailures(l: Limits, ip: string, q: nat, k: nat)
    requires l.maxFails >= 2 && q >= 1 && l.window > 0 && k <= 3 * l.maxFails + q - 2
    ensures FailuresIn(l, Relock(l, ip, q), k, ip, l.window) == if k < l.maxFails then 0 else k - l.maxFails
  {
    hide RelockSeen, RelockChecked;
    if k > 0 {
      RelockFailures(l, ip, q, k - 1);
    }
  }

  lemma {:induction false} RelockInFlight(l: Limits, ip: string, q: nat, k: nat, n: nat)
    requires l.maxFails >= 2 && q >= 1 && k <= n <= 3 * l.maxFails + q - 2
    ensures InFlight(Relock(l, ip, q), ip, k, n)
            <= if k < l.maxFails - 1 || 2 * l.maxFails - 1 <= k < 3 * l.maxFails - 2 then Min(1, n - k)
               else if k < 2 * l.maxFails - 1 then Min(n, 2 * l.maxFails - 1) - k
               else n - k
  {
    if k < n {
      RelockInFlight(l, ip, q, k, n - 1);
    }
  }

  lemma RelockReaches(l: Limits, ip: string, q: nat)
    requires l.maxFails >= 2 && l.window > 0 && OutlivesLock(l, q)
    ensures var steps := Relock(l, ip, q);
            && IsRun(l, steps) && AtMostInFlight(steps, ip, q)
            && FailuresIn(l, steps, |steps|, ip, l.window) == 2 * l.maxFails + q - 2
  {
    hide Admitted, FailuresIn, InFlight;
    var steps := Relock(l, ip, q);
    forall k | 0 <= k < |steps| ensures Admitted(l, steps, k) {
      RelockIsAdmitted(l, ip, q, k);
    }
    forall k | 0 <= k <= |steps| ensures InFlight(steps, ip, k, |steps|) <= q {
      RelockInFlight(l, ip, q, k, |steps|);
    }
    RelockFailures(l, ip, q, |steps|);
  }

  function Flood(ip: string, q: nat): (r: seq<Step>)
    ensures |r| == q && forall i :: 0 <= i < q ==> r[i] == Failure(ip, 0, 0, 0, 0)
  {
    seq(q, _ => Failure(ip, 0, 0, 0, 0))
  }

  lemma {:induction false} FloodFailures(l: Limits, ip: string, q: nat, j: nat, k: nat)
    requires j <= k <= q
    ensures FailuresIn(l, Flood(ip, q), k, ip, 0) == k && InFlight(Flood(ip, q), ip, j, k) == k - j
  {
    if j < k {
      FloodFailures(l, ip, q, j, k - 1);
    } else if k > 0 {
      FloodFailures(l, ip, q, k - 1, k - 1);
    }
  }

  /** So no bound serves for every number of attempts in flight, whatever the limits: q attempts that are checked before
      the first is recorded are all recorded, in one window. */
  lemma BoundGrowsWithOverlap(l: Limits, ip: string, q: nat)
    ensures var steps := Flood(ip, q);
            IsRun(l, steps) && AtMostInFlight(steps, ip, q) && FailuresIn(l, steps, q, ip, 0) == q
  {
    hide FailuresIn, InFlight;
    forall k | 0 <= k <= q ensures InFlight(Flood(ip, q), ip, k, q) <= q {
      FloodFailures(l, ip, q, k, q);
    }
    FloodFailures(l, ip, q, 0, q);
  }

  /** The bound is exact: for all limits and every number of attempts in flight some run reaches it, by one address
      alone and with nothing lost. */
  lemma BoundIsReached(l: Limits, ip: string, q: nat) returns (steps: seq<Step>, t: nat)
    requires LongLock(l) && l.window > 0 && q >= 1
    ensures IsRun(l, steps) && AtMostInFlight(steps, ip, q)
    ensures FailuresIn(l, steps, |steps|, ip, t) == Most(l, q) && ForgetsIn(l, steps, |steps|, ip, t) == 0
  {
    hide IsRun, AtMostInFlight, FailuresIn, ForgetsIn;
    if l.maxFails == 1 {
      BoundGrowsWithOverlap(l, ip, q);
      steps, t := Flood(ip, q), 0;
    } else if OutlivesLock(l, q) {
      RelockReaches(l, ip, q);
      steps, t := Relock(l, ip, q), l.window;
    } else {
      BurstReaches(l, ip, q);
      steps, t := Burst(l, ip, q), 1;
    }
    AloneForgetsNothing(l, steps, |steps|, ip, t);
  }

  /** The failures per window are at most 2 * max_fails - 2, times one more than the losses, in all runs with at most q
      attempts in flight, if and only if attempts do not overlap. */
  lemma SharpBoundIff(l: Limits, ip: string, q: nat)
    requires LongLock(l) && l.maxFails >= 2 && l.window > 0 && q >= 1
    ensures q == 1 <==>
            forall steps, t: nat | IsRun(l, steps) && AtMostInFlight(steps, ip, q) ::
              FailuresIn(l, steps, |steps|, ip, t) <= (ForgetsIn(l, steps, |steps|, ip, t) + 1) * (2 * l.maxFails - 2)
  {
    hide IsRun, AtMostInFlight, FailuresIn, ForgetsIn;
    if q == 1 {
      forall steps, t: nat | IsRun(l, steps) && AtMostInFlight(steps, ip, q)
        ensures FailuresIn(l, steps, |steps|, ip, t) <= (ForgetsIn(l, steps, |steps|, ip, t) + 1) * (2 * l.maxFails - 2)
      {
        FailuresPerWindow(l, steps, ip, t, q);
      }
    } else {
      var steps, t := BoundIsReached(l, ip, q);
      assert (ForgetsIn(l, steps, |steps|, ip, t) + 1) * (2 * l.maxFails - 2) == 2 * l.maxFails - 2;
    }
  }

  /** An attempt touches the record of its own address only, unless a new address is one too many: then all records go.
      A success leaves none, so the address is not locked, and its failures count from one again. */
  lemma OnlyOwnRecord(l: Limits, s: Table, ip: string, other: string, now: nat, created: nat)
    ensures var e := RecordFailure(l, s, ip, now, created);
            && (|s.Keys + {ip}| > 20_000 ==> e == map[])
            && (|s.Keys + {ip}| <= 20_000 ==>
                  && ip in e && (other != ip ==> (other in e <==> other in s))
                  && (other != ip && other in s ==> e[other] == s[other]))
    ensures var e := RecordSuccess(s, ip);
            && LockedSeconds(e, ip, now) == 0 && (other != ip ==> (other in e <==> other in s))
            && (other != ip && other in s ==> e[other] == s[other])
            && (l.maxFails >= 2 && created >= now ==> Counted(l, e, ip, now, created) == Attempt(1, 0, created))
  {
    var t := s[ip := Counted(l, s, ip, now, created)];
    assert t.Keys == s.Keys + {ip} && |t| == |t.Keys|;
    hide Counted;
    assert ip !in RecordSuccess(s, ip);
  }

  /** A failure locks its address, for exactly the lock time in whole seconds rounded down, if it is the max_fails-th or
      more of the window of its record; any other leaves the lock as it was. */
  lemma LockLasts(l: Limits, s: Table, ip: string, now: nat, created: nat, later: nat)
    requires |s.Keys + {ip}| <= 20_000 && created >= now
    ensures var fails := if ip in s && now - s[ip].windowStart <= l.window then s[ip].fails else 0;
            LockedSeconds(RecordFailure(l, s, ip, now, created), ip, later)
            == if fails + 1 >= l.maxFails then Max(0, now + l.lock - later) / 1_000_000 else LockedSeconds(s, ip, later)
  {
    var t := s[ip := Counted(l, s, ip, now, created)];
    assert t.Keys == s.Keys + {ip} && |t| == |t.Keys|;
  }
}
