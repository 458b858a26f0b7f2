/** The flood throttle: a sliding window of events per user, and a cooldown after repeated excess. */
module Throttle {
  import opened Prelude

  datatype Limits = Limits(limit: nat, window: nat, threshold: nat, cooldown: nat)

  datatype Tables = Tables(hits: map<int, seq<nat>>, strikes: map<int, nat>, cooldownUntil: map<int, nat>)

  /** Dropped during a cooldown; over the limit, perhaps starting a cooldown; or passed on to the handler. */
  datatype Verdict = Dropped | OverLimit(started: bool) | Handled

  const MAX_USERS := 10_000
  const NO_TABLES := Tables(map[], map[], map[])

  // --- what a call computes ------------------------------------------------------------------

  /** Drops entries from the left that are older than the window. */
  function Trim(dq: seq<nat>, now: nat, window: nat): seq<nat> {
    if dq != [] && now - dq[0] > window then Trim(dq[1..], now, window) else dq
  }

  function HitsOf(s: Tables, user: int): seq<nat> {
    if user in s.hits then s.hits[user] else []
  }

  function StrikesOf(s: Tables, user: int): nat {
    if user in s.strikes then s.strikes[user] else 0
  }

  predicate Cooling(s: Tables, user: int, now: nat) {
    user in s.cooldownUntil && s.cooldownUntil[user] > now
  }

  function Call(l: Limits, s: Tables, user: int, now: nat): (Tables, Verdict) {
    if Cooling(s, user, now) then (s, Dropped)
    else
      var dq := Trim(HitsOf(s, user), now, l.window) + [now];
      var t := s.(hits := s.hits[user := dq]);
      if |dq| <= l.limit then (t, Handled)
      else
        var strikes := StrikesOf(s, user) + 1;
        if strikes < l.threshold then (t.(strikes := t.strikes[user := strikes]), OverLimit(false))
        else
          (t.(strikes := t.strikes[user := 0], cooldownUntil := t.cooldownUntil[user := now + l.cooldown]),
           OverLimit(true))
  }

  /** The tables are emptied when too many users are known. */
  function Prune(s: Tables): Tables {
    if |s.hits| > MAX_USERS then NO_TABLES else s
  }

  class ThrottleMiddleware {
    const limits: Limits
    var hits: map<int, seq<nat>>
    var strikes: map<int, nat>
    var cooldownUntil: map<int, nat>

    function Value(): Tables
      reads this
    {
      Tables(hits, strikes, cooldownUntil)
    }

    constructor (l: Limits)
      ensures Value() == NO_TABLES && limits == l
    {
      limits := l;
      hits, strikes, cooldownUntil := map[], map[], map[];
    }

    /** An event of a user who is no administrator, up to the first await. */
    method HandleEvent(user: int, now: nat) returns (v: Verdict)
      modifies this
      ensures (Value(), v) == Call(limits, old(Value()), user, now)
    {
      if user in cooldownUntil && cooldownUntil[user] > now {
        return Dropped;
      }
      var dq := if user in hits then hits[user] else [];
      while dq != [] && now - dq[0] > limits.window
        invariant Trim(dq, now, limits.window) == Trim(HitsOf(old(Value()), user), now, limits.window)
      {
        dq := dq[1..];
      }
      dq := dq + [now];
      hits := hits[user := dq];
      if |dq| > limits.limit {
        var s := (if user in strikes then strikes[user] else 0) + 1;
        strikes := strikes[user := s];
        if s >= limits.threshold {
          cooldownUntil := cooldownUntil[user := now + limits.cooldown];
          assert strikes[user := 0] == old(strikes)[user := 0];
          strikes := strikes[user := 0];
          return OverLimit(true);
        }
        return OverLimit(false);
      }
      v := Handled;
    }

    /** What follows an event over the limit, after the await of its warning. */
    method PruneTables()
      modifies this
      ensures Value() == Prune(old(Value()))
    {
      if |hits| > MAX_USERS {
        hits, strikes, cooldownUntil := map[], map[], map[];
      }
    }
  }

  // --- runs -------------------------------------------------------------------------------------

  datatype Step = Event(user: int, now: nat) | Pruning(now: nat)

  function Next(l: Limits, s: Tables, st: Step): Tables {
    match st
    case Event(user, now) => Call(l, s, user, now).0
    case Pruning(_) => Prune(s)
  }

  /** Events of any users and prunings in any order, in non-decreasing time. */
  ghost predicate IsRun(l: Limits, states: seq<Tables>, steps: seq<Step>) {
    && |states| == |steps| + 1 && states[0] == NO_TABLES
    && (forall k :: 0 <= k < |steps| ==> states[k + 1] == Next(l, states[k], steps[k]))
    && (forall j, k :: 0 <= j < k < |steps| ==> steps[j].now <= steps[k].now)
  }

  lemma StepTo(l: Limits, states: seq<Tables>, steps: seq<Step>, k: nat)
    requires IsRun(l, states, steps) && 0 < k <= |steps|
    ensures states[k] == Next(l, states[k - 1], steps[k - 1])
    ensures k > 1 ==> steps[k - 2].now <= steps[k - 1].now
  {
    hide Next;
    assert steps[k - 1] in steps;
  }

  predicate HandledAt(l: Limits, s: Tables, st: Step, user: int) {
    st.Event? && st.user == user && Call(l, s, user, st.now).1.Handled?
  }

  predicate Clears(s: Tables, st: Step) {
    st.Pruning? && Prune(s) != s
  }

  // --- the window -------------------------------------------------------------------------------------

  predicate Within(l: Limits, st: Step, t: nat) {
    t <= st.now <= t + l.window
  }

  /** Events of the user handled in [t, t + window] during the first k steps. */
  function HandledIn(l: Limits, states: seq<Tables>, steps: seq<Step>, k: nat, user: int, t: nat): nat
    requires k <= |steps| < |states|
  {
    if k == 0 then 0
    else HandledIn(l, states, steps, k - 1, user, t)
         + if Within(l, steps[k - 1], t) && HandledAt(l, states[k - 1], steps[k - 1], user) then 1 else 0
  }

  function ClearsIn(l: Limits, states: seq<Tables>, steps: seq<Step>, k: nat, t: nat): nat
    requires k <= |steps| < |states|
  {
    if k == 0 then 0
    else ClearsIn(l, states, steps, k - 1, t)
         + if Within(l, steps[k - 1], t) && Clears(states[k - 1], steps[k - 1]) then 1 else 0
  }

  /** Of the events counted by `HandledIn`, those after the last clear counted by `ClearsIn`. */
  function SinceClear(l: Limits, states: seq<Tables>, steps: seq<Step>, k: nat, user: int, t: nat): nat
    requires k <= |steps| < |states|
  {
    if k == 0 then 0
    else if Within(l, steps[k - 1], t) && Clears(states[k - 1], steps[k - 1]) then 0
    else SinceClear(l, states, steps, k - 1, user, t)
         + if Within(l, steps[k - 1], t) && HandledAt(l, states[k - 1], steps[k - 1], user) then 1 else 0
  }

  function CountFrom(dq: seq<nat>, t: nat): nat {
    if dq == [] then 0 else (if dq[0] >= t then 1 else 0) + CountFrom(dq[1..], t)
  }

  lemma {:induction false} CountFromAppend(dq: seq<nat>, x: nat, t: nat)
    ensures CountFrom(dq + [x], t) == CountFrom(dq, t) + if x >= t then 1 else 0
    ensures CountFrom(dq, t) <= |dq|
  {
    if dq != [] {
      CountFromAppend(dq[1..], x, t);
      assert (dq + [x])[1..] == dq[1..] + [x];
    }
  }

  /** Trimming drops nothing that a window starting at t still needs. */
  lemma {:induction false} TrimKeepsRecent(dq: seq<nat>, now: nat, window: nat, t: nat)
    requires now <= t + window
    ensures CountFrom(Trim(dq, now, window), t) == CountFrom(dq, t)
  {
    if dq != [] && now - dq[0] > window {
      TrimKeepsRecent(dq[1..], now, window, t);
    }
  }

  /** One event of the user inside the window. */
  lemma CallCounts(l: Limits, s: Tables, user: int, now: nat, t: nat)
    requires now <= t + l.window
    ensures var (e, v) := Call(l, s, user, now);
            && CountFrom(HitsOf(e, user), t)
               >= CountFrom(HitsOf(s, user), t) + (if v.Handled? && now >= t then 1 else 0)
            && (v.Handled? ==> CountFrom(HitsOf(e, user), t) <= l.limit)
  {
    TrimKeepsRecent(HitsOf(s, user), now, l.window, t);
    var dq := Trim(HitsOf(s, user), now, l.window);
    CountFromAppend(dq, now, t);
    CountFromAppend(dq + [now], now, t);
  }

  /** Every event after the last clear in the window is still in the deque. */
  predicate Remembered(s: Tables, user: int, since: nat, t: nat) {
    since <= CountFrom(HitsOf(s, user), t)
  }

  lemma StepRemembers(l: Limits, s: Tables, st: Step, user: int, since: nat, t: nat)
    requires Remembered(s, user, since, t) && since <= l.limit
    requires st.now <= t + l.window && (st.now < t ==> since == 0)
    ensures var now := since + (if Within(l, st, t) && HandledAt(l, s, st, user) then 1 else 0);
            if Within(l, st, t) && Clears(s, st) then now <= l.limit
            else Remembered(Next(l, s, st), user, now, t) && now <= l.limit
  {
    hide Call, CountFrom;
    if st.Event? && st.user == user {
      CallCounts(l, s, user, st.now, t);
    } else if st.Event? {
      OthersUntouched(l, s, st, user);
    }
  }

  lemma {:induction false} WindowInvariant(l: Limits, states: seq<Tables>, steps: seq<Step>, k: nat, user: int, t: nat)
    requires IsRun(l, states, steps) && k <= |steps|
    ensures var since := SinceClear(l, states, steps, k, user, t);
            && HandledIn(l, states, steps, k, user, t) <= ClearsIn(l, states, steps, k, t) * l.limit + since
            && since <= l.limit && (k > 0 && steps[k - 1].now < t ==> since == 0)
            && (k == 0 || steps[k - 1].now <= t + l.window ==> Remembered(states[k], user, since, t))
  {
    hide Next, HandledAt, Clears, Remembered;
    if k == 0 {
      NothingRemembered(states[0], user, t);
    } else {
      WindowInvariant(l, states, steps, k - 1, user, t);
      StepTo(l, states, steps, k);
      if steps[k - 1].now <= t + l.window {
        hide IsRun;
        StepRemembers(l, states[k - 1], steps[k - 1], user, SinceClear(l, states, steps, k - 1, user, t), t);
        NothingRemembered(states[k], user, t);
        OneMore(ClearsIn(l, states, steps, k - 1, t), l.limit);
      }
    }
  }

  lemma NothingRemembered(s: Tables, user: int, t: nat)
    ensures Remembered(s, user, 0, t)
  {
  }

  lemma OthersUntouched(l: Limits, s: Tables, st: Step, user: int)
    requires st.Event? && st.user != user
    ensures HitsOf(Next(l, s, st), user) == HitsOf(s, user) && StrikesOf(Next(l, s, st), user) == StrikesOf(s, user)
  {
  }

  /** In every run, with any number of users, any closed interval of length `window` holds at most (c + 1) * limit
      handled events of one user, where c is how often the tables were emptied inside it. */
  lemma HandledPerWindow(l: Limits, states: seq<Tables>, steps: seq<Step>, user: int, t: nat)
    requires IsRun(l, states, steps)
    ensures HandledIn(l, states, steps, |steps|, user, t) <= (ClearsIn(l, states, steps, |steps|, t) + 1) * l.limit
  {
    hide Next, SinceClear, HandledIn, ClearsIn, Remembered;
    WindowInvariant(l, states, steps, |steps|, user, t);
    OneMore(ClearsIn(l, states, steps, |steps|, t), l.limit);
  }

  // --- exactly which events are handled -----------------------------------------------------------------

  /** Events of the user at or after `from` among the first k steps, since the tables were last emptied, but for those
      that came in a cooldown. */
  function Recent(states: seq<Tables>, steps: seq<Step>, k: nat, user: int, from: int): nat
    requires k <= |steps| < |states|
  {
    if k == 0 then 0
    else
      match steps[k - 1]
      case Pruning(_) => if |states[k - 1].hits| > 10_000 then 0 else Recent(states, steps, k - 1, user, from)
      case Event(u, now) =>
        Recent(states, steps, k - 1, user, from)
        + if u == user && now >= from && !Cooling(states[k - 1], user, now) then 1 else 0
  }

  ghost predicate Ordered(dq: seq<nat>, last: nat) {
    (forall i, j :: 0 <= i < j < |dq| ==> dq[i] <= dq[j]) && (forall i :: 0 <= i < |dq| ==> dq[i] <= last)
  }

  function CountSince(dq: seq<nat>, from: int): nat {
    CountFrom(dq, Max(0, from))
  }

  lemma {:induction false} AllSince(dq: seq<nat>, t: nat)
    requires forall i :: 0 <= i < |dq| ==> dq[i] >= t
    ensures CountFrom(dq, t) == |dq|
  {
    if dq != [] {
      AllSince(dq[1..], t);
    }
  }

  /** Trimming leaves the entries of the window, and no others. */
  lemma {:induction false} TrimLeavesWindow(dq: seq<nat>, now: nat, window: nat)
    requires Ordered(dq, now)
    ensures Ordered(Trim(dq, now, window), now) && |Trim(dq, now, window)| == CountSince(dq, now - window)
  {
    if dq != [] {
      if now - dq[0] > window {
        TrimLeavesWindow(dq[1..], now, window);
      } else {
        AllSince(dq, Max(0, now - window));
      }
    }
  }

  lemma CallRecords(l: Limits, s: Tables, user: int, now: nat, from: int)
    requires Ordered(HitsOf(s, user), now) && !Cooling(s, user, now) && from >= now - l.window
    ensures var (e, v) := Call(l, s, user, now);
            && Ordered(HitsOf(e, user), now)
            && CountSince(HitsOf(e, user), from) == CountSince(HitsOf(s, user), from) + (if now >= from then 1 else 0)
            && (v.Handled? <==> CountSince(HitsOf(s, user), now - l.window) < l.limit)
            && !v.Dropped?
  {
    hide Trim, CountFrom, Ordered;
    var dq := Trim(HitsOf(s, user), now, l.window);
    TrimLeavesWindow(HitsOf(s, user), now, l.window);
    TrimKeepsRecent(HitsOf(s, user), now, l.window, Max(0, from));
    CountFromAppend(dq, now, Max(0, from));
    OrderedAppend(dq, now);
  }

  lemma OrderedAppend(dq: seq<nat>, now: nat)
    requires Ordered(dq, now)
    ensures Ordered(dq + [now], now)
  {
  }

  lemma CoolingCall(l: Limits, s: Tables, user: int, now: nat)
    requires Cooling(s, user, now)
    ensures Call(l, s, user, now) == (s, Dropped)
  {
  }

  function TimeOf(steps: seq<Step>, k: nat): nat
    requires k <= |steps|
  {
    if k == 0 then 0 else steps[k - 1].now
  }

  /** The deque holds the recent events of the user, in order. */
  lemma {:induction false} HitsAreRecent(l: Limits, states: seq<Tables>, steps: seq<Step>, k: nat, user: int, from: int)
    requires IsRun(l, states, steps) && k <= |steps| && from >= TimeOf(steps, k) - l.window
    ensures Ordered(HitsOf(states[k], user), TimeOf(steps, k))
    ensures CountSince(HitsOf(states[k], user), from) == Recent(states, steps, k, user, from)
  {
    hide Next, Call, CountSince, Cooling, Ordered;
    if k == 0 {
      NothingCounted(from);
    } else {
      var s, st := states[k - 1], steps[k - 1];
      StepTo(l, states, steps, k);
      HitsAreRecent(l, states, steps, k - 1, user, from);
      OrderedLater(HitsOf(s, user), TimeOf(steps, k - 1), st.now);
      StepIsRecent(l, s, st, user, from);
    }
  }

  lemma NothingCounted(from: int)
    ensures CountSince([], from) == 0 && Ordered([], 0)
  {
  }

  lemma OrderedLater(dq: seq<nat>, last: nat, now: nat)
    requires Ordered(dq, last) && last <= now
    ensures Ordered(dq, now)
  {
  }

  lemma StepIsRecent(l: Limits, s: Tables, st: Step, user: int, from: int)
    requires Ordered(HitsOf(s, user), st.now) && from >= st.now - l.window
    ensures var e := Next(l, s, st);
            && Ordered(HitsOf(e, user), st.now)
            && CountSince(HitsOf(e, user), from)
               == match st
                  case Pruning(_) => if |s.hits| > 10_000 then 0 else CountSince(HitsOf(s, user), from)
                  case Event(u, now) => CountSince(HitsOf(s, user), from)
                                        + if u == user && now >= from && !Cooling(s, user, now) then 1 else 0
  {
    hide Call, CountSince, Cooling;
    NothingCounted(from);
    match st
    case Pruning(_) =>
    case Event(u, now) =>
      if u != user {
        OthersUntouched(l, s, st, user);
      } else if Cooling(s, user, now) {
        CoolingCall(l, s, user, now);
      } else {
        CallRecords(l, s, user, now, from);
      }
  }

  /** In every run, an event that does not come in a cooldown is handled exactly if the user's events of the closed
      window that ends with it, this one included and those in cooldowns or before the last emptying left out, are at
      most `limit`; otherwise it is refused. An event in a cooldown is dropped. */
  lemma HandledIff(l: Limits, states: seq<Tables>, steps: seq<Step>, k: nat)
    requires IsRun(l, states, steps) && k < |steps| && steps[k].Event?
    ensures var u, now := steps[k].user, steps[k].now;
            var v := Call(l, states[k], u, now).1;
            && (v.Dropped? <==> Cooling(states[k], u, now))
            && (v.Handled? <==>
                  !Cooling(states[k], u, now) && Recent(states, steps, k, u, now - l.window) + 1 <= l.limit)
  {
    hide Call, CountSince, Cooling, Ordered;
    var u, now := steps[k].user, steps[k].now;
    assert TimeOf(steps, k) <= now by { hide Next; }
    HitsAreRecent(l, states, steps, k, u, now - l.window);
    if Cooling(states[k], u, now) {
      CoolingCall(l, states[k], u, now);
    } else {
      OrderedLater(HitsOf(states[k], u), TimeOf(steps, k), now);
      CallRecords(l, states[k], u, now, now - l.window);
    }
  }

  // --- cooldown ------------------------------------------------------------------------------------------

  ghost predicate NoClears(states: seq<Tables>, steps: seq<Step>, j: nat, k: nat)
    requires k <= |steps| < |states|
  {
    forall i :: j <= i < k ==> !Clears(states[i], steps[i])
  }

  lemma {:induction false} CooldownLasts(l: Limits, states: seq<Tables>, steps: seq<Step>, j: nat, k: nat)
    requires IsRun(l, states, steps) && j < k <= |steps| && NoClears(states, steps, j, k)
    requires steps[j].Event? && Call(l, states[j], steps[j].user, steps[j].now).1 == OverLimit(true)
    requires forall i :: j < i < k ==> steps[i].now < steps[j].now + l.cooldown
    ensures var u := steps[j].user;
            u in states[k].cooldownUntil && states[k].cooldownUntil[u] == steps[j].now + l.cooldown
  {
    StepTo(l, states, steps, k);
    if j < k - 1 {
      CooldownLasts(l, states, steps, j, k - 1);
      hide IsRun, Trim;
      assert !Clears(states[k - 1], steps[k - 1]);
    }
  }

  /** Once a cooldown starts, no event of that user is handled, or even counted, until it has elapsed, unless the tables
      are emptied meanwhile. */
  lemma NothingHandledInCooldown(l: Limits, states: seq<Tables>, steps: seq<Step>, j: nat, k: nat)
    requires IsRun(l, states, steps) && j < k < |steps| && NoClears(states, steps, j, k)
    requires steps[j].Event? && Call(l, states[j], steps[j].user, steps[j].now).1 == OverLimit(true)
    requires steps[k].Event? && steps[k].user == steps[j].user && steps[k].now < steps[j].now + l.cooldown
    ensures Call(l, states[k], steps[k].user, steps[k].now) == (states[k], Dropped)
  {
    hide Next;
    forall i | j < i < k ensures steps[i].now < steps[j].now + l.cooldown {
      assert steps[i].now <= steps[k].now;
    }
    CooldownLasts(l, states, steps, j, k);
  }

  lemma {:induction false} CoolsOnlyAfterStart(l: Limits, states: seq<Tables>, steps: seq<Step>, k: nat, user: int)
    requires IsRun(l, states, steps) && k <= |steps|
    ensures user in states[k].cooldownUntil ==>
              exists j :: 0 <= j < k && StartsCooldown(l, states[j], steps[j], user) && NoClears(states, steps, j, k)
                          && states[k].cooldownUntil[user] == steps[j].now + l.cooldown
  {
    hide Next, Call;
    if k > 0 && user in states[k].cooldownUntil {
      var s, st := states[k - 1], steps[k - 1];
      StepTo(l, states, steps, k);
      CoolsOnlyAfterStart(l, states, steps, k - 1, user);
      CooldownStep(l, s, st, user);
      if StartsCooldown(l, s, st, user) {
        assert !Clears(s, st) && NoClears(states, steps, k - 1, k);
      } else {
        var j :| 0 <= j < k - 1 && StartsCooldown(l, states[j], steps[j], user) && NoClears(states, steps, j, k - 1)
                 && states[k - 1].cooldownUntil[user] == steps[j].now + l.cooldown;
        assert !Clears(s, st);
        assert NoClears(states, steps, j, k);
      }
    }
  }

  predicate StartsCooldown(l: Limits, s: Tables, st: Step, user: int) {
    st.Event? && st.user == user && Call(l, s, user, st.now).1 == OverLimit(true)
  }

  lemma CooldownStep(l: Limits, s: Tables, st: Step, user: int)
    ensures var e := Next(l, s, st);
            user in e.cooldownUntil ==>
              && !Clears(s, st)
              && (if StartsCooldown(l, s, st, user) then e.cooldownUntil[user] == st.now + l.cooldown
                  else user in s.cooldownUntil && e.cooldownUntil[user] == s.cooldownUntil[user])
  {
    hide Trim;
  }

  /** An event is dropped only in a cooldown that an earlier event of the same user has started, with the tables not
      emptied since, and that has not elapsed. */
  lemma DroppedInCooldownOnly(l: Limits, states: seq<Tables>, steps: seq<Step>, k: nat)
    requires IsRun(l, states, steps) && k < |steps| && steps[k].Event?
    requires Call(l, states[k], steps[k].user, steps[k].now).1.Dropped?
    ensures exists j :: 0 <= j < k && StartsCooldown(l, states[j], steps[j], steps[k].user)
                        && NoClears(states, steps, j, k) && steps[k].now < steps[j].now + l.cooldown
  {
    hide Next, Trim, IsRun, NoClears, StartsCooldown;
    CoolsOnlyAfterStart(l, states, steps, k, steps[k].user);
  }

  lemma CallStrikes(l: Limits, s: Tables, user: int, now: nat)
    requires l.threshold > 0 && StrikesOf(s, user) < l.threshold
    ensures var (e, v) := Call(l, s, user, now);
            && StrikesOf(e, user) < l.threshold
            && StrikesOf(e, user) == StrikesOf(s, user) + (if v.OverLimit? then 1 else 0)
                                     - (if v == OverLimit(true) then l.threshold else 0)
  {
    hide Trim;
  }

  lemma {:induction false} StrikesStayBelow(l: Limits, states: seq<Tables>, steps: seq<Step>, k: nat, user: int)
    requires IsRun(l, states, steps) && k <= |steps| && l.threshold > 0
    ensures StrikesOf(states[k], user) < l.threshold
  {
    hide Call;
    if k > 0 {
      var s, st := states[k - 1], steps[k - 1];
      StrikesStayBelow(l, states, steps, k - 1, user);
      StepTo(l, states, steps, k);
      if st.Event? && st.user == user {
        CallStrikes(l, s, user, st.now);
      } else if st.Event? {
        OthersUntouched(l, s, st, user);
      }
    }
  }

  predicate OverAt(l: Limits, s: Tables, st: Step, user: int, starting: bool) {
    st.Event? && st.user == user && var v := Call(l, s, user, st.now).1; v.OverLimit? && (starting ==> v.started)
  }

  /** Events of the user over the limit in steps j to k, or only those that start a cooldown. */
  function Excess(l: Limits, states: seq<Tables>, steps: seq<Step>, j: nat, k: nat, user: int, starting: bool): nat
    requires j <= k <= |steps| < |states|
  {
    if j == k then 0
    else Excess(l, states, steps, j, k - 1, user, starting)
         + if OverAt(l, states[k - 1], steps[k - 1], user, starting) then 1 else 0
  }

  lemma StepStrikes(l: Limits, s: Tables, st: Step, user: int)
    requires l.threshold > 0 && StrikesOf(s, user) < l.threshold && !Clears(s, st)
    ensures StrikesOf(Next(l, s, st), user) == StrikesOf(s, user) + (if OverAt(l, s, st, user, false) then 1 else 0)
                                               - (if OverAt(l, s, st, user, true) then l.threshold else 0)
  {
    hide Call;
    if st.Event? && st.user == user {
      CallStrikes(l, s, user, st.now);
    } else if st.Event? {
      OthersUntouched(l, s, st, user);
    }
  }

  /** While the tables are not emptied, every `threshold`-th event over the limit, and no other, starts a cooldown: any
      stretch has threshold times as many as it has starts, up to the strikes open at its two ends. */
  lemma {:induction false} StartsPerExcess(l: Limits, states: seq<Tables>, steps: seq<Step>, j: nat, k: nat, user: int)
    requires IsRun(l, states, steps) && j <= k <= |steps| && NoClears(states, steps, j, k) && l.threshold > 0
    ensures StrikesOf(states[j], user) < l.threshold && StrikesOf(states[k], user) < l.threshold
    ensures StrikesOf(states[j], user) + Excess(l, states, steps, j, k, user, false)
            == Excess(l, states, steps, j, k, user, true) * l.threshold + StrikesOf(states[k], user)
  {
    hide Next, OverAt, Clears, StrikesOf;
    StrikesStayBelow(l, states, steps, k, user);
    StrikesStayBelow(l, states, steps, j, user);
    if j < k {
      StartsPerExcess(l, states, steps, j, k - 1, user);
      StepTo(l, states, steps, k);
      assert !Clears(states[k - 1], steps[k - 1]);
      hide IsRun, NoClears;
      StepStrikes(l, states[k - 1], steps[k - 1], user);
      OneMore(Excess(l, states, steps, j, k - 1, user, true), l.threshold);
    }
  }
}
