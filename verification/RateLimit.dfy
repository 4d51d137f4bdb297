/**
 * The failure counter in front of proxy authentication. An attempt first asks whether its key is blocked and,
 * after some waiting, reports how it ended, so many attempts can be between the two at once.
 */
module RateLimit {
  import opened Wrappers

  datatype Window = Window(count: nat, firstAttemptAt: int)

  type Failures = map<string, Window>

  /** The two settings: at most `limit` failures per window of `ttl` milliseconds. */
  datatype Config = Config(limit: int, ttl: int)

  predicate Expired(w: Window, now: int, c: Config) {
    now - w.firstAttemptAt > c.ttl
  }

  predicate Live(failures: Failures, key: string, now: int, c: Config) {
    key in failures && !Expired(failures[key], now, c)
  }

  function Pruned(failures: Failures, now: int, c: Config): Failures {
    map key | key in failures && !Expired(failures[key], now, c) :: failures[key]
  }

  predicate Blocked(failures: Failures, key: string, now: int, c: Config) {
    Live(failures, key, now, c) && failures[key].count >= c.limit
  }

  /** The table after a check: an expired window of this key is dropped on the way. */
  function Checked(failures: Failures, key: string, now: int, c: Config): Failures {
    if key in failures && Expired(failures[key], now, c) then failures - {key} else failures
  }

  /** Counts one failure, in the running window or in a new one. */
  function Counted(failures: Failures, key: string, now: int, c: Config): Failures {
    if Live(failures, key, now, c)
    then failures[key := Window(failures[key].count + 1, failures[key].firstAttemptAt)]
    else failures[key := Window(1, now)]
  }

  // ----- the protocol of attempts -----

  /** An attempt begins with the check; if it was let in, it later ends in one of three ways. */
  datatype Event =
    | Begin(key: string, now: int)
    | Fail(key: string, prunedAt: int, now: int)
    | Succeed(key: string, now: int)
    | Abandon(key: string, now: int)

  /** `unpruned` is what the table would be if nothing were ever removed for being old. */
  datatype State = State(failures: Failures, inFlight: multiset<string>, unpruned: Failures, clock: int)

  function Next(s: State, e: Event, c: Config): State {
    match e
    case Begin(key, now) =>
      State(Checked(s.failures, key, now, c),
            if Blocked(s.failures, key, now, c) then s.inFlight else s.inFlight + multiset{key},
            s.unpruned, now)
    case Fail(key, prunedAt, now) =>
      State(Counted(Pruned(s.failures, prunedAt, c), key, now, c),
            s.inFlight - multiset{key},
            Counted(s.unpruned, key, now, c), now)
    case Succeed(key, now) =>
      State(s.failures - {key}, s.inFlight - multiset{key}, s.unpruned - {key}, now)
    case Abandon(key, now) =>
      s.(inFlight := s.inFlight - multiset{key}, clock := now)
  }

  /** Time does not go back, only attempts that were let in can end, and at most `most` of a key are under way. */
  predicate Possible(s: State, e: Event, c: Config, most: nat) {
    && s.clock <= e.now
    && (e.Fail? ==> s.clock <= e.prunedAt <= e.now)
    && (!e.Begin? ==> e.key in s.inFlight)
    && Next(s, e, c).inFlight[e.key] <= most
  }

  function Count(failures: Failures, key: string): nat {
    if key in failures then failures[key].count else 0
  }

  /** For one key: windows are never empty, failures and attempts under way are bounded, only old windows went missing. */
  predicate KeyInv(s: State, key: string, c: Config, most: nat) {
    && (key in s.failures ==> 1 <= s.failures[key].count && s.failures[key].firstAttemptAt <= s.clock)
    && Count(s.failures, key) + s.inFlight[key] <= c.limit - 1 + most
    && (key in s.failures ==> key in s.unpruned && s.unpruned[key] == s.failures[key])
    && (key in s.unpruned && key !in s.failures ==> Expired(s.unpruned[key], s.clock, c))
  }

  ghost predicate Inv(s: State, c: Config, most: nat) {
    forall key :: KeyInv(s, key, c, most)
  }

  lemma NextKeepsInv(s: State, e: Event, c: Config, most: nat)
    requires 1 <= c.limit && Inv(s, c, most) && Possible(s, e, c, most)
    ensures Inv(Next(s, e, c), c, most)
  {
    forall key
      ensures KeyInv(Next(s, e, c), key, c, most)
    {
      NextKeepsKeyInv(s, e, key, c, most);
    }
  }

  lemma NextKeepsKeyInv(s: State, e: Event, key: string, c: Config, most: nat)
    requires 1 <= c.limit && KeyInv(s, key, c, most) && Possible(s, e, c, most)
    ensures KeyInv(Next(s, e, c), key, c, most)
  {
  }

  /** Removing old windows never changes whether a key is blocked. */
  lemma PruningNeverChangesAnAnswer(s: State, key: string, now: int, c: Config, most: nat)
    requires Inv(s, c, most) && s.clock <= now
    ensures Blocked(s.failures, key, now, c) <==> Blocked(s.unpruned, key, now, c)
  {
    assert KeyInv(s, key, c, most);
  }

  // ----- whole runs -----

  const START := State(map[], multiset{}, map[], 0)

  function After(run: seq<Event>, n: nat, c: Config): State
    requires n <= |run|
  {
    if n == 0 then START else Next(After(run, n - 1, c), run[n - 1], c)
  }

  predicate PossibleAt(run: seq<Event>, i: nat, c: Config, most: nat)
    requires i < |run|
  {
    Possible(After(run, i, c), run[i], c, most)
  }

  predicate PossibleRun(run: seq<Event>, c: Config, most: nat) {
    forall i :: 0 <= i < |run| ==> PossibleAt(run, i, c, most)
  }

  /** With at most `most` attempts of a key under way, no window ever counts more than limit - 1 + most failures. */
  lemma {:induction false} NoWindowOverflows(run: seq<Event>, n: nat, c: Config, most: nat)
    requires 1 <= c.limit && PossibleRun(run, c, most) && n <= |run|
    ensures Inv(After(run, n, c), c, most)
    ensures forall key :: key in After(run, n, c).failures ==>
              After(run, n, c).failures[key].count <= c.limit - 1 + most
  {
    if n == 0 {
    } else {
      NoWindowOverflows(run, n - 1, c, most);
      assert PossibleAt(run, n - 1, c, most);
      NextKeepsInv(After(run, n - 1, c), run[n - 1], c, most);
    }
    forall key | key in After(run, n, c).failures
      ensures After(run, n, c).failures[key].count <= c.limit - 1 + most
    {
      assert KeyInv(After(run, n, c), key, c, most);
    }
  }

  lemma RunKeepsKeyInv(run: seq<Event>, n: nat, c: Config, key: string, most: nat)
    requires 1 <= c.limit && PossibleRun(run, c, most) && n <= |run|
    ensures KeyInv(After(run, n, c), key, c, most)
  {
    NoWindowOverflows(run, n, c, most);
  }

  predicate FailsWithin(e: Event, key: string, from: int, to: int) {
    e.Fail? && e.key == key && from <= e.now <= to
  }

  /** Recorded failures of the key, between events m and n of the run, at times from `from` to `to`. */
  function FailuresWithin(run: seq<Event>, m: nat, n: nat, key: string, from: int, to: int): nat
    requires m <= n <= |run|
    decreases n
  {
    if m == n then 0
    else FailuresWithin(run, m, n - 1, key, from, to) + if FailsWithin(run[n - 1], key, from, to) then 1 else 0
  }

  predicate NoSuccess(run: seq<Event>, m: nat, n: nat, key: string)
    requires m <= n <= |run|
  {
    forall i :: m <= i < n ==> !(run[i].Succeed? && run[i].key == key)
  }

  /**
   * How many failures since `from` are compatible with the key's window: those of a window that began before
   * `from`, without its first one; or at most one window without its first one, and then the current window.
   */
  predicate WithinBudget(s: State, key: string, from: int, count: nat, most: nat) {
    if key in s.failures && s.failures[key].firstAttemptAt >= from then count <= most - 1 + s.failures[key].count
    else if key in s.failures then count <= s.failures[key].count - 1
    else count <= most - 1
  }

  /** `count` failures since `from` and at most one window length later, with at most `most` failures per window. */
  predicate Budget(s: State, c: Config, key: string, from: int, count: nat, most: nat) {
    && count <= 2 * most - 1
    && (s.clock < from ==> count == 0)
    && (s.clock <= from + c.ttl ==> WithinBudget(s, key, from, count, most))
  }

  lemma NextKeepsBudget(s: State, e: Event, c: Config, key: string, from: int, count: nat, inFlight: nat)
    requires 1 <= c.limit && 0 <= c.ttl && 1 <= inFlight
    requires KeyInv(s, key, c, inFlight) && Possible(s, e, c, inFlight)
    requires !(e.Succeed? && e.key == key)
    requires Budget(s, c, key, from, count, c.limit - 1 + inFlight)
    ensures Budget(Next(s, e, c), c, key, from,
                   count + if FailsWithin(e, key, from, from + c.ttl) then 1 else 0, c.limit - 1 + inFlight)
  {
  }

  lemma {:induction false} BudgetHolds(run: seq<Event>, m: nat, n: nat, c: Config, key: string, from: int, inFlight: nat)
    requires 1 <= c.limit && 0 <= c.ttl && 1 <= inFlight && PossibleRun(run, c, inFlight)
    requires m <= n <= |run| && NoSuccess(run, m, n, key)
    ensures Budget(After(run, n, c), c, key, from, FailuresWithin(run, m, n, key, from, from + c.ttl), c.limit - 1 + inFlight)
    decreases n
  {
    if m < n {
      BudgetHolds(run, m, n - 1, c, key, from, inFlight);
      BudgetStep(run, m, n - 1, c, key, from, inFlight);
    } else {
      RunKeepsKeyInv(run, n, c, key, inFlight);
    }
  }

  lemma BudgetStep(run: seq<Event>, m: nat, n: nat, c: Config, key: string, from: int, inFlight: nat)
    requires 1 <= c.limit && 0 <= c.ttl && 1 <= inFlight && PossibleRun(run, c, inFlight)
    requires m <= n < |run| && !(run[n].Succeed? && run[n].key == key)
    requires Budget(After(run, n, c), c, key, from, FailuresWithin(run, m, n, key, from, from + c.ttl), c.limit - 1 + inFlight)
    ensures Budget(After(run, n + 1, c), c, key, from, FailuresWithin(run, m, n + 1, key, from, from + c.ttl), c.limit - 1 + inFlight)
  {
    RunKeepsKeyInv(run, n, c, key, inFlight);
    assert PossibleAt(run, n, c, inFlight);
    NextKeepsBudget(After(run, n, c), run[n], c, key, from, FailuresWithin(run, m, n, key, from, from + c.ttl), inFlight);
  }

  /**
   * Without a success of the key in between, any closed interval as long as a window holds at most
   * 2 * (limit - 1 + inFlight) - 1 recorded failures.
   */
  lemma FailuresPerInterval(run: seq<Event>, m: nat, n: nat, c: Config, key: string, from: int, inFlight: nat)
    requires 1 <= c.limit && 0 <= c.ttl && 1 <= inFlight && PossibleRun(run, c, inFlight)
    requires m <= n <= |run| && NoSuccess(run, m, n, key)
    ensures FailuresWithin(run, m, n, key, from, from + c.ttl) <= 2 * (c.limit - 1 + inFlight) - 1
  {
    BudgetHolds(run, m, n, c, key, from, inFlight);
  }

  // ----- the bound is reached, whatever the settings -----

  /** A possible run without a success of the key that leads to a state. */
  predicate LeadsTo(run: seq<Event>, c: Config, most: nat, key: string, s: State) {
    PossibleRun(run, c, most) && NoSuccess(run, 0, |run|, key) && After(run, |run|, c) == s
  }

  lemma {:induction false} AfterPrefix(run: seq<Event>, e: Event, n: nat, c: Config)
    requires n <= |run|
    ensures After(run + [e], n, c) == After(run, n, c)
  {
    if n == 0 {
    } else {
      AfterPrefix(run, e, n - 1, c);
      assert (run + [e])[n - 1] == run[n - 1];
    }
  }

  lemma {:induction false} FailuresPrefix(run: seq<Event>, e: Event, n: nat, key: string, from: int, to: int)
    requires n <= |run|
    ensures FailuresWithin(run + [e], 0, n, key, from, to) == FailuresWithin(run, 0, n, key, from, to)
  {
    if n == 0 {
    } else {
      FailuresPrefix(run, e, n - 1, key, from, to);
      assert (run + [e])[n - 1] == run[n - 1];
    }
  }

  lemma OneEventMore(run: seq<Event>, c: Config, most: nat, key: string, s: State, e: Event)
    requires LeadsTo(run, c, most, key, s) && Possible(s, e, c, most) && !e.Succeed?
    ensures LeadsTo(run + [e], c, most, key, Next(s, e, c))
  {
    AfterPrefix(run, e, |run|, c);
    forall i | 0 <= i < |run + [e]| ensures PossibleAt(run + [e], i, c, most) {
      if i < |run| {
        AfterPrefix(run, e, i, c);
        assert PossibleAt(run, i, c, most);
      }
    }
  }

  function FailuresOf(run: seq<Event>, key: string, c: Config): nat {
    FailuresWithin(run, 0, |run|, key, 1, 1 + c.ttl)
  }

  lemma OneFailureMore(run: seq<Event>, key: string, c: Config, e: Event)
    ensures FailuresOf(run + [e], key, c) == FailuresOf(run, key, c) + if FailsWithin(e, key, 1, 1 + c.ttl) then 1 else 0
  {
    FailuresPrefix(run, e, |run|, key, 1, 1 + c.ttl);
  }

  /** At this time the key has a live window of `count` failures since `first`, or none that lives if `count` is 0. */
  predicate Shows(s: State, c: Config, key: string, count: nat, first: int, inFlight: nat, now: int) {
    && s.clock <= now && s.inFlight[key] == inFlight
    && (if count == 0 then !Live(s.failures, key, now, c)
        else Live(s.failures, key, now, c) && s.failures[key] == Window(count, first))
  }

  /** Attempts that begin together while the key is not blocked. */
  lemma {:induction false} SeveralBegin(run: seq<Event>, c: Config, most: nat, key: string, s: State,
                                      count: nat, first: int, inFlight: nat, now: int, more: nat)
    returns (run': seq<Event>, s': State)
    requires LeadsTo(run, c, most, key, s) && Shows(s, c, key, count, first, inFlight, now)
    requires count < c.limit && inFlight + more <= most
    ensures LeadsTo(run', c, most, key, s') && Shows(s', c, key, count, first, inFlight + more, now)
    ensures FailuresOf(run', key, c) == FailuresOf(run, key, c)
    decreases more
  {
    if more == 0 {
      run', s' := run, s;
    } else {
      var e := Begin(key, now);
      BeginningShows(s, c, most, key, count, first, inFlight, now);
      OneEventMore(run, c, most, key, s, e);
      OneFailureMore(run, key, c, e);
      run', s' := SeveralBegin(run + [e], c, most, key, Next(s, e, c), count, first, inFlight + 1, now, more - 1);
    }
  }

  lemma BeginningShows(s: State, c: Config, most: nat, key: string, count: nat, first: int, inFlight: nat, now: int)
    requires Shows(s, c, key, count, first, inFlight, now) && count < c.limit && inFlight < most
    ensures Possible(s, Begin(key, now), c, most)
    ensures Shows(Next(s, Begin(key, now), c), c, key, count, first, inFlight + 1, now)
  {
  }

  lemma FailureShows(s: State, c: Config, most: nat, key: string, count: nat, first: int, inFlight: nat, now: int)
    requires Shows(s, c, key, count, first, inFlight, now) && 0 < inFlight <= most && 0 <= c.ttl
    ensures Possible(s, Fail(key, now, now), c, most)
    ensures Shows(Next(s, Fail(key, now, now), c), c, key, count + 1, if count == 0 then now else first, inFlight - 1, now)
  {
  }

  /** How many attempts are under way once a window has counted some failures: all that may be, as long as it can. */
  function Under(count: nat, c: Config, most: nat): nat
    requires count <= c.limit - 1 + most
  {
    if count < c.limit then most else c.limit - 1 + most - count
  }

  /** Failures one after the other, each followed by a new attempt as long as the key is not blocked. */
  lemma {:induction false} SeveralFail(run: seq<Event>, c: Config, most: nat, key: string, s: State,
                                    count: nat, first: int, now: int, more: nat)
    returns (run': seq<Event>, s': State)
    requires 1 <= c.limit && 0 <= c.ttl && 1 <= most && count + more <= c.limit - 1 + most
    requires LeadsTo(run, c, most, key, s) && Shows(s, c, key, count, first, Under(count, c, most), now)
    ensures LeadsTo(run', c, most, key, s')
    ensures Shows(s', c, key, count + more, if count == 0 then now else first, Under(count + more, c, most), now)
    ensures FailuresOf(run', key, c) == FailuresOf(run, key, c) + if 1 <= now <= 1 + c.ttl then more else 0
    decreases more
  {
    if more == 0 {
      run', s' := run, s;
    } else {
      var e := Fail(key, now, now);
      var since := if count == 0 then now else first;
      FailureShows(s, c, most, key, count, first, Under(count, c, most), now);
      OneEventMore(run, c, most, key, s, e);
      OneFailureMore(run, key, c, e);
      var run1, s1 := run + [e], Next(s, e, c);
      if count + 1 < c.limit {
        run1, s1 := SeveralBegin(run1, c, most, key, s1, count + 1, since, most - 1, now, 1);
      }
      run', s' := SeveralFail(run1, c, most, key, s1, count + 1, since, now, more - 1);
    }
  }

  lemma LaterItShows(s: State, c: Config, key: string, count: nat, first: int, inFlight: nat, now: int, later: int)
    requires Shows(s, c, key, count, first, inFlight, now) && now <= later && count > 0
    ensures later - first <= c.ttl ==> Shows(s, c, key, count, first, inFlight, later)
    ensures later - first > c.ttl ==> Shows(s, c, key, 0, 0, inFlight, later)
  {
  }

  /** A window from its first failure at one time to its last at another, as full as it gets. */
  lemma FullWindow(run: seq<Event>, c: Config, most: nat, key: string, s: State, start: int, rest: int)
    returns (run': seq<Event>, s': State)
    requires 1 <= c.limit && 1 <= c.ttl && 1 <= most && start <= rest <= start + c.ttl
    requires LeadsTo(run, c, most, key, s) && Shows(s, c, key, 0, 0, 0, start)
    ensures LeadsTo(run', c, most, key, s') && Shows(s', c, key, c.limit - 1 + most, start, 0, rest)
    ensures FailuresOf(run', key, c) == FailuresOf(run, key, c)
                                        + (if 1 <= start <= 1 + c.ttl then 1 else 0)
                                        + if 1 <= rest <= 1 + c.ttl then c.limit - 2 + most else 0
  {
    var run1, s1 := SeveralBegin(run, c, most, key, s, 0, 0, 0, start, most);
    var run2, s2 := SeveralFail(run1, c, most, key, s1, 0, 0, start, 1);
    LaterItShows(s2, c, key, 1, start, Under(1, c, most), start, rest);
    run', s' := SeveralFail(run2, c, most, key, s2, 1, start, rest, c.limit - 2 + most);
  }

  lemma StartShows(c: Config, most: nat, key: string)
    ensures LeadsTo([], c, most, key, START) && Shows(START, c, key, 0, 0, 0, 0) && FailuresOf([], key, c) == 0
  {
  }

  /**
   * The bound is reached, for every limit, window and number of attempts under way: the first failure of one window
   * comes just before the interval, all others at its end, and a second window starts when the first is over.
   */
  lemma FailuresPerIntervalIsTight(key: string, c: Config, inFlight: nat) returns (run: seq<Event>)
    requires 1 <= c.limit && 1 <= c.ttl && 1 <= inFlight
    ensures PossibleRun(run, c, inFlight) && NoSuccess(run, 0, |run|, key)
    ensures FailuresWithin(run, 0, |run|, key, 1, 1 + c.ttl) == 2 * (c.limit - 1 + inFlight) - 1
  {
    var s;
    StartShows(c, inFlight, key);
    run, s := FullWindow([], c, inFlight, key, START, 0, c.ttl);
    LaterItShows(s, c, key, c.limit - 1 + inFlight, 0, 0, c.ttl, 1 + c.ttl);
    run, s := FullWindow(run, c, inFlight, key, s, 1 + c.ttl, 1 + c.ttl);
  }

  // ----- enough failures block -----

  predicate FailsOf(e: Event, key: string) {
    e.Fail? && e.key == key
  }

  /** Recorded failures of the key between events m and n. */
  function FailuresBetween(run: seq<Event>, m: nat, n: nat, key: string): nat
    requires m <= n <= |run|
    decreases n
  {
    if m == n then 0 else FailuresBetween(run, m, n - 1, key) + if FailsOf(run[n - 1], key) then 1 else 0
  }

  /**
   * Read off the events alone: a failure opens a window if no earlier one, with no success since, opened one that
   * still lasts.
   */
  ghost predicate Opens(run: seq<Event>, m: nat, key: string, c: Config)
    requires m < |run|
    decreases m
  {
    && FailsOf(run[m], key)
    && forall i :: 0 <= i < m && Opens(run, i, key, c) && NoSuccess(run, i, m, key) ==> run[m].now - run[i].now > c.ttl
  }

  lemma StepAt(run: seq<Event>, n: nat, c: Config, most: nat)
    requires n < |run| && PossibleRun(run, c, most)
    ensures Possible(After(run, n, c), run[n], c, most)
    ensures After(run, n + 1, c) == Next(After(run, n, c), run[n], c)
    ensures After(run, n, c).clock <= After(run, n + 1, c).clock == run[n].now
  {
    assert PossibleAt(run, n, c, most);
  }

  lemma OpeningStep(s: State, e: Event, key: string, c: Config, most: nat)
    requires Possible(s, e, c, most) && FailsOf(e, key) && !Live(s.failures, key, e.now, c)
    ensures key in Next(s, e, c).failures && Next(s, e, c).failures[key] == Window(1, e.now)
  {
  }

  lemma CountingStep(s: State, e: Event, key: string, c: Config, most: nat, w: Window)
    requires Possible(s, e, c, most) && !(e.Succeed? && e.key == key)
    requires key in s.failures && s.failures[key] == w && e.now - w.firstAttemptAt <= c.ttl
    ensures key in Next(s, e, c).failures
    ensures Next(s, e, c).failures[key] == Window(w.count + if FailsOf(e, key) then 1 else 0, w.firstAttemptAt)
  {
  }

  lemma StepBack(s: State, e: Event, key: string, c: Config, most: nat)
    requires Possible(s, e, c, most) && key in Next(s, e, c).failures
    requires !(FailsOf(e, key) && !Live(s.failures, key, e.now, c))
    ensures key in s.failures && !(e.Succeed? && e.key == key)
    ensures Next(s, e, c).failures[key]
         == Window(s.failures[key].count + if FailsOf(e, key) then 1 else 0, s.failures[key].firstAttemptAt)
  {
  }

  /** The window that event m opened, as the events up to n show it. */
  ghost predicate OpenedBy(run: seq<Event>, m: nat, n: nat, key: string, c: Config, w: Window)
    requires m < n <= |run|
  {
    && Opens(run, m, key, c) && NoSuccess(run, m, n, key)
    && w.count == FailuresBetween(run, m, n, key) && w.firstAttemptAt == run[m].now
  }

  lemma JustOpened(run: seq<Event>, m: nat, key: string, c: Config)
    requires m < |run| && Opens(run, m, key, c)
    ensures OpenedBy(run, m, m + 1, key, c, Window(1, run[m].now))
  {
    assert FailuresBetween(run, m, m, key) == 0;
  }

  lemma StillOpened(run: seq<Event>, m: nat, n: nat, key: string, c: Config, w: Window)
    requires m < n < |run| && OpenedBy(run, m, n, key, c, w) && !(run[n].Succeed? && run[n].key == key)
    ensures OpenedBy(run, m, n + 1, key, c, Window(w.count + if FailsOf(run[n], key) then 1 else 0, w.firstAttemptAt))
  {
  }

  predicate IsWindow(s: State, key: string, w: Window) {
    key in s.failures && s.failures[key] == w
  }

  /** A window after a step: opened by it, or there before it. */
  lemma WindowStep(s: State, e: Event, key: string, c: Config, most: nat, w: Window) returns (isNew: bool, w0: Window)
    requires Possible(s, e, c, most) && IsWindow(Next(s, e, c), key, w)
    ensures isNew ==> FailsOf(e, key) && !Live(s.failures, key, e.now, c) && w == Window(1, e.now)
    ensures !isNew ==> IsWindow(s, key, w0) && !(e.Succeed? && e.key == key)
                        && w == Window(w0.count + if FailsOf(e, key) then 1 else 0, w0.firstAttemptAt)
  {
    isNew, w0 := FailsOf(e, key) && !Live(s.failures, key, e.now, c), w;
    if isNew {
      OpeningStep(s, e, key, c, most);
    } else {
      StepBack(s, e, key, c, most);
      w0 := s.failures[key];
    }
  }

  lemma WindowStepAt(run: seq<Event>, n: nat, key: string, c: Config, most: nat, w: Window)
    returns (isNew: bool, w0: Window)
    requires PossibleRun(run, c, most) && n < |run| && IsWindow(After(run, n + 1, c), key, w)
    ensures isNew ==> FailsOf(run[n], key) && !Live(After(run, n, c).failures, key, run[n].now, c) && w == Window(1, run[n].now)
    ensures !isNew ==> IsWindow(After(run, n, c), key, w0) && !(run[n].Succeed? && run[n].key == key)
                       && w == Window(w0.count + if FailsOf(run[n], key) then 1 else 0, w0.firstAttemptAt)
  {
    StepAt(run, n, c, most);
    isNew, w0 := WindowStep(After(run, n, c), run[n], key, c, most, w);
  }

  lemma NoWindowAtStart(run: seq<Event>, key: string, c: Config, w: Window)
    ensures !IsWindow(After(run, 0, c), key, w)
  {
  }

  /** Every window in the table was opened by a failure of its key and has counted its failures since. */
  lemma {:induction false} WindowWasOpened(run: seq<Event>, n: nat, key: string, c: Config, most: nat, w: Window)
    returns (m: nat)
    requires PossibleRun(run, c, most) && n <= |run| && IsWindow(After(run, n, c), key, w)
    ensures m < n && OpenedBy(run, m, n, key, c, w)
    decreases n, 0
  {
    if n == 0 {
      NoWindowAtStart(run, key, c, w);
    } else {
      var isNew, w0 := WindowStepAt(run, n - 1, key, c, most, w);
      if isNew {
        m := n - 1;
        NotLiveOpens(run, m, key, c, most);
        JustOpened(run, m, key, c);
      } else {
        m := WindowWasOpened(run, n - 1, key, c, most, w0);
        StillOpened(run, m, n - 1, key, c, w0);
      }
    }
  }

  lemma {:induction false} NotLiveOpens(run: seq<Event>, m: nat, key: string, c: Config, most: nat)
    requires PossibleRun(run, c, most) && m < |run|
    requires FailsOf(run[m], key) && !Live(After(run, m, c).failures, key, run[m].now, c)
    ensures Opens(run, m, key, c)
    decreases m, 1
  {
    StepAt(run, m, c, most);
    forall i | 0 <= i < m && Opens(run, i, key, c) && NoSuccess(run, i, m, key)
      ensures run[m].now - run[i].now > c.ttl
    {
      if run[m].now - run[i].now <= c.ttl {
        TimesGrow(run, m, c, most);
        var w := WindowCounts(run, i, m, key, c, most);
      }
    }
  }

  lemma {:induction false} OpensIsNotLive(run: seq<Event>, m: nat, key: string, c: Config, most: nat)
    requires PossibleRun(run, c, most) && m < |run| && Opens(run, m, key, c)
    ensures !Live(After(run, m, c).failures, key, run[m].now, c)
    decreases m, 1
  {
    if key in After(run, m, c).failures {
      var i := WindowWasOpened(run, m, key, c, most, After(run, m, c).failures[key]);
    }
  }

  lemma OpeningStepAt(run: seq<Event>, m: nat, key: string, c: Config, most: nat)
    requires PossibleRun(run, c, most) && m < |run| && FailsOf(run[m], key)
    requires !Live(After(run, m, c).failures, key, run[m].now, c)
    ensures IsWindow(After(run, m + 1, c), key, Window(1, run[m].now))
  {
    StepAt(run, m, c, most);
    OpeningStep(After(run, m, c), run[m], key, c, most);
  }

  lemma CountingStepAt(run: seq<Event>, n: nat, key: string, c: Config, most: nat, w: Window)
    requires PossibleRun(run, c, most) && n < |run| && IsWindow(After(run, n, c), key, w)
    requires !(run[n].Succeed? && run[n].key == key) && run[n].now - w.firstAttemptAt <= c.ttl
    ensures IsWindow(After(run, n + 1, c), key, Window(w.count + if FailsOf(run[n], key) then 1 else 0, w.firstAttemptAt))
  {
    StepAt(run, n, c, most);
    CountingStep(After(run, n, c), run[n], key, c, most, w);
  }

  /** An opened window counts the failures of its key as long as it lasts. */
  lemma {:induction false} WindowCounts(run: seq<Event>, m: nat, n: nat, key: string, c: Config, most: nat)
    returns (w: Window)
    requires PossibleRun(run, c, most) && m < n <= |run|
    requires Opens(run, m, key, c) && NoSuccess(run, m, n, key) && run[n - 1].now - run[m].now <= c.ttl
    ensures IsWindow(After(run, n, c), key, w) && OpenedBy(run, m, n, key, c, w)
    decreases n, 0
  {
    if n == m + 1 {
      w := Window(1, run[m].now);
      OpensIsNotLive(run, m, key, c, most);
      OpeningStepAt(run, m, key, c, most);
      JustOpened(run, m, key, c);
    } else {
      TimesGrow(run, n - 1, c, most);
      var w0 := WindowCounts(run, m, n - 1, key, c, most);
      CountingStepAt(run, n - 1, key, c, most, w0);
      StillOpened(run, m, n - 1, key, c, w0);
      w := Window(w0.count + if FailsOf(run[n - 1], key) then 1 else 0, w0.firstAttemptAt);
    }
  }

  lemma TimesGrow(run: seq<Event>, n: nat, c: Config, most: nat)
    requires 1 <= n <= |run| && PossibleRun(run, c, most)
    ensures After(run, n, c).clock == run[n - 1].now
    ensures n < |run| ==> run[n - 1].now <= run[n].now
  {
    StepAt(run, n - 1, c, most);
    if n < |run| {
      StepAt(run, n, c, most);
    }
  }

  /** At this time a window opened by event m still lasts and holds `limit` failures or more. */
  ghost predicate FilledSince(run: seq<Event>, m: nat, n: nat, key: string, now: int, c: Config)
    requires m < n <= |run|
  {
    && Opens(run, m, key, c) && NoSuccess(run, m, n, key) && now - run[m].now <= c.ttl
    && FailuresBetween(run, m, n, key) >= c.limit
  }

  /**
   * Exactly when an attempt is turned away, read off the events: some failure opened a window that still lasts, the
   * key failed `limit` times since, and no success came in between.
   */
  lemma BlockedIffFilled(run: seq<Event>, n: nat, key: string, now: int, c: Config, most: nat)
    requires PossibleRun(run, c, most) && n <= |run| && After(run, n, c).clock <= now
    ensures Blocked(After(run, n, c).failures, key, now, c)
       <==> exists m :: 0 <= m < n && FilledSince(run, m, n, key, now, c)
  {
    forall m | 0 <= m < n && FilledSince(run, m, n, key, now, c)
      ensures Blocked(After(run, n, c).failures, key, now, c)
    {
      TimesGrow(run, n, c, most);
      var w := WindowCounts(run, m, n, key, c, most);
    }
    if Blocked(After(run, n, c).failures, key, now, c) {
      var m := WindowWasOpened(run, n, key, c, most, After(run, n, c).failures[key]);
      assert FilledSince(run, m, n, key, now, c);
    }
  }

  // ----- the service objects -----

  /** One more failure in the key's window if that still lasts, else the first one of a new window. */
  predicate FailureCounted(before: Failures, after: Failures, key: string, now: int, c: Config) {
    && key in after
    && (key in before && now - before[key].firstAttemptAt <= c.ttl ==>
          after[key].count == before[key].count + 1 && after[key].firstAttemptAt == before[key].firstAttemptAt)
    && (key !in before || now - before[key].firstAttemptAt > c.ttl ==>
          after[key].count == 1 && after[key].firstAttemptAt == now)
  }

  lemma FailureIsCounted(before: Failures, key: string, prunedAt: int, now: int, c: Config)
    ensures prunedAt <= now ==> FailureCounted(before, Counted(Pruned(before, prunedAt, c), key, now, c), key, now, c)
  {
  }

  /** The key's window lasts at this time and has the limit of failures. */
  predicate AtLimit(failures: Failures, key: string, now: int, c: Config) {
    key in failures && now - failures[key].firstAttemptAt <= c.ttl && failures[key].count >= c.limit
  }

  class ProxyRateLimitService {
    const c: Config
    var failures: Failures

    constructor (c: Config)
      ensures this.c == c && failures == map[]
    {
      this.c := c;
      failures := map[];
    }

    method IsBlocked(key: string, now: int) returns (blocked: bool)
      modifies this
      ensures blocked == Blocked(old(failures), key, now, c)
      ensures failures == Checked(old(failures), key, now, c)
      ensures blocked <==> AtLimit(old(failures), key, now, c)
      ensures key in failures <==> key in old(failures) && now - old(failures)[key].firstAttemptAt <= c.ttl
    {
      if key !in failures {
        return false;
      }
      var window := failures[key];
      if Expired(window, now, c) {
        failures := failures - {key};
        return false;
      }
      return window.count >= c.limit;
    }

    method RecordFailure(key: string, prunedAt: int, now: int)
      modifies this
      ensures failures == Counted(Pruned(old(failures), prunedAt, c), key, now, c)
      ensures prunedAt <= now ==> FailureCounted(old(failures), failures, key, now, c)
    {
      FailureIsCounted(failures, key, prunedAt, now, c);
      PruneExpired(prunedAt);
      if key !in failures || Expired(failures[key], now, c) {
        failures := failures[key := Window(1, now)];
        return;
      }
      failures := failures[key := failures[key].(count := failures[key].count + 1)];
    }

    method RecordSuccess(key: string)
      modifies this
      ensures failures == old(failures) - {key}
    {
      failures := failures - {key};
    }

    method PruneExpired(now: int)
      modifies this
      ensures failures == Pruned(old(failures), now, c)
      ensures forall key :: key in failures <==> key in old(failures) && now - old(failures)[key].firstAttemptAt <= c.ttl
    {
      ghost var before := failures;
      var left := failures.Keys;
      while left != {}
        invariant left <= before.Keys
        invariant failures == map key | key in before && (key in left || !Expired(before[key], now, c)) :: before[key]
        decreases left
      {
        var key :| key in left;
        if Expired(failures[key], now, c) {
          failures := failures - {key};
        }
        left := left - {key};
      }
    }
  }

  datatype AuthError = RateLimited | InvalidCredentials | SessionRequired | SessionRejected

  /** What the database and the password check say about one attempt. */
  datatype Lookup = Lookup(userId: Option<string>, passwordValid: bool, sessionId: Option<string>, deviceAccepted: bool)

  datatype AuthenticatedUser = AuthenticatedUser(userId: string, sessionId: string)

  /** How an attempt that was let in ends. */
  function Outcome(key: string, found: Lookup, prunedAt: int, now: int): Event {
    if found.userId.None? || !found.passwordValid then Fail(key, prunedAt, now)
    else if found.sessionId.None? || !found.deviceAccepted then Abandon(key, now)
    else Succeed(key, now)
  }

  class ProxyAuthService {
    const rateLimit: ProxyRateLimitService
    const c: Config
    ghost const most: nat
    ghost var inFlight: multiset<string>
    ghost var unpruned: Failures
    ghost var clock: int

    ghost function View(): State
      reads this, rateLimit
    {
      State(rateLimit.failures, inFlight, unpruned, clock)
    }

    ghost predicate Valid()
      reads this, rateLimit
    {
      rateLimit.c == c && 1 <= c.limit && Inv(View(), c, most)
    }

    constructor (c: Config, ghost most: nat)
      requires 1 <= c.limit
      ensures Valid() && View() == START && this.c == c && this.most == most && fresh(rateLimit)
    {
      this.c := c;
      this.most := most;
      rateLimit := new ProxyRateLimitService(c);
      inFlight, unpruned, clock := multiset{}, map[], 0;
    }

    /** The part before the first wait: nobody blocked gets past it. */
    method BeginAttempt(key: string, now: int) returns (admitted: bool)
      requires Valid() && Possible(View(), Begin(key, now), c, most)
      modifies this, rateLimit
      ensures Valid() && View() == Next(old(View()), Begin(key, now), c)
      ensures admitted == !Blocked(old(unpruned), key, now, c) == !Blocked(old(rateLimit.failures), key, now, c)
    {
      NextKeepsInv(View(), Begin(key, now), c, most);
      PruningNeverChangesAnAnswer(View(), key, now, c, most);
      var blocked := rateLimit.IsBlocked(key, now);
      admitted := !blocked;
      inFlight, clock := if admitted then inFlight + multiset{key} else inFlight, now;
    }

    /** The part after the waits, for an attempt that was let in. */
    method EndAttempt(key: string, found: Lookup, prunedAt: int, now: int) returns (r: Result<AuthenticatedUser, AuthError>)
      requires Valid() && Possible(View(), Outcome(key, found, prunedAt, now), c, most)
      modifies this, rateLimit
      ensures Valid() && View() == Next(old(View()), Outcome(key, found, prunedAt, now), c)
      ensures r.Ok? <==> found.userId.Some? && found.passwordValid && found.sessionId.Some? && found.deviceAccepted
      ensures r.Ok? ==> r.value == AuthenticatedUser(found.userId.value, found.sessionId.value)
      ensures r == Err(InvalidCredentials) <==> found.userId.None? || !found.passwordValid
      ensures r == Err(SessionRequired) <==> found.userId.Some? && found.passwordValid && found.sessionId.None?
      ensures r == Err(InvalidCredentials) ==> FailureCounted(old(rateLimit.failures), rateLimit.failures, key, now, c)
      ensures r.Ok? ==> rateLimit.failures == old(rateLimit.failures) - {key}
      ensures r == Err(SessionRequired) || r == Err(SessionRejected) ==> rateLimit.failures == old(rateLimit.failures)
      ensures r != Err(RateLimited)
    {
      NextKeepsInv(View(), Outcome(key, found, prunedAt, now), c, most);
      FailureIsCounted(rateLimit.failures, key, prunedAt, now, c);
      clock := now;
      inFlight := inFlight - multiset{key};
      if found.userId.None? {
        rateLimit.RecordFailure(key, prunedAt, now);
        unpruned := Counted(unpruned, key, now, c);
        return Err(InvalidCredentials);
      }
      if !found.passwordValid {
        rateLimit.RecordFailure(key, prunedAt, now);
        unpruned := Counted(unpruned, key, now, c);
        return Err(InvalidCredentials);
      }
      if found.sessionId.None? {
        return Err(SessionRequired);
      }
      if !found.deviceAccepted {
        return Err(SessionRejected);
      }
      rateLimit.RecordSuccess(key);
      unpruned := unpruned - {key};
      return Ok(AuthenticatedUser(found.userId.value, found.sessionId.value));
    }

    /** A whole attempt that nobody interrupts. */
    method AuthenticateWithBasicCredentials(key: string, found: Lookup, checkedAt: int, prunedAt: int, now: int)
      returns (r: Result<AuthenticatedUser, AuthError>)
      requires Valid() && clock <= checkedAt <= prunedAt <= now
      requires Possible(View(), Begin(key, checkedAt), c, most)
      modifies this, rateLimit
      ensures Valid()
      ensures r == Err(RateLimited) <==> Blocked(old(unpruned), key, checkedAt, c)
      ensures r == Err(RateLimited) <==> AtLimit(old(rateLimit.failures), key, checkedAt, c)
      ensures r.Ok? <==> !AtLimit(old(rateLimit.failures), key, checkedAt, c) && found.userId.Some? && found.passwordValid
                         && found.sessionId.Some? && found.deviceAccepted
      ensures r.Ok? ==> r.value == AuthenticatedUser(found.userId.value, found.sessionId.value)
      ensures r == Err(InvalidCredentials)
         <==> !AtLimit(old(rateLimit.failures), key, checkedAt, c) && (found.userId.None? || !found.passwordValid)
      ensures r == Err(InvalidCredentials) ==> FailureCounted(old(rateLimit.failures), rateLimit.failures, key, now, c)
      ensures r.Ok? ==> key !in rateLimit.failures
      ensures r == Err(RateLimited) ==> View() == Next(old(View()), Begin(key, checkedAt), c)
      ensures r != Err(RateLimited) ==>
                View() == Next(Next(old(View()), Begin(key, checkedAt), c), Outcome(key, found, prunedAt, now), c)
    {
      var admitted := BeginAttempt(key, checkedAt);
      if !admitted {
        return Err(RateLimited);
      }
      r := EndAttempt(key, found, prunedAt, now);
    }
  }
}
