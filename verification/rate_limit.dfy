/** The per-client fixed-window rate limiter: one counter row per key, updated in place. Requests run side
    by side: what is fixed is the order in which their statements reach the table. */
module RateLimit {
  import opened Wrappers

  /** A route joined with the client's tag. */
  type Key(==, !new)

  const PRUNE_INTERVAL := 60
  const PRUNE_AGE := 3600

  datatype Window = Window(start: int, count: int)
  type Rows = map<Key, Window>

  function WindowStart(now: int, window: int): (start: int)
    requires window > 0
    ensures start <= now < start + window
  {
    now - now % window
  }

  /** The upsert: count on inside the same window, start again at one in another. */
  function Counted(rows: Rows, key: Key, start: int): Rows {
    rows[key := Window(start, if key in rows && rows[key].start == start then rows[key].count + 1 else 1)]
  }

  function Pruned(rows: Rows, now: int): Rows {
    map k | k in rows && rows[k].start >= now - PRUNE_AGE :: rows[k]
  }

  // ----- Windows -----

  lemma Scaled(d: int, window: int)
    requires window > 0
    ensures d >= 1 ==> d * window >= window
    ensures d >= 2 ==> d * window >= 2 * window
    ensures d <= 0 ==> d * window <= 0
    ensures d <= -1 ==> d * window <= -window
  {
  }

  lemma Quotient(x: int, q: int, r: int, window: int)
    requires 0 <= r < window && x == q * window + r
    ensures x / window == q && x % window == r
  {
    var d := q - x / window;
    assert d * window == x % window - r;
    Scaled(d, window);
  }

  /** The windows of one length tile the clock: starts are fixed points and grow with time. */
  lemma WindowsTile(a: int, b: int, window: int)
    requires window > 0 && a <= b
    ensures WindowStart(WindowStart(a, window), window) == WindowStart(a, window)
    ensures WindowStart(a, window) <= WindowStart(b, window)
    ensures WindowStart(a, window) == WindowStart(b, window)
            || WindowStart(b, window) >= WindowStart(a, window) + window
  {
    Quotient(WindowStart(a, window), a / window, 0, window);
    var d := b / window - a / window;
    assert WindowStart(b, window) - WindowStart(a, window) == d * window;
    Scaled(d, window);
  }

  /** Waiting until the end of the window lands on the first instant of the next one. */
  lemma NextWindow(now: int, window: int)
    requires window > 0
    ensures var wait := window - now % window;
            && 0 < wait <= window && WindowStart(now + wait, window) == now + wait
            && now + wait == WindowStart(now, window) + window
  {
    var q := now / window;
    assert now + (window - now % window) == (q + 1) * window + 0;
    Quotient(now + (window - now % window), q + 1, 0, window);
  }

  // ----- The log of all statements -----

  /** A cleanup with the clock its cutoff was taken from, or the hit of a request with its own. */
  datatype Event = Clean(at: int) | Hit(key: Key, window: int, at: int)

  datatype Limits = Limits(rows: Rows, marker: Option<int>)

  predicate Due(marker: Option<int>, now: int) {
    marker.Some? ==> now - marker.value >= PRUNE_INTERVAL
  }

  function Step(s: Limits, e: Event): Limits
    requires e.Hit? ==> e.window > 0
  {
    match e
    case Clean(at) => if Due(s.marker, at) then Limits(Pruned(s.rows, at), Some(at)) else s
    case Hit(key, window, at) => s.(rows := Counted(s.rows, key, WindowStart(at, window)))
  }

  /** A cleanup: at most every minute, exactly the rows whose window began more than an hour before go. */
  lemma CleanSays(s: Limits, at: int)
    ensures var s' := Step(s, Clean(at));
            var due := s.marker.None? || at - s.marker.value >= 60;
            && s'.marker == (if due then Some(at) else s.marker)
            && (forall k :: k in s'.rows <==> k in s.rows && (due ==> s.rows[k].start + 3600 >= at))
            && (forall k :: k in s'.rows ==> s'.rows[k] == s.rows[k])
  {
  }

  predicate Windowed(log: seq<Event>) {
    forall i :: 0 <= i < |log| && log[i].Hit? ==> 0 < log[i].window <= PRUNE_AGE
  }

  /** Every route has one window, of at most an hour; hits reach the table in clock order; and no cleanup
      is so far ahead of a later hit that it takes the hit's window for past. */
  ghost predicate Orderly(log: seq<Event>) {
    && Windowed(log)
    && (forall i, j :: 0 <= i < j < |log| && log[i].Hit? && log[j].Hit? ==> log[i].at <= log[j].at)
    && (forall i, j :: 0 <= i < j < |log| && log[i].Clean? && log[j].Hit? ==>
       log[i].at - PRUNE_AGE <= log[j].at - log[j].window)
    && (forall i, j :: 0 <= i < |log| && 0 <= j < |log| && log[i].Hit? && log[j].Hit? && log[i].key == log[j].key ==>
          log[i].window == log[j].window)
  }

  function Run(log: seq<Event>): Limits
    requires Windowed(log)
  {
    if log == [] then Limits(map[], None) else Step(Run(log[..|log| - 1]), log[|log| - 1])
  }

  /** The event hits this key in the window that starts at `start`. */
  predicate HitsWindow(e: Event, key: Key, start: int)
    requires e.Hit? ==> e.window > 0
  {
    e.Hit? && e.key == key && WindowStart(e.at, e.window) == start
  }

  /** How many requests have hit this key in the window that starts at `start`. */
  function Hits(log: seq<Event>, key: Key, start: int): nat
    requires Windowed(log)
  {
    if log == [] then 0
    else Hits(log[..|log| - 1], key, start) + if HitsWindow(log[|log| - 1], key, start) then 1 else 0
  }

  lemma OrderlyPrefix(log: seq<Event>, n: nat)
    requires Orderly(log) && n <= |log|
    ensures Orderly(log[..n])
  {
  }

  // ----- The counter against the log -----

  ghost predicate EmptyAfter(log: seq<Event>, key: Key, bound: int)
    requires Windowed(log)
  {
    forall start :: start > bound ==> Hits(log, key, start) == 0
  }

  /** The row of a key, for a hit at `at` to come: it counts its own window's hits exactly, and every
      later window is still empty. A key without a row has no hits the coming one could share. */
  ghost predicate RowMatches(rows: Rows, log: seq<Event>, key: Key, window: int, at: int)
    requires Windowed(log) && window > 0
  {
    if key in rows then
      && rows[key].count == Hits(log, key, rows[key].start)
      && rows[key].start == WindowStart(rows[key].start, window) <= at
      && EmptyAfter(log, key, rows[key].start)
    else EmptyAfter(log, key, at - window)
  }

  lemma PruningKeepsMatch(rows: Rows, log: seq<Event>, key: Key, window: int, at: int, now: int)
    requires Windowed(log) && window > 0 && RowMatches(rows, log, key, window, at) && now - PRUNE_AGE <= at - window
    ensures RowMatches(Pruned(rows, now), log, key, window, at)
  {
  }

  /** A cleanup in the log counts for nothing. */
  lemma CleanKeepsMatch(rows: Rows, log: seq<Event>, key: Key, window: int, at: int)
    requires log != [] && Windowed(log) && log[|log| - 1].Clean? && window > 0
    requires RowMatches(rows, log[..|log| - 1], key, window, at)
    ensures RowMatches(rows, log, key, window, at)
  {
    assert forall s :: Hits(log, key, s) == Hits(log[..|log| - 1], key, s);
  }

  /** A hit of another key. */
  lemma OtherKeepsMatch(rows: Rows, log: seq<Event>, key: Key, window: int, at: int)
    requires log != [] && Windowed(log) && log[|log| - 1].Hit? && log[|log| - 1].key != key && window > 0
    requires RowMatches(rows, log[..|log| - 1], key, window, at)
    ensures var r := log[|log| - 1];
            RowMatches(Counted(rows, r.key, WindowStart(r.at, r.window)), log, key, window, at)
  {
    assert forall s :: Hits(log, key, s) == Hits(log[..|log| - 1], key, s);
  }

  /** A hit of the key itself: it is counted in its own window. */
  lemma HitKeepsMatch(rows: Rows, log: seq<Event>, key: Key, window: int, at: int)
    requires log != [] && Windowed(log) && window > 0 && log[|log| - 1] == Hit(key, window, log[|log| - 1].at)
    requires RowMatches(rows, log[..|log| - 1], key, window, log[|log| - 1].at) && log[|log| - 1].at <= at
    ensures RowMatches(Counted(rows, key, WindowStart(log[|log| - 1].at, window)), log, key, window, at)
  {
    var r, before := log[|log| - 1], log[..|log| - 1];
    var start := WindowStart(r.at, window);
    assert forall s :: Hits(log, key, s) == Hits(before, key, s) + if start == s then 1 else 0;
    WindowsTile(r.at, r.at, window);
    if key in rows { WindowsTile(rows[key].start, r.at, window); }
  }

  /** A hit of this key at `at` may come after the log. */
  ghost predicate MayFollow(log: seq<Event>, key: Key, window: int, at: int) {
    && (forall i :: 0 <= i < |log| && log[i].Hit? ==>
       log[i].at <= at && (log[i].key == key ==> log[i].window == window))
    && (forall i :: 0 <= i < |log| && log[i].Clean? ==> log[i].at - PRUNE_AGE <= at - window)
  }

  lemma {:induction false} RowsMatch(log: seq<Event>, key: Key, window: int, at: int)
    requires Orderly(log) && window > 0 && MayFollow(log, key, window, at)
    ensures RowMatches(Run(log).rows, log, key, window, at)
    decreases |log|
  {
    if log != [] {
      hide RowMatches;
      var n := |log| - 1;
      var e, before := log[n], log[..n];
      OrderlyPrefix(log, n);
      match e
      case Clean(now) =>
        RowsMatch(before, key, window, at);
        PruningKeepsMatch(Run(before).rows, before, key, window, at, now);
        CleanKeepsMatch(Run(log).rows, log, key, window, at);
      case Hit(other, _, earlier) =>
        if other == key {
          RowsMatch(before, key, window, earlier);
          HitKeepsMatch(Run(before).rows, log, key, window, at);
        } else {
          RowsMatch(before, key, window, at);
          OtherKeepsMatch(Run(before).rows, log, key, window, at);
        }
    } else {
      assert Run(log).rows == map[];
    }
  }

  /** The upsert's answer to a hit, in terms of the log. */
  lemma CountOfMatch(rows: Rows, log: seq<Event>, key: Key, window: int, at: int)
    requires Windowed(log) && window > 0 && RowMatches(rows, log, key, window, at)
    ensures Counted(rows, key, WindowStart(at, window))[key].count == Hits(log, key, WindowStart(at, window)) + 1
  {
    if key in rows { WindowsTile(rows[key].start, at, window); }
  }

  /** Refinement: the counter a request is judged by is the number of requests, itself included, that
      its key has made in its window. Cleanups never change it. */
  lemma CounterIsLog(log: seq<Event>)
    requires Orderly(log) && log != [] && log[|log| - 1].Hit?
    ensures var r := log[|log| - 1];
            Run(log).rows[r.key].count == Hits(log, r.key, WindowStart(r.at, r.window))
  {
    var r, before := log[|log| - 1], log[..|log| - 1];
    OrderlyPrefix(log, |log| - 1);
    RowsMatch(before, r.key, r.window, r.at);
    CountOfMatch(Run(before).rows, before, r.key, r.window, r.at);
  }

  // ----- The table -----

  lemma CleanPlus(log: seq<Event>, now: int)
    requires Orderly(log)
    ensures Orderly(log + [Clean(now)]) && Run(log + [Clean(now)]) == Step(Run(log), Clean(now))
  {
    assert (log + [Clean(now)])[..|log|] == log;
  }

  lemma LogPlus(log: seq<Event>, hit: Event)
    requires hit.Hit? && Orderly(log) && Orderly(log + [hit])
    ensures Run(log + [hit]) == Step(Run(log), hit)
    ensures var start := WindowStart(hit.at, hit.window);
            Hits(log + [hit], hit.key, start) == Hits(log, hit.key, start) + 1
  {
    assert (log + [hit])[..|log|] == log;
  }

  class Limiter {
    var rows: Rows
    /** When the cleanup last ran: the lock file's modification time. */
    var marker: Option<int>
    /** All statements so far. */
    ghost var log: seq<Event>

    /** The table is what the log makes of an empty one. */
    ghost predicate Valid()
      reads this
    {
      Orderly(log) && Limits(rows, marker) == Run(log)
    }

    constructor ()
      ensures Valid() && log == []
    {
      rows, marker, log := map[], None, [];
    }

    /** Afterwards the cleanup has run within the last minute. When it runs, the rows whose window began
        more than an hour before go, and only those. */
    method PruneStale(now: int)
      requires Valid()
      modifies this
      ensures Valid() && log == old(log) + [Clean(now)]
      ensures marker.Some? && now - marker.value < 60
      ensures forall k :: k in rows ==> k in old(rows) && rows[k] == old(rows)[k]
      ensures var due := old(marker).None? || now - old(marker).value >= 60;
              && marker == (if due then Some(now) else old(marker))
              && forall k :: k in old(rows) ==> (k !in rows <==> due && old(rows)[k].start + 3600 < now)
    {
      hide Orderly, Run;
      CleanPlus(log, now);
      log := log + [Clean(now)];
      if marker.Some? && now - marker.value < PRUNE_INTERVAL {
        return;
      }
      marker := Some(now);
      var cutoff := now - PRUNE_AGE;
      rows := map k | k in rows && !(rows[k].start < cutoff) :: rows[k];
      assert rows == Pruned(old(rows), now);
    }

    /** The count is that of the key's requests in the current window, this one included. No other key's
        row changes. */
    method HitKey(key: Key, window: int, now: int) returns (count: int)
      requires Valid() && Orderly(log + [Hit(key, window, now)])
      modifies this`rows, this`log
      ensures Valid() && log == old(log) + [Hit(key, window, now)]
      ensures count == Hits(log, key, WindowStart(now, window)) == Hits(old(log), key, WindowStart(now, window)) + 1
      ensures key in rows && rows[key] == Window(WindowStart(now, window), count)
      ensures rows.Keys == old(rows).Keys + {key} && forall k :: k in old(rows) && k != key ==> rows[k] == old(rows)[k]
    {
      hide Orderly, Run, Hits;
      var hit := Hit(key, window, now);
      LogPlus(log, hit);
      CounterIsLog(log + [hit]);
      log := log + [hit];
      var start := now - now % window;
      if key in rows {
        count := if rows[key].start == start then rows[key].count + 1 else 1;
      } else {
        count := 1;
      }
      rows := rows[key := Window(start, count)];
    }

    /** The clock is read for the cleanup, for the hit and, on a breach, for the wait. A request is
        refused exactly when its window has seen more than `limit`, and then told to wait until the
        first instant of the next one. */
    method Enforce(key: Key, limit: int, window: int, pruneNow: int, hitNow: int, waitNow: int)
        returns (wait: Option<int>)
      requires Valid() && Orderly(log + [Clean(pruneNow)] + [Hit(key, window, hitNow)])
      modifies this
      ensures Valid() && log == old(log) + [Clean(pruneNow)] + [Hit(key, window, hitNow)]
      ensures wait.Some? <==> Hits(log, key, WindowStart(hitNow, window)) > limit
      ensures wait.Some? ==> 0 < wait.value <= window
      ensures wait.Some? ==> WindowStart(waitNow + wait.value, window) == waitNow + wait.value
    {
      hide Orderly, Run, Hits;
      PruneStale(pruneNow);
      var count := HitKey(key, window, hitNow);
      if count > limit {
        NextWindow(waitNow, window);
        return Some(window - waitNow % window);
      }
      return None;
    }
  }

  // ----- What the limit promises -----

  /** The last event of the log is a hit that gets through the limit. */
  predicate LastPasses(log: seq<Event>, limit: nat)
    requires log != [] && Windowed(log)
  {
    var e := log[|log| - 1];
    e.Hit? && Run(log).rows[e.key].count <= limit
  }

  /** The requests of a key in one window that get through a limit. */
  function Passed(log: seq<Event>, key: Key, start: int, limit: nat): nat
    requires Windowed(log)
  {
    if log == [] then 0
    else
      Passed(log[..|log| - 1], key, start, limit)
      + if HitsWindow(log[|log| - 1], key, start) && LastPasses(log, limit) then 1 else 0
  }

  /** Exactly the first `limit` requests of a window pass: never more, and never fewer while there
      are that many. */
  lemma {:induction false} WindowLimit(log: seq<Event>, key: Key, start: int, limit: nat)
    requires Orderly(log)
    ensures var hits := Hits(log, key, start);
            Passed(log, key, start, limit) == if hits <= limit then hits else limit
    decreases |log|
  {
    if log != [] {
      OrderlyPrefix(log, |log| - 1);
      WindowLimit(log[..|log| - 1], key, start, limit);
      if log[|log| - 1].Hit? { CounterIsLog(log); }
    }
  }

  /** The requests of a key that pass within the span [from, from + window). */
  function PassedIn(log: seq<Event>, key: Key, from: int, window: nat, limit: nat): nat
    requires Windowed(log)
  {
    if log == [] then 0
    else
      var e := log[|log| - 1];
      PassedIn(log[..|log| - 1], key, from, window, limit)
      + if e.Hit? && e.key == key && from <= e.at < from + window && LastPasses(log, limit) then 1 else 0
  }

  /** A span as long as a window meets two windows at most. */
  lemma {:induction false} SpanInTwoWindows(log: seq<Event>, key: Key, from: int, window: nat, limit: nat)
    requires Windowed(log) && window > 0
    requires forall i :: 0 <= i < |log| && log[i].Hit? && log[i].key == key ==> log[i].window == window
    ensures var start := WindowStart(from, window);
            PassedIn(log, key, from, window, limit)
            <= Passed(log, key, start, limit) + Passed(log, key, start + window, limit)
    decreases |log|
  {
    if log != [] {
      hide LastPasses;
      var e, before := log[|log| - 1], log[..|log| - 1];
      SpanInTwoWindows(before, key, from, window, limit);
      if e.Hit? && e.key == key && from <= e.at < from + window {
        OneOfTwo(from, e.at, window);
      }
    }
  }

  lemma OneOfTwo(from: int, at: int, window: nat)
    requires window > 0 && from <= at < from + window
    ensures WindowStart(at, window) == WindowStart(from, window)
            || WindowStart(at, window) == WindowStart(from, window) + window
  {
    WindowsTile(from, at, window);
    if WindowStart(at, window) != WindowStart(from, window) { SecondWindow(from, at, window); }
  }

  lemma SecondWindow(from: int, at: int, window: nat)
    requires window > 0 && from <= at < from + window && WindowStart(at, window) >= WindowStart(from, window) + window
    ensures WindowStart(at, window) == WindowStart(from, window) + window
  {
    var d := at / window - from / window;
    assert WindowStart(at, window) - WindowStart(from, window) == d * window;
    Scaled(d, window);
  }

  /** The request at i is within the limit when it is judged. */
  ghost predicate PassesAt(log: seq<Event>, i: nat, limit: nat)
    requires Windowed(log) && i < |log|
  {
    log[i].Hit? && log[i].key in Run(log[..i + 1]).rows && Run(log[..i + 1]).rows[log[i].key].count <= limit
  }

  ghost function PassingIn(log: seq<Event>, key: Key, from: int, window: nat, limit: nat): set<nat>
    requires Windowed(log)
  {
    set i: nat |
      && i < |log| && log[i].Hit? && log[i].key == key && from <= log[i].at < from + window
      && PassesAt(log, i, limit)
  }

  ghost function PassingWindow(log: seq<Event>, key: Key, start: int, limit: nat): set<nat>
    requires Windowed(log)
  {
    set i: nat | i < |log| && HitsWindow(log[i], key, start) && PassesAt(log, i, limit)
  }

  ghost function InWindow(log: seq<Event>, key: Key, start: int): set<nat>
    requires Windowed(log)
  {
    set i: nat | i < |log| && log[i].Hit? && log[i].key == key && log[i].at - log[i].at % log[i].window == start
  }

  lemma SameEarlier(log: seq<Event>, limit: nat)
    requires log != [] && Windowed(log)
    ensures var n := |log| - 1;
            && Windowed(log[..n]) && (forall i: nat :: i < n ==> log[..n][i] == log[i])
            && (forall i: nat :: i < n ==> (PassesAt(log, i, limit) <==> PassesAt(log[..n], i, limit)))
            && (PassesAt(log, n, limit) <==> LastPasses(log, limit))
  {
    var n := |log| - 1;
    assert log[..n + 1] == log;
    forall i: nat | i < n ensures PassesAt(log, i, limit) <==> PassesAt(log[..n], i, limit) {
      assert log[..n][..i + 1] == log[..i + 1];
    }
  }

  /** What the recursive counts count. */
  lemma {:induction false} CountsAreCounts(log: seq<Event>, key: Key, start: int, from: int, window: nat, limit: nat)
    requires Windowed(log)
    ensures Hits(log, key, start) == |InWindow(log, key, start)|
    ensures Passed(log, key, start, limit) == |PassingWindow(log, key, start, limit)|
    ensures PassedIn(log, key, from, window, limit) == |PassingIn(log, key, from, window, limit)|
    decreases |log|
  {
    if log != [] {
      var n := |log| - 1;
      CountsAreCounts(log[..n], key, start, from, window, limit);
      SameEarlier(log, limit);
      hide PassesAt, LastPasses, Run;
      OneMoreIn(InWindow(log[..n], key, start), InWindow(log, key, start), n);
      OneMoreIn(PassingWindow(log[..n], key, start, limit), PassingWindow(log, key, start, limit), n);
      OneMoreIn(PassingIn(log[..n], key, from, window, limit), PassingIn(log, key, from, window, limit), n);
    }
  }

  lemma OneMoreIn(before: set<nat>, after: set<nat>, n: nat)
    requires forall i :: i in before ==> i < n
    requires forall i :: i in after && i != n <==> i in before
    ensures |after| == |before| + if n in after then 1 else 0
  {
    if n in after {
      assert after == before + {n};
    } else {
      assert after == before;
    }
  }

  /** In any span of `window` seconds at most twice the limit passes. */
  lemma SpanLimit(log: seq<Event>, key: Key, from: int, window: nat, limit: nat)
    requires Orderly(log) && window > 0
    requires forall i :: 0 <= i < |log| && log[i].Hit? && log[i].key == key ==> log[i].window == window
    ensures |PassingIn(log, key, from, window, limit)| <= 2 * limit
  {
    CountsAreCounts(log, key, 0, from, window, limit);
    hide PassedIn, Passed, PassingIn, Orderly;
    SpanInTwoWindows(log, key, from, window, limit);
    WindowLimit(log, key, WindowStart(from, window), limit);
    WindowLimit(log, key, WindowStart(from, window) + window, limit);
  }

  /** Of the requests of a window exactly as many pass as the limit allows. */
  lemma WindowLimitCounted(log: seq<Event>, key: Key, start: int, limit: nat)
    requires Orderly(log)
    ensures var hits := |InWindow(log, key, start)|;
            |PassingWindow(log, key, start, limit)| == if hits <= limit then hits else limit
  {
    CountsAreCounts(log, key, start, 0, 0, limit);
    WindowLimit(log, key, start, limit);
  }

  /** A client told to wait that comes back when it was told to is the first of its window, if
      nobody shared its key meanwhile: it passes any positive limit. */
  lemma WaitIsEnough(log: seq<Event>, now: int)
    requires Orderly(log) && log != [] && log[|log| - 1].Hit?
    requires var r := log[|log| - 1];
             && (forall i :: 0 <= i < |log| - 1 && log[i].Hit? && log[i].key == r.key ==> log[i].at <= now)
             && r.at == now + (r.window - now % r.window)
    ensures Run(log).rows[log[|log| - 1].key].count == 1
  {
    var r, before := log[|log| - 1], log[..|log| - 1];
    CounterIsLog(log);
    assert WindowStart(r.at, r.window) == r.at by { NextWindow(now, r.window); }
    hide Run;
    NoHitsAhead(before, r.key, r.at);
  }

  lemma {:induction false} NoHitsAhead(log: seq<Event>, key: Key, start: int)
    requires Windowed(log) && forall i :: 0 <= i < |log| && log[i].Hit? && log[i].key == key ==> log[i].at < start
    ensures Hits(log, key, start) == 0
    decreases |log|
  {
    if log != [] {
      NoHitsAhead(log[..|log| - 1], key, start);
    }
  }
}
