/**
 The per-key fixed-window rate limiter of the camo sign endpoint (go/internal/camo/ratelimit.go).

 Instants and durations are integers of one unit (nanoseconds in the program). The clock is an
 argument of every call. `lastSweep` is None until the first sweep: the program's zero time lies
 further back than any window, so the first call always sweeps.
 */
module RateLimiter {
  import opened Options

  datatype Window = Window(start: int, count: int)

  /** One call of Allow: the key and the reading of the clock. */
  datatype Call = Call(key: string, now: int)

  /** The mutable part of the limiter. */
  datatype State = State(windows: map<string, Window>, lastSweep: Option<int>)

  const EMPTY: State := State(map[], None)

  // ---------------------------------------------------------------- one call

  predicate Expired(w: Window, window: int, now: int)
  {
    now - w.start >= window
  }

  /** The windows that a sweep at `now` leaves in place. */
  function Live(windows: map<string, Window>, window: int, now: int): map<string, Window>
  {
    map k | k in windows && !Expired(windows[k], window, now) :: windows[k]
  }

  function Swept(s: State, window: int, now: int): State
  {
    if s.lastSweep.Some? && now - s.lastSweep.value < window then s
    else State(Live(s.windows, window, now), Some(now))
  }

  /** The budget decision on the key's window; it never looks at another key. */
  function Decide(w: Option<Window>, limit: int, window: int, now: int): (r: (Window, bool))
  {
    if w.None? || Expired(w.value, window, now) then (Window(now, 1), true)
    else if w.value.count >= limit then (w.value, false)
    else (Window(w.value.start, w.value.count + 1), true)
  }

  function Lookup(windows: map<string, Window>, key: string): Option<Window>
  {
    if key in windows then Some(windows[key]) else None
  }

  function Step(s: State, limit: int, window: int, c: Call): (State, bool)
  {
    var t := Swept(s, window, c.now);
    var (w, ok) := Decide(Lookup(t.windows, c.key), limit, window, c.now);
    (State(t.windows[c.key := w], t.lastSweep), ok)
  }

  /** The limiter as the program holds it; the mutex makes each Allow one step. */
  class Limiter {
    const limit: int
    const window: int
    var windows: map<string, Window>
    var lastSweep: Option<int>

    ghost function View(): State
      reads this
    {
      State(windows, lastSweep)
    }

    constructor (limit: int, window: int)
      ensures this.limit == limit && this.window == window && View() == EMPTY
    {
      this.limit, this.window := limit, window;
      windows, lastSweep := map[], None;
    }

    method Sweep(now: int)
      modifies this
      ensures View() == Swept(old(View()), window, now)
    {
      if lastSweep.Some? && now - lastSweep.value < window {
        return;
      }
      lastSweep := Some(now);
      ghost var before := windows;
      var todo := windows.Keys;
      while todo != {}
        invariant todo <= before.Keys
        invariant lastSweep == Some(now)
        invariant forall k :: k in windows <==> k in before && (k in todo || !Expired(before[k], window, now))
        invariant forall k :: k in windows ==> windows[k] == before[k]
        decreases |todo|
      {
        var k :| k in todo;
        if Expired(windows[k], window, now) {
          windows := windows - {k};
        }
        todo := todo - {k};
      }
      assert windows == Live(before, window, now);
    }

    method Allow(key: string, now: int) returns (ok: bool)
      modifies this
      ensures (View(), ok) == Step(old(View()), limit, window, Call(key, now))
    {
      Sweep(now);
      if key !in windows || now - windows[key].start >= window {
        windows := windows[key := Window(now, 1)];
        return true;
      }
      if windows[key].count >= limit {
        assert windows[key := windows[key]] == windows;
        return false;
      }
      windows := windows[key := windows[key].(count := windows[key].count + 1)];
      return true;
    }
  }

  // ---------------------------------------------------------------- whole runs

  predicate Monotone(calls: seq<Call>)
  {
    forall i, j :: 0 <= i < j < |calls| ==> calls[i].now <= calls[j].now
  }

  /** The state after a run of calls. */
  function After(limit: int, window: int, calls: seq<Call>): State
  {
    if calls == [] then EMPTY
    else Step(After(limit, window, calls[..|calls| - 1]), limit, window, calls[|calls| - 1]).0
  }

  /** Whether the last call of a run was admitted. */
  predicate Admits(limit: int, window: int, calls: seq<Call>)
    requires calls != []
  {
    Step(After(limit, window, calls[..|calls| - 1]), limit, window, calls[|calls| - 1]).1
  }

  /** How many calls of `key` with lo <= now < hi the run admitted. */
  function Admitted(limit: int, window: int, calls: seq<Call>, key: string, lo: int, hi: int): nat
  {
    if calls == [] then 0
    else
      var c := calls[|calls| - 1];
      Admitted(limit, window, calls[..|calls| - 1], key, lo, hi)
      + if c.key == key && lo <= c.now < hi && Admits(limit, window, calls) then 1 else 0
  }

  /** A limiter that never deletes a window, the reference for the lazy sweep. */
  function NaiveStep(windows: map<string, Window>, limit: int, window: int, c: Call): (map<string, Window>, bool)
  {
    var (w, ok) := Decide(Lookup(windows, c.key), limit, window, c.now);
    (windows[c.key := w], ok)
  }

  function NaiveAfter(limit: int, window: int, calls: seq<Call>): map<string, Window>
  {
    if calls == [] then map[]
    else NaiveStep(NaiveAfter(limit, window, calls[..|calls| - 1]), limit, window, calls[|calls| - 1]).0
  }

  predicate NaiveAdmits(limit: int, window: int, calls: seq<Call>)
    requires calls != []
  {
    NaiveStep(NaiveAfter(limit, window, calls[..|calls| - 1]), limit, window, calls[|calls| - 1]).1
  }

  // ---------------------------------------------------------------- the sweep is invisible

  /** Up to windows already expired at `now`, the swept map and the full map agree. */
  ghost predicate SameLive(swept: map<string, Window>, full: map<string, Window>, window: int, now: int)
  {
    && (forall k :: k in swept ==> k in full && full[k] == swept[k])
    && (forall k :: k in full && k !in swept ==> Expired(full[k], window, now))
  }

  lemma {:induction false} SweepSimulates(limit: int, window: int, calls: seq<Call>, now: int)
    requires Monotone(calls)
    requires forall i :: 0 <= i < |calls| ==> calls[i].now <= now
    ensures SameLive(After(limit, window, calls).windows, NaiveAfter(limit, window, calls), window, now)
    ensures calls != [] ==> (Admits(limit, window, calls) <==> NaiveAdmits(limit, window, calls))
  {
    if calls != [] {
      SweepSimulates(limit, window, calls[..|calls| - 1], calls[|calls| - 1].now);
    }
  }

  /** Every call of every run is answered as if no window were ever deleted. */
  lemma SweepIsInvisible(limit: int, window: int, calls: seq<Call>)
    requires Monotone(calls)
    ensures forall n :: 0 < n <= |calls| ==>
              (Admits(limit, window, calls[..n]) <==> NaiveAdmits(limit, window, calls[..n]))
  {
    forall n | 0 < n <= |calls|
      ensures Admits(limit, window, calls[..n]) <==> NaiveAdmits(limit, window, calls[..n])
    {
      SweepSimulates(limit, window, calls[..n], calls[n - 1].now);
    }
  }

  /**
   The hypothesis is needed: with a clock that steps back, which the program's monotonic clock never
   does, the sweep would have forgotten a full window.
   */
  lemma SweepIsVisibleToBackwardClock()
    ensures var calls := [Call("a", 0), Call("b", 10), Call("a", 5)];
            Admits(1, 10, calls) && !NaiveAdmits(1, 10, calls)
  {
    var c0, c1, c2 := Call("a", 0), Call("b", 10), Call("a", 5);
    assert [c0, c1, c2][..2] == [c0, c1] && [c0, c1][..1] == [c0] && [c0][..0] == [];
    assert "a" != "b" by { assert "a"[0] != "b"[0]; }
    assert After(1, 10, [c0]) == State(map["a" := Window(0, 1)], Some(0));
    assert "a" !in After(1, 10, [c0, c1]).windows;
    assert NaiveAfter(1, 10, [c0]) == map["a" := Window(0, 1)];
    assert NaiveAfter(1, 10, [c0, c1])["a"] == Window(0, 1);
  }

  // ---------------------------------------------------------------- the map stays small

  lemma {:induction false} SweepState(limit: int, window: int, calls: seq<Call>)
    requires Monotone(calls) && calls != [] && window > 0
    ensures var s := After(limit, window, calls);
            var now := calls[|calls| - 1].now;
            && s.lastSweep.Some?
            && s.lastSweep.value <= now < s.lastSweep.value + window
            && forall k :: k in s.windows ==> s.lastSweep.value - window < s.windows[k].start <= now
  {
    if |calls| > 1 {
      SweepState(limit, window, calls[..|calls| - 1]);
    }
  }

  ghost predicate YoungerThan(windows: map<string, Window>, now: int, age: int)
  {
    forall k :: k in windows ==> now - windows[k].start < age
  }

  /** After every Allow no retained window is two window lengths old, exactly when windows have a length. */
  lemma RetainedWindowsAreYoung(limit: int, window: int, calls: seq<Call>)
    requires Monotone(calls) && calls != []
    ensures YoungerThan(After(limit, window, calls).windows, calls[|calls| - 1].now, 2 * window) <==> window > 0
  {
    var last := calls[|calls| - 1];
    if window > 0 {
      SweepState(limit, window, calls);
    } else {
      var rest := calls[..|calls| - 1];
      SweepSimulates(limit, window, rest, last.now);
      IntervalHolds(limit, window, rest, last.key, last.now, last.now);
      var s := After(limit, window, calls);
      assert last.key in s.windows && s.windows[last.key] == Window(last.now, 1);
      assert !(last.now - s.windows[last.key].start < 2 * window);
    }
  }

  // ---------------------------------------------------------------- the admission bound

  function Budget(limit: int): int
  {
    if limit < 1 then 1 else limit
  }

  lemma {:induction false} NothingAdmittedBefore(limit: int, window: int, calls: seq<Call>, key: string, lo: int,
                                                 hi: int)
    requires forall i :: 0 <= i < |calls| ==> calls[i].now < lo
    ensures Admitted(limit, window, calls, key, lo, hi) == 0
  {
    if calls != [] {
      NothingAdmittedBefore(limit, window, calls[..|calls| - 1], key, lo, hi);
    }
  }

  /** What the key's open window says about the admissions in [lo, lo + window). */
  ghost predicate IntervalInvariant(w: Option<Window>, n: nat, limit: int, window: int, lo: int, now: int)
  {
    match w
    case None => n == 0
    case Some(w) =>
      && w.start <= now
      && 1 <= w.count <= Budget(limit)
      && n <= 2 * Budget(limit) - 1
      && (w.start < lo ==> n <= w.count - 1)
      && (lo <= w.start < lo + window ==> n <= Budget(limit) - 1 + w.count)
  }

  lemma {:induction false} IntervalHolds(limit: int, window: int, calls: seq<Call>, key: string, lo: int, now: int)
    requires Monotone(calls)
    requires forall i :: 0 <= i < |calls| ==> calls[i].now <= now
    ensures IntervalInvariant(Lookup(NaiveAfter(limit, window, calls), key),
                              Admitted(limit, window, calls, key, lo, lo + window), limit, window, lo, now)
  {
    if calls != [] {
      var rest, c := calls[..|calls| - 1], calls[|calls| - 1];
      IntervalHolds(limit, window, rest, key, lo, c.now);
      SweepSimulates(limit, window, calls, c.now);
      if c.now < lo {
        NothingAdmittedBefore(limit, window, calls, key, lo, lo + window);
      }
    }
  }

  /**
   In any half-open interval as long as the window, no key is admitted more than
   2 * limit - 1 times (a limit below one counts as one), whatever the run.
   */
  lemma SlidingIntervalBound(limit: int, window: int, calls: seq<Call>, key: string, lo: int)
    requires Monotone(calls)
    ensures Admitted(limit, window, calls, key, lo, lo + window) <= 2 * Budget(limit) - 1
  {
    if calls != [] {
      IntervalHolds(limit, window, calls, key, lo, calls[|calls| - 1].now);
    }
  }

  /** What the counter of an opened window says. */
  ghost predicate WindowExact(limit: int, window: int, calls: seq<Call>, key: string, w: Window, hi: int)
  {
    && 1 <= w.count <= Budget(limit)
    && Admitted(limit, window, calls, key, w.start, w.start + window) == w.count
    && Admitted(limit, window, calls, key, w.start + window, hi) == 0
  }

  /** A call that opens a window after an expired one. */
  lemma NextWindow(limit: int, window: int, calls: seq<Call>, w: Window, hi: int)
    requires Monotone(calls) && window > 0 && calls != []
    requires var rest, c := calls[..|calls| - 1], calls[|calls| - 1];
             && c.key in NaiveAfter(limit, window, rest) && NaiveAfter(limit, window, rest)[c.key] == w
             && Expired(w, window, c.now)
             && WindowExact(limit, window, rest, c.key, w, hi)
             && WindowExact(limit, window, rest, c.key, w, c.now + window)
    ensures WindowExact(limit, window, calls, calls[|calls| - 1].key, Window(calls[|calls| - 1].now, 1), hi)
  {
    var rest, c := calls[..|calls| - 1], calls[|calls| - 1];
    SweepSimulates(limit, window, calls, c.now);
    AdmittedLaterStart(limit, window, rest, c.key, w.start + window, c.now, c.now + window);
    AdmittedLaterStart(limit, window, rest, c.key, w.start + window, c.now + window, hi);
  }

  /** A call inside the open window, or of another key. */
  lemma SameWindow(limit: int, window: int, calls: seq<Call>, key: string, w: Window, hi: int)
    requires Monotone(calls) && window > 0 && calls != []
    requires var rest, c := calls[..|calls| - 1], calls[|calls| - 1];
             && key in NaiveAfter(limit, window, rest) && NaiveAfter(limit, window, rest)[key] == w && w.start <= c.now
             && !(c.key == key && Expired(w, window, c.now)) && WindowExact(limit, window, rest, key, w, hi)
    ensures WindowExact(limit, window, calls, key, NaiveAfter(limit, window, calls)[key], hi)
  {
    SweepSimulates(limit, window, calls, calls[|calls| - 1].now);
  }

  lemma FirstWindow(limit: int, window: int, calls: seq<Call>, hi: int)
    requires Monotone(calls) && window > 0 && calls != []
    requires calls[|calls| - 1].key !in NaiveAfter(limit, window, calls[..|calls| - 1])
    ensures WindowExact(limit, window, calls, calls[|calls| - 1].key, Window(calls[|calls| - 1].now, 1), hi)
  {
    var rest, c := calls[..|calls| - 1], calls[|calls| - 1];
    SweepSimulates(limit, window, calls, c.now);
    NeverSeen(limit, window, rest, c.key, c.now, c.now + window);
    NeverSeen(limit, window, rest, c.key, c.now + window, hi);
  }

  /**
   An opened window admits exactly what its counter says, never more than the limit, and nothing
   is admitted after it until the next window opens.
   */
  lemma {:induction false} WindowCountIsExact(limit: int, window: int, calls: seq<Call>, key: string, hi: int)
    requires Monotone(calls) && window > 0 && key in NaiveAfter(limit, window, calls)
    ensures WindowExact(limit, window, calls, key, NaiveAfter(limit, window, calls)[key], hi)
    decreases |calls|
  {
    var rest, c := calls[..|calls| - 1], calls[|calls| - 1];
    if key in NaiveAfter(limit, window, rest) {
      var w := NaiveAfter(limit, window, rest)[key];
      WindowCountIsExact(limit, window, rest, key, hi);
      if c.key == key && Expired(w, window, c.now) {
        WindowCountIsExact(limit, window, rest, key, c.now + window);
        NextWindow(limit, window, calls, w, hi);
      } else {
        IntervalHolds(limit, window, rest, key, c.now, c.now);
        SameWindow(limit, window, calls, key, w, hi);
      }
    } else {
      FirstWindow(limit, window, calls, hi);
    }
  }

  lemma {:induction false} AdmittedLaterStart(limit: int, window: int, calls: seq<Call>, key: string, lo: int,
                                              lo': int, hi: int)
    requires lo <= lo'
    ensures Admitted(limit, window, calls, key, lo', hi) <= Admitted(limit, window, calls, key, lo, hi)
  {
    if calls != [] {
      AdmittedLaterStart(limit, window, calls[..|calls| - 1], key, lo, lo', hi);
    }
  }

  lemma {:induction false} NeverSeen(limit: int, window: int, calls: seq<Call>, key: string, lo: int, hi: int)
    requires key !in NaiveAfter(limit, window, calls)
    ensures Admitted(limit, window, calls, key, lo, hi) == 0
  {
    if calls != [] {
      NeverSeen(limit, window, calls[..|calls| - 1], key, lo, hi);
    }
  }

  lemma {:induction false} AdmittedBeforeEnd(limit: int, window: int, calls: seq<Call>, key: string, lo: int, hi: int,
                                             hi': int)
    requires forall i :: 0 <= i < |calls| ==> calls[i].now < hi && calls[i].now < hi'
    ensures Admitted(limit, window, calls, key, lo, hi) == Admitted(limit, window, calls, key, lo, hi')
  {
    if calls != [] {
      AdmittedBeforeEnd(limit, window, calls[..|calls| - 1], key, lo, hi, hi');
    }
  }

  /** A call is refused only if its key was admitted `limit` times within the last window length. */
  lemma RefusedMeansSpent(limit: int, window: int, calls: seq<Call>)
    requires Monotone(calls) && window > 0 && calls != [] && !Admits(limit, window, calls)
    ensures var rest, c := calls[..|calls| - 1], calls[|calls| - 1];
            limit <= Admitted(limit, window, rest, c.key, c.now - window + 1, c.now + 1)
  {
    var rest, c := calls[..|calls| - 1], calls[|calls| - 1];
    SweepSimulates(limit, window, calls, c.now);
    var w := NaiveAfter(limit, window, rest)[c.key];
    WindowCountIsExact(limit, window, rest, c.key, c.now);
    AdmittedLaterStart(limit, window, rest, c.key, c.now - window + 1, w.start, w.start + window);
    AdmittedBeforeEnd(limit, window, rest, c.key, c.now - window + 1, w.start + window, c.now + 1);
  }

  // ---------------------------------------------------------------- the bound is reached

  /** `run` leaves the one key "k" with window `w` at time `now`, and admitted it `n` times in [lo, hi). */
  ghost predicate Reaches(limit: int, window: int, run: seq<Call>, now: int, w: Window, lo: int, hi: int, n: nat)
  {
    && Monotone(run)
    && (forall i :: 0 <= i < |run| ==> run[i].now <= now)
    && NaiveAfter(limit, window, run) == map["k" := w]
    && Admitted(limit, window, run, "k", lo, hi) == n
  }

  lemma OneMoreHit(limit: int, window: int, run: seq<Call>, now: int, now': int, w: Window, lo: int, hi: int, n: nat)
    requires Reaches(limit, window, run, now, w, lo, hi, n) && now <= now'
    ensures var (w', ok) := Decide(Some(w), limit, window, now');
            Reaches(limit, window, run + [Call("k", now')], now', w', lo, hi,
                    n + if lo <= now' < hi && ok then 1 else 0)
  {
    var next := run + [Call("k", now')];
    assert next[..|next| - 1] == run;
    SweepSimulates(limit, window, next, now');
  }

  /** `more` further hits at one instant inside the open window, while the budget lasts. */
  lemma {:induction false} MoreHits(limit: int, window: int, run: seq<Call>, now: int, now': int, w: Window, lo: int,
                                    hi: int, n: nat, more: nat)
    returns (next: seq<Call>)
    requires Reaches(limit, window, run, now, w, lo, hi, n) && now <= now' && lo <= now' < hi
    requires !Expired(w, window, now') && w.count + more <= limit
    ensures Reaches(limit, window, next, now', w.(count := w.count + more), lo, hi, n + more)
  {
    if more == 0 {
      next := run;
    } else {
      var rest := MoreHits(limit, window, run, now, now', w, lo, hi, n, more - 1);
      OneMoreHit(limit, window, rest, now', now', w.(count := w.count + more - 1), lo, hi, n + more - 1);
      next := rest + [Call("k", now')];
    }
  }

  /**
   No smaller bound holds: for every limit and every window of at least two instants some run
   reaches it. One hit opens the window, the rest of the budget goes at its last instant, and a
   full next window follows at once.
   */
  lemma SlidingIntervalBoundIsTight(limit: nat, window: nat) returns (calls: seq<Call>)
    requires limit >= 1 && window >= 2
    ensures Monotone(calls)
    ensures Admitted(limit, window, calls, "k", window - 1, window - 1 + window) == 2 * Budget(limit) - 1
  {
    var lo, hi := window - 1, window - 1 + window;
    var first := [Call("k", 0)];
    assert first[..0] == [];
    NothingAdmittedBefore(limit, window, first, "k", lo, hi);
    assert Reaches(limit, window, first, 0, Window(0, 1), lo, hi, 0);
    var second := MoreHits(limit, window, first, 0, window - 1, Window(0, 1), lo, hi, 0, limit - 1);
    OneMoreHit(limit, window, second, window - 1, window, Window(0, limit), lo, hi, limit - 1);
    var third := second + [Call("k", window)];
    calls := MoreHits(limit, window, third, window, window, Window(window, 1), lo, hi, limit, limit - 1);
  }
}
