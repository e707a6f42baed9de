/**
 The endpoint-window discovery cache (go/internal/backends/orwindow.go EndpointCache).

 Instants and durations are integers in nanoseconds. The clock reading and the result of the
 discovery request are arguments; a request that fails or returns no usable endpoint is None or
 an empty list.
 */
module EndpointCache {
  import opened Options
  import Ordering

  datatype Endpoint = Endpoint(provider: string, contextLength: int, maxCompletionTokens: int)

  /** A cached discovery result; None is the zero time. */
  datatype Entry = Entry(eps: seq<Endpoint>, fetched: Option<int>, failedAt: Option<int>)

  datatype Answer = NoData | Data(eps: seq<Endpoint>)

  datatype Plan = Serve(answer: Answer) | Ask

  const SECOND: int := 1_000_000_000
  const STALE_MAX: int := 24 * 3600 * SECOND
  const FAIL_BACKOFF: int := 60 * SECOND

  type Entries = map<string, Entry>

  /** The cache key: host, model and whether the row is dialled through the guard. */
  function Key(host: string, model: string, guarded: bool): string
  {
    host + "|" + model + if guarded then "|guarded" else ""
  }

  /** Reads an entry; a missing one reads as zero values. */
  function Snapshot(entries: Entries, key: string): Entry
  {
    if key in entries then entries[key] else Entry([], None, None)
  }

  function StaleOrNothing(e: Entry, now: int): Answer
  {
    if e.fetched.None? || e.eps == [] || now - e.fetched.value > STALE_MAX then NoData else Data(e.eps)
  }

  /** What a call does on the entry it read: serve, or ask the API. */
  function Decide(e: Entry, ttl: int, now: int): Plan
  {
    if e.fetched.Some? && now - e.fetched.value <= ttl then Serve(if e.eps != [] then Data(e.eps) else NoData)
    else if e.failedAt.Some? && now - e.failedAt.value < FAIL_BACKOFF then Serve(StaleOrNothing(e, now))
    else Ask
  }

  /** Whether the discovery is on for the arguments at all. */
  predicate Enabled(host: string, model: string, ttl: int)
  {
    host != "" && model != "" && ttl > 0
  }

  predicate Succeeded(result: Option<seq<Endpoint>>)
  {
    result.Some? && result.value != []
  }

  /** What the call stores once the request has returned. */
  function Landed(entries: Entries, key: string, now: int, result: Option<seq<Endpoint>>): Entries
  {
    if Succeeded(result) then entries[key := Entry(result.value, Some(now), None)]
    else entries[key := Snapshot(entries, key).(failedAt := Some(now))]
  }

  function LandedAnswer(entries: Entries, key: string, now: int, result: Option<seq<Endpoint>>): Answer
  {
    if Succeeded(result) then Data(result.value) else StaleOrNothing(Snapshot(entries, key), now)
  }

  // ---------------------------------------------------------------- the cache as an object

  class Cache {
    var entries: Entries

    constructor ()
      ensures entries == map[]
    {
      entries := map[];
    }

    /** One undisturbed call; `fetch` is what the request would return, `asked` whether it was made. */
    method Endpoints(host: string, model: string, guarded: bool, ttl: int, now: int, fetch: Option<seq<Endpoint>>)
      returns (eps: seq<Endpoint>, ok: bool, asked: bool)
      modifies this
      ensures host == "" || model == "" || ttl <= 0 ==> !ok && !asked && entries == old(entries)
      ensures var key := if Enabled(host, model, ttl) then Some(Key(host, model, guarded)) else None;
              var c := Call(key, ttl, now, fetch);
              && entries == SerialStep(old(entries), c)
              && asked == Asks(old(entries), c)
              && (if ok then Data(eps) else NoData) == SerialAnswer(old(entries), c)
    {
      if host == "" || model == "" || ttl <= 0 {
        return [], false, false;
      }
      var key := Key(host, model, guarded);
      var e := Snapshot(entries, key);
      if e.fetched.Some? && now - e.fetched.value <= ttl {
        return e.eps, |e.eps| > 0, false;
      }
      if e.failedAt.Some? && now - e.failedAt.value < FAIL_BACKOFF {
        var stale := StaleOrNothing(e, now);
        return if stale.Data? then stale.eps else [], stale.Data?, false;
      }
      if fetch.None? || |fetch.value| == 0 {
        if key !in entries {
          entries := entries[key := Entry([], None, None)];
        }
        entries := entries[key := entries[key].(failedAt := Some(now))];
        var stale := StaleOrNothing(entries[key], now);
        return if stale.Data? then stale.eps else [], stale.Data?, true;
      }
      entries := entries[key := Entry(fetch.value, Some(now), None)];
      return fetch.value, true, true;
    }
  }

  // ---------------------------------------------------------------- serial runs

  /** One call of a serial run; `key` is None when the arguments turn discovery off. */
  datatype Call = Call(key: Option<string>, ttl: int, now: int, fetch: Option<seq<Endpoint>>)

  predicate Asks(entries: Entries, c: Call)
  {
    c.key.Some? && Decide(Snapshot(entries, c.key.value), c.ttl, c.now).Ask?
  }

  function SerialStep(entries: Entries, c: Call): Entries
  {
    if Asks(entries, c) then Landed(entries, c.key.value, c.now, c.fetch) else entries
  }

  function SerialAnswer(entries: Entries, c: Call): Answer
  {
    if c.key.None? then NoData
    else match Decide(Snapshot(entries, c.key.value), c.ttl, c.now)
      case Serve(answer) => answer
      case Ask => LandedAnswer(entries, c.key.value, c.now, c.fetch)
  }

  function SerialAfter(calls: seq<Call>): Entries
  {
    if calls == [] then map[] else SerialStep(SerialAfter(calls[..|calls| - 1]), calls[|calls| - 1])
  }

  predicate Monotone(calls: seq<Call>)
  {
    forall i, j :: 0 <= i < j < |calls| ==> calls[i].now <= calls[j].now
  }

  /** Inside the backoff window the failure mark stands, so nothing is asked for the key. */
  lemma {:induction false} FailureMarkStands(calls: seq<Call>, i: nat, n: nat)
    requires Monotone(calls) && i < n <= |calls| && calls[i].key.Some?
    requires Asks(SerialAfter(calls[..i]), calls[i]) && !Succeeded(calls[i].fetch)
    requires forall k :: i < k < n ==> calls[k].now - calls[i].now < FAIL_BACKOFF
    ensures Snapshot(SerialAfter(calls[..n]), calls[i].key.value).failedAt == Some(calls[i].now)
    decreases n
  {
    assert calls[..n][..n - 1] == calls[..n - 1];
    if n > i + 1 {
      FailureMarkStands(calls, i, n - 1);
    }
  }

  /** In every serial run, a failed request for a key is followed by no request for it for 60 seconds. */
  lemma BackoffHolds(calls: seq<Call>, i: nat, j: nat)
    requires Monotone(calls) && i < j < |calls| && calls[i].key.Some? && calls[j].key == calls[i].key
    requires Asks(SerialAfter(calls[..i]), calls[i]) && !Succeeded(calls[i].fetch)
    requires calls[j].now - calls[i].now < 60_000_000_000
    ensures !Asks(SerialAfter(calls[..j]), calls[j])
  {
    FailureMarkStands(calls, i, j);
  }

  /** What is served from an entry whose refresh failed or is backed off: its data, for a day. */
  function Kept(entries: Entries, key: string, now: int): Answer
  {
    if key in entries && entries[key].fetched.Some? && entries[key].eps != []
       && now - entries[key].fetched.value <= 86_400_000_000_000
    then Data(entries[key].eps) else NoData
  }

  /** The ladder of one call: fresh data, then the backoff, then a request. */
  lemma Ladder(entries: Entries, key: string, ttl: int, now: int, fetch: Option<seq<Endpoint>>)
    ensures var c := Call(Some(key), ttl, now, fetch);
            var young := key in entries && entries[key].fetched.Some? && now - entries[key].fetched.value <= ttl;
            var backedOff := key in entries && entries[key].failedAt.Some?
                             && now - entries[key].failedAt.value < 60_000_000_000;
            var won := fetch.Some? && fetch.value != [];
            && (Asks(entries, c) <==> !young && !backedOff)
            && SerialAnswer(entries, c) ==
               (if young then (if entries[key].eps != [] then Data(entries[key].eps) else NoData)
                else if !backedOff && won then Data(fetch.value)
                else Kept(entries, key, now))
            && (young || backedOff ==> SerialStep(entries, c) == entries)
            && (!young && !backedOff && won
                ==> SerialStep(entries, c) == entries[key := Entry(fetch.value, Some(now), None)])
            && (!young && !backedOff && !won ==>
                  var was := if key in entries then entries[key] else Entry([], None, None);
                  SerialStep(entries, c) == entries[key := Entry(was.eps, was.fetched, Some(now))])
  {
  }

  /** The key holds data fetched at `since` or later. */
  ghost predicate Holds(entries: Entries, key: string, since: int)
  {
    key in entries && entries[key].fetched.Some? && since <= entries[key].fetched.value && entries[key].eps != []
  }

  lemma {:induction false} DataStays(calls: seq<Call>, i: nat, n: nat)
    requires Monotone(calls) && i < n <= |calls| && calls[i].key.Some?
    requires Asks(SerialAfter(calls[..i]), calls[i]) && Succeeded(calls[i].fetch)
    ensures Holds(SerialAfter(calls[..n]), calls[i].key.value, calls[i].now)
    decreases n
  {
    assert calls[..n][..n - 1] == calls[..n - 1];
    if n > i + 1 {
      DataStays(calls, i, n - 1);
    }
  }

  /** In every serial run, a key fetched at t is served with data on every call up to a day after t, whatever fails. */
  lemma DataAreServedForADay(calls: seq<Call>, i: nat, j: nat)
    requires Monotone(calls) && i < j < |calls| && calls[i].key.Some? && calls[j].key == calls[i].key
    requires Asks(SerialAfter(calls[..i]), calls[i]) && calls[i].fetch.Some? && calls[i].fetch.value != []
    requires calls[j].now - calls[i].now <= 86_400_000_000_000
    ensures SerialAnswer(SerialAfter(calls[..j]), calls[j]).Data?
            && SerialAnswer(SerialAfter(calls[..j]), calls[j]).eps != []
  {
    DataStays(calls, i, j);
  }

  /** Guarded and unguarded rows of one host and model do not share an entry. */
  lemma GuardedIsApart(host: string, model: string)
    ensures Key(host, model, true) != Key(host, model, false)
  {
    assert |Key(host, model, true)| > |Key(host, model, false)|;
  }

  // ---------------------------------------------------------------- every interleaving

  type Tid = nat

  /** A call in progress: the lock is taken once to look and once to land. */
  datatype CallState =
    | Started(key: string, ttl: int, now: int)
    | Asking(key: string, ttl: int, now: int)
    | Returned(key: string, ttl: int, now: int, answer: Answer)

  /** A successful request: the key it was made for, what it returned, and when its call began. */
  datatype Success = Success(key: string, eps: seq<Endpoint>, began: int)

  /** `log` records the successful requests; the program keeps no such record. */
  datatype State = State(entries: Entries, calls: map<Tid, CallState>, log: set<Success>)

  datatype Action =
    | Begin(tid: Tid, key: string, ttl: int, now: int)
    | Look(tid: Tid)
    | Land(tid: Tid, result: Option<seq<Endpoint>>)

  /** An action that is not enabled changes nothing; a call without a positive ttl is answered at once. */
  function Step(s: State, a: Action): State
  {
    match a
    case Begin(tid, key, ttl, now) =>
      if tid in s.calls then s
      else s.(calls := s.calls[tid := if ttl <= 0 then Returned(key, ttl, now, NoData) else Started(key, ttl, now)])
    case Look(tid) =>
      if tid in s.calls && s.calls[tid].Started? then
        var Started(key, ttl, now) := s.calls[tid];
        match Decide(Snapshot(s.entries, key), ttl, now)
        case Serve(answer) => s.(calls := s.calls[tid := Returned(key, ttl, now, answer)])
        case Ask => s.(calls := s.calls[tid := Asking(key, ttl, now)])
      else s
    case Land(tid, result) =>
      if tid in s.calls && s.calls[tid].Asking? then
        var Asking(key, ttl, now) := s.calls[tid];
        State(Landed(s.entries, key, now, result),
              s.calls[tid := Returned(key, ttl, now, LandedAnswer(s.entries, key, now, result))],
              if Succeeded(result) then s.log + {Success(key, result.value, now)} else s.log)
      else s
  }

  function After(actions: seq<Action>): State
  {
    if actions == [] then State(map[], map[], {}) else Step(After(actions[..|actions| - 1]), actions[|actions| - 1])
  }

  /** Cached data is the result of a successful request for that very key. */
  ghost predicate CachedOk(s: State)
  {
    forall k :: k in s.entries && s.entries[k].fetched.Some? ==>
      s.entries[k].eps != [] && Success(k, s.entries[k].eps, s.entries[k].fetched.value) in s.log
  }

  /** An answer with data was fetched for the call's key, and not too long before the call began. */
  ghost predicate AnswerOk(log: set<Success>, c: CallState)
  {
    c.Returned? && c.answer.Data? ==>
      c.answer.eps != [] && exists s :: s in log && s.key == c.key && s.eps == c.answer.eps
                                        && c.now - s.began <= (if c.ttl > STALE_MAX then c.ttl else STALE_MAX)
  }

  ghost predicate Inv(s: State)
  {
    CachedOk(s) && forall tid :: tid in s.calls ==> AnswerOk(s.log, s.calls[tid])
  }

  lemma StepKeeps(s: State, a: Action)
    requires Inv(s)
    ensures Inv(Step(s, a))
  {
    match a
    case Begin(_, _, _, _) =>
    case Look(tid) =>
      if tid in s.calls && s.calls[tid].Started? {
        var e := Snapshot(s.entries, s.calls[tid].key);
        if e.fetched.Some? {
          assert Success(s.calls[tid].key, e.eps, e.fetched.value) in s.log;
        }
      }
    case Land(tid, result) =>
      if tid in s.calls && s.calls[tid].Asking? {
        LandKeeps(s, tid, result);
      }
  }

  lemma LandKeeps(s: State, tid: Tid, result: Option<seq<Endpoint>>)
    requires Inv(s) && tid in s.calls && s.calls[tid].Asking?
    ensures Inv(Step(s, Land(tid, result)))
  {
    var s' := Step(s, Land(tid, result));
    var Asking(key, ttl, now) := s.calls[tid];
    forall t | t in s.calls && t != tid ensures AnswerOk(s'.log, s'.calls[t]) {
      assert AnswerOk(s.log, s.calls[t]);
    }
    var e := Snapshot(s.entries, key);
    if Succeeded(result) {
      assert Success(key, result.value, now) in s'.log;
    } else if e.fetched.Some? {
      assert Success(key, e.eps, e.fetched.value) in s'.log;
    }
  }

  lemma {:induction false} Invariant(actions: seq<Action>)
    ensures Inv(After(actions))
  {
    if actions != [] {
      Invariant(actions[..|actions| - 1]);
      StepKeeps(After(actions[..|actions| - 1]), actions[|actions| - 1]);
    }
  }

  /**
   In every interleaving, an answer with data is not empty and was fetched for the same key by a
   call that began at most max(ttl, 24 h) before this one.
   */
  lemma AnswersAreRecent(actions: seq<Action>, tid: Tid)
    requires tid in After(actions).calls && After(actions).calls[tid].Returned?
             && After(actions).calls[tid].answer.Data?
    ensures var c := After(actions).calls[tid];
            && c.answer.eps != []
            && exists s :: s in After(actions).log && s.key == c.key && s.eps == c.answer.eps
                           && c.now - s.began <= (if c.ttl > STALE_MAX then c.ttl else STALE_MAX)
  {
    Invariant(actions);
    assert AnswerOk(After(actions).log, After(actions).calls[tid]);
  }

  /** The action lands a success about the key. */
  predicate Renews(s: State, a: Action, key: string)
  {
    a.Land? && Succeeded(a.result) && a.tid in s.calls && s.calls[a.tid].Asking? && s.calls[a.tid].key == key
  }

  /** Whatever runs, as long as no request about the key succeeds its data and their age stay as they are. */
  lemma {:induction false} FailureKeepsData(s: State, more: seq<Action>, key: string)
    requires forall n :: 0 <= n < |more| ==> !Renews(Exec(s, more[..n]), more[n], key)
    ensures Snapshot(Exec(s, more).entries, key).eps == Snapshot(s.entries, key).eps
    ensures FetchedAt(Exec(s, more), key) == FetchedAt(s, key)
  {
    if more != [] {
      var rest := more[..|more| - 1];
      assert forall n :: 0 <= n < |rest| ==> rest[..n] == more[..n] && rest[n] == more[n];
      FailureKeepsData(s, rest, key);
      ExecSnoc(s, more);
      OneFailureKeepsData(Exec(s, rest), more[|more| - 1], key);
    }
  }

  lemma OneFailureKeepsData(s: State, a: Action, key: string)
    requires !Renews(s, a, key)
    ensures Snapshot(Step(s, a).entries, key).eps == Snapshot(s.entries, key).eps
    ensures FetchedAt(Step(s, a), key) == FetchedAt(s, key)
  {
  }

  /** Once a key has data it keeps data, whatever runs afterwards. */
  lemma {:induction false} DataIsNeverLost(actions: seq<Action>, more: seq<Action>, key: string)
    requires key in After(actions).entries && After(actions).entries[key].fetched.Some?
    ensures key in After(actions + more).entries
    ensures After(actions + more).entries[key].fetched.Some? && After(actions + more).entries[key].eps != []
  {
    Invariant(actions + more);
    if more == [] {
      assert actions + more == actions;
    } else {
      DataIsNeverLost(actions, more[..|more| - 1], key);
      assert (actions + more)[..|actions + more| - 1] == actions + more[..|more| - 1];
    }
  }

  // ---------------------------------------------------------------- runs from any state

  function Exec(s: State, more: seq<Action>): State
  {
    Ordering.Led(Step, s, more)
  }

  lemma ExecSnoc(s: State, more: seq<Action>)
    requires more != []
    ensures Exec(s, more) == Step(Exec(s, more[..|more| - 1]), more[|more| - 1])
  {
  }

  lemma ExecThree(s: State, a: Action, b: Action, c: Action)
    ensures Exec(s, [a] + ([b] + [c])) == Step(Step(Step(s, a), b), c)
  {
    Ordering.LedByOne(Step, s, a, [b] + [c]);
    Ordering.LedByOne(Step, Step(s, a), b, [c]);
    Ordering.LedByOne(Step, Step(Step(s, a), b), c, []);
  }

  lemma {:induction false} AfterIsExec(actions: seq<Action>)
    ensures After(actions) == Exec(After([]), actions)
  {
    if actions != [] {
      AfterIsExec(actions[..|actions| - 1]);
      ExecSnoc(After([]), actions);
    }
  }

  lemma AfterThen(actions: seq<Action>, more: seq<Action>)
    ensures After(actions + more) == Exec(After(actions), more)
  {
    AfterIsExec(actions);
    AfterIsExec(actions + more);
    Ordering.LedOn(Step, After([]), actions, more);
  }

  /** Every call that has begun and not looked yet has a positive ttl. */
  ghost predicate PositiveTtls(s: State)
  {
    forall t :: t in s.calls && s.calls[t].Started? ==> s.calls[t].ttl > 0
  }

  lemma {:induction false} ReachableTtlsArePositive(actions: seq<Action>)
    ensures PositiveTtls(After(actions))
  {
    if actions != [] {
      ReachableTtlsArePositive(actions[..|actions| - 1]);
      TtlsStayPositive(After(actions[..|actions| - 1]), actions[|actions| - 1]);
    }
  }

  lemma TtlsStayPositive(s: State, a: Action)
    requires PositiveTtls(s)
    ensures PositiveTtls(Step(s, a))
  {
  }

  predicate AsksAbout(s: State, t: Tid, key: string)
  {
    t in s.calls && s.calls[t].Asking? && s.calls[t].key == key
  }

  // ---------------------------------------------------------------- what is left of the backoff

  /** In `s` a call is asking about the key that began less than the backoff after `t` and was not asking in `s0`. */
  ghost predicate EarlyRequest(s0: State, s: State, key: string, t: int)
  {
    exists v :: AsksAbout(s, v, key) && s.calls[v].now - t < FAIL_BACKOFF && !AsksAbout(s0, v, key)
  }

  ghost predicate LeadsToEarlyRequest(s0: State, more: seq<Action>, key: string, t: int)
  {
    EarlyRequest(s0, Exec(s0, more), key, t)
  }

  /** Nobody who is asking can end the backoff of a failure at `t`, and the entry still enforces it. */
  ghost predicate Guarded(s0: State, s: State, key: string, t: int)
  {
    var e := Snapshot(s.entries, key);
    && PositiveTtls(s)
    && (forall v :: AsksAbout(s, v, key) ==> t + FAIL_BACKOFF - 2 <= s.calls[v].now)
    && ((e.fetched.Some? && t + FAIL_BACKOFF - 2 <= e.fetched.value) || (e.failedAt.Some? && t <= e.failedAt.value))
    && !EarlyRequest(s0, s, key, t)
  }

  lemma LookStaysGuarded(s0: State, s: State, tid: Tid, key: string, t: int)
    requires Guarded(s0, s, key, t)
    ensures Guarded(s0, Step(s, Look(tid)), key, t)
  {
    var s' := Step(s, Look(tid));
    assert forall v :: AsksAbout(s', v, key) && v != tid ==> AsksAbout(s, v, key) && s'.calls[v] == s.calls[v];
  }

  lemma LandStaysGuarded(s0: State, s: State, tid: Tid, result: Option<seq<Endpoint>>, key: string, t: int)
    requires Guarded(s0, s, key, t)
    ensures Guarded(s0, Step(s, Land(tid, result)), key, t)
  {
    var s' := Step(s, Land(tid, result));
    assert forall v :: AsksAbout(s', v, key) ==> AsksAbout(s, v, key) && s'.calls[v] == s.calls[v];
    assert tid in s.calls && s.calls[tid].Asking? && s.calls[tid].key == key ==> AsksAbout(s, tid, key);
  }

  lemma StaysGuarded(s0: State, s: State, a: Action, key: string, t: int)
    requires Guarded(s0, s, key, t)
    ensures Guarded(s0, Step(s, a), key, t)
  {
    match a
    case Begin(tid, _, _, _) =>
      var s' := Step(s, a);
      assert forall v :: AsksAbout(s', v, key) ==> AsksAbout(s, v, key) && s'.calls[v] == s.calls[v];
    case Look(tid) => LookStaysGuarded(s0, s, tid, key, t);
    case Land(tid, result) => LandStaysGuarded(s0, s, tid, result, key, t);
  }

  lemma {:induction false} GuardedForever(s0: State, more: seq<Action>, key: string, t: int)
    requires Guarded(s0, s0, key, t)
    ensures Guarded(s0, Exec(s0, more), key, t)
  {
    if more != [] {
      GuardedForever(s0, more[..|more| - 1], key, t);
      ExecSnoc(s0, more);
      StaysGuarded(s0, Exec(s0, more[..|more| - 1]), more[|more| - 1], key, t);
    }
  }

  /** A call that began early enough and now succeeds clears the mark; one that begins just before its end asks. */
  lemma OverlapAllowsEarlyRequest(s: State, u: Tid, key: string, t: int) returns (more: seq<Action>)
    requires AsksAbout(s, u, key) && s.calls[u].now < t + FAIL_BACKOFF - 2
    ensures LeadsToEarlyRequest(s, more, key, t)
  {
    var eps := [Endpoint("", 0, 0)];
    var v := Ordering.Unused(s.calls.Keys);
    var now := t + FAIL_BACKOFF - 1;
    var a, b, c := Land(u, Some(eps)), Begin(v, key, 1, now), Look(v);
    more := [a] + ([b] + [c]);
    ExecThree(s, a, b, c);
    var s1 := Step(s, a);
    var s2 := Step(s1, b);
    assert v !in s.calls && v !in s1.calls;
    assert Snapshot(s1.entries, key) == Entry(eps, Some(s.calls[u].now), None);
    assert s2.calls[v] == Started(key, 1, now) && s2.entries == s1.entries;
    assert AsksAbout(Step(s2, c), v, key);
  }

  /**
   After a failure of a call that began at `t`, some run leads to a request about the key by a call that
   began less than 60 seconds after `t` exactly when another call is asking about the key that began
   early enough for a success of its own to be out of date within that time.
   */
  lemma EarlyRequestIff(s: State, tid: Tid, result: Option<seq<Endpoint>>)
    requires PositiveTtls(s) && tid in s.calls && s.calls[tid].Asking? && !Succeeded(result)
    ensures var c, s' := s.calls[tid], Step(s, Land(tid, result));
            (exists more :: LeadsToEarlyRequest(s', more, c.key, c.now))
            <==> exists u :: u != tid && AsksAbout(s, u, c.key) && s.calls[u].now < c.now + FAIL_BACKOFF - 2
  {
    var c, s' := s.calls[tid], Step(s, Land(tid, result));
    assert forall u :: AsksAbout(s', u, c.key) <==> u != tid && AsksAbout(s, u, c.key);
    assert forall u :: AsksAbout(s', u, c.key) ==> s'.calls[u] == s.calls[u];
    if u :| u != tid && AsksAbout(s, u, c.key) && s.calls[u].now < c.now + FAIL_BACKOFF - 2 {
      var more := OverlapAllowsEarlyRequest(s', u, c.key, c.now);
      assert LeadsToEarlyRequest(s', more, c.key, c.now);
    } else {
      assert Guarded(s', s', c.key, c.now);
      forall more ensures !LeadsToEarlyRequest(s', more, c.key, c.now) {
        GuardedForever(s', more, c.key, c.now);
      }
    }
  }

  /** So in every interleaving a failure that no other request about the key overlaps is followed by none for 60 s. */
  lemma BackoffHoldsWithoutOverlap(actions: seq<Action>, tid: Tid, result: Option<seq<Endpoint>>, more: seq<Action>)
    requires tid in After(actions).calls && After(actions).calls[tid].Asking? && !Succeeded(result)
    ensures var s := After(actions);
            var c := s.calls[tid];
            (forall u :: AsksAbout(s, u, c.key) ==> u == tid) ==>
              !EarlyRequest(After(actions + [Land(tid, result)]), After(actions + [Land(tid, result)] + more),
                            c.key, c.now)
  {
    var s := After(actions);
    ReachableTtlsArePositive(actions);
    EarlyRequestIff(s, tid, result);
    assert (actions + [Land(tid, result)])[..|actions|] == actions;
    AfterThen(actions + [Land(tid, result)], more);
    assert LeadsToEarlyRequest(Step(s, Land(tid, result)), more, s.calls[tid].key, s.calls[tid].now)
      <==> EarlyRequest(After(actions + [Land(tid, result)]), After(actions + [Land(tid, result)] + more),
                        s.calls[tid].key, s.calls[tid].now);
  }

  /** Two overlapping calls from an empty cache: both fail, the older one last, and only then a third call begins. */
  function OverlapRun(key: string, ttl: int, d: int, now: int): seq<Action>
  {
    [Begin(0, key, ttl, 0)] + [Look(0)] + [Begin(1, key, ttl, d)] + [Look(1)] + [Land(1, None)] + [Land(0, None)]
    + [Begin(2, key, ttl, now)] + [Look(2)]
  }

  lemma AfterSnoc(actions: seq<Action>, a: Action)
    ensures After(actions + [a]) == Step(After(actions), a)
  {
    assert (actions + [a])[..|actions|] == actions;
  }

  lemma BothAsk(key: string, ttl: int, d: int)
    requires ttl > 0
    ensures var run := [Begin(0, key, ttl, 0)] + [Look(0)] + [Begin(1, key, ttl, d)] + [Look(1)];
            After(run) == State(map[], map[0 := Asking(key, ttl, 0), 1 := Asking(key, ttl, d)], {})
  {
    var a := [Begin(0, key, ttl, 0)];
    assert a[..0] == [];
    AfterSnoc(a, Look(0));
    AfterSnoc(a + [Look(0)], Begin(1, key, ttl, d));
    AfterSnoc(a + [Look(0)] + [Begin(1, key, ttl, d)], Look(1));
  }

  lemma BothFail(key: string, ttl: int, d: int)
    ensures var s := State(map[], map[0 := Asking(key, ttl, 0), 1 := Asking(key, ttl, d)], {});
            var s' := Step(Step(s, Land(1, None)), Land(0, None));
            && s'.entries == map[key := Entry([], None, Some(0))]
            && s'.calls == map[0 := Returned(key, ttl, 0, NoData), 1 := Returned(key, ttl, d, NoData)]
  {
  }

  /**
   The newer failure is less than 60 seconds old, but the older call has left its own earlier mark, and the
   third call asks. Each request may well have ended within its timeout.
   */
  lemma OverlapEndsBackoffEarly(key: string, ttl: int, d: int, now: int)
    requires ttl > 0 && 0 < d && FAIL_BACKOFF <= now < d + FAIL_BACKOFF
    ensures AsksAbout(After(OverlapRun(key, ttl, d, now)), 2, key) && now - d < FAIL_BACKOFF
  {
    var run := [Begin(0, key, ttl, 0)] + [Look(0)] + [Begin(1, key, ttl, d)] + [Look(1)];
    BothAsk(key, ttl, d);
    BothFail(key, ttl, d);
    AfterSnoc(run, Land(1, None));
    AfterSnoc(run + [Land(1, None)], Land(0, None));
    AfterSnoc(run + [Land(1, None)] + [Land(0, None)], Begin(2, key, ttl, now));
    AfterSnoc(run + [Land(1, None)] + [Land(0, None)] + [Begin(2, key, ttl, now)], Look(2));
  }

  // ---------------------------------------------------------------- when data goes back in time

  /** When the cached data of a key was fetched, if there is any. */
  function FetchedAt(s: State, key: string): Option<int>
  {
    Snapshot(s.entries, key).fetched
  }

  ghost predicate GoesBack(s: State, more: seq<Action>, key: string, since: int)
  {
    FetchedAt(Exec(s, more), key).Some? && FetchedAt(Exec(s, more), key).value < since
  }

  /** The data are no older than `since`, and nobody is asking who began before. */
  ghost predicate KeepsPace(s: State, key: string, since: int)
  {
    && PositiveTtls(s) && FetchedAt(s, key).Some? && since <= FetchedAt(s, key).value
    && forall u :: AsksAbout(s, u, key) ==> since <= s.calls[u].now
  }

  lemma PaceIsKept(s: State, a: Action, key: string, since: int)
    requires KeepsPace(s, key, since)
    ensures KeepsPace(Step(s, a), key, since)
  {
    var s' := Step(s, a);
    forall u | AsksAbout(s', u, key) ensures since <= s'.calls[u].now {
      if AsksAbout(s, u, key) {
        assert s'.calls[u] == s.calls[u];
      }
    }
    if a.Land? && AsksAbout(s, a.tid, key) {
      assert since <= s.calls[a.tid].now;
    }
  }

  lemma {:induction false} PaceIsAlwaysKept(s: State, more: seq<Action>, key: string, since: int)
    requires KeepsPace(s, key, since)
    ensures KeepsPace(Exec(s, more), key, since)
  {
    if more != [] {
      PaceIsAlwaysKept(s, more[..|more| - 1], key, since);
      ExecSnoc(s, more);
      PaceIsKept(Exec(s, more[..|more| - 1]), more[|more| - 1], key, since);
    }
  }

  /** Some run takes a key's data back in time exactly when a call is asking that began before they were fetched. */
  lemma DataCanGoBackIff(s: State, key: string)
    requires PositiveTtls(s) && FetchedAt(s, key).Some?
    ensures (exists more :: GoesBack(s, more, key, FetchedAt(s, key).value))
            <==> exists u :: AsksAbout(s, u, key) && s.calls[u].now < FetchedAt(s, key).value
  {
    var since := FetchedAt(s, key).value;
    if u :| AsksAbout(s, u, key) && s.calls[u].now < since {
      var a := Land(u, Some([Endpoint("", 0, 0)]));
      Ordering.LedByOne(Step, s, a, []);
      assert GoesBack(s, [a], key, since);
    } else {
      forall more ensures !GoesBack(s, more, key, since) {
        PaceIsAlwaysKept(s, more, key, since);
      }
    }
  }
}
