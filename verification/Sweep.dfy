/**
 The measuring pass of a sweep: workers under a semaphore, results collected by position
 (go/internal/armsweep/run.go sweep, one). A run is a sequence of thread steps; what the instance
 answers to an attempt is a parameter.
 */
module Sweep {
  import opened Options
  import opened Ordering

  datatype GoldCase = GoldCase(slice: string, index: int, querySha: string)

  /** What one measuring request comes back with. */
  datatype Answer =
    | Measured(body: string, elapsed: int)
    | Failed(error: string, refused: bool, cancelled: bool, retryable: bool)

  datatype SweepRecord = SweepRecord(gold: GoldCase, body: string, attempts: nat, latencyMs: int)
  datatype Pin = Pin(gold: GoldCase, body: string)
  datatype PoolEntry = PoolEntry(gold: GoldCase, body: string)
  datatype ExcludedCase = ExcludedCase(gold: GoldCase, attempts: nat, reason: string)

  /** One worker's result for one case. */
  datatype Outcome =
    | Kept(rec: SweepRecord, pin: Pin, pool: Option<PoolEntry>)
    | Excluded(exclusion: ExcludedCase)
    | Fatal(error: string, naming: Option<GoldCase>)

  /** The case set, the answers by case and attempt, and the configured budgets. */
  datatype Plan = Plan(cases: seq<GoldCase>, answers: (nat, nat) -> Answer, retries: int, concurrency: int)
  {
    /** A negative retry budget is none. */
    function Attempts(): (n: nat)
      ensures n >= 1
    {
      1 + (if retries < 0 then 0 else retries)
    }

    function Capacity(): (n: nat)
      ensures n >= 1 && n >= concurrency
    {
      if concurrency < 1 then 1 else concurrency
    }
  }

  predicate PooledSlice(slice: string)
  {
    slice == "G-REAL" || slice == "G-GLOB"
  }

  function Built(gold: GoldCase, body: string, attempt: nat, elapsed: int): Outcome
  {
    Kept(SweepRecord(gold, body, attempt, elapsed), Pin(gold, body),
         if PooledSlice(gold.slice) then Some(PoolEntry(gold, body)) else None)
  }

  // ---------------------------------------------------------------- one case

  /** A failure that the retry budget may be spent on. */
  predicate Retryable(a: Answer)
  {
    a.Failed? && !a.refused && !a.cancelled && a.retryable
  }

  /** The outcome that ends a case at an answer. */
  function Final(gold: GoldCase, attempt: nat, a: Answer): Outcome
    requires !Retryable(a)
  {
    match a
    case Measured(body, elapsed) => Built(gold, body, attempt, elapsed)
    case Failed(error, refused, cancelled, _) => Fatal(error, if refused || cancelled then None else Some(gold))
  }

  /** What is left to do for a case from an attempt on. */
  function OneFrom(p: Plan, k: nat, attempt: nat): Outcome
    requires k < |p.cases| && 1 <= attempt <= p.Attempts()
    decreases p.Attempts() - attempt
  {
    var a := p.answers(k, attempt);
    if !Retryable(a) then Final(p.cases[k], attempt, a)
    else if attempt == p.Attempts() then Excluded(ExcludedCase(p.cases[k], p.Attempts(), a.error))
    else OneFrom(p, k, attempt + 1)
  }

  function One(p: Plan, k: nat): Outcome
    requires k < |p.cases|
  {
    OneFrom(p, k, 1)
  }

  /** Measures one case, spending the retry budget on retryable failures. */
  method MeasureOne(p: Plan, k: nat) returns (o: Outcome)
    requires k < |p.cases|
    ensures o == One(p, k)
  {
    var lastErr := "";
    var attempt := 1;
    while attempt <= p.Attempts()
      invariant 1 <= attempt <= p.Attempts() + 1
      invariant attempt <= p.Attempts() ==> One(p, k) == OneFrom(p, k, attempt)
      invariant attempt == p.Attempts() + 1 ==> One(p, k) == Excluded(ExcludedCase(p.cases[k], p.Attempts(), lastErr))
      decreases p.Attempts() + 1 - attempt
    {
      var a := p.answers(k, attempt);
      match a {
        case Measured(body, elapsed) =>
          return Built(p.cases[k], body, attempt, elapsed);
        case Failed(error, refused, cancelled, retryable) =>
          if refused || cancelled {
            return Fatal(error, None);
          }
          if !retryable {
            return Fatal(error, Some(p.cases[k]));
          }
          lastErr := error;
      }
      attempt := attempt + 1;
    }
    return Excluded(ExcludedCase(p.cases[k], p.Attempts(), lastErr));
  }

  /** The first attempt that does not ask for another one. */
  ghost predicate EndsAt(p: Plan, k: nat, attempt: nat)
  {
    && 1 <= attempt <= p.Attempts() && !Retryable(p.answers(k, attempt))
    && forall a :: 1 <= a < attempt ==> Retryable(p.answers(k, a))
  }

  ghost predicate Exhausted(p: Plan, k: nat)
  {
    forall a :: 1 <= a <= p.Attempts() ==> Retryable(p.answers(k, a))
  }

  lemma {:induction false} OneSearches(p: Plan, k: nat, attempt: nat) returns (last: nat)
    requires k < |p.cases| && 1 <= attempt <= p.Attempts()
    requires forall a :: 1 <= a < attempt ==> Retryable(p.answers(k, a))
    ensures 1 <= last <= p.Attempts()
    ensures Exhausted(p, k) ==>
              last == p.Attempts()
                && OneFrom(p, k, attempt) == Excluded(ExcludedCase(p.cases[k], last, p.answers(k, last).error))
    ensures !Exhausted(p, k)
            ==> EndsAt(p, k, last) && OneFrom(p, k, attempt) == Final(p.cases[k], last, p.answers(k, last))
    decreases p.Attempts() - attempt
  {
    last := attempt;
    if Retryable(p.answers(k, attempt)) && attempt < p.Attempts() {
      last := OneSearches(p, k, attempt + 1);
    }
  }

  /** A case is excluded exactly when every one of its retries+1 attempts failed retryably. */
  lemma ExcludedIff(p: Plan, k: nat)
    requires k < |p.cases|
    ensures One(p, k).Excluded? <==> Exhausted(p, k)
    ensures One(p, k).Excluded?
            ==> One(p, k).exclusion.attempts == p.Attempts() && One(p, k).exclusion.gold == p.cases[k]
  {
    var last := OneSearches(p, k, 1);
  }

  /** A record stands for a first answer after nothing but retryable failures, and says how many attempts that took. */
  lemma RecordIff(p: Plan, k: nat, attempt: nat)
    requires k < |p.cases|
    ensures One(p, k).Kept? && One(p, k).rec.attempts == attempt
            <==> EndsAt(p, k, attempt) && p.answers(k, attempt).Measured?
  {
    var last := OneSearches(p, k, 1);
    if EndsAt(p, k, attempt) {
      assert !Exhausted(p, k);
      assert last == attempt;
    }
  }

  /** A failure that may be tried again: neither refused nor cancelled, and marked retryable. */
  predicate Again(a: Answer)
  {
    match a
    case Measured(_, _) => false
    case Failed(_, refused, cancelled, retryable) => retryable && !refused && !cancelled
  }

  /** What the outcome of a case says, read off the answers, the budget and the case. */
  lemma OutcomeMeaning(p: Plan, k: nat)
    requires k < |p.cases|
    ensures var n := if p.retries < 0 then 1 else p.retries + 1;
            match One(p, k)
            case Excluded(x) =>
              && (forall a :: 1 <= a <= n ==> Again(p.answers(k, a)))
              && x == ExcludedCase(p.cases[k], n, p.answers(k, n).error)
            case Kept(rec, pin, pool) =>
              exists a ::
                && 1 <= a <= n && p.answers(k, a).Measured? && (forall b :: 1 <= b < a ==> Again(p.answers(k, b)))
                && rec == SweepRecord(p.cases[k], p.answers(k, a).body, a, p.answers(k, a).elapsed)
                && pin == Pin(p.cases[k], p.answers(k, a).body)
                && pool == if p.cases[k].slice == "G-REAL" || p.cases[k].slice == "G-GLOB"
                           then Some(PoolEntry(p.cases[k], p.answers(k, a).body)) else None
            case Fatal(error, naming) =>
              exists a ::
                && 1 <= a <= n && p.answers(k, a).Failed? && !Again(p.answers(k, a))
                && (forall b :: 1 <= b < a ==> Again(p.answers(k, b)))
                && error == p.answers(k, a).error
                && naming == if p.answers(k, a).refused || p.answers(k, a).cancelled then None else Some(p.cases[k])
  {
    var last := OneSearches(p, k, 1);
    assert forall a :: Again(p.answers(k, a)) == Retryable(p.answers(k, a));
  }

  // ---------------------------------------------------------------- assembling the results

  datatype SweepResult = SweepResult(
    records: seq<SweepRecord>, pins: seq<Pin>, pools: seq<PoolEntry>, excluded: seq<ExcludedCase>, latencies: seq<int>)

  datatype Assembly = Ok(result: SweepResult) | Err(fatal: Outcome)

  function RecordsOf(): Outcome -> seq<SweepRecord> { (o: Outcome) => if o.Kept? then [o.rec] else [] }
  function PinsOf(): Outcome -> seq<Pin> { (o: Outcome) => if o.Kept? then [o.pin] else [] }
  function PoolsOf(): Outcome -> seq<PoolEntry> { (o: Outcome) => if o.Kept? && o.pool.Some? then [o.pool.value]
                                                 else [] }
  function ExcludedOf(): Outcome -> seq<ExcludedCase> { (o: Outcome) => if o.Excluded? then [o.exclusion] else [] }
  function LatenciesOf(): Outcome -> seq<int> { (o: Outcome) => if o.Kept? then [o.rec.latencyMs] else [] }

  function Collected(out: seq<Outcome>): SweepResult
  {
    SweepResult(FlatMap(RecordsOf(), out), FlatMap(PinsOf(), out), FlatMap(PoolsOf(), out),
                FlatMap(ExcludedOf(), out), FlatMap(LatenciesOf(), out))
  }

  /** The first fatal outcome in case order, or everything collected in case order. */
  ghost predicate IsAssembly(out: seq<Outcome>, r: Assembly)
  {
    match r
    case Ok(result) => (forall i :: 0 <= i < |out| ==> !out[i].Fatal?) && result == Collected(out)
    case Err(fatal) =>
      exists i :: 0 <= i < |out| && out[i] == fatal && fatal.Fatal? && forall j :: 0 <= j < i ==> !out[j].Fatal?
  }

  method Assemble(out: seq<Outcome>) returns (r: Assembly)
    ensures IsAssembly(out, r)
  {
    var res := SweepResult([], [], [], [], []);
    for i := 0 to |out|
      invariant res == Collected(out[..i])
      invariant forall j :: 0 <= j < i ==> !out[j].Fatal?
    {
      CollectedSnoc(out, i);
      match out[i] {
        case Fatal(_, _) =>
          return Err(out[i]);
        case Excluded(c) =>
          res := res.(excluded := res.excluded + [c]);
        case Kept(rec, pin, pool) =>
          res := res.(records := res.records + [rec], pins := res.pins + [pin],
                     latencies := res.latencies + [rec.latencyMs]);
          if pool.Some? {
            res := res.(pools := res.pools + [pool.value]);
          }
      }
    }
    assert out[..|out|] == out;
    return Ok(res);
  }

  lemma CollectedSnoc(out: seq<Outcome>, i: nat)
    requires i < |out|
    ensures var a, b, o := Collected(out[..i]), Collected(out[..i + 1]), out[i];
            && b.records == a.records + RecordsOf()(o) && b.pins == a.pins + PinsOf()(o)
            && b.pools == a.pools + PoolsOf()(o)
            && b.excluded == a.excluded + ExcludedOf()(o) && b.latencies == a.latencies + LatenciesOf()(o)
  {
    FlatMapSnoc(RecordsOf(), out, i);
    FlatMapSnoc(PinsOf(), out, i);
    FlatMapSnoc(PoolsOf(), out, i);
    FlatMapSnoc(ExcludedOf(), out, i);
    FlatMapSnoc(LatenciesOf(), out, i);
  }

  lemma {:induction false} AssemblyIsUnique(out: seq<Outcome>, r: Assembly, r': Assembly)
    requires IsAssembly(out, r) && IsAssembly(out, r')
    ensures r == r'
  {
    if r.Err? && r'.Err? {
      var i :| 0 <= i < |out| && out[i] == r.fatal && r.fatal.Fatal? && forall j :: 0 <= j < i ==> !out[j].Fatal?;
      var i' :| 0 <= i' < |out| && out[i'] == r'.fatal && r'.fatal.Fatal? && forall j :: 0 <= j < i' ==> !out[j].Fatal?;
      assert i == i';
    }
  }

  function IsKept(): Outcome -> bool { (o: Outcome) => o.Kept? }
  function IsExcluded(): Outcome -> bool { (o: Outcome) => o.Excluded? }
  function IsPooled(): Outcome -> bool { (o: Outcome) => o.Kept? && o.pool.Some? }

  /** What is taken from one kind of outcome only, one value each, stands in the order of these outcomes. */
  lemma {:induction false} TakenInOrder<T>(take: Outcome -> seq<T>, kind: Outcome -> bool, out: seq<Outcome>)
    requires forall o :: |take(o)| == if kind(o) then 1 else 0
    ensures |FlatMap(take, out)| == |Filter(kind, out)|
    ensures forall i :: 0 <= i < |Filter(kind, out)| ==>
                          kind(Filter(kind, out)[i]) && take(Filter(kind, out)[i]) == [FlatMap(take, out)[i]]
  {
    if out != [] {
      TakenInOrder(take, kind, out[1..]);
    }
  }

  /** The lists are those of the measured, pooled and excluded cases, in case order, field by field. */
  lemma CollectedMeaning(out: seq<Outcome>)
    ensures var r, kept := Collected(out), Filter(IsKept(), out);
            var pooled, dropped := Filter(IsPooled(), out), Filter(IsExcluded(), out);
            && |r.records| == |r.pins| == |r.latencies| == |kept| && |r.pools| == |pooled| && |r.excluded| == |dropped|
            && (forall i :: 0 <= i < |kept| ==> kept[i].Kept? && r.records[i] == kept[i].rec && r.pins[i] == kept[i].pin
                                                && r.latencies[i] == kept[i].rec.latencyMs)
            && (forall i :: 0 <= i < |pooled| ==> pooled[i].Kept? && pooled[i].pool == Some(r.pools[i]))
            && (forall i :: 0 <= i < |dropped| ==> dropped[i].Excluded? && r.excluded[i] == dropped[i].exclusion)
  {
    TakenInOrder(RecordsOf(), IsKept(), out);
    TakenInOrder(PinsOf(), IsKept(), out);
    TakenInOrder(LatenciesOf(), IsKept(), out);
    TakenInOrder(PoolsOf(), IsPooled(), out);
    TakenInOrder(ExcludedOf(), IsExcluded(), out);
  }

  /** Without a fatal outcome every case is a record or an exclusion, and every record has its pin and its latency. */
  lemma {:induction false} EveryCaseIsCounted(out: seq<Outcome>)
    requires forall i :: 0 <= i < |out| ==> !out[i].Fatal?
    ensures var r := Collected(out);
            && |r.records| + |r.excluded| == |out|
            && |r.pins| == |r.records| == |r.latencies|
            && |r.pools| <= |r.records|
  {
    if out != [] {
      EveryCaseIsCounted(out[1..]);
    }
  }

  // ---------------------------------------------------------------- the threads

  datatype Worker =
    | Idle
    | Running(attempt: nat)
    | Holding(outcome: Outcome)
    | Wrote
    | Released
    | Gone

  /** Where the dispatching loop stands. */
  datatype Phase = Ready | Added | Acquired | Waiting | Finished

  /** `writes` counts the stores to each slot. */
  datatype State = State(
    phase: Phase, next: nat, sem: int, wg: int,
    workers: seq<Worker>, out: seq<Option<Outcome>>, writes: seq<nat>)

  function Init(p: Plan): State
  {
    var n := |p.cases|;
    State(Ready, 0, 0, 0, seq(n, i => Idle), seq(n, i => None), seq(n, i => 0))
  }

  datatype Step = Dispatch | Work(k: nat)

  predicate Shaped(p: Plan, s: State)
  {
    && |s.workers| == |s.out| == |s.writes| == |p.cases|
    && s.next <= |p.cases|
    && (s.phase.Added? || s.phase.Acquired? ==> s.next < |p.cases|)
    && forall k :: 0 <= k < |s.workers| && s.workers[k].Running? ==> 1 <= s.workers[k].attempt <= p.Attempts()
  }

  /** One step of the dispatching loop; None while it is blocked or done. */
  function Dispatched(p: Plan, s: State): Option<State>
    requires Shaped(p, s)
  {
    match s.phase
    case Ready =>
      if s.next < |p.cases| then Some(s.(phase := Added, wg := s.wg + 1)) else Some(s.(phase := Waiting))
    case Added =>
      if s.sem < p.Capacity() then Some(s.(phase := Acquired, sem := s.sem + 1)) else None
    case Acquired =>
      Some(s.(phase := Ready, next := s.next + 1, workers := s.workers[s.next := Running(1)]))
    case Waiting =>
      if s.wg == 0 then Some(s.(phase := Finished)) else None
    case Finished => None
  }

  /** One attempt of a worker. */
  function Attempted(p: Plan, k: nat, attempt: nat): Worker
    requires k < |p.cases| && 1 <= attempt <= p.Attempts()
  {
    var a := p.answers(k, attempt);
    if !Retryable(a) then Holding(Final(p.cases[k], attempt, a))
    else if attempt == p.Attempts() then Holding(Excluded(ExcludedCase(p.cases[k], p.Attempts(), a.error)))
    else Running(attempt + 1)
  }

  /** One step of a worker; None before it is started and after it is gone. */
  function Worked(p: Plan, s: State, k: nat): Option<State>
    requires Shaped(p, s) && k < |p.cases|
  {
    match s.workers[k]
    case Idle => None
    case Running(attempt) => Some(s.(workers := s.workers[k := Attempted(p, k, attempt)]))
    case Holding(o) =>
      Some(s.(workers := s.workers[k := Wrote], out := s.out[k := Some(o)], writes := s.writes[k := s.writes[k] + 1]))
    case Wrote => Some(s.(workers := s.workers[k := Released], sem := s.sem - 1))
    case Released => Some(s.(workers := s.workers[k := Gone], wg := s.wg - 1))
    case Gone => None
  }

  function Apply(p: Plan, s: State, step: Step): Option<State>
    requires Shaped(p, s)
  {
    match step
    case Dispatch => Dispatched(p, s)
    case Work(k) => if k < |p.cases| then Worked(p, s, k) else None
  }

  // ---------------------------------------------------------------- counting workers

  function Total(f: Worker -> nat, ws: seq<Worker>): nat
  {
    if ws == [] then 0 else f(ws[0]) + Total(f, ws[1..])
  }

  lemma {:induction false} TotalUpdate(f: Worker -> nat, ws: seq<Worker>, k: nat, w: Worker)
    requires k < |ws|
    ensures Total(f, ws[k := w]) + f(ws[k]) == Total(f, ws) + f(w)
  {
    if k == 0 {
      assert ws[k := w][1..] == ws[1..];
    } else {
      assert ws[k := w][1..] == ws[1..][k - 1 := w];
      TotalUpdate(f, ws[1..], k - 1, w);
    }
  }

  lemma {:induction false} TotalPositive(f: Worker -> nat, ws: seq<Worker>) returns (k: nat)
    requires Total(f, ws) > 0
    ensures k < |ws| && f(ws[k]) > 0
  {
    if f(ws[0]) > 0 {
      k := 0;
    } else {
      var j := TotalPositive(f, ws[1..]);
      k := j + 1;
    }
  }

  lemma {:induction false} TotalZero(f: Worker -> nat, ws: seq<Worker>)
    ensures Total(f, ws) == 0 <==> forall k :: 0 <= k < |ws| ==> f(ws[k]) == 0
  {
    if ws != [] {
      TotalZero(f, ws[1..]);
      assert forall k :: 0 <= k < |ws[1..]| ==> ws[1..][k] == ws[k + 1];
      if forall k :: 0 <= k < |ws[1..]| ==> f(ws[1..][k]) == 0 {
        assert forall k :: 1 <= k < |ws| ==> ws[k] == ws[1..][k - 1];
      }
    }
  }

  /** Counts the workers that hold a place of the semaphore. */
  function InFlight(): Worker -> nat
  {
    (w: Worker) => if w.Running? || w.Holding? || w.Wrote? then 1 else 0
  }

  /** Counts the workers that the wait group still waits for. */
  function Unfinished(): Worker -> nat
  {
    (w: Worker) => if w.Idle? || w.Gone? then 0 else 1
  }

  // ---------------------------------------------------------------- the invariant

  /** What a worker's stage says about its case. */
  ghost predicate WorkerOk(p: Plan, k: nat, w: Worker, out: Option<Outcome>, writes: nat)
    requires k < |p.cases|
  {
    match w
    case Idle => out == None && writes == 0
    case Running(attempt) => out == None && writes == 0 && 1 <= attempt <= p.Attempts()
      && One(p, k) == OneFrom(p, k, attempt)
    case Holding(o) => out == None && writes == 0 && o == One(p, k)
    case _ => out == Some(One(p, k)) && writes == 1
  }

  ghost predicate WorkersOk(p: Plan, s: State)
    requires Shaped(p, s)
  {
    && (forall k :: 0 <= k < |p.cases| ==> WorkerOk(p, k, s.workers[k], s.out[k], s.writes[k]))
    && (forall k :: 0 <= k < |p.cases| ==> (s.workers[k].Idle? <==> s.next <= k))
  }

  ghost predicate CountersOk(p: Plan, s: State)
    requires Shaped(p, s)
  {
    && s.sem == Total(InFlight(), s.workers) + (if s.phase.Acquired? then 1 else 0)
    && s.sem <= p.Capacity()
    && s.wg == Total(Unfinished(), s.workers) + (if s.phase.Added? || s.phase.Acquired? then 1 else 0)
    && (s.phase.Waiting? || s.phase.Finished? ==> s.next == |p.cases|)
    && (s.phase.Finished? ==> s.wg == 0)
  }

  ghost predicate Inv(p: Plan, s: State)
  {
    Shaped(p, s) && WorkersOk(p, s) && CountersOk(p, s)
  }

  lemma InitOk(p: Plan)
    ensures Inv(p, Init(p))
  {
    TotalZero(InFlight(), Init(p).workers);
    TotalZero(Unfinished(), Init(p).workers);
  }

  lemma DispatchKeeps(p: Plan, s: State)
    requires Inv(p, s) && Dispatched(p, s).Some?
    ensures Inv(p, Dispatched(p, s).value)
  {
    if s.phase.Acquired? {
      assert s.workers[s.next].Idle?;
      TotalUpdate(InFlight(), s.workers, s.next, Running(1));
      TotalUpdate(Unfinished(), s.workers, s.next, Running(1));
    }
  }

  lemma AttemptKeeps(p: Plan, k: nat, attempt: nat)
    requires k < |p.cases| && 1 <= attempt <= p.Attempts() && One(p, k) == OneFrom(p, k, attempt)
    ensures WorkerOk(p, k, Attempted(p, k, attempt), None, 0)
    ensures Attempted(p, k, attempt).Running? || Attempted(p, k, attempt).Holding?
  {
  }

  lemma WorkKeepsCounters(p: Plan, s: State, k: nat)
    requires Inv(p, s) && k < |p.cases| && Worked(p, s, k).Some?
    ensures Shaped(p, Worked(p, s, k).value) && CountersOk(p, Worked(p, s, k).value)
  {
    var s' := Worked(p, s, k).value;
    assert WorkerOk(p, k, s.workers[k], s.out[k], s.writes[k]);
    TotalUpdate(InFlight(), s.workers, k, s'.workers[k]);
    TotalUpdate(Unfinished(), s.workers, k, s'.workers[k]);
    assert s'.workers == s.workers[k := s'.workers[k]];
    TotalZero(Unfinished(), s.workers);
  }

  lemma WorkKeepsWorkers(p: Plan, s: State, k: nat)
    requires Inv(p, s) && k < |p.cases| && Worked(p, s, k).Some?
    ensures Shaped(p, Worked(p, s, k).value) && WorkersOk(p, Worked(p, s, k).value)
  {
    var s' := Worked(p, s, k).value;
    assert WorkerOk(p, k, s.workers[k], s.out[k], s.writes[k]);
    if s.workers[k].Running? {
      AttemptKeeps(p, k, s.workers[k].attempt);
    }
    assert forall j :: 0 <= j < |p.cases| && j != k ==>
             s'.workers[j] == s.workers[j] && s'.out[j] == s.out[j] && s'.writes[j] == s.writes[j];
  }

  lemma StepKeeps(p: Plan, s: State, step: Step)
    requires Inv(p, s) && Apply(p, s, step).Some?
    ensures Inv(p, Apply(p, s, step).value)
  {
    match step
    case Dispatch => DispatchKeeps(p, s);
    case Work(k) =>
      WorkKeepsCounters(p, s, k);
      WorkKeepsWorkers(p, s, k);
  }

  // ---------------------------------------------------------------- every run

  /** The state after a schedule, or None if it asks a blocked thread to move. */
  ghost function After(p: Plan, schedule: seq<Step>): (s: Option<State>)
    ensures s.Some? ==> Inv(p, s.value)
  {
    if schedule == [] then
      InitOk(p);
      Some(Init(p))
    else
      var before := After(p, schedule[..|schedule| - 1]);
      if before.None? then None
      else
        var step := schedule[|schedule| - 1];
        (if Apply(p, before.value, step).Some? then StepKeeps(p, before.value, step); Apply(p, before.value, step)
         else None)
  }

  /** The outcomes of measuring one case after the other. */
  function InOrder(p: Plan): (r: seq<Outcome>)
    ensures |r| == |p.cases| && forall k :: 0 <= k < |r| ==> r[k] == One(p, k)
  {
    seq(|p.cases|, k requires 0 <= k < |p.cases| => One(p, k))
  }

  /** At no time more cases are in flight than the semaphore allows, and no slot is written twice. */
  lemma BoundedAndWrittenOnce(p: Plan, schedule: seq<Step>)
    requires After(p, schedule).Some?
    ensures var s := After(p, schedule).value;
            && Total(InFlight(), s.workers) <= (if p.concurrency < 1 then 1 else p.concurrency)
            && forall k :: 0 <= k < |p.cases| ==>
              s.writes[k] <= 1 && (s.writes[k] == 1 <==> s.out[k] == Some(One(p, k)))
  {
    var s := After(p, schedule).value;
    forall k | 0 <= k < |p.cases| ensures s.writes[k] <= 1 && (s.writes[k] == 1 <==> s.out[k] == Some(One(p, k))) {
      assert WorkerOk(p, k, s.workers[k], s.out[k], s.writes[k]);
    }
  }

  /** The dispatcher waits for the semaphore only while that many places are taken. */
  lemma DispatcherWaitsWhenFull(p: Plan, schedule: seq<Step>)
    requires After(p, schedule).Some? && After(p, schedule).value.phase.Added?
    ensures var s := After(p, schedule).value;
            Dispatched(p, s).None? <==> Total(InFlight(), s.workers) == if p.concurrency < 1 then 1 else p.concurrency
  {
  }

  /** When the wait is over, every slot was written once and holds what the sequential pass computes. */
  lemma ScheduleIsInvisible(p: Plan, schedule: seq<Step>)
    requires After(p, schedule).Some? && After(p, schedule).value.phase.Finished?
    ensures var s := After(p, schedule).value;
            && (forall k :: 0 <= k < |p.cases| ==> s.writes[k] == 1)
            && s.out == Map(x => Some(x), InOrder(p))
  {
    var s := After(p, schedule).value;
    TotalZero(Unfinished(), s.workers);
    forall k | 0 <= k < |p.cases| ensures s.writes[k] == 1 && s.out[k] == Some(One(p, k)) {
      assert WorkerOk(p, k, s.workers[k], s.out[k], s.writes[k]);
      assert Unfinished()(s.workers[k]) == 0 && !s.workers[k].Idle?;
    }
  }

  // ---------------------------------------------------------------- every run ends

  function Left(p: Plan): Worker -> nat
  {
    (w: Worker) =>
      match w
      case Idle => p.Attempts() + 4
      case Running(attempt) => if attempt <= p.Attempts() then p.Attempts() - attempt + 4 else 4
      case Holding(_) => 3
      case Wrote => 2
      case Released => 1
      case Gone => 0
  }

  function PhaseLeft(phase: Phase): nat
  {
    match phase
    case Ready => 2
    case Added => 1
    case Acquired => 0
    case Waiting => 1
    case Finished => 0
  }

  /** How many steps can still be taken at most. */
  function Remaining(p: Plan, s: State): nat
    requires Shaped(p, s)
  {
    3 * (|p.cases| - s.next) + PhaseLeft(s.phase) + Total(Left(p), s.workers)
  }

  lemma WorkRunsOut(p: Plan, s: State, k: nat)
    requires Inv(p, s) && k < |p.cases| && Worked(p, s, k).Some? && Shaped(p, Worked(p, s, k).value)
    ensures Remaining(p, Worked(p, s, k).value) < Remaining(p, s)
  {
    var s' := Worked(p, s, k).value;
    TotalUpdate(Left(p), s.workers, k, s'.workers[k]);
    assert s'.workers == s.workers[k := s'.workers[k]];
  }

  lemma DispatchRunsOut(p: Plan, s: State)
    requires Inv(p, s) && Dispatched(p, s).Some? && Shaped(p, Dispatched(p, s).value)
    ensures Remaining(p, Dispatched(p, s).value) < Remaining(p, s)
  {
    if s.phase.Acquired? {
      assert s.workers[s.next].Idle?;
      TotalUpdate(Left(p), s.workers, s.next, Running(1));
    }
  }

  lemma StepsRunOut(p: Plan, s: State, step: Step)
    requires Inv(p, s) && Apply(p, s, step).Some? && Inv(p, Apply(p, s, step).value)
    ensures Remaining(p, Apply(p, s, step).value) < Remaining(p, s)
  {
    match step
    case Dispatch => DispatchRunsOut(p, s);
    case Work(k) => WorkRunsOut(p, s, k);
  }

  /** No schedule is longer than the work there is. */
  lemma {:induction false} RunsAreFinite(p: Plan, schedule: seq<Step>)
    requires After(p, schedule).Some?
    ensures |schedule| + Remaining(p, After(p, schedule).value) <= Remaining(p, Init(p))
  {
    if schedule != [] {
      var before := After(p, schedule[..|schedule| - 1]).value;
      RunsAreFinite(p, schedule[..|schedule| - 1]);
      StepsRunOut(p, before, schedule[|schedule| - 1]);
    }
  }

  /** Until the wait is over some thread can move: the semaphore cannot deadlock the pass. */
  lemma SomeThreadCanMove(p: Plan, s: State) returns (step: Step)
    requires Inv(p, s) && !s.phase.Finished?
    ensures Apply(p, s, step).Some?
  {
    step := Dispatch;
    if Dispatched(p, s).None? {
      var k;
      if s.phase.Added? {
        k := TotalPositive(InFlight(), s.workers);
      } else {
        k := TotalPositive(Unfinished(), s.workers);
      }
      step := Work(k);
    }
  }

  /** The whole pass: every complete schedule gives the assembly of the sequential pass. */
  lemma EverySweepEndsAlike(p: Plan, schedule: seq<Step>, out: seq<Outcome>, r: Assembly, r': Assembly)
    requires After(p, schedule).Some? && After(p, schedule).value.phase.Finished?
    requires |out| == |p.cases| && forall k :: 0 <= k < |out| ==> After(p, schedule).value.out[k] == Some(out[k])
    requires IsAssembly(out, r) && IsAssembly(InOrder(p), r')
    ensures r == r'
    ensures r.Ok? ==> |r.result.records| + |r.result.excluded| == |p.cases|
  {
    ScheduleIsInvisible(p, schedule);
    assert out == InOrder(p);
    AssemblyIsUnique(out, r, r');
    if r.Ok? {
      EveryCaseIsCounted(out);
    }
  }
}
