/**
 The tenant policy registry as a machine of atomic steps
 (go/internal/blocktype/registry.go snapshotForScope, InvalidateTenant, Reload).

 Any number of threads run: readers (one snapshotForScope call each), reloaders and invalidators.
 Every load and store of an atomic field, every sync.Map operation, the database read of a build
 and every lock operation is one step. A run is any sequence of actions; an action that is not
 enabled changes nothing, so the runs include every interleaving.
 */
module TenantRegistry {
  import opened Options
  import opened Overlay

  type Tid = nat

  /**
   A set pointer, named by what it was built from: the base of a version, or that base with a
   tenant's rows merged over it.
   */
  datatype SetRef = SetRef(version: nat, overlay: Option<(string, seq<Policy>)>)

  /** A cached tenant generation with the stamp it was stored under. */
  datatype Entry = Entry(ref: SetRef, gen: nat)

  /** A single-flight call: its key, and once it has finished the leader's stamp and result. */
  datatype Flight = Flight(scope: string, outcome: Option<(nat, Option<SetRef>)>)

  /** How an answer came about, with the generation that vouches for it. */
  datatype How = ServedBase | Hit(gen: nat) | Led(gen: nat) | Followed(stamp: nat)

  /** The leader's steps inside the single flight. */
  datatype FlightPc =
    | LoadStamp
    | LoadFlightBase(g: nat)
    | LoadFlightMap(g: nat, b: nat)
    | ProbeAgain(g: nat, b: nat, m: nat)
    | Build(g: nat, b: nat)
    | LoadStoreMap(g: nat, ref: SetRef)
    | StoreEntry(g: nat, ref: SetRef, m: nat)
    | FinishFlight(g: nat, result: Option<SetRef>)

  /** The steps of one snapshotForScope call. */
  datatype ReaderPc =
    | LoadBase
    | LoadPool(base: nat)
    | LoadGen(base: nat)
    | LoadMap(base: nat, gen: nat)
    | Probe(base: nat, gen: nat, m: nat)
    | EnterFlight(base: nat, gen: nat)
    | Lead(base: nat, gen: nat, flight: nat, at: FlightPc)
    | Follow(base: nat, gen: nat, flight: nat)
    | Answered(ref: SetRef, how: How)

  /** The steps of one Reload call; the mutex is held from StorePool to Unlock. */
  datatype ReloadPc = Lock | StorePool | Query | StoreBase(loaded: Policies) | Bump | Wipe | Unlock | Reloaded

  datatype InvalidatePc = LoadTenants | Delete(m: nat) | Invalidated

  /** `startGen` records the generation at the moment the call began; the program has no such variable. */
  datatype Thread =
    | Reader(scope: string, startGen: nat, pc: ReaderPc)
    | Reloader(rpc: ReloadPc)
    | Invalidator(iscope: string, ipc: InvalidatePc)

  datatype Shared = Shared(
    history: seq<Policies>,                // every base published so far; the last one is current
    gen: nat,                              // baseGen
    maps: seq<map<string, Entry>>,         // every tenant map ever allocated
    cur: nat,                              // the one behind the tenants pointer
    pool: bool,                            // whether a pool was stored
    mutex: Option<Tid>,                    // reloadMu
    db: map<string, seq<Policy>>,          // the tenants' rows
    inFlight: map<string, nat>,            // scope -> the flight in progress
    flights: seq<Flight>)                  // every flight ever started

  datatype Machine = Machine(shared: Shared, threads: map<Tid, Thread>)

  /** What the environment decides in a step: a failing query, and what a Reload query returns. */
  datatype Input = Input(fails: bool, loaded: Policies)

  datatype Action =
    | Spawn(tid: Tid, kind: CallKind)
    | WriteRows(scope: string, rows: seq<Policy>)
    | Run(tid: Tid, input: Input)

  datatype CallKind = CallSnapshot(scope: string) | CallReload | CallInvalidate(scope: string)

  function Initial(builtin: Policies): Machine
  {
    Machine(Shared([builtin], 0, [map[]], 0, false, None, map[], map[], []), map[])
  }

  /** The scopes that never earn a tenant generation. */
  predicate Reserved(scope: string)
  {
    scope == "" || scope[0] == '_'
  }

  function Version(s: Shared): int
  {
    |s.history| - 1
  }

  function Rows(s: Shared, scope: string): seq<Policy>
  {
    if scope in s.db then s.db[scope] else []
  }

  /** The cached entry of a scope, if it carries the stamp. */
  function Current(s: Shared, m: nat, scope: string, gen: nat): Option<SetRef>
  {
    if m < |s.maps| && scope in s.maps[m] && s.maps[m][scope].gen == gen then Some(s.maps[m][scope].ref) else None
  }

  // ---------------------------------------------------------------- the steps

  /** What buildTenantSet returns for a base version and the rows it read. */
  ghost function Built(s: Shared, b: nat, scope: string, fails: bool): Option<SetRef>
  {
    var rows := Rows(s, scope);
    if fails || b >= |s.history| || TenantSet(s.history[b], rows).None? then None
    else if rows == [] then Some(SetRef(b, None))
    else Some(SetRef(b, Some((scope, rows))))
  }

  /** The leader's next step, as far as it only moves the leader. */
  ghost function FlightNext(s: Shared, scope: string, at: FlightPc, fails: bool): FlightPc
    requires WellFormed(s)
  {
    match at
    case LoadStamp => LoadFlightBase(s.gen)
    case LoadFlightBase(g) => LoadFlightMap(g, Version(s))
    case LoadFlightMap(g, b) => ProbeAgain(g, b, s.cur)
    case ProbeAgain(g, b, m) =>
      if Current(s, m, scope, g).Some? then FinishFlight(g, Current(s, m, scope, g)) else Build(g, b)
    case Build(g, b) =>
      if Built(s, b, scope, fails).Some? then LoadStoreMap(g, Built(s, b, scope, fails).value)
        else FinishFlight(g, None)
    case LoadStoreMap(g, ref) => StoreEntry(g, ref, s.cur)
    case StoreEntry(g, ref, m) => FinishFlight(g, Some(ref))
    case FinishFlight(_, _) => at
  }

  /** The reader's next program point. */
  ghost function ReaderNext(s: Shared, scope: string, pc: ReaderPc, fails: bool): ReaderPc
    requires WellFormed(s)
  {
    match pc
    case LoadBase => LoadPool(Version(s))
    case LoadPool(base) => if !s.pool || Reserved(scope) then Answered(SetRef(base, None), ServedBase)
      else LoadGen(base)
    case LoadGen(base) => LoadMap(base, s.gen)
    case LoadMap(base, gen) => Probe(base, gen, s.cur)
    case Probe(base, gen, m) =>
      if Current(s, m, scope, gen).Some? then Answered(Current(s, m, scope, gen).value, Hit(gen))
        else EnterFlight(base, gen)
    case EnterFlight(base, gen) =>
      if scope in s.inFlight then Follow(base, gen, s.inFlight[scope]) else Lead(base, gen, |s.flights|, LoadStamp)
    case Lead(base, gen, f, FinishFlight(g, result)) =>
      if result.Some? then Answered(result.value, Led(gen)) else Answered(SetRef(base, None), ServedBase)
    case Lead(base, gen, f, at) => Lead(base, gen, f, FlightNext(s, scope, at, fails))
    case Follow(base, gen, f) =>
      if f >= |s.flights| || s.flights[f].outcome.None? then pc
      else
        var (stamp, result) := s.flights[f].outcome.value;
        if result.Some? then Answered(result.value, Followed(stamp)) else Answered(SetRef(base, None), ServedBase)
    case Answered(_, _) => pc
  }

  /** What the reader's step writes to shared memory. */
  function ReaderWrites(s: Shared, scope: string, pc: ReaderPc): Shared
  {
    match pc
    case EnterFlight(_, _) =>
      if scope in s.inFlight then s
      else s.(inFlight := s.inFlight[scope := |s.flights|], flights := s.flights + [Flight(scope, None)])
    case Lead(_, _, f, StoreEntry(g, ref, m)) =>
      if m < |s.maps| then s.(maps := s.maps[m := s.maps[m][scope := Entry(ref, g)]]) else s
    case Lead(_, _, f, FinishFlight(g, result)) =>
      if f < |s.flights| then
        s.(inFlight := s.inFlight - {scope}, flights := s.flights[f := Flight(s.flights[f].scope, Some((g, result)))])
      else s
    case _ => s
  }

  function ReloadNext(s: Shared, pc: ReloadPc, input: Input): ReloadPc
  {
    match pc
    case Lock => if s.mutex.Some? then Lock else StorePool
    case StorePool => Query
    case Query => if input.fails then Unlock else StoreBase(input.loaded)
    case StoreBase(_) => Bump
    case Bump => Wipe
    case Wipe => Unlock
    case Unlock => Reloaded
    case Reloaded => Reloaded
  }

  function ReloadWrites(s: Shared, tid: Tid, pc: ReloadPc): Shared
  {
    match pc
    case Lock => if s.mutex.Some? then s else s.(mutex := Some(tid))
    case StorePool => s.(pool := true)
    case StoreBase(loaded) => s.(history := s.history + [loaded])
    case Bump => s.(gen := s.gen + 1)
    case Wipe => s.(maps := s.maps + [map[]], cur := |s.maps|)
    case Unlock => s.(mutex := None)
    case _ => s
  }

  function InvalidateNext(s: Shared, pc: InvalidatePc): InvalidatePc
  {
    match pc
    case LoadTenants => Delete(s.cur)
    case Delete(m) => Invalidated
    case Invalidated => Invalidated
  }

  function InvalidateWrites(s: Shared, scope: string, pc: InvalidatePc): Shared
  {
    match pc
    case Delete(m) => if m < |s.maps| then s.(maps := s.maps[m := s.maps[m] - {scope}]) else s
    case _ => s
  }

  ghost function ThreadNext(s: Shared, t: Thread, input: Input): Thread
    requires WellFormed(s)
  {
    match t
    case Reader(scope, startGen, pc) => Reader(scope, startGen, ReaderNext(s, scope, pc, input.fails))
    case Reloader(pc) => Reloader(ReloadNext(s, pc, input))
    case Invalidator(scope, pc) => Invalidator(scope, InvalidateNext(s, pc))
  }

  function ThreadWrites(s: Shared, tid: Tid, t: Thread): Shared
  {
    match t
    case Reader(scope, _, pc) => ReaderWrites(s, scope, pc)
    case Reloader(pc) => ReloadWrites(s, tid, pc)
    case Invalidator(scope, pc) => InvalidateWrites(s, scope, pc)
  }

  function Spawned(s: Shared, kind: CallKind): Thread
  {
    match kind
    case CallSnapshot(scope) => Reader(scope, s.gen, LoadBase)
    case CallReload => Reloader(Lock)
    case CallInvalidate(scope) => Invalidator(scope, LoadTenants)
  }

  ghost function Step(m: Machine, a: Action): (m': Machine)
    requires WellFormed(m.shared)
    ensures WellFormed(m'.shared)
  {
    var s := m.shared;
    match a
    case Spawn(tid, kind) => if tid in m.threads then m else Machine(s, m.threads[tid := Spawned(s, kind)])
    case WriteRows(scope, rows) => Machine(s.(db := s.db[scope := rows]), m.threads)
    case Run(tid, input) =>
      if tid !in m.threads then m
      else Machine(ThreadWrites(s, tid, m.threads[tid]), m.threads[tid := ThreadNext(s, m.threads[tid], input)])
  }

  // ---------------------------------------------------------------- the invariant

  ghost predicate WellFormed(s: Shared)
  {
    |s.history| >= 1 && s.cur < |s.maps|
  }

  /** A set that may be served to `scope`, derived from a published base no older than `least`. */
  ghost predicate Sound(s: Shared, ref: SetRef, scope: string, least: nat)
  {
    && least <= ref.version <= Version(s)
    && match ref.overlay
       case None => true
       case Some(o) => o.0 == scope && !Reserved(scope) && TenantSet(s.history[ref.version], o.1).Some?
  }

  ghost predicate FlightOk(s: Shared, scope: string, gen: nat, at: FlightPc)
  {
    match at
    case LoadStamp => true
    case LoadFlightBase(g) => gen <= g <= s.gen
    case LoadFlightMap(g, b) => gen <= g <= s.gen && g <= b <= Version(s)
    case ProbeAgain(g, b, m) => gen <= g <= s.gen && g <= b <= Version(s)
    case Build(g, b) => gen <= g <= s.gen && g <= b <= Version(s)
    case LoadStoreMap(g, ref) => gen <= g <= s.gen && Sound(s, ref, scope, g)
    case StoreEntry(g, ref, m) => gen <= g <= s.gen && Sound(s, ref, scope, g)
    case FinishFlight(g, result) => gen <= g <= s.gen && (result.Some? ==> Sound(s, result.value, scope, g))
  }

  ghost predicate AnswerOk(s: Shared, scope: string, startGen: nat, ref: SetRef, how: How)
  {
    match how
    case ServedBase => ref.overlay.None? && Sound(s, ref, scope, startGen)
    case Hit(gen) => startGen <= gen && Sound(s, ref, scope, gen)
    case Led(gen) => startGen <= gen && Sound(s, ref, scope, gen)
    case Followed(stamp) => Sound(s, ref, scope, stamp)
  }

  /** The loads of a call that has passed the reserved-scope guard. */
  ghost predicate Loaded(s: Shared, scope: string, startGen: nat, base: nat, gen: nat)
  {
    startGen <= base <= Version(s) && startGen <= gen <= s.gen && !Reserved(scope)
  }

  ghost predicate InFlightOf(s: Shared, scope: string, f: nat)
  {
    f < |s.flights| && s.flights[f].scope == scope
  }

  ghost predicate ReaderOk(s: Shared, scope: string, startGen: nat, pc: ReaderPc)
  {
    && startGen <= s.gen
    && match pc
       case LoadBase => true
       case LoadPool(base) => startGen <= base <= Version(s)
       case LoadGen(base) => startGen <= base <= Version(s) && !Reserved(scope)
       case LoadMap(base, gen) => Loaded(s, scope, startGen, base, gen)
       case Probe(base, gen, m) => Loaded(s, scope, startGen, base, gen)
       case EnterFlight(base, gen) => Loaded(s, scope, startGen, base, gen)
       case Lead(base, gen, f, at) => Loaded(s, scope, startGen, base, gen) && InFlightOf(s, scope, f)
         && FlightOk(s, scope, gen, at)
       case Follow(base, gen, f) => Loaded(s, scope, startGen, base, gen) && InFlightOf(s, scope, f)
       case Answered(ref, how) => AnswerOk(s, scope, startGen, ref, how)
  }

  ghost predicate ThreadOk(s: Shared, t: Thread)
  {
    t.Reader? ==> ReaderOk(s, t.scope, t.startGen, t.pc)
  }

  /** An entry was built for its scope, which is not reserved, from a base at least as new as its stamp. */
  ghost predicate EntryOk(s: Shared, scope: string, e: Entry)
  {
    e.gen <= s.gen && !Reserved(scope) && Sound(s, e.ref, scope, e.gen)
  }

  ghost predicate EntriesOk(s: Shared)
  {
    forall m, scope :: 0 <= m < |s.maps| && scope in s.maps[m] ==> EntryOk(s, scope, s.maps[m][scope])
  }

  ghost predicate FlightsOk(s: Shared)
  {
    && (forall scope :: scope in s.inFlight ==> InFlightOf(s, scope, s.inFlight[scope]))
    && (forall f :: 0 <= f < |s.flights| && s.flights[f].outcome.Some? && s.flights[f].outcome.value.1.Some? ==>
          Sound(s, s.flights[f].outcome.value.1.value, s.flights[f].scope, s.flights[f].outcome.value.0))
    && (forall f :: 0 <= f < |s.flights| ==> !Reserved(s.flights[f].scope))
  }

  /** Whether the thread is inside the critical section of Reload. */
  predicate Holds(t: Thread)
  {
    t.Reloader? && !t.rpc.Lock? && !t.rpc.Reloaded?
  }

  ghost predicate Publishing(m: Machine)
  {
    m.shared.mutex.Some? && m.shared.mutex.value in m.threads && m.threads[m.shared.mutex.value] == Reloader(Bump)
  }

  /** Between the base swap and the bump the base is one version ahead of the generation, otherwise they agree. */
  ghost predicate PublishOrder(m: Machine)
  {
    && (forall tid :: tid in m.threads && Holds(m.threads[tid]) ==> m.shared.mutex == Some(tid))
    && Version(m.shared) == m.shared.gen + (if Publishing(m) then 1 else 0)
  }

  ghost predicate Inv(m: Machine)
  {
    && WellFormed(m.shared) && m.shared.gen <= Version(m.shared)
    && EntriesOk(m.shared) && FlightsOk(m.shared) && PublishOrder(m)
    && forall tid :: tid in m.threads ==> ThreadOk(m.shared, m.threads[tid])
  }

  // ---------------------------------------------------------------- every step keeps the invariant

  /** What no step undoes: bases stay published, the generation grows, flights keep their scope. */
  ghost predicate Grows(s: Shared, s': Shared)
  {
    && s.history <= s'.history
    && s.gen <= s'.gen
    && |s.flights| <= |s'.flights|
    && (forall f :: 0 <= f < |s.flights| ==> s'.flights[f].scope == s.flights[f].scope)
  }

  lemma SoundGrows(s: Shared, s': Shared, ref: SetRef, scope: string, least: nat)
    requires s.history <= s'.history && Sound(s, ref, scope, least)
    ensures Sound(s', ref, scope, least)
  {
    assert s'.history[ref.version] == s.history[ref.version];
  }

  lemma ThreadGrows(s: Shared, s': Shared, t: Thread)
    requires Grows(s, s') && ThreadOk(s, t)
    ensures ThreadOk(s', t)
  {
    if t.Reader? {
      match t.pc
      case Answered(ref, how) =>
        match how {
          case ServedBase => SoundGrows(s, s', ref, t.scope, t.startGen);
          case Hit(gen) => SoundGrows(s, s', ref, t.scope, gen);
          case Led(gen) => SoundGrows(s, s', ref, t.scope, gen);
          case Followed(stamp) => SoundGrows(s, s', ref, t.scope, stamp);
        }
      case Lead(_, _, _, at) =>
        match at {
          case LoadStoreMap(g, ref) => SoundGrows(s, s', ref, t.scope, g);
          case StoreEntry(g, ref, _) => SoundGrows(s, s', ref, t.scope, g);
          case FinishFlight(g, result) => if result.Some? { SoundGrows(s, s', result.value, t.scope, g); }
          case _ =>
        }
      case _ =>
    }
  }

  lemma EntriesGrow(s: Shared, s': Shared)
    requires EntriesOk(s) && Grows(s, s')
    requires forall m, scope :: 0 <= m < |s'.maps| && scope in s'.maps[m] ==>
               (m < |s.maps| && scope in s.maps[m] && s'.maps[m][scope] == s.maps[m][scope])
               || EntryOk(s', scope, s'.maps[m][scope])
    ensures EntriesOk(s')
  {
    forall m, scope | 0 <= m < |s'.maps| && scope in s'.maps[m]
      ensures EntryOk(s', scope, s'.maps[m][scope])
    {
      if m < |s.maps| && scope in s.maps[m] && s'.maps[m][scope] == s.maps[m][scope] {
        assert EntryOk(s, scope, s.maps[m][scope]);
        SoundGrows(s, s', s.maps[m][scope].ref, scope, s.maps[m][scope].gen);
      }
    }
  }

  lemma FlightsGrow(s: Shared, s': Shared)
    requires FlightsOk(s) && Grows(s, s') && s'.flights == s.flights && s'.inFlight == s.inFlight
    ensures FlightsOk(s')
  {
    forall f | 0 <= f < |s.flights| && s.flights[f].outcome.Some? && s.flights[f].outcome.value.1.Some?
      ensures Sound(s', s.flights[f].outcome.value.1.value, s.flights[f].scope, s.flights[f].outcome.value.0)
    {
      SoundGrows(s, s', s.flights[f].outcome.value.1.value, s.flights[f].scope, s.flights[f].outcome.value.0);
    }
  }

  lemma FlightNextOk(s: Shared, scope: string, gen: nat, at: FlightPc, fails: bool)
    requires WellFormed(s) && s.gen <= Version(s) && EntriesOk(s) && FlightOk(s, scope, gen, at) && gen <= s.gen
             && !Reserved(scope)
    ensures FlightOk(s, scope, gen, FlightNext(s, scope, at, fails))
  {
  }

  /** A reader's next point is sound in the state the step started from. */
  lemma ReaderNextOk(s: Shared, scope: string, startGen: nat, pc: ReaderPc, fails: bool)
    requires WellFormed(s) && s.gen <= Version(s) && EntriesOk(s) && FlightsOk(s) && ReaderOk(s, scope, startGen, pc)
    requires !(pc.EnterFlight? && scope !in s.inFlight)
    ensures ReaderOk(s, scope, startGen, ReaderNext(s, scope, pc, fails))
  {
    match pc
    case Lead(_, gen, _, at) => FlightNextOk(s, scope, gen, at, fails);
    case _ =>
  }

  lemma OpenFlightOk(s: Shared, scope: string)
    requires FlightsOk(s) && !Reserved(scope)
    ensures FlightsOk(s.(inFlight := s.inFlight[scope := |s.flights|], flights := s.flights + [Flight(scope, None)]))
  {
    var s' := s.(inFlight := s.inFlight[scope := |s.flights|], flights := s.flights + [Flight(scope, None)]);
    assert forall f :: 0 <= f < |s.flights| ==> s'.flights[f] == s.flights[f];
    forall f | 0 <= f < |s'.flights| && s'.flights[f].outcome.Some? && s'.flights[f].outcome.value.1.Some?
      ensures Sound(s', s'.flights[f].outcome.value.1.value, s'.flights[f].scope, s'.flights[f].outcome.value.0)
    {
      SoundGrows(s, s', s.flights[f].outcome.value.1.value, s.flights[f].scope, s.flights[f].outcome.value.0);
    }
  }

  lemma LandFlightOk(s: Shared, scope: string, f: nat, g: nat, result: Option<SetRef>)
    requires FlightsOk(s) && InFlightOf(s, scope, f) && (result.Some? ==> Sound(s, result.value, scope, g))
    ensures FlightsOk(s.(inFlight := s.inFlight - {scope}, flights := s.flights[f := Flight(scope, Some((g, result)))]))
  {
    var s' := s.(inFlight := s.inFlight - {scope}, flights := s.flights[f := Flight(scope, Some((g, result)))]);
    forall k | 0 <= k < |s'.flights| && s'.flights[k].outcome.Some? && s'.flights[k].outcome.value.1.Some?
      ensures Sound(s', s'.flights[k].outcome.value.1.value, s'.flights[k].scope, s'.flights[k].outcome.value.0)
    {
      if k == f {
        SoundGrows(s, s', result.value, scope, g);
      } else {
        SoundGrows(s, s', s.flights[k].outcome.value.1.value, s.flights[k].scope, s.flights[k].outcome.value.0);
      }
    }
  }

  /** The shared part of the invariant after a reader's step. */
  lemma ReaderWritesOk(s: Shared, scope: string, startGen: nat, pc: ReaderPc)
    requires WellFormed(s) && s.gen <= Version(s) && EntriesOk(s) && FlightsOk(s) && ReaderOk(s, scope, startGen, pc)
    ensures var s' := ReaderWrites(s, scope, pc);
            && Grows(s, s') && WellFormed(s') && s'.gen <= Version(s') && EntriesOk(s') && FlightsOk(s')
            && s'.history == s.history && s'.gen == s.gen && s'.mutex == s.mutex
  {
    var s' := ReaderWrites(s, scope, pc);
    if pc.EnterFlight? && scope !in s.inFlight {
      OpenFlightOk(s, scope);
      EntriesGrow(s, s');
    } else if pc.Lead? && pc.at.FinishFlight? {
      LandFlightOk(s, scope, pc.flight, pc.at.g, pc.at.result);
      EntriesGrow(s, s');
    } else if pc.Lead? && pc.at.StoreEntry? {
      StoreEntryOk(s, scope, pc.at.m, Entry(pc.at.ref, pc.at.g));
    }
  }

  lemma StoreEntryOk(s: Shared, scope: string, m: nat, e: Entry)
    requires EntriesOk(s) && FlightsOk(s) && EntryOk(s, scope, e)
    ensures m < |s.maps| ==> var s' := s.(maps := s.maps[m := s.maps[m][scope := e]]); EntriesOk(s') && FlightsOk(s')
  {
    if m < |s.maps| {
      var s' := s.(maps := s.maps[m := s.maps[m][scope := e]]);
      SoundGrows(s, s', e.ref, scope, e.gen);
      EntriesGrow(s, s');
      FlightsGrow(s, s');
    }
  }

  lemma ReaderStepKeeps(m: Machine, tid: Tid, input: Input)
    requires Inv(m) && tid in m.threads && m.threads[tid].Reader?
    ensures Inv(Step(m, Run(tid, input)))
  {
    var s, t := m.shared, m.threads[tid];
    assert ThreadOk(s, t);
    var m' := Step(m, Run(tid, input));
    ReaderWritesOk(s, t.scope, t.startGen, t.pc);
    assert ThreadOk(m'.shared, m'.threads[tid]) by {
      if !(t.pc.EnterFlight? && t.scope !in s.inFlight) {
        ReaderNextOk(s, t.scope, t.startGen, t.pc, input.fails);
        ThreadGrows(s, m'.shared, m'.threads[tid]);
      }
    }
    OthersKeep(m, m', tid);
    assert Publishing(m) == Publishing(m');
  }

  lemma OthersKeep(m: Machine, m': Machine, tid: Tid)
    requires Inv(m) && Grows(m.shared, m'.shared)
    requires tid in m'.threads && m'.threads == m.threads[tid := m'.threads[tid]]
             && ThreadOk(m'.shared, m'.threads[tid])
    ensures forall t :: t in m'.threads ==> ThreadOk(m'.shared, m'.threads[t])
  {
    forall t | t in m'.threads && t != tid ensures ThreadOk(m'.shared, m'.threads[t]) {
      ThreadGrows(m.shared, m'.shared, m.threads[t]);
    }
  }

  lemma ReloadWritesOk(s: Shared, tid: Tid, pc: ReloadPc)
    requires WellFormed(s) && s.gen <= Version(s) && EntriesOk(s) && FlightsOk(s) && (pc.Bump? ==> s.gen < Version(s))
    ensures var s' := ReloadWrites(s, tid, pc);
            Grows(s, s') && WellFormed(s') && s'.gen <= Version(s') && EntriesOk(s') && FlightsOk(s')
  {
    var s' := ReloadWrites(s, tid, pc);
    EntriesGrow(s, s');
    FlightsGrow(s, s');
  }

  /** The publish order survives: only the holder of the mutex moves the base or the generation. */
  lemma ReloadOrder(m: Machine, tid: Tid, input: Input)
    requires WellFormed(m.shared) && PublishOrder(m) && tid in m.threads && m.threads[tid].Reloader?
    ensures PublishOrder(Step(m, Run(tid, input)))
  {
    var t := m.threads[tid];
    var m' := Step(m, Run(tid, input));
    assert Holds(t) ==> m.shared.mutex == Some(tid);
    assert Holds(t) ==> (Publishing(m) <==> t.rpc.Bump?);
    assert Holds(m'.threads[tid]) ==> (Publishing(m') <==> m'.threads[tid].rpc.Bump?);
  }

  lemma ReloadStepKeeps(m: Machine, tid: Tid, input: Input)
    requires Inv(m) && tid in m.threads && m.threads[tid].Reloader?
    ensures Inv(Step(m, Run(tid, input)))
  {
    var m' := Step(m, Run(tid, input));
    assert Holds(m.threads[tid]) ==> m.shared.mutex == Some(tid);
    ReloadWritesOk(m.shared, tid, m.threads[tid].rpc);
    ReloadOrder(m, tid, input);
    OthersKeep(m, m', tid);
  }

  lemma InvalidateStepKeeps(m: Machine, tid: Tid, input: Input)
    requires Inv(m) && tid in m.threads && m.threads[tid].Invalidator?
    ensures Inv(Step(m, Run(tid, input)))
  {
    var m' := Step(m, Run(tid, input));
    EntriesGrow(m.shared, m'.shared);
    FlightsGrow(m.shared, m'.shared);
    OthersKeep(m, m', tid);
    assert Publishing(m) == Publishing(m');
  }

  lemma SpawnKeeps(m: Machine, tid: Tid, kind: CallKind)
    requires Inv(m) && tid !in m.threads
    ensures Inv(Step(m, Spawn(tid, kind)))
  {
    var m' := Step(m, Spawn(tid, kind));
    OthersKeep(m, m', tid);
    assert Publishing(m) == Publishing(m') by {
      assert m.shared.mutex == Some(tid) ==> !Publishing(m) && !Publishing(m');
    }
  }

  lemma WriteKeeps(m: Machine, scope: string, rows: seq<Policy>)
    requires Inv(m)
    ensures Inv(Step(m, WriteRows(scope, rows)))
  {
    var m' := Step(m, WriteRows(scope, rows));
    EntriesGrow(m.shared, m'.shared);
    FlightsGrow(m.shared, m'.shared);
    forall t | t in m'.threads ensures ThreadOk(m'.shared, m'.threads[t]) {
      ThreadGrows(m.shared, m'.shared, m.threads[t]);
    }
    assert Publishing(m) == Publishing(m');
  }

  lemma StepKeeps(m: Machine, a: Action)
    requires Inv(m)
    ensures Inv(Step(m, a))
  {
    match a
    case Spawn(tid, kind) => if tid !in m.threads { SpawnKeeps(m, tid, kind); }
    case WriteRows(scope, rows) => WriteKeeps(m, scope, rows);
    case Run(tid, input) =>
      if tid in m.threads {
        match m.threads[tid]
        case Reader(_, _, _) => ReaderStepKeeps(m, tid, input);
        case Reloader(_) => ReloadStepKeeps(m, tid, input);
        case Invalidator(_, _) => InvalidateStepKeeps(m, tid, input);
      }
  }

  // ---------------------------------------------------------------- whole runs

  /** The machine after a run; every reachable machine satisfies the invariant. */
  ghost function After(builtin: Policies, actions: seq<Action>): (m: Machine)
    ensures Inv(m)
  {
    if actions == [] then Initial(builtin)
    else
      var before := After(builtin, actions[..|actions| - 1]);
      StepKeeps(before, actions[|actions| - 1]);
      Step(before, actions[|actions| - 1])
  }

  lemma AfterSnoc(builtin: Policies, actions: seq<Action>, a: Action)
    ensures After(builtin, actions + [a]) == Step(After(builtin, actions), a)
  {
    assert (actions + [a])[..|actions|] == actions;
  }

  lemma CallKeptOnce(builtin: Policies, m: Machine, actions: seq<Action>, a: Action, tid: Tid)
    requires SameCall(m, After(builtin, actions), tid)
    ensures SameCall(m, After(builtin, actions + [a]), tid)
  {
    AfterSnoc(builtin, actions, a);
    StepKeepsCall(After(builtin, actions), a, tid);
  }

  /** What one more action keeps, any more actions keep. */
  lemma {:induction false} RunKeeps(holds: seq<Action> -> bool, actions: seq<Action>, more: seq<Action>)
    requires holds(actions) && forall run, a :: holds(run) ==> holds(run + [a])
    ensures holds(actions + more)
  {
    if more == [] {
      assert actions + more == actions;
    } else {
      var rest, a := more[..|more| - 1], more[|more| - 1];
      RunKeeps(holds, actions, rest);
      assert actions + rest + [a] == actions + more;
    }
  }

  /** A call of `m` that is still on after some actions is on after any more. */
  lemma CallKept(builtin: Policies, m: Machine, actions: seq<Action>, more: seq<Action>, tid: Tid)
    requires SameCall(m, After(builtin, actions), tid)
    ensures SameCall(m, After(builtin, actions + more), tid)
  {
    ghost var holds := (run: seq<Action>) => SameCall(m, After(builtin, run), tid);
    forall run, a | holds(run) ensures holds(run + [a]) {
      CallKeptOnce(builtin, m, run, a, tid);
    }
    RunKeeps(holds, actions, more);
    assert holds(actions + more);
  }

  lemma StepKeepsCall(m: Machine, a: Action, tid: Tid)
    requires WellFormed(m.shared) && tid in m.threads && m.threads[tid].Reader?
    ensures SameCall(m, Step(m, a), tid)
  {
  }

  /** The reader is still there, on the call it was on. */
  ghost predicate SameCall(m: Machine, m': Machine, tid: Tid)
  {
    && tid in m.threads && m.threads[tid].Reader? && tid in m'.threads && m'.threads[tid].Reader?
    && m'.threads[tid].scope == m.threads[tid].scope && m'.threads[tid].startGen == m.threads[tid].startGen
  }

  /** In every run, every cached entry was built for its own scope from a base at least as new as its stamp. */
  lemma CachedEntriesAreFresh(builtin: Policies, actions: seq<Action>)
    ensures var s := After(builtin, actions).shared;
            forall m, scope :: 0 <= m < |s.maps| && scope in s.maps[m] ==>
              var e := s.maps[m][scope];
              && e.gen <= e.ref.version < |s.history|
              && scope != "" && scope[0] != '_'
              && (e.ref.overlay.Some? ==> e.ref.overlay.value.0 == scope)
  {
    var s := After(builtin, actions).shared;
    assert forall m, scope :: 0 <= m < |s.maps| && scope in s.maps[m] ==> EntryOk(s, scope, s.maps[m][scope]);
  }

  /**
   In every run, a call that was not handed another thread's result answers with a set no older
   than the generation at its start: a Reload that had finished by then is never missed. A hit or
   a led flight is also no older than the generation the call loaded. A follower's answer is as new
   as its flight's stamp; when that is new enough is the subject of FlightFreshness. The overlay, if
   any, is the caller's own.
   */
  lemma AnswersAreFresh(builtin: Policies, before: seq<Action>, scope: string, more: seq<Action>, tid: Tid)
    requires tid !in After(builtin, before).threads
    ensures var m0 := After(builtin, before);
            var m := After(builtin, before + [Spawn(tid, CallSnapshot(scope))] + more);
            && tid in m.threads && m.threads[tid].Reader?
            && (m.threads[tid].pc.Answered? ==>
                  AnswerIsFresh(m0, m, scope, m.threads[tid].pc.ref, m.threads[tid].pc.how))
  {
    var m0, called := After(builtin, before), before + [Spawn(tid, CallSnapshot(scope))];
    assert called[..|called| - 1] == before;
    CallKept(builtin, After(builtin, called), called, more, tid);
    AnsweredFresh(m0, After(builtin, called + more), tid, scope);
  }

  lemma AnsweredFresh(m0: Machine, m: Machine, tid: Tid, scope: string)
    requires Inv(m0) && Inv(m) && tid in m.threads && m.threads[tid].Reader?
    requires m.threads[tid].scope == scope && m.threads[tid].startGen == m0.shared.gen
    ensures m.threads[tid].pc.Answered? ==>
              AnswerIsFresh(m0, m, scope, m.threads[tid].pc.ref, m.threads[tid].pc.how)
  {
    assert ThreadOk(m.shared, m.threads[tid]);
  }

  /** What an answer given in `m` owes to a call that began in `m0`. */
  ghost predicate AnswerIsFresh(m0: Machine, m: Machine, scope: string, ref: SetRef, how: How)
  {
    && ref.version < |m.shared.history|
    && (!how.Followed? ==> m0.shared.gen <= ref.version)
    && (!how.Followed? && !Publishing(m0) ==> Version(m0.shared) <= ref.version)
    && (how.Hit? || how.Led? ==> how.gen <= ref.version)
    && (how.Followed? ==> how.stamp <= ref.version)
    && (ref.overlay.Some? ==> ref.overlay.value.0 == scope && scope != "" && scope[0] != '_')
  }

  /** A scope that is empty or starts with an underscore never gets a generation of its own, in any run. */
  lemma ReservedScopesGetTheBase(builtin: Policies, actions: seq<Action>, scope: string)
    requires scope == "" || scope[0] == '_'
    ensures var m := After(builtin, actions);
            && (forall t ::
                  t in m.threads && m.threads[t].Reader? && m.threads[t].scope == scope && m.threads[t].pc.Answered? ==>
                    m.threads[t].pc.ref.overlay.None?)
            && (forall i :: 0 <= i < |m.shared.maps| ==> scope !in m.shared.maps[i])
            && (forall f :: 0 <= f < |m.shared.flights| ==> m.shared.flights[f].scope != scope)
            && scope !in m.shared.inFlight
  {
    var m := After(builtin, actions);
    forall t | t in m.threads && m.threads[t].Reader? && m.threads[t].scope == scope && m.threads[t].pc.Answered?
      ensures m.threads[t].pc.ref.overlay.None?
    {
      assert ThreadOk(m.shared, m.threads[t]);
    }
    forall i | 0 <= i < |m.shared.maps| ensures scope !in m.shared.maps[i] {
      assert scope in m.shared.maps[i] ==> EntryOk(m.shared, scope, m.shared.maps[i][scope]);
    }
    assert scope in m.shared.inFlight ==> InFlightOf(m.shared, scope, m.shared.inFlight[scope]);
  }
}
