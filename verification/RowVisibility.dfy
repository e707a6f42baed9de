/**
 When a tenant's own rows are seen: what a call is answered with after the rows were written and the
 tenant was invalidated (go/internal/blocktype/registry.go InvalidateTenant).
 */
module RowVisibility {
  import opened Options
  import opened Overlay
  import opened TenantRegistry
  import opened FlightFreshness

  /** The set was built with exactly these rows of the scope. */
  predicate WithRows(ref: SetRef, scope: string, rows: seq<Policy>)
  {
    ref.overlay == if rows == [] then None else Some((scope, rows))
  }

  /** Every entry of the scope in a map from `oldest` on was built with the rows. */
  ghost predicate MapsSee(s: Shared, scope: string, rows: seq<Policy>, oldest: nat)
  {
    forall m :: oldest <= m < |s.maps| && scope in s.maps[m] ==> WithRows(s.maps[m][scope].ref, scope, rows)
  }

  predicate LeaderSees(scope: string, rows: seq<Policy>, oldest: nat, at: FlightPc)
  {
    match at
    case ProbeAgain(_, _, m) => oldest <= m
    case LoadStoreMap(_, ref) => WithRows(ref, scope, rows)
    case StoreEntry(_, ref, _) => WithRows(ref, scope, rows)
    case FinishFlight(_, result) => result.Some? ==> WithRows(result.value, scope, rows)
    case _ => true
  }

  ghost predicate ReaderSees(s: Shared, scope: string, rows: seq<Policy>, oldest: nat, pc: ReaderPc)
  {
    match pc
    case Probe(_, _, m) => oldest <= m
    case Follow(_, _, f) => f < |s.flights| && LandedSees(s.flights[f], scope, rows)
    case Answered(ref, how) => how.ServedBase? || WithRows(ref, scope, rows)
    case _ => true
  }

  predicate LandedSees(flight: Flight, scope: string, rows: seq<Policy>)
  {
    flight.outcome.Some? && flight.outcome.value.1.Some? ==> WithRows(flight.outcome.value.1.value, scope, rows)
  }

  ghost predicate LeadersSee(m: Machine, scope: string, rows: seq<Policy>, oldest: nat)
  {
    forall t :: t in m.threads && Leads(m.threads[t], scope) ==> LeaderSees(scope, rows, oldest, m.threads[t].pc.at)
  }

  /** Whatever the scope is served from now on was built with the rows. */
  ghost predicate Sees(m: Machine, scope: string, rows: seq<Policy>, oldest: nat)
  {
    && Rows(m.shared, scope) == rows && oldest <= m.shared.cur
    && MapsSee(m.shared, scope, rows, oldest) && LeadersSee(m, scope, rows, oldest)
  }

  ghost predicate CallSees(m: Machine, tid: Tid, scope: string, rows: seq<Policy>, oldest: nat)
  {
    && Sees(m, scope, rows, oldest) && tid in m.threads && m.threads[tid].Reader? && m.threads[tid].scope == scope
    && ReaderSees(m.shared, scope, rows, oldest, m.threads[tid].pc)
  }

  predicate WritesOther(a: Action, scope: string)
  {
    a.WriteRows? ==> a.scope != scope
  }

  // ---------------------------------------------------------------- every step keeps it

  lemma LeaderGoesOnSeeing(s: Shared, scope: string, rows: seq<Policy>, oldest: nat, base: nat, gen: nat, f: nat,
                           at: FlightPc, fails: bool)
    requires WellFormed(s) && Rows(s, scope) == rows && oldest <= s.cur && MapsSee(s, scope, rows, oldest)
    requires LeaderSees(scope, rows, oldest, at)
    ensures MapsSee(ReaderWrites(s, scope, Lead(base, gen, f, at)), scope, rows, oldest)
    ensures !at.FinishFlight? ==> LeaderSees(scope, rows, oldest, FlightNext(s, scope, at, fails))
  {
  }

  lemma UntouchedSees(s: Shared, s': Shared, scope: string, rows: seq<Policy>, oldest: nat)
    requires Untouched(s, s', scope) && MapsSee(s, scope, rows, oldest)
    ensures MapsSee(s', scope, rows, oldest)
  {
  }

  /** A reader's step leaves the entries of the scope built with the rows. */
  lemma ReaderKeepsMaps(m: Machine, tid: Tid, scope: string, rows: seq<Policy>, oldest: nat)
    requires Sane(m) && Sees(m, scope, rows, oldest) && tid in m.threads && m.threads[tid].Reader?
    ensures MapsSee(ReaderWrites(m.shared, m.threads[tid].scope, m.threads[tid].pc), scope, rows, oldest)
  {
    var t := m.threads[tid];
    if t.scope != scope {
      OtherScopeUntouched(m.shared, t.scope, t.pc, scope);
      UntouchedSees(m.shared, ReaderWrites(m.shared, t.scope, t.pc), scope, rows, oldest);
    } else if t.pc.Lead? {
      LeaderGoesOnSeeing(m.shared, scope, rows, oldest, t.pc.base, t.pc.gen, t.pc.flight, t.pc.at, false);
    }
  }

  lemma ReaderKeepsLeaders(m: Machine, tid: Tid, input: Input, scope: string, rows: seq<Policy>, oldest: nat)
    requires Sane(m) && Sees(m, scope, rows, oldest) && tid in m.threads && m.threads[tid].Reader?
    ensures LeadersSee(Step(m, Run(tid, input)), scope, rows, oldest)
  {
    var t := m.threads[tid];
    if t.pc.Lead? && t.scope == scope {
      LeaderGoesOnSeeing(m.shared, scope, rows, oldest, t.pc.base, t.pc.gen, t.pc.flight, t.pc.at, input.fails);
    }
  }

  lemma SeesStep(m: Machine, a: Action, scope: string, rows: seq<Policy>, oldest: nat)
    requires Sane(m) && Sees(m, scope, rows, oldest) && WritesOther(a, scope)
    ensures Sees(Step(m, a), scope, rows, oldest)
  {
    if a.Run? && a.tid in m.threads && m.threads[a.tid].Reader? {
      ReaderKeepsMaps(m, a.tid, scope, rows, oldest);
      ReaderKeepsLeaders(m, a.tid, a.input, scope, rows, oldest);
    } else {
      OthersUntouch(m, a, scope);
      UntouchedSees(m.shared, Step(m, a).shared, scope, rows, oldest);
      ReadersStay(m, a);
    }
  }

  /** The call's own step. */
  lemma OwnStepSees(m: Machine, tid: Tid, input: Input, scope: string, rows: seq<Policy>, oldest: nat)
    requires Sane(m) && CallSees(m, tid, scope, rows, oldest)
    ensures ReaderSees(Step(m, Run(tid, input)).shared, scope, rows, oldest, Step(m, Run(tid, input)).threads[tid].pc)
  {
    var t := m.threads[tid];
    assert ThreadLeads(m.shared, t);
    if t.pc.Lead? {
      assert Leads(t, scope);
    }
  }

  /** A step of another thread: only the landing of the followed flight matters. */
  lemma OtherStepSees(m: Machine, a: Action, tid: Tid, scope: string, rows: seq<Policy>, oldest: nat)
    requires Sane(m) && CallSees(m, tid, scope, rows, oldest) && !(a.Run? && a.tid == tid)
    ensures ReaderSees(Step(m, a).shared, scope, rows, oldest, m.threads[tid].pc)
  {
    var t := m.threads[tid];
    assert ThreadOk(m.shared, t);
    if t.pc.Follow? && a.Run? && a.tid in m.threads && m.threads[a.tid].Reader? {
      var u := m.threads[a.tid];
      assert ThreadOk(m.shared, u) && ThreadLeads(m.shared, u);
      if u.pc.Lead? && u.pc.at.FinishFlight? && u.pc.flight == t.pc.flight {
        assert Leads(u, scope);
      }
    } else if t.pc.Follow? {
      OthersUntouch(m, a, scope);
    }
  }

  lemma CallSeesStep(m: Machine, a: Action, tid: Tid, scope: string, rows: seq<Policy>, oldest: nat)
    requires Sane(m) && CallSees(m, tid, scope, rows, oldest) && WritesOther(a, scope)
    ensures CallSees(Step(m, a), tid, scope, rows, oldest)
  {
    SeesStep(m, a, scope, rows, oldest);
    StepKeepsCall(m, a, tid);
    if a.Run? && a.tid == tid {
      OwnStepSees(m, tid, a.input, scope, rows, oldest);
    } else {
      OtherStepSees(m, a, tid, scope, rows, oldest);
    }
  }

  lemma {:induction false} CallKeepsSeeing(m: Machine, more: seq<Action>, tid: Tid, scope: string, rows: seq<Policy>,
                                           oldest: nat)
    requires Sane(m) && CallSees(m, tid, scope, rows, oldest)
    requires forall i :: 0 <= i < |more| ==> WritesOther(more[i], scope)
    ensures CallSees(Exec(m, more), tid, scope, rows, oldest)
  {
    if more != [] {
      CallKeepsSeeing(m, more[..|more| - 1], tid, scope, rows, oldest);
      ExecIsSane(m, more[..|more| - 1]);
      ExecSnoc(m, more[..|more| - 1], more[|more| - 1]);
      assert more[..|more| - 1] + [more[|more| - 1]] == more;
      CallSeesStep(Exec(m, more[..|more| - 1]), more[|more| - 1], tid, scope, rows, oldest);
    }
  }

  // ---------------------------------------------------------------- whole runs

  /** No flight of the scope is open, and the current map holds nothing for it but what was built with its rows. */
  ghost predicate Settled(s: Shared, scope: string)
    requires WellFormed(s)
  {
    && scope !in s.inFlight
    && (scope in s.maps[s.cur] ==> WithRows(s.maps[s.cur][scope].ref, scope, Rows(s, scope)))
  }

  /** A deletion from the current map settles a scope without an open flight, whatever was written before. */
  lemma InvalidationSettles(m: Machine, tid: Tid, input: Input, scope: string)
    requires WellFormed(m.shared) && scope !in m.shared.inFlight
    requires tid in m.threads && m.threads[tid] == Invalidator(scope, Delete(m.shared.cur))
    ensures Settled(Step(m, Run(tid, input)).shared, scope)
  {
  }

  lemma {:induction false} LastMapIsCurrent(builtin: Policies, actions: seq<Action>)
    ensures After(builtin, actions).shared.cur == |After(builtin, actions).shared.maps| - 1
  {
    if actions != [] {
      LastMapIsCurrent(builtin, actions[..|actions| - 1]);
      MapsStayLast(After(builtin, actions[..|actions| - 1]), actions[|actions| - 1]);
    }
  }

  lemma MapsStayLast(m: Machine, a: Action)
    requires Inv(m) && m.shared.cur == |m.shared.maps| - 1
    ensures Step(m, a).shared.cur == |Step(m, a).shared.maps| - 1
  {
    if a.Run? && a.tid in m.threads {
      match m.threads[a.tid]
      case Reader(scope, _, pc) => ReaderMaps(m.shared, scope, pc);
      case Reloader(pc) => ReloadMaps(m.shared, a.tid, pc);
      case Invalidator(scope, pc) => InvalidateMaps(m.shared, scope, pc);
    }
  }

  lemma ReaderMaps(s: Shared, scope: string, pc: ReaderPc)
    ensures ReaderWrites(s, scope, pc).cur == s.cur && |ReaderWrites(s, scope, pc).maps| == |s.maps|
  {
  }

  lemma ReloadMaps(s: Shared, tid: Tid, pc: ReloadPc)
    requires s.cur == |s.maps| - 1
    ensures ReloadWrites(s, tid, pc).cur == |ReloadWrites(s, tid, pc).maps| - 1
  {
  }

  lemma InvalidateMaps(s: Shared, scope: string, pc: InvalidatePc)
    ensures InvalidateWrites(s, scope, pc).cur == s.cur && |InvalidateWrites(s, scope, pc).maps| == |s.maps|
  {
  }

  lemma SettledCallSees(m0: Machine, scope: string, tid: Tid, m: Machine)
    requires Sane(m0) && m0.shared.cur == |m0.shared.maps| - 1 && tid !in m0.threads && Settled(m0.shared, scope)
    requires m == Machine(m0.shared, m0.threads[tid := Reader(scope, m0.shared.gen, LoadBase)])
    ensures CallSees(m, tid, scope, Rows(m.shared, scope), m.shared.cur)
  {
    forall t | t in m0.threads ensures !Leads(m0.threads[t], scope) {
      assert ThreadLeads(m0.shared, m0.threads[t]);
    }
  }

  /** The call, once answered, got a set built with the rows, or the base. */
  ghost predicate AnsweredWith(m: Machine, tid: Tid, scope: string, rows: seq<Policy>)
  {
    && tid in m.threads && m.threads[tid].Reader?
    && (m.threads[tid].pc.Answered?
        ==> m.threads[tid].pc.how.ServedBase? || WithRows(m.threads[tid].pc.ref, scope, rows))
  }

  /**
   A call that begins in a settled state, with no further write to its scope, is answered with a set
   built with the rows its tenant has, or with the base; RowsAreServed says when it is not the base.
   */
  lemma RowsAreSeen(builtin: Policies, before: seq<Action>, scope: string, tid: Tid, more: seq<Action>)
    requires tid !in After(builtin, before).threads
    requires forall i :: 0 <= i < |more| ==> WritesOther(more[i], scope)
    ensures Settled(After(builtin, before).shared, scope) ==>
              AnsweredWith(After(builtin, before + [Spawn(tid, CallSnapshot(scope))] + more), tid, scope,
                           Rows(After(builtin, before).shared, scope))
  {
    if Settled(After(builtin, before).shared, scope) {
      var rows := Rows(After(builtin, before).shared, scope);
      var m := CallBegins(builtin, before, scope, tid);
      ReachableIsSane(builtin, before);
      LastMapIsCurrent(builtin, before);
      SettledCallSees(After(builtin, before), scope, tid, m);
      CallKeepsSeeing(m, more, tid, scope, rows, m.shared.cur);
      AfterIsExec(builtin, before + [Spawn(tid, CallSnapshot(scope))], more);
    }
  }

  /** After an invalidation that meets no open flight, the next calls see whatever rows were written before it. */
  lemma InvalidatedRowsAreSeen(builtin: Policies, before: seq<Action>, inv: Tid, input: Input, scope: string, tid: Tid,
                               more: seq<Action>)
    requires var m := After(builtin, before);
             && inv in m.threads && m.threads[inv] == Invalidator(scope, Delete(m.shared.cur))
             && scope !in m.shared.inFlight && tid !in m.threads
    requires forall i :: 0 <= i < |more| ==> WritesOther(more[i], scope)
    ensures AnsweredWith(After(builtin, before + [Run(inv, input)] + [Spawn(tid, CallSnapshot(scope))] + more), tid,
                         scope,
                         Rows(After(builtin, before).shared, scope))
  {
    var m := After(builtin, before);
    AfterSnoc(builtin, before, Run(inv, input));
    InvalidationSettles(m, inv, input, scope);
    RowsAreSeen(builtin, before + [Run(inv, input)], scope, tid, more);
  }

  // ---------------------------------------------------------------- when the base is not served

  ghost predicate MergesOver(base: Policies, rows: seq<Policy>)
  {
    TenantSet(base, rows).Some?
  }

  ghost predicate HistoryMerges(history: seq<Policies>, rows: seq<Policy>)
  {
    forall i :: 0 <= i < |history| ==> MergesOver(history[i], rows)
  }

  ghost predicate PendingMerges(t: Thread, rows: seq<Policy>)
  {
    t.Reloader? && t.rpc.StoreBase? ==> MergesOver(t.rpc.loaded, rows)
  }

  /** A pool is stored, and the rows merge over every base that is published or about to be. */
  ghost predicate Merges(m: Machine, rows: seq<Policy>)
  {
    && m.shared.pool && HistoryMerges(m.shared.history, rows)
    && (forall t :: t in m.threads ==> PendingMerges(m.threads[t], rows))
  }

  /** The step does not fail, and what it may load merges. */
  ghost predicate Succeeds(a: Action, rows: seq<Policy>)
  {
    a.Run? ==> !a.input.fails && MergesOver(a.input.loaded, rows)
  }

  ghost predicate AllSucceed(more: seq<Action>, rows: seq<Policy>)
  {
    forall i :: 0 <= i < |more| ==> Succeeds(more[i], rows)
  }

  predicate LeaderSucceeds(at: FlightPc)
  {
    at.FinishFlight? ==> at.result.Some?
  }

  predicate FlightSucceeds(flight: Flight)
  {
    flight.outcome.Some? ==> flight.outcome.value.1.Some?
  }

  ghost predicate PcServed(s: Shared, pc: ReaderPc)
  {
    match pc
    case Follow(_, _, f) => f < |s.flights| && FlightSucceeds(s.flights[f])
    case Answered(_, how) => !how.ServedBase?
    case _ => true
  }

  /** No build of the scope fails, and the call is not served the base. */
  ghost predicate Served(m: Machine, tid: Tid, scope: string, rows: seq<Policy>)
  {
    && !Reserved(scope) && Rows(m.shared, scope) == rows && Merges(m, rows)
    && (forall t :: t in m.threads && Leads(m.threads[t], scope) ==> LeaderSucceeds(m.threads[t].pc.at))
    && tid in m.threads && m.threads[tid].Reader? && m.threads[tid].scope == scope
    && PcServed(m.shared, m.threads[tid].pc)
  }

  lemma ReloadHistory(s: Shared, tid: Tid, pc: ReloadPc)
    ensures ReloadWrites(s, tid, pc).history == if pc.StoreBase? then s.history + [pc.loaded] else s.history
    ensures s.pool ==> ReloadWrites(s, tid, pc).pool
  {
  }

  lemma HistoryGrows(history: seq<Policies>, loaded: Policies, rows: seq<Policy>)
    requires HistoryMerges(history, rows) && MergesOver(loaded, rows)
    ensures HistoryMerges(history + [loaded], rows)
  {
  }

  lemma ReloadPending(s: Shared, pc: ReloadPc, input: Input)
    ensures ReloadNext(s, pc, input).StoreBase? ==> ReloadNext(s, pc, input).loaded == input.loaded
  {
  }

  lemma ReloadMerges(m: Machine, tid: Tid, input: Input, rows: seq<Policy>)
    requires Inv(m) && Merges(m, rows) && Succeeds(Run(tid, input), rows)
    requires tid in m.threads && m.threads[tid].Reloader?
    ensures Merges(Step(m, Run(tid, input)), rows)
  {
    var pc := m.threads[tid].rpc;
    assert PendingMerges(m.threads[tid], rows);
    ReloadHistory(m.shared, tid, pc);
    ReloadPending(m.shared, pc, input);
    if pc.StoreBase? {
      HistoryGrows(m.shared.history, pc.loaded, rows);
    }
  }

  lemma OtherHistory(m: Machine, a: Action)
    requires Inv(m) && !(a.Run? && a.tid in m.threads && m.threads[a.tid].Reloader?)
    ensures Step(m, a).shared.history == m.shared.history && Step(m, a).shared.pool == m.shared.pool
  {
  }

  lemma OtherPending(m: Machine, a: Action, rows: seq<Policy>)
    requires Inv(m) && Merges(m, rows) && !(a.Run? && a.tid in m.threads && m.threads[a.tid].Reloader?)
    ensures forall t :: t in Step(m, a).threads ==> PendingMerges(Step(m, a).threads[t], rows)
  {
  }

  lemma MergesStep(m: Machine, a: Action, rows: seq<Policy>)
    requires Inv(m) && Merges(m, rows) && Succeeds(a, rows)
    ensures Merges(Step(m, a), rows)
  {
    if a.Run? && a.tid in m.threads && m.threads[a.tid].Reloader? {
      ReloadMerges(m, a.tid, a.input, rows);
    } else {
      OtherHistory(m, a);
      OtherPending(m, a, rows);
    }
  }

  lemma LeaderGoesOnSucceeding(s: Shared, scope: string, rows: seq<Policy>, gen: nat, at: FlightPc)
    requires WellFormed(s) && Rows(s, scope) == rows && FlightOk(s, scope, gen, at) && LeaderSucceeds(at)
    requires HistoryMerges(s.history, rows)
    ensures LeaderSucceeds(FlightNext(s, scope, at, false))
  {
  }

  lemma LeadersGoOnSucceeding(m: Machine, a: Action, tid: Tid, scope: string, rows: seq<Policy>)
    requires Sane(m) && Served(m, tid, scope, rows) && Succeeds(a, rows)
    ensures forall t :: t in Step(m, a).threads && Leads(Step(m, a).threads[t], scope) ==>
                          LeaderSucceeds(Step(m, a).threads[t].pc.at)
  {
    if a.Run? && a.tid in m.threads && m.threads[a.tid].Reader? {
      var t := m.threads[a.tid];
      assert ThreadOk(m.shared, t);
      if t.pc.Lead? && t.scope == scope {
        assert Leads(t, scope);
        LeaderGoesOnSucceeding(m.shared, scope, rows, t.pc.gen, t.pc.at);
      }
    } else {
      ReadersStay(m, a);
    }
  }

  lemma OwnStepServed(m: Machine, tid: Tid, input: Input, scope: string, rows: seq<Policy>)
    requires Sane(m) && Served(m, tid, scope, rows)
    ensures PcServed(Step(m, Run(tid, input)).shared, Step(m, Run(tid, input)).threads[tid].pc)
  {
    var t := m.threads[tid];
    assert ThreadOk(m.shared, t) && ThreadLeads(m.shared, t);
    if t.pc.Lead? {
      assert Leads(t, scope);
    }
  }

  lemma OtherStepServed(m: Machine, a: Action, tid: Tid, scope: string, rows: seq<Policy>)
    requires Sane(m) && Served(m, tid, scope, rows) && !(a.Run? && a.tid == tid)
    ensures PcServed(Step(m, a).shared, m.threads[tid].pc)
  {
    var t := m.threads[tid];
    assert ThreadOk(m.shared, t);
    if t.pc.Follow? && a.Run? && a.tid in m.threads && m.threads[a.tid].Reader? {
      var u := m.threads[a.tid];
      assert ThreadOk(m.shared, u) && ThreadLeads(m.shared, u);
      if u.pc.Lead? && u.pc.at.FinishFlight? && u.pc.flight == t.pc.flight {
        assert Leads(u, scope);
      }
    } else if t.pc.Follow? {
      OthersUntouch(m, a, scope);
    }
  }

  lemma RowsKept(m: Machine, a: Action, scope: string)
    requires Inv(m) && WritesOther(a, scope)
    ensures Rows(Step(m, a).shared, scope) == Rows(m.shared, scope)
  {
  }

  lemma ServedStep(m: Machine, a: Action, tid: Tid, scope: string, rows: seq<Policy>)
    requires Sane(m) && Served(m, tid, scope, rows) && Succeeds(a, rows) && WritesOther(a, scope)
    ensures Served(Step(m, a), tid, scope, rows)
  {
    RowsKept(m, a, scope);
    MergesStep(m, a, rows);
    LeadersGoOnSucceeding(m, a, tid, scope, rows);
    StepKeepsCall(m, a, tid);
    if a.Run? && a.tid == tid {
      OwnStepServed(m, tid, a.input, scope, rows);
    } else {
      OtherStepServed(m, a, tid, scope, rows);
    }
  }

  lemma {:induction false} StaysServed(m: Machine, more: seq<Action>, tid: Tid, scope: string, rows: seq<Policy>)
    requires Sane(m) && Served(m, tid, scope, rows)
    requires forall i :: 0 <= i < |more| ==> WritesOther(more[i], scope) && Succeeds(more[i], rows)
    ensures Served(Exec(m, more), tid, scope, rows)
  {
    if more != [] {
      StaysServed(m, more[..|more| - 1], tid, scope, rows);
      ExecIsSane(m, more[..|more| - 1]);
      ExecSnoc(m, more[..|more| - 1], more[|more| - 1]);
      assert more[..|more| - 1] + [more[|more| - 1]] == more;
      ServedStep(Exec(m, more[..|more| - 1]), more[|more| - 1], tid, scope, rows);
    }
  }

  lemma CallStartsServed(m0: Machine, scope: string, tid: Tid, m: Machine)
    requires Sane(m0) && tid !in m0.threads && scope !in m0.shared.inFlight && !Reserved(scope)
    requires Merges(m0, Rows(m0.shared, scope))
    requires m == Machine(m0.shared, m0.threads[tid := Reader(scope, m0.shared.gen, LoadBase)])
    ensures Served(m, tid, scope, Rows(m.shared, scope))
  {
    forall t | t in m0.threads ensures !Leads(m0.threads[t], scope) {
      assert ThreadLeads(m0.shared, m0.threads[t]);
    }
  }

  /**
   A call of a scope that is not empty and starts with no underscore, and that begins in a settled state,
   with a pool stored, no failing step, no further write to its scope and rows that merge over every base,
   is answered with a set built with these rows and never with the bare base.
   */
  lemma RowsAreServed(builtin: Policies, before: seq<Action>, scope: string, tid: Tid, more: seq<Action>)
    requires tid !in After(builtin, before).threads && scope != "" && scope[0] != '_'
    requires forall i :: 0 <= i < |more| ==> WritesOther(more[i], scope)
    ensures var m0 := After(builtin, before);
            var rows := Rows(m0.shared, scope);
            var m := After(builtin, before + [Spawn(tid, CallSnapshot(scope))] + more);
            Settled(m0.shared, scope) && Merges(m0, rows) && AllSucceed(more, rows) ==>
              && tid in m.threads && m.threads[tid].Reader?
              && (m.threads[tid].pc.Answered? ==>
                    !m.threads[tid].pc.how.ServedBase? && WithRows(m.threads[tid].pc.ref, scope, rows))
  {
    var m0 := After(builtin, before);
    var rows := Rows(m0.shared, scope);
    if Settled(m0.shared, scope) && Merges(m0, rows) && AllSucceed(more, rows) {
      RowsAreSeen(builtin, before, scope, tid, more);
      var m := CallBegins(builtin, before, scope, tid);
      ReachableIsSane(builtin, before);
      CallStartsServed(m0, scope, tid, m);
      StaysServed(m, more, tid, scope, rows);
      AfterIsExec(builtin, before + [Spawn(tid, CallSnapshot(scope))], more);
    }
  }
}
