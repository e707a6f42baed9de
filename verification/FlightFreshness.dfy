/**
 When a single-flight follower can be served a stale base: an exact condition on the flight that is
 open when its call begins (go/internal/blocktype/registry.go snapshotForScope).
 */
module FlightFreshness {
  import opened Options
  import Ordering
  import opened Overlay
  import opened TenantRegistry

  // ---------------------------------------------------------------- one leader per open flight

  predicate Leads(t: Thread, scope: string)
  {
    t.Reader? && t.scope == scope && t.pc.Lead?
  }

  /** No cached entry of the scope is newer than the base the leader has loaded. */
  ghost predicate EntriesBelow(s: Shared, scope: string, b: nat)
  {
    forall m :: 0 <= m < |s.maps| && scope in s.maps[m] ==> s.maps[m][scope].ref.version <= b
  }

  ghost predicate LeaderOk(s: Shared, scope: string, f: nat, at: FlightPc)
  {
    && s.pool && scope in s.inFlight && s.inFlight[scope] == f
    && (at.LoadFlightMap? || at.ProbeAgain? ==> EntriesBelow(s, scope, at.b))
  }

  ghost predicate OpenFlights(s: Shared)
  {
    forall scope :: scope in s.inFlight
      ==> s.inFlight[scope] < |s.flights| && s.flights[s.inFlight[scope]].outcome.None?
  }

  ghost predicate ThreadLeads(s: Shared, t: Thread)
  {
    t.Reader? ==>
      && (t.pc.Lead? ==> LeaderOk(s, t.scope, t.pc.flight, t.pc.at))
      && (!t.pc.LoadBase? && !t.pc.LoadPool? && !t.pc.Answered? ==> s.pool)
  }

  /** Every leader leads the flight that is open for its scope, and no scope has two. */
  ghost predicate LeadersOk(m: Machine)
  {
    && OpenFlights(m.shared)
    && (forall t :: t in m.threads ==> ThreadLeads(m.shared, m.threads[t]))
    && (forall t, u, scope ::
          t in m.threads && u in m.threads && Leads(m.threads[t], scope) && Leads(m.threads[u], scope) ==> t == u)
  }

  /** What a step of another thread leaves of a scope: its open flight, and no new cached entry. */
  ghost predicate Untouched(s: Shared, s': Shared, scope: string)
  {
    && (s.pool ==> s'.pool)
    && (scope in s.inFlight ==> scope in s'.inFlight && s'.inFlight[scope] == s.inFlight[scope])
    && (forall m :: 0 <= m < |s'.maps| && scope in s'.maps[m] ==>
          m < |s.maps| && scope in s.maps[m] && s'.maps[m][scope] == s.maps[m][scope])
    && (s'.cur == s.cur || (s'.cur < |s'.maps| && scope !in s'.maps[s'.cur]))
  }

  lemma LeaderUntouched(s: Shared, s': Shared, t: Thread)
    requires ThreadLeads(s, t) && (t.Reader? ==> if t.pc.Lead? then Untouched(s, s', t.scope) else s.pool ==> s'.pool)
    ensures ThreadLeads(s', t)
  {
  }

  /** A leader that steps leaves every other scope alone. */
  lemma OtherScopeUntouched(s: Shared, scope: string, pc: ReaderPc, other: string)
    requires scope != other
    ensures Untouched(s, ReaderWrites(s, scope, pc), other)
  {
  }

  lemma ReloadUntouched(s: Shared, tid: Tid, pc: ReloadPc, scope: string)
    ensures Untouched(s, ReloadWrites(s, tid, pc), scope)
    ensures ReloadWrites(s, tid, pc).inFlight == s.inFlight && ReloadWrites(s, tid, pc).flights == s.flights
  {
  }

  lemma InvalidateUntouched(s: Shared, scope: string, pc: InvalidatePc, other: string)
    ensures Untouched(s, InvalidateWrites(s, scope, pc), other)
    ensures InvalidateWrites(s, scope, pc).inFlight == s.inFlight && InvalidateWrites(s, scope, pc).flights == s.flights
  {
  }

  lemma OpenFlightsKept(s: Shared, scope: string, pc: ReaderPc)
    requires OpenFlights(s) && FlightsOk(s) && (pc.Lead? ==> scope in s.inFlight && s.inFlight[scope] == pc.flight)
    ensures OpenFlights(ReaderWrites(s, scope, pc))
  {
    var s' := ReaderWrites(s, scope, pc);
    forall x | x in s'.inFlight ensures s'.inFlight[x] < |s'.flights| && s'.flights[s'.inFlight[x]].outcome.None? {
      if x != scope {
        assert x in s.inFlight && InFlightOf(s, x, s.inFlight[x]);
      }
    }
  }

  /** The leader's own next point. */
  lemma LeaderNextOk(s: Shared, scope: string, base: nat, gen: nat, f: nat, at: FlightPc, fails: bool)
    requires WellFormed(s) && EntriesOk(s) && LeaderOk(s, scope, f, at) && !at.FinishFlight?
    ensures LeaderOk(ReaderWrites(s, scope, Lead(base, gen, f, at)), scope, f, FlightNext(s, scope, at, fails))
  {
    if at.LoadFlightBase? {
      forall m | 0 <= m < |s.maps| && scope in s.maps[m] ensures s.maps[m][scope].ref.version <= Version(s) {
        assert EntryOk(s, scope, s.maps[m][scope]);
      }
    }
  }

  lemma ReaderLeads(s: Shared, t: Thread, fails: bool)
    requires WellFormed(s) && EntriesOk(s) && t.Reader? && ThreadLeads(s, t)
    ensures ThreadLeads(ReaderWrites(s, t.scope, t.pc), t.(pc := ReaderNext(s, t.scope, t.pc, fails)))
  {
    match t.pc
    case Lead(base, gen, f, at) => if !at.FinishFlight? { LeaderNextOk(s, t.scope, base, gen, f, at, fails); }
    case _ =>
  }

  lemma OtherKeepsLeading(m: Machine, tid: Tid, u: Tid)
    requires Inv(m) && LeadersOk(m) && tid in m.threads && m.threads[tid].Reader? && u in m.threads && u != tid
    ensures ThreadLeads(ReaderWrites(m.shared, m.threads[tid].scope, m.threads[tid].pc), m.threads[u])
  {
    var t, other := m.threads[tid], m.threads[u];
    assert ThreadLeads(m.shared, other);
    if other.Reader? && other.pc.Lead? {
      if other.scope == t.scope {
        assert Leads(other, t.scope) && !Leads(t, t.scope);
      } else {
        OtherScopeUntouched(m.shared, t.scope, t.pc, other.scope);
      }
    }
    LeaderUntouched(m.shared, ReaderWrites(m.shared, t.scope, t.pc), other);
  }

  lemma ReaderStepLeads(m: Machine, tid: Tid, input: Input)
    requires Inv(m) && LeadersOk(m) && tid in m.threads && m.threads[tid].Reader?
    ensures LeadersOk(Step(m, Run(tid, input)))
  {
    var s, t := m.shared, m.threads[tid];
    var m' := Step(m, Run(tid, input));
    assert ThreadLeads(s, t);
    OpenFlightsKept(s, t.scope, t.pc);
    ReaderLeads(s, t, input.fails);
    forall u | u in m.threads && u != tid ensures ThreadLeads(m'.shared, m.threads[u]) {
      OtherKeepsLeading(m, tid, u);
    }
    forall u | u in m.threads && u != tid && Leads(m.threads[u], t.scope) ensures !Leads(m'.threads[tid], t.scope) {
      assert ThreadLeads(s, m.threads[u]) && !Leads(t, t.scope);
    }
  }

  lemma OtherStepLeads(m: Machine, a: Action)
    requires Inv(m) && LeadersOk(m) && !(a.Run? && a.tid in m.threads && m.threads[a.tid].Reader?)
    ensures LeadersOk(Step(m, a))
  {
    var m' := Step(m, a);
    OthersUntouch(m, a, "");
    ReadersStay(m, a);
    forall u | u in m'.threads ensures ThreadLeads(m'.shared, m'.threads[u]) {
      if u in m.threads && m.threads[u].Reader? {
        OthersUntouch(m, a, m.threads[u].scope);
        LeaderUntouched(m.shared, m'.shared, m.threads[u]);
      }
    }
  }

  /** Such a step moves no reader and starts no leader. */
  lemma ReadersStay(m: Machine, a: Action)
    requires Inv(m) && !(a.Run? && a.tid in m.threads && m.threads[a.tid].Reader?)
    ensures forall u :: u in m.threads && m.threads[u].Reader? ==>
              u in Step(m, a).threads && Step(m, a).threads[u] == m.threads[u]
    ensures forall u :: u in Step(m, a).threads && Step(m, a).threads[u].Reader? ==>
                          (u in m.threads && Step(m, a).threads[u] == m.threads[u])
                            || Step(m, a).threads[u].pc.LoadBase?
  {
  }

  lemma StepLeads(m: Machine, a: Action)
    requires Inv(m) && LeadersOk(m)
    ensures LeadersOk(Step(m, a))
  {
    if a.Run? && a.tid in m.threads && m.threads[a.tid].Reader? {
      ReaderStepLeads(m, a.tid, a.input);
    } else {
      OtherStepLeads(m, a);
    }
  }

  lemma OthersUntouch(m: Machine, a: Action, scope: string)
    requires Inv(m) && !(a.Run? && a.tid in m.threads && m.threads[a.tid].Reader?)
    ensures Untouched(m.shared, Step(m, a).shared, scope)
    ensures Step(m, a).shared.inFlight == m.shared.inFlight && Step(m, a).shared.flights == m.shared.flights
  {
    if a.Run? && a.tid in m.threads {
      var t := m.threads[a.tid];
      if t.Reloader? {
        ReloadUntouched(m.shared, a.tid, t.rpc, scope);
      } else {
        InvalidateUntouched(m.shared, t.iscope, t.ipc, scope);
      }
    }
  }

  /** The two invariants of a reachable machine. */
  ghost predicate Sane(m: Machine)
  {
    Inv(m) && LeadersOk(m)
  }

  lemma {:induction false} ReachableIsSane(builtin: Policies, actions: seq<Action>)
    ensures Sane(After(builtin, actions))
  {
    if actions != [] {
      ReachableIsSane(builtin, actions[..|actions| - 1]);
      StepLeads(After(builtin, actions[..|actions| - 1]), actions[|actions| - 1]);
    }
  }

  lemma StepIsSane(m: Machine, a: Action)
    requires Sane(m)
    ensures Sane(Step(m, a))
  {
    StepKeeps(m, a);
    StepLeads(m, a);
  }

  // ---------------------------------------------------------------- what an open flight can still land

  /** A re-probe of the map would find an entry under the stamp that is older. */
  predicate FindsOlder(s: Shared, m: nat, scope: string, g: nat, least: nat)
  {
    Current(s, m, scope, g).Some? && Current(s, m, scope, g).value.version < least
  }

  /** Whether a leader at this point can still land a set from a base before `least`. */
  predicate CanLandOlder(s: Shared, scope: string, at: FlightPc, least: nat)
  {
    match at
    case LoadStamp => false
    case LoadFlightBase(g) => FindsOlder(s, s.cur, scope, g, least)
    case LoadFlightMap(g, b) => b < least || FindsOlder(s, s.cur, scope, g, least)
    case ProbeAgain(g, b, m) => b < least || FindsOlder(s, m, scope, g, least)
    case Build(_, b) => b < least
    case LoadStoreMap(_, ref) => ref.version < least
    case StoreEntry(_, ref, _) => ref.version < least
    case FinishFlight(_, result) => result.Some? && result.value.version < least
  }

  /** Some leader of the scope can. */
  ghost predicate FlightCanLandOlder(m: Machine, scope: string, least: nat)
  {
    exists t :: t in m.threads && Leads(m.threads[t], scope) && CanLandOlder(m.shared, scope, m.threads[t].pc.at, least)
  }

  lemma FoundIsNew(s: Shared, m: nat, scope: string, g: nat, least: nat)
    requires EntriesOk(s) && least <= g
    ensures !FindsOlder(s, m, scope, g, least)
  {
    if Current(s, m, scope, g).Some? {
      assert EntryOk(s, scope, s.maps[m][scope]);
    }
  }

  /** A leader that cannot land an older set does not come to be able to. */
  lemma LeaderStaysNew(s: Shared, scope: string, base: nat, gen: nat, f: nat, at: FlightPc, fails: bool, least: nat)
    requires WellFormed(s) && EntriesOk(s) && least <= s.gen <= Version(s)
    requires !CanLandOlder(s, scope, at, least) && !at.FinishFlight?
    ensures !CanLandOlder(ReaderWrites(s, scope, Lead(base, gen, f, at)), scope, FlightNext(s, scope, at, fails), least)
  {
    if at.LoadStamp? {
      FoundIsNew(s, s.cur, scope, s.gen, least);
    }
  }

  lemma OtherStaysNew(s: Shared, s': Shared, scope: string, at: FlightPc, least: nat)
    requires Untouched(s, s', scope) && !CanLandOlder(s, scope, at, least)
    ensures !CanLandOlder(s', scope, at, least)
  {
  }

  // ---------------------------------------------------------------- without such a flight every answer is new

  ghost predicate LandedNew(s: Shared, f: nat, least: nat)
  {
    f < |s.flights| &&
    (s.flights[f].outcome.Some? && s.flights[f].outcome.value.1.Some?
     ==> least <= s.flights[f].outcome.value.1.value.version)
  }

  ghost predicate PcNew(s: Shared, pc: ReaderPc, least: nat)
  {
    match pc
    case Follow(_, _, f) => LandedNew(s, f, least)
    case Answered(ref, _) => least <= ref.version
    case _ => true
  }

  /** No flight can land a set older than the reader's start, and the reader has not been handed one. */
  ghost predicate Spared(m: Machine, tid: Tid)
  {
    && tid in m.threads && m.threads[tid].Reader?
    && var t := m.threads[tid];
       !FlightCanLandOlder(m, t.scope, t.startGen) && PcNew(m.shared, t.pc, t.startGen)
  }

  lemma ReaderStaysNew(m: Machine, tid: Tid, input: Input)
    requires Sane(m) && Spared(m, tid)
    ensures var m', t := Step(m, Run(tid, input)), m.threads[tid];
            PcNew(m'.shared, m'.threads[tid].pc, t.startGen)
  {
    var m', t := Step(m, Run(tid, input)), m.threads[tid];
    StepIsSane(m, Run(tid, input));
    assert ThreadOk(m.shared, t) && ThreadOk(m'.shared, m'.threads[tid]);
  }

  lemma FollowedStaysNew(m: Machine, a: Action, tid: Tid)
    requires Sane(m) && Spared(m, tid) && !(a.Run? && a.tid == tid)
    ensures PcNew(Step(m, a).shared, m.threads[tid].pc, m.threads[tid].startGen)
  {
    var t := m.threads[tid];
    assert ThreadOk(m.shared, t);
    if t.pc.Follow? && a.Run? && a.tid in m.threads && m.threads[a.tid].Reader? {
      var u := m.threads[a.tid];
      assert ThreadOk(m.shared, u) && ThreadLeads(m.shared, u);
      if u.pc.Lead? && u.pc.at.FinishFlight? && u.pc.flight == t.pc.flight {
        assert Leads(u, t.scope);
      }
    } else if t.pc.Follow? {
      OthersUntouch(m, a, t.scope);
    }
  }

  lemma LeadersStayNew(m: Machine, a: Action, scope: string, least: nat)
    requires Sane(m) && !FlightCanLandOlder(m, scope, least) && least <= m.shared.gen
    ensures !FlightCanLandOlder(Step(m, a), scope, least)
  {
    var s, m' := m.shared, Step(m, a);
    forall u | u in m'.threads && Leads(m'.threads[u], scope)
      ensures !CanLandOlder(m'.shared, scope, m'.threads[u].pc.at, least)
    {
      if a.Run? && a.tid in m.threads && m.threads[a.tid].Reader? {
        var t := m.threads[a.tid];
        if u == a.tid {
          if t.pc.Lead? {
            LeaderStaysNew(s, scope, t.pc.base, t.pc.gen, t.pc.flight, t.pc.at, a.input.fails, least);
          }
        } else {
          ReaderUntouches(m, a.tid, u, scope);
          OtherStaysNew(s, m'.shared, scope, m.threads[u].pc.at, least);
        }
      } else {
        OthersUntouch(m, a, scope);
        OtherStaysNew(s, m'.shared, scope, m.threads[u].pc.at, least);
      }
    }
  }

  /** While a leader is at work no other reader touches what it depends on. */
  lemma ReaderUntouches(m: Machine, tid: Tid, leader: Tid, scope: string)
    requires Sane(m) && tid in m.threads && leader in m.threads && tid != leader
    requires m.threads[tid].Reader? && Leads(m.threads[leader], scope)
    ensures Untouched(m.shared, ReaderWrites(m.shared, m.threads[tid].scope, m.threads[tid].pc), scope)
  {
    var t := m.threads[tid];
    assert ThreadLeads(m.shared, m.threads[leader]);
    if t.scope == scope {
      assert !Leads(t, scope);
    } else {
      OtherScopeUntouched(m.shared, t.scope, t.pc, scope);
    }
  }

  lemma SparedStep(m: Machine, a: Action, tid: Tid)
    requires Sane(m) && Spared(m, tid)
    ensures Spared(Step(m, a), tid)
  {
    var t := m.threads[tid];
    assert ThreadOk(m.shared, t);
    LeadersStayNew(m, a, t.scope, t.startGen);
    if a.Run? && a.tid == tid {
      ReaderStaysNew(m, tid, a.input);
    } else {
      FollowedStaysNew(m, a, tid);
    }
  }

  // ---------------------------------------------------------------- runs from any machine

  /** A step of any machine; one that is not well formed stays as it is. */
  ghost function Next(): (Machine, Action) -> Machine
  {
    (m: Machine, a: Action) => if WellFormed(m.shared) then Step(m, a) else m
  }

  ghost function Exec(m: Machine, actions: seq<Action>): (m': Machine)
    requires WellFormed(m.shared)
    ensures WellFormed(m'.shared)
  {
    ExecIsWellFormed(m, actions);
    Ordering.Led(Next(), m, actions)
  }

  lemma {:induction false} ExecIsWellFormed(m: Machine, actions: seq<Action>)
    requires WellFormed(m.shared)
    ensures WellFormed(Ordering.Led(Next(), m, actions).shared)
  {
    if actions != [] {
      ExecIsWellFormed(m, actions[..|actions| - 1]);
    }
  }

  lemma ExecConcat(m: Machine, a: seq<Action>, b: seq<Action>)
    requires WellFormed(m.shared)
    ensures Exec(m, a + b) == Exec(Exec(m, a), b)
  {
    Ordering.LedOn(Next(), m, a, b);
  }

  lemma ExecOne(m: Machine, a: Action, rest: seq<Action>)
    requires WellFormed(m.shared)
    ensures Exec(m, [a] + rest) == Exec(Step(m, a), rest)
    ensures Exec(m, [a]) == Step(m, a)
  {
    Ordering.LedByOne(Next(), m, a, rest);
  }

  lemma ExecSnoc(m: Machine, actions: seq<Action>, a: Action)
    requires WellFormed(m.shared)
    ensures Exec(m, actions + [a]) == Step(Exec(m, actions), a)
  {
    ExecConcat(m, actions, [a]);
    ExecOne(Exec(m, actions), a, []);
  }

  lemma {:induction false} RunIsExec(builtin: Policies, actions: seq<Action>)
    ensures After(builtin, actions) == Exec(Initial(builtin), actions)
  {
    if actions != [] {
      var rest, a := actions[..|actions| - 1], actions[|actions| - 1];
      RunIsExec(builtin, rest);
      ExecSnoc(Initial(builtin), rest, a);
      AfterSnoc(builtin, rest, a);
      assert rest + [a] == actions;
    }
  }

  lemma AfterIsExec(builtin: Policies, actions: seq<Action>, more: seq<Action>)
    ensures After(builtin, actions + more) == Exec(After(builtin, actions), more)
  {
    RunIsExec(builtin, actions);
    RunIsExec(builtin, actions + more);
    ExecConcat(Initial(builtin), actions, more);
  }

  lemma {:induction false} ExecIsSane(m: Machine, actions: seq<Action>)
    requires Sane(m)
    ensures Sane(Exec(m, actions))
  {
    if actions != [] {
      ExecSnoc(m, actions[..|actions| - 1], actions[|actions| - 1]);
      assert actions[..|actions| - 1] + [actions[|actions| - 1]] == actions;
      ExecIsSane(m, actions[..|actions| - 1]);
      StepIsSane(Exec(m, actions[..|actions| - 1]), actions[|actions| - 1]);
    }
  }

  lemma {:induction false} StaysSpared(m: Machine, actions: seq<Action>, tid: Tid)
    requires Sane(m) && Spared(m, tid)
    ensures Spared(Exec(m, actions), tid)
    ensures Exec(m, actions).threads[tid].startGen == m.threads[tid].startGen
  {
    if actions != [] {
      var before, a := Exec(m, actions[..|actions| - 1]), actions[|actions| - 1];
      ExecSnoc(m, actions[..|actions| - 1], a);
      assert actions[..|actions| - 1] + [a] == actions;
      ExecIsSane(m, actions[..|actions| - 1]);
      StaysSpared(m, actions[..|actions| - 1], tid);
      SparedStep(before, a, tid);
      StepKeepsCall(before, a, tid);
    }
  }

  // ---------------------------------------------------------------- with such a flight some run is stale

  const PLAIN: Input := Input(false, map[])

  function StepsLeft(at: FlightPc): nat
  {
    match at
    case LoadStamp => 7
    case LoadFlightBase(_) => 6
    case LoadFlightMap(_, _) => 5
    case ProbeAgain(_, _, _) => 4
    case Build(_, _) => 3
    case LoadStoreMap(_, _) => 2
    case StoreEntry(_, _, _) => 1
    case FinishFlight(_, _) => 0
  }

  /** A leader that can land an older set comes one step closer to it, if the tenant has no rows. */
  lemma LeaderComesCloser(s: Shared, scope: string, base: nat, gen: nat, f: nat, at: FlightPc, least: nat)
    requires WellFormed(s) && Rows(s, scope) == [] && FlightOk(s, scope, gen, at) && LeaderOk(s, scope, f, at)
    requires CanLandOlder(s, scope, at, least) && !at.FinishFlight?
    ensures var s', next := ReaderWrites(s, scope, Lead(base, gen, f, at)), FlightNext(s, scope, at, false);
            CanLandOlder(s', scope, next, least) && StepsLeft(next) < StepsLeft(at) && Rows(s', scope) == []
  {
  }

  ghost predicate LandedOlder(s: Shared, f: nat, least: nat)
  {
    && f < |s.flights| && s.flights[f].outcome.Some? && s.flights[f].outcome.value.1.Some?
    && s.flights[f].outcome.value.1.value.version < least
  }

  /** Left alone, such a leader lands an older set. */
  lemma {:induction false} LandsOlder(m: Machine, leader: Tid, least: nat) returns (more: seq<Action>)
    requires Sane(m) && leader in m.threads && m.threads[leader].Reader? && m.threads[leader].pc.Lead?
    requires Rows(m.shared, m.threads[leader].scope) == []
    requires CanLandOlder(m.shared, m.threads[leader].scope, m.threads[leader].pc.at, least)
    ensures LandedOlder(Exec(m, more).shared, m.threads[leader].pc.flight, least)
    ensures forall t :: t in m.threads && t != leader ==>
              t in Exec(m, more).threads && Exec(m, more).threads[t] == m.threads[t]
    decreases StepsLeft(m.threads[leader].pc.at)
  {
    var t := m.threads[leader];
    var m' := Step(m, Run(leader, PLAIN));
    assert ThreadOk(m.shared, t) && ThreadLeads(m.shared, t);
    if t.pc.at.FinishFlight? {
      more := [Run(leader, PLAIN)];
      ExecOne(m, Run(leader, PLAIN), []);
    } else {
      LeaderComesCloser(m.shared, t.scope, t.pc.base, t.pc.gen, t.pc.flight, t.pc.at, least);
      StepIsSane(m, Run(leader, PLAIN));
      var rest := LandsOlder(m', leader, least);
      more := [Run(leader, PLAIN)] + rest;
      ExecOne(m, Run(leader, PLAIN), rest);
    }
  }

  /** The reader has been answered with a set from a base before its start. */
  ghost predicate Stale(m: Machine, tid: Tid)
  {
    && tid in m.threads && m.threads[tid].Reader? && m.threads[tid].pc.Answered?
    && m.threads[tid].pc.ref.version < m.threads[tid].startGen
  }

  /** A reader that follows a flight whose leader can land an older set. */
  ghost predicate Follows(m: Machine, tid: Tid, leader: Tid)
  {
    && tid in m.threads && leader in m.threads && tid != leader && m.threads[tid].Reader? && m.threads[tid].pc.Follow?
    && Leads(m.threads[leader], m.threads[tid].scope) && m.threads[tid].pc.flight == m.threads[leader].pc.flight
    && CanLandOlder(m.shared, m.threads[tid].scope, m.threads[leader].pc.at, m.threads[tid].startGen)
  }

  lemma FollowerGoesStale(m: Machine, tid: Tid, leader: Tid) returns (more: seq<Action>)
    requires Sane(m) && Follows(m, tid, leader)
    ensures Stale(Exec(m, more), tid)
  {
    var scope := m.threads[tid].scope;
    var a := WriteRows(scope, []);
    var m1 := Step(m, a);
    StepIsSane(m, a);
    var land := LandsOlder(m1, leader, m.threads[tid].startGen);
    var m2 := Exec(m1, land);
    ExecOne(m2, Run(tid, PLAIN), []);
    ExecConcat(m1, land, [Run(tid, PLAIN)]);
    ExecOne(m, a, land + [Run(tid, PLAIN)]);
    more := [a] + (land + [Run(tid, PLAIN)]);
  }

  /** At the join: a reader about to enter an open flight that can land an older set can be served it. */
  lemma JoinGoesStale(m: Machine, tid: Tid, leader: Tid) returns (more: seq<Action>)
    requires Sane(m) && tid in m.threads && m.threads[tid].Reader? && m.threads[tid].pc.EnterFlight?
    requires leader in m.threads && Leads(m.threads[leader], m.threads[tid].scope)
    requires CanLandOlder(m.shared, m.threads[tid].scope, m.threads[leader].pc.at, m.threads[tid].startGen)
    ensures Stale(Exec(m, more), tid)
  {
    var m1 := Step(m, Run(tid, PLAIN));
    assert ThreadLeads(m.shared, m.threads[leader]);
    StepIsSane(m, Run(tid, PLAIN));
    assert Follows(m1, tid, leader);
    var rest := FollowerGoesStale(m1, tid, leader);
    ExecOne(m, Run(tid, PLAIN), rest);
    more := [Run(tid, PLAIN)] + rest;
  }

  ghost predicate StaleAfter(m: Machine, tid: Tid, more: seq<Action>)
    requires WellFormed(m.shared)
  {
    Stale(Exec(m, more), tid)
  }

  /** At the join, then: a stale answer is possible exactly when the open flight can land one. */
  lemma JoinIsStaleIff(m: Machine, tid: Tid)
    requires Sane(m) && tid in m.threads && m.threads[tid].Reader? && m.threads[tid].pc.EnterFlight?
    ensures (exists more :: StaleAfter(m, tid, more))
            <==> FlightCanLandOlder(m, m.threads[tid].scope, m.threads[tid].startGen)
  {
    var t := m.threads[tid];
    if FlightCanLandOlder(m, t.scope, t.startGen) {
      var leader :| leader in m.threads && Leads(m.threads[leader], t.scope)
                    && CanLandOlder(m.shared, t.scope, m.threads[leader].pc.at, t.startGen);
      var more := JoinGoesStale(m, tid, leader);
      assert StaleAfter(m, tid, more);
    } else {
      forall more ensures !StaleAfter(m, tid, more) {
        StaysSpared(m, more, tid);
      }
    }
  }

  // ---------------------------------------------------------------- from the start of the call

  /** A thread that only moves itself: the machine with its new program point. */
  function At(m: Machine, tid: Tid, scope: string, startGen: nat, pc: ReaderPc): Machine
  {
    Machine(m.shared, m.threads[tid := Reader(scope, startGen, pc)])
  }

  lemma ReaderTurn(m: Machine, tid: Tid, scope: string, startGen: nat, pc: ReaderPc, input: Input)
    requires WellFormed(m.shared) && ReaderWrites(m.shared, scope, pc) == m.shared
    ensures Step(At(m, tid, scope, startGen, pc), Run(tid, input))
            == At(m, tid, scope, startGen, ReaderNext(m.shared, scope, pc, input.fails))
  {
  }

  /** One turn that only moves the reader. */
  lemma Moves(m: Machine, tid: Tid, scope: string, startGen: nat, pc: ReaderPc, next: ReaderPc, more: seq<Action>)
    requires WellFormed(m.shared) && ReaderWrites(m.shared, scope, pc) == m.shared
    requires ReaderNext(m.shared, scope, pc, PLAIN.fails) == next
    ensures Exec(At(m, tid, scope, startGen, pc), [Run(tid, PLAIN)] + more)
            == Exec(At(m, tid, scope, startGen, next), more)
  {
    ExecOne(At(m, tid, scope, startGen, pc), Run(tid, PLAIN), more);
    ReaderTurn(m, tid, scope, startGen, pc, PLAIN);
  }

  lemma LoadsBase(m: Machine, tid: Tid, scope: string, startGen: nat, more: seq<Action>)
    requires WellFormed(m.shared) && m.shared.pool && !Reserved(scope)
    ensures Exec(At(m, tid, scope, startGen, LoadBase), [Run(tid, PLAIN)] + ([Run(tid, PLAIN)] + more))
            == Exec(At(m, tid, scope, startGen, LoadGen(Version(m.shared))), more)
  {
    var v := Version(m.shared);
    Moves(m, tid, scope, startGen, LoadBase, LoadPool(v), [Run(tid, PLAIN)] + more);
    Moves(m, tid, scope, startGen, LoadPool(v), LoadGen(v), more);
  }

  lemma LoadsGeneration(m: Machine, tid: Tid, scope: string, startGen: nat, base: nat, more: seq<Action>)
    requires WellFormed(m.shared)
    ensures Exec(At(m, tid, scope, startGen, LoadGen(base)), [Run(tid, PLAIN)] + ([Run(tid, PLAIN)] + more))
            == Exec(At(m, tid, scope, startGen, Probe(base, m.shared.gen, m.shared.cur)), more)
  {
    var g := m.shared.gen;
    Moves(m, tid, scope, startGen, LoadGen(base), LoadMap(base, g), [Run(tid, PLAIN)] + more);
    Moves(m, tid, scope, startGen, LoadMap(base, g), Probe(base, g, m.shared.cur), more);
  }

  lemma MissesCache(m: Machine, tid: Tid, scope: string, startGen: nat, base: nat)
    requires WellFormed(m.shared) && Current(m.shared, m.shared.cur, scope, m.shared.gen).None?
    ensures Exec(At(m, tid, scope, startGen, Probe(base, m.shared.gen, m.shared.cur)), [Run(tid, PLAIN)])
            == At(m, tid, scope, startGen, EnterFlight(base, m.shared.gen))
  {
    Moves(m, tid, scope, startGen, Probe(base, m.shared.gen, m.shared.cur), EnterFlight(base, m.shared.gen), []);
    assert [Run(tid, PLAIN)] + [] == [Run(tid, PLAIN)];
  }

  /** A call that misses the cache reaches the single flight, on its own. */
  lemma ReachesFlight(m: Machine, tid: Tid, scope: string, startGen: nat) returns (more: seq<Action>)
    requires WellFormed(m.shared) && m.shared.pool && !Reserved(scope)
    requires Current(m.shared, m.shared.cur, scope, m.shared.gen).None?
    ensures Exec(At(m, tid, scope, startGen, LoadBase), more)
            == At(m, tid, scope, startGen, EnterFlight(Version(m.shared), m.shared.gen))
  {
    var r := Run(tid, PLAIN);
    var later := [r] + ([r] + [r]);
    LoadsBase(m, tid, scope, startGen, later);
    LoadsGeneration(m, tid, scope, startGen, Version(m.shared), [r]);
    MissesCache(m, tid, scope, startGen, Version(m.shared));
    more := [r] + ([r] + later);
  }

  /** An invalidation removes the scope from the current map and touches nothing else. */
  lemma Invalidates(m: Machine, scope: string) returns (more: seq<Action>)
    requires WellFormed(m.shared)
    ensures Exec(m, more).shared
            == m.shared.(maps := m.shared.maps[m.shared.cur := m.shared.maps[m.shared.cur] - {scope}])
    ensures forall t :: t in m.threads ==> t in Exec(m, more).threads && Exec(m, more).threads[t] == m.threads[t]
  {
    var u := Ordering.Unused(m.threads.Keys);
    var a, b := Spawn(u, CallInvalidate(scope)), Run(u, PLAIN);
    var m1 := Step(m, a);
    var m2 := Step(m1, b);
    ExecOne(m, a, [b] + [b]);
    ExecOne(m1, b, [b]);
    ExecOne(m2, b, []);
    more := [a] + ([b] + [b]);
  }

  /** Removing an entry of the current generation takes nothing older from an open flight. */
  lemma InvalidationLeavesOlder(s: Shared, scope: string, at: FlightPc, least: nat)
    requires WellFormed(s) && EntriesOk(s) && CanLandOlder(s, scope, at, least)
    requires scope in s.maps[s.cur] && s.maps[s.cur][scope].gen == least
    ensures CanLandOlder(s.(maps := s.maps[s.cur := s.maps[s.cur] - {scope}]), scope, at, least)
  {
    assert EntryOk(s, scope, s.maps[s.cur][scope]);
  }

  /** A reader that has just begun can be brought to the join. */
  lemma BeginnerGoesStale(m: Machine, tid: Tid, leader: Tid) returns (more: seq<Action>)
    requires Sane(m) && tid in m.threads && m.threads[tid].Reader? && m.threads[tid].pc.LoadBase?
    requires m.threads[tid].startGen == m.shared.gen
    requires leader in m.threads && Leads(m.threads[leader], m.threads[tid].scope)
    requires CanLandOlder(m.shared, m.threads[tid].scope, m.threads[leader].pc.at, m.shared.gen)
    requires Current(m.shared, m.shared.cur, m.threads[tid].scope, m.shared.gen).None?
    ensures Stale(Exec(m, more), tid)
  {
    var t := m.threads[tid];
    assert ThreadOk(m.shared, m.threads[leader]) && ThreadLeads(m.shared, m.threads[leader]);
    assert At(m, tid, t.scope, t.startGen, LoadBase) == m by { assert m.threads[tid := t] == m.threads; }
    var turns := ReachesFlight(m, tid, t.scope, t.startGen);
    var m1 := Exec(m, turns);
    ExecIsSane(m, turns);
    assert m1.threads[leader] == m.threads[leader];
    var rest := JoinGoesStale(m1, tid, leader);
    ExecConcat(m, turns, rest);
    more := turns + rest;
  }

  lemma StartGoesStale(m: Machine, tid: Tid, leader: Tid) returns (more: seq<Action>)
    requires Sane(m) && tid in m.threads && m.threads[tid].Reader? && m.threads[tid].pc.LoadBase?
    requires m.threads[tid].startGen == m.shared.gen
    requires leader in m.threads && Leads(m.threads[leader], m.threads[tid].scope)
    requires CanLandOlder(m.shared, m.threads[tid].scope, m.threads[leader].pc.at, m.shared.gen)
    ensures Stale(Exec(m, more), tid)
  {
    var scope := m.threads[tid].scope;
    if Current(m.shared, m.shared.cur, scope, m.shared.gen).None? {
      more := BeginnerGoesStale(m, tid, leader);
    } else {
      var clear := Invalidates(m, scope);
      InvalidationLeavesOlder(m.shared, scope, m.threads[leader].pc.at, m.shared.gen);
      ExecIsSane(m, clear);
      var rest := BeginnerGoesStale(Exec(m, clear), tid, leader);
      ExecConcat(m, clear, rest);
      more := clear + rest;
    }
  }

  /** The call that begins after `before`, and what it has come to after `more`. */
  ghost predicate AnswersStale(builtin: Policies, before: seq<Action>, scope: string, tid: Tid, more: seq<Action>)
  {
    Stale(After(builtin, before + [Spawn(tid, CallSnapshot(scope))] + more), tid)
  }

  lemma CallBegins(builtin: Policies, before: seq<Action>, scope: string, tid: Tid) returns (m: Machine)
    requires tid !in After(builtin, before).threads
    ensures var m0 := After(builtin, before);
            m == Machine(m0.shared, m0.threads[tid := Reader(scope, m0.shared.gen, LoadBase)])
    ensures m == After(builtin, before + [Spawn(tid, CallSnapshot(scope))]) && Sane(m)
  {
    var called := before + [Spawn(tid, CallSnapshot(scope))];
    assert called[..|called| - 1] == before;
    m := After(builtin, called);
    ReachableIsSane(builtin, called);
  }

  lemma LeadersBeforeCall(m0: Machine, m: Machine, tid: Tid, scope: string)
    requires tid !in m0.threads && m == Machine(m0.shared, m0.threads[tid := Reader(scope, m0.shared.gen, LoadBase)])
    ensures FlightCanLandOlder(m, scope, m0.shared.gen) <==> FlightCanLandOlder(m0, scope, m0.shared.gen)
  {
    if FlightCanLandOlder(m0, scope, m0.shared.gen) {
      var t :| t in m0.threads && Leads(m0.threads[t], scope)
        && CanLandOlder(m0.shared, scope, m0.threads[t].pc.at, m0.shared.gen);
      assert m.threads[t] == m0.threads[t];
    }
    if FlightCanLandOlder(m, scope, m0.shared.gen) {
      var t :| t in m.threads && Leads(m.threads[t], scope)
        && CanLandOlder(m.shared, scope, m.threads[t].pc.at, m0.shared.gen);
      assert t in m0.threads;
    }
  }

  /**
   A call can be answered with a set older than the generation at its start exactly when, at its
   start, a flight of its scope is open whose leader can still land one.
   */
  lemma StaleAnswerIff(builtin: Policies, before: seq<Action>, scope: string, tid: Tid)
    requires tid !in After(builtin, before).threads
    ensures (exists more :: AnswersStale(builtin, before, scope, tid, more))
            <==> FlightCanLandOlder(After(builtin, before), scope, After(builtin, before).shared.gen)
  {
    var m0 := After(builtin, before);
    var called := before + [Spawn(tid, CallSnapshot(scope))];
    var m := CallBegins(builtin, before, scope, tid);
    LeadersBeforeCall(m0, m, tid, scope);
    if FlightCanLandOlder(m, scope, m0.shared.gen) {
      var leader :| leader in m.threads && Leads(m.threads[leader], scope)
                    && CanLandOlder(m.shared, scope, m.threads[leader].pc.at, m0.shared.gen);
      var more := StartGoesStale(m, tid, leader);
      AfterIsExec(builtin, called, more);
      assert AnswersStale(builtin, before, scope, tid, more);
    } else {
      forall more ensures !AnswersStale(builtin, before, scope, tid, more) {
        StaysSpared(m, more, tid);
        AfterIsExec(builtin, called, more);
      }
    }
  }

  /** In particular a call that begins while no flight of its scope is open is never answered stale. */
  lemma FreshWithoutOpenFlight(builtin: Policies, before: seq<Action>, scope: string, tid: Tid, more: seq<Action>)
    requires tid !in After(builtin, before).threads
    ensures scope !in After(builtin, before).shared.inFlight ==> !AnswersStale(builtin, before, scope, tid, more)
  {
    var m0 := After(builtin, before);
    ReachableIsSane(builtin, before);
    if scope !in m0.shared.inFlight {
      forall t | t in m0.threads ensures !Leads(m0.threads[t], scope) {
        assert ThreadLeads(m0.shared, m0.threads[t]);
      }
    }
    StaleAnswerIff(builtin, before, scope, tid);
  }

  // ---------------------------------------------------------------- a stale follower is always possible

  /** A machine with a Reload at a program point. */
  function Reloading(s: Shared, threads: map<Tid, Thread>, r: Tid, pc: ReloadPc): Machine
  {
    Machine(s, threads[r := Reloader(pc)])
  }

  lemma ReloadTurn(s: Shared, threads: map<Tid, Thread>, r: Tid, pc: ReloadPc, input: Input, more: seq<Action>)
    requires WellFormed(s) && WellFormed(ReloadWrites(s, r, pc))
    ensures Exec(Reloading(s, threads, r, pc), [Run(r, input)] + more)
            == Exec(Reloading(ReloadWrites(s, r, pc), threads, r, ReloadNext(s, pc, input)), more)
  {
    ExecOne(Reloading(s, threads, r, pc), Run(r, input), more);
    assert Step(Reloading(s, threads, r, pc), Run(r, input))
        == Reloading(ReloadWrites(s, r, pc), threads, r, ReloadNext(s, pc, input));
  }

  /** Shared memory once a Reload has published what it loaded. */
  function Published(s: Shared, loaded: Policies): Shared
  {
    s.(history := s.history + [loaded], gen := s.gen + 1,
       maps := s.maps + [map[]], cur := |s.maps|, pool := true, mutex := None)
  }

  lemma ReloadEnters(s: Shared, threads: map<Tid, Thread>, r: Tid, input: Input, more: seq<Action>)
    requires WellFormed(s) && s.mutex.None? && !input.fails
    ensures var run := Run(r, input);
            Exec(Reloading(s, threads, r, Lock), [run] + ([run] + ([run] + more)))
            == Exec(Reloading(s.(mutex := Some(r), pool := true), threads, r, StoreBase(input.loaded)), more)
  {
    var run := Run(r, input);
    var s1 := s.(mutex := Some(r));
    ReloadTurn(s, threads, r, Lock, input, [run] + ([run] + more));
    ReloadTurn(s1, threads, r, StorePool, input, [run] + more);
    ReloadTurn(s1.(pool := true), threads, r, Query, input, more);
  }

  lemma ReloadPublishes(s: Shared, threads: map<Tid, Thread>, r: Tid, input: Input, more: seq<Action>)
    requires WellFormed(s)
    ensures var run := Run(r, input);
            var s' := s.(history := s.history + [input.loaded], gen := s.gen + 1);
            Exec(Reloading(s, threads, r, StoreBase(input.loaded)), [run] + ([run] + more))
              == Exec(Reloading(s', threads, r, Wipe), more)
  {
    var run := Run(r, input);
    ReloadTurn(s, threads, r, StoreBase(input.loaded), input, [run] + more);
    ReloadTurn(s.(history := s.history + [input.loaded]), threads, r, Bump, input, more);
  }

  lemma ReloadLeaves(s: Shared, threads: map<Tid, Thread>, r: Tid, input: Input)
    requires WellFormed(s)
    ensures var run := Run(r, input);
            Exec(Reloading(s, threads, r, Wipe), [run] + ([run] + []))
            == Reloading(s.(maps := s.maps + [map[]], cur := |s.maps|, mutex := None), threads, r, Reloaded)
  {
    var run := Run(r, input);
    ReloadTurn(s, threads, r, Wipe, input, [run] + []);
    ReloadTurn(s.(maps := s.maps + [map[]], cur := |s.maps|), threads, r, Unlock, input, []);
  }

  lemma ReloadGivesUp(s: Shared, threads: map<Tid, Thread>, r: Tid, input: Input)
    requires WellFormed(s) && s.mutex.None? && input.fails
    ensures var run := Run(r, input);
            Exec(Reloading(s, threads, r, Lock), [run] + ([run] + ([run] + ([run] + ([run] + ([run] + ([run] + [])))))))
            == Reloading(s.(pool := true), threads, r, Reloaded)
  {
    var run, s1 := Run(r, input), s.(mutex := Some(r));
    var rest := [run] + ([run] + ([run] + []));
    ReloadTurn(s, threads, r, Lock, input, [run] + ([run] + ([run] + rest)));
    ReloadTurn(s1, threads, r, StorePool, input, [run] + ([run] + rest));
    ReloadTurn(s1.(pool := true), threads, r, Query, input, [run] + rest);
    ReloadTurn(s1.(pool := true), threads, r, Unlock, input, rest);
    ReloadTurn(s.(pool := true), threads, r, Reloaded, input, [run] + ([run] + []));
    ReloadTurn(s.(pool := true), threads, r, Reloaded, input, [run] + []);
    ReloadTurn(s.(pool := true), threads, r, Reloaded, input, []);
  }

  /** A call of Reload and the steps that take it to its end. */
  function ReloadCall(r: Tid, input: Input): seq<Action>
  {
    var run := Run(r, input);
    [Spawn(r, CallReload)] + ([run] + ([run] + ([run] + ([run] + ([run] + ([run] + ([run] + [])))))))
  }

  /**
   A Reload that finds the mutex free runs to its end and frees it. If the load succeeds it has published one more
   base, bumped the generation and put an empty map in place; if not, it has only stored the pool.
   */
  lemma ReloadPublishesIff(m: Machine, r: Tid, input: Input)
    requires WellFormed(m.shared) && m.shared.mutex.None? && r !in m.threads
    ensures Exec(m, ReloadCall(r, input))
            == Reloading(if input.fails then m.shared.(pool := true) else Published(m.shared, input.loaded),
                         m.threads, r, Reloaded)
  {
    var s, run := m.shared, Run(r, input);
    var last := [run] + ([run] + []);
    var middle := [run] + ([run] + last);
    ExecOne(m, Spawn(r, CallReload), [run] + ([run] + ([run] + middle)));
    if input.fails {
      ReloadGivesUp(s, m.threads, r, input);
    } else {
      var s1 := s.(mutex := Some(r), pool := true);
      ReloadEnters(s, m.threads, r, input, middle);
      ReloadPublishes(s1, m.threads, r, input, last);
      ReloadLeaves(s1.(history := s.history + [input.loaded], gen := s.gen + 1), m.threads, r, input);
    }
  }

  lemma Reloads(m: Machine, loaded: Policies) returns (more: seq<Action>, r: Tid)
    requires WellFormed(m.shared) && m.shared.mutex.None?
    ensures r !in m.threads && Exec(m, more) == Reloading(Published(m.shared, loaded), m.threads, r, Reloaded)
  {
    r := Ordering.Unused(m.threads.Keys);
    more := ReloadCall(r, Input(false, loaded));
    ReloadPublishesIff(m, r, Input(false, loaded));
  }

  /** Shared memory once a reader has opened a flight. */
  function Opened(s: Shared, scope: string): Shared
  {
    s.(inFlight := s.inFlight[scope := |s.flights|], flights := s.flights + [Flight(scope, None)])
  }

  lemma OpensFlight(m: Machine, tid: Tid, scope: string, startGen: nat, base: nat, gen: nat, more: seq<Action>)
    requires WellFormed(m.shared) && scope !in m.shared.inFlight
    ensures Exec(At(m, tid, scope, startGen, EnterFlight(base, gen)), [Run(tid, PLAIN)] + more)
            == Exec(At(Machine(Opened(m.shared, scope), m.threads), tid, scope, startGen,
                       Lead(base, gen, |m.shared.flights|, LoadStamp)), more)
  {
    var now := At(m, tid, scope, startGen, EnterFlight(base, gen));
    ExecOne(now, Run(tid, PLAIN), more);
    assert Step(now, Run(tid, PLAIN))
        == At(Machine(Opened(m.shared, scope), m.threads), tid, scope, startGen,
              Lead(base, gen, |m.shared.flights|, LoadStamp));
  }

  lemma LoadsInFlight(m: Machine, tid: Tid, scope: string, startGen: nat, base: nat, gen: nat, f: nat)
    requires WellFormed(m.shared)
    ensures Exec(At(m, tid, scope, startGen, Lead(base, gen, f, LoadStamp)),
                 [Run(tid, PLAIN)] + ([Run(tid, PLAIN)] + []))
            == At(m, tid, scope, startGen, Lead(base, gen, f, LoadFlightMap(m.shared.gen, Version(m.shared))))
  {
    Moves(m, tid, scope, startGen, Lead(base, gen, f, LoadStamp), Lead(base, gen, f, LoadFlightBase(m.shared.gen)),
          [Run(tid, PLAIN)] + []);
    Moves(m, tid, scope, startGen, Lead(base, gen, f, LoadFlightBase(m.shared.gen)),
          Lead(base, gen, f, LoadFlightMap(m.shared.gen, Version(m.shared))), []);
  }

  lemma EntersAndLoads(m: Machine, tid: Tid, scope: string, startGen: nat, base: nat, gen: nat)
    requires WellFormed(m.shared) && scope !in m.shared.inFlight
    ensures var run := Run(tid, PLAIN);
            Exec(At(m, tid, scope, startGen, EnterFlight(base, gen)), [run] + ([run] + ([run] + [])))
            == At(Machine(Opened(m.shared, scope), m.threads), tid, scope, startGen,
                  Lead(base, gen, |m.shared.flights|, LoadFlightMap(m.shared.gen, Version(m.shared))))
  {
    var run := Run(tid, PLAIN);
    OpensFlight(m, tid, scope, startGen, base, gen, [run] + ([run] + []));
    LoadsInFlight(Machine(Opened(m.shared, scope), m.threads), tid, scope, startGen, base, gen, |m.shared.flights|);
  }

  /** A reader of a scope that is neither cached nor in flight opens a flight and loads the current base in it. */
  lemma StartsFlight(m: Machine, scope: string) returns (more: seq<Action>, leader: Tid)
    requires WellFormed(m.shared) && m.shared.pool && !Reserved(scope) && scope !in m.shared.inFlight
    requires Current(m.shared, m.shared.cur, scope, m.shared.gen).None?
    ensures leader !in m.threads
    ensures var s := m.shared;
            Exec(m, more) == At(Machine(Opened(s, scope), m.threads), leader, scope, s.gen,
                                Lead(Version(s), s.gen, |s.flights|, LoadFlightMap(s.gen, Version(s))))
  {
    leader := Ordering.Unused(m.threads.Keys);
    var s, run := m.shared, Run(leader, PLAIN);
    var last := [run] + ([run] + ([run] + []));
    var turns := ReachesFlight(m, leader, scope, s.gen);
    more := [Spawn(leader, CallSnapshot(scope))] + (turns + last);
    SpawnsReader(m, leader, scope, turns + last);
    ExecConcat(At(m, leader, scope, s.gen, LoadBase), turns, last);
    EntersAndLoads(m, leader, scope, s.gen, Version(s), s.gen);
  }

  lemma SpawnsReader(m: Machine, tid: Tid, scope: string, more: seq<Action>)
    requires WellFormed(m.shared) && tid !in m.threads
    ensures Exec(m, [Spawn(tid, CallSnapshot(scope))] + more) == Exec(At(m, tid, scope, m.shared.gen, LoadBase), more)
  {
    ExecOne(m, Spawn(tid, CallSnapshot(scope)), more);
  }

  /** From any machine with a free mutex and no open flight of the scope, a Reload can overtake a flight. */
  lemma ReloadOvertakes(m: Machine, scope: string, loaded: Policies) returns (more: seq<Action>, r: Tid)
    requires Sane(m) && m.shared.mutex.None? && scope !in m.shared.inFlight && !Reserved(scope)
    ensures var m' := Exec(m, more);
            && r in m'.threads && m'.threads[r] == Reloader(Reloaded) && m'.shared.mutex.None?
            && FlightCanLandOlder(m', scope, m'.shared.gen)
  {
    var first, r1 := Reloads(m, loaded);
    var m1 := Exec(m, first);
    ExecIsSane(m, first);
    var open, leader := StartsFlight(m1, scope);
    var m2 := Exec(m1, open);
    var second, r2 := Reloads(m2, loaded);
    var m3 := Exec(m2, second);
    ExecConcat(m, first + open, second);
    ExecConcat(m, first, open);
    assert Version(m1.shared) == m1.shared.gen;
    assert m3.threads[leader] == m2.threads[leader] && Leads(m3.threads[leader], scope);
    assert CanLandOlder(m3.shared, scope, m3.threads[leader].pc.at, m3.shared.gen);
    more, r := first + open + second, r2;
  }

  /**
   However a run begins, if it leaves the mutex free and no flight of the scope open, it can go on so
   that a call begun after a Reload has returned is answered with a set from before that Reload.
   */
  lemma FollowerCanBeStale(builtin: Policies, prefix: seq<Action>, scope: string, loaded: Policies)
    returns (before: seq<Action>, r: Tid, tid: Tid, more: seq<Action>)
    requires scope != "" && scope[0] != '_' && After(builtin, prefix).shared.mutex.None?
             && scope !in After(builtin, prefix).shared.inFlight
    ensures prefix <= before
    ensures r in After(builtin, before).threads && After(builtin, before).threads[r] == Reloader(Reloaded)
    ensures After(builtin, before).shared.mutex.None?
    ensures tid !in After(builtin, before).threads && AnswersStale(builtin, before, scope, tid, more)
  {
    var m := After(builtin, prefix);
    ReachableIsSane(builtin, prefix);
    var rest, reload := ReloadOvertakes(m, scope, loaded);
    before, r := prefix + rest, reload;
    AfterIsExec(builtin, prefix, rest);
    tid := Ordering.Unused(After(builtin, before).threads.Keys);
    StaleAnswerIff(builtin, before, scope, tid);
    more :| AnswersStale(builtin, before, scope, tid, more);
  }
}
