/**
 The per-tenant quota gate (go/internal/backends/quota.go): merging policy rows, assembling a
 generation from an unordered row set, and the two gates that read it.
 */
module Quota {
  import opened Options
  import opened Backends
  import opened Ordering

  /** One enforcement policy; a missing budget is unlimited. */
  datatype TenantQuota = TenantQuota(
    dailyCost: Option<real>,
    monthlyCost: Option<real>,
    dailyCalls: Option<int>,
    onExceed: string,
    enabled: bool)

  const BLOCK: string := "block"
  const EXTERNAL_OFF: string := "external_off"

  /** A tenant's rolling spend. */
  datatype Spend = Spend(dayCost: real, monthCost: real, dayCalls: int)

  const NO_SPEND: Spend := Spend(0.0, 0.0, 0)

  datatype Verdict = Pass(chain: seq<Backend>) | OverCalls | OverCost

  // ---------------------------------------------------------------- one policy

  predicate CallsOver(q: TenantQuota, s: Spend)
  {
    q.dailyCalls.Some? && s.dayCalls >= q.dailyCalls.value
  }

  predicate CostOver(q: TenantQuota, s: Spend)
  {
    (q.dailyCost.Some? && s.dayCost >= q.dailyCost.value) || (q.monthlyCost.Some? && s.monthCost >= q.monthlyCost.value)
  }

  predicate Internal(b: Backend)
  {
    b.locality != LOCALITY_EXTERNAL
  }

  /** The decision of gateState on a policy and a spend. */
  function Judge(q: TenantQuota, s: Spend, chain: seq<Backend>): Verdict
  {
    if !q.enabled then Pass(chain)
    else if CallsOver(q, s) then OverCalls
    else if !CostOver(q, s) then Pass(chain)
    else if q.onExceed == BLOCK then OverCost
    else Pass(Filter(Internal, chain))
  }

  /** The loop behind the degraded chain. */
  method WithoutExternal(chain: seq<Backend>) returns (out: seq<Backend>)
    ensures out == Filter(Internal, chain)
    ensures forall b :: b in out <==> b in chain && b.locality != "external"
  {
    out := [];
    for i := 0 to |chain|
      invariant out == Filter(Internal, chain[..i])
    {
      FilterSnoc(Internal, chain, i);
      if chain[i].locality != LOCALITY_EXTERNAL {
        out := out + [chain[i]];
      }
    }
    assert chain[..|chain|] == chain;
  }

  /** The rows of the chain that a verdict lets through. */
  function Admitted(v: Verdict): seq<Backend>
  {
    if v.Pass? then v.chain else []
  }

  // ---------------------------------------------------------------- merging policies

  function MinInt(a: Option<int>, b: Option<int>): Option<int>
  {
    if a.None? then b else if b.None? then a else if b.value < a.value then b else a
  }

  function MinReal(a: Option<real>, b: Option<real>): Option<real>
  {
    if a.None? then b else if b.None? then a else if b.value < a.value then b else a
  }

  function Stricter(a: TenantQuota, b: TenantQuota): TenantQuota
  {
    TenantQuota(MinReal(a.dailyCost, b.dailyCost), MinReal(a.monthlyCost, b.monthlyCost),
                MinInt(a.dailyCalls, b.dailyCalls),
                if b.onExceed == BLOCK then BLOCK else a.onExceed, a.enabled || b.enabled)
  }

  /** The merge of a row list, as the loop computes it. */
  function Strictest(qs: seq<TenantQuota>): TenantQuota
  {
    if qs == [] then TenantQuota(None, None, None, "", false)
    else if |qs| == 1 then qs[0]
    else Stricter(Strictest(qs[..|qs| - 1]), qs[|qs| - 1])
  }

  method StrictestQuota(qs: seq<TenantQuota>) returns (out: TenantQuota)
    ensures out == Strictest(qs)
  {
    if |qs| == 0 {
      return TenantQuota(None, None, None, "", false);
    }
    out := qs[0];
    assert qs[..1] == [qs[0]];
    for i := 1 to |qs|
      invariant out == Strictest(qs[..i])
    {
      assert qs[..i + 1][..i] == qs[..i];
      var q := qs[i];
      out := out.(dailyCost := MinReal(out.dailyCost, q.dailyCost));
      out := out.(monthlyCost := MinReal(out.monthlyCost, q.monthlyCost));
      out := out.(dailyCalls := MinInt(out.dailyCalls, q.dailyCalls));
      if q.onExceed == BLOCK {
        out := out.(onExceed := BLOCK);
      }
      out := out.(enabled := out.enabled || q.enabled);
    }
    assert qs[..|qs|] == qs;
  }

  /** `m` is the smallest limit that is set, and unset when none is. */
  ghost predicate IsMinInt(m: Option<int>, limits: set<int>)
  {
    match m
    case None => limits == {}
    case Some(x) => x in limits && forall y :: y in limits ==> x <= y
  }

  ghost predicate IsMinReal(m: Option<real>, limits: set<real>)
  {
    match m
    case None => limits == {}
    case Some(x) => x in limits && forall y :: y in limits ==> x <= y
  }

  ghost function Calls(qs: seq<TenantQuota>): set<int>
  {
    set q | q in qs && q.dailyCalls.Some? :: q.dailyCalls.value
  }

  ghost function DayCosts(qs: seq<TenantQuota>): set<real>
  {
    set q | q in qs && q.dailyCost.Some? :: q.dailyCost.value
  }

  ghost function MonthCosts(qs: seq<TenantQuota>): set<real>
  {
    set q | q in qs && q.monthlyCost.Some? :: q.monthlyCost.value
  }

  /** What the merge means, without the order of the rows. */
  ghost predicate IsStrictest(q: TenantQuota, qs: seq<TenantQuota>)
  {
    && IsMinInt(q.dailyCalls, Calls(qs)) && IsMinReal(q.dailyCost, DayCosts(qs))
    && IsMinReal(q.monthlyCost, MonthCosts(qs))
    && (q.onExceed == BLOCK <==> exists r :: r in qs && r.onExceed == BLOCK)
    && (q.enabled <==> exists r :: r in qs && r.enabled)
  }

  function LimitInt(x: Option<int>): set<int>
  {
    if x.Some? then {x.value} else {}
  }

  function LimitReal(x: Option<real>): set<real>
  {
    if x.Some? then {x.value} else {}
  }

  lemma StricterMeaning(a: TenantQuota, qs: seq<TenantQuota>, last: TenantQuota)
    requires IsStrictest(a, qs)
    ensures IsStrictest(Stricter(a, last), qs + [last])
  {
    var all := qs + [last];
    assert forall r :: r in all <==> r in qs || r == last;
    assert Calls(all) == Calls(qs) + LimitInt(last.dailyCalls);
    assert DayCosts(all) == DayCosts(qs) + LimitReal(last.dailyCost);
    assert MonthCosts(all) == MonthCosts(qs) + LimitReal(last.monthlyCost);
    MinIntGrows(a.dailyCalls, Calls(qs), last.dailyCalls);
    MinRealGrows(a.dailyCost, DayCosts(qs), last.dailyCost);
    MinRealGrows(a.monthlyCost, MonthCosts(qs), last.monthlyCost);
  }

  lemma MinIntGrows(m: Option<int>, limits: set<int>, x: Option<int>)
    requires IsMinInt(m, limits)
    ensures IsMinInt(MinInt(m, x), limits + LimitInt(x))
  {
  }

  lemma MinRealGrows(m: Option<real>, limits: set<real>, x: Option<real>)
    requires IsMinReal(m, limits)
    ensures IsMinReal(MinReal(m, x), limits + LimitReal(x))
  {
  }

  lemma {:induction false} StrictestMeaning(qs: seq<TenantQuota>)
    ensures IsStrictest(Strictest(qs), qs)
  {
    if |qs| == 1 {
      assert forall r :: r in qs <==> r == qs[0];
      assert Calls(qs) == LimitInt(qs[0].dailyCalls);
      assert DayCosts(qs) == LimitReal(qs[0].dailyCost);
      assert MonthCosts(qs) == LimitReal(qs[0].monthlyCost);
    } else if |qs| > 1 {
      var rest, last := qs[..|qs| - 1], qs[|qs| - 1];
      StrictestMeaning(rest);
      StricterMeaning(Strictest(rest), rest, last);
      assert rest + [last] == qs;
    }
  }

  lemma EmptyTogether(qs: seq<TenantQuota>, rs: seq<TenantQuota>)
    requires forall q :: q in qs <==> q in rs
    ensures qs == [] <==> rs == []
  {
    assert qs != [] ==> qs[0] in qs;
    assert rs != [] ==> rs[0] in rs;
  }

  /** The merged on_exceed: block if any row says so, otherwise the first row's value. */
  lemma {:induction false} MergedOnExceed(qs: seq<TenantQuota>)
    requires qs != []
    ensures Strictest(qs).onExceed == if exists r :: r in qs && r.onExceed == BLOCK then BLOCK else qs[0].onExceed
  {
    if |qs| == 1 {
      assert forall r :: r in qs <==> r == qs[0];
    } else {
      var rest, last := qs[..|qs| - 1], qs[|qs| - 1];
      MergedOnExceed(rest);
      assert forall r :: r in qs <==> r in rest || r == last;
    }
  }

  lemma SameLimits(a: TenantQuota, b: TenantQuota, qs: seq<TenantQuota>, rs: seq<TenantQuota>)
    requires IsStrictest(a, qs) && IsStrictest(b, rs) && forall q :: q in qs <==> q in rs
    ensures a.dailyCalls == b.dailyCalls && a.dailyCost == b.dailyCost && a.monthlyCost == b.monthlyCost
    ensures (a.onExceed == BLOCK <==> b.onExceed == BLOCK) && (a.enabled <==> b.enabled)
  {
    assert Calls(qs) == Calls(rs) && DayCosts(qs) == DayCosts(rs) && MonthCosts(qs) == MonthCosts(rs);
  }

  /**
   Two arrangements of the same rows merge to the same policy exactly when some row blocks or the
   two first rows agree on on_exceed.
   */
  lemma MergeIgnoresOrderIff(qs: seq<TenantQuota>, rs: seq<TenantQuota>)
    requires (forall q :: q in qs <==> q in rs) && qs != [] && rs != []
    ensures Strictest(qs) == Strictest(rs)
            <==> (exists r :: r in qs && r.onExceed == BLOCK) || qs[0].onExceed == rs[0].onExceed
  {
    StrictestMeaning(qs);
    StrictestMeaning(rs);
    SameLimits(Strictest(qs), Strictest(rs), qs, rs);
    MergedOnExceed(qs);
    MergedOnExceed(rs);
  }

  /** Over the two legal values the order and the repetition of the rows never matter. */
  lemma MergeIgnoresOrder(qs: seq<TenantQuota>, rs: seq<TenantQuota>)
    requires forall q :: q in qs <==> q in rs
    requires forall q :: q in qs ==> q.onExceed == BLOCK || q.onExceed == EXTERNAL_OFF
    ensures Strictest(qs) == Strictest(rs)
  {
    EmptyTogether(qs, rs);
    if qs != [] {
      assert qs[0] in qs && rs[0] in qs;
      MergeIgnoresOrderIff(qs, rs);
    }
  }

  /** For any on_exceed values the verdict, if not the policy, is independent of the order. */
  lemma VerdictIgnoresOrder(qs: seq<TenantQuota>, rs: seq<TenantQuota>, s: Spend, chain: seq<Backend>)
    requires forall q :: q in qs <==> q in rs
    ensures Judge(Strictest(qs), s, chain) == Judge(Strictest(rs), s, chain)
  {
    StrictestMeaning(qs);
    StrictestMeaning(rs);
    SameLimits(Strictest(qs), Strictest(rs), qs, rs);
  }

  // ---------------------------------------------------------------- the merged gate is the strictest

  lemma StricterTrips(a: TenantQuota, b: TenantQuota, s: Spend)
    ensures CallsOver(Stricter(a, b), s) <==> CallsOver(a, s) || CallsOver(b, s)
    ensures CostOver(Stricter(a, b), s) <==> CostOver(a, s) || CostOver(b, s)
  {
  }

  lemma {:induction false} MergedTrips(qs: seq<TenantQuota>, s: Spend)
    ensures CallsOver(Strictest(qs), s) <==> exists q :: q in qs && CallsOver(q, s)
    ensures CostOver(Strictest(qs), s) <==> exists q :: q in qs && CostOver(q, s)
  {
    if |qs| > 1 {
      var rest, last := qs[..|qs| - 1], qs[|qs| - 1];
      MergedTrips(rest, s);
      StricterTrips(Strictest(rest), last, s);
      assert forall q :: q in qs <==> q in rest || q == last;
    } else if |qs| == 1 {
      assert forall q :: q in qs <==> q == qs[0];
    }
  }

  /**
   Over enabled rows, the merged gate trips on calls exactly when some row does and on cost exactly
   when some row does; it blocks on cost when, besides, some row asks to block. It never admits a
   backend that a row would refuse.
   */
  lemma MergedGate(qs: seq<TenantQuota>, s: Spend, chain: seq<Backend>)
    requires qs != [] && forall q :: q in qs ==> q.enabled
    ensures var v := Judge(Strictest(qs), s, chain);
            && (v.OverCalls? <==> exists q :: q in qs && CallsOver(q, s))
            && (v.OverCost?
                <==> !v.OverCalls? && (exists q :: q in qs && CostOver(q, s))
                     && (exists q :: q in qs && q.onExceed == BLOCK))
            && (v == Pass(chain) || v == Pass(Filter(Internal, chain)) || !v.Pass?)
            && (v.Pass? && v.chain != chain ==> exists q :: q in qs && CostOver(q, s))
            && forall q, b :: q in qs && b in Admitted(v) ==> b in Admitted(Judge(q, s, chain))
  {
    StrictestMeaning(qs);
    MergedTrips(qs, s);
    assert qs[0] in qs;
  }

  /** The merge can be stricter than every row alone: one row is over budget, another asks to block. */
  lemma MergedGateCanBeStricter()
    ensures var over := TenantQuota(Some(1.0), None, None, EXTERNAL_OFF, true);
            var blocking := TenantQuota(None, None, None, BLOCK, true);
            var s := Spend(1.0, 0.0, 0);
            && Judge(over, s, []).Pass? && Judge(blocking, s, []).Pass?
            && Judge(Strictest([over, blocking]), s, []).OverCost?
  {
    var over, blocking := TenantQuota(Some(1.0), None, None, EXTERNAL_OFF, true),
      TenantQuota(None, None, None, BLOCK, true);
    assert [over, blocking][..1] == [over];
    assert |BLOCK| != |EXTERNAL_OFF|;
  }

  // ---------------------------------------------------------------- assembling a generation

  /** One row of the quota table. */
  datatype QuotaRow = QuotaRow(scope: string, quota: TenantQuota)

  /** An enabled row with the tenant its scope maps to, empty for none. */
  datatype PolicyRow = PolicyRow(scope: string, tenant: string, quota: TenantQuota)

  datatype TenantState = TenantState(quota: TenantQuota, spend: Spend)

  /** One immutable generation: the scopes of the policy tenants and the tenants' merged state. */
  datatype Gen = Gen(scopeTenant: map<string, string>, tenants: map<string, TenantState>)

  /** The left join of the enabled rows with the scope table. */
  function PolicyRows(rows: seq<QuotaRow>, scopes: map<string, string>): seq<PolicyRow>
  {
    if rows == [] then []
    else
      var r := rows[|rows| - 1];
      PolicyRows(rows[..|rows| - 1], scopes)
      + if r.quota.enabled then [PolicyRow(r.scope, if r.scope in scopes then scopes[r.scope] else "", r.quota)] else []
  }

  /** The policies of one tenant, in row order. */
  function PoliciesOf(rows: seq<PolicyRow>, tenant: string): seq<TenantQuota>
  {
    if rows == [] then []
    else
      var r := rows[|rows| - 1];
      PoliciesOf(rows[..|rows| - 1], tenant) + if r.tenant == tenant then [r.quota] else []
  }

  /** The rows of each tenant, in row order; rows without a tenant bind nobody. */
  method GroupByTenant(rows: seq<PolicyRow>) returns (out: map<string, seq<TenantQuota>>)
    ensures forall t :: t in out <==> t != "" && PoliciesOf(rows, t) != []
    ensures forall t :: t in out ==> out[t] == PoliciesOf(rows, t)
  {
    out := map[];
    for i := 0 to |rows|
      invariant forall t :: t in out <==> t != "" && PoliciesOf(rows[..i], t) != []
      invariant forall t :: t in out ==> out[t] == PoliciesOf(rows[..i], t)
    {
      assert rows[..i + 1][..i] == rows[..i];
      var t := rows[i].tenant;
      if t != "" {
        out := out[t := (if t in out then out[t] else []) + [rows[i].quota]];
      }
    }
    assert rows[..|rows|] == rows;
  }

  /** mergePolicies: one strictest policy per tenant. */
  method MergePolicies(rows: seq<PolicyRow>) returns (out: map<string, TenantQuota>)
    ensures forall t :: t in out <==> t != "" && PoliciesOf(rows, t) != []
    ensures forall t :: t in out ==> out[t] == Strictest(PoliciesOf(rows, t))
  {
    var byTenant := GroupByTenant(rows);
    out := MergeEach(byTenant);
  }

  method MergeEach(byTenant: map<string, seq<TenantQuota>>) returns (out: map<string, TenantQuota>)
    ensures out.Keys == byTenant.Keys
    ensures forall t :: t in out ==> out[t] == Strictest(byTenant[t])
  {
    out := map[];
    var todo := byTenant.Keys;
    while todo != {}
      invariant todo <= byTenant.Keys
      invariant out.Keys == byTenant.Keys - todo
      invariant forall t :: t in out ==> out[t] == Strictest(byTenant[t])
      decreases |todo|
    {
      var t :| t in todo;
      var q := StrictestQuota(byTenant[t]);
      out := out[t := q];
      todo := todo - {t};
    }
  }

  /** The generation for a quota table, a scope table and the spend read for each tenant. */
  ghost predicate IsGen(gen: Gen, rows: seq<QuotaRow>, scopes: map<string, string>, spend: map<string, Spend>)
  {
    var policies := PolicyRows(rows, scopes);
    && (forall t :: t in gen.tenants <==> t != "" && PoliciesOf(policies, t) != [])
    && (forall t :: t in gen.tenants ==>
          gen.tenants[t] == TenantState(Strictest(PoliciesOf(policies, t)), if t in spend then spend[t] else NO_SPEND))
    && (forall c :: c in gen.scopeTenant <==> c in scopes && scopes[c] in gen.tenants)
    && (forall c :: c in gen.scopeTenant ==> gen.scopeTenant[c] == scopes[c])
  }

  /** build: `spend` holds the tenants that have keys; reading the tables cannot fail here. */
  method Build(rows: seq<QuotaRow>, scopes: map<string, string>, spend: map<string, Spend>) returns (gen: Gen)
    ensures IsGen(gen, rows, scopes, spend)
  {
    var policies := MergePolicies(PolicyRows(rows, scopes));
    if |policies| == 0 {
      assert forall t :: t !in policies;
      return Gen(map[], map[]);
    }
    var scopeTenant := map c | c in scopes && scopes[c] in policies :: scopes[c];
    var tenants: map<string, TenantState> := map[];
    var todo := policies.Keys;
    while todo != {}
      invariant todo <= policies.Keys
      invariant tenants.Keys == policies.Keys - todo
      invariant forall t :: t in tenants ==>
                  tenants[t] == TenantState(policies[t], if t in spend then spend[t] else NO_SPEND)
      decreases |todo|
    {
      var t :| t in todo;
      var st := TenantState(policies[t], NO_SPEND);
      if t in spend {
        st := st.(spend := spend[t]);
      }
      tenants := tenants[t := st];
      todo := todo - {t};
    }
    gen := Gen(scopeTenant, tenants);
  }

  // ---------------------------------------------------------------- the two gates

  function GateState(gen: Gen, tenant: string, chain: seq<Backend>): Verdict
  {
    if tenant !in gen.tenants then Pass(chain) else Judge(gen.tenants[tenant].quota, gen.tenants[tenant].spend, chain)
  }

  /** Gate: by the caller's scope; None is the cold cache. */
  function Gate(cache: Option<Gen>, scope: string, chain: seq<Backend>): Verdict
  {
    if scope == "" || scope == GLOBAL_SCOPE then Pass(chain)
    else if cache.None? then Pass(chain)
    else if scope !in cache.value.scopeTenant then Pass(chain)
    else GateState(cache.value, cache.value.scopeTenant[scope], chain)
  }

  /** GateTenant: by the tenant; None is the refusal of an empty tenant. */
  function GateTenant(cache: Option<Gen>, tenant: string, chain: seq<Backend>): Option<Verdict>
  {
    if tenant == "" then None
    else if cache.None? then Some(Pass(chain))
    else Some(GateState(cache.value, tenant, chain))
  }

  /** The policies that bind a tenant: every enabled row on any of its scopes. */
  function Binding(rows: seq<QuotaRow>, scopes: map<string, string>, tenant: string): seq<TenantQuota>
  {
    PoliciesOf(PolicyRows(rows, scopes), tenant)
  }

  /** The row is enabled and on a scope of the tenant. */
  predicate Binds(r: QuotaRow, scopes: map<string, string>, tenant: string)
  {
    r.quota.enabled && r.scope in scopes && scopes[r.scope] == tenant
  }

  lemma BindingSnoc(rows: seq<QuotaRow>, scopes: map<string, string>, tenant: string)
    requires rows != [] && tenant != ""
    ensures var rest, last := rows[..|rows| - 1], rows[|rows| - 1];
            Binding(rows, scopes, tenant)
              == Binding(rest, scopes, tenant) + if Binds(last, scopes, tenant) then [last.quota] else []
  {
    var rest, last := rows[..|rows| - 1], rows[|rows| - 1];
    var before, all := PolicyRows(rest, scopes), PolicyRows(rows, scopes);
    if last.quota.enabled {
      assert all[..|all| - 1] == before;
    } else {
      assert all == before;
    }
  }

  lemma HasRowSnoc(rows: seq<QuotaRow>, scopes: map<string, string>, tenant: string, q: TenantQuota)
    requires rows != []
    ensures HasRow(rows, scopes, tenant, q)
            <==> HasRow(rows[..|rows| - 1], scopes, tenant, q)
                 || (Binds(rows[|rows| - 1], scopes, tenant) && rows[|rows| - 1].quota == q)
  {
    var rest, last := rows[..|rows| - 1], rows[|rows| - 1];
    assert forall r :: r in rows <==> r in rest || r == last;
  }

  ghost predicate HasRow(rows: seq<QuotaRow>, scopes: map<string, string>, tenant: string, q: TenantQuota)
  {
    exists r :: r in rows && Binds(r, scopes, tenant) && r.quota == q
  }

  lemma {:induction false} BindingMember(rows: seq<QuotaRow>, scopes: map<string, string>, tenant: string,
                                         q: TenantQuota)
    requires tenant != ""
    ensures q in Binding(rows, scopes, tenant) <==> HasRow(rows, scopes, tenant, q)
  {
    if rows != [] {
      BindingMember(rows[..|rows| - 1], scopes, tenant, q);
      BindingSnoc(rows, scopes, tenant);
      HasRowSnoc(rows, scopes, tenant, q);
    }
  }

  /** The policies that bind a tenant are the enabled rows on any of its scopes. */
  lemma BindingMeaning(rows: seq<QuotaRow>, scopes: map<string, string>, tenant: string)
    requires tenant != ""
    ensures RowsOf(Binding(rows, scopes, tenant), rows, scopes, tenant)
  {
    forall q ensures q in Binding(rows, scopes, tenant) <==> HasRow(rows, scopes, tenant, q) {
      BindingMember(rows, scopes, tenant, q);
    }
  }

  /** `qs` lists, in any order, the enabled rows on any scope of the tenant. */
  ghost predicate RowsOf(qs: seq<TenantQuota>, rows: seq<QuotaRow>, scopes: map<string, string>, tenant: string)
  {
    forall q :: q in qs <==> HasRow(rows, scopes, tenant, q)
  }

  /**
   Every scope of a tenant gets the tenant's own verdict: that of the strictest merge of all enabled
   rows on any of its scopes, in whatever order they are read, or a pass when there is none.
   */
  lemma ScopesShareTheTenantVerdict(gen: Gen, rows: seq<QuotaRow>, scopes: map<string, string>,
                                    spend: map<string, Spend>,
                                    scope: string, chain: seq<Backend>, qs: seq<TenantQuota>)
    requires IsGen(gen, rows, scopes, spend)
    requires scope in scopes && scope != "" && scope != GLOBAL_SCOPE && scopes[scope] != ""
    requires RowsOf(qs, rows, scopes, scopes[scope])
    ensures var tenant := scopes[scope];
            var s := if tenant in spend then spend[tenant] else NO_SPEND;
            && GateTenant(Some(gen), tenant, chain) == Some(Gate(Some(gen), scope, chain))
            && Gate(Some(gen), scope, chain) == (if qs == [] then Pass(chain) else Judge(Strictest(qs), s, chain))
  {
    var tenant := scopes[scope];
    var rs := Binding(rows, scopes, tenant);
    BindingMeaning(rows, scopes, tenant);
    EmptyTogether(qs, rs);
    VerdictIgnoresOrder(qs, rs, if tenant in spend then spend[tenant] else NO_SPEND, chain);
  }

  /** A tenant's verdict depends on nothing but the rows that bind it, as a set, its scopes and its spend. */
  lemma OtherTenantsDoNotMatter(gen: Gen, gen': Gen, rows: seq<QuotaRow>, rows': seq<QuotaRow>,
                                scopes: map<string, string>, scopes': map<string, string>,
                                spend: map<string, Spend>, spend': map<string, Spend>, tenant: string,
                                  chain: seq<Backend>)
    requires IsGen(gen, rows, scopes, spend) && IsGen(gen', rows', scopes', spend') && tenant != ""
    requires forall r :: r in rows && Binds(r, scopes, tenant) <==> r in rows' && Binds(r, scopes', tenant)
    requires (if tenant in spend then spend[tenant] else NO_SPEND)
             == (if tenant in spend' then spend'[tenant] else NO_SPEND)
    ensures GateTenant(Some(gen), tenant, chain) == GateTenant(Some(gen'), tenant, chain)
  {
    var qs, rs := Binding(rows, scopes, tenant), Binding(rows', scopes', tenant);
    BindingMeaning(rows, scopes, tenant);
    BindingMeaning(rows', scopes', tenant);
    forall q ensures q in qs <==> q in rs {
      assert HasRow(rows, scopes, tenant, q) <==> HasRow(rows', scopes', tenant, q);
    }
    var s := if tenant in spend then spend[tenant] else NO_SPEND;
    VerdictIgnoresOrder(qs, rs, s, chain);
    EmptyTogether(qs, rs);
  }

  // ---------------------------------------------------------------- the verdict, read off the tables

  /** The row binds the tenant: it is enabled and on a scope of the tenant. */
  ghost predicate On(r: QuotaRow, rows: seq<QuotaRow>, scopes: map<string, string>, tenant: string)
  {
    r in rows && r.quota.enabled && r.scope in scopes && scopes[r.scope] == tenant
  }

  /** The rows of a chain that do not leave for an external provider. */
  function NotExternal(): Backend -> bool
  {
    (b: Backend) => b.locality != "external"
  }

  ghost predicate CallsReached(rows: seq<QuotaRow>, scopes: map<string, string>, tenant: string, s: Spend)
  {
    exists r :: On(r, rows, scopes, tenant) && r.quota.dailyCalls.Some? && r.quota.dailyCalls.value <= s.dayCalls
  }

  ghost predicate CostReached(rows: seq<QuotaRow>, scopes: map<string, string>, tenant: string, s: Spend)
  {
    exists r :: On(r, rows, scopes, tenant)
                && ((r.quota.dailyCost.Some? && r.quota.dailyCost.value <= s.dayCost)
                    || (r.quota.monthlyCost.Some? && r.quota.monthlyCost.value <= s.monthCost))
  }

  ghost predicate SomeBlocks(rows: seq<QuotaRow>, scopes: map<string, string>, tenant: string)
  {
    exists r :: On(r, rows, scopes, tenant) && r.quota.onExceed == "block"
  }

  /** The verdict that the tables ask for. */
  ghost function Expected(rows: seq<QuotaRow>, scopes: map<string, string>, tenant: string, s: Spend,
                          chain: seq<Backend>): Verdict
  {
    if CallsReached(rows, scopes, tenant, s) then OverCalls
    else if !CostReached(rows, scopes, tenant, s) then Pass(chain)
    else if SomeBlocks(rows, scopes, tenant) then OverCost
    else Pass(Filter(NotExternal(), chain))
  }

  lemma OnIsRow(rows: seq<QuotaRow>, scopes: map<string, string>, tenant: string, r: QuotaRow)
    requires On(r, rows, scopes, tenant)
    ensures HasRow(rows, scopes, tenant, r.quota)
  {
    assert Binds(r, scopes, tenant);
  }

  lemma RowIsOn(rows: seq<QuotaRow>, scopes: map<string, string>, tenant: string, q: TenantQuota) returns (r: QuotaRow)
    requires HasRow(rows, scopes, tenant, q)
    ensures On(r, rows, scopes, tenant) && r.quota == q
  {
    r :| r in rows && Binds(r, scopes, tenant) && r.quota == q;
  }

  lemma ReachedCalls(rows: seq<QuotaRow>, scopes: map<string, string>, tenant: string, s: Spend, qs: seq<TenantQuota>)
    requires RowsOf(qs, rows, scopes, tenant)
    ensures CallsReached(rows, scopes, tenant, s) <==> exists q :: q in qs && CallsOver(q, s)
  {
    if q :| q in qs && CallsOver(q, s) {
      var r := RowIsOn(rows, scopes, tenant, q);
    }
    if r :| On(r, rows, scopes, tenant) && r.quota.dailyCalls.Some? && r.quota.dailyCalls.value <= s.dayCalls {
      OnIsRow(rows, scopes, tenant, r);
      assert r.quota in qs && CallsOver(r.quota, s);
    }
  }

  lemma ReachedCost(rows: seq<QuotaRow>, scopes: map<string, string>, tenant: string, s: Spend, qs: seq<TenantQuota>)
    requires RowsOf(qs, rows, scopes, tenant)
    ensures CostReached(rows, scopes, tenant, s) <==> exists q :: q in qs && CostOver(q, s)
  {
    if q :| q in qs && CostOver(q, s) {
      var r := RowIsOn(rows, scopes, tenant, q);
    }
    if r :| On(r, rows, scopes, tenant)
            && ((r.quota.dailyCost.Some? && r.quota.dailyCost.value <= s.dayCost)
                || (r.quota.monthlyCost.Some? && r.quota.monthlyCost.value <= s.monthCost)) {
      OnIsRow(rows, scopes, tenant, r);
      assert r.quota in qs && CostOver(r.quota, s);
    }
  }

  lemma Blocking(rows: seq<QuotaRow>, scopes: map<string, string>, tenant: string, qs: seq<TenantQuota>)
    requires RowsOf(qs, rows, scopes, tenant)
    ensures SomeBlocks(rows, scopes, tenant) <==> exists q :: q in qs && q.onExceed == BLOCK
  {
    if q :| q in qs && q.onExceed == BLOCK {
      var r := RowIsOn(rows, scopes, tenant, q);
    }
    if r :| On(r, rows, scopes, tenant) && r.quota.onExceed == "block" {
      OnIsRow(rows, scopes, tenant, r);
      assert r.quota in qs;
    }
  }

  lemma EnabledRows(rows: seq<QuotaRow>, scopes: map<string, string>, tenant: string, qs: seq<TenantQuota>)
    requires RowsOf(qs, rows, scopes, tenant)
    ensures forall q :: q in qs ==> q.enabled
  {
    forall q | q in qs ensures q.enabled {
      var r := RowIsOn(rows, scopes, tenant, q);
    }
  }

  /** The merge of the rows that bind the tenant decides as expected. */
  lemma MergeDecides(rows: seq<QuotaRow>, scopes: map<string, string>, tenant: string, s: Spend, chain: seq<Backend>,
                     qs: seq<TenantQuota>)
    requires RowsOf(qs, rows, scopes, tenant)
    ensures (if qs == [] then Pass(chain) else Judge(Strictest(qs), s, chain))
            == Expected(rows, scopes, tenant, s, chain)
  {
    ReachedCalls(rows, scopes, tenant, s, qs);
    ReachedCost(rows, scopes, tenant, s, qs);
    Blocking(rows, scopes, tenant, qs);
    EnabledRows(rows, scopes, tenant, qs);
    FilterSame(Internal, NotExternal(), chain);
    if qs != [] {
      StrictestMeaning(qs);
      MergedTrips(qs, s);
      assert qs[0] in qs;
    }
  }

  /**
   Both gates, on any generation that was built, read off the tables alone: a reached call limit refuses;
   a reached cost limit refuses if some row blocks and otherwise leaves exactly the rows that are not
   external, in order; with no limit reached the chain is unchanged.
   */
  lemma GatesDecide(gen: Gen, rows: seq<QuotaRow>, scopes: map<string, string>, spend: map<string, Spend>,
                    tenant: string,
                    chain: seq<Backend>)
    requires IsGen(gen, rows, scopes, spend) && tenant != ""
    ensures var s := if tenant in spend then spend[tenant] else Spend(0.0, 0.0, 0);
            && GateTenant(Some(gen), tenant, chain) == Some(Expected(rows, scopes, tenant, s, chain))
            && forall scope :: scope in scopes && scopes[scope] == tenant && scope != "" && scope != "_global" ==>
                 Gate(Some(gen), scope, chain) == Expected(rows, scopes, tenant, s, chain)
  {
    var s := if tenant in spend then spend[tenant] else Spend(0.0, 0.0, 0);
    var qs := Binding(rows, scopes, tenant);
    BindingMeaning(rows, scopes, tenant);
    MergeDecides(rows, scopes, tenant, s, chain, qs);
    forall scope | scope in scopes && scopes[scope] == tenant && scope != "" && scope != "_global"
      ensures Gate(Some(gen), scope, chain) == Expected(rows, scopes, tenant, s, chain)
    {
      ScopesShareTheTenantVerdict(gen, rows, scopes, spend, scope, chain, qs);
    }
  }

  /**
   An unknown or reserved scope, a cold cache and a tenant without rows are let through; an empty tenant is
   refused.
   */
  lemma GatesLetThrough(cache: Option<Gen>, scope: string, tenant: string, chain: seq<Backend>)
    ensures scope == "" || scope == "_global" || cache.None? || scope !in cache.value.scopeTenant ==>
              Gate(cache, scope, chain) == Pass(chain)
    ensures GateTenant(cache, tenant, chain).None? <==> tenant == ""
    ensures tenant != "" && (cache.None? || tenant !in cache.value.tenants) ==>
              GateTenant(cache, tenant, chain) == Some(Pass(chain))
  {
  }
}
