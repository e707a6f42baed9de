/**
 The backend pool: which rows may serve an operation, in which order, and what health reports
 can change about it (go/internal/backends/pool.go).
 */
module Pool {
  import opened Options
  import opened Ordering
  import opened Backends

  /** An immutable load of the routing table; `disabledBy` names the active profiles of a row. */
  datatype Snapshot = Snapshot(backends: seq<Backend>, disabledBy: map<string, string>)

  /** A row's health; None is the zero time. */
  datatype Health = Health(cooldownUntil: Option<int>, consecutiveFails: nat)

  type HealthMap = map<string, Health>

  datatype Exclusion = Exclusion(backend: string, reason: string)

  datatype ChainResult = Chain(rows: seq<Backend>) | NoEligible(excluded: seq<Exclusion>)

  // ---------------------------------------------------------------- who may serve

  predicate VisibleTo(scope: string, tenant: string)
  {
    scope == "" || scope == GLOBAL_SCOPE || (tenant != "" && tenant[0] != '_' && scope == tenant)
  }

  predicate ProfileDisabled(snap: Snapshot, b: Backend)
  {
    b.id in snap.disabledBy && snap.disabledBy[b.id] != ""
  }

  /** Serving candidates of a role: everything but the trust check. */
  predicate Candidate(snap: Snapshot, role: string, tenant: string, b: Backend)
  {
    VisibleTo(b.scope, tenant) && b.HasRole(role) && b.enabled && !ProfileDisabled(snap, b)
  }

  predicate Eligible(snap: Snapshot, role: string, required: string, tenant: string, b: Backend)
  {
    Candidate(snap, role, tenant, b) && Allows(b.trust, required)
  }

  /** Why a visible row of the role is not eligible; rows that were never candidates have no reason. */
  function ReasonOf(snap: Snapshot, role: string, required: string, tenant: string, b: Backend): seq<Exclusion>
  {
    if !VisibleTo(b.scope, tenant) || !b.HasRole(role) then []
    else if !b.enabled then [Exclusion(b.name, "disabled")]
    else if ProfileDisabled(snap, b) then [Exclusion(b.name, "disabled by profile " + snap.disabledBy[b.id])]
    else if !Allows(b.trust, required) then [Exclusion(b.name, "trust " + b.trust + " < required " + required)]
    else []
  }

  function ReasonFor(snap: Snapshot, role: string, required: string, tenant: string): Backend -> seq<Exclusion>
  {
    (b: Backend) => ReasonOf(snap, role, required, tenant, b)
  }

  /** The exclusion reasons of the whole table, in its order. */
  function Reasons(snap: Snapshot, role: string, required: string, tenant: string): seq<Exclusion>
  {
    FlatMap(ReasonFor(snap, role, required, tenant), snap.backends)
  }

  // ---------------------------------------------------------------- the attempt order

  predicate InCooldown(health: HealthMap, now: int, id: string)
  {
    id in health && health[id].cooldownUntil.Some? && health[id].cooldownUntil.value > now
  }

  /** Rows out of cooldown first, then higher priority, then the name. */
  predicate Before(cooled: set<string>, a: Backend, b: Backend)
  {
    if (a.id in cooled) != (b.id in cooled) then a.id !in cooled
    else if a.priority != b.priority then a.priority > b.priority
    else Less(a.name, b.name)
  }

  function Order(cooled: set<string>): (Backend, Backend) -> bool
  {
    (a, b) => Before(cooled, a, b)
  }

  function CooledOf(health: HealthMap, now: int): set<string>
  {
    set id | id in health && InCooldown(health, now, id)
  }

  lemma OrderIsStrictWeak(cooled: set<string>)
    ensures StrictWeakOrder(Order(cooled))
  {
    forall x, y | Before(cooled, x, y) ensures !Before(cooled, y, x) {
      LessTrichotomy(x.name, y.name);
    }
    forall x, y, z | Before(cooled, x, z) ensures Before(cooled, x, y) || Before(cooled, y, z) {
      LessTrichotomy(x.name, y.name);
      LessTrichotomy(y.name, z.name);
      if Less(y.name, x.name) && Less(x.name, z.name) {
        LessTransitive(y.name, x.name, z.name);
      }
    }
  }

  function EligibleFor(snap: Snapshot, role: string, required: string, tenant: string): Backend -> bool
  {
    (b: Backend) => Eligible(snap, role, required, tenant, b)
  }

  function VisibleFor(tenant: string): Backend -> bool
  {
    (b: Backend) => VisibleTo(b.scope, tenant)
  }

  function TrustedWith(s: string): Backend -> bool
  {
    (b: Backend) => Allows(b.trust, s)
  }

  function EligibleRows(snap: Snapshot, role: string, required: string, tenant: string): seq<Backend>
  {
    Filter(EligibleFor(snap, role, required, tenant), snap.backends)
  }

  /** The rows of the chain, in attempt order. */
  function ChainRows(snap: Snapshot, health: HealthMap, now: int, role: string, required: string,
                     tenant: string): seq<Backend>
  {
    StableSort(Order(CooledOf(health, now)), EligibleRows(snap, role, required, tenant))
  }

  // ---------------------------------------------------------------- the pool as an object

  const FAIL_BACKOFF_CAP: int := 600 * 1_000_000_000

  function AfterFailure(h: Health, cooldown: int, now: int): Health
  {
    var fails := h.consecutiveFails + 1;
    var doubled := if 2 * cooldown < FAIL_BACKOFF_CAP then 2 * cooldown else FAIL_BACKOFF_CAP;
    var cd := if fails >= 3 && cooldown > 0 && doubled > cooldown then doubled else cooldown;
    Health(if cd > 0 then Some(now + cd) else h.cooldownUntil, fails)
  }

  function HealthOf(health: HealthMap, id: string): Health
  {
    if id in health then health[id] else Health(None, 0)
  }

  class BackendPool {
    var snap: Snapshot
    var health: HealthMap

    constructor ()
      ensures snap == Snapshot([], map[]) && health == map[]
    {
      snap, health := Snapshot([], map[]), map[];
    }

    /** `cooldown` is the cooldown of the error class. */
    method ReportFailure(id: string, cooldown: int, now: int)
      modifies this`health
      ensures health == old(health)[id := AfterFailure(HealthOf(old(health), id), cooldown, now)]
    {
      var h := if id in health then health[id] else Health(None, 0);
      h := h.(consecutiveFails := h.consecutiveFails + 1);
      var cd := cooldown;
      if h.consecutiveFails >= 3 && cd > 0 {
        var doubled := if 2 * cd < FAIL_BACKOFF_CAP then 2 * cd else FAIL_BACKOFF_CAP;
        if doubled > cd {
          cd := doubled;
        }
      }
      if cd > 0 {
        h := h.(cooldownUntil := Some(now + cd));
      }
      health := health[id := h];
    }

    method ReportSuccess(id: string)
      modifies this`health
      ensures health == old(health)[id := Health(None, 0)]
    {
      health := health[id := Health(None, 0)];
    }

    method CooldownSet(list: seq<Backend>, now: int) returns (out: set<string>)
      ensures forall id :: id in out <==> InCooldown(health, now, id) && exists i :: 0 <= i < |list| && list[i].id == id
    {
      out := {};
      for i := 0 to |list|
        invariant forall id :: id in out <==> InCooldown(health, now, id) && exists j :: 0 <= j < i && list[j].id == id
      {
        var id := list[i].id;
        if id in health && health[id].cooldownUntil.Some? && health[id].cooldownUntil.value > now {
          out := out + {id};
        }
      }
    }

    /** The filter loop of Chain. */
    method Scan(role: string, required: string, tenant: string)
      returns (eligible: seq<Backend>, excluded: seq<Exclusion>)
      ensures eligible == EligibleRows(snap, role, required, tenant)
      ensures excluded == Reasons(snap, role, required, tenant)
    {
      eligible, excluded := [], [];
      for i := 0 to |snap.backends|
        invariant eligible == Filter(EligibleFor(snap, role, required, tenant), snap.backends[..i])
        invariant excluded == FlatMap(ReasonFor(snap, role, required, tenant), snap.backends[..i])
      {
        var b := snap.backends[i];
        FilterSnoc(EligibleFor(snap, role, required, tenant), snap.backends, i);
        FlatMapSnoc(ReasonFor(snap, role, required, tenant), snap.backends, i);
        if !VisibleTo(b.scope, tenant) {
        } else if !b.HasRole(role) {
        } else if !b.enabled {
          excluded := excluded + [Exclusion(b.name, "disabled")];
        } else if b.id in snap.disabledBy && snap.disabledBy[b.id] != "" {
          excluded := excluded + [Exclusion(b.name, "disabled by profile " + snap.disabledBy[b.id])];
        } else if !Allows(b.trust, required) {
          excluded := excluded + [Exclusion(b.name, "trust " + b.trust + " < required " + required)];
        } else {
          eligible := eligible + [b];
        }
      }
      assert snap.backends[..|snap.backends|] == snap.backends;
    }

    /** Chain: an empty one is an error that carries the reasons. */
    method ChainFor(role: string, required: string, tenant: string, now: int) returns (r: ChainResult)
      ensures r == var rows := ChainRows(snap, health, now, role, required, tenant);
                   if rows == [] then NoEligible(Reasons(snap, role, required, tenant)) else Chain(rows)
    {
      var eligible, excluded := Scan(role, required, tenant);
      SortMembers(Order(CooledOf(health, now)), eligible);
      if |eligible| == 0 {
        return NoEligible(excluded);
      }
      var cooled := CooldownSet(eligible, now);
      SortCongruent(Order(cooled), Order(CooledOf(health, now)), eligible);
      r := Chain(StableSort(Order(cooled), eligible));
    }

    method RoleConfiguredFor(role: string, tenant: string) returns (found: bool)
      ensures found == RoleConfigured(snap, role, tenant)
    {
      for i := 0 to |snap.backends|
        invariant forall j :: 0 <= j < i ==>
                    !(VisibleTo(snap.backends[j].scope, tenant) && snap.backends[j].HasRole(role))
      {
        if VisibleTo(snap.backends[i].scope, tenant) && snap.backends[i].HasRole(role) {
          assert snap.backends[i] in snap.backends;
          return true;
        }
      }
      return false;
    }
  }

  predicate RoleConfigured(snap: Snapshot, role: string, tenant: string)
  {
    exists b :: b in snap.backends && VisibleTo(b.scope, tenant) && b.HasRole(role)
  }

  // ---------------------------------------------------------------- trust only removes rows

  lemma ChainIsTrustFilter(snap: Snapshot, health: HealthMap, now: int, role: string, s: string, s': string,
                           tenant: string)
    requires SensRank(s) <= SensRank(s')
    ensures ChainRows(snap, health, now, role, s', tenant)
            == Filter(TrustedWith(s'), ChainRows(snap, health, now, role, s, tenant))
  {
    var less := Order(CooledOf(health, now));
    OrderIsStrictWeak(CooledOf(health, now));
    FilterTwice(TrustedWith(s'), EligibleFor(snap, role, s, tenant), EligibleFor(snap, role, s', tenant),
                snap.backends);
    SortFilter(less, TrustedWith(s'), EligibleRows(snap, role, s, tenant));
  }

  /** Every row of a chain is eligible, and every eligible row is in it. */
  lemma ChainMembers(snap: Snapshot, health: HealthMap, now: int, role: string, s: string, tenant: string)
    ensures forall b :: b in ChainRows(snap, health, now, role, s, tenant) <==>
              b in snap.backends && Eligible(snap, role, s, tenant, b)
  {
    SortMembers(Order(CooledOf(health, now)), EligibleRows(snap, role, s, tenant));
  }

  function InEveryChain(snap: Snapshot, health: HealthMap, now: int, role: string, tenant: string,
                        parts: seq<string>): Backend -> bool
  {
    (b: Backend) => forall i :: 0 <= i < |parts| ==> b in ChainRows(snap, health, now, role, parts[i], tenant)
  }

  ghost predicate IsMaxSensitivity(parts: seq<string>, s: string)
  {
    && (forall i :: 0 <= i < |parts| ==> SensRank(parts[i]) <= SensRank(s))
    && (exists i :: 0 <= i < |parts| && SensRank(parts[i]) == SensRank(s))
  }

  /**
   The chain of a whole prompt is, in the order of any single part's chain, exactly the rows that
   every part's chain contains.
   */
  lemma PromptChainIsTheIntersection(snap: Snapshot, health: HealthMap, now: int, role: string, tenant: string,
                                     parts: seq<string>, s: string, k: nat)
    requires IsMaxSensitivity(parts, s) && k < |parts|
    ensures ChainRows(snap, health, now, role, s, tenant) ==
            Filter(InEveryChain(snap, health, now, role, tenant, parts),
                   ChainRows(snap, health, now, role, parts[k], tenant))
  {
    var rows := ChainRows(snap, health, now, role, parts[k], tenant);
    ChainIsTrustFilter(snap, health, now, role, parts[k], s, tenant);
    forall i | 0 <= i < |parts|
      ensures forall b :: b in ChainRows(snap, health, now, role, parts[i], tenant) <==>
                b in snap.backends && Eligible(snap, role, parts[i], tenant, b)
    {
      ChainMembers(snap, health, now, role, parts[i], tenant);
    }
    forall b | b in rows
      ensures Allows(b.trust, s)
              <==> forall i :: 0 <= i < |parts| ==> b in ChainRows(snap, health, now, role, parts[i], tenant)
    {
      AllowsAllParts(b.trust, parts, s);
    }
    FilterSame(TrustedWith(s), InEveryChain(snap, health, now, role, tenant, parts), rows);
  }

  // ---------------------------------------------------------------- other tenants' rows do not matter

  function VisiblePart(snap: Snapshot, tenant: string): seq<Backend>
  {
    Filter(VisibleFor(tenant), snap.backends)
  }

  /** The two loads agree on everything the tenant can see. */
  ghost predicate SameView(a: Snapshot, b: Snapshot, tenant: string)
  {
    && VisiblePart(a, tenant) == VisiblePart(b, tenant)
    && forall x :: x in VisiblePart(a, tenant) ==>
         ProfileDisabled(a, x) == ProfileDisabled(b, x)
         && (ProfileDisabled(a, x) ==> a.disabledBy[x.id] == b.disabledBy[x.id])
  }

  /** A tenant's rows, their order, its exclusion reasons and its configured roles depend on its own view only. */
  lemma ChainDependsOnViewOnly(a: Snapshot, b: Snapshot, health: HealthMap, now: int, role: string, required: string,
                               tenant: string)
    requires SameView(a, b, tenant)
    ensures ChainRows(a, health, now, role, required, tenant) == ChainRows(b, health, now, role, required, tenant)
    ensures Reasons(a, role, required, tenant) == Reasons(b, role, required, tenant)
    ensures RoleConfigured(a, role, tenant) == RoleConfigured(b, role, tenant)
  {
    var visible := VisibleFor(tenant);
    var ea, eb := EligibleFor(a, role, required, tenant), EligibleFor(b, role, required, tenant);
    FilterTwice(ea, visible, ea, a.backends);
    FilterTwice(eb, visible, eb, b.backends);
    FilterSame(ea, eb, VisiblePart(a, tenant));
    var ra, rb := ReasonFor(a, role, required, tenant), ReasonFor(b, role, required, tenant);
    FlatMapOfFilter(ra, visible, a.backends);
    FlatMapOfFilter(rb, visible, b.backends);
    FlatMapSame(ra, rb, VisiblePart(a, tenant));
    assert forall x :: x in a.backends && visible(x) <==> x in VisiblePart(a, tenant);
    assert forall x :: x in b.backends && visible(x) <==> x in VisiblePart(b, tenant);
  }

  /** Two profile maps that say the same about the rows the tenant can see. */
  predicate SameProfiles(rows: seq<Backend>, was: map<string, string>, becomes: map<string, string>, tenant: string)
  {
    forall x :: x in rows && VisibleTo(x.scope, tenant) ==>
                  (x.id in was <==> x.id in becomes) && (x.id in was ==> was[x.id] == becomes[x.id])
  }

  /**
   Replacing a run of rows the tenant cannot see by other such rows (none for a deletion), with
   whatever profiles the reload finds for rows it cannot see, leaves its view alone.
   */
  lemma ForeignEditKeepsView(pre: seq<Backend>, was: seq<Backend>, becomes: seq<Backend>, post: seq<Backend>,
                             disabledBy: map<string, string>, disabledBy': map<string, string>, tenant: string)
    requires forall x :: x in was || x in becomes ==> !VisibleTo(x.scope, tenant)
    requires SameProfiles(pre + post, disabledBy, disabledBy', tenant)
    ensures SameView(Snapshot(pre + was + post, disabledBy), Snapshot(pre + becomes + post, disabledBy'), tenant)
  {
    var p := VisibleFor(tenant);
    FilterAppend(p, pre + was, post);
    FilterAppend(p, pre, was);
    FilterAppend(p, pre + becomes, post);
    FilterAppend(p, pre, becomes);
    FilterNone(p, was);
    FilterNone(p, becomes);
    assert forall x :: x in Filter(p, pre) + Filter(p, post) ==> x in pre + post;
  }

  // ---------------------------------------------------------------- health only permutes

  datatype Report = Failure(id: string, cooldown: int, now: int) | Success(id: string)

  function HealthAfter(health: HealthMap, reports: seq<Report>): HealthMap
  {
    if reports == [] then health
    else
      var h := HealthAfter(health, reports[..|reports| - 1]);
      match reports[|reports| - 1]
      case Failure(id, cooldown, now) => h[id := AfterFailure(HealthOf(h, id), cooldown, now)]
      case Success(id) => h[id := Health(None, 0)]
  }

  /** No run of reports removes a row from a chain or adds one; it only changes the order. */
  lemma ReportsOnlyPermute(snap: Snapshot, health: HealthMap, reports: seq<Report>, now: int, now': int,
                           role: string, required: string, tenant: string)
    ensures multiset(ChainRows(snap, HealthAfter(health, reports), now', role, required, tenant))
            == multiset(ChainRows(snap, health, now, role, required, tenant))
  {
    var rows := EligibleRows(snap, role, required, tenant);
    SortPermutes(Order(CooledOf(health, now)), rows);
    SortPermutes(Order(CooledOf(HealthAfter(health, reports), now')), rows);
  }

  /** The failures of a row since its last success. */
  function FailuresInARow(reports: seq<Report>, id: string): nat
  {
    if reports == [] then 0
    else
      var before := FailuresInARow(reports[..|reports| - 1], id);
      match reports[|reports| - 1]
      case Failure(x, _, _) => if x == id then before + 1 else before
      case Success(x) => if x == id then 0 else before
  }

  /**
   From fresh health, what is counted against a row is its failures since its last success, and that success ended
   whatever cooldown there was.
   */
  lemma {:induction false} StreakIsCounted(reports: seq<Report>, id: string)
    ensures var h := HealthOf(HealthAfter(map[], reports), id);
            h.consecutiveFails == FailuresInARow(reports, id) && (h.consecutiveFails == 0 ==> h.cooldownUntil.None?)
  {
    if reports != [] {
      StreakIsCounted(reports[..|reports| - 1], id);
    }
  }

  /** Doubling never shortens a class cooldown, and never lengthens it beyond twice or past the cap. */
  lemma BackoffNeverShortens(h: Health, cooldown: int, now: int)
    requires cooldown > 0
    ensures var until := AfterFailure(h, cooldown, now).cooldownUntil;
            until.Some? && now + cooldown <= until.value <= now + 2 * cooldown
            && (until.value == now + cooldown || until.value <= now + FAIL_BACKOFF_CAP)
  {
  }

  // ---------------------------------------------------------------- the model that would answer

  /** Rows that PrimaryModel looks at. */
  predicate Nameable(role: string, b: Backend)
  {
    b.priority >= 0 && b.ModelFor(role) != ""
  }

  function NameableFor(role: string): Backend -> bool
  {
    (b: Backend) => Nameable(role, b)
  }

  function PrimaryFor(snap: Snapshot, role: string): Backend -> bool
  {
    (b: Backend) => Candidate(snap, role, "", b) && Nameable(role, b)
  }

  function PrimaryRows(snap: Snapshot, role: string): seq<Backend>
  {
    Filter(PrimaryFor(snap, role), snap.backends)
  }

  /** The first row of highest priority. */
  ghost predicate IsPrimary(rows: seq<Backend>, k: nat)
  {
    && k < |rows|
    && (forall j :: 0 <= j < k ==> rows[j].priority < rows[k].priority)
    && (forall j :: 0 <= j < |rows| ==> rows[j].priority <= rows[k].priority)
  }

  /** What PrimaryModel knows after the nameable rows `u`. */
  ghost predicate Found(u: seq<Backend>, role: string, best: int, model: string, k: nat)
  {
    if u == [] then best == -1 && model == ""
    else IsPrimary(u, k) && best == u[k].priority >= 0 && model == u[k].ModelFor(role) != ""
  }

  lemma FoundGrows(u: seq<Backend>, role: string, best: int, model: string, k: nat, b: Backend)
    requires Found(u, role, best, model, k) && Nameable(role, b)
    ensures b.priority > best ==> Found(u + [b], role, b.priority, b.ModelFor(role), |u|)
    ensures b.priority <= best ==> Found(u + [b], role, best, model, k)
  {
  }

  lemma PrimaryStep(p: Backend -> bool, rows: seq<Backend>, i: nat, role: string, best: int, model: string, k: nat)
    requires i < |rows| && Found(Filter(p, rows[..i]), role, best, model, k) && (p(rows[i]) ==> Nameable(role, rows[i]))
    ensures if p(rows[i]) && rows[i].priority > best
            then Found(Filter(p, rows[..i + 1]), role, rows[i].priority, rows[i].ModelFor(role), |Filter(p, rows[..i])|)
            else Found(Filter(p, rows[..i + 1]), role, best, model, k)
  {
    FilterSnoc(p, rows, i);
    if p(rows[i]) {
      FoundGrows(Filter(p, rows[..i]), role, best, model, k, rows[i]);
    } else {
      assert Filter(p, rows[..i + 1]) == Filter(p, rows[..i]);
    }
  }

  /** The one-pass search; `k` points out the row it settled on. */
  method PrimaryModel(snap: Snapshot, role: string) returns (model: string, ghost k: nat)
    ensures model == "" <==> PrimaryRows(snap, role) == []
    ensures model != "" ==> IsPrimary(PrimaryRows(snap, role), k) && model == PrimaryRows(snap, role)[k].ModelFor(role)
  {
    var best := -1;
    model, k := "", 0;
    for i := 0 to |snap.backends|
      invariant Found(Filter(PrimaryFor(snap, role), snap.backends[..i]), role, best, model, k)
    {
      var b := snap.backends[i];
      PrimaryStep(PrimaryFor(snap, role), snap.backends, i, role, best, model, k);
      if VisibleTo(b.scope, "") && b.enabled && b.HasRole(role) && !ProfileDisabled(snap, b) {
        if b.priority > best {
          var m := b.ModelFor(role);
          if m != "" {
            best, model, k := b.priority, m, |Filter(PrimaryFor(snap, role), snap.backends[..i])|;
          }
        }
      }
    }
    assert snap.backends[..|snap.backends|] == snap.backends;
  }

  /** Every shared row that may serve the role has a known trust. */
  predicate TrustsAreKnown(snap: Snapshot, role: string)
  {
    forall b :: b in snap.backends && Candidate(snap, role, "", b) ==> MaxRank(b.trust) >= 0
  }

  /** The nameable rows of the tenantless public chain are the rows PrimaryModel looks at, sorted. */
  lemma NameableChain(snap: Snapshot, health: HealthMap, now: int, role: string)
    requires CooledOf(health, now) == {} && TrustsAreKnown(snap, role)
    ensures Filter(NameableFor(role), ChainRows(snap, health, now, role, "public", ""))
            == StableSort(Order({}), PrimaryRows(snap, role))
  {
    OrderIsStrictWeak({});
    FilterTwice(NameableFor(role), EligibleFor(snap, role, "public", ""), PrimaryFor(snap, role), snap.backends);
    SortFilter(Order({}), NameableFor(role), EligibleRows(snap, role, "public", ""));
  }

  ghost predicate InNameOrder(rows: seq<Backend>)
  {
    forall i, j :: 0 <= i < j < |rows| ==> !Less(rows[j].name, rows[i].name)
  }

  lemma PrimaryIsLeast(rows: seq<Backend>, k: nat)
    requires IsPrimary(rows, k) && InNameOrder(rows)
    ensures IsFirstLeast(Order({}), rows, k)
  {
    forall j | 0 <= j < |rows| ensures !Before({}, rows[j], rows[k]) {
      LessTrichotomy(rows[j].name, rows[k].name);
    }
  }

  /**
   With no row in cooldown, every trust valid and the shared rows loaded in name order, the row that
   PrimaryModel settles on is the first nameable row in the chain of a tenantless public request,
   and it finds none exactly when that chain has none.
   */
  lemma PrimaryIsFirstNameable(snap: Snapshot, health: HealthMap, now: int, role: string, k: nat)
    requires CooledOf(health, now) == {} && TrustsAreKnown(snap, role)
    requires InNameOrder(PrimaryRows(snap, role))
    requires PrimaryRows(snap, role) != [] ==> IsPrimary(PrimaryRows(snap, role), k)
    ensures var named := Filter(NameableFor(role), ChainRows(snap, health, now, role, "public", ""));
            && (named == [] <==> PrimaryRows(snap, role) == [])
            && (named != [] ==> named[0] == PrimaryRows(snap, role)[k])
  {
    NameableChain(snap, health, now, role);
    SortMembers(Order({}), PrimaryRows(snap, role));
    if PrimaryRows(snap, role) != [] {
      OrderIsStrictWeak({});
      PrimaryIsLeast(PrimaryRows(snap, role), k);
      SortHead(Order({}), PrimaryRows(snap, role), k);
    }
  }

  /**
   Under the same premises the row that PrimaryModel settles on is the head of the chain exactly when
   the head is nameable, and it finds none exactly when no row of the chain is.
   */
  lemma PrimaryIsChainHeadIff(snap: Snapshot, health: HealthMap, now: int, role: string, k: nat)
    requires CooledOf(health, now) == {} && TrustsAreKnown(snap, role)
    requires InNameOrder(PrimaryRows(snap, role))
    requires PrimaryRows(snap, role) != [] ==> IsPrimary(PrimaryRows(snap, role), k)
    ensures var chain, rows := ChainRows(snap, health, now, role, "public", ""), PrimaryRows(snap, role);
            && (rows == [] <==> forall b :: b in chain ==> !Nameable(role, b))
            && (rows != [] ==> chain != [] && (chain[0] == rows[k] <==> Nameable(role, chain[0])))
  {
    var chain, rows := ChainRows(snap, health, now, role, "public", ""), PrimaryRows(snap, role);
    var named := Filter(NameableFor(role), chain);
    PrimaryIsFirstNameable(snap, health, now, role, k);
    assert forall b :: b in named <==> b in chain && Nameable(role, b);
    if rows != [] {
      assert named[0] in named && rows[k] in rows;
    }
  }

  /** When every row of the chain is nameable, that row is its head, and there is none only if the chain is empty. */
  lemma PrimaryIsChainHead(snap: Snapshot, health: HealthMap, now: int, role: string, k: nat)
    requires CooledOf(health, now) == {} && TrustsAreKnown(snap, role)
    requires InNameOrder(PrimaryRows(snap, role))
    requires PrimaryRows(snap, role) != [] ==> IsPrimary(PrimaryRows(snap, role), k)
    requires forall b :: b in ChainRows(snap, health, now, role, "public", "") ==> Nameable(role, b)
    ensures var chain := ChainRows(snap, health, now, role, "public", "");
            && (chain == [] <==> PrimaryRows(snap, role) == [])
            && (chain != [] ==> chain[0] == PrimaryRows(snap, role)[k])
  {
    var chain := ChainRows(snap, health, now, role, "public", "");
    PrimaryIsChainHeadIff(snap, health, now, role, k);
    if chain != [] {
      assert chain[0] in chain;
    }
  }

  /** A row that a public request without a tenant may use. */
  predicate Serves(snap: Snapshot, role: string, b: Backend)
  {
    Candidate(snap, role, "", b) && MaxRank(b.trust) >= 0
  }

  /** A row of negative priority can be the whole chain, and yet no model is named. */
  lemma NegativePriorityIsNotNamed(a: Backend, role: string, now: int)
    requires Serves(Snapshot([a], map[]), role, a) && a.priority < 0
    ensures ChainRows(Snapshot([a], map[]), map[], now, role, "public", "") == [a]
    ensures PrimaryRows(Snapshot([a], map[]), role) == []
  {
    var snap := Snapshot([a], map[]);
    FilterAll(EligibleFor(snap, role, "public", ""), [a]);
    FilterNone(PrimaryFor(snap, role), [a]);
    assert [a][1..] == [];
    assert StableSort(Order(CooledOf(map[], now)), [a]) == Insert(Order(CooledOf(map[], now)), a, []);
  }

  /** A row without a model can head the chain while the model of a later row is named. */
  lemma HeadWithoutModelIsPassedOver(a: Backend, b: Backend, role: string, now: int)
    requires Serves(Snapshot([a, b], map[]), role, a) && Serves(Snapshot([a, b], map[]), role, b)
    requires a.priority > b.priority && a.ModelFor(role) == "" && Nameable(role, b)
    ensures var chain := ChainRows(Snapshot([a, b], map[]), map[], now, role, "public", "");
            chain != [] && chain[0] == a && PrimaryRows(Snapshot([a, b], map[]), role) == [b]
  {
    var snap, rows := Snapshot([a, b], map[]), [a, b];
    FilterAll(EligibleFor(snap, role, "public", ""), rows);
    OrderIsStrictWeak({});
    assert CooledOf(map[], now) == {};
    SortHead(Order({}), rows, 0);
    assert rows == [a] + [b];
    FilterAppend(PrimaryFor(snap, role), [a], [b]);
    FilterNone(PrimaryFor(snap, role), [a]);
    FilterAll(PrimaryFor(snap, role), [b]);
  }

  // ---------------------------------------------------------------- the chain, read off rows and health

  /** The row is cooling down at `now`. */
  ghost predicate Cooling(health: HealthMap, now: int, b: Backend)
  {
    b.id in health && health[b.id].cooldownUntil.Some? && now < health[b.id].cooldownUntil.value
  }

  /**
   No row in cooldown stands before one that is not. Among rows that agree on that, the priority does not
   increase, and among rows of one priority the name does not decrease.
   */
  lemma ChainIsOrdered(snap: Snapshot, health: HealthMap, now: int, role: string, required: string, tenant: string,
                       i: nat, j: nat)
    requires i < j < |ChainRows(snap, health, now, role, required, tenant)|
    ensures var a := ChainRows(snap, health, now, role, required, tenant)[i];
            var b := ChainRows(snap, health, now, role, required, tenant)[j];
            && !(Cooling(health, now, a) && !Cooling(health, now, b))
            && (Cooling(health, now, a) == Cooling(health, now, b) ==> a.priority >= b.priority)
            && (Cooling(health, now, a) == Cooling(health, now, b) && a.priority == b.priority
                ==> !Less(b.name, a.name))
  {
    var chain := ChainRows(snap, health, now, role, required, tenant);
    var cooled := CooledOf(health, now);
    OrderIsStrictWeak(cooled);
    SortSorts(Order(cooled), EligibleRows(snap, role, required, tenant));
    assert !Before(cooled, chain[j], chain[i]);
    assert forall b: Backend :: b.id in cooled <==> Cooling(health, now, b);
  }

  /** Rows that tie in cooldown, priority and name keep the order of the table. */
  lemma ChainIsStable(snap: Snapshot, health: HealthMap, now: int, role: string, required: string, tenant: string,
                      like: Backend)
    ensures Filter(TiesWith(health, now, like), ChainRows(snap, health, now, role, required, tenant))
            == Filter(TiesWith(health, now, like), EligibleRows(snap, role, required, tenant))
  {
    var cooled, p := CooledOf(health, now), TiesWith(health, now, like);
    var rows := EligibleRows(snap, role, required, tenant);
    OrderIsStrictWeak(cooled);
    SortFilter(Order(cooled), p, rows);
    assert forall b: Backend :: b.id in cooled <==> Cooling(health, now, b);
    forall x, y | x in Filter(p, rows) && y in Filter(p, rows) ensures !Order(cooled)(x, y) {
      LessTrichotomy(like.name, like.name);
    }
    SortTied(Order(cooled), Filter(p, rows));
  }

  ghost function TiesWith(health: HealthMap, now: int, like: Backend): Backend -> bool
  {
    (b: Backend) =>
      b.priority == like.priority && b.name == like.name
      && (b.id in health && health[b.id].cooldownUntil.Some? && now < health[b.id].cooldownUntil.value)
         == (like.id in health && health[like.id].cooldownUntil.Some? && now < health[like.id].cooldownUntil.value)
  }

  /** A report with a cooldown puts the row behind every eligible row that is not cooling down. */
  lemma FailedRowGoesBack(snap: Snapshot, health: HealthMap, id: string, cooldown: int, at: int, now: int,
                          role: string, required: string, tenant: string, i: nat, j: nat)
    requires at <= now < at + cooldown
    requires var after := HealthAfter(health, [Failure(id, cooldown, at)]);
             i < j < |ChainRows(snap, after, now, role, required, tenant)|
    ensures var after := HealthAfter(health, [Failure(id, cooldown, at)]);
            var chain := ChainRows(snap, after, now, role, required, tenant);
            chain[i].id == id ==> Cooling(after, now, chain[j])
  {
    var after := HealthAfter(health, [Failure(id, cooldown, at)]);
    assert [Failure(id, cooldown, at)][..0] == [];
    BackoffNeverShortens(HealthOf(health, id), cooldown, at);
    ChainIsOrdered(snap, after, now, role, required, tenant, i, j);
  }

  /** What a failure does to a row: the class cooldown, doubled from the third failure on up to ten minutes. */
  lemma FailureCooldown(h: Health, cooldown: int, now: int)
    ensures var after := AfterFailure(h, cooldown, now);
            && after.consecutiveFails == h.consecutiveFails + 1
            && (cooldown <= 0 ==> after.cooldownUntil == h.cooldownUntil)
            && (cooldown > 0 && h.consecutiveFails < 2 ==> after.cooldownUntil == Some(now + cooldown))
            && (h.consecutiveFails >= 2 && 0 < cooldown <= 300_000_000_000
                ==> after.cooldownUntil == Some(now + 2 * cooldown))
            && (h.consecutiveFails >= 2 && 300_000_000_000 < cooldown <= 600_000_000_000 ==>
                  after.cooldownUntil == Some(now + 600_000_000_000))
            && (cooldown > 600_000_000_000 ==> after.cooldownUntil == Some(now + cooldown))
  {
  }

  /**
   Exactly the rows that the tenant may see, that are enabled by hand and by profile, have the role and enough
   trust.
   */
  lemma ChainHoldsExactly(snap: Snapshot, health: HealthMap, now: int, role: string, required: string, tenant: string)
    ensures forall b :: b in ChainRows(snap, health, now, role, required, tenant) <==>
              && b in snap.backends && b.enabled && role in b.roles
              && (b.scope == "" || b.scope == "_global" || (tenant != "" && tenant[0] != '_' && b.scope == tenant))
              && (b.id in snap.disabledBy ==> snap.disabledBy[b.id] == "")
              && Allows(b.trust, required)
  {
    ChainMembers(snap, health, now, role, required, tenant);
  }

  /** A row private to a tenant is in no chain of another. */
  lemma PrivateRowsStayPrivate(snap: Snapshot, health: HealthMap, now: int, role: string, required: string,
                               tenant: string, b: Backend)
    requires b.scope != "" && b.scope != "_global" && b in ChainRows(snap, health, now, role, required, tenant)
    ensures tenant == b.scope && b.scope[0] != '_'
  {
    ChainHoldsExactly(snap, health, now, role, required, tenant);
  }

  /** A visible row of the role is either eligible or listed with one reason, and no other row is listed. */
  lemma ReasonIff(snap: Snapshot, role: string, required: string, tenant: string, b: Backend)
    ensures var shown := (b.scope == "" || b.scope == "_global"
                          || (tenant != "" && tenant[0] != '_' && b.scope == tenant))
                         && role in b.roles;
            var off := b.id in snap.disabledBy && snap.disabledBy[b.id] != "";
            ReasonOf(snap, role, required, tenant, b) ==
            if !shown then []
            else if !b.enabled then [Exclusion(b.name, "disabled")]
            else if off then [Exclusion(b.name, "disabled by profile " + snap.disabledBy[b.id])]
            else if !Allows(b.trust, required) then [Exclusion(b.name, "trust " + b.trust + " < required " + required)]
            else []
  {
  }

  /** The rows that PrimaryModel looks at, read off the table. */
  lemma PrimaryRowsAre(snap: Snapshot, role: string)
    ensures forall b :: b in PrimaryRows(snap, role) <==>
              && b in snap.backends && b.enabled && role in b.roles && (b.scope == "" || b.scope == "_global")
              && (b.id in snap.disabledBy ==> snap.disabledBy[b.id] == "")
              && b.priority >= 0 && b.ModelFor(role) != ""
  {
  }
}
