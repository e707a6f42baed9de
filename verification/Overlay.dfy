/**
 The tenant overlay: the base policies with a tenant's own rows merged over them
 (go/internal/blocktype/registry.go buildTenantSet, go/internal/blocktype/set.go NewSet and DampedTypesFor).
 */
module Overlay {
  import opened Options

  datatype Kind = FullPass | Damped | Excluded | AggregateToParent

  datatype Retrieval = Retrieval(
    kind: Kind,
    dampingFactor: real,
    intentPatterns: seq<string>,
    untrusted: bool,
    shadowMeasurable: bool)

  datatype Policy = Policy(
    name: string,
    isDefault: bool,
    guardCheck: bool,
    guardCandidate: bool,
    dreamLinkable: bool,
    overviewInclude: bool,
    digestInclude: bool,
    retrieval: Retrieval)

  /** The policies of one resolved namespace, by type name. */
  type Policies = map<string, Policy>

  /** Names are not empty and every policy is filed under its own name. */
  ghost predicate WellKeyed(m: Policies)
  {
    forall n :: n in m ==> n != "" && m[n].name == n
  }

  // ---------------------------------------------------------------- the merge

  /** The policy a name resolves to after the rows, the last row of a name winning. */
  function Resolve(base: Policies, rows: seq<Policy>, name: string): Option<Policy>
  {
    if rows == [] then (if name in base then Some(base[name]) else None)
    else
      var row := rows[|rows| - 1];
      if row.name == name then Some(row) else Resolve(base, rows[..|rows| - 1], name)
  }

  /** The name of the last row that is marked default, empty if there is none. */
  function TenantDefault(rows: seq<Policy>): string
  {
    if rows == [] then ""
    else
      var row := rows[|rows| - 1];
      if row.isDefault then row.name else TenantDefault(rows[..|rows| - 1])
  }

  function Names(rows: seq<Policy>): set<string>
  {
    set row | row in rows :: row.name
  }

  /** A tenant default takes the flag away from every other name. */
  function ClearDefault(p: Policy, tenantDefault: string): Policy
  {
    if tenantDefault != "" && p.name != tenantDefault then p.(isDefault := false) else p
  }

  lemma {:induction false} ResolveKnows(base: Policies, rows: seq<Policy>, name: string)
    ensures Resolve(base, rows, name).Some? <==> name in base || name in Names(rows)
    ensures WellKeyed(base) && Resolve(base, rows, name).Some? ==> Resolve(base, rows, name).value.name == name
    ensures Resolve(base, rows, name).Some? ==>
              (Resolve(base, rows, name).value in rows && Resolve(base, rows, name).value.name == name)
              || (name in base && name !in Names(rows) && Resolve(base, rows, name).value == base[name])
  {
    if rows != [] {
      var row := rows[|rows| - 1];
      ResolveKnows(base, rows[..|rows| - 1], name);
      assert forall x :: x in rows <==> x in rows[..|rows| - 1] || x == row;
    }
  }

  /** The merged namespace, before NewSet has accepted it. */
  ghost function Merged(base: Policies, rows: seq<Policy>): Policies
  {
    map n | n in base.Keys + Names(rows) && Resolve(base, rows, n).Some? ::
      ClearDefault(Resolve(base, rows, n).value, TenantDefault(rows))
  }

  ghost function Defaults(m: Policies): set<string>
  {
    set n | n in m && m[n].isDefault
  }

  /** NewSet accepts a namespace with exactly one default. */
  ghost function NewSet(m: Policies): Option<Policies>
  {
    if |Defaults(m)| == 1 then Some(m) else None
  }

  /** The set that a build derives from one base and the tenant's rows; None is a failed build. */
  ghost function TenantSet(base: Policies, rows: seq<Policy>): Option<Policies>
  {
    if rows == [] then Some(base) else NewSet(Merged(base, rows))
  }

  // ---------------------------------------------------------------- the program's loops

  method CheckedSet(m: Policies) returns (r: Option<Policies>)
    requires WellKeyed(m)
    ensures r == NewSet(m)
  {
    var defaultName := "";
    var todo := m.Keys;
    while todo != {}
      invariant todo <= m.Keys
      invariant forall n :: n in m && n !in todo && m[n].isDefault ==> n == defaultName
      invariant defaultName != "" ==> defaultName in m && defaultName !in todo && m[defaultName].isDefault
      decreases |todo|
    {
      var n :| n in todo;
      if m[n].isDefault {
        if defaultName != "" {
          TwoDefaults(Defaults(m), defaultName, n);
          return None;
        }
        defaultName := n;
      }
      todo := todo - {n};
    }
    if defaultName == "" {
      assert Defaults(m) == {};
      return None;
    }
    assert Defaults(m) == {defaultName};
    return Some(m);
  }

  lemma TwoDefaults(s: set<string>, a: string, b: string)
    requires a in s && b in s && a != b
    ensures |s| != 1
  {
    assert s == {a, b} + (s - {a, b});
    assert |{a, b}| == 2;
  }

  /** What the rows leave in the merged map before the default flags are settled. */
  ghost predicate Layered(base: Policies, rows: seq<Policy>, m: Policies)
  {
    && (forall n :: n in m <==> Resolve(base, rows, n).Some?)
    && (forall n :: n in m ==> m[n] == Resolve(base, rows, n).value)
  }

  /** The first loop of buildTenantSet: the tenant row wins on a name collision. */
  method LayerRows(base: Policies, rows: seq<Policy>) returns (merged: Policies, tenantDefault: string)
    ensures Layered(base, rows, merged) && tenantDefault == TenantDefault(rows)
  {
    merged, tenantDefault := base, "";
    for i := 0 to |rows|
      invariant tenantDefault == TenantDefault(rows[..i])
      invariant Layered(base, rows[..i], merged)
    {
      assert rows[..i + 1][..i] == rows[..i];
      merged := merged[rows[i].name := rows[i]];
      if rows[i].isDefault {
        tenantDefault := rows[i].name;
      }
    }
    assert rows[..|rows|] == rows;
  }

  /** The second loop of buildTenantSet: at most the tenant's default stays marked. */
  method ClearDefaults(loaded: Policies, tenantDefault: string) returns (merged: Policies)
    requires forall n :: n in loaded ==> loaded[n].name == n
    ensures merged.Keys == loaded.Keys
    ensures forall n :: n in merged ==> merged[n] == ClearDefault(loaded[n], tenantDefault)
  {
    merged := loaded;
    if tenantDefault != "" {
      var todo := merged.Keys;
      while todo != {}
        invariant todo <= merged.Keys == loaded.Keys
        invariant forall n :: n in merged ==>
                    merged[n] == if n in todo then loaded[n] else ClearDefault(loaded[n], tenantDefault)
        decreases |todo|
      {
        var n :| n in todo;
        if n != tenantDefault && merged[n].isDefault {
          merged := merged[n := merged[n].(isDefault := false)];
        }
        todo := todo - {n};
      }
    }
  }

  /** buildTenantSet over rows that were read and decoded. */
  method BuildTenantSet(base: Policies, rows: seq<Policy>) returns (r: Option<Policies>)
    requires WellKeyed(base) && forall row :: row in rows ==> row.name != ""
    ensures r == TenantSet(base, rows)
  {
    if rows == [] {
      return Some(base);
    }
    var loaded, tenantDefault := LayerRows(base, rows);
    forall n ensures n in loaded <==> n in base.Keys + Names(rows) {
      ResolveKnows(base, rows, n);
    }
    forall n | n in loaded ensures loaded[n].name == n && n != "" {
      ResolveKnows(base, rows, n);
    }
    var merged := ClearDefaults(loaded, tenantDefault);
    assert merged == Merged(base, rows);
    r := CheckedSet(merged);
  }

  // ---------------------------------------------------------------- when the overlay is served

  lemma {:induction false} TenantDefaultIsNamed(base: Policies, rows: seq<Policy>)
    requires WellKeyed(base) && forall row :: row in rows ==> row.name != ""
    requires forall i, j :: 0 <= i < j < |rows| ==> rows[i].name != rows[j].name
    ensures TenantDefault(rows) == "" <==> forall row :: row in rows ==> !row.isDefault
    ensures TenantDefault(rows) != "" ==>
              var p := Resolve(base, rows, TenantDefault(rows)); p.Some? && p.value in rows && p.value.isDefault
  {
    if rows != [] {
      var row, rest := rows[|rows| - 1], rows[..|rows| - 1];
      TenantDefaultIsNamed(base, rest);
      assert forall x :: x in rows <==> x in rest || x == row;
      if !row.isDefault && TenantDefault(rest) != "" {
        var p := Resolve(base, rest, TenantDefault(rest)).value;
        ResolveKnows(base, rest, TenantDefault(rest));
        var i :| 0 <= i < |rest| && rest[i] == p;
        assert rows[i].name != row.name;
      }
    }
  }

  /**
   A tenant with rows of its own is served its overlay exactly when it declares a default or leaves
   the base default's name alone; otherwise the build fails and the base is served.
   */
  lemma OverlayIsServedIff(base: Policies, rows: seq<Policy>, d: string)
    requires WellKeyed(base) && Defaults(base) == {d}
    requires rows != [] && forall row :: row in rows ==> row.name != ""
    requires forall i, j :: 0 <= i < j < |rows| ==> rows[i].name != rows[j].name
    ensures TenantSet(base, rows).Some? <==> (exists row :: row in rows && row.isDefault) || d !in Names(rows)
  {
    var m, t := Merged(base, rows), TenantDefault(rows);
    TenantDefaultIsNamed(base, rows);
    assert d in base;
    if t != "" {
      ResolveKnows(base, rows, t);
      assert t in m && m[t].isDefault;
      forall n | n in m && n != t ensures !m[n].isDefault { ResolveKnows(base, rows, n); }
      assert Defaults(m) == {t};
    } else {
      forall n | n in m ensures m[n].isDefault <==> n == d && d !in Names(rows) {
        ResolveKnows(base, rows, n);
        if n !in Names(rows) {
          assert n in Defaults(base) <==> n == d;
        }
      }
      if d !in Names(rows) {
        ResolveKnows(base, rows, d);
        assert d in m;
        assert Defaults(m) == {d};
      } else {
        assert Defaults(m) == {};
      }
    }
  }

  lemma {:induction false} ResolvesToRow(base: Policies, rows: seq<Policy>, i: nat)
    requires forall a, b :: 0 <= a < b < |rows| ==> rows[a].name != rows[b].name
    requires i < |rows|
    ensures Resolve(base, rows, rows[i].name) == Some(rows[i])
  {
    if i < |rows| - 1 {
      ResolvesToRow(base, rows[..|rows| - 1], i);
    }
  }

  lemma {:induction false} ResolvesToBase(base: Policies, rows: seq<Policy>, name: string)
    requires forall i :: 0 <= i < |rows| ==> rows[i].name != name
    ensures Resolve(base, rows, name) == if name in base then Some(base[name]) else None
  {
    if rows != [] {
      ResolvesToBase(base, rows[..|rows| - 1], name);
    }
  }

  lemma {:induction false} DefaultRow(rows: seq<Policy>, i: nat)
    requires i < |rows| && rows[i].isDefault && forall j :: 0 <= j < |rows| && j != i ==> !rows[j].isDefault
    ensures TenantDefault(rows) == rows[i].name
  {
    if i < |rows| - 1 {
      DefaultRow(rows[..|rows| - 1], i);
    }
  }

  /**
   Every name of the base or of a row is served: the tenant's row as it stands, else the base policy, but for
   the default flag.
   */
  lemma ServedPolicies(base: Policies, rows: seq<Policy>, name: string)
    requires WellKeyed(base) && rows != [] && TenantSet(base, rows).Some?
    requires forall a, b :: 0 <= a < b < |rows| ==> rows[a].name != rows[b].name
    ensures var served := TenantSet(base, rows).value;
            && (name in served <==> name in base || exists i :: 0 <= i < |rows| && rows[i].name == name)
            && (forall i :: 0 <= i < |rows| && rows[i].name == name ==>
                  served[name] == rows[i].(isDefault := served[name].isDefault))
            && (name in base && (forall i :: 0 <= i < |rows| ==> rows[i].name != name) ==>
                  served[name] == base[name].(isDefault := served[name].isDefault))
  {
    ResolveKnows(base, rows, name);
    forall i | 0 <= i < |rows| && rows[i].name == name ensures Resolve(base, rows, name) == Some(rows[i]) {
      ResolvesToRow(base, rows, i);
    }
    if forall i :: 0 <= i < |rows| ==> rows[i].name != name {
      ResolvesToBase(base, rows, name);
    }
    assert name in Names(rows) <==> exists i :: 0 <= i < |rows| && rows[i].name == name;
  }

  /** The one default of the served set is the tenant's own if a row declares it. */
  lemma ServedDefault(base: Policies, rows: seq<Policy>, i: nat, name: string)
    requires WellKeyed(base) && TenantSet(base, rows).Some? && i < |rows| && rows[i].name != "" && rows[i].isDefault
    requires forall j :: 0 <= j < |rows| && j != i ==> !rows[j].isDefault
    requires forall a, b :: 0 <= a < b < |rows| ==> rows[a].name != rows[b].name
    requires name in TenantSet(base, rows).value
    ensures TenantSet(base, rows).value[name].isDefault <==> name == rows[i].name
  {
    DefaultRow(rows, i);
    ResolvesToRow(base, rows, i);
    ResolveKnows(base, rows, name);
  }
}
