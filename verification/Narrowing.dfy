/**
 Monotone narrowing: a tenant overlay row may only narrow the base policy of the same name
 (go/internal/blocktype/overlay_narrowing.go), and what that buys after the tenant-wins merge.
 */
module Narrowing {
  import opened Options
  import opened Overlay
  import opened Ordering

  /** The retrieval kinds an overlay may move to. */
  predicate RetrievalNarrows(base: Kind, overlay: Kind)
  {
    overlay == base || overlay.Excluded? || (base.FullPass? && overlay.Damped?)
  }

  function DampingViolation(base: Retrieval, overlay: Retrieval): Option<string>
  {
    if !base.kind.Damped? || !overlay.kind.Damped? then None
    else if overlay.dampingFactor > base.dampingFactor then Some("retrieval.damping_factor")
    else if exists i :: 0 <= i < |overlay.intentPatterns| && overlay.intentPatterns[i] !in base.intentPatterns then
      Some("retrieval.intent_patterns")
    else None
  }

  /** The first of the ten axes on which the overlay is wider, or None. */
  function NarrowingViolation(base: Policy, overlay: Policy): Option<string>
  {
    if overlay.guardCheck && !base.guardCheck then Some("guard.check")
    else if overlay.guardCandidate && !base.guardCandidate then Some("guard.candidate")
    else if overlay.dreamLinkable && !base.dreamLinkable then Some("dream.linkable")
    else if overlay.overviewInclude && !base.overviewInclude then Some("overview.include")
    else if overlay.digestInclude && !base.digestInclude then Some("digest.include")
    else if base.retrieval.untrusted && !overlay.retrieval.untrusted then Some("retrieval.untrusted")
    else if overlay.retrieval.shadowMeasurable && !base.retrieval.shadowMeasurable then
      Some("retrieval.shadow_measurable")
    else if !RetrievalNarrows(base.retrieval.kind, overlay.retrieval.kind) then Some("retrieval.policy")
    else DampingViolation(base.retrieval, overlay.retrieval)
  }

  ghost predicate Narrows(base: Policy, overlay: Policy)
  {
    NarrowingViolation(base, overlay).None?
  }

  lemma NarrowsReflexive(p: Policy)
    ensures Narrows(p, p)
  {
  }

  lemma NarrowsTransitive(a: Policy, b: Policy, c: Policy)
    requires Narrows(a, b) && Narrows(b, c)
    ensures Narrows(a, c)
  {
    if a.retrieval.kind.Damped? && c.retrieval.kind.Damped? {
      assert b.retrieval.kind.Damped?;
      forall i | 0 <= i < |c.retrieval.intentPatterns|
        ensures c.retrieval.intentPatterns[i] in a.retrieval.intentPatterns
      {
        assert c.retrieval.intentPatterns[i] in b.retrieval.intentPatterns;
      }
    }
  }

  /** The ten axes: seven flags, the retrieval kind, and for two damped policies the factor and the patterns. */
  lemma NarrowsIff(base: Policy, overlay: Policy)
    ensures Narrows(base, overlay) <==>
            && (overlay.guardCheck ==> base.guardCheck) && (overlay.guardCandidate ==> base.guardCandidate)
            && (overlay.dreamLinkable ==> base.dreamLinkable) && (overlay.overviewInclude ==> base.overviewInclude)
            && (overlay.digestInclude ==> base.digestInclude)
            && (base.retrieval.untrusted ==> overlay.retrieval.untrusted)
            && (overlay.retrieval.shadowMeasurable ==> base.retrieval.shadowMeasurable)
            && (overlay.retrieval.kind == base.retrieval.kind || overlay.retrieval.kind.Excluded?
                || (base.retrieval.kind.FullPass? && overlay.retrieval.kind.Damped?))
            && (base.retrieval.kind.Damped? && overlay.retrieval.kind.Damped? ==>
                  && overlay.retrieval.dampingFactor <= base.retrieval.dampingFactor
                  && forall i :: 0 <= i < |overlay.retrieval.intentPatterns| ==>
                       overlay.retrieval.intentPatterns[i] in base.retrieval.intentPatterns)
  {
  }

  // ---------------------------------------------------------------- what a query sees

  predicate Contains(text: string, part: string)
  {
    exists i :: 0 <= i <= |text| && OccursAt(text, part, i)
  }

  /** rrf.MatchesAny; `lower` stands for the case folding. */
  predicate MatchesAny(lower: string -> string, text: string, patterns: seq<string>)
  {
    exists i :: 0 <= i < |patterns| && patterns[i] != "" && Contains(lower(text), lower(patterns[i]))
  }

  /**
   The multiplier a query's hits of this type keep: nothing when excluded, all of it when a pattern lifts the
   damping.
   */
  function EffectiveFactor(p: Policy, lower: string -> string, query: string): real
  {
    match p.retrieval.kind
    case Excluded => 0.0
    case Damped => if MatchesAny(lower, query, p.retrieval.intentPatterns) then 1.0 else p.retrieval.dampingFactor
    case FullPass => 1.0
    case AggregateToParent => 1.0
  }

  /** A damped policy has its factor between zero and one; decoding accepts no zero, but nothing here needs that. */
  ghost predicate Decoded(p: Policy)
  {
    p.retrieval.kind.Damped? ==> 0.0 <= p.retrieval.dampingFactor <= 1.0
  }

  /** Damping is lifted exactly when some pattern that is not empty stands in the query, case folded. */
  lemma FactorMeaning(p: Policy, lower: string -> string, query: string)
    ensures p.retrieval.kind.Excluded? ==> EffectiveFactor(p, lower, query) == 0.0
    ensures p.retrieval.kind.FullPass? || p.retrieval.kind.AggregateToParent?
            ==> EffectiveFactor(p, lower, query) == 1.0
    ensures p.retrieval.kind.Damped? ==>
              EffectiveFactor(p, lower, query) ==
              if exists x, before, after {:trigger before + lower(x) + after} ::
                   x in p.retrieval.intentPatterns && x != "" && lower(query) == before + lower(x) + after
              then 1.0 else p.retrieval.dampingFactor
  {
    var text := lower(query);
    if MatchesAny(lower, query, p.retrieval.intentPatterns) {
      var i :| 0 <= i < |p.retrieval.intentPatterns| && p.retrieval.intentPatterns[i] != ""
               && Contains(text, lower(p.retrieval.intentPatterns[i]));
      var x := p.retrieval.intentPatterns[i];
      var a :| 0 <= a <= |text| && OccursAt(text, lower(x), a);
      assert text == text[..a] + lower(x) + text[a + |lower(x)|..];
      assert x in p.retrieval.intentPatterns;
    }
    forall x, before, after | x in p.retrieval.intentPatterns && x != "" && text == before + lower(x) + after
      ensures MatchesAny(lower, query, p.retrieval.intentPatterns)
    {
      assert OccursAt(text, lower(x), |before|);
      var i :| 0 <= i < |p.retrieval.intentPatterns| && p.retrieval.intentPatterns[i] == x;
      assert Contains(text, lower(p.retrieval.intentPatterns[i]));
    }
  }

  lemma PatternsSubset(lower: string -> string, query: string, some: seq<string>, all: seq<string>)
    requires forall i :: 0 <= i < |some| ==> some[i] in all
    ensures MatchesAny(lower, query, some) ==> MatchesAny(lower, query, all)
  {
    if MatchesAny(lower, query, some) {
      var i :| 0 <= i < |some| && some[i] != "" && Contains(lower(query), lower(some[i]));
      var j :| 0 <= j < |all| && all[j] == some[i];
      assert all[j] != "";
    }
  }

  /** A narrowing never raises the factor of any query. */
  lemma NarrowingLowersFactor(base: Policy, overlay: Policy, lower: string -> string, query: string)
    requires Narrows(base, overlay) && Decoded(base) && Decoded(overlay)
    ensures EffectiveFactor(overlay, lower, query) <= EffectiveFactor(base, lower, query)
  {
    if base.retrieval.kind.Damped? && overlay.retrieval.kind.Damped? {
      PatternsSubset(lower, query, overlay.retrieval.intentPatterns, base.retrieval.intentPatterns);
    }
  }

  // ---------------------------------------------------------------- after the merge

  /** No wider on any flag: every flag of `p` that widens is set in `base`, and `p` is not less marked as foreign. */
  ghost predicate NoWiderFlags(base: Policy, p: Policy)
  {
    && (p.guardCheck ==> base.guardCheck)
    && (p.guardCandidate ==> base.guardCandidate)
    && (p.dreamLinkable ==> base.dreamLinkable)
    && (p.overviewInclude ==> base.overviewInclude)
    && (p.digestInclude ==> base.digestInclude)
    && (base.retrieval.untrusted ==> p.retrieval.untrusted)
    && (p.retrieval.shadowMeasurable ==> base.retrieval.shadowMeasurable)
    && (!p.retrieval.kind.Excluded? ==> !base.retrieval.kind.Excluded?)
    && (p.retrieval.kind.AggregateToParent? ==> base.retrieval.kind.AggregateToParent?)
  }

  /**
   If every row of a tenant narrows its base namesake, every base type of the tenant's set is no
   wider on any flag and has no larger factor for any query.
   */
  lemma TenantSetIsNoWider(base: Policies, rows: seq<Policy>, name: string, lower: string -> string, query: string)
    requires WellKeyed(base) && TenantSet(base, rows).Some? && name in base
    requires forall n :: n in base ==> Decoded(base[n])
    requires forall row :: row in rows ==> Decoded(row) && (row.name in base ==> Narrows(base[row.name], row))
    ensures var served := TenantSet(base, rows).value;
            && name in served
            && NoWiderFlags(base[name], served[name])
            && EffectiveFactor(served[name], lower, query) <= EffectiveFactor(base[name], lower, query)
  {
    ServedPolicyNarrows(base, rows, name);
    NarrowingLowersFactor(base[name], TenantSet(base, rows).value[name], lower, query);
  }

  lemma ServedPolicyNarrows(base: Policies, rows: seq<Policy>, name: string)
    requires WellKeyed(base) && TenantSet(base, rows).Some? && name in base
    requires forall n :: n in base ==> Decoded(base[n])
    requires forall row :: row in rows ==> Decoded(row) && (row.name in base ==> Narrows(base[row.name], row))
    ensures name in TenantSet(base, rows).value
    ensures Narrows(base[name], TenantSet(base, rows).value[name]) && Decoded(TenantSet(base, rows).value[name])
  {
    NarrowsReflexive(base[name]);
    if rows != [] {
      ResolveKnows(base, rows, name);
      var p := Resolve(base, rows, name).value;
      assert Narrows(base[name], p) && Decoded(p);
      assert TenantSet(base, rows).value[name] == ClearDefault(p, TenantDefault(rows));
    }
  }
}
