/**
 Folding paired cases into the slices of a comparison report
 (go/internal/armsweep/compare.go foldPair, foldInto, trackDelivered, gucMismatch;
 go/internal/armsweep/regime.go SliceKeysOf, stampRegime, applyRegime).
 */
module Comparison {
  import opened Options
  import opened Ordering
  import opened Dumps
  import opened Displacement
  import StreamMerge

  const SLICE_Q := "G-Q"
  const SLICE_REAL := "G-REAL"
  const REGIME_LOCAL := "local"
  const REGIME_GLOBAL := "global"
  const SLICE_REAL_LOCAL := "G-REAL-local"
  const SLICE_REAL_GLOBAL := "G-REAL-global"

  // ---------------------------------------------------------------- which slices a case is filed under

  function SliceKeyOf(rec: Record): string
  {
    if rec.slice == SLICE_Q && rec.split != "" then rec.slice + "-" + rec.split else rec.slice
  }

  /** The slice of a record and, for a stamped G-REAL record, its regime half. */
  function SliceKeysOf(rec: Record): seq<string>
  {
    if rec.slice != SLICE_REAL || rec.regime == "" then [SliceKeyOf(rec)]
    else [SliceKeyOf(rec), SliceKeyOf(rec) + "-" + rec.regime]
  }

  /** An empty label map is an inactive split. */
  function StampRegime(rec: Record, regimes: map<string, string>): Option<Record>
  {
    if regimes == map[] || rec.slice != SLICE_REAL then Some(rec)
    else if rec.querySha !in regimes then None
    else Some(rec.(regime := regimes[rec.querySha]))
  }

  /** Stamps a whole record set, or refuses it because of one uncovered case. */
  method ApplyRegime(recs: seq<Record>, regimes: map<string, string>) returns (r: Option<seq<Record>>)
    ensures r.None? <==> exists i :: 0 <= i < |recs| && StampRegime(recs[i], regimes).None?
    ensures r.Some? ==> |r.value| == |recs| && forall i :: 0 <= i < |recs| ==>
              Some(r.value[i]) == StampRegime(recs[i], regimes)
  {
    if regimes == map[] || |recs| == 0 {
      return Some(recs);
    }
    var out := [];
    for i := 0 to |recs|
      invariant |out| == i
      invariant forall j :: 0 <= j < i ==> StampRegime(recs[j], regimes) == Some(out[j])
    {
      var stamped := StampRegime(recs[i], regimes);
      if stamped.None? {
        return None;
      }
      out := out + [stamped.value];
    }
    return Some(out);
  }

  /** The labels name no regime but the two. */
  ghost predicate TwoRegimes(regimes: map<string, string>)
  {
    forall q :: q in regimes ==> regimes[q] == REGIME_LOCAL || regimes[q] == REGIME_GLOBAL
  }

  /** A record whose own slice bears the name of a half. */
  predicate NamedLikeAHalf(rec: Record)
  {
    rec.slice == SLICE_REAL_LOCAL || rec.slice == SLICE_REAL_GLOBAL
  }

  lemma Names()
    ensures SLICE_REAL + "-" + REGIME_LOCAL == SLICE_REAL_LOCAL
    ensures SLICE_REAL + "-" + REGIME_GLOBAL == SLICE_REAL_GLOBAL
    ensures SLICE_REAL_LOCAL != SLICE_REAL && SLICE_REAL_GLOBAL != SLICE_REAL && SLICE_REAL_LOCAL != SLICE_REAL_GLOBAL
    ensures SLICE_REAL != SLICE_Q && SLICE_REAL_LOCAL != SLICE_Q && SLICE_REAL_GLOBAL != SLICE_Q
    ensures REGIME_LOCAL != "" && REGIME_GLOBAL != "" && REGIME_LOCAL != REGIME_GLOBAL
  {
    assert |SLICE_REAL| == 6 && |SLICE_REAL_LOCAL| == 12 && |SLICE_REAL_GLOBAL| == 13 && |SLICE_Q| == 3;
    assert |REGIME_LOCAL| == 5 && |REGIME_GLOBAL| == 6;
  }

  lemma SplitsOfQ(split: string)
    ensures SLICE_Q + "-" + split != SLICE_REAL
    ensures SLICE_Q + "-" + split != SLICE_REAL_LOCAL
    ensures SLICE_Q + "-" + split != SLICE_REAL_GLOBAL
  {
    assert (SLICE_Q + "-" + split)[2] == 'Q';
    assert SLICE_REAL[2] == 'R' && SLICE_REAL_LOCAL[2] == 'R' && SLICE_REAL_GLOBAL[2] == 'R';
  }

  /**
   Under an active split a G-REAL case is filed in the total and in exactly one half, and no other case is
   filed in a half, unless its slice bears that name.
   */
  lemma KeysOfStamped(rec: Record, regimes: map<string, string>)
    requires regimes != map[] && TwoRegimes(regimes) && StampRegime(rec, regimes).Some?
    ensures var keys := SliceKeysOf(StampRegime(rec, regimes).value);
            && (SLICE_REAL in keys <==> rec.slice == SLICE_REAL)
            && (rec.slice == SLICE_REAL ==> (SLICE_REAL_LOCAL in keys) != (SLICE_REAL_GLOBAL in keys))
            && (rec.slice != SLICE_REAL ==>
                  && (SLICE_REAL_LOCAL in keys <==> rec.slice == SLICE_REAL_LOCAL)
                  && (SLICE_REAL_GLOBAL in keys <==> rec.slice == SLICE_REAL_GLOBAL))
  {
    Names();
    SplitsOfQ(rec.split);
  }

  // ---------------------------------------------------------------- the slices

  datatype CaseScore = CaseScore(ndcg10: real, recall5: real, mrr10: real, hit5: bool)

  /** The paired metrics of one case, base against condition and the two replicates against each other. */
  datatype Effect = Effect(
    dNdcg: real, dRecall: real, dMrr: real, baseHit: bool, condHit: bool,
    noiseDelta: real, noiseAHit: bool, noiseBHit: bool)

  datatype Slice = Slice(n: nat, labelled: nat, temporal: nat, effects: seq<Effect>, table: Table)

  const EMPTY_SLICE: Slice := Slice(0, 0, 0, [], EMPTY_TABLE)

  /** What one paired case contributes, and where. */
  datatype Case = Case(keys: seq<string>, labelled: bool, temporal: bool, effect: Effect, facts: Facts, growth: int)

  function Filed(s: Slice, c: Case): Slice
  {
    Slice(s.n + 1, s.labelled + (if c.labelled then 1 else 0), s.temporal + (if c.temporal then 1 else 0),
          s.effects + [c.effect], Added(s.table, c.facts))
  }

  type Slices = map<string, Slice>

  /** compareAcc.slice: a slice that was not opened yet is empty. */
  function SliceAt(slices: Slices, key: string): Slice
  {
    if key in slices then slices[key] else EMPTY_SLICE
  }

  function FiledUnder(slices: Slices, keys: seq<string>, c: Case): Slices
  {
    if keys == [] then slices
    else
      var rest, key := FiledUnder(slices, keys[..|keys| - 1], c), keys[|keys| - 1];
      rest[key := Filed(SliceAt(rest, key), c)]
  }

  // ---------------------------------------------------------------- one paired case

  datatype Guc = Guc(iterativeScan: string, maxScanTuples: string)

  function GucOf(rec: Record): Guc
  {
    if rec.selector.mode != "ann" then Guc("unset", "unset")
    else Guc("relaxed_order", if rec.selector.scanTuples.None? then "unset" else Decimal(rec.selector.scanTuples.value))
  }

  /** How a comparison is set up; `score` stands for the metrics of one record. */
  datatype Setup = Setup(shadow: set<string>, regimes: map<string, string>, delivered: bool, score: Record -> CaseScore)

  datatype Acc = Acc(slices: Slices, guc: Option<Guc>, deliveredMax: nat)

  const EMPTY_ACC: Acc := Acc(map[], None, 0)

  /** The partners of the base ran under the same planner settings and judge the same gold. */
  predicate Congruent(cur: seq<Record>)
  {
    forall i :: 1 <= i < |cur| ==> GucOf(cur[0]) == GucOf(cur[i]) && cur[0].goldIds == cur[i].goldIds
  }

  predicate Answers(rec: Record)
  {
    rec.delivered == [] ==> rec.rows == []
  }

  predicate AllAnswer(cur: seq<Record>)
  {
    forall i :: 0 <= i < |cur| ==> Answers(cur[i])
  }

  function Longest(m: nat, cur: seq<Record>): nat
  {
    if cur == [] then m
    else
      var rest, n := Longest(m, cur[..|cur| - 1]), |cur[|cur| - 1].delivered|;
      if n > rest then n else rest
  }

  function EffectOf(base: CaseScore, cond: CaseScore, a: CaseScore, b: CaseScore): Effect
  {
    Effect(cond.ndcg10 - base.ndcg10, cond.recall5 - base.recall5, cond.mrr10 - base.mrr10, base.hit5, cond.hit5,
           b.ndcg10 - a.ndcg10, a.hit5, b.hit5)
  }

  predicate Admitted(setup: Setup, cur: seq<Record>)
  {
    && |cur| == 4 && Congruent(cur)
    && (setup.delivered ==> AllAnswer(cur))
    && StampRegime(cur[0], setup.regimes).Some?
  }

  /** What a case contributes, once its base is stamped and its metrics are paired. */
  function CaseFrom(setup: Setup, keys: seq<string>, base: Record, cond: Record, effect: Effect): Case
  {
    var w := WindowsOf(base, cond, setup.delivered);
    Case(keys, base.goldIds != [], base.effectiveTemporal != "", effect, FactsOf(w, setup.shadow), |w.cond| - |w.base|)
  }

  function CaseOf(setup: Setup, cur: seq<Record>): Case
    requires |cur| == 4 && StampRegime(cur[0], setup.regimes).Some?
  {
    var base := StampRegime(cur[0], setup.regimes).value;
    CaseFrom(setup, SliceKeysOf(base), base, cur[1],
             EffectOf(setup.score(base), setup.score(cur[1]), setup.score(cur[2]), setup.score(cur[3])))
  }

  function PairFolded(setup: Setup, acc: Acc, cur: seq<Record>): Option<Acc>
  {
    if !Admitted(setup, cur) then None
    else
      var c := CaseOf(setup, cur);
      Some(Acc(FiledUnder(acc.slices, c.keys, c),
               if acc.guc.None? then Some(GucOf(cur[0])) else acc.guc,
               if setup.delivered then Longest(acc.deliveredMax, cur) else acc.deliveredMax))
  }

  // ---------------------------------------------------------------- the same, step by step

  method SameIds(a: seq<string>, b: seq<string>) returns (same: bool)
    ensures same <==> a == b
  {
    if |a| != |b| {
      return false;
    }
    for i := 0 to |a|
      invariant a[..i] == b[..i]
    {
      if a[i] != b[i] {
        return false;
      }
    }
    return true;
  }

  /** Checks every partner against the base. */
  method CheckPartners(cur: seq<Record>) returns (ok: bool)
    requires cur != []
    ensures ok <==> Congruent(cur)
  {
    for i := 1 to |cur|
      invariant forall j :: 1 <= j < i ==> GucOf(cur[0]) == GucOf(cur[j]) && cur[0].goldIds == cur[j].goldIds
    {
      var same := SameIds(cur[0].goldIds, cur[i].goldIds);
      if GucOf(cur[0]) != GucOf(cur[i]) || !same {
        return false;
      }
    }
    return true;
  }

  /** The counters of a slice that need no second look at the records. */
  method Extend(s: Slice, labelled: bool, temporal: bool, effect: Effect, table: Table, ghost c: Case)
    returns (s': Slice)
    requires c.labelled == labelled && c.temporal == temporal && c.effect == effect && table == Added(s.table, c.facts)
    ensures s' == Filed(s, c)
  {
    s' := s.(n := s.n + 1, effects := s.effects + [effect], table := table);
    if labelled {
      s' := s'.(labelled := s'.labelled + 1);
    }
    if temporal {
      s' := s'.(temporal := s'.temporal + 1);
    }
  }

  method FoldInto(s: Slice, setup: Setup, ghost keys: seq<string>, base: Record, cond: Record, effect: Effect)
    returns (s': Slice)
    ensures s' == Filed(s, CaseFrom(setup, keys, base, cond, effect))
  {
    var table := FoldDisplacement(s.table, base, cond, setup.shadow, setup.delivered);
    s' := Extend(s, |base.goldIds| > 0, base.effectiveTemporal != "", effect, table,
                 CaseFrom(setup, keys, base, cond, effect));
  }

  lemma FiledUnderSnoc(slices: Slices, keys: seq<string>, i: nat, c: Case)
    requires i < |keys|
    ensures FiledUnder(slices, keys[..i + 1], c)
            == var rest := FiledUnder(slices, keys[..i], c); rest[keys[i] := Filed(SliceAt(rest, keys[i]), c)]
  {
    assert keys[..i + 1][..i] == keys[..i];
  }

  class CompareAcc {
    var slices: Slices
    var guc: Option<Guc>
    var deliveredMax: nat

    constructor ()
      ensures Value() == EMPTY_ACC
    {
      slices, guc, deliveredMax := map[], None, 0;
    }

    ghost function Value(): Acc
      reads this
    {
      Acc(slices, guc, deliveredMax)
    }

    /** Refuses a case without a delivered window and keeps the longest window seen. */
    method TrackDelivered(cur: seq<Record>) returns (ok: bool)
      modifies this`deliveredMax
      ensures ok <==> AllAnswer(cur)
      ensures ok ==> deliveredMax == Longest(old(deliveredMax), cur)
    {
      for i := 0 to |cur|
        invariant forall j :: 0 <= j < i ==> Answers(cur[j])
        invariant deliveredMax == Longest(old(deliveredMax), cur[..i])
      {
        assert cur[..i + 1][..i] == cur[..i];
        var n := |cur[i].delivered|;
        if n == 0 && |cur[i].rows| > 0 {
          return false;
        }
        if n > deliveredMax {
          deliveredMax := n;
        }
      }
      assert cur[..|cur|] == cur;
      return true;
    }

    /** Files the case under every slice it belongs to. */
    method File(setup: Setup, keys: seq<string>, base: Record, cond: Record, effect: Effect)
      modifies this`slices
      ensures slices == FiledUnder(old(slices), keys, CaseFrom(setup, keys, base, cond, effect))
    {
      ghost var c := CaseFrom(setup, keys, base, cond, effect);
      for i := 0 to |keys|
        invariant slices == FiledUnder(old(slices), keys[..i], c)
      {
        FiledUnderSnoc(old(slices), keys, i, c);
        var s := FoldInto(SliceAt(slices, keys[i]), setup, keys, base, cond, effect);
        slices := slices[keys[i] := s];
      }
      assert keys[..|keys|] == keys;
    }

    /** Folds one paired case, or refuses it; a refusal ends the comparison. */
    method FoldPair(setup: Setup, cur: seq<Record>) returns (ok: bool)
      requires |cur| == 4
      modifies this
      ensures ok <==> PairFolded(setup, old(Value()), cur).Some?
      ensures ok ==> PairFolded(setup, old(Value()), cur) == Some(Value())
    {
      ok := CheckPartners(cur);
      if !ok {
        return;
      }
      if setup.delivered {
        ok := TrackDelivered(cur);
        if !ok {
          return;
        }
      }
      if guc.None? {
        guc := Some(GucOf(cur[0]));
      }
      var stamped := StampRegime(cur[0], setup.regimes);
      if stamped.None? {
        return false;
      }
      var base := stamped.value;
      var effect := EffectOf(setup.score(base), setup.score(cur[1]), setup.score(cur[2]), setup.score(cur[3]));
      File(setup, SliceKeysOf(base), base, cur[1], effect);
    }
  }

  // ---------------------------------------------------------------- whole runs

  function FoldBy(setup: Setup): (Acc, seq<Record>) -> Option<Acc>
  {
    (acc, cur) => PairFolded(setup, acc, cur)
  }

  ghost predicate AllAdmitted(setup: Setup, run: seq<seq<Record>>)
  {
    forall i :: 0 <= i < |run| ==> Admitted(setup, run[i])
  }

  ghost function CasesOf(setup: Setup, run: seq<seq<Record>>): (r: seq<Case>)
    requires AllAdmitted(setup, run)
    ensures |r| == |run|
    ensures forall i :: 0 <= i < |run| ==> r[i] == CaseOf(setup, run[i])
  {
    seq(|run|, i requires 0 <= i < |run| => CaseOf(setup, run[i]))
  }

  /** The cases that are filed under a key, in order. */
  function Under(key: string, cases: seq<Case>): seq<Case>
  {
    if cases == [] then []
    else
      var c := cases[|cases| - 1];
      Under(key, cases[..|cases| - 1]) + (if key in c.keys then [c] else [])
  }

  /** A slice that holds exactly the given cases. */
  function Sliced(cases: seq<Case>): Slice
  {
    if cases == [] then EMPTY_SLICE else Filed(Sliced(cases[..|cases| - 1]), cases[|cases| - 1])
  }

  function FiledIf(s: Slice, key: string, c: Case): Slice
  {
    if key in c.keys then Filed(s, c) else s
  }

  lemma UnderSnoc(key: string, cases: seq<Case>)
    requires cases != []
    ensures var rest, c := cases[..|cases| - 1], cases[|cases| - 1];
            && |Under(key, cases)| == |Under(key, rest)| + (if key in c.keys then 1 else 0)
            && Sliced(Under(key, cases)) == FiledIf(Sliced(Under(key, rest)), key, c)
  {
    var c := cases[|cases| - 1];
    var before := Under(key, cases[..|cases| - 1]);
    if key in c.keys {
      assert (before + [c])[..|before|] == before;
    } else {
      assert Under(key, cases) == before;
    }
  }

  /** Filing a case under distinct keys touches these slices once each and no other slice. */
  lemma {:induction false} FilingIsLocal(slices: Slices, keys: seq<string>, c: Case, key: string)
    requires forall i, j :: 0 <= i < j < |keys| ==> keys[i] != keys[j]
    ensures SliceAt(FiledUnder(slices, keys, c), key)
            == if key in keys then Filed(SliceAt(slices, key), c) else SliceAt(slices, key)
  {
    if keys != [] {
      var rest, last := keys[..|keys| - 1], keys[|keys| - 1];
      assert keys == rest + [last];
      assert last !in rest;
      FilingIsLocal(slices, rest, c, key);
      if key == last {
      } else {
        assert key in keys <==> key in rest;
      }
    }
  }

  lemma KeysAreDistinct(rec: Record)
    ensures var keys := SliceKeysOf(rec); forall i, j :: 0 <= i < j < |keys| ==> keys[i] != keys[j]
  {
    assert |SliceKeyOf(rec) + "-" + rec.regime| > |SliceKeyOf(rec)|;
  }

  lemma OneCaseFiled(setup: Setup, slices: Slices, cur: seq<Record>, key: string)
    requires Admitted(setup, cur)
    ensures var c := CaseOf(setup, cur);
            SliceAt(FiledUnder(slices, c.keys, c), key) == FiledIf(SliceAt(slices, key), key, c)
  {
    var c := CaseOf(setup, cur);
    KeysAreDistinct(StampRegime(cur[0], setup.regimes).value);
    FilingIsLocal(slices, c.keys, c, key);
  }

  /** A fold that succeeds has admitted every case. */
  lemma {:induction false} RunIsAdmitted(setup: Setup, run: seq<seq<Record>>)
    ensures StreamMerge.FoldAll(FoldBy(setup), EMPTY_ACC, run).Some? <==> AllAdmitted(setup, run)
  {
    if run != [] {
      var rest := run[..|run| - 1];
      RunIsAdmitted(setup, rest);
      assert AllAdmitted(setup, run) <==> AllAdmitted(setup, rest) && Admitted(setup, run[|run| - 1]) by {
        assert run == rest + [run[|run| - 1]];
      }
    }
  }

  /** What a run of admitted cases leaves behind. */
  ghost function Final(setup: Setup, run: seq<seq<Record>>): (acc: Acc)
    requires AllAdmitted(setup, run)
    ensures StreamMerge.FoldAll(FoldBy(setup), EMPTY_ACC, run) == Some(acc)
  {
    RunIsAdmitted(setup, run);
    StreamMerge.FoldAll(FoldBy(setup), EMPTY_ACC, run).value
  }

  lemma CasesSnoc(setup: Setup, run: seq<seq<Record>>)
    requires AllAdmitted(setup, run) && run != []
    ensures var cases := CasesOf(setup, run);
            cases[..|cases| - 1] == CasesOf(setup, run[..|run| - 1])
              && cases[|cases| - 1] == CaseOf(setup, run[|run| - 1])
  {
  }

  lemma LastCaseFiled(setup: Setup, run: seq<seq<Record>>)
    requires AllAdmitted(setup, run) && run != []
    ensures PairFolded(setup, Final(setup, run[..|run| - 1]), run[|run| - 1]) == Some(Final(setup, run))
  {
    assert FoldBy(setup)(Final(setup, run[..|run| - 1]), run[|run| - 1]) == Some(Final(setup, run));
  }

  lemma SliceStep(setup: Setup, run: seq<seq<Record>>, before: Slices, key: string)
    requires AllAdmitted(setup, run) && run != []
    requires SliceAt(before, key) == Sliced(Under(key, CasesOf(setup, run[..|run| - 1])))
    ensures var c := CaseOf(setup, run[|run| - 1]);
            SliceAt(FiledUnder(before, c.keys, c), key) == Sliced(Under(key, CasesOf(setup, run)))
  {
    OneCaseFiled(setup, before, run[|run| - 1], key);
    CasesSnoc(setup, run);
    UnderSnoc(key, CasesOf(setup, run));
  }

  /** After every run each slice holds exactly the cases filed under it, in order, each once. */
  lemma {:induction false} SlicesHoldTheirCases(setup: Setup, run: seq<seq<Record>>, key: string)
    requires AllAdmitted(setup, run)
    ensures SliceAt(Final(setup, run).slices, key) == Sliced(Under(key, CasesOf(setup, run)))
  {
    if run != [] {
      SlicesHoldTheirCases(setup, run[..|run| - 1], key);
      LastCaseFiled(setup, run);
      SliceStep(setup, run, Final(setup, run[..|run| - 1]).slices, key);
    }
  }

  // ---------------------------------------------------------------- every slice balances

  function FactsIn(cases: seq<Case>): (r: seq<Facts>)
    ensures |r| == |cases|
    ensures forall i :: 0 <= i < |cases| ==> r[i] == cases[i].facts
  {
    seq(|cases|, i requires 0 <= i < |cases| => cases[i].facts)
  }

  function GrowthOf(cases: seq<Case>): int
  {
    if cases == [] then 0 else GrowthOf(cases[..|cases| - 1]) + cases[|cases| - 1].growth
  }

  lemma {:induction false} TableOfSlice(cases: seq<Case>)
    ensures Sliced(cases).table == Tabled(FactsIn(cases))
    ensures Sliced(cases).n == |cases| == |Sliced(cases).effects|
  {
    if cases != [] {
      TableOfSlice(cases[..|cases| - 1]);
      assert FactsIn(cases)[..|cases| - 1] == FactsIn(cases[..|cases| - 1]);
    }
  }

  ghost predicate Bounded(c: Case)
  {
    c.facts.labelledOut <= |c.facts.out| <= DISPLACEMENT_CUT
  }

  ghost predicate Balanced(c: Case)
  {
    |c.facts.entered| - |c.facts.out| == c.growth
  }

  lemma {:induction false} UnderIsPart(key: string, cases: seq<Case>)
    ensures forall c :: c in Under(key, cases) <==> c in cases && key in c.keys
  {
    if cases != [] {
      UnderIsPart(key, cases[..|cases| - 1]);
      assert cases == cases[..|cases| - 1] + [cases[|cases| - 1]];
    }
  }

  lemma FactsSnoc(cases: seq<Case>)
    requires cases != []
    ensures Entrants(FactsIn(cases)) == Entrants(FactsIn(cases[..|cases| - 1])) + |cases[|cases| - 1].facts.entered|
  {
    assert FactsIn(cases)[..|cases| - 1] == FactsIn(cases[..|cases| - 1]);
  }

  lemma {:induction false} EntrantsOf(cases: seq<Case>)
    requires forall c :: c in cases ==> Balanced(c)
    ensures Entrants(FactsIn(cases)) - Sliced(cases).table.displaced == GrowthOf(cases)
  {
    if cases != [] {
      EntrantsOf(cases[..|cases| - 1]);
      FactsSnoc(cases);
      assert Balanced(cases[|cases| - 1]);
    }
  }

  lemma CaseIsBounded(setup: Setup, cur: seq<Record>)
    requires Admitted(setup, cur)
    ensures Bounded(CaseOf(setup, cur))
    ensures Listed(cur[0], setup.delivered) && Listed(cur[1], setup.delivered) ==> Balanced(CaseOf(setup, cur))
  {
    var base := StampRegime(cur[0], setup.regimes).value;
    FactsAreBounded(base, cur[1], setup.delivered, setup.shadow);
    if Listed(cur[0], setup.delivered) && Listed(cur[1], setup.delivered) {
      assert base.rows == cur[0].rows && base.delivered == cur[0].delivered;
      WindowRepeatsNothing(base, setup.delivered);
      WindowRepeatsNothing(cur[1], setup.delivered);
      EntrantsBalance(WindowsOf(base, cur[1], setup.delivered), setup.shadow);
    }
  }

  /** The conservation laws of one slice that holds the given cases. */
  ghost predicate Conserves(s: Slice, cases: seq<Case>)
  {
    && s.n == |s.effects| == s.table.cases == |cases|
    && s.table.displaced == Total(s.table.byTypeOut)
    && s.table.labelledOut <= s.table.displaced <= DISPLACEMENT_CUT * s.table.cases
    && (forall i :: 0 <= i < |cases| ==> s.table.minPerCase <= |cases[i].facts.out| <= s.table.maxPerCase)
  }

  lemma SliceConserves(cases: seq<Case>)
    requires forall c :: c in cases ==> Bounded(c)
    ensures Conserves(Sliced(cases), cases)
    ensures Total(Sliced(cases).table.byTypeIn) == Entrants(FactsIn(cases))
  {
    var fs := FactsIn(cases);
    forall i | 0 <= i < |fs| ensures fs[i].labelledOut <= |fs[i].out| <= DISPLACEMENT_CUT {
      assert Bounded(cases[i]);
    }
    TableOfSlice(cases);
    TableBalances(fs);
    ExtremesBracket(fs);
    forall i | 0 <= i < |cases|
      ensures Sliced(cases).table.minPerCase <= |cases[i].facts.out| <= Sliced(cases).table.maxPerCase
    {
      assert fs[i] == cases[i].facts;
    }
  }

  /** After every run every slice conserves its counts. */
  lemma EverySliceConserves(setup: Setup, run: seq<seq<Record>>, key: string)
    requires AllAdmitted(setup, run)
    ensures Conserves(SliceAt(Final(setup, run).slices, key), Under(key, CasesOf(setup, run)))
  {
    var cases := CasesOf(setup, run);
    SlicesHoldTheirCases(setup, run, key);
    UnderIsPart(key, cases);
    forall c | c in cases ensures Bounded(c) {
      var i :| 0 <= i < |cases| && cases[i] == c;
      CaseIsBounded(setup, run[i]);
    }
    SliceConserves(Under(key, cases));
  }

  /** No dump lists an id twice in a case of the run. */
  ghost predicate RunRepeatsNothing(setup: Setup, run: seq<seq<Record>>)
    requires AllAdmitted(setup, run)
  {
    forall i :: 0 <= i < |run| ==> Listed(run[i][0], setup.delivered) && Listed(run[i][1], setup.delivered)
  }

  /** Then entrants minus displaced is what the windows of the slice grew by. */
  lemma EverySliceBalances(setup: Setup, run: seq<seq<Record>>, key: string)
    requires AllAdmitted(setup, run)
    requires RunRepeatsNothing(setup, run)
    ensures var t := SliceAt(Final(setup, run).slices, key).table;
            Total(t.byTypeIn) - t.displaced == GrowthOf(Under(key, CasesOf(setup, run)))
  {
    var cases := CasesOf(setup, run);
    SlicesHoldTheirCases(setup, run, key);
    UnderIsPart(key, cases);
    forall c | c in cases ensures Bounded(c) && Balanced(c) {
      var i :| 0 <= i < |cases| && cases[i] == c;
      CaseIsBounded(setup, run[i]);
    }
    SliceConserves(Under(key, cases));
    EntrantsOf(Under(key, cases));
  }

  // ---------------------------------------------------------------- the two halves of G-REAL

  /** The smaller of two minima, where -1 stands for none. */
  function Least(a: int, b: int): int
  {
    if a < 0 && b < 0 then -1 else if a < 0 then b else if b < 0 then a else if a < b then a else b
  }

  ghost predicate TableSum(t: Table, a: Table, b: Table)
  {
    && t.cases == a.cases + b.cases && t.casesWith == a.casesWith + b.casesWith
    && t.displaced == a.displaced + b.displaced
    && t.labelledOut == a.labelledOut + b.labelledOut && t.labelsAvailable == (a.labelsAvailable || b.labelsAvailable)
    && t.shadowTopK == a.shadowTopK + b.shadowTopK && t.shadowRank1 == a.shadowRank1 + b.shadowRank1
    && t.minPerCase == Least(a.minPerCase, b.minPerCase)
    && t.maxPerCase == (if a.maxPerCase < b.maxPerCase then b.maxPerCase else a.maxPerCase)
  }

  /** Two histograms added entry by entry. */
  function Merged(a: Histogram, b: Histogram): Histogram
  {
    map x | x in a.Keys + b.Keys :: Count(a, x) + Count(b, x)
  }

  lemma MergedCommutes(a: Histogram, b: Histogram)
    ensures Merged(a, b) == Merged(b, a)
  {
  }

  /** `t` is exactly the sum of `a` and `b`, down to the multiset of paired effects. */
  ghost predicate SliceSum(t: Slice, a: Slice, b: Slice)
  {
    && t.n == a.n + b.n && t.labelled == a.labelled + b.labelled && t.temporal == a.temporal + b.temporal
    && multiset(t.effects) == multiset(a.effects) + multiset(b.effects)
    && TableSum(t.table, a.table, b.table)
    && t.table.byTypeOut == Merged(a.table.byTypeOut, b.table.byTypeOut)
    && t.table.byTypeIn == Merged(a.table.byTypeIn, b.table.byTypeIn)
  }

  lemma SumCommutes(t: Slice, a: Slice, b: Slice)
    requires SliceSum(t, a, b)
    ensures SliceSum(t, b, a)
  {
    MergedCommutes(a.table.byTypeOut, b.table.byTypeOut);
    MergedCommutes(a.table.byTypeIn, b.table.byTypeIn);
  }

  lemma {:induction false} MergedStays(a: Histogram, b: Histogram, ts: seq<string>)
    ensures BumpAll(Merged(a, b), ts) == Merged(BumpAll(a, ts), b)
  {
    if ts != [] {
      MergedStays(a, b, ts[..|ts| - 1]);
      MergedBump(BumpAll(a, ts[..|ts| - 1]), b, ts[|ts| - 1]);
    }
  }

  lemma MergedBump(a: Histogram, b: Histogram, t: string)
    ensures Bump(Merged(a, b), t) == Merged(Bump(a, t), b)
  {
    assert a.Keys + b.Keys + {t} == Bump(a, t).Keys + b.Keys;
  }

  lemma TableSumStays(t: Table, a: Table, b: Table, f: Facts)
    requires TableSum(t, a, b)
    ensures TableSum(Added(t, f), Added(a, f), b)
  {
  }

  /** Filing a case in the total and in one half keeps the sum. */
  lemma SumStays(t: Slice, a: Slice, b: Slice, c: Case)
    requires SliceSum(t, a, b)
    ensures SliceSum(Filed(t, c), Filed(a, c), b)
  {
    TableSumStays(t.table, a.table, b.table, c.facts);
    MergedStays(a.table.byTypeOut, b.table.byTypeOut, c.facts.out);
    MergedStays(a.table.byTypeIn, b.table.byTypeIn, c.facts.entered);
  }

  ghost predicate Partitions(total: string, a: string, b: string, c: Case)
  {
    && (total in c.keys <==> a in c.keys || b in c.keys)
    && !(a in c.keys && b in c.keys)
  }

  lemma SumStaysInHalf(t: Slice, a: Slice, b: Slice, c: Case, left: bool)
    requires SliceSum(t, a, b)
    ensures SliceSum(Filed(t, c), if left then Filed(a, c) else a, if left then b else Filed(b, c))
  {
    if left {
      SumStays(t, a, b, c);
    } else {
      SumCommutes(t, a, b);
      SumStays(t, b, a, c);
      SumCommutes(Filed(t, c), Filed(b, c), a);
    }
  }

  lemma SumStep(t: Slice, a: Slice, b: Slice, c: Case, total: string, left: string, right: string)
    requires SliceSum(t, a, b) && Partitions(total, left, right, c)
    ensures SliceSum(FiledIf(t, total, c), FiledIf(a, left, c), FiledIf(b, right, c))
  {
    if total in c.keys {
      SumStaysInHalf(t, a, b, c, left in c.keys);
    }
  }

  lemma EmptySum()
    ensures SliceSum(EMPTY_SLICE, EMPTY_SLICE, EMPTY_SLICE)
  {
    assert Merged(map[], map[]) == map[];
    ZeroSum(map[], EMPTY_TABLE, EMPTY_SLICE);
  }

  lemma ZeroSum(m: Histogram, t: Table, s: Slice)
    requires m == Merged(m, m) && t == Table(0, 0, 0, -1, 0, 0, false, 0, 0, m, m) && s == Slice(0, 0, 0, [], t)
    ensures SliceSum(s, s, s)
  {
  }

  ghost predicate AddUp(total: string, a: string, b: string, cases: seq<Case>)
  {
    SliceSum(Sliced(Under(total, cases)), Sliced(Under(a, cases)), Sliced(Under(b, cases)))
  }

  lemma HalvesStep(total: string, a: string, b: string, cases: seq<Case>)
    requires cases != []
    ensures AddUp(total, a, b, cases[..|cases| - 1]) && Partitions(total, a, b, cases[|cases| - 1]) ==>
              AddUp(total, a, b, cases)
  {
    var rest, c := cases[..|cases| - 1], cases[|cases| - 1];
    if AddUp(total, a, b, rest) && Partitions(total, a, b, c) {
      SumStep(Sliced(Under(total, rest)), Sliced(Under(a, rest)), Sliced(Under(b, rest)), c, total, a, b);
      UnderSnoc(total, cases);
      UnderSnoc(a, cases);
      UnderSnoc(b, cases);
    }
  }

  lemma EmptyUnder(key: string)
    ensures Sliced(Under(key, [])) == EMPTY_SLICE
  {
  }

  lemma SameSum(s: Slice, t: Slice, a: Slice, b: Slice)
    requires SliceSum(s, s, s) && t == s && a == s && b == s
    ensures SliceSum(t, a, b)
  {
  }

  lemma NothingAddsUp(total: string, a: string, b: string)
    ensures AddUp(total, a, b, [])
  {
    EmptyUnder(total);
    EmptyUnder(a);
    EmptyUnder(b);
    EmptySum();
    SameSum(EMPTY_SLICE, Sliced(Under(total, [])), Sliced(Under(a, [])), Sliced(Under(b, [])));
  }

  ghost predicate AllPartition(total: string, a: string, b: string, cases: seq<Case>)
  {
    forall c :: c in cases ==> Partitions(total, a, b, c)
  }

  lemma PartitionSnoc(total: string, a: string, b: string, cases: seq<Case>)
    requires AllPartition(total, a, b, cases) && cases != []
    ensures AllPartition(total, a, b, cases[..|cases| - 1]) && Partitions(total, a, b, cases[|cases| - 1])
  {
  }

  lemma {:induction false} HalvesAddUp(total: string, a: string, b: string, cases: seq<Case>)
    requires AllPartition(total, a, b, cases)
    ensures AddUp(total, a, b, cases)
  {
    if cases == [] {
      NothingAddsUp(total, a, b);
    } else {
      PartitionSnoc(total, a, b, cases);
      HalvesAddUp(total, a, b, cases[..|cases| - 1]);
      HalvesStep(total, a, b, cases);
    }
  }

  ghost predicate RunPartitions(setup: Setup, run: seq<seq<Record>>, total: string, a: string, b: string)
    requires AllAdmitted(setup, run)
  {
    forall i :: 0 <= i < |run| ==> Partitions(total, a, b, CaseOf(setup, run[i]))
  }

  lemma HalvesOfARun(setup: Setup, run: seq<seq<Record>>, total: string, a: string, b: string)
    requires AllAdmitted(setup, run)
    requires RunPartitions(setup, run, total, a, b)
    ensures SliceSum(SliceAt(Final(setup, run).slices, total), SliceAt(Final(setup, run).slices, a),
                     SliceAt(Final(setup, run).slices, b))
  {
    HalvesAddUp(total, a, b, CasesOf(setup, run));
    SlicesHoldTheirCases(setup, run, total);
    SlicesHoldTheirCases(setup, run, a);
    SlicesHoldTheirCases(setup, run, b);
  }

  lemma StampedCasePartitions(setup: Setup, cur: seq<Record>)
    requires Admitted(setup, cur) && setup.regimes != map[] && TwoRegimes(setup.regimes) && !NamedLikeAHalf(cur[0])
    ensures Partitions(SLICE_REAL, SLICE_REAL_LOCAL, SLICE_REAL_GLOBAL, CaseOf(setup, cur))
  {
    KeysOfStamped(cur[0], setup.regimes);
  }

  predicate IsImpostor(cur: seq<Record>)
  {
    cur != [] && NamedLikeAHalf(cur[0])
  }

  /** No case of the run comes from a slice that bears the name of a half. */
  predicate NoImpostor(run: seq<seq<Record>>)
  {
    forall i :: 0 <= i < |run| ==> !IsImpostor(run[i])
  }

  lemma RealRunPartitions(setup: Setup, run: seq<seq<Record>>)
    requires AllAdmitted(setup, run) && setup.regimes != map[] && TwoRegimes(setup.regimes)
    requires NoImpostor(run)
    ensures RunPartitions(setup, run, SLICE_REAL, SLICE_REAL_LOCAL, SLICE_REAL_GLOBAL)
  {
    forall i | 0 <= i < |run|
      ensures Partitions(SLICE_REAL, SLICE_REAL_LOCAL, SLICE_REAL_GLOBAL, CaseOf(setup, run[i]))
    {
      assert !IsImpostor(run[i]);
      StampedCasePartitions(setup, run[i]);
    }
  }

  /** How many cases of the run come from a slice that bears the name of a half. */
  function Impostors(run: seq<seq<Record>>): nat
  {
    if run == [] then 0
    else Impostors(run[..|run| - 1]) + (if IsImpostor(run[|run| - 1]) then 1 else 0)
  }

  /** Under an active split with the two labels, the G-REAL slice is exactly the sum of its halves. */
  lemma RealIsTheSumOfItsHalves(setup: Setup, run: seq<seq<Record>>)
    requires AllAdmitted(setup, run)
    requires setup.regimes != map[] && TwoRegimes(setup.regimes)
    requires NoImpostor(run)
    ensures SliceSum(SliceAt(Final(setup, run).slices, SLICE_REAL),
                     SliceAt(Final(setup, run).slices, SLICE_REAL_LOCAL),
                     SliceAt(Final(setup, run).slices, SLICE_REAL_GLOBAL))
  {
    RealRunPartitions(setup, run);
    HalvesOfARun(setup, run, SLICE_REAL, SLICE_REAL_LOCAL, SLICE_REAL_GLOBAL);
  }

  lemma OneCaseCounts(setup: Setup, cur: seq<Record>)
    requires Admitted(setup, cur) && setup.regimes != map[] && TwoRegimes(setup.regimes)
    ensures var keys := CaseOf(setup, cur).keys;
            (if SLICE_REAL_LOCAL in keys then 1 else 0) + (if SLICE_REAL_GLOBAL in keys then 1 else 0)
            == (if SLICE_REAL in keys then 1 else 0) + (if IsImpostor(cur) then 1 else 0)
  {
    KeysOfStamped(cur[0], setup.regimes);
    Names();
  }

  lemma {:induction false} HalvesCount(setup: Setup, run: seq<seq<Record>>)
    requires AllAdmitted(setup, run) && setup.regimes != map[] && TwoRegimes(setup.regimes)
    ensures var cases := CasesOf(setup, run);
            |Under(SLICE_REAL_LOCAL, cases)| + |Under(SLICE_REAL_GLOBAL, cases)|
              == |Under(SLICE_REAL, cases)| + Impostors(run)
  {
    if run != [] {
      HalvesCount(setup, run[..|run| - 1]);
      OneCaseCounts(setup, run[|run| - 1]);
      CasesSnoc(setup, run);
      UnderSnoc(SLICE_REAL, CasesOf(setup, run));
      UnderSnoc(SLICE_REAL_LOCAL, CasesOf(setup, run));
      UnderSnoc(SLICE_REAL_GLOBAL, CasesOf(setup, run));
    }
  }

  /** The halves count as many cases as the total exactly when no slice of the dumps bears the name of a half. */
  lemma HalvesCountTheTotalIff(setup: Setup, run: seq<seq<Record>>)
    requires AllAdmitted(setup, run)
    requires setup.regimes != map[] && TwoRegimes(setup.regimes)
    ensures var slices := Final(setup, run).slices;
            SliceAt(slices, SLICE_REAL_LOCAL).n + SliceAt(slices, SLICE_REAL_GLOBAL).n == SliceAt(slices, SLICE_REAL).n
            <==> NoImpostor(run)
  {
    var cases := CasesOf(setup, run);
    SlicesHoldTheirCases(setup, run, SLICE_REAL);
    SlicesHoldTheirCases(setup, run, SLICE_REAL_LOCAL);
    SlicesHoldTheirCases(setup, run, SLICE_REAL_GLOBAL);
    TableOfSlice(Under(SLICE_REAL, cases));
    TableOfSlice(Under(SLICE_REAL_LOCAL, cases));
    TableOfSlice(Under(SLICE_REAL_GLOBAL, cases));
    HalvesCount(setup, run);
    NoImpostors(run);
  }

  lemma {:induction false} NoImpostors(run: seq<seq<Record>>)
    ensures Impostors(run) == 0 <==> NoImpostor(run)
  {
    if run != [] {
      var rest := run[..|run| - 1];
      NoImpostors(rest);
      assert forall i :: 0 <= i < |rest| ==> rest[i] == run[i];
    }
  }

  // ---------------------------------------------------------------- the planner settings of a campaign

  lemma {:induction false} DigitsAreDigits(n: nat)
    ensures |Digits(n)| > 0 && forall i :: 0 <= i < |Digits(n)| ==> '0' <= Digits(n)[i] <= '9'
  {
    if n >= 10 {
      DigitsAreDigits(n / 10);
    }
  }

  lemma {:induction false} DigitsInjective(m: nat, n: nat)
    requires Digits(m) == Digits(n)
    ensures m == n
  {
    var a, b := Digits(m), Digits(n);
    assert a[|a| - 1] == ('0' as int + m % 10) as char && b[|b| - 1] == ('0' as int + n % 10) as char;
    if m >= 10 {
      DigitsAreDigits(m / 10);
    }
    if n >= 10 {
      DigitsAreDigits(n / 10);
    }
    if m >= 10 && n >= 10 {
      assert a[..|a| - 1] == Digits(m / 10) && b[..|b| - 1] == Digits(n / 10);
      DigitsInjective(m / 10, n / 10);
    }
  }

  lemma DecimalHead(n: int)
    ensures Decimal(n) != []
    ensures if n < 0 then Decimal(n)[0] == '-' else '0' <= Decimal(n)[0] <= '9'
  {
    DigitsAreDigits(if n < 0 then -n else n);
  }

  lemma DecimalInjective(m: int, n: int)
    requires Decimal(m) == Decimal(n)
    ensures m == n
  {
    DecimalHead(m);
    DecimalHead(n);
    if m < 0 && n < 0 {
      assert Decimal(m)[1..] == Digits(-m) && Decimal(n)[1..] == Digits(-n);
      DigitsInjective(-m, -n);
    } else if m >= 0 && n >= 0 {
      DigitsInjective(m, n);
    }
  }

  lemma DecimalIsSet(n: int)
    ensures Decimal(n) != "unset"
  {
    DecimalHead(n);
    assert "unset"[0] == 'u';
  }

  /**
   The settings are compared as printed, and still agree exactly when the records took the same path with the
   same limit.
   */
  lemma GucsAgreeIff(a: Record, b: Record)
    ensures GucOf(a) == GucOf(b) <==>
            && (a.selector.mode == "ann" <==> b.selector.mode == "ann")
            && (a.selector.mode == "ann" ==> a.selector.scanTuples == b.selector.scanTuples)
  {
    var x, y := a.selector.scanTuples, b.selector.scanTuples;
    if x.Some? {
      DecimalIsSet(x.value);
    }
    if y.Some? {
      DecimalIsSet(y.value);
    }
    if x.Some? && y.Some? && Decimal(x.value) == Decimal(y.value) {
      DecimalInjective(x.value, y.value);
    }
  }

  /** What a report prints as the settings of the campaign are those of its first paired case. */
  lemma {:induction false} GucIsOfTheFirstCase(setup: Setup, run: seq<seq<Record>>)
    requires AllAdmitted(setup, run)
    ensures Final(setup, run).guc == if run == [] then None else Some(GucOf(run[0][0]))
  {
    if run != [] {
      GucIsOfTheFirstCase(setup, run[..|run| - 1]);
      LastCaseFiled(setup, run);
    }
  }

  /** Two records that took the same path with the same limit. */
  predicate SamePath(a: Record, b: Record)
  {
    (a.selector.mode == "ann" <==> b.selector.mode == "ann")
    && (a.selector.mode == "ann" ==> a.selector.scanTuples == b.selector.scanTuples)
  }

  /** They describe every case of the campaign exactly when all bases took the path of the first one. */
  lemma GucDescribesTheCampaignIff(setup: Setup, run: seq<seq<Record>>)
    requires AllAdmitted(setup, run) && run != []
    ensures (forall i :: 0 <= i < |run| ==> Final(setup, run).guc == Some(GucOf(run[i][0])))
            <==> (forall i :: 0 <= i < |run| ==> SamePath(run[0][0], run[i][0]))
  {
    GucIsOfTheFirstCase(setup, run);
    forall i | 0 <= i < |run| ensures GucOf(run[0][0]) == GucOf(run[i][0]) <==> SamePath(run[0][0], run[i][0]) {
      GucsAgreeIff(run[0][0], run[i][0]);
    }
  }

  // ---------------------------------------------------------------- campaigns that break the two claims

  lemma {:induction false} LessBehind(prefix: string, a: string, b: string)
    ensures Less(prefix + a, prefix + b) <==> Less(a, b)
  {
    if prefix == [] {
      assert prefix + a == a && prefix + b == b;
    } else {
      assert (prefix + a)[1..] == prefix[1..] + a && (prefix + b)[1..] == prefix[1..] + b;
      LessBehind(prefix[1..], a, b);
    }
  }

  /** Two cases of one slice with the indices 0 and 1 ascend. */
  lemma KeysAscend(a: Record, b: Record)
    requires a.slice == b.slice && a.index == 0 && b.index == 1
    ensures Less(CaseKey(a), CaseKey(b))
  {
    var x, y := "0" + "/" + a.querySha, "1" + "/" + b.querySha;
    assert Decimal(0) == "0" && Decimal(1) == "1";
    assert CaseKey(a) == (a.slice + "/") + x && CaseKey(b) == (a.slice + "/") + y;
    assert x[0] == '0' && y[0] == '1';
    LessBehind(a.slice + "/", x, y);
  }

  /** Four dumps of the same records, as the walk reads them. */
  function FourDumps(records: seq<Record>): seq<seq<Item>>
  {
    StreamMerge.Repeated(ItemsOf(records), 4)
  }

  lemma FourDumpsPair(records: seq<Record>)
    requires forall i, j :: 0 <= i < j < |records| ==> Less(CaseKey(records[i]), CaseKey(records[j]))
    ensures StreamMerge.AllSorted(FourDumps(records))
    ensures var run := StreamMerge.Pairs(FourDumps(records));
            |run| == |records| && forall i :: 0 <= i < |records| ==> run[i] == StreamMerge.Repeated(records[i], 4)
  {
    var d := ItemsOf(records);
    assert StreamMerge.SortedDump(d);
    assert d[..|d|] == d;
    StreamMerge.PairsOfCopies(d, 4, |d|);
  }

  lemma CopyIsAdmitted(setup: Setup, rec: Record)
    requires !setup.delivered && StampRegime(rec, setup.regimes).Some?
    ensures Admitted(setup, StreamMerge.Repeated(rec, 4))
  {
  }

  /**
   They need not describe the later cases: four sorted dumps with two cases, measured on different paths,
   that are paired and admitted, although a report prints the settings of the first.
   */
  lemma MixedCampaignPasses(setup: Setup, rec: Record)
    requires setup.regimes == map[] && !setup.delivered
    ensures var a := rec.(index := 0, selector := Selector("ann", None));
            var b := rec.(index := 1, selector := Selector("exact", None));
            var run := StreamMerge.Pairs(FourDumps([a, b]));
            && StreamMerge.AllSorted(FourDumps([a, b])) && AllAdmitted(setup, run)
            && |run| == 2 && run[1][0] == b && Final(setup, run).guc == Some(GucOf(a)) && GucOf(a) != GucOf(b)
  {
    var a := rec.(index := 0, selector := Selector("ann", None));
    var b := rec.(index := 1, selector := Selector("exact", None));
    KeysAscend(a, b);
    FourDumpsPair([a, b]);
    CopyIsAdmitted(setup, a);
    CopyIsAdmitted(setup, b);
    GucIsOfTheFirstCase(setup, StreamMerge.Pairs(FourDumps([a, b])));
    assert "relaxed_order"[0] != "unset"[0];
  }

  /** A case from a slice that bears the name of a half is counted in the half and not in the total. */
  lemma ImpostorBreaksTheCount(setup: Setup, rec: Record)
    requires setup.regimes != map[] && TwoRegimes(setup.regimes) && !setup.delivered
    ensures var run := StreamMerge.Pairs(FourDumps([rec.(slice := SLICE_REAL_LOCAL)]));
            && StreamMerge.AllSorted(FourDumps([rec.(slice := SLICE_REAL_LOCAL)])) && AllAdmitted(setup, run)
            && var all := Final(setup, run).slices;
               SliceAt(all, SLICE_REAL_LOCAL).n + SliceAt(all, SLICE_REAL_GLOBAL).n != SliceAt(all, SLICE_REAL).n
  {
    var r := rec.(slice := SLICE_REAL_LOCAL);
    Names();
    FourDumpsPair([r]);
    CopyIsAdmitted(setup, r);
    var run := StreamMerge.Pairs(FourDumps([r]));
    HalvesCountTheTotalIff(setup, run);
    assert IsImpostor(run[0]);
  }

  // ---------------------------------------------------------------- what a slice says, read off the records

  /** The keys of a record: G-Q by its split, G-REAL also by its regime, everything else by its slice. */
  lemma KeysMeaning(rec: Record)
    ensures rec.slice == "G-Q" && rec.split != "" ==> SliceKeysOf(rec) == ["G-Q" + "-" + rec.split]
    ensures rec.slice == "G-REAL" && rec.regime != "" ==> SliceKeysOf(rec) == ["G-REAL", "G-REAL" + "-" + rec.regime]
    ensures !(rec.slice == "G-Q" && rec.split != "") && !(rec.slice == "G-REAL" && rec.regime != "") ==>
              SliceKeysOf(rec) == [rec.slice]
  {
    Names();
  }

  /** Stamping fills in the label of a G-REAL record and refuses one without a label; it changes nothing else. */
  lemma StampMeaning(rec: Record, regimes: map<string, string>)
    ensures StampRegime(rec, regimes).None? <==> regimes != map[] && rec.slice == "G-REAL" && rec.querySha !in regimes
    ensures regimes != map[] && rec.slice == "G-REAL" && rec.querySha in regimes ==>
              StampRegime(rec, regimes) == Some(rec.(regime := regimes[rec.querySha]))
    ensures regimes == map[] || rec.slice != "G-REAL" ==> StampRegime(rec, regimes) == Some(rec)
  {
  }

  /** Which cases are admitted. */
  lemma AdmittedIff(setup: Setup, cur: seq<Record>)
    requires |cur| == 4
    ensures Admitted(setup, cur) <==>
            && (forall i :: 1 <= i < 4 ==> SamePath(cur[0], cur[i]) && cur[0].goldIds == cur[i].goldIds)
            && (setup.delivered ==> forall i :: 0 <= i < 4 ==> cur[i].delivered != [] || cur[i].rows == [])
            && !(setup.regimes != map[] && cur[0].slice == "G-REAL" && cur[0].querySha !in setup.regimes)
  {
    forall i | 1 <= i < 4 ensures GucOf(cur[0]) == GucOf(cur[i]) <==> SamePath(cur[0], cur[i]) {
      GucsAgreeIff(cur[0], cur[i]);
    }
    StampMeaning(cur[0], setup.regimes);
  }

  /** The base record as it is scored: with its regime filled in. */
  function Stamped(setup: Setup, rec: Record): Record
  {
    if setup.regimes != map[] && rec.slice == "G-REAL" && rec.querySha in setup.regimes then
      rec.(regime := setup.regimes[rec.querySha])
    else rec
  }

  /** The cases of a run that are filed under the key, in order. */
  function FiledUnderKey(setup: Setup, run: seq<seq<Record>>, key: string): seq<seq<Record>>
  {
    if run == [] then []
    else
      var cur := run[|run| - 1];
      FiledUnderKey(setup, run[..|run| - 1], key)
      + if cur != [] && key in SliceKeysOf(Stamped(setup, cur[0])) then [cur] else []
  }

  /**
   The effect is that of the case: condition minus base, hits of base and condition, replicate B minus
   replicate A.
   */
  ghost predicate SaysOf(setup: Setup, e: Effect, cur: seq<Record>)
    requires |cur| == 4
  {
    var base, cond := setup.score(Stamped(setup, cur[0])), setup.score(cur[1]);
    var a, b := setup.score(cur[2]), setup.score(cur[3]);
    && e.dNdcg == cond.ndcg10 - base.ndcg10 && e.dRecall == cond.recall5 - base.recall5
    && e.dMrr == cond.mrr10 - base.mrr10
    && e.baseHit == base.hit5 && e.condHit == cond.hit5
    && e.noiseDelta == b.ndcg10 - a.ndcg10 && e.noiseAHit == a.hit5 && e.noiseBHit == b.hit5
  }

  lemma CaseSays(setup: Setup, cur: seq<Record>)
    requires Admitted(setup, cur)
    ensures var c := CaseOf(setup, cur);
            && c.keys == SliceKeysOf(Stamped(setup, cur[0])) && SaysOf(setup, c.effect, cur)
            && c.labelled == (cur[0].goldIds != []) && c.temporal == (cur[0].effectiveTemporal != "")
            && c.facts == FactsOf(WindowsOf(cur[0], cur[1], setup.delivered), setup.shadow)
  {
    StampMeaning(cur[0], setup.regimes);
  }

  ghost predicate IsCaseOf(setup: Setup, c: Case, cur: seq<Record>)
  {
    Admitted(setup, cur) && c == CaseOf(setup, cur)
  }

  /** The cases under a key correspond to the tuples filed there. */
  ghost predicate Matches(setup: Setup, cases: seq<Case>, filed: seq<seq<Record>>)
  {
    |cases| == |filed| && forall i :: 0 <= i < |filed| ==> IsCaseOf(setup, cases[i], filed[i])
  }

  lemma MatchesSnoc(setup: Setup, cases: seq<Case>, filed: seq<seq<Record>>, c: Case, cur: seq<Record>)
    requires Matches(setup, cases, filed) && IsCaseOf(setup, c, cur)
    ensures Matches(setup, cases + [c], filed + [cur])
  {
  }

  lemma SameKeys(setup: Setup, cur: seq<Record>, key: string)
    requires Admitted(setup, cur)
    ensures key in CaseOf(setup, cur).keys <==> cur != [] && key in SliceKeysOf(Stamped(setup, cur[0]))
  {
    CaseSays(setup, cur);
  }

  lemma UnderLast(key: string, cases: seq<Case>, rest: seq<Case>, c: Case)
    requires cases != [] && cases[..|cases| - 1] == rest && cases[|cases| - 1] == c
    ensures Under(key, cases) == if key in c.keys then Under(key, rest) + [c] else Under(key, rest)
  {
  }

  lemma FiledLast(setup: Setup, run: seq<seq<Record>>, key: string)
    requires run != []
    ensures var rest, cur := run[..|run| - 1], run[|run| - 1];
            FiledUnderKey(setup, run, key) ==
            if cur != [] && key in SliceKeysOf(Stamped(setup, cur[0])) then FiledUnderKey(setup, rest, key) + [cur]
            else FiledUnderKey(setup, rest, key)
  {
  }

  lemma {:induction false} UnderMatches(setup: Setup, run: seq<seq<Record>>, key: string)
    requires AllAdmitted(setup, run)
    ensures Matches(setup, Under(key, CasesOf(setup, run)), FiledUnderKey(setup, run, key))
  {
    if run != [] {
      var rest, cur := run[..|run| - 1], run[|run| - 1];
      var cases, c := CasesOf(setup, rest), CaseOf(setup, cur);
      UnderMatches(setup, rest, key);
      CasesSnoc(setup, run);
      UnderLast(key, CasesOf(setup, run), cases, c);
      FiledLast(setup, run, key);
      SameKeys(setup, cur, key);
      MatchesSnoc(setup, Under(key, cases), FiledUnderKey(setup, rest, key), c, cur);
    }
  }

  lemma {:induction false} EffectsOf(cases: seq<Case>)
    ensures |Sliced(cases).effects| == |cases| &&
            forall i :: 0 <= i < |cases| ==> Sliced(cases).effects[i] == cases[i].effect
  {
    if cases != [] {
      EffectsOf(cases[..|cases| - 1]);
    }
  }

  /** After every run the i-th effect of a slice is that of the i-th case filed there. */
  lemma EffectsSayWhatWasMeasured(setup: Setup, run: seq<seq<Record>>, key: string)
    requires AllAdmitted(setup, run)
    ensures var effects, filed := SliceAt(Final(setup, run).slices, key).effects, FiledUnderKey(setup, run, key);
            |effects| == |filed| &&
            forall i :: 0 <= i < |filed| ==> |filed[i]| == 4 && SaysOf(setup, effects[i], filed[i])
  {
    var cases, filed := Under(key, CasesOf(setup, run)), FiledUnderKey(setup, run, key);
    SlicesHoldTheirCases(setup, run, key);
    UnderMatches(setup, run, key);
    EffectsOf(cases);
    forall i | 0 <= i < |filed| ensures |filed[i]| == 4 && SaysOf(setup, cases[i].effect, filed[i]) {
      assert IsCaseOf(setup, cases[i], filed[i]);
      CaseSays(setup, filed[i]);
    }
  }

  /** The measured figure of each case, added up. */
  ghost function AddedUp<T>(f: T -> real, s: seq<T>): real
  {
    if s == [] then 0.0 else AddedUp(f, s[..|s| - 1]) + f(s[|s| - 1])
  }

  lemma {:induction false} TotalsDiffer<T(!new), U(!new)>(f: T -> real, g: U -> real, h: U -> real, s: seq<T>,
                                                          u: seq<U>)
    requires |s| == |u| && forall i :: 0 <= i < |u| ==> f(s[i]) == h(u[i]) - g(u[i])
    ensures AddedUp(f, s) + AddedUp(g, u) == AddedUp(h, u)
  {
    if u != [] {
      TotalsDiffer(f, g, h, s[..|s| - 1], u[..|u| - 1]);
    }
  }

  /** The score of a tuple's base, of its condition and of its replicates under a metric. */
  ghost function BaseScore(setup: Setup, metric: CaseScore -> real): seq<Record> -> real
  {
    (cur: seq<Record>) => if cur == [] then 0.0 else metric(setup.score(Stamped(setup, cur[0])))
  }

  ghost function PartnerScore(setup: Setup, metric: CaseScore -> real, k: nat): seq<Record> -> real
  {
    (cur: seq<Record>) => if |cur| <= k then 0.0 else metric(setup.score(cur[k]))
  }

  function Ndcg(): CaseScore -> real { (s: CaseScore) => s.ndcg10 }
  function Recall(): CaseScore -> real { (s: CaseScore) => s.recall5 }
  function Mrr(): CaseScore -> real { (s: CaseScore) => s.mrr10 }

  /**
   In every slice, the effects and the base scores together make the condition scores, and likewise for the
   replicates.
   */
  lemma EffectsAddUpToTheCondition(setup: Setup, run: seq<seq<Record>>, key: string)
    requires AllAdmitted(setup, run)
    ensures var effects, filed := SliceAt(Final(setup, run).slices, key).effects, FiledUnderKey(setup, run, key);
            && AddedUp((e: Effect) => e.dNdcg, effects) + AddedUp(BaseScore(setup, Ndcg()), filed)
               == AddedUp(PartnerScore(setup, Ndcg(), 1), filed)
            && AddedUp((e: Effect) => e.dRecall, effects) + AddedUp(BaseScore(setup, Recall()), filed)
               == AddedUp(PartnerScore(setup, Recall(), 1), filed)
            && AddedUp((e: Effect) => e.dMrr, effects) + AddedUp(BaseScore(setup, Mrr()), filed)
               == AddedUp(PartnerScore(setup, Mrr(), 1), filed)
            && AddedUp((e: Effect) => e.noiseDelta, effects) + AddedUp(PartnerScore(setup, Ndcg(), 2), filed)
               == AddedUp(PartnerScore(setup, Ndcg(), 3), filed)
  {
    var effects, filed := SliceAt(Final(setup, run).slices, key).effects, FiledUnderKey(setup, run, key);
    EffectsSayWhatWasMeasured(setup, run, key);
    TotalsDiffer((e: Effect) => e.dNdcg, BaseScore(setup, Ndcg()), PartnerScore(setup, Ndcg(), 1), effects, filed);
    TotalsDiffer((e: Effect) => e.dRecall, BaseScore(setup, Recall()), PartnerScore(setup, Recall(), 1), effects,
                 filed);
    TotalsDiffer((e: Effect) => e.dMrr, BaseScore(setup, Mrr()), PartnerScore(setup, Mrr(), 1), effects, filed);
    TotalsDiffer((e: Effect) => e.noiseDelta, PartnerScore(setup, Ndcg(), 2), PartnerScore(setup, Ndcg(), 3), effects,
                 filed);
  }

  function Tally<T>(p: T -> bool, s: seq<T>): nat
  {
    if s == [] then 0 else Tally(p, s[..|s| - 1]) + (if p(s[|s| - 1]) then 1 else 0)
  }

  function Judged(): seq<Record> -> bool { (cur: seq<Record>) => cur != [] && cur[0].goldIds != [] }
  function Dated(): seq<Record> -> bool { (cur: seq<Record>) => cur != [] && cur[0].effectiveTemporal != "" }

  function FactsAmong(setup: Setup, filed: seq<seq<Record>>): seq<Facts>
    requires forall i :: 0 <= i < |filed| ==> |filed[i]| == 4
  {
    seq(|filed|,
        i requires 0 <= i < |filed| => FactsOf(WindowsOf(filed[i][0], filed[i][1], setup.delivered), setup.shadow))
  }

  lemma {:induction false} CountersOf(cases: seq<Case>, filed: seq<seq<Record>>)
    requires |cases| == |filed|
    requires forall i :: 0 <= i < |filed| ==>
               cases[i].labelled == Judged()(filed[i]) && cases[i].temporal == Dated()(filed[i])
    ensures Sliced(cases).n == |filed| && Sliced(cases).labelled == Tally(Judged(), filed)
    ensures Sliced(cases).temporal == Tally(Dated(), filed)
  {
    if filed != [] {
      CountersOf(cases[..|cases| - 1], filed[..|filed| - 1]);
    }
  }

  lemma MatchedFlags(setup: Setup, c: Case, cur: seq<Record>)
    requires IsCaseOf(setup, c, cur)
    ensures |cur| == 4 && c.labelled == Judged()(cur) && c.temporal == Dated()(cur)
    ensures c.facts == FactsOf(WindowsOf(cur[0], cur[1], setup.delivered), setup.shadow)
  {
    CaseSays(setup, cur);
  }

  lemma MatchedFacts(setup: Setup, cases: seq<Case>, filed: seq<seq<Record>>)
    requires Matches(setup, cases, filed)
    ensures (forall i :: 0 <= i < |filed| ==> |filed[i]| == 4) && FactsIn(cases) == FactsAmong(setup, filed)
    ensures forall i :: 0 <= i < |filed| ==>
              cases[i].labelled == Judged()(filed[i]) && cases[i].temporal == Dated()(filed[i])
  {
    forall i | 0 <= i < |filed|
      ensures |filed[i]| == 4
      ensures cases[i].labelled == Judged()(filed[i]) && cases[i].temporal == Dated()(filed[i])
      ensures cases[i].facts == FactsOf(WindowsOf(filed[i][0], filed[i][1], setup.delivered), setup.shadow)
    {
      MatchedFlags(setup, cases[i], filed[i]);
    }
  }

  /** A slice counts its cases, those with gold ids and those with a date, and tables the facts of their two windows. */
  lemma CountersSayWhatWasFiled(setup: Setup, run: seq<seq<Record>>, key: string)
    requires AllAdmitted(setup, run)
    ensures var slice, filed := SliceAt(Final(setup, run).slices, key), FiledUnderKey(setup, run, key);
            && slice.n == |filed| && slice.labelled == Tally(Judged(), filed) && slice.temporal == Tally(Dated(), filed)
            && (forall i :: 0 <= i < |filed| ==> |filed[i]| == 4) && slice.table == Tabled(FactsAmong(setup, filed))
  {
    var cases, filed := Under(key, CasesOf(setup, run)), FiledUnderKey(setup, run, key);
    SlicesHoldTheirCases(setup, run, key);
    UnderMatches(setup, run, key);
    MatchedFacts(setup, cases, filed);
    CountersOf(cases, filed);
    TableOfSlice(cases);
  }

  lemma {:induction false} LongestIsMaximum(m: nat, cur: seq<Record>)
    ensures m <= Longest(m, cur) && forall i :: 0 <= i < |cur| ==> |cur[i].delivered| <= Longest(m, cur)
    ensures Longest(m, cur) == m || exists i :: 0 <= i < |cur| && |cur[i].delivered| == Longest(m, cur)
  {
    if cur != [] {
      LongestIsMaximum(m, cur[..|cur| - 1]);
    }
  }

  lemma DeliveredMaxSnoc(setup: Setup, run: seq<seq<Record>>)
    requires AllAdmitted(setup, run) && run != []
    ensures var before := Final(setup, run[..|run| - 1]).deliveredMax;
            Final(setup, run).deliveredMax == if setup.delivered then Longest(before, run[|run| - 1]) else before
  {
    LastCaseFiled(setup, run);
  }

  /** No delivered window of the case is longer. */
  predicate Covers(m: nat, cur: seq<Record>)
  {
    forall k :: 0 <= k < |cur| ==> |cur[k].delivered| <= m
  }

  predicate Attains(m: nat, cur: seq<Record>)
  {
    exists k :: 0 <= k < |cur| && |cur[k].delivered| == m
  }

  ghost predicate IsLongest(m: nat, delivered: bool, run: seq<seq<Record>>)
  {
    && (!delivered ==> m == 0)
    && (delivered ==> forall i :: 0 <= i < |run| ==> Covers(m, run[i]))
    && (m == 0 || exists i :: 0 <= i < |run| && Attains(m, run[i]))
  }

  lemma LongestSnoc(before: nat, delivered: bool, rest: seq<seq<Record>>, cur: seq<Record>)
    requires IsLongest(before, delivered, rest)
    ensures IsLongest(if delivered then Longest(before, cur) else before, delivered, rest + [cur])
  {
    var run, m := rest + [cur], if delivered then Longest(before, cur) else before;
    LongestIsMaximum(before, cur);
    forall i | 0 <= i < |run| && delivered ensures Covers(m, run[i]) {
      assert i < |rest| ==> Covers(before, rest[i]);
    }
    if m == before && m != 0 {
      var i :| 0 <= i < |rest| && Attains(before, rest[i]);
      assert Attains(m, run[i]);
    } else if m != before {
      assert Attains(m, run[|rest|]);
    }
  }

  /** The longest delivered window of a run, zero on the other basis. */
  function LongestOf(delivered: bool, run: seq<seq<Record>>): nat
  {
    if run == [] || !delivered then 0 else Longest(LongestOf(delivered, run[..|run| - 1]), run[|run| - 1])
  }

  lemma {:induction false} LongestOfIsLongest(delivered: bool, run: seq<seq<Record>>)
    ensures IsLongest(LongestOf(delivered, run), delivered, run)
  {
    if run != [] {
      var rest, cur := run[..|run| - 1], run[|run| - 1];
      LongestOfIsLongest(delivered, rest);
      LongestSnoc(LongestOf(delivered, rest), delivered, rest, cur);
      assert rest + [cur] == run;
    }
  }

  lemma {:induction false} DeliveredMaxOf(setup: Setup, run: seq<seq<Record>>)
    requires AllAdmitted(setup, run)
    ensures Final(setup, run).deliveredMax == LongestOf(setup.delivered, run)
  {
    if run != [] {
      DeliveredMaxOf(setup, run[..|run| - 1]);
      DeliveredMaxSnoc(setup, run);
    }
  }

  /** On the delivered basis the length of the longest window of the run is kept, on the other basis none. */
  lemma DeliveredMaxIsMaximum(setup: Setup, run: seq<seq<Record>>)
    requires AllAdmitted(setup, run)
    ensures IsLongest(Final(setup, run).deliveredMax, setup.delivered, run)
  {
    DeliveredMaxOf(setup, run);
    LongestOfIsLongest(setup.delivered, run);
  }

  // ---------------------------------------------------------------- the whole comparison

  /** Walks four dumps and folds their paired cases. */
  method CompareDumps(setup: Setup, dumps: seq<seq<Item>>) returns (r: StreamMerge.Outcome<Acc>)
    requires |dumps| == 4
    ensures r.Folded? <==> StreamMerge.AllSorted(dumps) && AllAdmitted(setup, StreamMerge.Pairs(dumps))
    ensures r.Folded? ==> StreamMerge.Complete(dumps, r.counts)
    ensures r.Folded? ==> r.acc == Final(setup, StreamMerge.Pairs(dumps))
    ensures r.Folded? ==>
              forall key :: SliceAt(r.acc.slices, key) == Sliced(Under(key, CasesOf(setup, StreamMerge.Pairs(dumps))))
  {
    r := StreamMerge.StreamPairs(dumps, FoldBy(setup), EMPTY_ACC);
    ghost var run := StreamMerge.Pairs(dumps);
    RunIsAdmitted(setup, run);
    if r.Folded? {
      forall key ensures SliceAt(r.acc.slices, key) == Sliced(Under(key, CasesOf(setup, run))) {
        SlicesHoldTheirCases(setup, run, key);
      }
    }
  }
}
