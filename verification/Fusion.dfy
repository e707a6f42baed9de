/**
 The offline re-fusion of a dump (go/internal/armsweep/fuse.go, configs.go), over the reals.
 */
module Fusion {
  import opened Options
  import opened Ordering
  import opened Dumps

  datatype Weights = Weights(semantic: real, ftsDe: real, ftsEn: real, trigram: real)

  /** The reciprocal-rank constant is never negative. */
  type Constant = k: real | 0.0 <= k witness 60.0

  datatype Config = Config(weights: Weights, k: Constant, damping: map<string, real>, mergeFts: bool,
                           factorsOutside: bool)

  datatype Fused = Fused(id: string, score: real)

  const LIVE_K: Constant := 60.0
  const LIVE_WEIGHTS: Weights := Weights(0.45, 0.20, 0.25, 0.10)
  const V0: Config := Config(LIVE_WEIGHTS, LIVE_K, map[], false, false)

  // ---------------------------------------------------------------- the score of one candidate

  function Recip(rank: Option<Rank>, k: Constant): real
  {
    if rank.None? then 0.0 else 1.0 / (k + rank.value as real)
  }

  function MinRank(a: Option<Rank>, b: Option<Rank>): Option<Rank>
  {
    if a.None? then b else if b.None? then a else if b.value < a.value then b else a
  }

  function TypeFactor(row: ArmRow, cfg: Config): real
  {
    if cfg.damping == map[] || row.typeName == "" then row.typeFactor
    else if row.typeName in cfg.damping then cfg.damping[row.typeName]
    else row.typeFactor
  }

  /** What an arm contributes: its weight and the reciprocal of its rank. */
  datatype Arm = Arm(weight: real, recip: real)

  /** The arms in the order of the terms: semantic, German text, English text, trigram. */
  function ArmList(w: Weights, merge: bool, sem: real, de: real, en: real, merged: real, tri: real): seq<Arm>
  {
    if merge then [Arm(w.semantic, sem), Arm(w.ftsDe, merged), Arm(0.0, 0.0), Arm(w.trigram, tri)]
    else [Arm(w.semantic, sem), Arm(w.ftsDe, de), Arm(w.ftsEn, en), Arm(w.trigram, tri)]
  }

  function ArmsOf(row: ArmRow, cfg: Config): seq<Arm>
  {
    ArmList(cfg.weights, cfg.mergeFts, Recip(row.rankSemantic, cfg.k), Recip(row.rankFtsDe, cfg.k),
            Recip(row.rankFtsEn, cfg.k),
            Recip(MinRank(row.rankFtsDe, row.rankFtsEn), cfg.k), Recip(row.rankTrigram, cfg.k))
  }

  function Sum(arms: seq<Arm>): real
  {
    if arms == [] then 0.0 else arms[0].weight * arms[0].recip + Sum(arms[1..])
  }

  function SumOfScaled(arms: seq<Arm>, mt: real): real
  {
    if arms == [] then 0.0 else arms[0].weight * mt * arms[0].recip + SumOfScaled(arms[1..], mt)
  }

  /** Multiplies mass and type onto the sum, or onto each of its terms. */
  function Weigh(mass: real, tf: real, arms: seq<Arm>, outside: bool): real
  {
    if outside then mass * tf * Sum(arms) else SumOfScaled(arms, mass * tf)
  }

  function Score(row: ArmRow, cfg: Config): real
  {
    Weigh(row.massFactor, TypeFactor(row, cfg), ArmsOf(row, cfg), cfg.factorsOutside)
  }

  // ---------------------------------------------------------------- the fusion

  function FusedBy(cfg: Config): (r: ArmRow -> Fused)
    ensures forall row :: r(row) == Fused(row.id, Score(row, cfg))
  {
    (row: ArmRow) => Fused(row.id, Score(row, cfg))
  }

  /** Score descending, id ascending. */
  predicate Before(x: Fused, y: Fused)
  {
    if x.score != y.score then x.score > y.score else Less(x.id, y.id)
  }

  function Scored(rows: seq<ArmRow>, cfg: Config): seq<Fused>
  {
    Map(FusedBy(cfg), rows)
  }

  function Fuse(rows: seq<ArmRow>, cfg: Config): seq<Fused>
  {
    StableSort(Before, Scored(rows, cfg))
  }

  /** Fills a list row by row and sorts it. */
  method FuseRows(rows: seq<ArmRow>, cfg: Config) returns (out: seq<Fused>)
    ensures out == Fuse(rows, cfg)
  {
    out := [];
    for i := 0 to |rows|
      invariant |out| == i
      invariant forall j :: 0 <= j < i ==> out[j] == FusedBy(cfg)(rows[j])
    {
      out := out + [Fused(rows[i].id, Score(rows[i], cfg))];
    }
    assert out == Scored(rows, cfg);
    out := StableSort(Before, out);
  }

  function FusedIds(fused: seq<Fused>): (r: seq<string>)
    ensures |r| == |fused|
    ensures forall i :: 0 <= i < |fused| ==> r[i] == fused[i].id
  {
    seq(|fused|, i requires 0 <= i < |fused| => fused[i].id)
  }

  lemma BeforeIsTotal()
    ensures StrictWeakOrder(Before)
    ensures forall x, y {:trigger Before(x, y)} :: x != y ==> Before(x, y) || Before(y, x)
  {
    LessIsStrictTotalOrder();
  }

  /** No two different entries tie, so there is only one way to sort them. */
  lemma FusionIsUnique(rows: seq<ArmRow>, cfg: Config, out: seq<Fused>)
    requires multiset(out) == multiset(Scored(rows, cfg)) && SortedBy(Before, out)
    ensures out == Fuse(rows, cfg)
  {
    BeforeIsTotal();
    SortSorts(Before, Scored(rows, cfg));
    SortPermutes(Before, Scored(rows, cfg));
    SortedUnique(Before, out, Fuse(rows, cfg));
  }

  /** The order in which a dump lists the candidates of a case does not reach the fusion. */
  lemma FusionIgnoresRowOrder(rows: seq<ArmRow>, rows': seq<ArmRow>, cfg: Config)
    requires multiset(rows) == multiset(rows')
    ensures Fuse(rows, cfg) == Fuse(rows', cfg)
  {
    MapPermuted(FusedBy(cfg), rows, rows');
    BeforeIsTotal();
    SortSorts(Before, Scored(rows, cfg));
    SortPermutes(Before, Scored(rows, cfg));
    FusionIsUnique(rows', cfg, Fuse(rows, cfg));
  }

  /** The list descends by score, and by ascending id where scores are equal. */
  lemma FusionIsOrdered(rows: seq<ArmRow>, cfg: Config, i: nat, j: nat)
    requires i < j < |Fuse(rows, cfg)|
    ensures var a, b := Fuse(rows, cfg)[i], Fuse(rows, cfg)[j];
            a.score > b.score || (a.score == b.score && (a.id == b.id || Less(a.id, b.id)))
  {
    BeforeIsTotal();
    SortSorts(Before, Scored(rows, cfg));
    LessTrichotomy(Fuse(rows, cfg)[i].id, Fuse(rows, cfg)[j].id);
    assert !Before(Fuse(rows, cfg)[j], Fuse(rows, cfg)[i]);
  }

  /** A missing rank contributes nothing, a rank the reciprocal of K plus rank. */
  lemma RecipMeaning(rank: Option<Rank>, k: Constant)
    ensures rank.None? ==> Recip(rank, k) == 0.0
    ensures rank.Some? ==> Recip(rank, k) * (k + rank.value as real) == 1.0
  {
  }

  /** A row keeps its recorded factor unless the configuration names its type, which an empty name never is. */
  lemma FactorMeaning(row: ArmRow, cfg: Config)
    ensures row.typeName != "" && row.typeName in cfg.damping ==> TypeFactor(row, cfg) == cfg.damping[row.typeName]
    ensures row.typeName == "" || row.typeName !in cfg.damping ==> TypeFactor(row, cfg) == row.typeFactor
  {
  }

  // ---------------------------------------------------------------- where the factors stand

  /** The part of the score that the type has no influence on. */
  function Base(row: ArmRow, cfg: Config): real
  {
    row.massFactor * Sum(ArmsOf(row, cfg))
  }

  lemma {:induction false} ScaledSum(arms: seq<Arm>, mt: real)
    ensures SumOfScaled(arms, mt) == mt * Sum(arms)
  {
    if arms != [] {
      ScaledSum(arms[1..], mt);
      Swap(arms[0].weight, mt, arms[0].recip);
      Distribute(mt, arms[0].weight * arms[0].recip, Sum(arms[1..]));
    }
  }

  lemma Swap(w: real, mt: real, r: real)
    ensures w * mt * r == mt * (w * r)
  {
  }

  lemma Distribute(m: real, a: real, b: real)
    ensures m * a + m * b == m * (a + b)
  {
  }

  lemma WeighFactors(mass: real, tf: real, arms: seq<Arm>, outside: bool)
    ensures Weigh(mass, tf, arms, outside) == tf * (mass * Sum(arms))
  {
    ScaledSum(arms, mass * tf);
    Swap(mass, tf, Sum(arms));
  }

  /** The score is the type factor times a base, wherever the configuration multiplies it in. */
  lemma ScoreFactors(row: ArmRow, cfg: Config)
    ensures Score(row, cfg) == TypeFactor(row, cfg) * Base(row, cfg)
  {
    WeighFactors(row.massFactor, TypeFactor(row, cfg), ArmsOf(row, cfg), cfg.factorsOutside);
  }

  lemma SamePlacement(row: ArmRow, cfg: Config)
    ensures Score(row, cfg.(factorsOutside := true)) == Score(row, cfg.(factorsOutside := false))
  {
    ScoreFactors(row, cfg.(factorsOutside := true));
    ScoreFactors(row, cfg.(factorsOutside := false));
  }

  lemma SameScores(rows: seq<ArmRow>, a: Config, b: Config)
    requires forall row :: Score(row, a) == Score(row, b)
    ensures Fuse(rows, a) == Fuse(rows, b)
  {
    assert Scored(rows, a) == Scored(rows, b);
  }

  /** V5 asks what rounding is worth: over the reals the placement of the factors changes no fusion. */
  lemma FactorPlacementIsIrrelevant(rows: seq<ArmRow>, cfg: Config)
    ensures Fuse(rows, cfg.(factorsOutside := true)) == Fuse(rows, cfg.(factorsOutside := false))
  {
    forall row ensures Score(row, cfg.(factorsOutside := true)) == Score(row, cfg.(factorsOutside := false)) {
      SamePlacement(row, cfg);
    }
    SameScores(rows, cfg.(factorsOutside := true), cfg.(factorsOutside := false));
  }

  function Max(x: real, y: real): real
  {
    if x < y then y else x
  }

  lemma Smaller(k: Constant, a: Rank, b: Rank)
    ensures a <= b <==> 1.0 / (k + a as real) >= 1.0 / (k + b as real)
  {
    var x, y := k + a as real, k + b as real;
    assert 1.0 / x - 1.0 / y == (y - x) / (x * y);
    if a < b {
      assert (y - x) / (x * y) > 0.0;
    } else {
      assert (x - y) / (x * y) >= 0.0;
    }
  }

  /** The merged text arm counts as the better of the two; an arm that missed is never the better one. */
  lemma MergedArmIsTheBetter(a: Option<Rank>, b: Option<Rank>, k: Constant)
    ensures Recip(MinRank(a, b), k) == Max(Recip(a, k), Recip(b, k))
  {
    if a.Some? && b.Some? {
      Smaller(k, a.value, b.value);
    }
  }

  lemma SumOfFour(a: Arm, b: Arm, c: Arm, d: Arm)
    ensures Sum([a, b, c, d]) == a.weight * a.recip + b.weight * b.recip + c.weight * c.recip + d.weight * d.recip
  {
    SumOfOne(d, []);
    SumOfOne(c, [d]);
    SumOfOne(b, [c, d]);
    SumOfOne(a, [b, c, d]);
    assert [d] + [] == [d] && [c] + [d] == [c, d] && [b] + [c, d] == [b, c, d] && [a] + [b, c, d] == [a, b, c, d];
  }

  lemma SumOfOne(a: Arm, arms: seq<Arm>)
    ensures Sum([a] + arms) == a.weight * a.recip + Sum(arms)
  {
    assert ([a] + arms)[1..] == arms;
  }

  /** What the reciprocal ranks add up to, the text arms taken separately or as the better of the two. */
  function Blend(w: Weights, merge: bool, sem: real, de: real, en: real, tri: real): real
  {
    w.semantic * sem + (if merge then w.ftsDe * Max(de, en) else w.ftsDe * de + w.ftsEn * en) + w.trigram * tri
  }

  lemma Blended(w: Weights, merge: bool, sem: real, de: real, en: real, merged: real, tri: real)
    requires merged == Max(de, en)
    ensures Sum(ArmList(w, merge, sem, de, en, merged, tri)) == Blend(w, merge, sem, de, en, tri)
  {
    var a := ArmList(w, merge, sem, de, en, merged, tri);
    SumOfFour(a[0], a[1], a[2], a[3]);
    assert a == [a[0], a[1], a[2], a[3]];
  }

  lemma WeighedBlend(mass: real, tf: real, outside: bool, w: Weights, merge: bool, sem: real, de: real, en: real,
                     merged: real, tri: real)
    requires merged == Max(de, en)
    ensures Weigh(mass, tf, ArmList(w, merge, sem, de, en, merged, tri), outside)
            == tf * (mass * Blend(w, merge, sem, de, en, tri))
  {
    Blended(w, merge, sem, de, en, merged, tri);
    WeighFactors(mass, tf, ArmList(w, merge, sem, de, en, merged, tri), outside);
  }

  /** Type factor times mass times the weighted reciprocal ranks, wherever the factors stand. */
  lemma ScoreFormula(row: ArmRow, cfg: Config)
    ensures Score(row, cfg)
            == TypeFactor(row, cfg)
               * (row.massFactor
                  * Blend(cfg.weights, cfg.mergeFts, Recip(row.rankSemantic, cfg.k), Recip(row.rankFtsDe, cfg.k),
                          Recip(row.rankFtsEn, cfg.k), Recip(row.rankTrigram, cfg.k)))
  {
    MergedArmIsTheBetter(row.rankFtsDe, row.rankFtsEn, cfg.k);
    WeighedBlend(row.massFactor, TypeFactor(row, cfg), cfg.factorsOutside, cfg.weights, cfg.mergeFts,
                 Recip(row.rankSemantic, cfg.k),
                 Recip(row.rankFtsDe, cfg.k), Recip(row.rankFtsEn, cfg.k),
                 Recip(MinRank(row.rankFtsDe, row.rankFtsEn), cfg.k), Recip(row.rankTrigram, cfg.k));
  }

  // ---------------------------------------------------------------- damping one type

  ghost predicate NonNegative(cfg: Config)
  {
    var w := cfg.weights;
    w.semantic >= 0.0 && w.ftsDe >= 0.0 && w.ftsEn >= 0.0 && w.trigram >= 0.0
  }

  lemma ProductSign(a: real, b: real)
    requires a >= 0.0 && b >= 0.0
    ensures a * b >= 0.0
  {
  }

  lemma {:induction false} SumIsNonNegative(arms: seq<Arm>)
    requires forall i :: 0 <= i < |arms| ==> arms[i].weight >= 0.0 && arms[i].recip >= 0.0
    ensures Sum(arms) >= 0.0
  {
    if arms != [] {
      SumIsNonNegative(arms[1..]);
      ProductSign(arms[0].weight, arms[0].recip);
    }
  }

  lemma ListIsNonNegative(mass: real, w: Weights, merge: bool, sem: real, de: real, en: real, merged: real, tri: real)
    requires mass >= 0.0 && w.semantic >= 0.0 && w.ftsDe >= 0.0 && w.ftsEn >= 0.0 && w.trigram >= 0.0
    requires sem >= 0.0 && de >= 0.0 && en >= 0.0 && merged >= 0.0 && tri >= 0.0
    ensures mass * Sum(ArmList(w, merge, sem, de, en, merged, tri)) >= 0.0
  {
    var arms := ArmList(w, merge, sem, de, en, merged, tri);
    SumIsNonNegative(arms);
    ProductSign(mass, Sum(arms));
  }

  lemma RecipIsNonNegative(rank: Option<Rank>, k: Constant)
    ensures Recip(rank, k) >= 0.0
  {
  }

  lemma BaseIsNonNegative(row: ArmRow, cfg: Config)
    requires NonNegative(cfg) && row.massFactor >= 0.0
    ensures Base(row, cfg) >= 0.0
  {
    var merged := MinRank(row.rankFtsDe, row.rankFtsEn);
    RecipIsNonNegative(row.rankSemantic, cfg.k);
    RecipIsNonNegative(row.rankFtsDe, cfg.k);
    RecipIsNonNegative(row.rankFtsEn, cfg.k);
    RecipIsNonNegative(merged, cfg.k);
    RecipIsNonNegative(row.rankTrigram, cfg.k);
    ListIsNonNegative(row.massFactor, cfg.weights, cfg.mergeFts, Recip(row.rankSemantic, cfg.k),
                      Recip(row.rankFtsDe, cfg.k),
                      Recip(row.rankFtsEn, cfg.k), Recip(merged, cfg.k), Recip(row.rankTrigram, cfg.k));
  }

  function WithFactor(cfg: Config, typeName: string, factor: real): Config
  {
    cfg.(damping := cfg.damping[typeName := factor])
  }

  predicate OfType(typeName: string, row: ArmRow)
  {
    row.typeName == typeName && typeName != ""
  }

  lemma FactorOfType(row: ArmRow, cfg: Config, typeName: string, f: real)
    ensures OfType(typeName, row) ==> Score(row, WithFactor(cfg, typeName, f)) == f * Base(row, cfg)
    ensures !OfType(typeName, row) ==> Score(row, WithFactor(cfg, typeName, f)) == Score(row, cfg)
  {
    var c := WithFactor(cfg, typeName, f);
    assert typeName in c.damping && ArmsOf(row, c) == ArmsOf(row, cfg);
    if OfType(typeName, row) {
      ScoreFactors(row, c);
      assert TypeFactor(row, c) == f;
    } else {
      assert row.typeName != "" ==> (row.typeName in c.damping <==> row.typeName in cfg.damping);
      assert TypeFactor(row, c) == TypeFactor(row, cfg);
    }
  }

  // ---------------------------------------------------------------- rankings by a score

  /** How a configuration scores the candidates. */
  function ScoreBy(cfg: Config): (r: ArmRow -> real)
    ensures forall row :: r(row) == Score(row, cfg)
  {
    row => Score(row, cfg)
  }

  predicate RowBefore(score: ArmRow -> real, x: ArmRow, y: ArmRow)
  {
    Before(Fused(x.id, score(x)), Fused(y.id, score(y)))
  }

  function ByScore(score: ArmRow -> real): (ArmRow, ArmRow) -> bool
  {
    (x, y) => RowBefore(score, x, y)
  }

  function RankedBy(rows: seq<ArmRow>, score: ArmRow -> real): seq<ArmRow>
  {
    StableSort(ByScore(score), rows)
  }

  /** The candidates in the order of the fusion. */
  function Ranking(rows: seq<ArmRow>, cfg: Config): seq<ArmRow>
  {
    RankedBy(rows, ScoreBy(cfg))
  }

  function TypeFilter(typeName: string, of: bool): ArmRow -> bool
  {
    row => OfType(typeName, row) == of
  }

  ghost predicate DistinctIds(rows: seq<ArmRow>)
  {
    forall i, j :: 0 <= i < j < |rows| ==> rows[i].id != rows[j].id
  }

  lemma ByScoreIsWeakOrder(score: ArmRow -> real)
    ensures StrictWeakOrder(ByScore(score))
  {
    BeforeIsTotal();
    var less := ByScore(score);
    forall x, y | less(x, y) ensures !less(y, x) {
      assert RowBefore(score, x, y);
    }
    forall x, y, z | less(x, z) ensures less(x, y) || less(y, z) {
      assert Before(Fused(x.id, score(x)), Fused(z.id, score(z)));
      assert Before(Fused(x.id, score(x)), Fused(y.id, score(y)))
             || Before(Fused(y.id, score(y)), Fused(z.id, score(z)));
    }
  }

  /** Fuse is the ranking with its scores. */
  lemma FuseIsRanking(rows: seq<ArmRow>, cfg: Config)
    ensures Fuse(rows, cfg) == Scored(Ranking(rows, cfg), cfg)
  {
    var ranked, score := Ranking(rows, cfg), ScoreBy(cfg);
    ByScoreIsWeakOrder(score);
    SortSorts(ByScore(score), rows);
    SortPermutes(ByScore(score), rows);
    MapPermuted(FusedBy(cfg), ranked, rows);
    forall i, j | 0 <= i < j < |ranked| ensures !Before(Scored(ranked, cfg)[j], Scored(ranked, cfg)[i]) {
      assert !ByScore(score)(ranked[j], ranked[i]);
    }
    FusionIsUnique(rows, cfg, Scored(ranked, cfg));
  }

  lemma IdsStayDistinct(rows: seq<ArmRow>, out: seq<ArmRow>)
    requires DistinctIds(rows) && multiset(rows) == multiset(out)
    ensures DistinctIds(out)
  {
    SameElements(rows, out);
    forall i, j | 0 <= i < j < |out| ensures out[i].id != out[j].id {
      assert out[i] in rows && out[j] in rows;
      assert out == out[..j] + [out[j]] + out[j + 1..];
      assert out[i] in out[..j];
      SingleOccurrence(rows, out[i]);
    }
  }

  lemma {:induction false} SingleOccurrence(rows: seq<ArmRow>, x: ArmRow)
    requires DistinctIds(rows)
    ensures multiset(rows)[x] <= 1
  {
    if rows != [] {
      SingleOccurrence(rows[1..], x);
      assert rows == [rows[0]] + rows[1..];
      assert forall j :: 0 <= j < |rows[1..]| ==> rows[1..][j] == rows[j + 1] && rows[1..][j].id != rows[0].id;
      assert rows[0] !in rows[1..];
    }
  }

  function Ahead(score: ArmRow -> real, row: ArmRow): ArmRow -> bool
  {
    x => RowBefore(score, x, row)
  }

  /** In a sorted list of distinct ids exactly the rows in front of the i-th are ahead of it. */
  lemma AheadIffInFront(out: seq<ArmRow>, score: ArmRow -> real, i: nat, j: nat)
    requires DistinctIds(out) && i < |out| && j < |out|
    requires SortedBy(ByScore(score), out)
    ensures Ahead(score, out[i])(out[j]) <==> j < i
  {
    BeforeIsTotal();
    if j < i {
      assert !ByScore(score)(out[i], out[j]) && out[j].id != out[i].id;
      assert Fused(out[i].id, score(out[i])) != Fused(out[j].id, score(out[j]));
    } else if i < j {
      assert !ByScore(score)(out[j], out[i]);
    } else {
      assert !Before(Fused(out[i].id, score(out[i])), Fused(out[i].id, score(out[i])));
    }
  }

  /** The place of a row in the ranking is the number of rows that beat it. */
  lemma PlaceIsCount(rows: seq<ArmRow>, score: ArmRow -> real, i: nat)
    requires DistinctIds(rows) && i < |RankedBy(rows, score)|
    ensures |Filter(Ahead(score, RankedBy(rows, score)[i]), rows)| == i
  {
    var out := RankedBy(rows, score);
    var p := Ahead(score, out[i]);
    ByScoreIsWeakOrder(score);
    SortSorts(ByScore(score), rows);
    SortPermutes(ByScore(score), rows);
    IdsStayDistinct(rows, out);
    forall j | 0 <= j < |out| ensures p(out[j]) <==> j < i {
      AheadIffInFront(out, score, i, j);
    }
    FilterIsPrefix(p, out, i);
    FilterSizePermuted(p, out, rows);
  }

  // ---------------------------------------------------------------- lowering the scores of one type

  /** `low` is `high` with the scores of one type lowered in a way that keeps their order. */
  ghost predicate Damps(high: ArmRow -> real, low: ArmRow -> real, typeName: string, rows: seq<ArmRow>)
  {
    && (forall x :: x in rows && !OfType(typeName, x) ==> low(x) == high(x))
    && (forall x :: x in rows && OfType(typeName, x) ==> low(x) <= high(x))
    && (forall x, y :: x in rows && y in rows && OfType(typeName, x) && OfType(typeName, y) ==>
                         (high(x) > high(y) <==> low(x) > low(y)))
  }

  lemma SameSideKeepsOrder(high: ArmRow -> real, low: ArmRow -> real, typeName: string, rows: seq<ArmRow>, x: ArmRow,
                           y: ArmRow)
    requires Damps(high, low, typeName, rows) && x in rows && y in rows && OfType(typeName, x) == OfType(typeName, y)
    ensures RowBefore(high, x, y) == RowBefore(low, x, y)
  {
  }

  lemma OneSideKeepsOrder(high: ArmRow -> real, low: ArmRow -> real, typeName: string, rows: seq<ArmRow>, of: bool)
    requires Damps(high, low, typeName, rows)
    ensures Filter(TypeFilter(typeName, of), RankedBy(rows, high))
            == Filter(TypeFilter(typeName, of), RankedBy(rows, low))
  {
    var p := TypeFilter(typeName, of);
    var s := Filter(p, rows);
    ByScoreIsWeakOrder(high);
    ByScoreIsWeakOrder(low);
    SortFilter(ByScore(high), p, rows);
    SortFilter(ByScore(low), p, rows);
    forall i, j | 0 <= i < |s| && 0 <= j < |s| ensures ByScore(high)(s[i], s[j]) == ByScore(low)(s[i], s[j]) {
      assert s[i] in s && s[j] in s;
      SameSideKeepsOrder(high, low, typeName, rows, s[i], s[j]);
    }
    SortCongruent(ByScore(high), ByScore(low), s);
  }

  /** What beats a row of the type still beats it after the scores of the type were lowered. */
  lemma AheadStays(high: ArmRow -> real, low: ArmRow -> real, typeName: string, rows: seq<ArmRow>, x: ArmRow,
                   row: ArmRow)
    requires Damps(high, low, typeName, rows) && x in rows && row in rows
    requires OfType(typeName, row) && RowBefore(high, x, row)
    ensures RowBefore(low, x, row)
  {
    if OfType(typeName, x) {
      SameSideKeepsOrder(high, low, typeName, rows, x, row);
    }
  }

  /** What beats a row of another type after the lowering has beaten it before. */
  lemma AheadWas(high: ArmRow -> real, low: ArmRow -> real, typeName: string, rows: seq<ArmRow>, x: ArmRow, row: ArmRow)
    requires Damps(high, low, typeName, rows) && x in rows && row in rows
    requires !OfType(typeName, row) && RowBefore(low, x, row)
    ensures RowBefore(high, x, row)
  {
  }

  /** No row of the type moves up and no other row moves down. */
  lemma LoweringMovesDown(high: ArmRow -> real, low: ArmRow -> real, typeName: string, rows: seq<ArmRow>, i: nat,
                          j: nat)
    requires Damps(high, low, typeName, rows) && DistinctIds(rows)
    requires i < |RankedBy(rows, high)| && j < |RankedBy(rows, low)|
             && RankedBy(rows, high)[i] == RankedBy(rows, low)[j]
    ensures if OfType(typeName, RankedBy(rows, high)[i]) then i <= j else j <= i
  {
    var row := RankedBy(rows, high)[i];
    SortMembers(ByScore(high), rows);
    assert row in RankedBy(rows, high);
    PlaceIsCount(rows, high, i);
    PlaceIsCount(rows, low, j);
    if OfType(typeName, row) {
      forall x | x in rows && Ahead(high, row)(x) ensures Ahead(low, row)(x) {
        AheadStays(high, low, typeName, rows, x, row);
      }
      FilterSizeMonotone(Ahead(high, row), Ahead(low, row), rows);
    } else {
      forall x | x in rows && Ahead(low, row)(x) ensures Ahead(high, row)(x) {
        AheadWas(high, low, typeName, rows, x, row);
      }
      FilterSizeMonotone(Ahead(low, row), Ahead(high, row), rows);
    }
  }

  // ---------------------------------------------------------------- lowering the factor of one type

  lemma Scaled(f: real, x: real, y: real, fx: real, fy: real)
    requires f > 0.0 && fx == f * x && fy == f * y
    ensures fx > fy <==> x > y
  {
    if x > y {
      assert f * (x - y) > 0.0;
    } else {
      assert f * (y - x) >= 0.0;
    }
  }

  lemma Lowered(f: real, f': real, x: real)
    requires f' <= f && x >= 0.0
    ensures f' * x <= f * x
  {
    assert (f - f') * x >= 0.0;
  }

  /** The premises under which lowering a factor is studied. */
  ghost predicate Dampable(rows: seq<ArmRow>, cfg: Config)
  {
    NonNegative(cfg) && DistinctIds(rows) && forall x :: x in rows ==> x.massFactor >= 0.0
  }

  lemma OrderWithinType(cfg: Config, typeName: string, f: real, x: ArmRow, y: ArmRow)
    requires 0.0 < f && OfType(typeName, x) && OfType(typeName, y)
    ensures Score(x, WithFactor(cfg, typeName, f)) > Score(y, WithFactor(cfg, typeName, f))
            <==> Base(x, cfg) > Base(y, cfg)
  {
    FactorOfType(x, cfg, typeName, f);
    FactorOfType(y, cfg, typeName, f);
    Scaled(f, Base(x, cfg), Base(y, cfg), Score(x, WithFactor(cfg, typeName, f)),
           Score(y, WithFactor(cfg, typeName, f)));
  }

  lemma LoweringDamps(rows: seq<ArmRow>, cfg: Config, typeName: string, f: real, f': real)
    requires Dampable(rows, cfg) && 0.0 < f' <= f
    ensures Damps(ScoreBy(WithFactor(cfg, typeName, f)), ScoreBy(WithFactor(cfg, typeName, f')), typeName, rows)
  {
    var high, low := ScoreBy(WithFactor(cfg, typeName, f)), ScoreBy(WithFactor(cfg, typeName, f'));
    forall x | x in rows
      ensures if OfType(typeName, x) then low(x) <= high(x) else low(x) == high(x)
    {
      FactorOfType(x, cfg, typeName, f);
      FactorOfType(x, cfg, typeName, f');
      BaseIsNonNegative(x, cfg);
      Lowered(f, f', Base(x, cfg));
    }
    forall x, y | x in rows && y in rows && OfType(typeName, x) && OfType(typeName, y)
      ensures high(x) > high(y) <==> low(x) > low(y)
    {
      OrderWithinType(cfg, typeName, f, x, y);
      OrderWithinType(cfg, typeName, f', x, y);
    }
  }

  /** Every rank of the ranking at the lower factor compared with the one at the higher factor. */
  ghost predicate OnlyMovesDown(high: seq<ArmRow>, low: seq<ArmRow>, typeName: string)
  {
    && (forall of :: Filter(TypeFilter(typeName, of), low) == Filter(TypeFilter(typeName, of), high))
    && (forall i, j :: 0 <= i < |high| && 0 <= j < |low| && high[i] == low[j] ==>
                         if OfType(typeName, high[i]) then i <= j else j <= i)
  }

  /**
   Lowering the positive factor of one type keeps the order among the rows of the type and the order
   among the other rows, moves no row of the type up and moves no other row down.
   */
  lemma LoweringAFactor(rows: seq<ArmRow>, cfg: Config, typeName: string, f: real, f': real)
    requires Dampable(rows, cfg) && 0.0 < f' <= f
    ensures OnlyMovesDown(Ranking(rows, WithFactor(cfg, typeName, f)), Ranking(rows, WithFactor(cfg, typeName, f')),
                          typeName)
  {
    var high, low := ScoreBy(WithFactor(cfg, typeName, f)), ScoreBy(WithFactor(cfg, typeName, f'));
    LoweringDamps(rows, cfg, typeName, f, f');
    forall of
      ensures Filter(TypeFilter(typeName, of), RankedBy(rows, low))
              == Filter(TypeFilter(typeName, of), RankedBy(rows, high))
    {
      OneSideKeepsOrder(high, low, typeName, rows, of);
    }
    forall i, j | 0 <= i < |RankedBy(rows, high)| && 0 <= j < |RankedBy(rows, low)|
      && RankedBy(rows, high)[i] == RankedBy(rows, low)[j]
      ensures if OfType(typeName, RankedBy(rows, high)[i]) then i <= j else j <= i
    {
      LoweringMovesDown(high, low, typeName, rows, i, j);
    }
  }

  // ---------------------------------------------------------------- the damping curve

  const DAMPING_STOPS: seq<real> := [0.05, 0.10, 0.15, 0.20, 0.30, 0.35, 0.50, 0.70, 0.85, 1.00]

  /** The live fusion at every support point, differing in nothing but the factor of one type. */
  method DampingConfigs(typeName: string) returns (out: seq<Config>)
    ensures |out| == |DAMPING_STOPS|
    ensures forall i :: 0 <= i < |out| ==> out[i] == WithFactor(V0, typeName, DAMPING_STOPS[i])
  {
    out := [];
    for i := 0 to |DAMPING_STOPS|
      invariant |out| == i
      invariant forall j :: 0 <= j < i ==> out[j] == WithFactor(V0, typeName, DAMPING_STOPS[j])
    {
      out := out + [Config(LIVE_WEIGHTS, LIVE_K, map[typeName := DAMPING_STOPS[i]], false, false)];
    }
  }

  lemma StopsAscend(a: nat, b: nat)
    requires a < b < |DAMPING_STOPS|
    ensures 0.0 < DAMPING_STOPS[a] < DAMPING_STOPS[b] <= 1.0
  {
  }

  /** Along the damping curve of a type, a lower stop only moves rows of the type down. */
  lemma DampingCurve(rows: seq<ArmRow>, typeName: string, a: nat, b: nat)
    requires a < b < |DAMPING_STOPS| && Dampable(rows, V0)
    ensures OnlyMovesDown(Ranking(rows, WithFactor(V0, typeName, DAMPING_STOPS[b])),
                          Ranking(rows, WithFactor(V0, typeName, DAMPING_STOPS[a])), typeName)
  {
    StopsAscend(a, b);
    LoweringAFactor(rows, V0, typeName, DAMPING_STOPS[b], DAMPING_STOPS[a]);
  }
}
