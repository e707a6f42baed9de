/**
 Who entered and who was pushed out of the top of a ranking
 (go/internal/armsweep/compare.go foldDisplacement, typeIndex, topIDs).
 */
module Displacement {
  import opened Ordering
  import opened Dumps
  import opened Fusion

  /** The rank depth the displacement is read at. */
  const DISPLACEMENT_CUT: nat := 5

  const TYPE_NAME_UNKNOWN := "(kein type_name im Dump)"
  const TYPE_NAME_NOT_IN_ARMS := "(in keinem Arm \U{2014} Post-Stufe)"

  // ---------------------------------------------------------------- histograms

  type Histogram = map<string, nat>

  function Count(h: Histogram, t: string): nat
  {
    if t in h then h[t] else 0
  }

  function Bump(h: Histogram, t: string): Histogram
  {
    h[t := Count(h, t) + 1]
  }

  function BumpAll(h: Histogram, ts: seq<string>): Histogram
  {
    if ts == [] then h else Bump(BumpAll(h, ts[..|ts| - 1]), ts[|ts| - 1])
  }

  lemma BumpAllSnoc(h: Histogram, ts: seq<string>, t: string)
    ensures BumpAll(h, ts + [t]) == Bump(BumpAll(h, ts), t)
  {
    assert (ts + [t])[..|ts|] == ts;
  }

  /** The entries of a histogram added up. */
  ghost function Total(h: Histogram): nat
  {
    if h == map[] then 0
    else
      var t :| t in h;
      h[t] + Total(h - {t})
  }

  lemma {:induction false} TotalWithout(h: Histogram, t: string)
    requires t in h
    ensures Total(h) == h[t] + Total(h - {t})
    decreases |h|
  {
    var s :| s in h && Total(h) == h[s] + Total(h - {s});
    if s != t {
      TotalWithout(h - {s}, t);
      TotalWithout(h - {t}, s);
      assert h - {s} - {t} == h - {t} - {s};
    }
  }

  lemma TotalBump(h: Histogram, t: string)
    ensures Total(Bump(h, t)) == Total(h) + 1
  {
    var b := Bump(h, t);
    TotalWithout(b, t);
    if t in h {
      TotalWithout(h, t);
      assert b - {t} == h - {t};
    } else {
      assert b - {t} == h;
    }
  }

  lemma {:induction false} BumpAllCounts(h: Histogram, ts: seq<string>, t: string)
    ensures Count(BumpAll(h, ts), t) == Count(h, t) + multiset(ts)[t]
  {
    if ts != [] {
      BumpAllCounts(h, ts[..|ts| - 1], t);
      assert ts == ts[..|ts| - 1] + [ts[|ts| - 1]];
    }
  }

  lemma {:induction false} BumpAllTotals(h: Histogram, ts: seq<string>)
    ensures Total(BumpAll(h, ts)) == Total(h) + |ts|
  {
    if ts != [] {
      BumpAllTotals(h, ts[..|ts| - 1]);
      TotalBump(BumpAll(h, ts[..|ts| - 1]), ts[|ts| - 1]);
    }
  }

  // ---------------------------------------------------------------- the names of the types

  function NameOf(row: ArmRow): string
  {
    if row.typeName == "" then TYPE_NAME_UNKNOWN else row.typeName
  }

  /** Extends an index by the rows whose ids it does not know yet. */
  function Indexed(index: map<string, string>, rows: seq<ArmRow>): map<string, string>
  {
    if rows == [] then index
    else
      var rest, last := Indexed(index, rows[..|rows| - 1]), rows[|rows| - 1];
      if last.id in rest then rest else rest[last.id := NameOf(last)]
  }

  method IndexRows(index: map<string, string>, rows: seq<ArmRow>) returns (out: map<string, string>)
    ensures out == Indexed(index, rows)
  {
    out := index;
    for i := 0 to |rows|
      invariant out == Indexed(index, rows[..i])
    {
      assert rows[..i + 1][..i] == rows[..i];
      if rows[i].id !in out {
        out := out[rows[i].id := NameOf(rows[i])];
      }
    }
    assert rows[..|rows|] == rows;
  }

  /** Both dumps contribute, the base first. */
  method TypeIndex(base: seq<ArmRow>, cond: seq<ArmRow>) returns (out: map<string, string>)
    ensures out == Indexed(map[], base + cond)
  {
    out := IndexRows(map[], base);
    out := IndexRows(out, cond);
    IndexedAppend(map[], base, cond);
  }

  lemma {:induction false} IndexedAppend(index: map<string, string>, a: seq<ArmRow>, b: seq<ArmRow>)
    ensures Indexed(index, a + b) == Indexed(Indexed(index, a), b)
  {
    if b == [] {
      assert a + b == a;
    } else {
      assert (a + b)[..|a + b| - 1] == a + b[..|b| - 1];
      IndexedAppend(index, a, b[..|b| - 1]);
    }
  }

  /** An id is indexed exactly when some row carries it, under the name of the first such row. */
  lemma {:induction false} IndexNamesFirst(rows: seq<ArmRow>, id: string)
    ensures id in Indexed(map[], rows) <==> exists i :: 0 <= i < |rows| && rows[i].id == id
    ensures forall i :: 0 <= i < |rows| && rows[i].id == id && (forall j :: 0 <= j < i ==> rows[j].id != id) ==>
                          id in Indexed(map[], rows) && Indexed(map[], rows)[id] == NameOf(rows[i])
  {
    if rows != [] {
      var r := rows[..|rows| - 1];
      IndexNamesFirst(r, id);
      assert forall i :: 0 <= i < |r| ==> r[i] == rows[i];
    }
  }

  function TypeOf(types: map<string, string>, id: string): string
  {
    if id in types then types[id] else TYPE_NAME_NOT_IN_ARMS
  }

  // ---------------------------------------------------------------- the windows of a case

  function RankedIds(rec: Record, delivered: bool): seq<string>
  {
    if delivered then rec.delivered else FusedIds(Fuse(rec.rows, V0))
  }

  function TopIds(rec: Record, delivered: bool): (r: seq<string>)
    ensures |r| <= DISPLACEMENT_CUT
  {
    var ids := RankedIds(rec, delivered);
    if |ids| > DISPLACEMENT_CUT then ids[..DISPLACEMENT_CUT] else ids
  }

  /** The two windows of a case, with what is known about the ids in them. */
  datatype Windows = Windows(base: seq<string>, cond: seq<string>, types: map<string, string>, gold: seq<string>)

  function WindowsOf(base: Record, cond: Record, delivered: bool): Windows
  {
    Windows(TopIds(base, delivered), TopIds(cond, delivered), Indexed(map[], base.rows + cond.rows), base.goldIds)
  }

  /** The types of the ids of `ids` that `other` does not hold, in order. */
  function TypesNotIn(ids: seq<string>, other: seq<string>, types: map<string, string>): seq<string>
  {
    if ids == [] then []
    else
      var last := ids[|ids| - 1];
      TypesNotIn(ids[..|ids| - 1], other, types) + (if last in other then [] else [TypeOf(types, last)])
  }

  /** How many of them are labelled. */
  function LabelledNotIn(ids: seq<string>, other: seq<string>, gold: seq<string>): nat
  {
    if ids == [] then 0
    else
      var last := ids[|ids| - 1];
      LabelledNotIn(ids[..|ids| - 1], other, gold) + (if last !in other && last in gold then 1 else 0)
  }

  function ShadowIn(ids: seq<string>, types: map<string, string>, shadow: set<string>): nat
  {
    if ids == [] then 0
    else ShadowIn(ids[..|ids| - 1], types, shadow) + (if TypeOf(types, ids[|ids| - 1]) in shadow then 1 else 0)
  }

  /** What one case contributes: the types pushed out and the types that entered, labels and shadow hits. */
  datatype Facts = Facts(out: seq<string>, labelledOut: nat, entered: seq<string>, labels: bool, shadowTopK: nat,
                         shadowRank1: nat)

  function FactsOf(w: Windows, shadow: set<string>): Facts
  {
    Facts(TypesNotIn(w.base, w.cond, w.types), LabelledNotIn(w.base, w.cond, w.gold),
          TypesNotIn(w.cond, w.base, w.types),
          w.gold != [], ShadowIn(w.cond, w.types, shadow),
          if w.cond != [] && TypeOf(w.types, w.cond[0]) in shadow then 1 else 0)
  }

  // ---------------------------------------------------------------- the table of a slice

  datatype Table = Table(
    cases: nat, casesWith: nat, displaced: nat, minPerCase: int, maxPerCase: int,
    labelledOut: nat, labelsAvailable: bool, shadowTopK: nat, shadowRank1: nat,
    byTypeOut: Histogram, byTypeIn: Histogram)

  const EMPTY_TABLE: Table := Table(0, 0, 0, -1, 0, 0, false, 0, 0, map[], map[])

  function Added(t: Table, f: Facts): Table
  {
    var out := |f.out|;
    Table(
      t.cases + 1,
      t.casesWith + (if out > 0 then 1 else 0),
      t.displaced + out,
      if t.minPerCase < 0 || out < t.minPerCase then out else t.minPerCase,
      if out > t.maxPerCase then out else t.maxPerCase,
      t.labelledOut + f.labelledOut,
      t.labelsAvailable || f.labels,
      t.shadowTopK + f.shadowTopK,
      t.shadowRank1 + f.shadowRank1,
      BumpAll(t.byTypeOut, f.out),
      BumpAll(t.byTypeIn, f.entered))
  }

  method SetOf(ids: seq<string>) returns (r: set<string>)
    ensures forall x :: x in r <==> x in ids
  {
    r := {};
    for i := 0 to |ids|
      invariant forall x :: x in r <==> x in ids[..i]
    {
      assert ids[..i + 1] == ids[..i] + [ids[i]];
      r := r + {ids[i]};
    }
    assert ids[..|ids|] == ids;
  }

  /** The loop over the condition window that counts shadow types. */
  method CountShadow(ids: seq<string>, types: map<string, string>, shadow: set<string>) returns (topK: nat, rank1: nat)
    ensures topK == ShadowIn(ids, types, shadow)
    ensures rank1 == if ids != [] && TypeOf(types, ids[0]) in shadow then 1 else 0
  {
    topK, rank1 := 0, 0;
    for i := 0 to |ids|
      invariant topK == ShadowIn(ids[..i], types, shadow)
      invariant rank1 == if i > 0 && TypeOf(types, ids[0]) in shadow then 1 else 0
    {
      assert ids[..i + 1][..i] == ids[..i];
      if TypeOf(types, ids[i]) in shadow {
        topK := topK + 1;
        if i == 0 {
          rank1 := rank1 + 1;
        }
      }
    }
    assert ids[..|ids|] == ids;
  }

  /** The step of a loop that counts the types of the ids it does not skip. */
  lemma BumpStep(h: Histogram, ids: seq<string>, i: nat, other: seq<string>, types: map<string, string>)
    requires i < |ids|
    ensures BumpAll(h, TypesNotIn(ids[..i + 1], other, types))
            == var h' := BumpAll(h, TypesNotIn(ids[..i], other, types));
               if ids[i] in other then h' else Bump(h', TypeOf(types, ids[i]))
    ensures |TypesNotIn(ids[..i + 1], other, types)|
            == |TypesNotIn(ids[..i], other, types)| + (if ids[i] in other then 0 else 1)
  {
    assert ids[..i + 1][..i] == ids[..i];
    var ts := TypesNotIn(ids[..i], other, types);
    if ids[i] in other {
      assert TypesNotIn(ids[..i + 1], other, types) == ts;
    } else {
      BumpAllSnoc(h, ts, TypeOf(types, ids[i]));
    }
  }

  lemma LabelStep(ids: seq<string>, i: nat, other: seq<string>, gold: seq<string>)
    requires i < |ids|
    ensures LabelledNotIn(ids[..i + 1], other, gold)
            == LabelledNotIn(ids[..i], other, gold) + (if ids[i] !in other && ids[i] in gold then 1 else 0)
  {
    assert ids[..i + 1][..i] == ids[..i];
  }

  /** The loop over the base window: counts what was pushed out, by type and by label. */
  method CountOut(w: Windows, inCond: set<string>, gold: set<string>, byType: Histogram)
    returns (out: nat, labelled: nat, byType': Histogram)
    requires forall x :: x in inCond <==> x in w.cond
    requires forall x :: x in gold <==> x in w.gold
    ensures out == |TypesNotIn(w.base, w.cond, w.types)| && labelled == LabelledNotIn(w.base, w.cond, w.gold)
    ensures byType' == BumpAll(byType, TypesNotIn(w.base, w.cond, w.types))
  {
    out, labelled, byType' := 0, 0, byType;
    for i := 0 to |w.base|
      invariant out == |TypesNotIn(w.base[..i], w.cond, w.types)|
                && labelled == LabelledNotIn(w.base[..i], w.cond, w.gold)
      invariant byType' == BumpAll(byType, TypesNotIn(w.base[..i], w.cond, w.types))
    {
      BumpStep(byType, w.base, i, w.cond, w.types);
      LabelStep(w.base, i, w.cond, w.gold);
      if w.base[i] in inCond {
        continue;
      }
      out := out + 1;
      byType' := Bump(byType', TypeOf(w.types, w.base[i]));
      if w.base[i] in gold {
        labelled := labelled + 1;
      }
    }
    assert w.base[..|w.base|] == w.base;
  }

  /** The loop over the condition window: counts what entered, by type. */
  method CountIn(w: Windows, inBase: set<string>, byType: Histogram) returns (byType': Histogram)
    requires forall x :: x in inBase <==> x in w.base
    ensures byType' == BumpAll(byType, TypesNotIn(w.cond, w.base, w.types))
  {
    byType' := byType;
    for i := 0 to |w.cond|
      invariant byType' == BumpAll(byType, TypesNotIn(w.cond[..i], w.base, w.types))
    {
      BumpStep(byType, w.cond, i, w.base, w.types);
      if w.cond[i] !in inBase {
        byType' := Bump(byType', TypeOf(w.types, w.cond[i]));
      }
    }
    assert w.cond[..|w.cond|] == w.cond;
  }

  method Bracket(minPerCase: int, maxPerCase: int, out: nat) returns (least: int, most: int)
    ensures least == if minPerCase < 0 || out < minPerCase then out else minPerCase
    ensures most == if out > maxPerCase then out else maxPerCase
  {
    least, most := minPerCase, maxPerCase;
    if least < 0 || out < least {
      least := out;
    }
    if out > most {
      most := out;
    }
  }

  /** Updates the counters once the windows have been walked. */
  method Update(t: Table, out: nat, labelled: nat, hasGold: bool, topK: nat, rank1: nat, byOut: Histogram,
                byIn: Histogram, ghost f: Facts)
    returns (t': Table)
    requires out == |f.out| && labelled == f.labelledOut && hasGold == f.labels && topK == f.shadowTopK
             && rank1 == f.shadowRank1
    requires byOut == BumpAll(t.byTypeOut, f.out) && byIn == BumpAll(t.byTypeIn, f.entered)
    ensures t' == Added(t, f)
  {
    var least, most := Bracket(t.minPerCase, t.maxPerCase, out);
    var labels, casesWith := t.labelsAvailable, t.casesWith;
    if hasGold {
      labels := true;
    }
    if out > 0 {
      casesWith := casesWith + 1;
    }
    t' := Table(t.cases + 1, casesWith, t.displaced + out, least, most, t.labelledOut + labelled, labels,
                t.shadowTopK + topK, t.shadowRank1 + rank1, byOut, byIn);
  }

  method AddWindows(t: Table, w: Windows, shadow: set<string>) returns (t': Table)
    ensures t' == Added(t, FactsOf(w, shadow))
  {
    var gold := SetOf(w.gold);
    var inCond := SetOf(w.cond);
    var inBase := SetOf(w.base);
    assert w.gold != [] ==> w.gold[0] in gold;
    var topK, rank1 := CountShadow(w.cond, w.types, shadow);
    var out, labelled, byOut := CountOut(w, inCond, gold, t.byTypeOut);
    var byIn := CountIn(w, inBase, t.byTypeIn);
    t' := Update(t, out, labelled, gold != {}, topK, rank1, byOut, byIn, FactsOf(w, shadow));
  }

  method FoldDisplacement(t: Table, base: Record, cond: Record, shadow: set<string>, delivered: bool)
    returns (t': Table)
    ensures t' == Added(t, FactsOf(WindowsOf(base, cond, delivered), shadow))
  {
    var types := TypeIndex(base.rows, cond.rows);
    t' := AddWindows(t, Windows(TopIds(base, delivered), TopIds(cond, delivered), types, base.goldIds), shadow);
  }

  // ---------------------------------------------------------------- conservation over every run of cases

  /** The table after a run of cases. */
  function Tabled(fs: seq<Facts>): Table
  {
    if fs == [] then EMPTY_TABLE else Added(Tabled(fs[..|fs| - 1]), fs[|fs| - 1])
  }

  /** How often a type was pushed out, counted case by case. */
  function OutOf(fs: seq<Facts>, t: string): nat
  {
    if fs == [] then 0 else OutOf(fs[..|fs| - 1], t) + multiset(fs[|fs| - 1].out)[t]
  }

  function EnteredOf(fs: seq<Facts>, t: string): nat
  {
    if fs == [] then 0 else EnteredOf(fs[..|fs| - 1], t) + multiset(fs[|fs| - 1].entered)[t]
  }

  function Entrants(fs: seq<Facts>): nat
  {
    if fs == [] then 0 else Entrants(fs[..|fs| - 1]) + |fs[|fs| - 1].entered|
  }

  /** Every displaced id is in the out-histogram, every entrant in the in-histogram, and the counts nest. */
  lemma {:induction false} TableBalances(fs: seq<Facts>)
    requires forall i :: 0 <= i < |fs| ==> fs[i].labelledOut <= |fs[i].out| <= DISPLACEMENT_CUT
    ensures var t := Tabled(fs);
            && t.cases == |fs|
            && t.displaced == Total(t.byTypeOut)
            && Entrants(fs) == Total(t.byTypeIn)
            && t.labelledOut <= t.displaced <= DISPLACEMENT_CUT * t.cases
            && t.casesWith <= t.displaced
  {
    if fs != [] {
      var f, t := fs[|fs| - 1], Tabled(fs[..|fs| - 1]);
      TableBalances(fs[..|fs| - 1]);
      BumpAllTotals(t.byTypeOut, f.out);
      BumpAllTotals(t.byTypeIn, f.entered);
    }
  }

  /** The histograms count, for every type, the ids of that type that were pushed out or entered. */
  lemma {:induction false} HistogramsAreExact(fs: seq<Facts>, t: string)
    ensures Count(Tabled(fs).byTypeOut, t) == OutOf(fs, t)
    ensures Count(Tabled(fs).byTypeIn, t) == EnteredOf(fs, t)
  {
    if fs != [] {
      var f, before := fs[|fs| - 1], Tabled(fs[..|fs| - 1]);
      HistogramsAreExact(fs[..|fs| - 1], t);
      BumpAllCounts(before.byTypeOut, f.out, t);
      BumpAllCounts(before.byTypeIn, f.entered, t);
    }
  }

  /** The extremes bracket every case. */
  lemma {:induction false} ExtremesBracket(fs: seq<Facts>)
    ensures Tabled(fs).minPerCase < 0 <==> fs == []
    ensures forall i :: 0 <= i < |fs| ==> Tabled(fs).minPerCase <= |fs[i].out| <= Tabled(fs).maxPerCase
  {
    if fs != [] {
      ExtremesBracket(fs[..|fs| - 1]);
    }
  }

  /** Some case has the smallest count and some case the largest. */
  lemma {:induction false} ExtremesAreReached(fs: seq<Facts>) returns (least: nat, most: nat)
    requires fs != []
    ensures least < |fs| && |fs[least].out| == Tabled(fs).minPerCase
    ensures most < |fs| && |fs[most].out| == Tabled(fs).maxPerCase
  {
    var last := |fs| - 1;
    least, most := last, last;
    if last > 0 {
      var i, j := ExtremesAreReached(fs[..last]);
      ExtremesBracket(fs[..last]);
      if |fs[last].out| >= Tabled(fs[..last]).minPerCase {
        least := i;
      }
      if |fs[last].out| <= Tabled(fs[..last]).maxPerCase {
        most := j;
      }
    }
  }

  // ---------------------------------------------------------------- what a case can contribute

  lemma {:induction false} LabelledAreOut(ids: seq<string>, other: seq<string>, gold: seq<string>,
                                          types: map<string, string>)
    ensures LabelledNotIn(ids, other, gold) <= |TypesNotIn(ids, other, types)| <= |ids|
  {
    if ids != [] {
      LabelledAreOut(ids[..|ids| - 1], other, gold, types);
    }
  }

  ghost predicate NoDuplicates(s: seq<string>)
  {
    forall i, j :: 0 <= i < j < |s| ==> s[i] != s[j]
  }

  ghost function IdSet(ids: seq<string>): set<string>
  {
    set x | x in ids
  }

  lemma IdSetSnoc(ids: seq<string>)
    requires ids != [] && NoDuplicates(ids)
    ensures var rest := ids[..|ids| - 1];
            NoDuplicates(rest) && ids[|ids| - 1] !in IdSet(rest) && IdSet(ids) == IdSet(rest) + {ids[|ids| - 1]}
  {
    var rest, last := ids[..|ids| - 1], ids[|ids| - 1];
    assert ids == rest + [last];
    assert forall x :: x in ids <==> x in rest || x == last;
  }

  lemma SetDifferenceSnoc(a: set<string>, x: string, b: set<string>)
    requires x !in a
    ensures |(a + {x}) - b| == |a - b| + (if x in b then 0 else 1)
    ensures |a + {x}| == |a| + 1
  {
    if x in b {
      assert (a + {x}) - b == a - b;
    } else {
      assert (a + {x}) - b == (a - b) + {x};
    }
  }

  /** Without duplicates the places counted are the ids of one window that the other does not hold. */
  lemma {:induction false} CountsMissing(ids: seq<string>, other: seq<string>, types: map<string, string>)
    requires NoDuplicates(ids)
    ensures |TypesNotIn(ids, other, types)| == |IdSet(ids) - IdSet(other)|
    ensures |IdSet(ids)| == |ids|
  {
    if ids != [] {
      var rest := ids[..|ids| - 1];
      IdSetSnoc(ids);
      CountsMissing(rest, other, types);
      SetDifferenceSnoc(IdSet(rest), ids[|ids| - 1], IdSet(other));
    }
  }

  lemma Inclusion(a: set<string>, b: set<string>)
    ensures |a - b| - |b - a| == |a| - |b|
  {
    assert a == (a - b) + (a * b) && b == (b - a) + (b * a) && a * b == b * a;
  }

  /** Entrants minus displaced is what the window grew by. */
  lemma EntrantsBalance(w: Windows, shadow: set<string>)
    requires NoDuplicates(w.base) && NoDuplicates(w.cond)
    ensures |FactsOf(w, shadow).entered| - |FactsOf(w, shadow).out| == |w.cond| - |w.base|
  {
    CountsMissing(w.base, w.cond, w.types);
    CountsMissing(w.cond, w.base, w.types);
    Inclusion(IdSet(w.cond), IdSet(w.base));
  }

  /** The places of `ids` that hold an id of `other`. */
  function SharedPlaces(ids: seq<string>, other: seq<string>): nat
  {
    if ids == [] then 0
    else SharedPlaces(ids[..|ids| - 1], other) + (if ids[|ids| - 1] in other then 1 else 0)
  }

  lemma {:induction false} PlacesSplit(ids: seq<string>, other: seq<string>, types: map<string, string>)
    ensures |TypesNotIn(ids, other, types)| + SharedPlaces(ids, other) == |ids|
  {
    if ids != [] {
      PlacesSplit(ids[..|ids| - 1], other, types);
    }
  }

  /** For any windows the balance holds exactly when both have equally many places that hold a shared id. */
  lemma EntrantsBalanceIff(w: Windows, shadow: set<string>)
    ensures |FactsOf(w, shadow).entered| - |FactsOf(w, shadow).out| == |w.cond| - |w.base|
            <==> SharedPlaces(w.base, w.cond) == SharedPlaces(w.cond, w.base)
  {
    PlacesSplit(w.base, w.cond, w.types);
    PlacesSplit(w.cond, w.base, w.types);
  }

  /** A repeated id can break it: one place of the window is lost without displacing anything. */
  lemma RepeatedIdBreaksBalance(shadow: set<string>)
    ensures var f := FactsOf(Windows(["a", "a"], ["a", "b"], map[], []), shadow);
            |f.entered| == 1 && |f.out| == 0
  {
    var u, v := ["a", "a"], ["a", "b"];
    assert "a" in u && "a" in v && "a" != "b" && "b" !in u;
    assert u[..1] == ["a"] && v[..1] == ["a"] && ["a"][..0] == [];
    assert TypesNotIn(["a"], v, map[]) == [] && TypesNotIn(["a"], u, map[]) == [];
  }

  lemma FactsAreBounded(base: Record, cond: Record, delivered: bool, shadow: set<string>)
    ensures var f := FactsOf(WindowsOf(base, cond, delivered), shadow);
            f.labelledOut <= |f.out| <= DISPLACEMENT_CUT
  {
    var w := WindowsOf(base, cond, delivered);
    LabelledAreOut(w.base, w.cond, w.gold, w.types);
  }

  lemma IdsOfDistinctRows(rows: seq<ArmRow>, cfg: Config)
    requires DistinctIds(rows)
    ensures NoDuplicates(FusedIds(Fuse(rows, cfg)))
  {
    FuseIsRanking(rows, cfg);
    SortPermutes(ByScore(ScoreBy(cfg)), rows);
    IdsStayDistinct(rows, Ranking(rows, cfg));
  }

  /** No dump lists a candidate twice, or, on the delivered basis, none delivers an id twice. */
  ghost predicate Listed(rec: Record, delivered: bool)
  {
    if delivered then NoDuplicates(rec.delivered) else DistinctIds(rec.rows)
  }

  lemma WindowRepeatsNothing(rec: Record, delivered: bool)
    requires Listed(rec, delivered)
    ensures NoDuplicates(TopIds(rec, delivered))
  {
    if !delivered {
      IdsOfDistinctRows(rec.rows, V0);
    }
  }

  // ---------------------------------------------------------------- the facts of a case, read off the records

  /** The window is the front of the ranking, five places at most. */
  lemma WindowIsTheFront(rec: Record, delivered: bool)
    ensures var ids := if delivered then rec.delivered else FusedIds(Fuse(rec.rows, V0));
            && |TopIds(rec, delivered)| == (if |ids| < 5 then |ids| else 5)
            && forall i :: 0 <= i < |TopIds(rec, delivered)| ==> TopIds(rec, delivered)[i] == ids[i]
  {
  }

  /** A candidate goes by the type of its first row, by a stand-in if the row names none or no arm has the id. */
  lemma TypeOfMeaning(rows: seq<ArmRow>, id: string)
    ensures forall i :: 0 <= i < |rows| && rows[i].id == id && (forall j :: 0 <= j < i ==> rows[j].id != id) ==>
                          TypeOf(Indexed(map[], rows), id)
                          == if rows[i].typeName == "" then "(kein type_name im Dump)" else rows[i].typeName
    ensures (forall i :: 0 <= i < |rows| ==> rows[i].id != id) ==>
              TypeOf(Indexed(map[], rows), id) == TYPE_NAME_NOT_IN_ARMS
  {
    IndexNamesFirst(rows, id);
  }

  lemma SetSnoc(rest: seq<string>, last: string, p: string -> bool)
    requires last !in rest
    ensures |set x | x in rest + [last] && p(x)| == |set x | x in rest && p(x)| + (if p(last) then 1 else 0)
  {
    var before, all := set x | x in rest && p(x), set x | x in rest + [last] && p(x);
    if p(last) {
      assert all == before + {last};
    } else {
      assert all == before;
    }
  }

  lemma LastOf(ids: seq<string>)
    requires ids != [] && NoDuplicates(ids)
    ensures var rest, last := ids[..|ids| - 1], ids[|ids| - 1];
            ids == rest + [last] && last !in rest && NoDuplicates(rest)
  {
  }

  lemma {:induction false} TypesOfMissing(ids: seq<string>, other: seq<string>, types: map<string, string>, t: string,
                                          p: string -> bool)
    requires NoDuplicates(ids) && forall x :: p(x) <==> x !in other && TypeOf(types, x) == t
    ensures multiset(TypesNotIn(ids, other, types))[t] == |set x | x in ids && p(x)|
  {
    if ids != [] {
      var rest, last := ids[..|ids| - 1], ids[|ids| - 1];
      LastOf(ids);
      TypesOfMissing(rest, other, types, t, p);
      SetSnoc(rest, last, p);
    }
  }

  lemma {:induction false} LabelledMissing(ids: seq<string>, other: seq<string>, gold: seq<string>, p: string -> bool)
    requires NoDuplicates(ids) && forall x :: p(x) <==> x !in other && x in gold
    ensures LabelledNotIn(ids, other, gold) == |set x | x in ids && p(x)|
  {
    if ids != [] {
      LastOf(ids);
      LabelledMissing(ids[..|ids| - 1], other, gold, p);
      SetSnoc(ids[..|ids| - 1], ids[|ids| - 1], p);
    }
  }

  lemma {:induction false} ShadowPresent(ids: seq<string>, types: map<string, string>, shadow: set<string>,
                                         p: string -> bool)
    requires NoDuplicates(ids) && forall x :: p(x) <==> TypeOf(types, x) in shadow
    ensures ShadowIn(ids, types, shadow) == |set x | x in ids && p(x)|
  {
    if ids != [] {
      LastOf(ids);
      ShadowPresent(ids[..|ids| - 1], types, shadow, p);
      SetSnoc(ids[..|ids| - 1], ids[|ids| - 1], p);
    }
  }

  lemma TypesMeaning(ids: seq<string>, other: seq<string>, types: map<string, string>, t: string)
    requires NoDuplicates(ids)
    ensures multiset(TypesNotIn(ids, other, types))[t] == |set x | x in ids && x !in other && TypeOf(types, x) == t|
  {
    var p := (x: string) => x !in other && TypeOf(types, x) == t;
    TypesOfMissing(ids, other, types, t, p);
    assert (set x | x in ids && p(x)) == set x | x in ids && x !in other && TypeOf(types, x) == t;
  }

  lemma LabelsMeaning(ids: seq<string>, other: seq<string>, gold: seq<string>)
    requires NoDuplicates(ids)
    ensures LabelledNotIn(ids, other, gold) == |set x | x in ids && x !in other && x in gold|
  {
    var p := (x: string) => x !in other && x in gold;
    LabelledMissing(ids, other, gold, p);
    assert (set x | x in ids && p(x)) == set x | x in ids && x !in other && x in gold;
  }

  lemma ShadowMeaning(ids: seq<string>, types: map<string, string>, shadow: set<string>)
    requires NoDuplicates(ids)
    ensures ShadowIn(ids, types, shadow) == |set x | x in ids && TypeOf(types, x) in shadow|
  {
    var p := (x: string) => TypeOf(types, x) in shadow;
    ShadowPresent(ids, types, shadow, p);
    assert (set x | x in ids && p(x)) == set x | x in ids && TypeOf(types, x) in shadow;
  }

  /**
   For windows without repeated ids: what left is what the base window holds and the condition window does
   not, by type and by label; what entered is the reverse; shadow hits are counted in the condition window.
   */
  lemma FactsMeaning(base: Record, cond: Record, delivered: bool, shadow: set<string>, t: string)
    requires Listed(base, delivered) && Listed(cond, delivered)
    ensures var f := FactsOf(WindowsOf(base, cond, delivered), shadow);
            var b, c := TopIds(base, delivered), TopIds(cond, delivered);
            var types := Indexed(map[], base.rows + cond.rows);
            && multiset(f.out)[t] == |set x | x in b && x !in c && TypeOf(types, x) == t|
            && multiset(f.entered)[t] == |set x | x in c && x !in b && TypeOf(types, x) == t|
            && f.labelledOut == |set x | x in b && x !in c && x in base.goldIds|
            && f.shadowTopK == |set x | x in c && TypeOf(types, x) in shadow|
            && f.shadowRank1 == (if c != [] && TypeOf(types, c[0]) in shadow then 1 else 0)
            && (f.labels <==> base.goldIds != [])
  {
    var b, c := TopIds(base, delivered), TopIds(cond, delivered);
    var types := Indexed(map[], base.rows + cond.rows);
    WindowRepeatsNothing(base, delivered);
    WindowRepeatsNothing(cond, delivered);
    TypesMeaning(b, c, types, t);
    TypesMeaning(c, b, types, t);
    LabelsMeaning(b, c, base.goldIds);
    ShadowMeaning(c, types, shadow);
  }

  function Sum(f: Facts -> nat, fs: seq<Facts>): nat
  {
    if fs == [] then 0 else Sum(f, fs[..|fs| - 1]) + f(fs[|fs| - 1])
  }

  /** The plain counters of a table add up the facts of its cases. */
  lemma {:induction false} TableAddsUp(fs: seq<Facts>)
    ensures var t := Tabled(fs);
            && t.displaced == Sum((f: Facts) => |f.out|, fs)
            && t.casesWith == Sum((f: Facts) => if f.out == [] then 0 else 1, fs)
            && t.labelledOut == Sum((f: Facts) => f.labelledOut, fs)
            && t.shadowTopK == Sum((f: Facts) => f.shadowTopK, fs)
            && t.shadowRank1 == Sum((f: Facts) => f.shadowRank1, fs)
            && (t.labelsAvailable <==> exists i :: 0 <= i < |fs| && fs[i].labels)
  {
    if fs != [] {
      TableAddsUp(fs[..|fs| - 1]);
    }
  }
}
