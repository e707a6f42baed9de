/** Orders, filters and stable sorting shared by the other modules. */
module Ordering {

  /** Go's `<` on strings: lexicographic on the code units. */
  predicate Less(a: string, b: string)
  {
    b != [] && (a == [] || a[0] < b[0] || (a[0] == b[0] && Less(a[1..], b[1..])))
  }

  lemma {:induction false} LessTransitive(a: string, b: string, c: string)
    requires Less(a, b) && Less(b, c)
    ensures Less(a, c)
  {
    if a != [] && a[0] == b[0] && b[0] == c[0] {
      LessTransitive(a[1..], b[1..], c[1..]);
    }
  }

  lemma {:induction false} LessTrichotomy(a: string, b: string)
    ensures a == b || Less(a, b) || Less(b, a)
    ensures !(Less(a, b) && Less(b, a))
    ensures a == b ==> !Less(a, b)
  {
    if a != [] && b != [] && a[0] == b[0] {
      LessTrichotomy(a[1..], b[1..]);
      assert a == [a[0]] + a[1..] && b == [b[0]] + b[1..];
    }
  }

  /** It is the order of the first place where the two differ, a prefix coming first. */
  lemma {:induction false} LessIsLexicographic(a: string, b: string)
    ensures Less(a, b) <==>
            (|a| < |b| && a == b[..|a|]) || exists i :: 0 <= i < |a| && i < |b| && a[..i] == b[..i] && a[i] < b[i]
  {
    if a != [] && b != [] && a[0] == b[0] {
      LessIsLexicographic(a[1..], b[1..]);
      if i :| 0 <= i < |a[1..]| && i < |b[1..]| && a[1..][..i] == b[1..][..i] && a[1..][i] < b[1..][i] {
        assert a[..i + 1] == [a[0]] + a[1..][..i] && b[..i + 1] == [b[0]] + b[1..][..i];
      }
      if i :| 0 <= i < |a| && i < |b| && a[..i] == b[..i] && a[i] < b[i] {
        assert a[1..][..i - 1] == a[..i][1..] && b[1..][..i - 1] == b[..i][1..];
      }
      assert a == [a[0]] + a[1..];
      if |a| <= |b| {
        assert b[..|a|] == [b[0]] + b[1..][..|a| - 1];
      }
    }
  }

  /** The three laws at once, for callers that compare many keys. */
  lemma LessIsStrictTotalOrder()
    ensures forall a {:trigger Less(a, a)} :: !Less(a, a)
    ensures forall a, b :: a == b || Less(a, b) || Less(b, a)
    ensures forall a, b, c {:trigger Less(a, b), Less(b, c)} :: Less(a, b) && Less(b, c) ==> Less(a, c)
  {
    forall a {:trigger Less(a, a)} ensures !Less(a, a) { LessTrichotomy(a, a); }
    forall a, b ensures a == b || Less(a, b) || Less(b, a) { LessTrichotomy(a, b); }
    forall a, b, c {:trigger Less(a, b), Less(b, c)} | Less(a, b) && Less(b, c)
      ensures Less(a, c) { LessTransitive(a, b, c); }
  }

  /** `x` stands in the text at `a`. */
  predicate OccursAt(s: string, x: string, a: nat)
  {
    a + |x| <= |s| && forall k :: 0 <= k < |x| ==> s[a + k] == x[k]
  }

  // ---------------------------------------------------------------- filtering

  function Filter<T(!new)>(p: T -> bool, s: seq<T>): (r: seq<T>)
    ensures |r| <= |s|
    ensures forall x :: x in r <==> x in s && p(x)
  {
    if s == [] then [] else (if p(s[0]) then [s[0]] else []) + Filter(p, s[1..])
  }

  lemma {:induction false} FilterAppend<T(!new)>(p: T -> bool, s: seq<T>, t: seq<T>)
    ensures Filter(p, s + t) == Filter(p, s) + Filter(p, t)
  {
    if s == [] {
      assert s + t == t;
    } else {
      assert (s + t)[1..] == s[1..] + t;
      FilterAppend(p, s[1..], t);
    }
  }

  /** The step of a loop that appends the accepted elements one by one. */
  lemma FilterSnoc<T(!new)>(p: T -> bool, s: seq<T>, k: nat)
    requires k < |s|
    ensures Filter(p, s[..k + 1]) == Filter(p, s[..k]) + (if p(s[k]) then [s[k]] else [])
  {
    assert s[..k + 1] == s[..k] + [s[k]];
    FilterAppend(p, s[..k], [s[k]]);
  }

  lemma {:induction false} FilterTwice<T(!new)>(p: T -> bool, q: T -> bool, r: T -> bool, s: seq<T>)
    requires forall x :: x in s ==> (r(x) <==> p(x) && q(x))
    ensures Filter(p, Filter(q, s)) == Filter(r, s)
  {
    if s != [] {
      var t := Filter(q, s[1..]);
      FilterTwice(p, q, r, s[1..]);
      if q(s[0]) {
        assert Filter(q, s) == [s[0]] + t;
        assert ([s[0]] + t)[1..] == t;
      } else {
        assert Filter(q, s) == t;
      }
    }
  }

  lemma {:induction false} FilterSame<T(!new)>(p: T -> bool, q: T -> bool, s: seq<T>)
    requires forall x :: x in s ==> (p(x) <==> q(x))
    ensures Filter(p, s) == Filter(q, s)
  {
    if s != [] {
      FilterSame(p, q, s[1..]);
    }
  }

  lemma {:induction false} FilterAll<T(!new)>(p: T -> bool, s: seq<T>)
    requires forall x :: x in s ==> p(x)
    ensures Filter(p, s) == s
  {
    if s != [] {
      FilterAll(p, s[1..]);
    }
  }

  lemma {:induction false} FilterNone<T(!new)>(p: T -> bool, s: seq<T>)
    requires forall x :: x in s ==> !p(x)
    ensures Filter(p, s) == []
  {
    if s != [] {
      FilterNone(p, s[1..]);
    }
  }

  lemma FilterIsPrefix<T(!new)>(p: T -> bool, s: seq<T>, k: nat)
    requires k <= |s| && forall j :: 0 <= j < |s| ==> (p(s[j]) <==> j < k)
    ensures Filter(p, s) == s[..k]
  {
    assert s == s[..k] + s[k..];
    FilterAppend(p, s[..k], s[k..]);
    FilterAll(p, s[..k]);
    FilterNone(p, s[k..]);
  }

  lemma {:induction false} FilterSizeMonotone<T(!new)>(p: T -> bool, q: T -> bool, s: seq<T>)
    requires forall x :: x in s && p(x) ==> q(x)
    ensures |Filter(p, s)| <= |Filter(q, s)|
  {
    if s != [] {
      FilterSizeMonotone(p, q, s[1..]);
      assert s[0] in s;
    }
  }

  /** Two arrangements of the same elements still agree after the first of one is taken out of both. */
  lemma TakeOut<T>(s: seq<T>, t: seq<T>) returns (a: seq<T>, b: seq<T>)
    requires multiset(s) == multiset(t) && s != []
    ensures t == a + [s[0]] + b && multiset(s[1..]) == multiset(a + b)
  {
    SameElements(s, t);
    assert s[0] in t;
    var i :| 0 <= i < |t| && t[i] == s[0];
    a, b := t[..i], t[i + 1..];
    assert t == a + [s[0]] + b;
    TailMultiset(s);
  }

  lemma FilterMiddle<T(!new)>(p: T -> bool, a: seq<T>, x: T, b: seq<T>)
    ensures |Filter(p, a + [x] + b)| == |Filter(p, a + b)| + (if p(x) then 1 else 0)
  {
    FilterAppend(p, a + [x], b);
    FilterAppend(p, a, [x]);
    FilterAppend(p, a, b);
  }

  lemma {:induction false} FilterSizePermuted<T(!new)>(p: T -> bool, s: seq<T>, t: seq<T>)
    requires multiset(s) == multiset(t)
    ensures |Filter(p, s)| == |Filter(p, t)|
  {
    if s == [] {
      SameElements(s, t);
    } else {
      var a, b := TakeOut(s, t);
      FilterSizePermuted(p, s[1..], a + b);
      FilterMiddle(p, a, s[0], b);
    }
  }

  /** A filter counts what two exclusive halves of it count together. */
  lemma {:induction false} FilterSplit<T(!new)>(p: T -> bool, q: T -> bool, r: T -> bool, s: seq<T>)
    requires forall x :: x in s ==> (p(x) <==> q(x) || r(x)) && !(q(x) && r(x))
    ensures |Filter(p, s)| == |Filter(q, s)| + |Filter(r, s)|
  {
    if s != [] {
      FilterSplit(p, q, r, s[1..]);
      assert s[0] in s;
    }
  }

  /** Two accepted places make two entries of the filtered list. */
  lemma {:induction false} FilterTakesTwo<T(!new)>(p: T -> bool, s: seq<T>, i: nat, j: nat)
    requires i < j < |s| && p(s[i]) && p(s[j])
    ensures |Filter(p, s)| >= 2
  {
    if i == 0 {
      var rest := s[1..];
      assert rest[j - 1] in Filter(p, rest);
    } else {
      FilterTakesTwo(p, s[1..], i - 1, j - 1);
    }
  }

  lemma {:induction false} FilterFindsTwo<T(!new)>(p: T -> bool, s: seq<T>) returns (i: nat, j: nat)
    requires |Filter(p, s)| >= 2
    ensures i < j < |s| && p(s[i]) && p(s[j])
  {
    var rest := s[1..];
    if p(s[0]) {
      i := 0;
      assert Filter(p, rest)[0] in Filter(p, rest);
      var k :| 0 <= k < |rest| && rest[k] == Filter(p, rest)[0];
      j := k + 1;
    } else {
      i, j := FilterFindsTwo(p, rest);
      i, j := i + 1, j + 1;
    }
  }

  function Map<T, U>(f: T -> U, s: seq<T>): (r: seq<U>)
    ensures |r| == |s|
    ensures forall i :: 0 <= i < |s| ==> r[i] == f(s[i])
  {
    if s == [] then [] else [f(s[0])] + Map(f, s[1..])
  }

  lemma MapAppend<T, U>(f: T -> U, s: seq<T>, t: seq<T>)
    ensures Map(f, s + t) == Map(f, s) + Map(f, t)
  {
  }

  lemma MapMiddle<T, U>(f: T -> U, a: seq<T>, x: T, b: seq<T>)
    ensures multiset(Map(f, a + [x] + b)) == multiset(Map(f, a + b)) + multiset{f(x)}
  {
    MapAppend(f, a + [x], b);
    MapAppend(f, a, [x]);
    MapAppend(f, a, b);
  }

  lemma {:induction false} MapPermuted<T, U>(f: T -> U, s: seq<T>, t: seq<T>)
    requires multiset(s) == multiset(t)
    ensures multiset(Map(f, s)) == multiset(Map(f, t))
  {
    if s == [] {
      SameElements(s, t);
    } else {
      var a, b := TakeOut(s, t);
      MapPermuted(f, s[1..], a + b);
      MapMiddle(f, a, s[0], b);
    }
  }

  /** The lists `f` gives for the elements, one after the other. */
  function FlatMap<T, U>(f: T -> seq<U>, s: seq<T>): seq<U>
  {
    if s == [] then [] else f(s[0]) + FlatMap(f, s[1..])
  }

  lemma {:induction false} FlatMapAppend<T, U>(f: T -> seq<U>, s: seq<T>, t: seq<T>)
    ensures FlatMap(f, s + t) == FlatMap(f, s) + FlatMap(f, t)
  {
    if s == [] {
      assert s + t == t;
    } else {
      assert (s + t)[1..] == s[1..] + t;
      FlatMapAppend(f, s[1..], t);
    }
  }

  lemma FlatMapSnoc<T, U>(f: T -> seq<U>, s: seq<T>, k: nat)
    requires k < |s|
    ensures FlatMap(f, s[..k + 1]) == FlatMap(f, s[..k]) + f(s[k])
  {
    assert s[..k + 1] == s[..k] + [s[k]];
    FlatMapAppend(f, s[..k], [s[k]]);
    assert [s[k]][1..] == [];
  }

  lemma {:induction false} FlatMapOfFilter<T(!new), U>(f: T -> seq<U>, p: T -> bool, s: seq<T>)
    requires forall x :: x in s && !p(x) ==> f(x) == []
    ensures FlatMap(f, Filter(p, s)) == FlatMap(f, s)
  {
    if s != [] {
      var t := Filter(p, s[1..]);
      FlatMapOfFilter(f, p, s[1..]);
      if p(s[0]) {
        assert Filter(p, s) == [s[0]] + t;
        assert ([s[0]] + t)[1..] == t;
      } else {
        assert s[0] in s;
        assert Filter(p, s) == t;
      }
    }
  }

  lemma {:induction false} FlatMapSame<T(!new), U>(f: T -> seq<U>, g: T -> seq<U>, s: seq<T>)
    requires forall x :: x in s ==> f(x) == g(x)
    ensures FlatMap(f, s) == FlatMap(g, s)
  {
    if s != [] {
      assert s[0] in s;
      FlatMapSame(f, g, s[1..]);
    }
  }

  // ---------------------------------------------------------------- sorting

  /** What sort.SliceStable asks of its less function. */
  ghost predicate StrictWeakOrder<T(!new)>(less: (T, T) -> bool)
  {
    && (forall x, y :: less(x, y) ==> !less(y, x))
    && (forall x, y, z :: less(x, z) ==> less(x, y) || less(y, z))
  }

  ghost predicate SortedBy<T>(less: (T, T) -> bool, s: seq<T>)
  {
    forall i, j :: 0 <= i < j < |s| ==> !less(s[j], s[i])
  }

  function Insert<T>(less: (T, T) -> bool, x: T, s: seq<T>): seq<T>
  {
    if s == [] || !less(s[0], x) then [x] + s else [s[0]] + Insert(less, x, s[1..])
  }

  /** The stable sort of `s`: an element is placed before the equal ones that followed it. */
  function StableSort<T>(less: (T, T) -> bool, s: seq<T>): seq<T>
  {
    if s == [] then [] else Insert(less, s[0], StableSort(less, s[1..]))
  }

  lemma {:induction false} InsertPermutes<T>(less: (T, T) -> bool, x: T, s: seq<T>)
    ensures multiset(Insert(less, x, s)) == multiset{x} + multiset(s)
  {
    if !(s == [] || !less(s[0], x)) {
      InsertPermutes(less, x, s[1..]);
      assert s == [s[0]] + s[1..];
    }
  }

  lemma {:induction false} SortPermutes<T>(less: (T, T) -> bool, s: seq<T>)
    ensures multiset(StableSort(less, s)) == multiset(s)
  {
    if s != [] {
      SortPermutes(less, s[1..]);
      InsertPermutes(less, s[0], StableSort(less, s[1..]));
      assert s == [s[0]] + s[1..];
    }
  }

  lemma SortMembers<T>(less: (T, T) -> bool, s: seq<T>)
    ensures forall x :: x in StableSort(less, s) <==> x in s
    ensures |StableSort(less, s)| == |s|
  {
    SortPermutes(less, s);
    SameElements(StableSort(less, s), s);
  }

  lemma SameElements<T>(s: seq<T>, t: seq<T>)
    requires multiset(s) == multiset(t)
    ensures forall x :: x in s <==> x in t
    ensures |s| == |t|
  {
    assert forall x :: x in s <==> x in multiset(s);
    assert forall x :: x in t <==> x in multiset(t);
    assert |s| == |multiset(s)| == |multiset(t)| == |t|;
  }

  lemma {:induction false} InsertSorted<T(!new)>(less: (T, T) -> bool, x: T, s: seq<T>)
    requires StrictWeakOrder(less) && SortedBy(less, s)
    ensures SortedBy(less, Insert(less, x, s))
  {
    if s == [] || !less(s[0], x) {
    } else {
      var r := Insert(less, x, s[1..]);
      InsertSorted(less, x, s[1..]);
      InsertPermutes(less, x, s[1..]);
      SameElements(r, [x] + s[1..]);
      forall y | y in r ensures !less(y, s[0]) {
        assert y in [x] + s[1..];
      }
    }
  }

  lemma {:induction false} SortSorts<T(!new)>(less: (T, T) -> bool, s: seq<T>)
    requires StrictWeakOrder(less)
    ensures SortedBy(less, StableSort(less, s))
  {
    if s != [] {
      SortSorts(less, s[1..]);
      InsertSorted(less, s[0], StableSort(less, s[1..]));
    }
  }

  /** Filtering out rows before or after inserting into a sorted list is the same. */
  lemma {:induction false} FilterInsert<T(!new)>(less: (T, T) -> bool, p: T -> bool, x: T, s: seq<T>)
    requires StrictWeakOrder(less) && SortedBy(less, s)
    ensures Filter(p, Insert(less, x, s)) == if p(x) then Insert(less, x, Filter(p, s)) else Filter(p, s)
  {
    if s == [] || !less(s[0], x) {
      assert ([x] + s)[1..] == s;
      var f := Filter(p, s);
      if f != [] {
        assert f[0] in s;
        assert !less(f[0], x);
      }
    } else {
      var r := Insert(less, x, s[1..]);
      FilterInsert(less, p, x, s[1..]);
      var f := Filter(p, s[1..]);
      assert ([s[0]] + r)[1..] == r;
      if p(s[0]) {
        assert Filter(p, s) == [s[0]] + f;
        assert ([s[0]] + f)[1..] == f;
        assert Insert(less, x, [s[0]] + f) == [s[0]] + Insert(less, x, f);
        assert Filter(p, [s[0]] + r) == [s[0]] + Filter(p, r);
      } else {
        assert Filter(p, s) == f;
        assert Filter(p, [s[0]] + r) == Filter(p, r);
      }
    }
  }

  /** A stable sort commutes with every filter. */
  lemma {:induction false} SortFilter<T(!new)>(less: (T, T) -> bool, p: T -> bool, s: seq<T>)
    requires StrictWeakOrder(less)
    ensures StableSort(less, Filter(p, s)) == Filter(p, StableSort(less, s))
  {
    if s != [] {
      var t := StableSort(less, s[1..]);
      SortFilter(less, p, s[1..]);
      SortSorts(less, s[1..]);
      FilterInsert(less, p, s[0], t);
      var f := Filter(p, s[1..]);
      if p(s[0]) {
        assert Filter(p, s) == [s[0]] + f;
        assert ([s[0]] + f)[1..] == f;
        assert StableSort(less, [s[0]] + f) == Insert(less, s[0], StableSort(less, f));
      } else {
        assert Filter(p, s) == f;
      }
    }
  }

  /** Elements of which none is smaller than another stay as they are. */
  lemma {:induction false} SortTied<T(!new)>(less: (T, T) -> bool, s: seq<T>)
    requires forall x, y :: x in s && y in s ==> !less(x, y)
    ensures StableSort(less, s) == s
  {
    if s != [] {
      SortTied(less, s[1..]);
      assert s[1..] != [] ==> s[1] in s && s[0] in s;
    }
  }

  lemma TailMultiset<T>(s: seq<T>)
    requires s != []
    ensures multiset(s[1..]) == multiset(s) - multiset{s[0]}
  {
    assert s == [s[0]] + s[1..];
  }

  /** Two sorted arrangements of the same elements agree when no two of them tie. */
  lemma {:induction false} SortedUnique<T(!new)>(less: (T, T) -> bool, s: seq<T>, t: seq<T>)
    requires StrictWeakOrder(less)
    requires SortedBy(less, s) && SortedBy(less, t)
    requires multiset(s) == multiset(t)
    requires forall x, y :: x in s && y in s && x != y ==> less(x, y) || less(y, x)
    ensures s == t
  {
    SameElements(s, t);
    if s != [] {
      assert s[0] in t && t[0] in s;
      assert s[0] == t[0] by {
        var i :| 0 <= i < |t| && t[i] == s[0];
        var j :| 0 <= j < |s| && s[j] == t[0];
        assert i == 0 || !less(t[i], t[0]);
        assert j == 0 || !less(s[j], s[0]);
      }
      TailMultiset(s);
      TailMultiset(t);
      SortedUnique(less, s[1..], t[1..]);
    }
  }

  /** Sorting only asks the order about the elements it sorts. */
  lemma {:induction false} SortCongruent<T(!new)>(less: (T, T) -> bool, less': (T, T) -> bool, s: seq<T>)
    requires forall i, j :: 0 <= i < |s| && 0 <= j < |s| ==> less(s[i], s[j]) == less'(s[i], s[j])
    ensures StableSort(less, s) == StableSort(less', s)
  {
    if s != [] {
      var t := StableSort(less, s[1..]);
      SortCongruent(less, less', s[1..]);
      SortPermutes(less, s[1..]);
      SameElements(t, s[1..]);
      forall k | 0 <= k < |t| ensures less(t[k], s[0]) == less'(t[k], s[0]) {
        assert t[k] in t && t[k] in s[1..];
        var j :| 0 <= j < |s[1..]| && s[1..][j] == t[k];
        assert s[j + 1] == t[k];
      }
      InsertCongruent(less, less', s[0], t);
    }
  }

  lemma {:induction false} InsertCongruent<T(!new)>(less: (T, T) -> bool, less': (T, T) -> bool, x: T, s: seq<T>)
    requires forall i :: 0 <= i < |s| ==> less(s[i], x) == less'(s[i], x)
    ensures Insert(less, x, s) == Insert(less', x, s)
  {
    if s != [] {
      InsertCongruent(less, less', x, s[1..]);
    }
  }

  /** `k` is the first of the smallest elements of `s`. */
  ghost predicate IsFirstLeast<T>(less: (T, T) -> bool, s: seq<T>, k: nat)
  {
    && k < |s|
    && (forall j :: 0 <= j < k ==> less(s[k], s[j]))
    && (forall j :: 0 <= j < |s| ==> !less(s[j], s[k]))
  }

  /** The head of a stable sort is the first of the smallest elements. */
  lemma {:induction false} SortHead<T(!new)>(less: (T, T) -> bool, s: seq<T>, k: nat)
    requires StrictWeakOrder(less) && IsFirstLeast(less, s, k)
    ensures StableSort(less, s) != [] && StableSort(less, s)[0] == s[k]
  {
    var t := StableSort(less, s[1..]);
    SortPermutes(less, s[1..]);
    SameElements(t, s[1..]);
    SortSorts(less, s[1..]);
    if k == 0 {
      if t != [] {
        assert t[0] in s[1..];
        var j :| 0 <= j < |s[1..]| && s[1..][j] == t[0];
        assert s[j + 1] == t[0];
      }
    } else {
      assert IsFirstLeast(less, s[1..], k - 1);
      SortHead(less, s[1..], k - 1);
    }
  }

  // ---------------------------------------------------------------- runs

  /** The state that a list of actions leads to. */
  function Led<S, A>(step: (S, A) -> S, s: S, actions: seq<A>): S
  {
    if actions == [] then s else step(Led(step, s, actions[..|actions| - 1]), actions[|actions| - 1])
  }

  lemma {:induction false} LedOn<S, A>(step: (S, A) -> S, s: S, a: seq<A>, b: seq<A>)
    ensures Led(step, s, a + b) == Led(step, Led(step, s, a), b)
  {
    if b == [] {
      assert a + b == a;
    } else {
      var all := a + b;
      LedOn(step, s, a, b[..|b| - 1]);
      assert all[..|all| - 1] == a + b[..|b| - 1] && all[|all| - 1] == b[|b| - 1];
    }
  }

  lemma LedByOne<S, A>(step: (S, A) -> S, s: S, a: A, rest: seq<A>)
    ensures Led(step, s, [a]) == step(s, a)
    ensures Led(step, s, [a] + rest) == Led(step, step(s, a), rest)
  {
    assert [a][..0] == [];
    LedOn(step, s, [a], rest);
  }

  /** A number above all the used ones. */
  lemma {:induction false} Unused(used: set<nat>) returns (t: nat)
    ensures forall u :: u in used ==> u < t
  {
    if used == {} {
      t := 0;
    } else {
      var u :| u in used;
      var rest := Unused(used - {u});
      t := if u < rest then rest else u + 1;
      forall v | v in used ensures v < t {
        if v != u {
          assert v in used - {u};
        }
      }
    }
  }
}
