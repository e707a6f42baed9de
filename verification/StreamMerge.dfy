/**
 The lockstep walk of `compare` over several dumps
 (go/internal/armsweep/compare.go streamPairs, go/internal/armsweep/stream.go RecordStream.Next).
 */
module StreamMerge {
  import opened Options
  import opened Ordering
  import opened Dumps

  /** How many unpaired case keys a report names. */
  const MAX_NAMED_UNPAIRED: nat := 25

  // ---------------------------------------------------------------- one stream

  /** Every value decodes and the case keys strictly ascend. */
  ghost predicate SortedDump(d: seq<Item>)
  {
    && (forall i :: 0 <= i < |d| ==> d[i].Rec?)
    && (forall i, j :: 0 <= i < j < |d| ==> Less(d[i].key, d[j].key))
  }

  datatype Fetched = End | Got(item: Item) | Refused

  class RecordStream {
    const items: seq<Item>
    var pos: nat
    var last: string
    var n: nat

    constructor (items: seq<Item>)
      ensures this.items == items && pos == 0 && n == 0 && last == ""
    {
      this.items := items;
      pos, n, last := 0, 0, "";
    }

    /** So far every value was a record and was handed out. */
    ghost predicate InStep()
      reads this
    {
      && pos == n <= |items|
      && SortedDump(items[..n])
      && (n > 0 ==> last == items[n - 1].key)
    }

    /** Hands out the next record, or refuses a value that does not decode or does not ascend. */
    method Next() returns (f: Fetched)
      requires InStep()
      modifies this
      ensures f.End? ==> n == old(n) == |items| && InStep()
      ensures f.Got? ==> n == old(n) + 1 && InStep() && f.item == items[old(n)]
      ensures f.Refused? ==> !SortedDump(items)
    {
      if pos == |items| {
        return End;
      }
      var item := items[pos];
      if item.Broken? {
        return Refused;
      }
      LessTrichotomy(last, item.key);
      if n > 0 && !Less(last, item.key) {
        pos := pos + 1;
        return Refused;
      }
      PrefixGrows(items, n);
      pos, last, n := pos + 1, item.key, n + 1;
      return Got(item);
    }
  }

  lemma PrefixGrows(d: seq<Item>, n: nat)
    requires n < |d| && SortedDump(d[..n]) && d[n].Rec?
    requires n > 0 ==> Less(d[n - 1].key, d[n].key)
    ensures SortedDump(d[..n + 1])
  {
    forall i | 0 <= i < n ensures Less(d[i].key, d[n].key) {
      if i < n - 1 {
        assert Less(d[..n][i].key, d[..n][n - 1].key);
        LessTransitive(d[i].key, d[n - 1].key, d[n].key);
      }
    }
    assert d[..n + 1] == d[..n] + [d[n]];
  }

  // ---------------------------------------------------------------- the reference: a join by key

  ghost predicate HasKey(d: seq<Item>, key: string)
  {
    exists j :: 0 <= j < |d| && d[j].Rec? && d[j].key == key
  }

  function KeysOf(d: seq<Item>): (r: set<string>)
    ensures forall k :: k in r <==> HasKey(d, k)
  {
    set j | 0 <= j < |d| && d[j].Rec? :: d[j].key
  }

  /** The keys of at least one dump. */
  ghost function AllKeys(dumps: seq<seq<Item>>): set<string>
  {
    set i, k | 0 <= i < |dumps| && k in KeysOf(dumps[i]) :: k
  }

  ghost predicate InAll(dumps: seq<seq<Item>>, key: string)
  {
    forall i :: 0 <= i < |dumps| ==> HasKey(dumps[i], key)
  }

  /** The keys of every dump. */
  ghost function CommonKeys(dumps: seq<seq<Item>>): set<string>
  {
    set k | k in AllKeys(dumps) && InAll(dumps, k)
  }

  ghost function Find(d: seq<Item>, key: string): (r: Record)
    requires HasKey(d, key)
    ensures Rec(key, r) in d
  {
    var j :| 0 <= j < |d| && d[j].Rec? && d[j].key == key;
    d[j].rec
  }

  /** The record each dump holds for the key. */
  ghost function Tuple(dumps: seq<seq<Item>>, key: string): (r: seq<Record>)
    requires InAll(dumps, key)
    ensures |r| == |dumps|
    ensures forall i :: 0 <= i < |dumps| ==> Rec(key, r[i]) in dumps[i]
  {
    seq(|dumps|, i requires 0 <= i < |dumps| => Find(dumps[i], key))
  }

  /** The tuples of the keys that `driver` shares with every dump, in the order of `driver`. */
  ghost function Join(driver: seq<Item>, dumps: seq<seq<Item>>): (r: seq<seq<Record>>)
  {
    if driver == [] then []
    else
      var x := driver[|driver| - 1];
      Join(driver[..|driver| - 1], dumps)
      + if x.Rec? && InAll(dumps, x.key) then [Tuple(dumps, x.key)] else []
  }

  /** The paired cases of the dumps, in ascending key order. */
  ghost function Pairs(dumps: seq<seq<Item>>): seq<seq<Record>>
  {
    if dumps == [] then [] else Join(dumps[0], dumps)
  }

  function FoldAll<A>(fold: (A, seq<Record>) -> Option<A>, init: A, cases: seq<seq<Record>>): Option<A>
  {
    if cases == [] then Some(init)
    else
      var rest := FoldAll(fold, init, cases[..|cases| - 1]);
      if rest.None? then None else fold(rest.value, cases[|cases| - 1])
  }

  lemma {:induction false} FoldFailsEarly<A>(fold: (A, seq<Record>) -> Option<A>, init: A, some: seq<seq<Record>>,
                                             all: seq<seq<Record>>)
    requires some <= all && FoldAll(fold, init, some).None?
    ensures FoldAll(fold, init, all).None?
    decreases |all|
  {
    if |some| < |all| {
      FoldFailsEarly(fold, init, some, all[..|all| - 1]);
    } else {
      assert some == all;
    }
  }

  /** `s` lists the smallest `cap` members of `keys` (all of them if there are fewer), ascending. */
  ghost predicate SmallestOf(s: seq<string>, keys: set<string>, cap: nat)
  {
    && (forall i, j :: 0 <= i < j < |s| ==> Less(s[i], s[j]))
    && (forall i :: 0 <= i < |s| ==> s[i] in keys)
    && |s| == (if |keys| < cap then |keys| else cap)
    && (forall k :: k in keys && k !in s ==> forall i :: 0 <= i < |s| ==> Less(s[i], k))
  }

  lemma SmallestGrows(s: seq<string>, keys: set<string>, k: string, cap: nat)
    requires SmallestOf(s, keys, cap) && k !in keys
    requires forall x :: x in keys ==> Less(x, k)
    ensures SmallestOf(if |s| < cap then s + [k] else s, keys + {k}, cap)
  {
    if |s| < cap {
      AllListed(s, keys);
    }
  }

  lemma AllListed(s: seq<string>, keys: set<string>)
    requires forall i, j :: 0 <= i < j < |s| ==> Less(s[i], s[j])
    requires forall i :: 0 <= i < |s| ==> s[i] in keys
    requires |s| == |keys|
    ensures forall k :: k in keys ==> k in s
  {
    var listed := set i | 0 <= i < |s| :: s[i];
    DistinctCount(s);
    assert listed <= keys;
    SubsetOfSameSize(listed, keys);
  }

  lemma {:induction false} DistinctCount(s: seq<string>)
    requires forall i, j :: 0 <= i < j < |s| ==> Less(s[i], s[j])
    ensures |set i | 0 <= i < |s| :: s[i]| == |s|
  {
    if s != [] {
      var t := s[..|s| - 1];
      DistinctCount(t);
      var last := s[|s| - 1];
      forall i | 0 <= i < |t| ensures t[i] != last { LessTrichotomy(t[i], last); }
      assert (set i | 0 <= i < |s| :: s[i]) == (set i | 0 <= i < |t| :: t[i]) + {last};
    }
  }

  lemma SubsetOfSameSize(a: set<string>, b: set<string>)
    requires a <= b && |a| == |b|
    ensures a == b
  {
    assert b == a + (b - a);
    assert |b - a| == 0;
  }

  // ---------------------------------------------------------------- the walk, on cursor positions

  ghost predicate AllSorted(dumps: seq<seq<Item>>)
  {
    forall i :: 0 <= i < |dumps| ==> SortedDump(dumps[i])
  }

  ghost predicate Cursors(dumps: seq<seq<Item>>, p: seq<nat>)
  {
    |p| == |dumps| && forall i :: 0 <= i < |p| ==> p[i] <= |dumps[i]|
  }

  /** The keys that lie before the cursors. */
  ghost predicate Seen(dumps: seq<seq<Item>>, p: seq<nat>, key: string)
    requires Cursors(dumps, p)
  {
    exists i :: 0 <= i < |dumps| && key in KeysOf(dumps[i][..p[i]])
  }

  ghost function SeenKeys(dumps: seq<seq<Item>>, p: seq<nat>): (r: set<string>)
    requires Cursors(dumps, p)
    ensures forall k :: k in r <==> Seen(dumps, p, k)
  {
    set i, k | 0 <= i < |dumps| && k in KeysOf(dumps[i][..p[i]]) :: k
  }

  /** Everything before the cursors is smaller than everything behind them. */
  ghost predicate Split(dumps: seq<seq<Item>>, p: seq<nat>)
    requires Cursors(dumps, p) && AllSorted(dumps)
  {
    forall key, i, j :: Seen(dumps, p, key) && 0 <= i < |dumps| && p[i] <= j < |dumps[i]| ==> Less(key, dumps[i][j].key)
  }

  /** Some cursor is not at the end, and `key` is the smallest key under a cursor. */
  ghost predicate IsSmallest(dumps: seq<seq<Item>>, p: seq<nat>, key: string)
    requires Cursors(dumps, p) && AllSorted(dumps)
  {
    && (exists i :: 0 <= i < |dumps| && At(dumps, p, i, key))
    && (forall i :: 0 <= i < |dumps| && p[i] < |dumps[i]| ==> !Less(dumps[i][p[i]].key, key))
  }

  ghost predicate At(dumps: seq<seq<Item>>, p: seq<nat>, i: nat, key: string)
    requires Cursors(dumps, p) && i < |dumps|
  {
    p[i] < |dumps[i]| && dumps[i][p[i]].Rec? && dumps[i][p[i]].key == key
  }

  /** Moves past `key` every cursor that stands on it. */
  ghost function Advanced(dumps: seq<seq<Item>>, p: seq<nat>, key: string): (q: seq<nat>)
    requires Cursors(dumps, p)
    ensures Cursors(dumps, q)
    ensures forall i :: 0 <= i < |p| ==> q[i] == if At(dumps, p, i, key) then p[i] + 1 else p[i]
  {
    seq(|p|, i requires 0 <= i < |p| => if At(dumps, p, i, key) then p[i] + 1 else p[i])
  }

  lemma KeyBehindCursor(dumps: seq<seq<Item>>, p: seq<nat>, key: string, i: nat, j: nat)
    requires Cursors(dumps, p) && AllSorted(dumps) && IsSmallest(dumps, p, key)
    requires i < |dumps| && p[i] <= j < |dumps[i]|
    ensures dumps[i][j].key == key <==> j == p[i] && At(dumps, p, i, key)
    ensures dumps[i][j].key != key ==> Less(key, dumps[i][j].key)
  {
    var here, there := dumps[i][p[i]].key, dumps[i][j].key;
    LessTrichotomy(here, key);
    LessTrichotomy(there, key);
    if p[i] < j {
      assert Less(here, there);
      if here == key {
      } else {
        LessTransitive(key, here, there);
      }
    }
  }

  lemma PrefixIsSeen(dumps: seq<seq<Item>>, p: seq<nat>, i: nat, j: nat)
    requires Cursors(dumps, p) && i < |dumps| && j < p[i] && dumps[i][j].Rec?
    ensures Seen(dumps, p, dumps[i][j].key)
  {
    assert dumps[i][..p[i]][j] == dumps[i][j];
  }

  lemma SeenAt(dumps: seq<seq<Item>>, p: seq<nat>, key: string) returns (i: nat, j: nat)
    requires Cursors(dumps, p) && Seen(dumps, p, key)
    ensures i < |dumps| && j < p[i] && dumps[i][j].Rec? && dumps[i][j].key == key
  {
    i :| 0 <= i < |dumps| && key in KeysOf(dumps[i][..p[i]]);
    j :| 0 <= j < p[i] && dumps[i][..p[i]][j].Rec? && dumps[i][..p[i]][j].key == key;
  }

  lemma SeenIsSmaller(dumps: seq<seq<Item>>, p: seq<nat>, key: string, k: string)
    requires Cursors(dumps, p) && AllSorted(dumps) && Split(dumps, p) && IsSmallest(dumps, p, key)
    requires Seen(dumps, p, k)
    ensures Less(k, key) && k != key
  {
    var i :| 0 <= i < |dumps| && At(dumps, p, i, key);
    LessTrichotomy(k, key);
  }

  /** The next key is new, and it is the only key that a round consumes. */
  lemma SeenGrows(dumps: seq<seq<Item>>, p: seq<nat>, key: string)
    requires Cursors(dumps, p) && AllSorted(dumps) && Split(dumps, p) && IsSmallest(dumps, p, key)
    ensures !Seen(dumps, p, key)
    ensures SeenKeys(dumps, Advanced(dumps, p, key)) == SeenKeys(dumps, p) + {key}
  {
    var q := Advanced(dumps, p, key);
    forall k | Seen(dumps, p, k) ensures k != key && Seen(dumps, q, k) {
      SeenIsSmaller(dumps, p, key, k);
      var i, j := SeenAt(dumps, p, k);
      PrefixIsSeen(dumps, q, i, j);
    }
    forall k | Seen(dumps, q, k) && k != key ensures Seen(dumps, p, k) {
      var i, j := SeenAt(dumps, q, k);
      PrefixIsSeen(dumps, p, i, j);
    }
    var i :| 0 <= i < |dumps| && At(dumps, p, i, key);
    PrefixIsSeen(dumps, q, i, p[i]);
  }

  lemma SplitStays(dumps: seq<seq<Item>>, p: seq<nat>, key: string)
    requires Cursors(dumps, p) && AllSorted(dumps) && Split(dumps, p) && IsSmallest(dumps, p, key)
    ensures Split(dumps, Advanced(dumps, p, key))
  {
    var q := Advanced(dumps, p, key);
    SeenGrows(dumps, p, key);
    forall k, i, j | Seen(dumps, q, k) && 0 <= i < |dumps| && q[i] <= j < |dumps[i]|
      ensures Less(k, dumps[i][j].key)
    {
      assert k in SeenKeys(dumps, p) + {key};
      assert p[i] <= j;
      if k == key {
        KeyBehindCursor(dumps, p, key, i, j);
      } else {
        assert Seen(dumps, p, k);
      }
    }
  }

  /** A key under the cursors is common exactly when every cursor stands on it. */
  lemma CommonIffAllAt(dumps: seq<seq<Item>>, p: seq<nat>, key: string)
    requires Cursors(dumps, p) && AllSorted(dumps) && Split(dumps, p) && IsSmallest(dumps, p, key)
    ensures InAll(dumps, key) <==> forall i :: 0 <= i < |dumps| ==> At(dumps, p, i, key)
    ensures key in AllKeys(dumps)
  {
    forall i, j | 0 <= i < |dumps| && 0 <= j < p[i] ensures dumps[i][j].key != key {
      PrefixIsSeen(dumps, p, i, j);
      SeenIsSmaller(dumps, p, key, dumps[i][j].key);
    }
    if InAll(dumps, key) {
      forall i | 0 <= i < |dumps| ensures At(dumps, p, i, key) {
        var j :| 0 <= j < |dumps[i]| && dumps[i][j].key == key;
        KeyBehindCursor(dumps, p, key, i, j);
      }
    }
    assert forall i :: 0 <= i < |dumps| && At(dumps, p, i, key) ==> HasKey(dumps[i], key);
    var i0 :| 0 <= i0 < |dumps| && At(dumps, p, i0, key);
    assert key in KeysOf(dumps[i0]);
  }

  /** In a sorted dump the record of a key is unique. */
  lemma FindAt(d: seq<Item>, j: nat)
    requires SortedDump(d) && j < |d|
    ensures HasKey(d, d[j].key) && Find(d, d[j].key) == d[j].rec
  {
    var key := d[j].key;
    assert HasKey(d, key);
    var r := Find(d, key);
    var i :| 0 <= i < |d| && d[i] == Rec(key, r);
    LessTrichotomy(key, key);
  }

  lemma TupleUnderCursors(dumps: seq<seq<Item>>, p: seq<nat>, key: string)
    requires Cursors(dumps, p) && AllSorted(dumps) && InAll(dumps, key)
    requires forall i :: 0 <= i < |dumps| ==> At(dumps, p, i, key)
    ensures forall i :: 0 <= i < |dumps| ==> At(dumps, p, i, key) && Tuple(dumps, key)[i] == dumps[i][p[i]].rec
  {
    forall i | 0 <= i < |dumps| ensures At(dumps, p, i, key) && Tuple(dumps, key)[i] == dumps[i][p[i]].rec {
      assert At(dumps, p, i, key);
      FindAt(dumps[i], p[i]);
    }
  }

  lemma JoinSnoc(d: seq<Item>, n: nat, dumps: seq<seq<Item>>)
    requires n < |d| && d[n].Rec?
    ensures Join(d[..n + 1], dumps)
            == Join(d[..n], dumps) + (if InAll(dumps, d[n].key) then [Tuple(dumps, d[n].key)] else [])
  {
    assert d[..n + 1][..n] == d[..n];
  }

  lemma CommonNeedsFirst(dumps: seq<seq<Item>>, p: seq<nat>, key: string)
    requires Cursors(dumps, p) && AllSorted(dumps) && Split(dumps, p) && IsSmallest(dumps, p, key)
    ensures |dumps| > 0 && (InAll(dumps, key) ==> At(dumps, p, 0, key))
  {
    CommonIffAllAt(dumps, p, key);
  }

  /** One round extends the join by exactly the tuple of the consumed key, or by nothing. */
  lemma JoinGrows(dumps: seq<seq<Item>>, p: seq<nat>, key: string)
    requires Cursors(dumps, p) && AllSorted(dumps) && Split(dumps, p) && IsSmallest(dumps, p, key)
    ensures Join(dumps[0][..Advanced(dumps, p, key)[0]], dumps) == Join(dumps[0][..p[0]], dumps)
            + (if InAll(dumps, key) then [Tuple(dumps, key)] else [])
  {
    CommonNeedsFirst(dumps, p, key);
    if At(dumps, p, 0, key) {
      JoinSnoc(dumps[0], p[0], dumps);
    }
  }

  datatype Counts = Counts(paired: nat, unpairedTotal: nat, unpaired: seq<string>)
  {
    /** compareAcc.noteUnpaired: counts the key and names it while there is room. */
    function NoteUnpaired(key: string): Counts
    {
      Counts(paired, unpairedTotal + 1, if |unpaired| < MAX_NAMED_UNPAIRED then unpaired + [key] else unpaired)
    }
  }

  /** What the counters mean once the keys `seen` are consumed. */
  ghost predicate Counted(seen: set<string>, common: set<string>, c: Counts)
  {
    && c.paired == |seen * common|
    && c.unpairedTotal == |seen - common|
    && SmallestOf(c.unpaired, seen - common, MAX_NAMED_UNPAIRED)
  }

  lemma CountStays(seen: set<string>, common: set<string>, key: string, c: Counts)
    requires Counted(seen, common, c)
    requires key !in seen && forall x :: x in seen ==> Less(x, key)
    ensures key in common ==> Counted(seen + {key}, common, c.(paired := c.paired + 1))
    ensures key !in common ==> Counted(seen + {key}, common, c.NoteUnpaired(key))
  {
    SetsGrow(seen, common, key);
    if key !in common {
      SmallestGrows(c.unpaired, seen - common, key, MAX_NAMED_UNPAIRED);
    }
  }

  lemma SetsGrow(seen: set<string>, common: set<string>, key: string)
    requires key !in seen
    ensures key in common
            ==> (seen + {key}) - common == seen - common && |(seen + {key}) * common| == |seen * common| + 1
    ensures key !in common
            ==> (seen + {key}) * common == seen * common && (seen + {key}) - common == (seen - common) + {key}
    ensures key !in common ==> |(seen + {key}) - common| == |seen - common| + 1
  {
    if key in common {
      assert (seen + {key}) * common == seen * common + {key};
      assert (seen + {key}) - common == seen - common;
    } else {
      assert (seen + {key}) * common == seen * common;
      assert (seen + {key}) - common == (seen - common) + {key};
    }
  }

  /** The invariant of the walk: the counters are right for the keys before the cursors. */
  ghost predicate Tallied(dumps: seq<seq<Item>>, p: seq<nat>, c: Counts)
    requires Cursors(dumps, p) && AllSorted(dumps)
  {
    Split(dumps, p) && Counted(SeenKeys(dumps, p), CommonKeys(dumps), c)
  }

  lemma TallyStays(dumps: seq<seq<Item>>, p: seq<nat>, key: string, c: Counts)
    requires Cursors(dumps, p) && AllSorted(dumps) && IsSmallest(dumps, p, key)
    requires Tallied(dumps, p, c)
    ensures InAll(dumps, key) ==> Tallied(dumps, Advanced(dumps, p, key), c.(paired := c.paired + 1))
    ensures !InAll(dumps, key) ==> Tallied(dumps, Advanced(dumps, p, key), c.NoteUnpaired(key))
  {
    SplitStays(dumps, p, key);
    SeenGrows(dumps, p, key);
    CommonIffAllAt(dumps, p, key);
    forall k | Seen(dumps, p, k) ensures Less(k, key) {
      SeenIsSmaller(dumps, p, key, k);
    }
    CountStays(SeenKeys(dumps, p), CommonKeys(dumps), key, c);
  }

  lemma TallyAtStart(dumps: seq<seq<Item>>, p: seq<nat>)
    requires Cursors(dumps, p) && AllSorted(dumps) && forall i :: 0 <= i < |p| ==> p[i] == 0
    ensures Tallied(dumps, p, Counts(0, 0, []))
  {
    assert forall k :: !Seen(dumps, p, k);
    assert SeenKeys(dumps, p) == {};
  }

  /** The counters of a finished walk. */
  ghost predicate Complete(dumps: seq<seq<Item>>, c: Counts)
  {
    && c.paired == |CommonKeys(dumps)|
    && c.paired + c.unpairedTotal == |AllKeys(dumps)|
    && SmallestOf(c.unpaired, AllKeys(dumps) - CommonKeys(dumps), MAX_NAMED_UNPAIRED)
  }

  lemma TallyAtEnd(dumps: seq<seq<Item>>, p: seq<nat>, c: Counts)
    requires Cursors(dumps, p) && AllSorted(dumps) && forall i :: 0 <= i < |p| ==> p[i] == |dumps[i]|
    requires Tallied(dumps, p, c)
    ensures Complete(dumps, c)
  {
    SeenIsAll(dumps, p);
    CountOfAll(AllKeys(dumps), CommonKeys(dumps));
  }

  lemma SeenIsAll(dumps: seq<seq<Item>>, p: seq<nat>)
    requires Cursors(dumps, p) && forall i :: 0 <= i < |p| ==> p[i] == |dumps[i]|
    ensures SeenKeys(dumps, p) == AllKeys(dumps)
  {
    assert forall i :: 0 <= i < |dumps| ==> dumps[i][..p[i]] == dumps[i];
  }

  lemma CountOfAll(all: set<string>, common: set<string>)
    requires common <= all
    ensures all * common == common && |all| == |common| + |all - common|
  {
    assert all == common + (all - common);
  }

  // ---------------------------------------------------------------- the walk, as the program runs it

  datatype Outcome<A> = Failed | Folded(acc: A, counts: Counts)

  /** The smallest key among the live cursors. */
  method SmallestKey(cur: seq<Item>, live: seq<bool>) returns (key: string, open: bool)
    requires |cur| == |live| && forall i :: 0 <= i < |cur| && live[i] ==> cur[i].Rec?
    ensures open <==> exists i :: 0 <= i < |live| && live[i]
    ensures open ==> SmallestLive(cur, live, key)
  {
    key, open := "", false;
    for i := 0 to |cur|
      invariant open <==> exists j :: 0 <= j < i && live[j]
      invariant open ==> exists j :: 0 <= j < i && live[j] && cur[j].key == key
      invariant open ==> forall j :: 0 <= j < i && live[j] ==> !Less(cur[j].key, key)
    {
      if live[i] {
        LessIsStrictTotalOrder();
        if !open || Less(cur[i].key, key) {
          key, open := cur[i].key, true;
        }
      }
    }
  }

  predicate AllAt(cur: seq<Item>, live: seq<bool>, key: string)
    requires |cur| == |live| && forall i :: 0 <= i < |cur| && live[i] ==> cur[i].Rec?
  {
    forall i :: 0 <= i < |cur| ==> live[i] && cur[i].key == key
  }

  /** Stream `s` reads dump `d`; `item` is the record under its cursor when `live`, else the dump is read to its end. */
  ghost predicate Synced(s: RecordStream, d: seq<Item>, item: Item, live: bool, p: nat)
    reads s
  {
    && s.items == d && s.InStep()
    && p == (if live then s.n - 1 else s.n)
    && (if live then s.n > 0 && d[s.n - 1] == item else s.n == |d|)
  }

  ghost predicate AllSynced(dumps: seq<seq<Item>>, p: seq<nat>, streams: seq<RecordStream>, cur: seq<Item>,
                            live: seq<bool>)
    reads streams
  {
    && |streams| == |cur| == |live| == |dumps| && Distinct(streams) && Cursors(dumps, p)
    && forall i :: 0 <= i < |dumps| ==> Synced(streams[i], dumps[i], cur[i], live[i], p[i])
  }

  /** Reads the first record of every dump. */
  method OpenStreams(dumps: seq<seq<Item>>)
    returns (ok: bool, streams: seq<RecordStream>, cur: seq<Item>, live: seq<bool>)
    ensures fresh(streams)
    ensures !ok ==> !AllSorted(dumps)
    ensures ok ==> AllSynced(dumps, seq(|dumps|, i => 0), streams, cur, live)
  {
    ok, streams, cur, live := true, [], [], [];
    for i := 0 to |dumps|
      invariant fresh(streams)
      invariant |streams| == |cur| == |live| == i && Distinct(streams)
      invariant forall j :: 0 <= j < i ==> Synced(streams[j], dumps[j], cur[j], live[j], 0)
    {
      var s := new RecordStream(dumps[i]);
      var f := s.Next();
      if f.Refused? {
        return false, streams, cur, live;
      }
      streams := streams + [s];
      cur, live := cur + [if f.Got? then f.item else Broken], live + [f.Got?];
    }
  }

  ghost predicate Distinct(streams: seq<RecordStream>)
  {
    forall i, j :: 0 <= i < j < |streams| ==> streams[i] != streams[j]
  }

  /** Advances one stream if it stands on `key`. */
  method AdvanceOne(s: RecordStream, d: seq<Item>, item: Item, live: bool, key: string, ghost p: nat)
    returns (ok: bool, item': Item, live': bool)
    requires Synced(s, d, item, live, p)
    modifies s
    ensures !ok ==> !SortedDump(d)
    ensures ok ==> Synced(s, d, item', live', if live && item.key == key then p + 1 else p)
  {
    if !(live && item.key == key) {
      return true, item, live;
    }
    var f := s.Next();
    if f.Refused? {
      return false, item, live;
    }
    return true, if f.Got? then f.item else Broken, f.Got?;
  }

  /** Advances every stream that stands on `key`. */
  method AdvanceStreams(dumps: seq<seq<Item>>, streams: seq<RecordStream>, cur: seq<Item>, live: seq<bool>,
                        key: string, ghost p: seq<nat>)
    returns (ok: bool, cur': seq<Item>, live': seq<bool>)
    requires AllSynced(dumps, p, streams, cur, live)
    modifies streams
    ensures !ok ==> !AllSorted(dumps)
    ensures ok ==> AllSynced(dumps, Advanced(dumps, p, key), streams, cur', live')
  {
    ghost var q := Advanced(dumps, p, key);
    forall i | 0 <= i < |dumps| ensures q[i] == if live[i] && cur[i].key == key then p[i] + 1 else p[i] {
      assert Synced(streams[i], dumps[i], cur[i], live[i], p[i]);
    }
    ok, cur', live' := true, [], [];
    for i := 0 to |dumps|
      invariant |cur'| == |live'| == i
      invariant forall j :: 0 <= j < i ==> Synced(streams[j], dumps[j], cur'[j], live'[j], q[j])
      invariant forall j :: i <= j < |dumps| ==> Synced(streams[j], dumps[j], cur[j], live[j], p[j])
    {
      var fine, item, on := AdvanceOne(streams[i], dumps[i], cur[i], live[i], key, p[i]);
      if !fine {
        return false, cur', live';
      }
      cur', live' := cur' + [item], live' + [on];
    }
  }

  /** The records under the cursors. */
  function Records(cur: seq<Item>): (r: seq<Record>)
    requires forall i :: 0 <= i < |cur| ==> cur[i].Rec?
    ensures |r| == |cur| && forall i :: 0 <= i < |cur| ==> r[i] == cur[i].rec
  {
    seq(|cur|, i requires 0 <= i < |cur| => cur[i].rec)
  }

  lemma PrefixKey(d: seq<Item>, n: nat, k: string)
    requires SortedDump(d) && n < |d|
    ensures HasKey(d[..n + 1], k) <==> HasKey(d[..n], k) || k == d[n].key
    ensures HasKey(d[..n], k) ==> Less(k, d[n].key)
  {
    if HasKey(d[..n], k) {
      var j :| 0 <= j < n && d[..n][j].Rec? && d[..n][j].key == k;
      assert d[j].key == k && d[..n + 1][j] == d[j];
    }
    assert d[..n + 1][n] == d[n];
    if HasKey(d[..n + 1], k) && k != d[n].key {
      var j :| 0 <= j < n + 1 && d[..n + 1][j].Rec? && d[..n + 1][j].key == k;
      assert d[..n][j] == d[j];
    }
  }

  /** The keys of the join, in the order of `driver`. */
  ghost function SharedKeys(driver: seq<Item>, dumps: seq<seq<Item>>): (r: seq<string>)
    ensures forall i :: 0 <= i < |r| ==> InAll(dumps, r[i])
  {
    if driver == [] then []
    else
      var x := driver[|driver| - 1];
      SharedKeys(driver[..|driver| - 1], dumps) + if x.Rec? && InAll(dumps, x.key) then [x.key] else []
  }

  lemma {:induction false} JoinIsOfSharedKeys(driver: seq<Item>, dumps: seq<seq<Item>>)
    ensures |Join(driver, dumps)| == |SharedKeys(driver, dumps)|
    ensures forall i :: 0 <= i < |Join(driver, dumps)| ==>
              Join(driver, dumps)[i] == Tuple(dumps, SharedKeys(driver, dumps)[i])
  {
    if driver != [] {
      JoinIsOfSharedKeys(driver[..|driver| - 1], dumps);
    }
  }

  lemma SharedKeysSnoc(d: seq<Item>, n: nat, dumps: seq<seq<Item>>)
    requires n < |d| && d[n].Rec?
    ensures SharedKeys(d[..n + 1], dumps)
            == SharedKeys(d[..n], dumps) + if InAll(dumps, d[n].key) then [d[n].key] else []
  {
    assert d[..n + 1][..n] == d[..n];
  }

  ghost predicate Ascending(ks: seq<string>)
  {
    forall i, j :: 0 <= i < j < |ks| ==> Less(ks[i], ks[j])
  }

  lemma {:induction false} SharedKeysAreShared(d: seq<Item>, n: nat, dumps: seq<seq<Item>>, k: string)
    requires SortedDump(d) && n <= |d|
    ensures k in SharedKeys(d[..n], dumps) <==> InAll(dumps, k) && HasKey(d[..n], k)
  {
    if n > 0 {
      SharedKeysAreShared(d, n - 1, dumps, k);
      PrefixKey(d, n - 1, k);
      SharedKeysSnoc(d, n - 1, dumps);
    }
  }

  lemma {:induction false} SharedKeysAscend(d: seq<Item>, n: nat, dumps: seq<seq<Item>>)
    requires SortedDump(d) && n <= |d|
    ensures Ascending(SharedKeys(d[..n], dumps))
  {
    if n > 0 {
      var rest := SharedKeys(d[..n - 1], dumps);
      SharedKeysAscend(d, n - 1, dumps);
      forall i | 0 <= i < |rest| ensures Less(rest[i], d[n - 1].key) {
        SharedKeysAreShared(d, n - 1, dumps, rest[i]);
        PrefixKey(d, n - 1, rest[i]);
      }
      SharedKeysSnoc(d, n - 1, dumps);
      AscendingSnoc(rest, d[n - 1].key);
    }
  }

  lemma AscendingSnoc(ks: seq<string>, k: string)
    requires Ascending(ks) && forall i :: 0 <= i < |ks| ==> Less(ks[i], k)
    ensures Ascending(ks + [k])
  {
  }

  /** The paired cases are the key intersection, each once, in ascending order, with the records of its own key. */
  lemma PairsAreTheIntersection(dumps: seq<seq<Item>>)
    requires dumps != [] && AllSorted(dumps)
    ensures var ks := SharedKeys(dumps[0], dumps);
            && Ascending(ks)
            && (forall k :: k in ks <==> k in CommonKeys(dumps))
            && |Pairs(dumps)| == |ks|
            && (forall i :: 0 <= i < |ks| ==> Pairs(dumps)[i] == Tuple(dumps, ks[i]))
  {
    var d := dumps[0];
    assert d[..|d|] == d;
    SharedKeysAscend(d, |d|, dumps);
    forall k ensures k in SharedKeys(d, dumps) <==> InAll(dumps, k) && HasKey(d, k) {
      SharedKeysAreShared(d, |d|, dumps, k);
    }
    JoinIsOfSharedKeys(d, dumps);
    forall k | InAll(dumps, k) ensures k in AllKeys(dumps) {
      assert HasKey(dumps[0], k);
      assert k in KeysOf(dumps[0]);
    }
  }

  function Repeated<T>(x: T, times: nat): (r: seq<T>)
    ensures |r| == times && forall i :: 0 <= i < times ==> r[i] == x
  {
    seq(times, i => x)
  }

  lemma TupleOfCopies(d: seq<Item>, copies: nat, j: nat)
    requires SortedDump(d) && j < |d|
    ensures InAll(Repeated(d, copies), d[j].key) && Tuple(Repeated(d, copies), d[j].key) == Repeated(d[j].rec, copies)
  {
    FindAt(d, j);
  }

  /** The records of the first `n` items, each as often as the dump is read. */
  function EachRepeated(d: seq<Item>, copies: nat, n: nat): (r: seq<seq<Record>>)
    requires n <= |d| && forall i :: 0 <= i < |d| ==> d[i].Rec?
    ensures |r| == n && forall i :: 0 <= i < n ==> r[i] == Repeated(d[i].rec, copies)
  {
    if n == 0 then [] else EachRepeated(d, copies, n - 1) + [Repeated(d[n - 1].rec, copies)]
  }

  /** One dump read several times pairs every record with its copies. */
  lemma {:induction false} PairsOfCopies(d: seq<Item>, copies: nat, n: nat)
    requires SortedDump(d) && n <= |d|
    ensures Join(d[..n], Repeated(d, copies)) == EachRepeated(d, copies, n)
  {
    if n > 0 {
      PairsOfCopies(d, copies, n - 1);
      JoinSnoc(d, n - 1, Repeated(d, copies));
      TupleOfCopies(d, copies, n - 1);
    }
  }

  /** The cases before the cursors, folded. */
  ghost predicate FoldedTo<A>(dumps: seq<seq<Item>>, fold: (A, seq<Record>) -> Option<A>, init: A, p: seq<nat>, acc: A)
    requires Cursors(dumps, p)
  {
    FoldAll(fold, init, if dumps == [] then [] else Join(dumps[0][..p[0]], dumps)) == Some(acc)
  }

  /** What the walk has computed when the cursors stand at `p`; it says nothing about dumps that are not sorted. */
  ghost predicate WalkInvariant<A>(dumps: seq<seq<Item>>, fold: (A, seq<Record>) -> Option<A>, init: A, p: seq<nat>,
                                   acc: A, c: Counts)
    requires Cursors(dumps, p)
  {
    AllSorted(dumps) ==> SortedWalk(dumps, fold, init, p, acc, c)
  }

  lemma FoldStep<A>(fold: (A, seq<Record>) -> Option<A>, init: A, cases: seq<seq<Record>>, c: seq<Record>)
    ensures FoldAll(fold, init, cases + [c]) ==
            var rest := FoldAll(fold, init, cases); if rest.None? then None else fold(rest.value, c)
  {
    assert (cases + [c])[..|cases|] == cases;
  }

  lemma {:induction false} JoinPrefix(driver: seq<Item>, dumps: seq<seq<Item>>, n: nat)
    requires n <= |driver|
    ensures Join(driver[..n], dumps) <= Join(driver, dumps)
    decreases |driver|
  {
    if n < |driver| {
      var d := driver[..|driver| - 1];
      JoinPrefix(d, dumps, n);
      assert d[..n] == driver[..n];
    } else {
      assert driver[..n] == driver;
    }
  }

  /** `cur` and `live` describe what lies under the cursors. */
  ghost predicate Under(dumps: seq<seq<Item>>, p: seq<nat>, cur: seq<Item>, live: seq<bool>)
    requires Cursors(dumps, p)
  {
    && |cur| == |live| == |dumps|
    && forall i :: 0 <= i < |dumps| ==>
         if live[i] then p[i] < |dumps[i]| && dumps[i][p[i]] == cur[i] && cur[i].Rec? else p[i] == |dumps[i]|
  }

  ghost predicate SmallestLive(cur: seq<Item>, live: seq<bool>, key: string)
    requires |cur| == |live|
  {
    && (exists i :: 0 <= i < |cur| && live[i] && cur[i].Rec? && cur[i].key == key)
    && (forall i :: 0 <= i < |cur| && live[i] && cur[i].Rec? ==> !Less(cur[i].key, key))
  }

  lemma UnderCursors(dumps: seq<seq<Item>>, p: seq<nat>, cur: seq<Item>, live: seq<bool>, key: string)
    requires Cursors(dumps, p) && AllSorted(dumps) && Split(dumps, p)
    requires Under(dumps, p, cur, live) && SmallestLive(cur, live, key)
    ensures IsSmallest(dumps, p, key)
    ensures AllAt(cur, live, key) <==> InAll(dumps, key)
    ensures AllAt(cur, live, key) ==> Records(cur) == Tuple(dumps, key)
  {
    assert forall i :: 0 <= i < |dumps| ==> (At(dumps, p, i, key) <==> live[i] && cur[i].key == key);
    CommonIffAllAt(dumps, p, key);
    if AllAt(cur, live, key) {
      TupleUnderCursors(dumps, p, key);
    }
  }

  /** Folding the case under the cursors agrees with the fold of all pairs, or both refuse. */
  lemma FoldRound<A>(dumps: seq<seq<Item>>, fold: (A, seq<Record>) -> Option<A>, init: A, p: seq<nat>, key: string,
                     acc: A)
    requires Cursors(dumps, p) && AllSorted(dumps) && Split(dumps, p) && IsSmallest(dumps, p, key)
    requires FoldedTo(dumps, fold, init, p, acc)
    ensures !InAll(dumps, key) ==> FoldedTo(dumps, fold, init, Advanced(dumps, p, key), acc)
    ensures InAll(dumps, key) ==>
              match fold(acc, Tuple(dumps, key))
              case Some(acc') => FoldedTo(dumps, fold, init, Advanced(dumps, p, key), acc')
              case None => FoldAll(fold, init, Pairs(dumps)).None?
  {
    var q := Advanced(dumps, p, key);
    JoinGrows(dumps, p, key);
    if InAll(dumps, key) {
      FoldStep(fold, init, Join(dumps[0][..p[0]], dumps), Tuple(dumps, key));
      if fold(acc, Tuple(dumps, key)).None? {
        JoinPrefix(dumps[0], dumps, q[0]);
        FoldFailsEarly(fold, init, Join(dumps[0][..q[0]], dumps), Pairs(dumps));
      }
    } else {
      assert Join(dumps[0][..q[0]], dumps) == Join(dumps[0][..p[0]], dumps);
    }
  }

  /** The walk over sorted dumps stands at `p`. */
  ghost predicate SortedWalk<A>(dumps: seq<seq<Item>>, fold: (A, seq<Record>) -> Option<A>, init: A, p: seq<nat>,
                                acc: A, c: Counts)
    requires Cursors(dumps, p) && AllSorted(dumps)
  {
    Tallied(dumps, p, c) && FoldedTo(dumps, fold, init, p, acc)
  }

  /** The smallest key is folded if it is common (or the fold of all pairs refuses as well), and noted otherwise. */
  lemma SortedRound<A>(dumps: seq<seq<Item>>, fold: (A, seq<Record>) -> Option<A>, init: A, p: seq<nat>,
                       key: string, acc: A, c: Counts, next: Option<A>)
    requires Cursors(dumps, p) && AllSorted(dumps) && IsSmallest(dumps, p, key)
    ensures SortedWalk(dumps, fold, init, p, acc, c) && InAll(dumps, key) && next == fold(acc, Tuple(dumps, key)) ==>
              && (next.None? ==> FoldAll(fold, init, Pairs(dumps)).None?)
              && (next.Some? ==>
                    SortedWalk(dumps, fold, init, Advanced(dumps, p, key), next.value, c.(paired := c.paired + 1)))
    ensures SortedWalk(dumps, fold, init, p, acc, c) && !InAll(dumps, key) ==>
              SortedWalk(dumps, fold, init, Advanced(dumps, p, key), acc, c.NoteUnpaired(key))
  {
    if SortedWalk(dumps, fold, init, p, acc, c) {
      TallyStays(dumps, p, key, c);
      FoldRound(dumps, fold, init, p, key, acc);
    }
  }

  lemma PairedRound<A>(dumps: seq<seq<Item>>, fold: (A, seq<Record>) -> Option<A>, init: A, p: seq<nat>,
                       cur: seq<Item>, live: seq<bool>, key: string, acc: A, c: Counts, next: Option<A>)
    requires Cursors(dumps, p) && Under(dumps, p, cur, live) && SmallestLive(cur, live, key) && AllAt(cur, live, key)
    requires WalkInvariant(dumps, fold, init, p, acc, c) && next == fold(acc, Records(cur))
    ensures next.None? && AllSorted(dumps) ==> FoldAll(fold, init, Pairs(dumps)).None?
    ensures next.Some? ==>
              WalkInvariant(dumps, fold, init, Advanced(dumps, p, key), next.value, c.(paired := c.paired + 1))
  {
    if AllSorted(dumps) {
      UnderCursors(dumps, p, cur, live, key);
      SortedRound(dumps, fold, init, p, key, acc, c, next);
    }
  }

  lemma UnpairedRound<A>(dumps: seq<seq<Item>>, fold: (A, seq<Record>) -> Option<A>, init: A, p: seq<nat>,
                         cur: seq<Item>, live: seq<bool>, key: string, acc: A, c: Counts)
    requires Cursors(dumps, p) && Under(dumps, p, cur, live) && SmallestLive(cur, live, key) && !AllAt(cur, live, key)
    requires WalkInvariant(dumps, fold, init, p, acc, c)
    ensures WalkInvariant(dumps, fold, init, Advanced(dumps, p, key), acc, c.NoteUnpaired(key))
  {
    if AllSorted(dumps) {
      UnderCursors(dumps, p, cur, live, key);
      SortedRound(dumps, fold, init, p, key, acc, c, None);
    }
  }

  lemma WalkStarts<A>(dumps: seq<seq<Item>>, fold: (A, seq<Record>) -> Option<A>, init: A, p: seq<nat>)
    requires Cursors(dumps, p) && forall i :: 0 <= i < |p| ==> p[i] == 0
    ensures WalkInvariant(dumps, fold, init, p, init, Counts(0, 0, []))
  {
    if AllSorted(dumps) {
      TallyAtStart(dumps, p);
    }
  }

  lemma WalkEnds<A>(dumps: seq<seq<Item>>, fold: (A, seq<Record>) -> Option<A>, init: A, p: seq<nat>, acc: A, c: Counts)
    requires Cursors(dumps, p) && AllSorted(dumps) && forall i :: 0 <= i < |p| ==> p[i] == |dumps[i]|
    requires WalkInvariant(dumps, fold, init, p, acc, c)
    ensures FoldAll(fold, init, Pairs(dumps)) == Some(acc) && Complete(dumps, c)
  {
    TallyAtEnd(dumps, p, c);
    FoldEnds(dumps, fold, init, p, acc);
  }

  lemma FoldEnds<A>(dumps: seq<seq<Item>>, fold: (A, seq<Record>) -> Option<A>, init: A, p: seq<nat>, acc: A)
    requires Cursors(dumps, p) && forall i :: 0 <= i < |p| ==> p[i] == |dumps[i]|
    requires FoldedTo(dumps, fold, init, p, acc)
    ensures FoldAll(fold, init, Pairs(dumps)) == Some(acc)
  {
    if dumps != [] {
      assert dumps[0][..p[0]] == dumps[0];
    }
  }

  lemma SyncedIsUnder(dumps: seq<seq<Item>>, p: seq<nat>, streams: seq<RecordStream>, cur: seq<Item>, live: seq<bool>)
    requires AllSynced(dumps, p, streams, cur, live)
    ensures Under(dumps, p, cur, live)
    ensures (forall i :: 0 <= i < |dumps| ==> !live[i]) ==> AllSorted(dumps)
  {
    forall i | 0 <= i < |dumps| ensures live[i] ==> cur[i].Rec? {
      assert Synced(streams[i], dumps[i], cur[i], live[i], p[i]);
      assert live[i] ==> dumps[i][..streams[i].n][streams[i].n - 1].Rec?;
    }
    forall i | 0 <= i < |dumps| && !live[i] ensures SortedDump(dumps[i]) {
      assert dumps[i][..streams[i].n] == dumps[i];
    }
  }

  /** How many values lie behind the cursors. */
  ghost function Remaining(dumps: seq<seq<Item>>, p: seq<nat>): nat
    requires Cursors(dumps, p)
  {
    if dumps == [] then 0 else |dumps[0]| - p[0] + Remaining(dumps[1..], p[1..])
  }

  lemma {:induction false} RemainingDrops(dumps: seq<seq<Item>>, p: seq<nat>, q: seq<nat>)
    requires Cursors(dumps, p) && Cursors(dumps, q) && forall i :: 0 <= i < |p| ==> p[i] <= q[i]
    ensures Remaining(dumps, q) <= Remaining(dumps, p)
    ensures (exists i :: 0 <= i < |p| && p[i] < q[i]) ==> Remaining(dumps, q) < Remaining(dumps, p)
  {
    if dumps != [] {
      RemainingDrops(dumps[1..], p[1..], q[1..]);
      if i :| 0 <= i < |p| && p[i] < q[i] {
        assert i > 0 ==> p[1..][i - 1] < q[1..][i - 1];
      }
    }
  }

  lemma RoundProgresses(dumps: seq<seq<Item>>, p: seq<nat>, cur: seq<Item>, live: seq<bool>, key: string)
    requires Cursors(dumps, p) && Under(dumps, p, cur, live) && SmallestLive(cur, live, key)
    ensures Remaining(dumps, Advanced(dumps, p, key)) < Remaining(dumps, p)
  {
    var q := Advanced(dumps, p, key);
    var i :| 0 <= i < |cur| && live[i] && cur[i].Rec? && cur[i].key == key;
    assert At(dumps, p, i, key) && p[i] < q[i];
    RemainingDrops(dumps, p, q);
  }

  datatype Progress<A> = Done | Rejected | Continue(key: string, acc: A, counts: Counts)

  /** The body of the walk's loop up to the advance: finds the smallest key, then folds it or notes it. */
  method FoldSmallest<A>(dumps: seq<seq<Item>>, fold: (A, seq<Record>) -> Option<A>, ghost init: A, ghost p: seq<nat>,
                         cur: seq<Item>, live: seq<bool>, acc: A, counts: Counts) returns (r: Progress<A>)
    requires Cursors(dumps, p) && Under(dumps, p, cur, live) && WalkInvariant(dumps, fold, init, p, acc, counts)
    ensures r.Done? <==> forall i :: 0 <= i < |live| ==> !live[i]
    ensures r.Rejected? && AllSorted(dumps) ==> FoldAll(fold, init, Pairs(dumps)).None?
    ensures r.Continue? ==> Remaining(dumps, Advanced(dumps, p, r.key)) < Remaining(dumps, p)
    ensures r.Continue? ==> WalkInvariant(dumps, fold, init, Advanced(dumps, p, r.key), r.acc, r.counts)
  {
    var key, open := SmallestKey(cur, live);
    if !open {
      return Done;
    }
    RoundProgresses(dumps, p, cur, live, key);
    if AllAt(cur, live, key) {
      var next := fold(acc, Records(cur));
      PairedRound(dumps, fold, init, p, cur, live, key, acc, counts, next);
      if next.None? {
        return Rejected;
      }
      return Continue(key, next.value, counts.(paired := counts.paired + 1));
    }
    UnpairedRound(dumps, fold, init, p, cur, live, key, acc, counts);
    return Continue(key, acc, counts.NoteUnpaired(key));
  }

  /** Where the walk stands: the records under the cursors and what was accumulated. */
  datatype Position<A> = Position(cur: seq<Item>, live: seq<bool>, acc: A, counts: Counts)

  ghost predicate Walking<A>(dumps: seq<seq<Item>>, fold: (A, seq<Record>) -> Option<A>, init: A, p: seq<nat>,
                             streams: seq<RecordStream>, at: Position<A>)
    reads streams
  {
    && AllSynced(dumps, p, streams, at.cur, at.live)
    && WalkInvariant(dumps, fold, init, p, at.acc, at.counts)
  }

  datatype Verdict = More | Finished | Stopped

  method OneRound<A>(dumps: seq<seq<Item>>, fold: (A, seq<Record>) -> Option<A>, ghost init: A, ghost p: seq<nat>,
                     streams: seq<RecordStream>, at: Position<A>)
    returns (v: Verdict, at': Position<A>, ghost p': seq<nat>)
    requires Walking(dumps, fold, init, p, streams, at)
    modifies streams
    ensures v.More? ==> Walking(dumps, fold, init, p', streams, at') && Remaining(dumps, p') < Remaining(dumps, p)
    ensures v.Finished?
            ==> AllSorted(dumps) && FoldAll(fold, init, Pairs(dumps)) == Some(at.acc) && Complete(dumps, at.counts)
    ensures v.Stopped? && AllSorted(dumps) ==> FoldAll(fold, init, Pairs(dumps)).None?
  {
    at', p' := at, p;
    SyncedIsUnder(dumps, p, streams, at.cur, at.live);
    var step := FoldSmallest(dumps, fold, init, p, at.cur, at.live, at.acc, at.counts);
    match step {
      case Done =>
        WalkEnds(dumps, fold, init, p, at.acc, at.counts);
        return Finished, at, p;
      case Rejected =>
        return Stopped, at, p;
      case Continue(key, acc, counts) =>
        var ok, cur, live := AdvanceStreams(dumps, streams, at.cur, at.live, key, p);
        return if ok then More else Stopped, Position(cur, live, acc, counts), Advanced(dumps, p, key);
    }
  }

  /**
   The walk succeeds exactly when every dump is sorted and no paired case is refused; then the
   cases of the key intersection were folded once each, in ascending order and with their own
   records, and every key of the union was counted once.
   */
  method StreamPairs<A>(dumps: seq<seq<Item>>, fold: (A, seq<Record>) -> Option<A>, init: A) returns (r: Outcome<A>)
    ensures r.Folded? <==> AllSorted(dumps) && FoldAll(fold, init, Pairs(dumps)).Some?
    ensures r.Folded? ==> Some(r.acc) == FoldAll(fold, init, Pairs(dumps))
    ensures r.Folded? ==> Complete(dumps, r.counts)
    ensures r.Folded? ==>
              var missed := |AllKeys(dumps) - CommonKeys(dumps)|;
              r.counts.unpairedTotal == missed && |r.counts.unpaired| == if missed < 25 then missed else 25
  {
    var ok, streams, cur, live := OpenStreams(dumps);
    if !ok {
      return Failed;
    }
    var at := Position(cur, live, init, Counts(0, 0, []));
    ghost var p: seq<nat> := seq(|dumps|, i => 0);
    WalkStarts(dumps, fold, init, p);
    while true
      invariant fresh(streams) && Walking(dumps, fold, init, p, streams, at)
      decreases Remaining(dumps, p)
    {
      var v, at', p' := OneRound(dumps, fold, init, p, streams, at);
      if v.Finished? {
        return Folded(at.acc, at.counts);
      }
      if v.Stopped? {
        return Failed;
      }
      at, p := at', p';
    }
  }
}
