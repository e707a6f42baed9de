/**
 The chain filters of the model API and the fan-out they allow
 (go/internal/backends/hopchain.go, in the order of go/internal/federation/chain.go).
 */
module HopChain {
  import opened Ordering
  import opened Backends

  /** Backend id -> the instance the row last answered as; absent or empty is unknown. */
  type Learned = map<string, string>

  function InstanceOf(b: Backend, learned: Learned): string
  {
    if b.id in learned then learned[b.id] else ""
  }

  /** Whether the row leads to another ctx instance. */
  predicate IsHop(b: Backend, learned: Learned)
  {
    b.providerClass == PROVIDER_CTX || InstanceOf(b, learned) != ""
  }

  predicate OffPath(b: Backend, path: seq<string>, learned: Learned)
  {
    InstanceOf(b, learned) == "" || InstanceOf(b, learned) !in path
  }

  predicate LocalOnly(b: Backend, learned: Learned)
  {
    !IsHop(b, learned) && (b.locality == LOCALITY_LOCAL || b.locality == LOCALITY_LAN)
  }

  function HopWith(learned: Learned): Backend -> bool
  {
    (b: Backend) => IsHop(b, learned)
  }

  function NoHopWith(learned: Learned): Backend -> bool
  {
    (b: Backend) => !IsHop(b, learned)
  }

  function OffPathWith(path: seq<string>, learned: Learned): Backend -> bool
  {
    (b: Backend) => OffPath(b, path, learned)
  }

  function LocalWith(learned: Learned): Backend -> bool
  {
    (b: Backend) => LocalOnly(b, learned)
  }

  /** keep, for a test without state. */
  method Keep(chain: seq<Backend>, ok: Backend -> bool) returns (out: seq<Backend>)
    ensures out == Filter(ok, chain)
  {
    out := [];
    for i := 0 to |chain|
      invariant out == Filter(ok, chain[..i])
    {
      FilterSnoc(ok, chain, i);
      if ok(chain[i]) {
        out := out + [chain[i]];
      }
    }
    assert chain[..|chain|] == chain;
  }

  method ExcludeHopChain(chain: seq<Backend>, path: seq<string>, learned: Learned) returns (out: seq<Backend>)
    ensures out == Filter(OffPathWith(path, learned), chain)
    ensures forall b :: b in out <==> b in chain && !(b.id in learned && learned[b.id] != "" && learned[b.id] in path)
  {
    if |path| == 0 || |learned| == 0 {
      out := Keep(chain, (b: Backend) => true);
      assert |learned| == 0 ==> forall id :: id !in learned;
      FilterSame((b: Backend) => true, OffPathWith(path, learned), chain);
      return;
    }
    out := Keep(chain, OffPathWith(path, learned));
  }

  method ExcludeForEgressLocal(chain: seq<Backend>, learned: Learned) returns (out: seq<Backend>)
    ensures out == Filter(LocalWith(learned), chain)
    ensures forall b :: b in out <==>
              && b in chain && b.providerClass != "ctx" && (b.id in learned ==> learned[b.id] == "")
              && (b.locality == "local" || b.locality == "lan")
  {
    out := Keep(chain, LocalWith(learned));
  }

  /** The chain with every instance hop after the first removed. */
  function Capped(chain: seq<Backend>, learned: Learned): seq<Backend>
  {
    if chain == [] then []
    else if IsHop(chain[0], learned) then [chain[0]] + Filter(NoHopWith(learned), chain[1..])
    else [chain[0]] + Capped(chain[1..], learned)
  }

  predicate HasHop(chain: seq<Backend>, learned: Learned)
  {
    exists b :: b in chain && IsHop(b, learned)
  }

  lemma {:induction false} CapSnoc(chain: seq<Backend>, learned: Learned, b: Backend)
    ensures Capped(chain + [b], learned) ==
            Capped(chain, learned) + if IsHop(b, learned) && HasHop(chain, learned) then [] else [b]
  {
    if chain != [] {
      var rest := chain[1..];
      assert (chain + [b])[1..] == rest + [b];
      assert HasHop(chain, learned) <==> IsHop(chain[0], learned) || HasHop(rest, learned);
      if IsHop(chain[0], learned) {
        FilterAppend(NoHopWith(learned), rest, [b]);
      } else {
        CapSnoc(rest, learned, b);
      }
    }
  }

  /** The closure of TransitCap remembers that it has seen a hop. */
  method TransitCap(chain: seq<Backend>, learned: Learned) returns (out: seq<Backend>)
    ensures out == Capped(chain, learned)
  {
    out := [];
    var seen := false;
    for i := 0 to |chain|
      invariant out == Capped(chain[..i], learned)
      invariant seen == HasHop(chain[..i], learned)
    {
      assert chain[..i + 1] == chain[..i] + [chain[i]];
      CapSnoc(chain[..i], learned, chain[i]);
      if !IsHop(chain[i], learned) {
        out := out + [chain[i]];
      } else {
        if !seen {
          out := out + [chain[i]];
        }
        seen := true;
      }
    }
    assert chain[..|chain|] == chain;
  }

  // ---------------------------------------------------------------- what the cap keeps

  /** All rows that are no hop stay, in order; of the hops only the first stays. */
  lemma {:induction false} CapKeeps(chain: seq<Backend>, learned: Learned)
    ensures Filter(NoHopWith(learned), Capped(chain, learned)) == Filter(NoHopWith(learned), chain)
    ensures Filter(HopWith(learned), Capped(chain, learned)) ==
            var hops := Filter(HopWith(learned), chain); if hops == [] then [] else [hops[0]]
  {
    if chain != [] {
      var head, rest := chain[0], chain[1..];
      if IsHop(head, learned) {
        var tail := Filter(NoHopWith(learned), rest);
        assert ([head] + tail)[1..] == tail;
        FilterTwice(NoHopWith(learned), NoHopWith(learned), NoHopWith(learned), rest);
        NoHopsLeft(learned, rest);
      } else {
        CapKeeps(rest, learned);
        assert ([head] + Capped(rest, learned))[1..] == Capped(rest, learned);
      }
    }
  }

  lemma {:induction false} NoHopsLeft(learned: Learned, rows: seq<Backend>)
    ensures Filter(HopWith(learned), Filter(NoHopWith(learned), rows)) == []
  {
    if rows != [] {
      NoHopsLeft(learned, rows[1..]);
      var f := Filter(NoHopWith(learned), rows[1..]);
      if !IsHop(rows[0], learned) {
        assert Filter(NoHopWith(learned), rows) == [rows[0]] + f;
        assert ([rows[0]] + f)[1..] == f;
      } else {
        assert Filter(NoHopWith(learned), rows) == f;
      }
    }
  }

  /** A row of class ctx, or one that a peer instance has answered, read off the row and the learned instances. */
  function LeadsOut(learned: Learned): Backend -> bool
  {
    (b: Backend) => b.providerClass == "ctx" || (b.id in learned && learned[b.id] != "")
  }

  function StaysIn(learned: Learned): Backend -> bool
  {
    (b: Backend) => b.providerClass != "ctx" && (b.id in learned ==> learned[b.id] == "")
  }

  /** Of the rows of class ctx or with a learned instance exactly the first stays, and all other rows stay, in order. */
  lemma TransitKeepsFirstCtxRow(chain: seq<Backend>, learned: Learned)
    ensures var hops := Filter(LeadsOut(learned), chain);
            Filter(LeadsOut(learned), Capped(chain, learned)) == if hops == [] then [] else [hops[0]]
    ensures Filter(StaysIn(learned), Capped(chain, learned)) == Filter(StaysIn(learned), chain)
  {
    var out := Capped(chain, learned);
    CapKeeps(chain, learned);
    FilterSame(HopWith(learned), LeadsOut(learned), chain);
    FilterSame(HopWith(learned), LeadsOut(learned), out);
    FilterSame(NoHopWith(learned), StaysIn(learned), chain);
    FilterSame(NoHopWith(learned), StaysIn(learned), out);
  }

  /** The chain a request is tried on: loops are excluded first, then the egress or the transit rule applies. */
  function Tried(chain: seq<Backend>, path: seq<string>, learned: Learned, egressLocal: bool): seq<Backend>
  {
    var open := Filter(OffPathWith(path, learned), chain);
    if egressLocal then Filter(LocalWith(learned), open) else Capped(open, learned)
  }

  /** Loops are excluded before the cap: of the hop rows the first one that leads off the path is tried. */
  lemma FirstOpenHopIsTried(chain: seq<Backend>, path: seq<string>, learned: Learned)
    ensures var hops := Filter(LeadsOut(learned), Filter(OffPathWith(path, learned), chain));
            Filter(LeadsOut(learned), Tried(chain, path, learned, false)) == if hops == [] then [] else [hops[0]]
    ensures forall b :: b in Filter(OffPathWith(path, learned), chain) <==>
              b in chain && !(b.id in learned && learned[b.id] != "" && learned[b.id] in path)
    ensures Filter(StaysIn(learned), Tried(chain, path, learned, false))
            == Filter(StaysIn(learned), Filter(OffPathWith(path, learned), chain))
  {
    TransitKeepsFirstCtxRow(Filter(OffPathWith(path, learned), chain), learned);
  }

  /** Under the transit rule a hop is tried exactly when some hop of the chain leads off the path. */
  lemma TransitKeepsAHopIff(chain: seq<Backend>, path: seq<string>, learned: Learned)
    ensures (exists b :: b in Tried(chain, path, learned, false) && IsHop(b, learned))
            <==> exists b :: b in chain && IsHop(b, learned) && OffPath(b, path, learned)
  {
    var open := Filter(OffPathWith(path, learned), chain);
    CapHasHop(open, learned);
    assert forall b :: b in open <==> b in chain && OffPath(b, path, learned);
  }

  lemma CapHasHop(chain: seq<Backend>, learned: Learned)
    ensures HasHop(Capped(chain, learned), learned) <==> HasHop(chain, learned)
  {
    CapKeeps(chain, learned);
    HasHopIff(chain, learned);
    HasHopIff(Capped(chain, learned), learned);
  }

  lemma HasHopIff(chain: seq<Backend>, learned: Learned)
    ensures HasHop(chain, learned) <==> Filter(HopWith(learned), chain) != []
  {
    var hops := Filter(HopWith(learned), chain);
    if hops != [] {
      assert hops[0] in hops;
    }
  }

  /** And then only one is. */
  lemma TransitKeepsOneHop(chain: seq<Backend>, path: seq<string>, learned: Learned, i: nat, j: nat)
    requires i < j < |Tried(chain, path, learned, false)| && IsHop(Tried(chain, path, learned, false)[i], learned)
    ensures !IsHop(Tried(chain, path, learned, false)[j], learned)
  {
    AtMostOneHop(Filter(OffPathWith(path, learned), chain), learned);
  }

  lemma {:induction false} AtMostOneHop(chain: seq<Backend>, learned: Learned)
    ensures forall i, j :: 0 <= i < j < |Capped(chain, learned)| ==>
              !(IsHop(Capped(chain, learned)[i], learned) && IsHop(Capped(chain, learned)[j], learned))
  {
    if chain != [] {
      var out := Capped(chain, learned);
      if IsHop(chain[0], learned) {
        var tail := Filter(NoHopWith(learned), chain[1..]);
        forall j | 1 <= j < |out| ensures !IsHop(out[j], learned) {
          assert out[j] == tail[j - 1] && tail[j - 1] in tail;
        }
      } else {
        AtMostOneHop(chain[1..], learned);
      }
    }
  }

  // ---------------------------------------------------------------- the fan-out of a request

  /**
   Where a request is handled: the instance, the path it came along, what the instance knows, and
   where its rows really lead. `leads` maps a row to the instance behind it, known or not; the
   program has no such table.
   */
  datatype Site = Site(
    instance: string,
    path: seq<string>,
    egressLocal: bool,
    chain: seq<Backend>,
    learned: Learned,
    leads: map<string, string>)
  {
    function Chain(): seq<Backend>
    {
      Tried(chain, path, learned, egressLocal)
    }

    /** The instance a row leads to, empty for an engine. */
    function Behind(b: Backend): string
    {
      if b.id in leads then leads[b.id] else ""
    }

    function Leading(): Backend -> bool
    {
      (b: Backend) => Behind(b) != ""
    }
  }

  /** How a request spread: `rows[i]` is the index in the tried chain of the row that led to `onward[i]`. */
  datatype Handling = Handling(site: Site, rows: seq<nat>, onward: seq<Handling>)

  /** The row of the tried chain leads to the next handling, which carries on the path. */
  ghost predicate Goes(site: Site, row: nat, next: Site)
  {
    && row < |site.Chain()| && site.Behind(site.Chain()[row]) != ""
    && next.instance == site.Behind(site.Chain()[row]) && next.path == site.path + [site.instance]
  }

  /** Every row is tried at most once, a row reaches the instance it leads to, and the path grows. */
  ghost predicate Follows(h: Handling)
  {
    && |h.rows| == |h.onward|
    && (forall i :: 0 <= i < |h.rows| ==> Goes(h.site, h.rows[i], h.onward[i].site))
    && (forall i, j :: 0 <= i < j < |h.rows| ==> h.rows[i] != h.rows[j])
    && (forall i :: 0 <= i < |h.onward| ==> Follows(h.onward[i]))
  }

  /** How many instances handled the request. */
  function Handlings(h: Handling): nat
    decreases h, 1
  {
    1 + HandlingsOf(h.onward)
  }

  function HandlingsOf(hs: seq<Handling>): nat
    decreases hs, 0
  {
    if hs == [] then 0 else Handlings(hs[0]) + HandlingsOf(hs[1..])
  }

  /** The longest chain of hops. */
  function Depth(h: Handling): nat
    decreases h, 1
  {
    DepthOf(h.onward)
  }

  function DepthOf(hs: seq<Handling>): nat
    decreases hs, 0
  {
    if hs == [] then 0
    else
      var d, rest := 1 + Depth(hs[0]), DepthOf(hs[1..]);
      if d > rest then d else rest
  }

  // ---------------------------------------------------------------- when the fan-out is one, and when it is none

  /** The rows of the tried chain that lead to an instance, recognised as hops or not. */
  function LeadingRows(site: Site): seq<Backend>
  {
    Filter(site.Leading(), site.Chain())
  }

  /** However a request spreads from the site, it goes on to at most `n` instances. */
  ghost predicate SpreadsTo(site: Site, n: nat)
  {
    forall h: Handling :: h.site == site && Follows(h) ==> |h.onward| <= n
  }

  /** A handling that ends the request at the instance behind a row. */
  function Leaf(site: Site, row: nat): Handling
    requires row < |site.Chain()|
  {
    Handling(Site(site.Behind(site.Chain()[row]), site.path + [site.instance], false, [], map[], map[]), [], [])
  }

  lemma AtMostOneOnward(h: Handling)
    requires Follows(h) && |LeadingRows(h.site)| <= 1
    ensures |h.onward| <= 1
  {
    if |h.rows| >= 2 {
      TwoGone(h.site, h.rows[0], h.rows[1], h.onward[0].site, h.onward[1].site);
    }
  }

  lemma TwoGone(site: Site, i: nat, j: nat, next: Site, next': Site)
    requires Goes(site, i, next) && Goes(site, j, next') && i != j
    ensures |LeadingRows(site)| >= 2
  {
    FilterTakesTwo(site.Leading(), site.Chain(), if i < j then i else j, if i < j then j else i);
  }

  lemma OneGone(site: Site, i: nat, next: Site)
    requires Goes(site, i, next)
    ensures LeadingRows(site) != []
  {
    assert site.Chain()[i] in LeadingRows(site);
  }

  lemma TwoCanGoOn(site: Site) returns (h: Handling)
    requires |LeadingRows(site)| >= 2
    ensures h.site == site && Follows(h) && |h.onward| == 2
  {
    var i, j := FilterFindsTwo(site.Leading(), site.Chain());
    var x, y := Leaf(site, i), Leaf(site, j);
    assert Goes(site, i, x.site) && Goes(site, j, y.site) && Follows(x) && Follows(y);
    h := Both(site, i, j, x, y);
  }

  lemma Both(site: Site, i: nat, j: nat, x: Handling, y: Handling) returns (h: Handling)
    requires i != j && Goes(site, i, x.site) && Goes(site, j, y.site) && Follows(x) && Follows(y)
    ensures h == Handling(site, [i, j], [x, y]) && Follows(h)
  {
    h := Handling(site, [i, j], [x, y]);
    assert h.onward[0] == x && h.onward[1] == y && h.rows[0] == i && h.rows[1] == j;
  }

  lemma OneCanGoOn(site: Site) returns (h: Handling)
    requires LeadingRows(site) != []
    ensures h.site == site && Follows(h) && |h.onward| == 1
  {
    var tried := site.Chain();
    assert LeadingRows(site)[0] in LeadingRows(site);
    var i :| 0 <= i < |tried| && tried[i] == LeadingRows(site)[0];
    h := Handling(site, [i], [Leaf(site, i)]);
  }

  /** A request goes on to at most one instance exactly when at most one row of the tried chain leads to one. */
  lemma OneOnwardIff(site: Site)
    ensures SpreadsTo(site, 1) <==> |LeadingRows(site)| <= 1
  {
    if |LeadingRows(site)| <= 1 {
      forall h: Handling | h.site == site && Follows(h) ensures |h.onward| <= 1 {
        AtMostOneOnward(h);
      }
    } else {
      var h := TwoCanGoOn(site);
    }
  }

  // ---------------------------------------------------------------- the same on the chain that comes in

  /** The rows off the path, in order. */
  function OpenRows(site: Site): seq<Backend>
  {
    Filter(OffPathWith(site.path, site.learned), site.chain)
  }

  /** A row that leads to an instance and is not recognised as a hop. */
  function Hidden(site: Site): Backend -> bool
  {
    (b: Backend) => site.Behind(b) != "" && !IsHop(b, site.learned)
  }

  /** A row that leads to an instance and is recognised. */
  function Known(site: Site): Backend -> bool
  {
    (b: Backend) => site.Behind(b) != "" && IsHop(b, site.learned)
  }

  lemma HiddenRowsStay(site: Site)
    ensures Filter(Hidden(site), Capped(OpenRows(site), site.learned)) == Filter(Hidden(site), OpenRows(site))
  {
    var open, noHop := OpenRows(site), NoHopWith(site.learned);
    CapKeeps(open, site.learned);
    FilterTwice(site.Leading(), noHop, Hidden(site), Capped(open, site.learned));
    FilterTwice(site.Leading(), noHop, Hidden(site), open);
  }

  /** Of the recognised rows at most the first is tried, if it leads anywhere. */
  lemma FirstHopStays(site: Site)
    ensures var hops := Filter(HopWith(site.learned), OpenRows(site));
            |Filter(Known(site), Capped(OpenRows(site), site.learned))|
            == if hops != [] && site.Behind(hops[0]) != "" then 1 else 0
  {
    var open, hop := OpenRows(site), HopWith(site.learned);
    var hops := Filter(hop, open);
    CapKeeps(open, site.learned);
    FilterTwice(site.Leading(), hop, Known(site), Capped(open, site.learned));
    if hops != [] {
      assert [hops[0]][1..] == [];
    }
  }

  /**
   Under the transit rule, on the chain that comes in: a request goes on to at most one instance exactly
   when the unrecognised leading rows off the path, and the first recognised one if it leads anywhere,
   are at most one row together.
   */
  lemma TransitSpreadsToOneIff(site: Site)
    requires !site.egressLocal
    ensures var hops := Filter(HopWith(site.learned), OpenRows(site));
            SpreadsTo(site, 1) <==>
            |Filter(Hidden(site), OpenRows(site))| + (if hops != [] && site.Behind(hops[0]) != "" then 1 else 0) <= 1
  {
    OneOnwardIff(site);
    HiddenRowsStay(site);
    FirstHopStays(site);
    FilterSplit(site.Leading(), Hidden(site), Known(site), site.Chain());
  }

  lemma NoneOnwardIff(site: Site)
    ensures SpreadsTo(site, 0) <==> LeadingRows(site) == []
  {
    if LeadingRows(site) == [] {
      forall h: Handling | h.site == site && Follows(h) ensures |h.onward| <= 0 {
        if |h.rows| > 0 {
          OneGone(site, h.rows[0], h.onward[0].site);
        }
      }
    } else {
      var h := OneCanGoOn(site);
    }
  }

  /** The row is one that egress-local means to keep: an engine of this instance or of its network, off the path. */
  predicate Near(site: Site, b: Backend)
  {
    (b.locality == LOCALITY_LOCAL || b.locality == LOCALITY_LAN) && OffPath(b, site.path, site.learned)
  }

  /**
   Under egress-local a request goes no further exactly when every near row that leads to an instance
   has class ctx or a learned instance.
   */
  lemma EgressStaysIff(site: Site)
    requires site.egressLocal
    ensures SpreadsTo(site, 0) <==>
            forall b :: b in site.chain && (b.locality == "local" || b.locality == "lan")
                        && !(b.id in site.learned && site.learned[b.id] != "" && site.learned[b.id] in site.path)
                        && b.id in site.leads && site.leads[b.id] != "" ==>
                          b.providerClass == "ctx" || (b.id in site.learned && site.learned[b.id] != "")
  {
    NoneOnwardIff(site);
    forall b ensures b in LeadingRows(site) <==>
                     b in site.chain && Near(site, b) && site.Behind(b) != "" && !IsHop(b, site.learned) {
    }
    if LeadingRows(site) != [] {
      assert LeadingRows(site)[0] in LeadingRows(site);
    }
  }

  /** Every row of the tried chain that leads to an instance is recognised as a hop. */
  predicate Recognised(site: Site)
  {
    forall b :: b in site.Chain() && site.Behind(b) != "" ==> IsHop(b, site.learned)
  }

  /** Then at most one row leads on, and none under egress-local. */
  lemma RecognisedLeadsToOne(site: Site)
    requires Recognised(site)
    ensures |LeadingRows(site)| <= 1
    ensures site.egressLocal ==> LeadingRows(site) == []
  {
    if site.egressLocal {
      FilterNone(site.Leading(), site.Chain());
    } else if |LeadingRows(site)| >= 2 {
      var i, j := FilterFindsTwo(site.Leading(), site.Chain());
      RecognisedAt(site, i);
      RecognisedAt(site, j);
      TransitKeepsOneHop(site.chain, site.path, site.learned, i, j);
    }
  }

  lemma RecognisedAt(site: Site, i: nat)
    requires Recognised(site) && i < |site.Chain()| && site.Leading()(site.Chain()[i])
    ensures IsHop(site.Chain()[i], site.learned)
  {
  }

  /**
   Two generic LAN rows that lead to instances nobody has learned pass both rules: under egress-local
   the request leaves, under the transit rule it goes to both at once.
   */
  lemma UnlearnedRowsSlipThrough(x: Backend, y: Backend, egressLocal: bool)
    requires x.providerClass != PROVIDER_CTX && y.providerClass != PROVIDER_CTX && x.id != y.id
    requires x.locality == LOCALITY_LAN && y.locality == LOCALITY_LAN
    ensures var site := Site("A", ["O"], egressLocal, [x, y], map[], map[x.id := "B", y.id := "C"]);
            site.Chain() == [x, y] && !SpreadsTo(site, 1)
  {
    var site := Site("A", ["O"], egressLocal, [x, y], map[], map[x.id := "B", y.id := "C"]);
    var chain := [x, y];
    FilterAll(OffPathWith(site.path, map[]), chain);
    FilterAll(LocalWith(map[]), chain);
    assert [y][1..] == [] && chain[1..] == [y];
    assert Capped([y], map[]) == [y];
    assert Capped(chain, map[]) == [x] + Capped(chain[1..], map[]);
    FilterAll(site.Leading(), chain);
    OneOnwardIff(site);
  }

  // ---------------------------------------------------------------- the linear bound

  /** The property holds at every site the request reached. */
  ghost predicate Everywhere(p: Site -> bool, h: Handling)
  {
    p(h.site) && forall i :: 0 <= i < |h.onward| ==> Everywhere(p, h.onward[i])
  }

  /** At most one row of the tried chain leads on. */
  function Narrow(): Site -> bool
  {
    (site: Site) => |LeadingRows(site)| <= 1
  }

  /** If no site has two leading rows, the number of handlings is linear in the depth. */
  lemma {:induction false} NarrowIsLinear(h: Handling)
    requires Follows(h) && Everywhere(Narrow(), h)
    ensures Handlings(h) == Depth(h) + 1
  {
    AtMostOneOnward(h);
    if h.onward != [] {
      NarrowIsLinear(h.onward[0]);
      assert h.onward[1..] == [];
      assert HandlingsOf(h.onward) == Handlings(h.onward[0]);
      assert DepthOf(h.onward) == 1 + Depth(h.onward[0]);
    }
  }

  function AllRecognised(): Site -> bool
  {
    (site: Site) => Recognised(site)
  }

  lemma {:induction false} RecognisedIsNarrow(h: Handling)
    requires Everywhere(AllRecognised(), h)
    ensures Everywhere(Narrow(), h)
  {
    RecognisedLeadsToOne(h.site);
    forall i | 0 <= i < |h.onward| ensures Everywhere(Narrow(), h.onward[i]) {
      RecognisedIsNarrow(h.onward[i]);
    }
  }

  /** When every leading row is recognised, a request of depth d has d + 1 handlings, and one under egress-local. */
  lemma HandlingsAreLinear(h: Handling)
    requires Follows(h) && Everywhere(AllRecognised(), h)
    ensures Handlings(h) == Depth(h) + 1
    ensures h.site.egressLocal ==> Handlings(h) == 1
  {
    RecognisedIsNarrow(h);
    NarrowIsLinear(h);
    RecognisedLeadsToOne(h.site);
    if h.site.egressLocal {
      NoneOnwardIff(h.site);
    }
  }

  // ---------------------------------------------------------------- no instance twice

  /** Every leading row is learned for what it is. */
  predicate Learnt(site: Site)
  {
    forall b :: b in site.Chain() && site.Behind(b) != "" ==> InstanceOf(b, site.learned) == site.Behind(b)
  }

  /** And none leads back to the instance it belongs to. */
  predicate Truthful(site: Site)
  {
    Learnt(site) && forall b :: b in site.Chain() ==> site.Behind(b) != site.instance || site.Behind(b) == ""
  }

  function AllTruthful(): Site -> bool
  {
    (site: Site) => Truthful(site)
  }

  lemma TriedIsOffPath(site: Site, b: Backend)
    requires b in site.Chain()
    ensures OffPath(b, site.path, site.learned)
  {
    var open := Filter(OffPathWith(site.path, site.learned), site.chain);
    CappedIsPart(open, site.learned);
  }

  lemma {:induction false} CappedIsPart(chain: seq<Backend>, learned: Learned)
    ensures forall b :: b in Capped(chain, learned) ==> b in chain
  {
    if chain != [] {
      CappedIsPart(chain[1..], learned);
    }
  }

  /** With every row learned, a request goes to an instance that has handled it exactly when a row leads back home. */
  lemma OnwardIsNewIff(site: Site, row: nat, next: Site)
    requires Goes(site, row, next) && Learnt(site)
    ensures next.instance !in next.path <==> next.instance != site.instance
  {
    var b := site.Chain()[row];
    assert b in site.Chain();
    TriedIsOffPath(site, b);
  }

  ghost predicate Distinct(path: seq<string>)
  {
    forall i, j :: 0 <= i < j < |path| ==> path[i] != path[j]
  }

  /** The instances of the network. */
  function Within(all: set<string>): Site -> bool
  {
    (site: Site) => site.instance in all
  }

  lemma {:induction false} DistinctFits(path: seq<string>, all: set<string>)
    requires Distinct(path) && forall x :: x in path ==> x in all
    ensures |path| <= |all|
  {
    if path != [] {
      var rest, last := path[..|path| - 1], path[|path| - 1];
      assert forall x :: x in rest ==> x in path && x != last;
      DistinctFits(rest, all - {last});
    }
  }

  /** So no instance handles it twice, and the path together with what is still to come fits the network. */
  lemma {:induction false} DepthFitsNetwork(h: Handling, all: set<string>)
    requires Follows(h) && Everywhere(AllTruthful(), h) && Everywhere(Within(all), h)
    requires Distinct(h.site.path + [h.site.instance]) && forall x :: x in h.site.path ==> x in all
    ensures |h.site.path| + Depth(h) + 1 <= |all|
  {
    var path := h.site.path + [h.site.instance];
    DistinctFits(path, all);
    TruthfulIsRecognised(h.site);
    RecognisedLeadsToOne(h.site);
    AtMostOneOnward(h);
    if h.onward != [] {
      var next := h.onward[0];
      assert Goes(h.site, h.rows[0], next.site);
      OnwardIsNewIff(h.site, h.rows[0], next.site);
      assert next.site.path == path;
      DepthFitsNetwork(next, all);
      assert h.onward[1..] == [];
      assert DepthOf(h.onward) == 1 + Depth(next);
    }
  }

  lemma TruthfulIsRecognised(site: Site)
    requires Truthful(site)
    ensures Recognised(site)
  {
  }
}
