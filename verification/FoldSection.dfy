/**
 Reading a folded migration back out of the baseline (go/migrations/fold.go Section).
 A file is a sequence of characters, one per byte.
 */
module FoldSection {
  import opened Ordering

  /** The texts that open the begin line and the end line of a section. */
  datatype Marks = Marks(begin: string, end: string)

  const CTX_FOLD: Marks := Marks("-- @@ ctx-fold begin ", "-- @@ ctx-fold end ")

  // ---------------------------------------------------------------- searching

  /** bytes.Index: the first occurrence, or -1. */
  function Index(s: string, p: string): (r: int)
    ensures r >= 0 ==> OccursAt(s, p, r) && forall i :: 0 <= i < r ==> !OccursAt(s, p, i)
    ensures r < 0 ==> forall i :: 0 <= i <= |s| ==> !OccursAt(s, p, i)
    ensures -1 <= r <= |s|
  {
    IndexFrom(s, p, 0)
  }

  function IndexFrom(s: string, p: string, k: nat): (r: int)
    requires k <= |s| && forall i :: 0 <= i < k ==> !OccursAt(s, p, i)
    ensures r >= 0 ==> OccursAt(s, p, r) && forall i :: 0 <= i < r ==> !OccursAt(s, p, i)
    ensures r < 0 ==> forall i :: 0 <= i <= |s| ==> !OccursAt(s, p, i)
    ensures -1 <= r <= |s|
    decreases |s| - k
  {
    if OccursAt(s, p, k) then k else if k == |s| then -1 else IndexFrom(s, p, k + 1)
  }

  datatype Read = Text(body: string) | NoFile | NoEndMarker

  function Line(marker: string, filename: string): string
  {
    marker + filename + "\n"
  }

  /** Section over a baseline and the files that still ship on their own. */
  function Section(mk: Marks, baseline: string, files: map<string, string>, filename: string): Read
  {
    var start, end := Line(mk.begin, filename), Line(mk.end, filename);
    var i := Index(baseline, start);
    if i < 0 then (if filename in files then Text(files[filename]) else NoFile)
    else
      var rest := baseline[i + |start|..];
      var j := Index(rest, end);
      if j < 0 then NoEndMarker else Text(rest[..j])
  }

  // ---------------------------------------------------------------- folding

  /** One folded file, with the text that precedes its section. */
  datatype Part = Part(gap: string, name: string, body: string)

  function FoldPart(mk: Marks, p: Part): string
  {
    p.gap + Line(mk.begin, p.name) + p.body + Line(mk.end, p.name)
  }

  function Fold(mk: Marks, parts: seq<Part>, tail: string): string
  {
    if parts == [] then tail else FoldPart(mk, parts[0]) + Fold(mk, parts[1..], tail)
  }

  ghost predicate Free(s: string, marker: string)
  {
    forall i :: 0 <= i <= |s| ==> !OccursAt(s, marker, i)
  }

  ghost predicate Foldable(mk: Marks, p: Part)
  {
    && Free(p.gap, mk.begin) && Free(p.body, mk.begin) && Free(p.body, mk.end)
    && Free(p.name, mk.begin) && '\n' !in p.name
  }

  /** Everything may be folded and no two parts carry the same name. */
  ghost predicate FoldableAll(mk: Marks, parts: seq<Part>)
  {
    && (forall i :: 0 <= i < |parts| ==> Foldable(mk, parts[i]))
    && (forall i, j :: 0 <= i < j < |parts| ==> parts[i].name != parts[j].name)
  }

  // ---------------------------------------------------------------- what makes a marker findable

  /** It starts with two dashes, has no second such pair, does not end in a dash and has no newline. */
  ghost predicate Shape(m: string)
  {
    && |m| >= 2 && m[0] == '-' && m[1] == '-' && m[|m| - 1] != '-'
    && (forall d :: 0 <= d < |m| ==> m[d] != '\n')
    && (forall d :: 0 < d < |m| - 1 ==> !(m[d] == '-' && m[d + 1] == '-'))
  }

  ghost predicate Findable(mk: Marks)
  {
    && Shape(mk.begin) && Shape(mk.end)
    && exists k :: 0 <= k < |mk.begin| && k < |mk.end| && mk.begin[k] != mk.end[k]
  }

  lemma BeginShape()
    ensures Shape(CTX_FOLD.begin)
  {
  }

  lemma EndShape()
    ensures Shape(CTX_FOLD.end)
  {
  }

  lemma CtxFoldIsFindable()
    ensures Findable(CTX_FOLD)
  {
    BeginShape();
    EndShape();
    assert CTX_FOLD.begin[15] == 'b' && CTX_FOLD.end[15] == 'e';
  }

  lemma CharOf(s: string, x: string, a: nat, k: nat)
    requires OccursAt(s, x, a) && k < |x|
    ensures s[a + k] == x[k]
  {
  }

  lemma ShapeAt(s: string, m: string, i: nat)
    requires Shape(m) && OccursAt(s, m, i)
    ensures s[i] == '-' && s[i + 1] == '-'
    ensures forall x :: i <= x < i + |m| ==> s[x] != '\n'
    ensures forall x :: i < x < i + |m| && s[x] == '-' ==> x + 1 < i + |m| && s[x + 1] != '-'
  {
    assert m[0] == s[i + 0] && m[1] == s[i + 1];
    forall x | i <= x < i + |m|
      ensures s[x] != '\n' && (i < x && s[x] == '-' ==> x + 1 < i + |m| && s[x + 1] != '-')
    {
      var d := x - i;
      CharOf(s, m, i, d);
      assert m[d] != '\n';
      if d + 1 < |m| {
        CharOf(s, m, i, d + 1);
        assert 0 < d ==> !(m[d] == '-' && m[d + 1] == '-');
      }
    }
  }

  /** Two occurrences of markers overlap only if they start together. */
  lemma OccurrencesApart(s: string, m: string, m': string, i: nat, e: nat)
    requires Shape(m) && Shape(m') && OccursAt(s, m, i) && OccursAt(s, m', e)
    ensures i == e || i + |m| <= e || e + |m'| <= i
  {
    ShapeAt(s, m, i);
    ShapeAt(s, m', e);
  }

  /** The two markers differ, so at one place at most one of them occurs. */
  lemma DifferentMarkers(mk: Marks, s: string, i: nat, e: nat)
    requires Findable(mk) && OccursAt(s, mk.begin, i) && OccursAt(s, mk.end, e)
    ensures i != e
  {
    var k :| 0 <= k < |mk.begin| && k < |mk.end| && mk.begin[k] != mk.end[k];
    CharOf(s, mk.begin, i, k);
    CharOf(s, mk.end, e, k);
  }

  lemma InsidePiece(s: string, x: string, a: nat, m: string, i: nat)
    requires OccursAt(s, x, a) && OccursAt(s, m, i) && a <= i && i + |m| <= a + |x|
    ensures OccursAt(x, m, i - a)
  {
    forall k | 0 <= k < |m| ensures x[i - a + k] == m[k] {
      CharOf(s, m, i, k);
      CharOf(s, x, a, i - a + k);
    }
  }

  /** A piece of the text without the marker has no occurrence inside it. */
  lemma NotInside(s: string, x: string, a: nat, m: string, i: nat)
    requires OccursAt(s, x, a) && Free(x, m) && OccursAt(s, m, i)
    ensures i < a || a + |x| < i + |m|
  {
    if a <= i && i + |m| <= a + |x| {
      InsidePiece(s, x, a, m, i);
    }
  }

  lemma NewlineApart(s: string, m: string, i: nat, n: nat)
    requires Shape(m) && OccursAt(s, m, i) && OccursAt(s, "\n", n)
    ensures n < i || i + |m| <= n
  {
    ShapeAt(s, m, i);
    CharOf(s, "\n", n, 0);
  }

  // ---------------------------------------------------------------- where the pieces of a part are

  lemma Grow(s: string, t: string, x: string)
    requires t + x <= s
    ensures OccursAt(s, x, |t|)
  {
    forall k | 0 <= k < |x| ensures s[|t| + k] == x[k] {
      assert (t + x)[|t| + k] == x[k];
    }
  }

  /** The pieces of a folded part stand in `s` one after the other, from the start of `s`. */
  ghost predicate LaidOut(mk: Marks, p: Part, s: string)
  {
    var line1 := |p.gap| + |mk.begin| + |p.name|;
    var mark := line1 + 1 + |p.body|;
    var line2 := mark + |mk.end| + |p.name|;
    && OccursAt(s, p.gap, 0) && OccursAt(s, mk.begin, |p.gap|) && OccursAt(s, p.name, |p.gap| + |mk.begin|)
    && OccursAt(s, "\n", line1)
    && OccursAt(s, p.body, line1 + 1) && OccursAt(s, mk.end, mark) && OccursAt(s, p.name, mark + |mk.end|)
    && OccursAt(s, "\n", line2)
  }

  lemma GrowFour(s: string, t: string, x: string, y: string, z: string, w: string)
    requires t + x + y + z + w <= s
    ensures OccursAt(s, x, |t|) && OccursAt(s, y, |t| + |x|)
    ensures OccursAt(s, z, |t| + |x| + |y|) && OccursAt(s, w, |t| + |x| + |y| + |z|)
  {
    Grow(s, t, x);
    Grow(s, t + x, y);
    Grow(s, t + x + y, z);
    Grow(s, t + x + y + z, w);
  }

  lemma Layout(mk: Marks, p: Part, rest: string)
    ensures LaidOut(mk, p, FoldPart(mk, p) + rest)
  {
    var s, front := FoldPart(mk, p) + rest, p.gap + Line(mk.begin, p.name);
    assert "" + p.gap + mk.begin + p.name + "\n" == front;
    assert front + p.body + mk.end + p.name + "\n" == FoldPart(mk, p);
    GrowFour(s, "", p.gap, mk.begin, p.name, "\n");
    GrowFour(s, front, p.body, mk.end, p.name, "\n");
  }

  /** No begin marker starts behind the begin line of a folded part. */
  lemma NoBeginBehind(mk: Marks, p: Part, s: string, i: nat)
    requires Findable(mk) && Foldable(mk, p) && LaidOut(mk, p, s) && i < |FoldPart(mk, p)| && OccursAt(s, mk.begin, i)
    ensures i <= |p.gap| + |mk.begin| + |p.name|
  {
    var line1 := |p.gap| + |mk.begin| + |p.name|;
    var mark := line1 + 1 + |p.body|;
    OccurrencesApart(s, mk.begin, mk.end, i, mark);
    DifferentMarkers(mk, s, i, mark);
    NewlineApart(s, mk.begin, i, mark + |mk.end| + |p.name|);
    NotInside(s, p.body, line1 + 1, mk.begin, i);
    NotInside(s, p.name, mark + |mk.end|, mk.begin, i);
  }

  /** The begin marker occurs in a folded part at its own place and nowhere else. */
  lemma BeginOnlyAfterGap(mk: Marks, p: Part, s: string, i: nat)
    requires Findable(mk) && Foldable(mk, p) && LaidOut(mk, p, s) && i < |FoldPart(mk, p)| && OccursAt(s, mk.begin, i)
    ensures i == |p.gap|
  {
    NoBeginBehind(mk, p, s, i);
    OccurrencesApart(s, mk.begin, mk.begin, i, |p.gap|);
    NewlineApart(s, mk.begin, i, |p.gap| + |mk.begin| + |p.name|);
    NotInside(s, p.gap, 0, mk.begin, i);
    NotInside(s, p.name, |p.gap| + |mk.begin|, mk.begin, i);
  }

  // ---------------------------------------------------------------- marker lines

  lemma LineStarts(s: string, m: string, name: string, i: nat)
    requires OccursAt(s, Line(m, name), i)
    ensures OccursAt(s, m, i)
  {
    forall k | 0 <= k < |m| ensures s[i + k] == m[k] {
      assert Line(m, name)[k] == m[k];
      CharOf(s, Line(m, name), i, k);
    }
  }

  /** A marker line for a file names exactly that file. */
  lemma LineNamesFile(s: string, m: string, name: string, filename: string, i: nat)
    requires '\n' !in name && '\n' !in filename
    requires OccursAt(s, Line(m, name), i) && OccursAt(s, Line(m, filename), i)
    ensures name == filename
  {
    var a, b := Line(m, name), Line(m, filename);
    assert a[|m| + |name|] == '\n' && b[|m| + |filename|] == '\n';
    forall k | 0 <= k < |a| && k < |b| ensures a[k] == b[k] {
      CharOf(s, a, i, k);
      CharOf(s, b, i, k);
    }
    assert forall k :: 0 <= k < |name| ==> a[|m| + k] == name[k] && name[k] in name;
    assert forall k :: 0 <= k < |filename| ==> b[|m| + k] == filename[k] && filename[k] in filename;
    assert |name| == |filename|;
    assert forall k :: 0 <= k < |name| ==> name[k] == filename[k];
  }

  lemma OwnLine(mk: Marks, p: Part, rest: string)
    ensures OccursAt(FoldPart(mk, p) + rest, Line(mk.begin, p.name), |p.gap|)
  {
    assert p.gap + Line(mk.begin, p.name) <= FoldPart(mk, p) + rest;
    Grow(FoldPart(mk, p) + rest, p.gap, Line(mk.begin, p.name));
  }

  /** A begin line found inside a folded part is the part's own. */
  lemma BeginLineInPart(mk: Marks, p: Part, rest: string, filename: string, i: nat)
    requires Findable(mk) && Foldable(mk, p) && '\n' !in filename && i < |FoldPart(mk, p)|
    requires OccursAt(FoldPart(mk, p) + rest, Line(mk.begin, filename), i)
    ensures i == |p.gap| && filename == p.name
  {
    var s := FoldPart(mk, p) + rest;
    LineStarts(s, mk.begin, filename, i);
    Layout(mk, p, rest);
    BeginOnlyAfterGap(mk, p, s, i);
    OwnLine(mk, p, rest);
    LineNamesFile(s, mk.begin, p.name, filename, i);
  }

  lemma EndAfterBody(mk: Marks, body: string, s: string, i: nat)
    requires Findable(mk) && Free(body, mk.end) && OccursAt(s, body, 0) && OccursAt(s, mk.end, |body|)
             && OccursAt(s, mk.end, i)
    ensures |body| <= i
  {
    OccurrencesApart(s, mk.end, mk.end, i, |body|);
    NotInside(s, body, 0, mk.end, i);
  }

  lemma EndAt(mk: Marks, p: Part, rest: string)
    ensures OccursAt(p.body + Line(mk.end, p.name) + rest, p.body, 0)
    ensures OccursAt(p.body + Line(mk.end, p.name) + rest, Line(mk.end, p.name), |p.body|)
  {
    var s := p.body + Line(mk.end, p.name) + rest;
    assert "" + p.body == p.body;
    Grow(s, "", p.body);
    Grow(s, p.body, Line(mk.end, p.name));
  }

  /** Behind the begin line the first end line is the one that closes the body. */
  lemma EndLineAfterBody(mk: Marks, p: Part, rest: string, i: nat)
    requires Findable(mk) && Foldable(mk, p) && OccursAt(p.body + Line(mk.end, p.name) + rest, Line(mk.end, p.name), i)
    ensures |p.body| <= i
  {
    var s := p.body + Line(mk.end, p.name) + rest;
    EndAt(mk, p, rest);
    LineStarts(s, mk.end, p.name, i);
    LineStarts(s, mk.end, p.name, |p.body|);
    EndAfterBody(mk, p.body, s, i);
  }

  // ---------------------------------------------------------------- finding the section

  lemma IndexIs(s: string, p: string, k: nat)
    requires OccursAt(s, p, k) && forall i :: 0 <= i < |s| && OccursAt(s, p, i) ==> k <= i
    ensures Index(s, p) == k
  {
  }

  lemma Shift(a: string, r: string, p: string, i: nat)
    ensures OccursAt(a + r, p, |a| + i) <==> OccursAt(r, p, i)
  {
    if i + |p| <= |r| {
      assert (a + r)[|a| + i..|a| + i + |p|] == r[i..i + |p|];
      forall k | 0 <= k < |p| ensures (a + r)[|a| + i + k] == r[i + k] && p[k] == p[k] {
      }
    }
  }

  lemma IndexSkips(a: string, r: string, p: string)
    requires forall i :: 0 <= i < |a| ==> !OccursAt(a + r, p, i)
    ensures Index(a + r, p) == if Index(r, p) < 0 then -1 else |a| + Index(r, p)
  {
    var x, y := Index(a + r, p), Index(r, p);
    if x >= 0 {
      Shift(a, r, p, x - |a|);
    }
    if y >= 0 {
      Shift(a, r, p, y);
    }
    if x >= 0 && y >= 0 {
      assert OccursAt(r, p, x - |a|) && OccursAt(a + r, p, |a| + y);
    }
  }

  lemma OwnBegin(mk: Marks, p: Part, rest: string)
    requires Findable(mk) && Foldable(mk, p)
    ensures Index(FoldPart(mk, p) + rest, Line(mk.begin, p.name)) == |p.gap|
  {
    var s, start := FoldPart(mk, p) + rest, Line(mk.begin, p.name);
    OwnLine(mk, p, rest);
    forall i | 0 <= i < |s| && OccursAt(s, start, i) ensures |p.gap| <= i {
      if i < |FoldPart(mk, p)| {
        BeginLineInPart(mk, p, rest, p.name, i);
      }
    }
    IndexIs(s, start, |p.gap|);
  }

  lemma OwnEnd(mk: Marks, p: Part, rest: string)
    requires Findable(mk) && Foldable(mk, p)
    ensures Index(p.body + Line(mk.end, p.name) + rest, Line(mk.end, p.name)) == |p.body|
  {
    var end := Line(mk.end, p.name);
    var s := p.body + end + rest;
    EndAt(mk, p, rest);
    forall i | 0 <= i < |s| && OccursAt(s, end, i) ensures |p.body| <= i {
      EndLineAfterBody(mk, p, rest, i);
    }
    IndexIs(s, end, |p.body|);
  }

  lemma Drop(a: string, b: string, c: string)
    ensures (a + b + c)[|a| + |b|..] == c
  {
  }

  lemma BodyOf(body: string, end: string, rest: string)
    ensures (body + end + rest)[..|body|] == body
  {
  }

  lemma Unfolded(mk: Marks, p: Part, rest: string)
    ensures FoldPart(mk, p) + rest == p.gap + Line(mk.begin, p.name) + (p.body + Line(mk.end, p.name) + rest)
  {
    var g, x, y := p.gap + Line(mk.begin, p.name), p.body, Line(mk.end, p.name);
    assert g + x + y + rest == g + (x + y + rest);
  }

  /** Section once the place of its begin line and of its end line are known. */
  lemma SectionFound(mk: Marks, s: string, files: map<string, string>, filename: string, i: nat, tail: string)
    requires Index(s, Line(mk.begin, filename)) == i && s[i + |Line(mk.begin, filename)|..] == tail
    ensures var j := Index(tail, Line(mk.end, filename));
            Section(mk, s, files, filename) == if j < 0 then NoEndMarker else Text(tail[..j])
  {
  }

  /** The section of the file is found at its begin line, and its body is what stands up to the end line. */
  lemma OwnSection(mk: Marks, p: Part, rest: string, files: map<string, string>)
    requires Findable(mk) && Foldable(mk, p)
    ensures Section(mk, FoldPart(mk, p) + rest, files, p.name) == Text(p.body)
  {
    var s, end := FoldPart(mk, p) + rest, Line(mk.end, p.name);
    var tail := p.body + end + rest;
    OwnBegin(mk, p, rest);
    OwnEnd(mk, p, rest);
    Unfolded(mk, p, rest);
    Drop(p.gap, Line(mk.begin, p.name), tail);
    SectionFound(mk, s, files, p.name, |p.gap|, tail);
    BodyOf(p.body, end, rest);
  }

  /** A section whose begin line stands at i and that no end line follows is reported as such. */
  lemma MissingEndIsReported(mk: Marks, s: string, files: map<string, string>, filename: string, i: nat, tail: string)
    requires Index(s, Line(mk.begin, filename)) == i && s[i + |Line(mk.begin, filename)|..] == tail
    requires forall k :: 0 <= k <= |tail| ==> !OccursAt(tail, Line(mk.end, filename), k)
    ensures Section(mk, s, files, filename) == NoEndMarker
  {
    SectionFound(mk, s, files, filename, i, tail);
  }

  lemma SkipsBegin(mk: Marks, p: Part, rest: string, filename: string)
    requires Findable(mk) && Foldable(mk, p) && '\n' !in filename && p.name != filename
    ensures var a, start := FoldPart(mk, p), Line(mk.begin, filename);
            Index(a + rest, start) == if Index(rest, start) < 0 then -1 else |a| + Index(rest, start)
  {
    var a, start := FoldPart(mk, p), Line(mk.begin, filename);
    forall i | 0 <= i < |a| ensures !OccursAt(a + rest, start, i) {
      if OccursAt(a + rest, start, i) {
        BeginLineInPart(mk, p, rest, filename, i);
      }
    }
    IndexSkips(a, rest, start);
  }

  lemma DropMore(a: string, r: string, k: nat)
    requires k <= |r|
    ensures (a + r)[|a| + k..] == r[k..]
  {
  }

  /** A part of another name in front changes nothing. */
  lemma SectionSkips(mk: Marks, p: Part, rest: string, files: map<string, string>, filename: string)
    requires Findable(mk) && Foldable(mk, p) && '\n' !in filename && p.name != filename
    ensures Section(mk, FoldPart(mk, p) + rest, files, filename) == Section(mk, rest, files, filename)
  {
    var a, start := FoldPart(mk, p), Line(mk.begin, filename);
    SkipsBegin(mk, p, rest, filename);
    var i := Index(rest, start);
    if i >= 0 {
      DropMore(a, rest, i + |start|);
      SectionFound(mk, rest, files, filename, i, rest[i + |start|..]);
      SectionFound(mk, a + rest, files, filename, |a| + i, rest[i + |start|..]);
    }
  }

  /** Section gives back the body of every folded file, byte for byte. */
  lemma {:induction false} SectionInvertsFold(mk: Marks, parts: seq<Part>, tail: string, files: map<string, string>,
                                              k: nat)
    requires Findable(mk) && FoldableAll(mk, parts) && k < |parts|
    ensures Section(mk, Fold(mk, parts, tail), files, parts[k].name) == Text(parts[k].body)
  {
    var rest := Fold(mk, parts[1..], tail);
    if k == 0 {
      OwnSection(mk, parts[0], rest, files);
    } else {
      SectionInvertsFold(mk, parts[1..], tail, files, k - 1);
      SectionSkips(mk, parts[0], rest, files, parts[k].name);
    }
  }

  /** A file that was not folded is read from the files that still ship. */
  lemma {:induction false} UnfoldedFallsThrough(mk: Marks, parts: seq<Part>, tail: string, files: map<string, string>,
                                                filename: string)
    requires Findable(mk) && FoldableAll(mk, parts) && Free(tail, mk.begin) && '\n' !in filename
    requires forall i :: 0 <= i < |parts| ==> parts[i].name != filename
    ensures Section(mk, Fold(mk, parts, tail), files, filename)
            == if filename in files then Text(files[filename]) else NoFile
  {
    if parts == [] {
      forall i | 0 <= i <= |tail| ensures !OccursAt(tail, Line(mk.begin, filename), i) {
        if OccursAt(tail, Line(mk.begin, filename), i) {
          LineStarts(tail, mk.begin, filename, i);
        }
      }
    } else {
      UnfoldedFallsThrough(mk, parts[1..], tail, files, filename);
      SectionSkips(mk, parts[0], Fold(mk, parts[1..], tail), files, filename);
    }
  }

  /** The baseline's own markers: what was folded under them is read back unchanged. */
  lemma BaselineRoundTrip(parts: seq<Part>, tail: string, files: map<string, string>)
    requires FoldableAll(CTX_FOLD, parts)
    ensures forall k :: 0 <= k < |parts| ==>
              Section(CTX_FOLD, Fold(CTX_FOLD, parts, tail), files, parts[k].name) == Text(parts[k].body)
  {
    CtxFoldIsFindable();
    forall k | 0 <= k < |parts|
      ensures Section(CTX_FOLD, Fold(CTX_FOLD, parts, tail), files, parts[k].name) == Text(parts[k].body)
    {
      SectionInvertsFold(CTX_FOLD, parts, tail, files, k);
    }
  }
}
