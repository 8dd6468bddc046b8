/**
 * What the document written by writeSingleXDMF says: one uniform grid per
 * time step t = bg, bg + step, ... while t <= ed, each naming and reading
 * its own solution file, and every number in it readable back.
 */
module XdmfProperties {
  import opened Wrappers
  import opened Format
  import opened Xdmf

  // ---------------------------------------------------------------------
  // The time steps
  // ---------------------------------------------------------------------

  /** The m-th step is bg + m * step, none passes ed, and the next one would. */
  lemma {:induction false} TimesShape(bg: int, ed: int, step: int)
    requires step > 0 || bg > ed
    ensures forall m | 0 <= m < |Times(bg, ed, step)| :: Times(bg, ed, step)[m] == bg + m * step <= ed
    ensures bg + |Times(bg, ed, step)| * step > ed
    ensures |Times(bg, ed, step)| == 0 <==> bg > ed
    decreases if bg > ed then 0 else ed - bg + 1
  {
    if bg <= ed {
      var rest := Times(bg + step, ed, step);
      TimesShape(bg + step, ed, step);
      var ts := Times(bg, ed, step);
      assert ts == [bg] + rest;
      forall m | 0 <= m < |ts|
        ensures ts[m] == bg + m * step <= ed
      {
        if m > 0 {
          assert ts[m] == rest[m - 1];
          ShiftStep(bg, step, m - 1);
        }
      }
      ShiftStep(bg, step, |rest|);
    }
  }

  /** (bg + step) + k * step == bg + (k + 1) * step. */
  lemma ShiftStep(bg: int, step: int, k: int)
    ensures bg + step + k * step == bg + (k + 1) * step
  {
  }

  /** With a positive step the steps increase strictly, so no step is written twice. */
  lemma TimesIncreasing(bg: int, ed: int, step: int, i: int, j: int)
    requires step > 0
    requires 0 <= i < j < |Times(bg, ed, step)|
    ensures Times(bg, ed, step)[i] < Times(bg, ed, step)[j]
  {
    TimesShape(bg, ed, step);
    assert (j - i) * step > 0;
    assert bg + j * step == bg + i * step + (j - i) * step;
  }

  /** The loop runs (ed - bg) / step + 1 times when bg <= ed. */
  lemma TimesCount(bg: int, ed: int, step: int)
    requires step > 0 && bg <= ed
    ensures |Times(bg, ed, step)| == (ed - bg) / step + 1
  {
    TimesShape(bg, ed, step);
    var k := |Times(bg, ed, step)|;
    assert k >= 1;
    assert (k - 1) * step <= ed - bg < k * step;
    DivBetween(ed - bg, step, k - 1);
  }

  /** q * d <= x < (q + 1) * d pins down x / d. */
  lemma DivBetween(x: int, d: int, q: int)
    requires d > 0
    requires q * d <= x < (q + 1) * d
    ensures x / d == q
  {
    var r := x / d;
    assert r * d <= x < (r + 1) * d;
    MulMonotone(r + 1, q, d);
    MulMonotone(q + 1, r, d);
  }

  lemma MulMonotone(a: int, b: int, d: int)
    requires d > 0
    ensures a <= b ==> a * d <= b * d
  {
    if a <= b {
      assert b * d == a * d + (b - a) * d;
    }
  }

  // ---------------------------------------------------------------------
  // The shape of the document
  // ---------------------------------------------------------------------

  /** Printing a + b writes the text of a, then that of b. */
  lemma {:induction false} TextConcat(a: seq<Chunk>, b: seq<Chunk>)
    ensures Text(a + b) == Text(a) + Text(b)
    decreases |a|
  {
    if a == [] {
      assert a + b == b;
    } else {
      assert (a + b)[0] == a[0];
      assert (a + b)[1..] == a[1..] + b;
      TextConcat(a[1..], b);
    }
  }

  /** The file's text is that of its head, then of each snapshot, then of its tail. */
  lemma DocumentText(name: string, dim: nat, n: seq<int>, bg: int, ed: int, step: int)
    requires dim <= |n|
    requires step > 0 || bg > ed
    ensures Text(Document(name, dim, n, bg, ed, step)) ==
      Text(Head(name, dim, n)) + Text(Snapshots(name, dim, Times(bg, ed, step))) + Text(Tail)
  {
    var h := Head(name, dim, n);
    var s := Snapshots(name, dim, Times(bg, ed, step));
    TextConcat(h + s, Tail);
    TextConcat(h, s);
  }

  /** The entity N<dir> of direction d declares n[d]. */
  lemma {:induction false} EntitiesAt(n: seq<int>, k: nat)
    requires k <= |n|
    ensures |Entities(n, k)| == k
    ensures forall d | 0 <= d < k :: Entities(n, k)[d] == Entity(d, n[d])
  {
    if k > 0 {
      EntitiesAt(n, k - 1);
    }
  }

  /** The coordinate array of direction d is the d-th block of four chunks. */
  lemma {:induction false} CoordinatesAt(name: string, k: nat)
    ensures |Coordinates(name, k)| == 4 * k
    ensures forall d | 0 <= d < k :: Coordinates(name, k)[4 * d .. 4 * d + 4] == Coordinate(name, d)
  {
    if k > 0 {
      CoordinatesAt(name, k - 1);
      var c := Coordinates(name, k);
      assert c == Coordinates(name, k - 1) + Coordinate(name, k - 1);
      forall d | 0 <= d < k
        ensures c[4 * d .. 4 * d + 4] == Coordinate(name, d)
      {
        if d < k - 1 {
          assert c[4 * d .. 4 * d + 4] == Coordinates(name, k - 1)[4 * d .. 4 * d + 4];
        }
      }
    }
  }

  /** The head has 14 + 5 * dim chunks: the grid sizes come right after the DOCTYPE opening. */
  lemma HeadShape(name: string, dim: nat, n: seq<int>)
    requires dim <= |n|
    ensures |Head(name, dim, n)| == 14 + 5 * dim
    ensures forall d | 0 <= d < dim :: Head(name, dim, n)[3 + d] == Entity(d, n[d])
  {
    EntitiesAt(n, dim);
    CoordinatesAt(name, dim);
    var p := Prologue(n, dim);
    var h := Head(name, dim, n);
    assert |p| == 4 + dim;
    assert |Domain(name, dim)| == 8;
    assert |Geometry(name, dim)| == 4 * dim + 2;
    forall d | 0 <= d < dim
      ensures h[3 + d] == Entity(d, n[d])
    {
      assert h == p + (Domain(name, dim) + Geometry(name, dim));
      assert h[3 + d] == p[3 + d];
      assert p == ([Declaration, DocTypeOpen, CaseDirEntity] + Entities(n, dim)) + [DocTypeClose];
      assert p[3 + d] == Entities(n, dim)[d];
    }
  }

  /** The geometry holds one coordinate array per direction, in direction order, after the topology. */
  lemma HeadCoordinates(name: string, dim: nat, n: seq<int>)
    requires dim <= |n|
    ensures |Head(name, dim, n)| == 14 + 5 * dim
    ensures forall d | 0 <= d < dim ::
      Head(name, dim, n)[12 + dim + 4 * d .. 16 + dim + 4 * d] == Coordinate(name, d)
  {
    HeadShape(name, dim, n);
    CoordinatesAt(name, dim);
    var h := Head(name, dim, n);
    var before := Prologue(n, dim) + Domain(name, dim);
    var g := Geometry(name, dim);
    assert |before| == 12 + dim;
    assert h == before + g;
    forall d | 0 <= d < dim
      ensures h[12 + dim + 4 * d .. 16 + dim + 4 * d] == Coordinate(name, d)
    {
      assert h[12 + dim + 4 * d .. 16 + dim + 4 * d] == g[4 * d .. 4 * d + 4];
      assert g[4 * d .. 4 * d + 4] == Coordinates(name, dim)[4 * d .. 4 * d + 4];
    }
  }

  /** The m-th uniform grid is the snapshot of the m-th time step, eleven chunks each. */
  lemma {:induction false} SnapshotsAt(name: string, dim: int, ts: seq<int>)
    ensures |Snapshots(name, dim, ts)| == 11 * |ts|
    ensures forall m | 0 <= m < |ts| :: Snapshots(name, dim, ts)[11 * m .. 11 * m + 11] == Snapshot(name, dim, ts[m])
    decreases |ts|
  {
    if ts != [] {
      var rest := ts[1..];
      SnapshotsAt(name, dim, rest);
      var s := Snapshots(name, dim, ts);
      assert s == Snapshot(name, dim, ts[0]) + Snapshots(name, dim, rest);
      forall m | 0 <= m < |ts|
        ensures s[11 * m .. 11 * m + 11] == Snapshot(name, dim, ts[m])
      {
        if m > 0 {
          assert s[11 * m .. 11 * m + 11] == Snapshots(name, dim, rest)[11 * (m - 1) .. 11 * (m - 1) + 11];
          assert rest[m - 1] == ts[m];
        }
      }
    }
  }

  /**
   * The document holds one uniform grid per time step, in loop order, and
   * nothing else between the head and the tail.
   */
  lemma DocumentSnapshots(name: string, dim: nat, n: seq<int>, bg: int, ed: int, step: int)
    requires dim <= |n|
    requires step > 0 || bg > ed
    ensures |Document(name, dim, n, bg, ed, step)| == 14 + 5 * dim + 11 * |Times(bg, ed, step)| + 3
    ensures forall m | 0 <= m < |Times(bg, ed, step)| ::
      Document(name, dim, n, bg, ed, step)[14 + 5 * dim + 11 * m .. 14 + 5 * dim + 11 * m + 11]
        == Snapshot(name, dim, bg + m * step)
  {
    var ts := Times(bg, ed, step);
    var h := Head(name, dim, n);
    var s := Snapshots(name, dim, ts);
    var doc := Document(name, dim, n, bg, ed, step);
    HeadShape(name, dim, n);
    SnapshotsAt(name, dim, ts);
    TimesShape(bg, ed, step);
    assert doc == h + s + Tail;
    forall m | 0 <= m < |ts|
      ensures doc[|h| + 11 * m .. |h| + 11 * m + 11] == Snapshot(name, dim, bg + m * step)
    {
      assert doc[|h| + 11 * m .. |h| + 11 * m + 11] == s[11 * m .. 11 * m + 11];
    }
  }

  /** The document opens with the XML declaration and closes the collection, the domain and the Xdmf block. */
  lemma DocumentEnds(name: string, dim: nat, n: seq<int>, bg: int, ed: int, step: int)
    requires dim <= |n|
    requires step > 0 || bg > ed
    ensures |Document(name, dim, n, bg, ed, step)| >= 17
    ensures Document(name, dim, n, bg, ed, step)[0] == Declaration
    ensures var doc := Document(name, dim, n, bg, ed, step);
      doc[|doc| - 3..] == [CollectionClose, DomainClose, XdmfClose]
  {
    var h := Head(name, dim, n);
    var doc := Document(name, dim, n, bg, ed, step);
    HeadShape(name, dim, n);
    assert doc == h + Snapshots(name, dim, Times(bg, ed, step)) + Tail;
    assert doc[0] == h[0] == Prologue(n, dim)[0];
  }

  /** The topology is a 3D rectilinear mesh exactly when dim == 3, a 2D one otherwise. */
  lemma TopologyTypeText(dim: int)
    ensures Render(TopologyType(dim)) == (if dim == 3 then "TopologyType=\"3DRectMesh\" " else "TopologyType=\"2DRectMesh\" ")
  {
    assert Digits(3) == "3" && Digits(2) == "2";
  }

  /** The element and attribute extents name z only in 3D. */
  lemma ExtentsText(dim: int)
    ensures Extents(dim) == (if dim == 3 then "&Nz; &Ny; &Nx;" else "&Ny; &Nx;")
  {
  }

  /** The geometry reads a z coordinate array only in 3D. */
  lemma GeometryTypeText(dim: int)
    ensures Render(GeometryType(dim)) == (if dim == 3 then "GeometryType=\"VXVYVZ\">\n" else "GeometryType=\"VXVY\">\n")
  {
  }

  // ---------------------------------------------------------------------
  // The numbers in the text
  // ---------------------------------------------------------------------

  /** The middle of p + x + s is x. */
  lemma Middle(p: string, x: string, s: string)
    ensures (p + x + s)[|p|..|p + x + s| - |s|] == x
  {
    assert (p + x + s)[|p|..|p + x + s| - |s|] == x;
  }

  /** The Time element's value reads back as t. */
  lemma TimeValueReadable(t: int)
    ensures |Render(TimeValue(t))| >= 30
    ensures var r := Render(TimeValue(t));
      (IsDigits(r[25..|r| - 5]) || (r[25] == '-' && IsDigits(r[26..|r| - 5])))
      && ParseInt(r[25..|r| - 5]) == t
  {
    var p := "            <Time Value=\"";
    var q := "\" />\n";
    assert |p| == 25 && |q| == 5;
    assert Render(TimeValue(t)) == p + Format07(t) + q;
    Middle(p, Format07(t), q);
    Format07Width(t);
    Format07RoundTrip(t);
  }

  /** An entity N<dir> declares a value that reads back as count. */
  lemma EntityReadable(d: nat, count: int)
    ensures |Render(Entity(d, count))| >= 21
    ensures var r := Render(Entity(d, count));
      (IsDigits(r[17..|r| - 3]) || (r[17] == '-' && IsDigits(r[18..|r| - 3])))
      && ParseInt(r[17..|r| - 3]) == count
  {
    var p := "    <!ENTITY N" + DirName(d) + " \"";
    var q := "\">\n";
    assert |p| == 17 && |q| == 3;
    assert Render(Entity(d, count)) == p + FormatD(count) + q;
    Middle(p, FormatD(count), q);
    FormatDRoundTrip(count);
    assert |FormatD(count)| >= 1;
  }

  /** Distinct time steps read distinct solution files. */
  lemma SolutionFileInjective(t: int, u: int)
    requires t != u
    ensures SolutionFile(t) != SolutionFile(u)
  {
    Format07Injective(t, u);
    var a := SolutionFile(t);
    var b := SolutionFile(u);
    assert a[9..|a| - 3] == Format07(t);
    assert b[9..|b| - 3] == Format07(u);
  }

  /** A non-negative step is written as seven digits up to 9999999, so files sort by name in step order. */
  lemma SolutionFileWidth(t: int)
    requires 0 <= t < Pow10(7)
    ensures |SolutionFile(t)| == 19
    ensures IsDigits(SolutionFile(t)[9..16])
  {
    Format07Width(t);
    Format07Digits(t);
    assert SolutionFile(t)[9..16] == Format07(t);
  }

  /** Every uniform grid of one document reads a solution file no other grid reads. */
  lemma SnapshotFilesDistinct(bg: int, ed: int, step: int, i: int, j: int)
    requires step > 0
    requires 0 <= i < j < |Times(bg, ed, step)|
    ensures SolutionFile(Times(bg, ed, step)[i]) != SolutionFile(Times(bg, ed, step)[j])
  {
    TimesIncreasing(bg, ed, step, i, j);
    SolutionFileInjective(Times(bg, ed, step)[i], Times(bg, ed, step)[j]);
  }

  // ---------------------------------------------------------------------
  // Every element opened is closed, innermost first
  // ---------------------------------------------------------------------

  /** The XML elements the document opens and closes over several printf calls. */
  datatype Tag = XdmfElement | DomainElement | GeometryElement | DataItemElement | GridElement | AttributeElement

  datatype Effect = Opens(tag: Tag) | Closes(tag: Tag) | Neutral

  /**
   * What the text of a chunk does to the open elements: a start tag, an end
   * tag, or neither (declarations, self-closing elements, attributes and
   * character data). The table is read off Render's text chunk by chunk, not
   * computed from it: a start tag whose attributes continue in the next
   * chunk (GeometryName, CoordinateItem, ValuesItem) counts where it begins,
   * and the nesting lemmas below are about the element structure as this
   * table records it.
   */
  function EffectOf(c: Chunk): Effect
  {
    match c
    case XdmfOpen => Opens(XdmfElement)
    case DomainOpen => Opens(DomainElement)
    case GeometryName(_) => Opens(GeometryElement)
    case CoordinateItem(_) => Opens(DataItemElement)
    case CoordinateClose => Closes(DataItemElement)
    case GeometryClose => Closes(GeometryElement)
    case CollectionOpen => Opens(GridElement)
    case GridOpen(_) => Opens(GridElement)
    case AttributeOpen(_) => Opens(AttributeElement)
    case ValuesItem(_) => Opens(DataItemElement)
    case ValuesClose => Closes(DataItemElement)
    case AttributeClose => Closes(AttributeElement)
    case GridClose => Closes(GridElement)
    case CollectionClose => Closes(GridElement)
    case DomainClose => Closes(DomainElement)
    case XdmfClose => Closes(XdmfElement)
    case _ => Neutral
  }

  /** The elements open at some point of the text, innermost first. */
  datatype Stack = Empty | Push(top: Tag, below: Stack)

  /** The open elements after effect e; None when e ends an element other than the innermost open one. */
  function Apply(open: Stack, e: Effect): Option<Stack>
  {
    match e
    case Neutral => Some(open)
    case Opens(t) => Some(Push(t, open))
    case Closes(t) => if open.Push? && open.top == t then Some(open.below) else None
  }

  /** The open elements after the effects es[i..], starting with open. */
  function NestFrom(open: Stack, es: seq<Effect>, i: nat): Option<Stack>
    requires i <= |es|
    decreases |es| - i
  {
    if i == |es| then Some(open)
    else match Apply(open, es[i])
      case None => None
      case Some(o) => NestFrom(o, es, i + 1)
  }

  /** The effects of the chunks cs, in order. */
  function Effects(cs: seq<Chunk>): (es: seq<Effect>)
    ensures |es| == |cs| && forall i | 0 <= i < |cs| :: es[i] == EffectOf(cs[i])
  {
    seq(|cs|, i requires 0 <= i < |cs| => EffectOf(cs[i]))
  }

  /** The open elements after printing all of cs. */
  function Nest(open: Stack, cs: seq<Chunk>): Option<Stack>
  {
    NestFrom(open, Effects(cs), 0)
  }

  /** The effects of b behave the same after a. */
  lemma {:induction false} NestShift(open: Stack, a: seq<Effect>, b: seq<Effect>, j: nat)
    requires j <= |b|
    ensures NestFrom(open, a + b, |a| + j) == NestFrom(open, b, j)
    decreases |b| - j
  {
    if j < |b| {
      assert (a + b)[|a| + j] == b[j];
      match Apply(open, b[j])
      case None =>
      case Some(o) => NestShift(o, a, b, j + 1);
    }
  }

  /** Nesting through a + b is nesting through a, then through b. */
  lemma {:induction false} NestConcat(open: Stack, a: seq<Effect>, b: seq<Effect>, i: nat)
    requires i <= |a|
    ensures NestFrom(open, a + b, i) == (match NestFrom(open, a, i) case None => None case Some(o) => NestFrom(o, b, 0))
    decreases |a| - i
  {
    if i == |a| {
      NestShift(open, a, b, 0);
    } else {
      assert (a + b)[i] == a[i];
      match Apply(open, a[i])
      case None =>
      case Some(o) => NestConcat(o, a, b, i + 1);
    }
  }

  /** Nesting from open through a + b when a leaves mid open and b then leaves last open. */
  lemma NestThrough(open: Stack, a: seq<Chunk>, mid: Stack, b: seq<Chunk>, last: Stack)
    requires Nest(open, a) == Some(mid) && Nest(mid, b) == Some(last)
    ensures Nest(open, a + b) == Some(last)
  {
    assert Effects(a + b) == Effects(a) + Effects(b);
    NestConcat(open, Effects(a), Effects(b), 0);
  }

  /** The entity declarations open nothing. */
  lemma {:induction false} EntitiesNest(open: Stack, n: seq<int>, k: nat)
    requires k <= |n|
    ensures Nest(open, Entities(n, k)) == Some(open)
  {
    if k > 0 {
      EntitiesNest(open, n, k - 1);
      var e := [Entity(k - 1, n[k - 1])];
      assert Effects(e) == [Neutral];
      assert NestFrom(open, [Neutral], 0) == Some(open);
      NestThrough(open, Entities(n, k - 1), open, e, open);
    }
  }

  /** Each coordinate DataItem is closed after its path. */
  lemma {:induction false} CoordinatesNest(open: Stack, name: string, k: nat)
    ensures Nest(open, Coordinates(name, k)) == Some(open)
  {
    if k > 0 {
      CoordinatesNest(open, name, k - 1);
      var c := Coordinate(name, k - 1);
      var es := [Opens(DataItemElement), Neutral, Neutral, Closes(DataItemElement)];
      assert Effects(c) == es;
      var od := Push(DataItemElement, open);
      assert NestFrom(od, es, 2) == Some(open);
      NestThrough(open, Coordinates(name, k - 1), open, c, open);
    }
  }

  /** A uniform grid closes everything it opens. */
  lemma SnapshotNest(open: Stack, name: string, dim: int, t: int)
    ensures Nest(open, Snapshot(name, dim, t)) == Some(open)
  {
    var es := [Opens(GridElement), Neutral, Neutral, Neutral, Opens(AttributeElement), Opens(DataItemElement),
               Neutral, Neutral, Closes(DataItemElement), Closes(AttributeElement), Closes(GridElement)];
    assert Effects(Snapshot(name, dim, t)) == es;
    var g := Push(GridElement, open);
    var ga := Push(AttributeElement, g);
    var gad := Push(DataItemElement, ga);
    assert NestFrom(g, es, 10) == Some(open);
    assert NestFrom(ga, es, 9) == Some(open);
    assert NestFrom(gad, es, 7) == Some(open);
    assert NestFrom(ga, es, 5) == Some(open);
    assert NestFrom(g, es, 3) == Some(open);
    assert NestFrom(g, es, 1) == Some(open);
  }

  /** So do all the uniform grids. */
  lemma {:induction false} SnapshotsNest(open: Stack, name: string, dim: int, ts: seq<int>)
    ensures Nest(open, Snapshots(name, dim, ts)) == Some(open)
    decreases |ts|
  {
    if ts != [] {
      SnapshotNest(open, name, dim, ts[0]);
      SnapshotsNest(open, name, dim, ts[1..]);
      NestThrough(open, Snapshot(name, dim, ts[0]), open, Snapshots(name, dim, ts[1..]), open);
    }
  }

  /** The Xdmf block, the domain and the temporal collection of a document. */
  const OpenAfterHead: Stack := Push(GridElement, Push(DomainElement, Push(XdmfElement, Empty)))

  /** The head leaves the Xdmf block, the domain and the temporal collection open. */
  lemma HeadNest(name: string, dim: nat, n: seq<int>)
    requires dim <= |n|
    ensures Nest(Empty, Head(name, dim, n)) == Some(OpenAfterHead)
  {
    var x := Push(XdmfElement, Empty);
    var xd := Push(DomainElement, x);
    var xdg := Push(GeometryElement, xd);
    var opening := [Declaration, DocTypeOpen, CaseDirEntity];
    EntitiesNest(Empty, n, dim);
    assert Effects(opening) == [Neutral, Neutral, Neutral];
    NestThrough(Empty, opening, Empty, Entities(n, dim), Empty);
    assert Effects([DocTypeClose]) == [Neutral];
    NestThrough(Empty, opening + Entities(n, dim), Empty, [DocTypeClose], Empty);
    var d := Domain(name, dim);
    var ed := [Opens(XdmfElement), Neutral, Opens(DomainElement), Neutral, Neutral, Neutral, Opens(GeometryElement), Neutral];
    assert Effects(d) == ed;
    assert NestFrom(xd, ed, 5) == Some(xdg);
    assert NestFrom(x, ed, 2) == Some(xdg);
    NestThrough(Empty, Prologue(n, dim), Empty, d, xdg);
    CoordinatesNest(xdg, name, dim);
    assert Effects([GeometryClose, CollectionOpen]) == [Closes(GeometryElement), Opens(GridElement)];
    NestThrough(xdg, Coordinates(name, dim), xdg, [GeometryClose, CollectionOpen], OpenAfterHead);
    NestThrough(Empty, Prologue(n, dim) + d, xdg, Geometry(name, dim), OpenAfterHead);
  }

  /** The document is well nested: every element it opens it closes, in reverse order. */
  lemma DocumentNest(name: string, dim: nat, n: seq<int>, bg: int, ed: int, step: int)
    requires dim <= |n|
    requires step > 0 || bg > ed
    ensures Nest(Empty, Document(name, dim, n, bg, ed, step)) == Some(Empty)
  {
    var h := Head(name, dim, n);
    var s := Snapshots(name, dim, Times(bg, ed, step));
    HeadNest(name, dim, n);
    SnapshotsNest(OpenAfterHead, name, dim, Times(bg, ed, step));
    NestThrough(Empty, h, OpenAfterHead, s, OpenAfterHead);
    assert Effects(Tail) == [Closes(GridElement), Closes(DomainElement), Closes(XdmfElement)];
    NestThrough(Empty, h + s, OpenAfterHead, Tail, Empty);
  }
}
