/**
 * What the assembled gradient holds: when createGradient succeeds, the row
 * of every owned velocity point holds exactly its two kernel coefficients at
 * the pressure points of its stencil, no other row holds anything, and no
 * row needs more than the two preallocated slots.
 */
module GradientProperties {
  import opened Wrappers
  import opened SparseMatrix
  import opened Gradient

  /**
   * The row a point's two writes leave behind on an empty row. With two
   * distinct columns both coefficients are stored; if both neighbours packed
   * to the same column, INSERT_VALUES keeps only the second.
   */
  function RowOf(vals: seq<real>, c0: int, c1: int): map<int, real>
    requires |vals| == 2
  {
    if c0 != c1 then map[c0 := vals[0], c1 := vals[1]] else map[c1 := vals[1]]
  }

  /** Every MatSetValue of the point would find its indices in range. */
  predicate PointOk(mesh: Mesh, v: Visit)
    requires v.field < 3
  {
    && Row(mesh, v).Some? && 0 <= Row(mesh, v).value < mesh.uN
    && Column(mesh, v, 0).Some? && 0 <= Column(mesh, v, 0).value < mesh.pN
    && Column(mesh, v, 1).Some? && 0 <= Column(mesh, v, 1).value < mesh.pN
  }

  /** No two iterations of vs write the same (packed) row. */
  predicate DistinctRows(mesh: Mesh, vs: seq<Visit>)
  {
    forall a, b | 0 <= a < b < |vs| && vs[a].field < 3 && vs[b].field < 3 && Row(mesh, vs[a]).Some? ::
      Row(mesh, vs[a]) != Row(mesh, vs[b])
  }

  /** getPackedGlobalIndex gives distinct owned velocity points distinct rows. */
  ghost predicate RowsInjective(mesh: Mesh)
    requires WellFormed(mesh)
  {
    forall v, w | Visited(mesh, v) && Visited(mesh, w) && v != w && Row(mesh, v).Some? ::
      Row(mesh, v) != Row(mesh, w)
  }

  /** Every owned velocity point packs to in-range row and column indices. */
  ghost predicate AllPacked(mesh: Mesh)
    requires WellFormed(mesh)
  {
    forall v | Visited(mesh, v) :: PointOk(mesh, v)
  }

  /** Two nonzero writes to an empty row build RowOf. */
  lemma RowOfWrites(vals: seq<real>, c0: int, c1: int)
    requires |vals| == 2 && vals[0] != 0.0 && vals[1] != 0.0
    ensures WriteRow(WriteRow(map[], c0, vals[0], true), c1, vals[1], true) == RowOf(vals, c0, c1)
    ensures |RowOf(vals, c0, c1)| <= Prealloc
    ensures c0 != c1 ==> |RowOf(vals, c0, c1)| == 2
  {
    if c0 != c1 {
      assert RowOf(vals, c0, c1).Keys == {c0, c1};
    } else {
      assert RowOf(vals, c0, c1).Keys == {c1};
    }
  }

  /**
   * One loop-body pass succeeds exactly when its three indices pack and are
   * in range; the kernel's coefficients are never zero, so ignore-zero never
   * drops a write.
   */
  lemma StepOk(mesh: Mesh, normalize: bool, m: Entries, v: Visit)
    requires StepDefined(mesh, normalize, v)
    ensures Step(mesh, normalize, m, v).Success? <==> PointOk(mesh, v)
  {
    var vals := Values(mesh, normalize, v);
    assert vals[0] != 0.0;
    if Row(mesh, v).Some? {
      var r := Row(mesh, v).value;
      match WriteColumns(mesh, normalize, m, v, r, 1)
      case Failure(e) =>
        assert WriteColumns(mesh, normalize, m, v, r, 0) == Success(m);
      case Success(m1) =>
        assert WriteColumns(mesh, normalize, m, v, r, 0) == Success(m);
    }
  }

  /** A successful pass writes only its own row, and there both columns. */
  lemma StepRows(mesh: Mesh, normalize: bool, m: Entries, v: Visit, m': Entries)
    requires StepDefined(mesh, normalize, v)
    requires Step(mesh, normalize, m, v) == Success(m')
    ensures PointOk(mesh, v)
    ensures RowEntries(m', Row(mesh, v).value) ==
      WriteRow(WriteRow(RowEntries(m, Row(mesh, v).value), Column(mesh, v, 0).value, Values(mesh, normalize, v)[0], true),
               Column(mesh, v, 1).value, Values(mesh, normalize, v)[1], true)
    ensures forall r | r != Row(mesh, v).value :: RowEntries(m', r) == RowEntries(m, r)
    ensures forall key | key in m' :: key in m || key.0 == Row(mesh, v).value
  {
    StepOk(mesh, normalize, m, v);
    var r := Row(mesh, v).value;
    var c0, c1 := Column(mesh, v, 0).value, Column(mesh, v, 1).value;
    var vals := Values(mesh, normalize, v);
    assert WriteColumns(mesh, normalize, m, v, r, 0) == Success(m);
    var m1 := WriteColumns(mesh, normalize, m, v, r, 1).value;
    assert Insert(m, mesh.uN, mesh.pN, true, r, c0, vals[0]) == Success(m1);
    InsertRows(m, mesh.uN, mesh.pN, true, r, c0, vals[0], m1);
    assert Insert(m1, mesh.uN, mesh.pN, true, r, c1, vals[1]) == Success(m');
    InsertRows(m1, mesh.uN, mesh.pN, true, r, c1, vals[1], m');
  }

  /** A run succeeds exactly when every one of its points packs in range. */
  lemma {:induction false} RunOk(mesh: Mesh, normalize: bool, m: Entries, vs: seq<Visit>)
    requires forall v | v in vs :: StepDefined(mesh, normalize, v)
    ensures Run(mesh, normalize, m, vs).Success? <==> forall v | v in vs :: PointOk(mesh, v)
    decreases |vs|
  {
    if vs != [] {
      StepOk(mesh, normalize, m, vs[0]);
      assert forall v | v in vs :: v == vs[0] || v in vs[1..];
      match Step(mesh, normalize, m, vs[0])
      case Failure(e) =>
      case Success(m1) => RunOk(mesh, normalize, m1, vs[1..]);
    }
  }

  /** Dropping the first iteration keeps rows distinct, and none of the rest writes its row. */
  lemma DistinctTail(mesh: Mesh, vs: seq<Visit>)
    requires DistinctRows(mesh, vs) && |vs| > 0
    requires forall v | v in vs :: v.field < 3
    requires Row(mesh, vs[0]).Some?
    ensures DistinctRows(mesh, vs[1..])
    ensures forall v | v in vs[1..] :: Row(mesh, v) != Row(mesh, vs[0])
  {
    var rest := vs[1..];
    forall v | v in rest ensures Row(mesh, v) != Row(mesh, vs[0]) {
      var b :| 0 <= b < |rest| && rest[b] == v;
      assert vs[b + 1] == v;
    }
    forall a, b | 0 <= a < b < |rest| && rest[a].field < 3 && rest[b].field < 3 && Row(mesh, rest[a]).Some?
      ensures Row(mesh, rest[a]) != Row(mesh, rest[b])
    {
      assert rest[a] == vs[a + 1] && rest[b] == vs[b + 1];
    }
  }

  /** A successful run writes only the rows of its iterations. */
  lemma {:induction false} RunFrame(mesh: Mesh, normalize: bool, m0: Entries, vs: seq<Visit>, m: Entries)
    requires forall v | v in vs :: StepDefined(mesh, normalize, v)
    requires Run(mesh, normalize, m0, vs) == Success(m)
    ensures forall r | (forall v | v in vs :: Row(mesh, v) != Some(r)) :: RowEntries(m, r) == RowEntries(m0, r)
    ensures forall key | key in m :: key in m0 || exists v | v in vs :: Row(mesh, v) == Some(key.0)
    decreases |vs|
  {
    if vs == [] {
      return;
    }
    var w, rest := vs[0], vs[1..];
    assert forall v | v in rest :: v in vs;
    var m1 := Step(mesh, normalize, m0, w).value;
    StepRows(mesh, normalize, m0, w, m1);
    RunFrame(mesh, normalize, m1, rest, m);
    forall r' | forall v | v in vs :: Row(mesh, v) != Some(r')
      ensures RowEntries(m, r') == RowEntries(m0, r')
    {
      assert w in vs;
      assert RowEntries(m, r') == RowEntries(m1, r');
    }
    forall key | key in m ensures key in m0 || exists v | v in vs :: Row(mesh, v) == Some(key.0) {
      if key !in m1 {
        var v :| v in rest && Row(mesh, v) == Some(key.0);
        assert v in vs;
      } else if key !in m0 {
        assert Row(mesh, w) == Some(key.0) && w in vs;
      }
    }
  }

  /**
   * A successful run with distinct rows, on rows that start out empty, leaves
   * each visited row as RowOf its coefficients and columns.
   */
  lemma {:induction false} RunRows(mesh: Mesh, normalize: bool, m0: Entries, vs: seq<Visit>, m: Entries)
    requires forall v | v in vs :: StepDefined(mesh, normalize, v)
    requires Run(mesh, normalize, m0, vs) == Success(m)
    requires DistinctRows(mesh, vs)
    requires forall v | v in vs && v.field < 3 && Row(mesh, v).Some? :: RowEntries(m0, Row(mesh, v).value) == map[]
    ensures forall v | v in vs ::
      && PointOk(mesh, v)
      && RowEntries(m, Row(mesh, v).value) ==
         RowOf(Values(mesh, normalize, v), Column(mesh, v, 0).value, Column(mesh, v, 1).value)
    decreases |vs|
  {
    if vs == [] {
      return;
    }
    var w, rest := vs[0], vs[1..];
    assert forall v | v in vs :: v == w || v in rest;
    var m1 := Step(mesh, normalize, m0, w).value;
    StepRows(mesh, normalize, m0, w, m1);
    var r := Row(mesh, w).value;
    DistinctTail(mesh, vs);
    RunRows(mesh, normalize, m1, rest, m);
    RunFrame(mesh, normalize, m1, rest, m);
    assert RowEntries(m, r) == RowEntries(m1, r);
    assert RowEntries(m0, r) == map[];
    RowOfWrites(Values(mesh, normalize, w), Column(mesh, w, 0).value, Column(mesh, w, 1).value);
  }

  /** Injective packing makes the rows of the whole loop nest distinct. */
  lemma VisitsDistinctRows(mesh: Mesh)
    requires WellFormed(mesh) && RowsInjective(mesh)
    ensures forall v | v in Visits(mesh) :: v.field < 3
    ensures DistinctRows(mesh, Visits(mesh))
  {
    var vs := Visits(mesh);
    VisitsExactly(mesh);
    forall a, b | 0 <= a < b < |vs| && vs[a].field < 3 && vs[b].field < 3 && Row(mesh, vs[a]).Some?
      ensures Row(mesh, vs[a]) != Row(mesh, vs[b])
    {
      assert vs[a] in vs && vs[b] in vs;
    }
  }

  /**
   * When createGradient succeeds and packing is injective on the owned
   * velocity points, the row of every owned velocity point holds exactly its
   * two coefficients at the packed indices of its two pressure neighbours.
   */
  lemma GradientRows(mesh: Mesh, normalize: bool, m: Entries)
    requires WellFormed(mesh) && (!normalize ==> SpacingValid(mesh))
    requires RowsInjective(mesh)
    requires GradientEntries(mesh, normalize) == Success(m)
    ensures forall v | Visited(mesh, v) ::
      && PointOk(mesh, v)
      && RowEntries(m, Row(mesh, v).value) ==
         RowOf(Values(mesh, normalize, v), Column(mesh, v, 0).value, Column(mesh, v, 1).value)
  {
    VisitsExactly(mesh);
    VisitsDefined(mesh, normalize);
    VisitsDistinctRows(mesh);
    RunRows(mesh, normalize, map[], Visits(mesh), m);
  }

  /**
   * When createGradient succeeds, only rows of owned velocity points hold
   * entries: every other row of G is empty.
   */
  lemma GradientFrame(mesh: Mesh, normalize: bool, m: Entries)
    requires WellFormed(mesh) && (!normalize ==> SpacingValid(mesh))
    requires GradientEntries(mesh, normalize) == Success(m)
    ensures forall r | (forall v | Visited(mesh, v) :: Row(mesh, v) != Some(r)) :: RowEntries(m, r) == map[]
    ensures forall key | key in m :: exists v | Visited(mesh, v) :: Row(mesh, v) == Some(key.0)
  {
    VisitsExactly(mesh);
    VisitsDefined(mesh, normalize);
    RunFrame(mesh, normalize, map[], Visits(mesh), m);
    forall r | forall v | Visited(mesh, v) :: Row(mesh, v) != Some(r)
      ensures RowEntries(m, r) == map[]
    {
      assert RowEntries(m, r) == RowEntries(map[], r);
    }
  }

  /** No row of the assembled gradient needs more than the two preallocated entries. */
  lemma GradientPrealloc(mesh: Mesh, normalize: bool, m: Entries)
    requires WellFormed(mesh) && (!normalize ==> SpacingValid(mesh))
    requires RowsInjective(mesh)
    requires GradientEntries(mesh, normalize) == Success(m)
    ensures forall r :: |RowEntries(m, r)| <= Prealloc
  {
    forall r ensures |RowEntries(m, r)| <= Prealloc {
      RowPrealloc(mesh, normalize, m, r);
    }
  }

  lemma RowPrealloc(mesh: Mesh, normalize: bool, m: Entries, r: int)
    requires WellFormed(mesh) && (!normalize ==> SpacingValid(mesh))
    requires RowsInjective(mesh)
    requires GradientEntries(mesh, normalize) == Success(m)
    ensures |RowEntries(m, r)| <= Prealloc
  {
    if v :| Visited(mesh, v) && Row(mesh, v) == Some(r) {
      GradientRows(mesh, normalize, m);
      var vals := Values(mesh, normalize, v);
      assert RowEntries(m, r) == RowOf(vals, Column(mesh, v, 0).value, Column(mesh, v, 1).value);
      RowOfWrites(vals, Column(mesh, v, 0).value, Column(mesh, v, 1).value);
    } else {
      GradientFrame(mesh, normalize, m);
      assert RowEntries(m, r) == map[];
    }
  }

  /**
   * createGradient returns without a fault exactly when every owned velocity
   * point packs, together with both stencil neighbours, to indices inside
   * the matrix.
   */
  lemma GradientSucceeds(mesh: Mesh, normalize: bool)
    requires WellFormed(mesh) && (!normalize ==> SpacingValid(mesh))
    ensures GradientEntries(mesh, normalize).Success? <==> AllPacked(mesh)
  {
    VisitsExactly(mesh);
    VisitsDefined(mesh, normalize);
    RunOk(mesh, normalize, map[], Visits(mesh));
  }

  /**
   * The number of nonzeros MatSetValue leaves in the row of an owned
   * velocity point: two when its pressure neighbours pack to distinct
   * columns, and one (the second write replacing the first) otherwise.
   * The kernel's coefficients are never zero, so ignore-zero drops neither.
   */
  lemma RowNonzeros(mesh: Mesh, normalize: bool, m: Entries, v: Visit)
    requires WellFormed(mesh) && (!normalize ==> SpacingValid(mesh))
    requires RowsInjective(mesh)
    requires GradientEntries(mesh, normalize) == Success(m)
    requires Visited(mesh, v)
    ensures PointOk(mesh, v)
    ensures RowEntries(m, Row(mesh, v).value).Keys == {Column(mesh, v, 0).value, Column(mesh, v, 1).value}
    ensures |RowEntries(m, Row(mesh, v).value)| == if Column(mesh, v, 0) != Column(mesh, v, 1) then 2 else 1
  {
    GradientRows(mesh, normalize, m);
    var vals := Values(mesh, normalize, v);
    var c0, c1 := Column(mesh, v, 0).value, Column(mesh, v, 1).value;
    assert RowEntries(m, Row(mesh, v).value) == RowOf(vals, c0, c1);
    RowOfWrites(vals, c0, c1);
    if c0 == c1 {
      assert RowOf(vals, c0, c1).Keys == {c1};
    }
  }

  /**
   * The row of an owned velocity point applied to a pressure field that is
   * p0 at its first neighbour and p1 at its second is the difference
   * p1 - p0 times the kernel's second coefficient (over the cell width when
   * not normalized); in particular a constant pressure field maps to zero.
   */
  lemma RowAnnihilatesConstants(mesh: Mesh, normalize: bool, m: Entries, v: Visit, p0: real, p1: real)
    requires WellFormed(mesh) && (!normalize ==> SpacingValid(mesh))
    requires RowsInjective(mesh)
    requires GradientEntries(mesh, normalize) == Success(m)
    requires Visited(mesh, v) && Column(mesh, v, 0) != Column(mesh, v, 1)
    ensures PointOk(mesh, v)
    ensures var row := RowEntries(m, Row(mesh, v).value);
      var c0, c1 := Column(mesh, v, 0).value, Column(mesh, v, 1).value;
      && c0 in row && c1 in row
      && row[c0] * p0 + row[c1] * p1 == (p1 - p0) * Values(mesh, normalize, v)[1]
      && (p0 == p1 ==> row[c0] * p0 + row[c1] * p1 == 0.0)
  {
    GradientRows(mesh, normalize, m);
    var vals := Values(mesh, normalize, v);
    var c0, c1 := Column(mesh, v, 0).value, Column(mesh, v, 1).value;
    var row := RowEntries(m, Row(mesh, v).value);
    assert row == RowOf(vals, c0, c1);
    assert row[c0] == vals[0] == -vals[1] && row[c1] == vals[1];
    calc {
      row[c0] * p0 + row[c1] * p1;
      -vals[1] * p0 + vals[1] * p1;
      (p1 - p0) * vals[1];
    }
  }
}
