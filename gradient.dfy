/**
 * createGradient: the pressure-gradient operator of a staggered grid,
 * assembled as one row per owned velocity point and two columns per row,
 * taken from the pressure grid.
 */
module Gradient {
  import opened Wrappers
  import opened SparseMatrix

  /** PETSc's MatStencil, laid out {k, j, i, c}. */
  datatype Stencil = Stencil(k: int, j: int, i: int, c: int)

  /** Field number of the pressure grid (the fields are 0 u, 1 v, 2 w, 3 p). */
  const Pressure: nat := 3

  /** Index of the point (i, j, k) along direction d (0 = x, 1 = y, 2 = z). */
  function Along(d: nat, i: int, j: int, k: int): int
    requires d < 3
  {
    if d == 0 then i else if d == 1 then j else k
  }

  // ---------------------------------------------------------------------
  // Stencils and kernels
  // ---------------------------------------------------------------------

  /**
   * getNeighbor[d]: the owning point itself, then the point one step further
   * along d; the other two indices and the component stay as they are.
   */
  function GetNeighbor(d: nat, i: int, j: int, k: int): (loc: seq<Stencil>)
    requires d < 3
    ensures |loc| == 2
    ensures loc[0] == Stencil(k, j, i, 0)
    ensures loc[1].c == 0
    ensures forall e | 0 <= e < 3 ::
      Along(e, loc[1].i, loc[1].j, loc[1].k) == Along(e, i, j, k) + (if e == d then 1 else 0)
  {
    if d == 0 then [Stencil(k, j, i, 0), Stencil(k, j, i + 1, 0)]
    else if d == 1 then [Stencil(k, j, i, 0), Stencil(k, j + 1, i, 0)]
    else [Stencil(k, j, i, 0), Stencil(k + 1, j, i, 0)]
  }

  /** dL[d][d][idx] exists and is a nonzero cell width. */
  predicate SpacingAt(dL: seq<seq<seq<real>>>, d: nat, idx: int)
  {
    d < |dL| && d < |dL[d]| && 0 <= idx < |dL[d][d]| && dL[d][d][idx] != 0.0
  }

  /**
   * kernel[d]: the two coefficients matching getNeighbor[d]. Normalized, they
   * are -1 and 1; otherwise they are -1/h and 1/h with h the width of the
   * cell of the owning point's field d along d, at the owning index.
   */
  function Kernel(normalize: bool, dL: seq<seq<seq<real>>>, d: nat, i: int, j: int, k: int): (vals: seq<real>)
    requires d < 3
    requires !normalize ==> SpacingAt(dL, d, Along(d, i, j, k))
    ensures |vals| == 2 && vals[0] == -vals[1] && vals[1] != 0.0
    ensures normalize ==> vals == [-1.0, 1.0]
    ensures !normalize ==> vals[1] * dL[d][d][Along(d, i, j, k)] == 1.0
  {
    if normalize then [-1.0, 1.0]
    else
      var v := 1.0 / dL[d][d][Along(d, i, j, k)];
      [-v, v]
  }

  // ---------------------------------------------------------------------
  // The mesh, as the assembly sees it
  // ---------------------------------------------------------------------

  /**
   * What createGradient reads from the mesh: the dimension, the owned box
   * [bg[f][d], ed[f][d]) of every field f, the cell widths dL, the global
   * numbers of velocity and pressure unknowns, and getPackedGlobalIndex,
   * which either yields the packed global index of a field's point or fails.
   */
  datatype Mesh = Mesh(
    dim: nat,
    bg: seq<seq<int>>,
    ed: seq<seq<int>>,
    dL: seq<seq<seq<real>>>,
    uN: nat,
    pN: nat,
    pack: (nat, Stencil) -> Option<int>)

  /** The box bounds exist for every velocity field that is visited. */
  predicate WellFormed(mesh: Mesh)
  {
    && mesh.dim <= 3
    && |mesh.bg| >= mesh.dim && |mesh.ed| >= mesh.dim
    && forall f | 0 <= f < mesh.dim :: |mesh.bg[f]| == 3 && |mesh.ed[f]| == 3
  }

  /** Every owned index of field f along direction f has a nonzero cell width. */
  predicate SpacingValid(mesh: Mesh)
    requires WellFormed(mesh)
  {
    forall f, idx | 0 <= f < mesh.dim && mesh.bg[f][f] <= idx < mesh.ed[f][f] ::
      SpacingAt(mesh.dL, f, idx)
  }

  /** getPackedGlobalIndex(f, s, &id). */
  function Pack(mesh: Mesh, f: nat, s: Stencil): Option<int>
  {
    mesh.pack(f, s)
  }

  // ---------------------------------------------------------------------
  // The order in which the four nested loops visit points
  // ---------------------------------------------------------------------

  /** One iteration of the loop body: field `field` at (i, j, k). */
  datatype Visit = Visit(field: nat, i: int, j: int, k: int)

  /** v lies in the owned box of a velocity field of the mesh. */
  predicate Visited(mesh: Mesh, v: Visit)
    requires WellFormed(mesh)
  {
    && v.field < mesh.dim
    && mesh.bg[v.field][0] <= v.i < mesh.ed[v.field][0]
    && mesh.bg[v.field][1] <= v.j < mesh.ed[v.field][1]
    && mesh.bg[v.field][2] <= v.k < mesh.ed[v.field][2]
  }

  /** The remaining iterations of the i loop, from i to hi. */
  function LineFrom(f: nat, k: int, j: int, i: int, hi: int): seq<Visit>
    decreases hi - i
  {
    if i >= hi then [] else [Visit(f, i, j, k)] + LineFrom(f, k, j, i + 1, hi)
  }

  /** The remaining iterations of the j loop. */
  function PlaneFrom(f: nat, k: int, j: int, jhi: int, ilo: int, ihi: int): seq<Visit>
    decreases jhi - j
  {
    if j >= jhi then [] else LineFrom(f, k, j, ilo, ihi) + PlaneFrom(f, k, j + 1, jhi, ilo, ihi)
  }

  /** The remaining iterations of the k loop. */
  function BoxFrom(f: nat, k: int, khi: int, jlo: int, jhi: int, ilo: int, ihi: int): seq<Visit>
    decreases khi - k
  {
    if k >= khi then [] else PlaneFrom(f, k, jlo, jhi, ilo, ihi) + BoxFrom(f, k + 1, khi, jlo, jhi, ilo, ihi)
  }

  /** All iterations for field f. */
  function FieldBox(mesh: Mesh, f: nat): seq<Visit>
    requires WellFormed(mesh) && f < mesh.dim
  {
    BoxFrom(f, mesh.bg[f][2], mesh.ed[f][2], mesh.bg[f][1], mesh.ed[f][1], mesh.bg[f][0], mesh.ed[f][0])
  }

  /** The remaining iterations of the field loop. */
  function FieldsFrom(mesh: Mesh, f: nat): seq<Visit>
    requires WellFormed(mesh)
    decreases mesh.dim - f
  {
    if f >= mesh.dim then [] else FieldBox(mesh, f) + FieldsFrom(mesh, f + 1)
  }

  /** Every iteration of createGradient's loop nest, in order. */
  function Visits(mesh: Mesh): seq<Visit>
    requires WellFormed(mesh)
  {
    FieldsFrom(mesh, 0)
  }

  predicate NoDup<T(==)>(s: seq<T>)
  {
    forall a, b | 0 <= a < b < |s| :: s[a] != s[b]
  }

  lemma {:induction false} NoDupConcat<T>(s: seq<T>, t: seq<T>)
    requires NoDup(s) && NoDup(t)
    requires forall x | x in s :: x !in t
    ensures NoDup(s + t)
  {
    forall a, b | 0 <= a < b < |s + t| ensures (s + t)[a] != (s + t)[b] {
      if b < |s| {
      } else if a >= |s| {
        assert (s + t)[a] == t[a - |s|] && (s + t)[b] == t[b - |s|];
      } else {
        assert (s + t)[a] == s[a] && (s + t)[b] == t[b - |s|];
        assert t[b - |s|] in t;
      }
    }
  }

  lemma {:induction false} LineMembers(f: nat, k: int, j: int, i: int, hi: int)
    ensures forall v :: v in LineFrom(f, k, j, i, hi) <==> v.field == f && v.k == k && v.j == j && i <= v.i < hi
    ensures NoDup(LineFrom(f, k, j, i, hi))
    decreases hi - i
  {
    if i < hi {
      LineMembers(f, k, j, i + 1, hi);
      NoDupConcat([Visit(f, i, j, k)], LineFrom(f, k, j, i + 1, hi));
    }
  }

  lemma {:induction false} PlaneMembers(f: nat, k: int, j: int, jhi: int, ilo: int, ihi: int)
    ensures forall v :: v in PlaneFrom(f, k, j, jhi, ilo, ihi) <==>
      v.field == f && v.k == k && j <= v.j < jhi && ilo <= v.i < ihi
    ensures NoDup(PlaneFrom(f, k, j, jhi, ilo, ihi))
    decreases jhi - j
  {
    if j < jhi {
      LineMembers(f, k, j, ilo, ihi);
      PlaneMembers(f, k, j + 1, jhi, ilo, ihi);
      NoDupConcat(LineFrom(f, k, j, ilo, ihi), PlaneFrom(f, k, j + 1, jhi, ilo, ihi));
    }
  }

  lemma {:induction false} BoxMembers(f: nat, k: int, khi: int, jlo: int, jhi: int, ilo: int, ihi: int)
    ensures forall v :: v in BoxFrom(f, k, khi, jlo, jhi, ilo, ihi) <==>
      v.field == f && k <= v.k < khi && jlo <= v.j < jhi && ilo <= v.i < ihi
    ensures NoDup(BoxFrom(f, k, khi, jlo, jhi, ilo, ihi))
    decreases khi - k
  {
    if k < khi {
      PlaneMembers(f, k, jlo, jhi, ilo, ihi);
      BoxMembers(f, k + 1, khi, jlo, jhi, ilo, ihi);
      NoDupConcat(PlaneFrom(f, k, jlo, jhi, ilo, ihi), BoxFrom(f, k + 1, khi, jlo, jhi, ilo, ihi));
    }
  }

  lemma {:induction false} FieldsMembers(mesh: Mesh, f: nat)
    requires WellFormed(mesh)
    ensures forall v :: v in FieldsFrom(mesh, f) <==> f <= v.field && Visited(mesh, v)
    ensures NoDup(FieldsFrom(mesh, f))
    decreases mesh.dim - f
  {
    if f < mesh.dim {
      BoxMembers(f, mesh.bg[f][2], mesh.ed[f][2], mesh.bg[f][1], mesh.ed[f][1], mesh.bg[f][0], mesh.ed[f][0]);
      FieldsMembers(mesh, f + 1);
      NoDupConcat(FieldBox(mesh, f), FieldsFrom(mesh, f + 1));
    }
  }

  /**
   * The loop nest visits exactly the points of the velocity fields' owned
   * boxes, each once; in two dimensions field 2 (w) is never visited.
   */
  lemma VisitsExactly(mesh: Mesh)
    requires WellFormed(mesh)
    ensures forall v :: v in Visits(mesh) <==> Visited(mesh, v)
    ensures NoDup(Visits(mesh))
    ensures mesh.dim == 2 ==> forall v | v in Visits(mesh) :: v.field != 2
  {
    FieldsMembers(mesh, 0);
  }

  // ---------------------------------------------------------------------
  // What one iteration writes, and the whole assembly as a function
  // ---------------------------------------------------------------------

  /** The loop body can evaluate its stencil and kernel at v. */
  predicate StepDefined(mesh: Mesh, normalize: bool, v: Visit)
  {
    v.field < 3 && (!normalize ==> SpacingAt(mesh.dL, v.field, Along(v.field, v.i, v.j, v.k)))
  }

  lemma VisitsDefined(mesh: Mesh, normalize: bool)
    requires WellFormed(mesh) && (!normalize ==> SpacingValid(mesh))
    ensures forall v | v in Visits(mesh) :: StepDefined(mesh, normalize, v)
  {
    VisitsExactly(mesh);
  }

  /** rId: the packed index of the owning point in its own field. */
  function Row(mesh: Mesh, v: Visit): Option<int>
    requires v.field < 3
  {
    Pack(mesh, v.field, GetNeighbor(v.field, v.i, v.j, v.k)[0])
  }

  /** cId for neighbour n: the packed index of loc[n] in the pressure field. */
  function Column(mesh: Mesh, v: Visit, n: nat): Option<int>
    requires v.field < 3 && n < 2
  {
    Pack(mesh, Pressure, GetNeighbor(v.field, v.i, v.j, v.k)[n])
  }

  /** values: the kernel's coefficients at v. */
  function Values(mesh: Mesh, normalize: bool, v: Visit): seq<real>
    requires StepDefined(mesh, normalize, v)
  {
    Kernel(normalize, mesh.dL, v.field, v.i, v.j, v.k)
  }

  /** Why createGradient stopped early. */
  datatype Fault = PackFailed(field: nat, point: Stencil) | SetFailed(cause: SetError)

  /** The first n rounds of the column loop of iteration v, writing row r. */
  function WriteColumns(mesh: Mesh, normalize: bool, m: Entries, v: Visit, r: int, n: nat): Result<Entries, Fault>
    requires StepDefined(mesh, normalize, v) && n <= 2
  {
    if n == 0 then Success(m)
    else
      match WriteColumns(mesh, normalize, m, v, r, n - 1)
      case Failure(e) => Failure(e)
      case Success(m1) =>
        match Column(mesh, v, n - 1)
        case None => Failure(PackFailed(Pressure, GetNeighbor(v.field, v.i, v.j, v.k)[n - 1]))
        case Some(c) =>
          match Insert(m1, mesh.uN, mesh.pN, true, r, c, Values(mesh, normalize, v)[n - 1])
          case Failure(e) => Failure(SetFailed(e))
          case Success(m2) => Success(m2)
  }

  /** One iteration of the loop body on a matrix holding m. */
  function Step(mesh: Mesh, normalize: bool, m: Entries, v: Visit): Result<Entries, Fault>
    requires StepDefined(mesh, normalize, v)
  {
    match Row(mesh, v)
    case None => Failure(PackFailed(v.field, GetNeighbor(v.field, v.i, v.j, v.k)[0]))
    case Some(r) => WriteColumns(mesh, normalize, m, v, r, 2)
  }

  /** The iterations vs, in order, from a matrix holding m; the first fault ends the run. */
  function Run(mesh: Mesh, normalize: bool, m: Entries, vs: seq<Visit>): Result<Entries, Fault>
    requires forall v | v in vs :: StepDefined(mesh, normalize, v)
    decreases |vs|
  {
    if vs == [] then Success(m)
    else
      match Step(mesh, normalize, m, vs[0])
      case Failure(e) => Failure(e)
      case Success(m1) => Run(mesh, normalize, m1, vs[1..])
  }

  /** The entries createGradient leaves in G, or the fault it returns. */
  function GradientEntries(mesh: Mesh, normalize: bool): Result<Entries, Fault>
    requires WellFormed(mesh) && (!normalize ==> SpacingValid(mesh))
  {
    VisitsDefined(mesh, normalize);
    Run(mesh, normalize, map[], Visits(mesh))
  }

  /** Running a + b is running a, then b from where a stopped. */
  lemma {:induction false} RunConcat(mesh: Mesh, normalize: bool, m: Entries, a: seq<Visit>, b: seq<Visit>)
    requires forall v | v in a + b :: StepDefined(mesh, normalize, v)
    ensures Run(mesh, normalize, m, a + b) ==
      match Run(mesh, normalize, m, a)
      case Failure(e) => Failure(e)
      case Success(m1) => Run(mesh, normalize, m1, b)
    decreases |a|
  {
    if a == [] {
      assert a + b == b;
    } else {
      assert (a + b)[0] == a[0] && (a + b)[1..] == a[1..] + b;
      match Step(mesh, normalize, m, a[0])
      case Failure(e) =>
      case Success(m1) => RunConcat(mesh, normalize, m1, a[1..], b);
    }
  }

  // ---------------------------------------------------------------------
  // The same run, level by level, as the loop nest performs it
  // ---------------------------------------------------------------------

  /** The bounds a loop level may assume about (field, k, j). */
  predicate Owned(mesh: Mesh, normalize: bool, f: nat)
  {
    WellFormed(mesh) && (!normalize ==> SpacingValid(mesh)) && f < mesh.dim
  }

  lemma OwnedDefined(mesh: Mesh, normalize: bool, v: Visit)
    requires WellFormed(mesh) && (!normalize ==> SpacingValid(mesh)) && Visited(mesh, v)
    ensures StepDefined(mesh, normalize, v)
  {
  }

  /** The i loop from i on, for fixed field, k and j, starting from m. */
  function LineResult(mesh: Mesh, normalize: bool, m: Entries, f: nat, k: int, j: int, i: int): Result<Entries, Fault>
    requires Owned(mesh, normalize, f)
    requires mesh.bg[f][2] <= k < mesh.ed[f][2] && mesh.bg[f][1] <= j < mesh.ed[f][1] && mesh.bg[f][0] <= i
    decreases mesh.ed[f][0] - i
  {
    if i >= mesh.ed[f][0] then Success(m)
    else
      OwnedDefined(mesh, normalize, Visit(f, i, j, k));
      match Step(mesh, normalize, m, Visit(f, i, j, k))
      case Failure(e) => Failure(e)
      case Success(m1) => LineResult(mesh, normalize, m1, f, k, j, i + 1)
  }

  /** One round of the i loop, as AssembleLine takes it. */
  lemma LineUnfold(mesh: Mesh, normalize: bool, m: Entries, f: nat, k: int, j: int, i: int)
    requires Owned(mesh, normalize, f)
    requires mesh.bg[f][2] <= k < mesh.ed[f][2] && mesh.bg[f][1] <= j < mesh.ed[f][1] && mesh.bg[f][0] <= i < mesh.ed[f][0]
    ensures StepDefined(mesh, normalize, Visit(f, i, j, k))
    ensures Step(mesh, normalize, m, Visit(f, i, j, k)).Failure? ==>
      LineResult(mesh, normalize, m, f, k, j, i) == Failure(Step(mesh, normalize, m, Visit(f, i, j, k)).error)
    ensures Step(mesh, normalize, m, Visit(f, i, j, k)).Success? ==>
      LineResult(mesh, normalize, m, f, k, j, i) ==
      LineResult(mesh, normalize, Step(mesh, normalize, m, Visit(f, i, j, k)).value, f, k, j, i + 1)
  {
  }

  /** The j loop from j on. */
  function PlaneResult(mesh: Mesh, normalize: bool, m: Entries, f: nat, k: int, j: int): Result<Entries, Fault>
    requires Owned(mesh, normalize, f)
    requires mesh.bg[f][2] <= k < mesh.ed[f][2] && mesh.bg[f][1] <= j
    decreases mesh.ed[f][1] - j
  {
    if j >= mesh.ed[f][1] then Success(m)
    else
      match LineResult(mesh, normalize, m, f, k, j, mesh.bg[f][0])
      case Failure(e) => Failure(e)
      case Success(m1) => PlaneResult(mesh, normalize, m1, f, k, j + 1)
  }

  /** The k loop from k on. */
  function BoxResult(mesh: Mesh, normalize: bool, m: Entries, f: nat, k: int): Result<Entries, Fault>
    requires Owned(mesh, normalize, f)
    requires mesh.bg[f][2] <= k
    decreases mesh.ed[f][2] - k
  {
    if k >= mesh.ed[f][2] then Success(m)
    else
      match PlaneResult(mesh, normalize, m, f, k, mesh.bg[f][1])
      case Failure(e) => Failure(e)
      case Success(m1) => BoxResult(mesh, normalize, m1, f, k + 1)
  }

  /** The field loop from field f on. */
  function FieldsResult(mesh: Mesh, normalize: bool, m: Entries, f: nat): Result<Entries, Fault>
    requires WellFormed(mesh) && (!normalize ==> SpacingValid(mesh))
    decreases mesh.dim - f
  {
    if f >= mesh.dim then Success(m)
    else
      match BoxResult(mesh, normalize, m, f, mesh.bg[f][2])
      case Failure(e) => Failure(e)
      case Success(m1) => FieldsResult(mesh, normalize, m1, f + 1)
  }

  lemma {:induction false} LineIsRun(mesh: Mesh, normalize: bool, m: Entries, f: nat, k: int, j: int, i: int)
    requires Owned(mesh, normalize, f)
    requires mesh.bg[f][2] <= k < mesh.ed[f][2] && mesh.bg[f][1] <= j < mesh.ed[f][1] && mesh.bg[f][0] <= i
    ensures forall v | v in LineFrom(f, k, j, i, mesh.ed[f][0]) :: StepDefined(mesh, normalize, v)
    ensures LineResult(mesh, normalize, m, f, k, j, i) == Run(mesh, normalize, m, LineFrom(f, k, j, i, mesh.ed[f][0]))
    decreases mesh.ed[f][0] - i
  {
    LineMembers(f, k, j, i, mesh.ed[f][0]);
    if i < mesh.ed[f][0] {
      var line := LineFrom(f, k, j, i, mesh.ed[f][0]);
      assert line[0] == Visit(f, i, j, k) && line[1..] == LineFrom(f, k, j, i + 1, mesh.ed[f][0]);
      match Step(mesh, normalize, m, Visit(f, i, j, k))
      case Failure(e) =>
      case Success(m1) => LineIsRun(mesh, normalize, m1, f, k, j, i + 1);
    }
  }

  lemma {:induction false} PlaneIsRun(mesh: Mesh, normalize: bool, m: Entries, f: nat, k: int, j: int)
    requires Owned(mesh, normalize, f)
    requires mesh.bg[f][2] <= k < mesh.ed[f][2] && mesh.bg[f][1] <= j
    ensures forall v | v in PlaneFrom(f, k, j, mesh.ed[f][1], mesh.bg[f][0], mesh.ed[f][0]) :: StepDefined(mesh, normalize, v)
    ensures PlaneResult(mesh, normalize, m, f, k, j) ==
      Run(mesh, normalize, m, PlaneFrom(f, k, j, mesh.ed[f][1], mesh.bg[f][0], mesh.ed[f][0]))
    decreases mesh.ed[f][1] - j
  {
    PlaneMembers(f, k, j, mesh.ed[f][1], mesh.bg[f][0], mesh.ed[f][0]);
    if j < mesh.ed[f][1] {
      var line := LineFrom(f, k, j, mesh.bg[f][0], mesh.ed[f][0]);
      var rest := PlaneFrom(f, k, j + 1, mesh.ed[f][1], mesh.bg[f][0], mesh.ed[f][0]);
      LineIsRun(mesh, normalize, m, f, k, j, mesh.bg[f][0]);
      RunConcat(mesh, normalize, m, line, rest);
      match LineResult(mesh, normalize, m, f, k, j, mesh.bg[f][0])
      case Failure(e) =>
      case Success(m1) => PlaneIsRun(mesh, normalize, m1, f, k, j + 1);
    }
  }

  lemma {:induction false} BoxIsRun(mesh: Mesh, normalize: bool, m: Entries, f: nat, k: int)
    requires Owned(mesh, normalize, f)
    requires mesh.bg[f][2] <= k
    ensures forall v | v in BoxFrom(f, k, mesh.ed[f][2], mesh.bg[f][1], mesh.ed[f][1], mesh.bg[f][0], mesh.ed[f][0]) ::
      StepDefined(mesh, normalize, v)
    ensures BoxResult(mesh, normalize, m, f, k) ==
      Run(mesh, normalize, m, BoxFrom(f, k, mesh.ed[f][2], mesh.bg[f][1], mesh.ed[f][1], mesh.bg[f][0], mesh.ed[f][0]))
    decreases mesh.ed[f][2] - k
  {
    BoxMembers(f, k, mesh.ed[f][2], mesh.bg[f][1], mesh.ed[f][1], mesh.bg[f][0], mesh.ed[f][0]);
    if k < mesh.ed[f][2] {
      var plane := PlaneFrom(f, k, mesh.bg[f][1], mesh.ed[f][1], mesh.bg[f][0], mesh.ed[f][0]);
      var rest := BoxFrom(f, k + 1, mesh.ed[f][2], mesh.bg[f][1], mesh.ed[f][1], mesh.bg[f][0], mesh.ed[f][0]);
      PlaneIsRun(mesh, normalize, m, f, k, mesh.bg[f][1]);
      RunConcat(mesh, normalize, m, plane, rest);
      match PlaneResult(mesh, normalize, m, f, k, mesh.bg[f][1])
      case Failure(e) =>
      case Success(m1) => BoxIsRun(mesh, normalize, m1, f, k + 1);
    }
  }

  lemma {:induction false} FieldsIsRun(mesh: Mesh, normalize: bool, m: Entries, f: nat)
    requires WellFormed(mesh) && (!normalize ==> SpacingValid(mesh))
    ensures forall v | v in FieldsFrom(mesh, f) :: StepDefined(mesh, normalize, v)
    ensures FieldsResult(mesh, normalize, m, f) == Run(mesh, normalize, m, FieldsFrom(mesh, f))
    decreases mesh.dim - f
  {
    FieldsMembers(mesh, f);
    if f < mesh.dim {
      var box := FieldBox(mesh, f);
      var rest := FieldsFrom(mesh, f + 1);
      BoxIsRun(mesh, normalize, m, f, mesh.bg[f][2]);
      RunConcat(mesh, normalize, m, box, rest);
      match BoxResult(mesh, normalize, m, f, mesh.bg[f][2])
      case Failure(e) =>
      case Success(m1) => FieldsIsRun(mesh, normalize, m1, f + 1);
    }
  }

  // ---------------------------------------------------------------------
  // createGradient
  // ---------------------------------------------------------------------

  /**
   * One pass of the loop body at (field, i, j, k): the row index, then for
   * each of the two neighbours its column index and MatSetValue; the first
   * failing call ends the pass with its fault.
   */
  method VisitPoint(G: Matrix, mesh: Mesh, normalize: bool, field: nat, i: int, j: int, k: int)
    returns (fault: Option<Fault>)
    requires StepDefined(mesh, normalize, Visit(field, i, j, k))
    requires G.rows == mesh.uN && G.cols == mesh.pN && G.ignoreZero
    modifies G
    ensures G.ignoreZero && G.assembled == old(G.assembled)
    ensures fault.None? ==> Step(mesh, normalize, old(G.entries), Visit(field, i, j, k)) == Success(G.entries)
    ensures fault.Some? ==> Step(mesh, normalize, old(G.entries), Visit(field, i, j, k)) == Failure(fault.value)
  {
    ghost var v := Visit(field, i, j, k);
    ghost var m0 := G.entries;
    var loc := GetNeighbor(field, i, j, k);
    var values := Kernel(normalize, mesh.dL, field, i, j, k);
    var rId := Pack(mesh, field, loc[0]);
    if rId.None? {
      return Some(PackFailed(field, loc[0]));
    }
    var n := 0;
    while n < 2
      invariant 0 <= n <= 2
      invariant WriteColumns(mesh, normalize, m0, v, rId.value, n) == Success(G.entries)
      invariant G.ignoreZero && G.assembled == old(G.assembled)
    {
      var cId := Pack(mesh, Pressure, loc[n]);
      if cId.None? {
        fault := Some(PackFailed(Pressure, loc[n]));
        assert WriteColumns(mesh, normalize, m0, v, rId.value, n + 1) == Failure(fault.value);
        return;
      }
      var err := G.SetValue(rId.value, cId.value, values[n]);
      if err.Some? {
        fault := Some(SetFailed(err.value));
        assert WriteColumns(mesh, normalize, m0, v, rId.value, n + 1) == Failure(fault.value);
        return;
      }
      n := n + 1;
    }
    fault := None;
  }

  /** The i loop of createGradient for fixed field, k and j. */
  method AssembleLine(G: Matrix, mesh: Mesh, normalize: bool, field: nat, k: int, j: int)
    returns (fault: Option<Fault>)
    requires Owned(mesh, normalize, field)
    requires mesh.bg[field][2] <= k < mesh.ed[field][2] && mesh.bg[field][1] <= j < mesh.ed[field][1]
    requires G.rows == mesh.uN && G.cols == mesh.pN && G.ignoreZero
    modifies G
    ensures G.ignoreZero && G.assembled == old(G.assembled)
    ensures fault.None? ==> LineResult(mesh, normalize, old(G.entries), field, k, j, mesh.bg[field][0]) == Success(G.entries)
    ensures fault.Some? ==> LineResult(mesh, normalize, old(G.entries), field, k, j, mesh.bg[field][0]) == Failure(fault.value)
  {
    var i := mesh.bg[field][0];
    while i < mesh.ed[field][0]
      invariant mesh.bg[field][0] <= i
      invariant LineResult(mesh, normalize, G.entries, field, k, j, i) ==
        LineResult(mesh, normalize, old(G.entries), field, k, j, mesh.bg[field][0])
      invariant G.ignoreZero && G.assembled == old(G.assembled)
      decreases mesh.ed[field][0] - i
    {
      LineUnfold(mesh, normalize, G.entries, field, k, j, i);
      fault := VisitPoint(G, mesh, normalize, field, i, j, k);
      if fault.Some? {
        return;
      }
      i := i + 1;
    }
    fault := None;
  }

  /** The j loop of createGradient for fixed field and k. */
  method AssemblePlane(G: Matrix, mesh: Mesh, normalize: bool, field: nat, k: int)
    returns (fault: Option<Fault>)
    requires Owned(mesh, normalize, field)
    requires mesh.bg[field][2] <= k < mesh.ed[field][2]
    requires G.rows == mesh.uN && G.cols == mesh.pN && G.ignoreZero
    modifies G
    ensures G.ignoreZero && G.assembled == old(G.assembled)
    ensures fault.None? ==> PlaneResult(mesh, normalize, old(G.entries), field, k, mesh.bg[field][1]) == Success(G.entries)
    ensures fault.Some? ==> PlaneResult(mesh, normalize, old(G.entries), field, k, mesh.bg[field][1]) == Failure(fault.value)
  {
    var j := mesh.bg[field][1];
    while j < mesh.ed[field][1]
      invariant mesh.bg[field][1] <= j
      invariant PlaneResult(mesh, normalize, G.entries, field, k, j) ==
        PlaneResult(mesh, normalize, old(G.entries), field, k, mesh.bg[field][1])
      invariant G.ignoreZero && G.assembled == old(G.assembled)
      decreases mesh.ed[field][1] - j
    {
      fault := AssembleLine(G, mesh, normalize, field, k, j);
      if fault.Some? {
        return;
      }
      j := j + 1;
    }
    fault := None;
  }

  /** The k loop of createGradient for one field. */
  method AssembleBox(G: Matrix, mesh: Mesh, normalize: bool, field: nat)
    returns (fault: Option<Fault>)
    requires Owned(mesh, normalize, field)
    requires G.rows == mesh.uN && G.cols == mesh.pN && G.ignoreZero
    modifies G
    ensures G.ignoreZero && G.assembled == old(G.assembled)
    ensures fault.None? ==> BoxResult(mesh, normalize, old(G.entries), field, mesh.bg[field][2]) == Success(G.entries)
    ensures fault.Some? ==> BoxResult(mesh, normalize, old(G.entries), field, mesh.bg[field][2]) == Failure(fault.value)
  {
    var k := mesh.bg[field][2];
    while k < mesh.ed[field][2]
      invariant mesh.bg[field][2] <= k
      invariant BoxResult(mesh, normalize, G.entries, field, k) ==
        BoxResult(mesh, normalize, old(G.entries), field, mesh.bg[field][2])
      invariant G.ignoreZero && G.assembled == old(G.assembled)
      decreases mesh.ed[field][2] - k
    {
      fault := AssemblePlane(G, mesh, normalize, field, k);
      if fault.Some? {
        return;
      }
      k := k + 1;
    }
    fault := None;
  }

  /**
   * createGradient(mesh, G, normalize): creates G with one row per velocity
   * unknown and one column per pressure unknown, turns on ignore-zero-entries,
   * runs the loop nest over the velocity fields and assembles G. Any failing
   * call returns its fault at once, leaving G unassembled.
   */
  method CreateGradient(mesh: Mesh, normalize: bool) returns (G: Matrix, fault: Option<Fault>)
    requires WellFormed(mesh)
    requires !normalize ==> SpacingValid(mesh)
    ensures fresh(G)
    ensures G.rows == mesh.uN && G.cols == mesh.pN && G.ignoreZero
    ensures fault.None? ==> G.assembled && GradientEntries(mesh, normalize) == Success(G.entries)
    ensures fault.Some? ==> !G.assembled && GradientEntries(mesh, normalize) == Failure(fault.value)
  {
    FieldsIsRun(mesh, normalize, map[], 0);
    G := new Matrix(mesh.uN, mesh.pN);
    G.SetIgnoreZeroEntries(true);
    var field: nat := 0;
    while field < mesh.dim
      invariant field <= mesh.dim
      invariant FieldsResult(mesh, normalize, G.entries, field) == FieldsResult(mesh, normalize, map[], 0)
      invariant G.rows == mesh.uN && G.cols == mesh.pN && G.ignoreZero && !G.assembled
      decreases mesh.dim - field
    {
      fault := AssembleBox(G, mesh, normalize, field);
      if fault.Some? {
        return;
      }
      field := field + 1;
    }
    G.Assemble();
    fault := None;
  }
}
