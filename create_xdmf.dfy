/**
 * The main program of createxdmf: it works out the range of time steps
 * from the command line and the settings, then writes one XDMF file per
 * field of the mesh (u, v, p and the vorticity wz, plus w, wx and wy in 3D).
 */
module CreateXdmf {
  import opened Wrappers
  import opened Xdmf

  /** The settings main reads: directory and parameters/startStep, parameters/nt, parameters/nsave. */
  datatype Settings = Settings(directory: string, startStep: Option<int>, nt: Option<int>, nsave: Option<int>)

  /** The command-line options -bg, -ed and -step, when given. */
  datatype Options = Options(bg: Option<int>, ed: Option<int>, step: Option<int>)

  /** The time steps to describe: bg, bg + step, ... while <= ed. */
  datatype Range = Range(bg: int, ed: int, step: int)

  /** A parameter the settings lack when main needs it. */
  datatype ConfigError = MissingParameter(key: string)

  /** The loop of writeSingleXDMF over the range ends. */
  predicate Terminates(r: Range)
  {
    r.step > 0 || r.bg > r.ed
  }

  /**
   * The range: each option given on the command line wins; otherwise bg is
   * startStep (0 when absent), ed is bg + nt and step is nsave. A missing nt
   * is reported before a missing nsave.
   */
  function ResolveRange(s: Settings, o: Options): (r: Result<Range, ConfigError>)
    ensures r.Success? <==> (o.ed.Some? || s.nt.Some?) && (o.step.Some? || s.nsave.Some?)
    ensures r.Success? ==>
      && r.value.bg == (if o.bg.Some? then o.bg.value else if s.startStep.Some? then s.startStep.value else 0)
      && r.value.ed == (if o.ed.Some? then o.ed.value else r.value.bg + s.nt.value)
      && r.value.step == (if o.step.Some? then o.step.value else s.nsave.value)
    ensures r.Failure? && o.ed.None? && s.nt.None? ==> r.error == MissingParameter("nt")
    ensures r.Failure? && (o.ed.Some? || s.nt.Some?) ==> r.error == MissingParameter("nsave")
  {
    var bg := if o.bg.Some? then o.bg.value else if s.startStep.Some? then s.startStep.value else 0;
    if o.ed.None? && s.nt.None? then Failure(MissingParameter("nt"))
    else
      var ed := if o.ed.Some? then o.ed.value else bg + s.nt.value;
      if o.step.None? && s.nsave.None? then Failure(MissingParameter("nsave"))
      else
        var step := if o.step.Some? then o.step.value else s.nsave.value;
        Success(Range(bg, ed, step))
  }

  /** One file to write: the field's name and its grid sizes along x, y and z. */
  datatype Field = Field(name: string, n: seq<int>)

  /**
   * The fields main writes, in order. n holds the sizes of the u, v, w,
   * pressure and vertex grids (n[4]); a vorticity component lives on the
   * vertices in its plane and on the pressure cells along its axis.
   */
  function Fields(dim: nat, n: seq<seq<int>>): (fs: seq<Field>)
    requires |n| == 5 && forall f | 0 <= f < 5 :: |n[f]| == 3
    ensures |fs| == if dim == 3 then 7 else 4
    ensures forall i | 0 <= i < |fs| :: |fs[i].n| == 3
  {
    [Field("u", n[0]), Field("v", n[1]), Field("p", n[3]), Field("wz", [n[4][0], n[4][1], n[3][2]])]
    + if dim == 3 then
        [Field("w", n[2]), Field("wx", [n[3][0], n[4][1], n[4][2]]), Field("wy", [n[4][0], n[3][1], n[4][2]])]
      else []
  }

  /** A file as left behind by PetscViewerDestroy: its path and the printf calls made into it. */
  datatype OutputFile = OutputFile(path: string, printed: seq<Chunk>)

  /** The file writeSingleXDMF leaves for field f in directory, over the steps of r. */
  function FieldFile(directory: string, dim: nat, f: Field, r: Range): OutputFile
    requires dim <= 3 && dim <= |f.n|
    requires Terminates(r)
  {
    OutputFile(FilePath(directory, f.name), Document(f.name, dim, f.n, r.bg, r.ed, r.step))
  }

  /** The files left for the fields fs, in order. */
  function Files(directory: string, dim: nat, fs: seq<Field>, r: Range): (out: seq<OutputFile>)
    requires dim <= 3 && forall i | 0 <= i < |fs| :: dim <= |fs[i].n|
    requires Terminates(r)
    ensures |out| == |fs|
    ensures forall i | 0 <= i < |fs| :: out[i] == FieldFile(directory, dim, fs[i], r)
  {
    seq(|fs|, i requires 0 <= i < |fs| => FieldFile(directory, dim, fs[i], r))
  }

  /** Calls writeSingleXDMF and keeps what it wrote. */
  method Write(directory: string, dim: nat, f: Field, r: Range) returns (file: OutputFile)
    requires dim <= 3 && dim <= |f.n|
    requires Terminates(r)
    ensures file == FieldFile(directory, dim, f, r)
  {
    var viewer := WriteSingleXdmf(directory, f.name, dim, f.n, r.bg, r.ed, r.step);
    file := OutputFile(viewer.path, viewer.printed);
  }

  /** The files main writes in every case: u, v, p and wz, with wz's sizes put in wn. */
  method WritePlanar(directory: string, dim: nat, n: seq<seq<int>>, r: Range, wn: array<int>)
      returns (files: seq<OutputFile>)
    requires dim == 2 || dim == 3
    requires |n| == 5 && forall f | 0 <= f < 5 :: |n[f]| == 3
    requires Terminates(r) && wn.Length == 3
    modifies wn
    ensures files == Files(directory, dim, Fields(dim, n)[..4], r)
    ensures wn[..] == [n[4][0], n[4][1], n[3][2]] == Fields(dim, n)[3].n
  {
    ghost var fs := Fields(dim, n);
    var u := Write(directory, dim, Field("u", n[0]), r);
    var v := Write(directory, dim, Field("v", n[1]), r);
    var p := Write(directory, dim, Field("p", n[3]), r);
    wn[0], wn[1], wn[2] := n[4][0], n[4][1], n[3][2];
    assert Field("wz", wn[..]) == fs[3];
    var wz := Write(directory, dim, Field("wz", wn[..]), r);
    files := [u, v, p, wz];
    assert fs[..4] == [Field("u", n[0]), Field("v", n[1]), Field("p", n[3]), fs[3]];
  }

  /** The files main writes only in 3D: w, wx and wy, with the vorticity sizes put in wn. */
  method WriteSpatial(directory: string, n: seq<seq<int>>, r: Range, wn: array<int>)
      returns (files: seq<OutputFile>)
    requires |n| == 5 && forall f | 0 <= f < 5 :: |n[f]| == 3
    requires Terminates(r) && wn.Length == 3
    modifies wn
    ensures files == Files(directory, 3, Fields(3, n)[4..], r)
    ensures wn[..] == [n[4][0], n[3][1], n[4][2]] == Fields(3, n)[6].n
  {
    ghost var fs := Fields(3, n);
    var w := Write(directory, 3, Field("w", n[2]), r);
    wn[0], wn[1], wn[2] := n[3][0], n[4][1], n[4][2];
    assert Field("wx", wn[..]) == fs[5];
    var wx := Write(directory, 3, Field("wx", wn[..]), r);
    wn[0], wn[1], wn[2] := n[4][0], n[3][1], n[4][2];
    assert Field("wy", wn[..]) == fs[6];
    var wy := Write(directory, 3, Field("wy", wn[..]), r);
    files := [w, wx, wy];
    assert fs[4..] == [Field("w", n[2]), fs[5], fs[6]];
  }

  /**
   * main after createMesh: resolves the range, then writes the files of
   * Fields(dim, n), passing the vorticity sizes through the reused vector wn.
   */
  method WriteAll(s: Settings, o: Options, dim: nat, n: seq<seq<int>>)
      returns (files: seq<OutputFile>, err: Option<ConfigError>)
    requires dim == 2 || dim == 3
    requires |n| == 5 && forall f | 0 <= f < 5 :: |n[f]| == 3
    requires ResolveRange(s, o).Success? ==> Terminates(ResolveRange(s, o).value)
    ensures err.Some? <==> ResolveRange(s, o).Failure?
    ensures err.Some? ==> err.value == ResolveRange(s, o).error && files == []
    ensures err.None? ==> files == Files(s.directory, dim, Fields(dim, n), ResolveRange(s, o).value)
  {
    var range := ResolveRange(s, o);
    if range.Failure? {
      return [], Some(range.error);
    }
    var r := range.value;
    ghost var fs := Fields(dim, n);
    var wn := new int[3];
    files := WritePlanar(s.directory, dim, n, r, wn);
    err := None;
    if dim == 3 {
      var more := WriteSpatial(s.directory, n, r, wn);
      assert fs == fs[..4] + fs[4..];
      files := files + more;
    } else {
      assert fs == fs[..4];
    }
  }

  // ---------------------------------------------------------------------
  // Properties
  // ---------------------------------------------------------------------

  /** Options given for all three bounds make the settings irrelevant. */
  lemma OptionsWin(s: Settings, t: Settings, bg: int, ed: int, step: int)
    ensures ResolveRange(s, Options(Some(bg), Some(ed), Some(step))) == Success(Range(bg, ed, step))
    ensures ResolveRange(s, Options(Some(bg), Some(ed), Some(step)))
         == ResolveRange(t, Options(Some(bg), Some(ed), Some(step)))
  {
  }

  /** Without options the range starts at startStep (or 0) and covers the nt steps of the run. */
  lemma DefaultRange(s: Settings)
    requires s.nt.Some? && s.nsave.Some?
    ensures ResolveRange(s, Options(None, None, None)).Success?
    ensures var r := ResolveRange(s, Options(None, None, None)).value;
      && r.ed - r.bg == s.nt.value
      && r.step == s.nsave.value
      && r.bg == (if s.startStep.Some? then s.startStep.value else 0)
  {
  }

  /** The fields written have distinct names: u, v and p, the vorticity wz, and w, wx, wy in 3D. */
  lemma FieldNamesDistinct(dim: nat, n: seq<seq<int>>, i: int, j: int)
    requires |n| == 5 && forall f | 0 <= f < 5 :: |n[f]| == 3
    requires 0 <= i < j < |Fields(dim, n)|
    ensures Fields(dim, n)[i].name != Fields(dim, n)[j].name
  {
  }

  /** Distinct names in one directory give distinct files. */
  lemma FilePathInjective(directory: string, a: string, b: string)
    requires a != b
    ensures FilePath(directory, a) != FilePath(directory, b)
  {
    var k := |directory| + 1;
    var pa := FilePath(directory, a);
    var pb := FilePath(directory, b);
    assert pa[k..|pa| - 4] == a;
    assert pb[k..|pb| - 4] == b;
  }

  /** So main writes each field to a file of its own. */
  lemma FilesDistinct(directory: string, dim: nat, n: seq<seq<int>>, i: int, j: int)
    requires |n| == 5 && forall f | 0 <= f < 5 :: |n[f]| == 3
    requires 0 <= i < j < |Fields(dim, n)|
    ensures FilePath(directory, Fields(dim, n)[i].name) != FilePath(directory, Fields(dim, n)[j].name)
  {
    FieldNamesDistinct(dim, n, i, j);
    FilePathInjective(directory, Fields(dim, n)[i].name, Fields(dim, n)[j].name);
  }

  /** The 3D-only fields are written exactly when dim == 3. */
  lemma ThreeDimensionalFields(dim: nat, n: seq<seq<int>>)
    requires |n| == 5 && forall f | 0 <= f < 5 :: |n[f]| == 3
    ensures (exists i | 0 <= i < |Fields(dim, n)| :: Fields(dim, n)[i].name == "w") <==> dim == 3
  {
    var fs := Fields(dim, n);
    if dim == 3 {
      assert fs[4].name == "w";
    } else {
      forall i | 0 <= i < |fs|
        ensures fs[i].name != "w"
      {
      }
    }
  }
}
