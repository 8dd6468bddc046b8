/**
 * writeSingleXDMF: the XDMF description of one field's time series. The
 * file declares the grid sizes as entities, a rectilinear topology and its
 * geometry read from grid.h5, and then one uniform grid per saved time step
 * t = bg, bg + step, ... up to ed, whose values are read from
 * solution/<t as %07d>.h5.
 *
 * Each PetscViewerASCIIPrintf call is a Chunk: the call's format string and
 * arguments, whose text Render gives. A file is the sequence of chunks
 * printed into it; its contents are Text of that sequence.
 */
module Xdmf {
  import opened Format

  /** dir2str for x, y and z (d is 0, 1 or 2). */
  function DirName(d: nat): string
  {
    if d == 0 then "x" else if d == 1 then "y" else "z"
  }

  // ---------------------------------------------------------------------
  // The printf calls and their text
  // ---------------------------------------------------------------------

  datatype Chunk =
    // the header and the DOCTYPE with its entities
    | Declaration | DocTypeOpen | CaseDirEntity | Entity(dir: nat, count: int) | DocTypeClose
    // the Xdmf block, the topology and the geometry
    | XdmfOpen | Information | DomainOpen
    | TopologyName(name: string) | TopologyType(dim: int) | TopologySize(dim: int)
    | GeometryName(name: string) | GeometryType(dim: int)
    | CoordinateItem(dir: nat) | HdfFormat | CoordinatePath(name: string, dir: nat) | CoordinateClose
    | GeometryClose | CollectionOpen
    // one time step
    | GridOpen(name: string) | TimeValue(t: int) | TopologyRef(name: string) | GeometryRef(name: string)
    | AttributeOpen(name: string) | ValuesItem(dim: int) | SolutionPath(t: int, name: string)
    | ValuesClose | AttributeClose | GridClose
    // the end of the file
    | CollectionClose | DomainClose | XdmfClose

  /** The grid extents, slowest direction first: "&Nz; &Ny; &Nx;" in 3D, "&Ny; &Nx;" otherwise. */
  function Extents(dim: int): string
  {
    (if dim == 3 then "&Nz; " else "") + "&Ny; &Nx;"
  }

  /** The data file of time step t, relative to the case directory. */
  function SolutionFile(t: int): string
  {
    "solution/" + Format07(t) + ".h5"
  }

  /** What one printf call writes. */
  function Render(c: Chunk): string
  {
    match c
    case Declaration => "<?xml version='1.0' encoding='ASCII'?>\n\n"
    case DocTypeOpen => "<!DOCTYPE Xdmf SYSTEM \"Xdmf.dtd\" [\n"
    case CaseDirEntity => "    <!ENTITY CaseDir \"./\">\n"
    case Entity(d, count) => "    <!ENTITY N" + DirName(d) + " \"" + FormatD(count) + "\">\n"
    case DocTypeClose => "]>\n\n"
    case XdmfOpen => "<Xdmf Version=\"2.2\">\n"
    case Information => "    <Information Name=\"MeteData\" Value=\"ID-23454\"/>\n"
    case DomainOpen => "    <Domain>\n\n"
    case TopologyName(name) => "    <Topology Name=\"" + name + " Topo\" "
    case TopologyType(dim) => "TopologyType=\"" + FormatD(if dim == 3 then 3 else 2) + "DRectMesh\" "
    case TopologySize(dim) => "NumberOfElements=\"" + Extents(dim) + "\"/>\n\n"
    case GeometryName(name) => "    <Geometry Name=\"" + name + " Geo\" "
    case GeometryType(dim) => "GeometryType=\"VXVY" + (if dim == 3 then "VZ" else "") + "\">\n"
    case CoordinateItem(d) => "        <DataItem Dimensions=\"&N" + DirName(d) + ";\" "
    case HdfFormat => "Format=\"HDF\" NumberType=\"Float\" Precision=\"8\">\n"
    case CoordinatePath(name, d) => "            &CaseDir;/grid.h5:/" + name + "/" + DirName(d) + "\n"
    case CoordinateClose => "        </DataItem>\n"
    case GeometryClose => "    </Geometry>\n\n"
    case CollectionOpen => "    <Grid GridType=\"Collection\" CollectionType=\"Temporal\">\n\n"
    case GridOpen(name) => "        <Grid GridType=\"Uniform\" Name=\"" + name + " Grid\">\n"
    case TimeValue(t) => "            <Time Value=\"" + Format07(t) + "\" />\n"
    case TopologyRef(name) => "            <Topology Reference=\"/Xdmf/Domain/Topology[@Name='" + name + " Topo']\" />\n"
    case GeometryRef(name) => "            <Geometry Reference=\"/Xdmf/Domain/Geometry[@Name='" + name + " Geo']\" />\n"
    case AttributeOpen(name) => "            <Attribute Name=\"" + name + "\" AttributeType=\"Scalar\" Center=\"Node\">\n"
    case ValuesItem(dim) => "                <DataItem Dimensions=\"" + Extents(dim) + "\" "
    case SolutionPath(t, name) => "                    &CaseDir;/" + SolutionFile(t) + ":/" + name + "\n"
    case ValuesClose => "                </DataItem>\n"
    case AttributeClose => "            </Attribute>\n"
    case GridClose => "        </Grid>\n\n"
    case CollectionClose => "    </Grid>\n\n"
    case DomainClose => "    </Domain>\n"
    case XdmfClose => "</Xdmf>\n"
  }

  /** The contents of a file into which chunks were printed, in order. */
  function Text(chunks: seq<Chunk>): string
    decreases |chunks|
  {
    if chunks == [] then "" else Render(chunks[0]) + Text(chunks[1..])
  }

  // ---------------------------------------------------------------------
  // The document, part by part
  // ---------------------------------------------------------------------

  /** The entities N<dir> of the first k directions. */
  function Entities(n: seq<int>, k: nat): seq<Chunk>
    requires k <= |n|
  {
    if k == 0 then [] else Entities(n, k - 1) + [Entity(k - 1, n[k - 1])]
  }

  /** The coordinate array along direction d. */
  function Coordinate(name: string, d: nat): seq<Chunk>
  {
    [CoordinateItem(d), HdfFormat, CoordinatePath(name, d), CoordinateClose]
  }

  /** The coordinate arrays of the first k directions. */
  function Coordinates(name: string, k: nat): seq<Chunk>
  {
    if k == 0 then [] else Coordinates(name, k - 1) + Coordinate(name, k - 1)
  }

  /** The XML declaration and the DOCTYPE with its entities. */
  function Prologue(n: seq<int>, dim: nat): seq<Chunk>
    requires dim <= |n|
  {
    [Declaration, DocTypeOpen, CaseDirEntity] + Entities(n, dim) + [DocTypeClose]
  }

  /** The openings of the Xdmf block and the domain, the topology and the opening of the geometry. */
  function Domain(name: string, dim: int): seq<Chunk>
  {
    [XdmfOpen, Information, DomainOpen,
     TopologyName(name), TopologyType(dim), TopologySize(dim),
     GeometryName(name), GeometryType(dim)]
  }

  /** The coordinate arrays, the end of the geometry and the opening of the time series. */
  function Geometry(name: string, dim: nat): seq<Chunk>
  {
    Coordinates(name, dim) + [GeometryClose, CollectionOpen]
  }

  /** Everything printed before the first time step. */
  function Head(name: string, dim: nat, n: seq<int>): seq<Chunk>
    requires dim <= |n|
  {
    Prologue(n, dim) + Domain(name, dim) + Geometry(name, dim)
  }

  /** The uniform grid of time step t. */
  function Snapshot(name: string, dim: int, t: int): seq<Chunk>
  {
    [GridOpen(name), TimeValue(t), TopologyRef(name), GeometryRef(name), AttributeOpen(name),
     ValuesItem(dim), HdfFormat, SolutionPath(t, name), ValuesClose, AttributeClose, GridClose]
  }

  /** The time steps of the loop for (t = bg; t <= ed; t += step), from t on. */
  function Times(t: int, ed: int, step: int): seq<int>
    requires step > 0 || t > ed
    decreases if t > ed then 0 else ed - t + 1
  {
    if t > ed then [] else [t] + Times(t + step, ed, step)
  }

  /** The uniform grids of the time steps ts, in order. */
  function Snapshots(name: string, dim: int, ts: seq<int>): seq<Chunk>
    decreases |ts|
  {
    if ts == [] then [] else Snapshot(name, dim, ts[0]) + Snapshots(name, dim, ts[1..])
  }

  /** Everything printed after the last time step. */
  const Tail: seq<Chunk> := [CollectionClose, DomainClose, XdmfClose]

  /** The printf calls of writeSingleXDMF, in order. */
  function Document(name: string, dim: nat, n: seq<int>, bg: int, ed: int, step: int): seq<Chunk>
    requires dim <= |n|
    requires step > 0 || bg > ed
  {
    Head(name, dim, n) + Snapshots(name, dim, Times(bg, ed, step)) + Tail
  }

  /** The file's name: directory + "/" + name + ".xmf". */
  function FilePath(directory: string, name: string): string
  {
    directory + "/" + name + ".xmf"
  }

  // ---------------------------------------------------------------------
  // The viewer and the writer
  // ---------------------------------------------------------------------

  /** An ASCII PetscViewer: the file it was opened on and the printf calls made on it so far. */
  class Viewer {
    const path: string
    var printed: seq<Chunk>

    /** PetscViewerASCIIOpen. */
    constructor (path: string)
      ensures this.path == path && printed == []
    {
      this.path := path;
      printed := [];
    }

    /** PetscViewerASCIIPrintf. */
    method Printf(c: Chunk)
      modifies this
      ensures printed == old(printed) + [c]
    {
      printed := printed + [c];
    }
  }

  /** The header printfs and the loop over the entities N<dir>. */
  method WritePrologue(viewer: Viewer, dim: nat, n: seq<int>)
    requires dim <= 3 && dim <= |n|
    modifies viewer
    ensures viewer.printed == old(viewer.printed) + Prologue(n, dim)
  {
    viewer.Printf(Declaration);
    viewer.Printf(DocTypeOpen);
    viewer.Printf(CaseDirEntity);
    var i := 0;
    while i < dim
      invariant i <= dim
      invariant viewer.printed == old(viewer.printed) + [Declaration, DocTypeOpen, CaseDirEntity] + Entities(n, i)
    {
      viewer.Printf(Entity(i, n[i]));
      i := i + 1;
    }
    viewer.Printf(DocTypeClose);
  }

  /** The printfs of the Xdmf block up to the coordinate arrays. */
  method WriteDomain(viewer: Viewer, name: string, dim: int)
    modifies viewer
    ensures viewer.printed == old(viewer.printed) + Domain(name, dim)
  {
    viewer.Printf(XdmfOpen);
    viewer.Printf(Information);
    viewer.Printf(DomainOpen);
    viewer.Printf(TopologyName(name));
    viewer.Printf(TopologyType(dim));
    viewer.Printf(TopologySize(dim));
    viewer.Printf(GeometryName(name));
    viewer.Printf(GeometryType(dim));
  }

  /** The loop over the coordinate arrays, then the end of the geometry. */
  method WriteGeometry(viewer: Viewer, name: string, dim: nat)
    requires dim <= 3
    modifies viewer
    ensures viewer.printed == old(viewer.printed) + Geometry(name, dim)
  {
    var i := 0;
    while i < dim
      invariant i <= dim
      invariant viewer.printed == old(viewer.printed) + Coordinates(name, i)
    {
      viewer.Printf(CoordinateItem(i));
      viewer.Printf(HdfFormat);
      viewer.Printf(CoordinatePath(name, i));
      viewer.Printf(CoordinateClose);
      i := i + 1;
    }
    viewer.Printf(GeometryClose);
    viewer.Printf(CollectionOpen);
  }

  /** The body of the time-step loop. */
  method WriteSnapshot(viewer: Viewer, name: string, dim: int, t: int)
    modifies viewer
    ensures viewer.printed == old(viewer.printed) + Snapshot(name, dim, t)
  {
    viewer.Printf(GridOpen(name));
    viewer.Printf(TimeValue(t));
    viewer.Printf(TopologyRef(name));
    viewer.Printf(GeometryRef(name));
    viewer.Printf(AttributeOpen(name));
    viewer.Printf(ValuesItem(dim));
    viewer.Printf(HdfFormat);
    viewer.Printf(SolutionPath(t, name));
    viewer.Printf(ValuesClose);
    viewer.Printf(AttributeClose);
    viewer.Printf(GridClose);
  }

  /** The loop for (t = bg; t <= ed; t += step); it ends only when step > 0 or bg > ed. */
  method WriteSnapshots(viewer: Viewer, name: string, dim: int, bg: int, ed: int, step: int)
    requires step > 0 || bg > ed
    modifies viewer
    ensures viewer.printed == old(viewer.printed) + Snapshots(name, dim, Times(bg, ed, step))
  {
    var t := bg;
    while t <= ed
      invariant step > 0 || t > ed
      invariant viewer.printed + Snapshots(name, dim, Times(t, ed, step)) ==
        old(viewer.printed) + Snapshots(name, dim, Times(bg, ed, step))
      decreases ed - t
    {
      ghost var before := viewer.printed;
      WriteSnapshot(viewer, name, dim, t);
      SnapshotsCons(name, dim, t, Times(t + step, ed, step));
      assert viewer.printed + Snapshots(name, dim, Times(t + step, ed, step)) ==
        before + Snapshots(name, dim, Times(t, ed, step));
      t := t + step;
    }
    assert Snapshots(name, dim, Times(t, ed, step)) == [];
  }

  /**
   * writeSingleXDMF(directory, name, dim, n, bg, ed, step): opens
   * directory/name.xmf and prints the document into it.
   */
  method WriteSingleXdmf(directory: string, name: string, dim: nat, n: seq<int>,
                         bg: int, ed: int, step: int) returns (viewer: Viewer)
    requires dim <= 3 && dim <= |n|
    requires step > 0 || bg > ed
    ensures fresh(viewer)
    ensures viewer.path == FilePath(directory, name)
    ensures viewer.printed == Document(name, dim, n, bg, ed, step)
  {
    viewer := new Viewer(directory + "/" + name + ".xmf");
    WritePrologue(viewer, dim, n);
    WriteDomain(viewer, name, dim);
    WriteGeometry(viewer, name, dim);
    assert viewer.printed == Head(name, dim, n);
    WriteSnapshots(viewer, name, dim, bg, ed, step);
    viewer.Printf(CollectionClose);
    viewer.Printf(DomainClose);
    viewer.Printf(XdmfClose);
  }

  /** Unfolding the first time step of a run. */
  lemma SnapshotsCons(name: string, dim: int, t: int, ts: seq<int>)
    ensures Snapshots(name, dim, [t] + ts) == Snapshot(name, dim, t) + Snapshots(name, dim, ts)
  {
    assert ([t] + ts)[1..] == ts;
  }
}
