# PetIBM: gradient operator and XDMF descriptors, modelled in Dafny

This project models two pieces of PetIBM, an immersed-boundary Navier-Stokes solver built on PETSc.

**`createGradient`** builds the discrete pressure-gradient operator G on a staggered grid. For each owned point of each velocity field, it writes one row of G with two pressure columns:

- The columns are the pressure cell of the point itself and of its +1 neighbour along the field's direction.
- The coefficients are (-1, 1) when normalized, and (-1/h, 1/h) otherwise.

The model in `gradient.dfy` contains:

- the neighbour stencils and the kernels, as functions;
- the four nested loops, as methods in the source's imperative form (one method per loop level), which fill a `SparseMatrix.Matrix` class;
- the whole assembly as a specification function `GradientEntries`, which every loop method is proved against.

`gradient_properties.dfy` proves what the assembled matrix looks like:

- each visited row holds exactly its two coefficients, so two nonzeros when its pressure columns differ;
- a row applied to a pressure field gives the scaled difference of its two neighbours, so a constant pressure field maps to zero;
- rows not visited stay empty;
- no row exceeds the preallocation of 2;
- assembly succeeds exactly when every index lookup succeeds and lands in range.

**`createxdmf`** is a post-processing program. It writes one XDMF file per flow field (u, v, p, wz, plus w, wx and wy in 3D). Each file describes the field's time series of HDF5 snapshots.

- `xdmf.dfy` models each `PetscViewerASCIIPrintf` call as a `Chunk` value, and its exact text as `Render`. A `Viewer` class records the chunks printed into a file.
- `writeSingleXDMF` becomes staged methods with the source's loops. The method `WriteSingleXdmf` is proved to print exactly `Document(...)`.
- `format.dfy` defines `%d` and `%07d`, with a decimal reader that reads both back.
- `xdmf_properties.dfy` proves the document's shape: one entity and one coordinate array per direction, one uniform grid per time step, readable numbers, distinct solution files and a well-nested element structure.
- `create_xdmf.dfy` models `main`: how the step range defaults are resolved, and which fields are written with which sizes, through the reused `wn` array.

## Model

| member | source | states |
|---|---|---|
| SparseMatrix.Insert | src/operators/creategradient.cpp:118-119 | MatSetValue with INSERT_VALUES: fails exactly for an index outside the global sizes; keeps every other entry; adds no key but (r, c); drops an exact zero when ignore-zero is on; otherwise stores v at (r, c), replacing the old value |
| SparseMatrix.UpdateRows | src/operators/creategradient.cpp:118-119 | storing at (r, c) changes row r only at column c and leaves every other row as it was |
| SparseMatrix.InsertRows | src/operators/creategradient.cpp:93-119 | a successful write acts on row r as a single-column write, a replacement and never an accumulation; other rows are unchanged; new keys all lie in row r |
| SparseMatrix.Matrix.constructor | src/operators/creategradient.cpp:85-86 | a new matrix of the given global sizes is empty, ignore-zero is off, and it is not assembled |
| SparseMatrix.Matrix.SetIgnoreZeroEntries | src/operators/creategradient.cpp:93 | sets the option and changes nothing else |
| SparseMatrix.Matrix.SetValue | src/operators/creategradient.cpp:118-119 | the new entries are those given by Insert; on an error the entries are unchanged and the error is returned |
| SparseMatrix.Matrix.Assemble | src/operators/creategradient.cpp:125-126 | the matrix becomes assembled with its entries unchanged |
| Gradient.GetNeighbor | src/operators/creategradient.cpp:54-61 | exactly two stencils: the owning point (k, j, i, 0), then the same point with only the index along d increased by one |
| Gradient.Kernel | src/operators/creategradient.cpp:65-81 | two coefficients that are negatives of each other and nonzero; exactly [-1, 1] when normalized; otherwise the second times dL[d][d][index along d] is 1 |
| Gradient.LineMembers | src/operators/creategradient.cpp:100 | the i loop visits exactly the i in [i, hi) for the fixed field, k and j, each once |
| Gradient.PlaneMembers | src/operators/creategradient.cpp:99-100 | the j and i loops visit exactly the box rows [j, jhi) x [ilo, ihi), each point once |
| Gradient.BoxMembers | src/operators/creategradient.cpp:98-100 | the k, j and i loops visit exactly the owned box of one field, each point once |
| Gradient.FieldsMembers | src/operators/creategradient.cpp:97-100 | the loops from field f on visit exactly the owned points of fields f to dim - 1, each once |
| Gradient.VisitsExactly | src/operators/creategradient.cpp:97-100 | the loop nest visits a point iff it lies in the owned box of a velocity field below dim; no point twice; in 2D field 2 is never visited |
| Gradient.VisitsDefined | src/operators/creategradient.cpp:104-106 | every visited point has its stencil and coefficients defined |
| Gradient.Pack | src/operators/creategradient.cpp:109-110 | getPackedGlobalIndex of a field's point: the packed global index, or a failure |
| Gradient.Row | src/operators/creategradient.cpp:109-110 | rId: the packed index of the owning point in its own velocity field |
| Gradient.Column | src/operators/creategradient.cpp:115-116 | cId: the packed index of the n-th stencil point in the pressure field |
| Gradient.Values | src/operators/creategradient.cpp:106 | the kernel's coefficients at the point |
| Gradient.WriteColumns | src/operators/creategradient.cpp:113-120 | the first n rounds of the column loop: pack the pressure neighbour, MatSetValue its coefficient into the row, stop at the first fault (StepRows, StepOk and RowOfWrites state what it leaves) |
| Gradient.Step | src/operators/creategradient.cpp:102-120 | one pass of the loop body: pack the row, then the column loop (StepOk and StepRows state when it succeeds and what it writes) |
| Gradient.Run | src/operators/creategradient.cpp:97-121 | the loop bodies of a sequence of visits in order, the first fault ending the run (RunConcat, RunOk, RunFrame and RunRows state its properties) |
| Gradient.GradientEntries | src/operators/creategradient.cpp:93-121 | the entries the four loops leave in G, or their first fault (GradientRows, GradientFrame, GradientPrealloc and GradientSucceeds state what they are) |
| Gradient.RunConcat | src/operators/creategradient.cpp:97-121 | running two segments of iterations equals running the first, then the second from where it left off; a fault in the first ends the run |
| Gradient.LineUnfold | src/operators/creategradient.cpp:100-120 | one round of the i loop: a failing iteration is the result of the rest of the line, and a successful one continues from its entries |
| Gradient.LineIsRun | src/operators/creategradient.cpp:100-121 | the i loop's result function equals the run over the line's visits |
| Gradient.PlaneIsRun | src/operators/creategradient.cpp:99-121 | the j loop's result function equals the run over the plane's visits |
| Gradient.BoxIsRun | src/operators/creategradient.cpp:98-121 | the k loop's result function equals the run over the box's visits |
| Gradient.FieldsIsRun | src/operators/creategradient.cpp:97-121 | the field loop's result function equals the run over all remaining visits |
| Gradient.VisitPoint | src/operators/creategradient.cpp:102-120 | one loop body: the row index, then per neighbour the column index and MatSetValue; the new entries or the first fault are exactly those of Step |
| Gradient.AssembleLine | src/operators/creategradient.cpp:100-121 | the i loop leaves the entries, or returns the fault, that LineResult gives |
| Gradient.AssemblePlane | src/operators/creategradient.cpp:99-121 | the j loop leaves the entries, or returns the fault, that PlaneResult gives |
| Gradient.AssembleBox | src/operators/creategradient.cpp:98-121 | the k loop leaves the entries, or returns the fault, that BoxResult gives |
| Gradient.CreateGradient | src/operators/creategradient.cpp:40-129 | a fresh uN x pN matrix with ignore-zero on; on success it is assembled and holds exactly GradientEntries; on the first fault it is left unassembled and the fault is the one GradientEntries reports |
| GradientProperties.RowOfWrites | src/operators/creategradient.cpp:89-90 | the two writes of a row with nonzero coefficients leave exactly {c0: v0, c1: v1}, or only {c1: v1} when both columns coincide; never more than the 2 preallocated entries |
| GradientProperties.StepOk | src/operators/creategradient.cpp:109-119 | one iteration succeeds iff the row and both column lookups succeed and land inside the matrix |
| GradientProperties.StepRows | src/operators/creategradient.cpp:104-119 | a successful iteration writes its two coefficients to the pressure columns of its stencil in its own row, and touches no other row |
| GradientProperties.RunOk | src/operators/creategradient.cpp:97-121 | a run succeeds iff every iteration's lookups succeed and land in range |
| GradientProperties.DistinctTail | src/operators/creategradient.cpp:97-110 | distinct rows for a segment carry over to its tail, and the tail never revisits the head's row |
| GradientProperties.RunFrame | src/operators/creategradient.cpp:97-121 | a run leaves every row no iteration owns unchanged, and each new entry belongs to the row of some iteration |
| GradientProperties.RunRows | src/operators/creategradient.cpp:104-119 | with distinct, initially empty rows, each iteration's row ends as exactly its two kernel coefficients at its two pressure columns |
| GradientProperties.VisitsDistinctRows | src/operators/creategradient.cpp:97-110 | with injective packing, the visited points own pairwise distinct rows |
| GradientProperties.GradientRows | src/operators/creategradient.cpp:104-119 | with injective packing, every owned velocity point's row holds exactly its kernel coefficients at the pressure indices of its stencil |
| GradientProperties.GradientFrame | src/operators/creategradient.cpp:97-121 | a row that no owned velocity point maps to stays empty, and every stored entry belongs to such a point's row |
| GradientProperties.GradientPrealloc | src/operators/creategradient.cpp:89-90 | with injective packing, every row holds at most the 2 preallocated entries |
| GradientProperties.RowPrealloc | src/operators/creategradient.cpp:89-90 | one row at a time: at most 2 entries |
| GradientProperties.GradientSucceeds | src/operators/creategradient.cpp:109-119 | createGradient's loops succeed iff every owned point's row and column lookups succeed and land in range |
| GradientProperties.RowNonzeros | src/operators/creategradient.cpp:109-119 | with injective row packing, the assembled row of every owned velocity point holds nonzeros exactly at its two pressure columns: two entries when they differ, one when they coincide |
| GradientProperties.RowAnnihilatesConstants | src/operators/creategradient.cpp:65-81 | with distinct pressure columns, the assembled row of an owned velocity point applied to pressures p0, p1 at its two neighbours gives (p1 - p0) times its second coefficient, so a constant pressure field maps to zero |
| Format.DigitChar | applications/createxdmf/main.cpp:155 | the character of a digit is a digit character of the same value |
| Format.Digits | applications/createxdmf/main.cpp:155 | the decimal digits of x are a nonempty digit string without a leading zero |
| Format.Zeros | applications/createxdmf/main.cpp:208 | k zero characters |
| Format.ZeroPad | applications/createxdmf/main.cpp:208 | the padded string is at least w characters and no longer than needed |
| Format.FormatD | applications/createxdmf/main.cpp:155-156 | %d: a nonempty text starting with a minus sign exactly for a negative value (FormatDRoundTrip: it reads back as the value) |
| Format.Format07 | applications/createxdmf/main.cpp:208-209 | %07d: at least seven characters, starting with a minus sign exactly for a negative value (Format07RoundTrip, Format07Width, Format07Injective) |
| Format.DigitsRoundTrip | applications/createxdmf/main.cpp:155 | reading the digits of x back gives x |
| Format.LeadingZeros | applications/createxdmf/main.cpp:208 | leading zeros keep a digit string's value |
| Format.DigitsLength | applications/createxdmf/main.cpp:208 | x has at most k digits iff x < 10^k |
| Format.PaddedDigits | applications/createxdmf/main.cpp:208 | zero-padded digits stay digits with the same value |
| Format.Format07RoundTrip | applications/createxdmf/main.cpp:208-209 | the %07d text is an optionally signed digit string that reads back as t |
| Format.Format07Injective | applications/createxdmf/main.cpp:224-225 | distinct steps give distinct %07d texts |
| Format.Format07Width | applications/createxdmf/main.cpp:208-209 | %07d is at least 7 wide, and exactly 7 iff -10^6 < x < 10^7 |
| Format.Format07Digits | applications/createxdmf/main.cpp:224-225 | the %07d text of a non-negative step is all digits |
| Format.FormatDRoundTrip | applications/createxdmf/main.cpp:155-156 | the %d text reads back as the value |
| Xdmf.Viewer.constructor | applications/createxdmf/main.cpp:138-141 | opening a viewer on a path: nothing printed yet |
| Xdmf.Viewer.Printf | applications/createxdmf/main.cpp:144-236 | a printf appends its chunk to what the file holds |
| Xdmf.Render | applications/createxdmf/main.cpp:144-236 | the exact text of each PetscViewerASCIIPrintf call of writeSingleXDMF, format string and arguments, indentation and blank lines included |
| Xdmf.SolutionFile | applications/createxdmf/main.cpp:224-225 | the data file of step t: solution/ then t as %07d then .h5 (SolutionFileInjective, SolutionFileWidth) |
| Xdmf.FilePath | applications/createxdmf/main.cpp:138 | directory + "/" + name + ".xmf" (CreateXdmf.FilePathInjective) |
| Xdmf.Times | applications/createxdmf/main.cpp:203 | the values t takes in the loop for t = bg while t <= ed by step (TimesShape, TimesIncreasing, TimesCount) |
| Xdmf.Head | applications/createxdmf/main.cpp:144-200 | the printf calls before the first time step: prologue, domain, topology and geometry, and the opening of the temporal collection (HeadShape, HeadCoordinates, HeadNest) |
| Xdmf.Snapshot | applications/createxdmf/main.cpp:205-230 | the eleven printf calls of one uniform grid for step t (SnapshotNest) |
| Xdmf.Tail | applications/createxdmf/main.cpp:233-236 | the three closing printf calls: the collection, the domain and the Xdmf block |
| Xdmf.Document | applications/createxdmf/main.cpp:144-236 | all printf calls of writeSingleXDMF in order: head, one snapshot per time step, tail (DocumentText, DocumentSnapshots, DocumentEnds, DocumentNest) |
| Xdmf.WritePrologue | applications/createxdmf/main.cpp:144-158 | prints the declaration, the DOCTYPE opening, CaseDir, the entities N<dir> = n[dir] for each direction below dim, and the DOCTYPE end |
| Xdmf.WriteDomain | applications/createxdmf/main.cpp:161-180 | prints the Xdmf and Domain openings, the topology and the geometry's opening |
| Xdmf.WriteGeometry | applications/createxdmf/main.cpp:182-200 | prints one coordinate DataItem per direction below dim, the geometry end and the temporal collection's opening |
| Xdmf.WriteSnapshot | applications/createxdmf/main.cpp:205-230 | prints the eleven chunks of the uniform grid of step t |
| Xdmf.WriteSnapshots | applications/createxdmf/main.cpp:203-231 | the step loop prints the snapshots of bg, bg + step, ... up to ed, in order |
| Xdmf.WriteSingleXdmf | applications/createxdmf/main.cpp:125-241 | opens directory/name.xmf and prints exactly Document(name, dim, n, bg, ed, step) into it |
| Xdmf.SnapshotsCons | applications/createxdmf/main.cpp:203-231 | the snapshots of [t] + ts are t's snapshot followed by those of ts |
| XdmfProperties.TimesShape | applications/createxdmf/main.cpp:203 | the m-th step is bg + m * step and does not exceed ed; the next step would; there is none iff bg > ed |
| XdmfProperties.TimesIncreasing | applications/createxdmf/main.cpp:203 | with a positive step the steps strictly increase |
| XdmfProperties.TimesCount | applications/createxdmf/main.cpp:203 | the loop runs (ed - bg) / step + 1 times when bg <= ed |
| XdmfProperties.TextConcat | applications/createxdmf/main.cpp:144-236 | the text of a + b is the text of a followed by that of b |
| XdmfProperties.DocumentText | applications/createxdmf/main.cpp:144-236 | the file's text is the head's, then each snapshot's, then the tail's |
| XdmfProperties.EntitiesAt | applications/createxdmf/main.cpp:153-157 | exactly k entity lines, the d-th declaring N<d> = n[d] |
| XdmfProperties.CoordinatesAt | applications/createxdmf/main.cpp:182-193 | exactly k coordinate arrays of four chunks, the d-th naming grid.h5:/name/<d> |
| XdmfProperties.HeadShape | applications/createxdmf/main.cpp:144-200 | the head has 14 + 5 * dim chunks, with the entity of direction d at position 3 + d |
| XdmfProperties.HeadCoordinates | applications/createxdmf/main.cpp:182-193 | the coordinate array of direction d sits in the head right after the topology, in direction order |
| XdmfProperties.SnapshotsAt | applications/createxdmf/main.cpp:203-231 | the m-th block of eleven chunks is the snapshot of the m-th step |
| XdmfProperties.DocumentSnapshots | applications/createxdmf/main.cpp:203-231 | the document has one uniform grid per step, the m-th for step bg + m * step, between the head and the three closing chunks |
| XdmfProperties.DocumentEnds | applications/createxdmf/main.cpp:144-145 | the document begins with the XML declaration and ends with the collection, domain and Xdmf end tags |
| XdmfProperties.TopologyTypeText | applications/createxdmf/main.cpp:170-171 | TopologyType is 3DRectMesh when dim == 3 and 2DRectMesh otherwise |
| XdmfProperties.ExtentsText | applications/createxdmf/main.cpp:172-174 | the extents read "&Nz; &Ny; &Nx;" when dim == 3 and "&Ny; &Nx;" otherwise |
| XdmfProperties.GeometryTypeText | applications/createxdmf/main.cpp:179-180 | GeometryType is VXVYVZ when dim == 3 and VXVY otherwise |
| XdmfProperties.TimeValueReadable | applications/createxdmf/main.cpp:208-209 | the Time element's value reads back as t |
| XdmfProperties.EntityReadable | applications/createxdmf/main.cpp:155-156 | the entity N<dir> declares a value that reads back as n[dir] |
| XdmfProperties.SolutionFileInjective | applications/createxdmf/main.cpp:224-225 | distinct steps read distinct solution files |
| XdmfProperties.SolutionFileWidth | applications/createxdmf/main.cpp:224-225 | a step in [0, 10^7) is named by exactly seven digits |
| XdmfProperties.SnapshotFilesDistinct | applications/createxdmf/main.cpp:203-225 | no two uniform grids of one document read the same solution file |
| XdmfProperties.NestShift | applications/createxdmf/main.cpp:144-236 | a suffix nests the same whatever precedes it |
| XdmfProperties.NestConcat | applications/createxdmf/main.cpp:144-236 | nesting through a + b is nesting through a, then through b |
| XdmfProperties.NestThrough | applications/createxdmf/main.cpp:144-236 | chaining the nesting of two consecutive parts |
| XdmfProperties.EntitiesNest | applications/createxdmf/main.cpp:153-157 | the entity declarations open and close nothing |
| XdmfProperties.CoordinatesNest | applications/createxdmf/main.cpp:182-193 | every coordinate DataItem is closed after its path |
| XdmfProperties.SnapshotNest | applications/createxdmf/main.cpp:205-230 | a uniform grid closes its Attribute, DataItem and Grid in reverse order of opening |
| XdmfProperties.SnapshotsNest | applications/createxdmf/main.cpp:203-231 | every uniform grid closes what it opens |
| XdmfProperties.HeadNest | applications/createxdmf/main.cpp:144-200 | after the head only the Xdmf block, the domain and the temporal collection are open |
| XdmfProperties.DocumentNest | applications/createxdmf/main.cpp:144-236 | the whole document is well nested: every element opened is closed, innermost first, and nothing is left open |
| CreateXdmf.ResolveRange | applications/createxdmf/main.cpp:72-79 | succeeds iff ed and step each come from an option or a parameter; each given option wins; otherwise bg = startStep (0 if absent), ed = bg + nt, step = nsave; a missing nt is reported before a missing nsave |
| CreateXdmf.Fields | applications/createxdmf/main.cpp:83-117 | seven fields in 3D and four otherwise, each with three sizes |
| CreateXdmf.Write | applications/createxdmf/main.cpp:83-117 | one call of writeSingleXDMF leaves the file of that field |
| CreateXdmf.WritePlanar | applications/createxdmf/main.cpp:83-100 | writes u, v, p and then wz with sizes (n[4][0], n[4][1], n[3][2]) put into wn |
| CreateXdmf.WriteSpatial | applications/createxdmf/main.cpp:102-117 | writes w, then wx and wy with their sizes put into the reused wn |
| CreateXdmf.WriteAll | applications/createxdmf/main.cpp:47-117 | a missing parameter is the only error and writes nothing; otherwise the files are exactly those of Fields(dim, n) over the resolved range |
| CreateXdmf.OptionsWin | applications/createxdmf/main.cpp:72-79 | with all three options given, the range is theirs whatever the settings |
| CreateXdmf.DefaultRange | applications/createxdmf/main.cpp:72-79 | with no options, the range starts at startStep (or 0), spans nt steps and strides by nsave |
| CreateXdmf.FieldNamesDistinct | applications/createxdmf/main.cpp:83-117 | the fields written have pairwise distinct names |
| CreateXdmf.FilePathInjective | applications/createxdmf/main.cpp:138 | distinct names in one directory give distinct file paths |
| CreateXdmf.FilesDistinct | applications/createxdmf/main.cpp:83-138 | main writes each field to a file of its own |
| CreateXdmf.ThreeDimensionalFields | applications/createxdmf/main.cpp:102-117 | w is written iff dim == 3 |

## Left out

- PETSc matrix creation and configuration (MatSetFromOptions, MatSetUp, MAT_KEEP_NONZERO_PATTERN): foreign library set-up. What remains is the global sizes, the ignore-zero option and the preallocation bound `SparseMatrix.Prealloc`, which is a constant the rows are proved to respect.
- MatAssemblyBegin/End is a collective MPI operation that moves off-process entries. It is modelled as a flag set after the loops. Local versus global ownership and the communicator are not modelled: the matrix is one global map.
- SparseMatrix.Insert: a negative row or column is reported as an out-of-range error, whereas PETSc silently skips negative indices. The packed indices used here are never negative.
- SparseMatrix.Insert: MatSetValue's other failure causes (memory, a new nonzero outside the preallocation when that is an error) are not modelled. Only an index outside the global sizes fails.
- Gradient.Kernel: requires a nonzero cell width in physical mode, because `real` division by zero is undefined. IEEE infinities and rounding of `1.0/dL` are not modelled: coefficients are exact reals.
- Gradient.CreateGradient: mesh construction is not modelled. The owned boxes, the cell widths and getPackedGlobalIndex are parameters of the `Mesh` datatype; getPackedGlobalIndex is a total function that may fail. Its injectivity is a hypothesis of the lemmas that need it (`RowsInjective`), not a precondition of the assembly.
- PETSc error codes are the `Fault` datatype, and CHKERRQ is the early return of the first fault. Nothing else about PETSc error handling is modelled.
- PetscInitialize/PetscFinalize, YAML parsing, `PetscOptionsGetInt` and `createMesh` are left out: settings and options are values of `CreateXdmf.Settings` and `CreateXdmf.Options`, and the mesh sizes are a parameter.
- A YAML lookup that throws (`as<PetscInt>()` on a missing nt or nsave) is modelled as a `MissingParameter` result. A malformed value and a missing `directory` key are not modelled.
- The files themselves are left out: output is the sequence of printf calls recorded by `Xdmf.Viewer` (its text is `Text`). PetscViewerDestroy, and the rank-0-only printing of an ASCII viewer, are not modelled.
- `type::dir2str` is not part of this model. `Xdmf.DirName` assumes it maps directions 0, 1 and 2 to "x", "y" and "z".
- Xdmf.WriteSingleXdmf: requires `step > 0 || bg > ed`, the case in which the time loop terminates. The source does not check it, and loops forever otherwise.
- PetscInt arithmetic is unbounded here. `t += step` and `bg + nt` are not modelled as overflowing, and passing a 64-bit PetscInt to `%d`/`%07d` is taken to print its value.
- XdmfProperties.EffectOf: which chunk opens or closes which XML element is a table read off `Render`'s text, not computed by parsing it; `DocumentNest` is about the element structure that table records.
- Format.ParseInt: a reader of optionally signed decimals, defined only to state that `%d` and `%07d` lose nothing. The source never parses.
