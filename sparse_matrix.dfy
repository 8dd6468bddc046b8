/**
 * The distributed sparse matrix that createGradient fills, reduced to what
 * the assembly relies on: a map from (row, column) to a value, an
 * ignore-zero-entries option, MatSetValue with INSERT_VALUES semantics and a
 * flag for final assembly.
 */
module SparseMatrix {
  import opened Wrappers

  /** Global (row, column) position of a stored entry. */
  type Index = (int, int)

  type Entries = map<Index, real>

  /** Nonzeros preallocated for every row of the gradient operator. */
  const Prealloc: nat := 2

  /** Why MatSetValue refused a value. */
  datatype SetError = OutOfRange(row: int, col: int)

  /**
   * MatSetValue(G, r, c, v, INSERT_VALUES): an index outside the global
   * sizes is an error; an exact zero is dropped when the ignore-zero option
   * is on; otherwise the value replaces whatever was stored at (r, c).
   */
  function Insert(m: Entries, rows: nat, cols: nat, ignoreZero: bool,
                  r: int, c: int, v: real): (res: Result<Entries, SetError>)
    ensures res.Failure? <==> !(0 <= r < rows && 0 <= c < cols)
    ensures res.Failure? ==> res.error == OutOfRange(r, c)
    ensures res.Success? ==>
      forall key | key in m && key != (r, c) :: key in res.value && res.value[key] == m[key]
    ensures res.Success? ==> forall key | key in res.value && key != (r, c) :: key in m
    ensures res.Success? && ignoreZero && v == 0.0 ==> res.value == m
    ensures res.Success? && !(ignoreZero && v == 0.0) ==>
      (r, c) in res.value && res.value[(r, c)] == v
  {
    if !(0 <= r < rows && 0 <= c < cols) then Failure(OutOfRange(r, c))
    else if ignoreZero && v == 0.0 then Success(m)
    else Success(m[(r, c) := v])
  }

  /** The stored entries of row r, keyed by column. */
  function RowEntries(m: Entries, r: int): (row: map<int, real>)
    ensures forall c :: c in row <==> (r, c) in m
    ensures forall c | c in row :: row[c] == m[(r, c)]
  {
    map key | key in m && key.0 == r :: key.1 := m[key]
  }

  /** The effect of one write on a single row, seen by column. */
  function WriteRow(row: map<int, real>, c: int, v: real, ignoreZero: bool): map<int, real>
  {
    if ignoreZero && v == 0.0 then row else row[c := v]
  }

  /** Updating (r, c) changes row r at column c and no other row. */
  lemma UpdateRows(m: Entries, r: int, c: int, v: real)
    ensures RowEntries(m[(r, c) := v], r) == RowEntries(m, r)[c := v]
    ensures forall r' | r' != r :: RowEntries(m[(r, c) := v], r') == RowEntries(m, r')
  {
  }

  /**
   * A successful write touches only row r, and there it acts as WriteRow:
   * re-writing a column replaces, it never accumulates.
   */
  lemma InsertRows(m: Entries, rows: nat, cols: nat, ignoreZero: bool,
                   r: int, c: int, v: real, m': Entries)
    requires Insert(m, rows, cols, ignoreZero, r, c, v) == Success(m')
    ensures RowEntries(m', r) == WriteRow(RowEntries(m, r), c, v, ignoreZero)
    ensures forall r' | r' != r :: RowEntries(m', r') == RowEntries(m, r')
    ensures forall key | key in m' :: key in m || key.0 == r
  {
    if !(ignoreZero && v == 0.0) {
      assert m' == m[(r, c) := v];
      UpdateRows(m, r, c, v);
    }
  }

  /** A PETSc Mat as createGradient uses it. */
  class Matrix {
    /** Global number of rows and of columns. */
    const rows: nat
    const cols: nat
    /** The values inserted so far. */
    var entries: Entries
    /** MAT_IGNORE_ZERO_ENTRIES. */
    var ignoreZero: bool
    /** Set by MatAssemblyBegin/End; only then may the matrix be used. */
    var assembled: bool

    /** MatCreate followed by MatSetSizes: an empty, unassembled matrix. */
    constructor (rows: nat, cols: nat)
      ensures this.rows == rows && this.cols == cols
      ensures entries == map[] && !ignoreZero && !assembled
    {
      this.rows := rows;
      this.cols := cols;
      entries := map[];
      ignoreZero := false;
      assembled := false;
    }

    /** MatSetOption(G, MAT_IGNORE_ZERO_ENTRIES, flag). */
    method SetIgnoreZeroEntries(flag: bool)
      modifies this
      ensures ignoreZero == flag
      ensures entries == old(entries) && assembled == old(assembled)
    {
      ignoreZero := flag;
    }

    /** MatSetValue(G, r, c, v, INSERT_VALUES); a returned error leaves the matrix as it was. */
    method SetValue(r: int, c: int, v: real) returns (err: Option<SetError>)
      modifies this
      ensures ignoreZero == old(ignoreZero) && assembled == old(assembled)
      ensures match Insert(old(entries), rows, cols, old(ignoreZero), r, c, v)
              case Success(m) => err == None && entries == m
              case Failure(e) => err == Some(e) && entries == old(entries)
    {
      var res := Insert(entries, rows, cols, ignoreZero, r, c, v);
      match res
      case Success(m) =>
        entries := m;
        err := None;
      case Failure(e) =>
        err := Some(e);
    }

    /** MatAssemblyBegin/End with MAT_FINAL_ASSEMBLY: the entries are committed. */
    method Assemble()
      modifies this
      ensures assembled
      ensures entries == old(entries) && ignoreZero == old(ignoreZero)
    {
      assembled := true;
    }
  }
}
