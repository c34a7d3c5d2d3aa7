/**
 * The slice of pandas the scripts use: a table is an ordered list of column names and a list of
 * rows, each row a map from column name to cell; a missing cell (NaN) is `None`.
 */
module Tables {
  import opened Base

  datatype Scalar = IntVal(i: int) | NumVal(r: real) | StrVal(s: string)

  /** A DataFrame cell; `None` is pandas' missing value. */
  type Cell = Option<Scalar>

  type Row = map<string, Cell>

  datatype Table = Table(columns: seq<string>, rows: seq<Row>)

  /** Column names are unique and every row has exactly the table's columns. */
  predicate WellFormed(t: Table) {
    Distinct(t.columns) && forall k :: 0 <= k < |t.rows| ==> t.rows[k].Keys == set c | c in t.columns
  }

  /** Python's `==` on two scalars: an `int` equals a `float` of the same value. */
  predicate ScalarEq(a: Scalar, b: Scalar) {
    match (a, b)
    case (IntVal(x), IntVal(y)) => x == y
    case (NumVal(x), NumVal(y)) => x == y
    case (IntVal(x), NumVal(y)) => x as real == y
    case (NumVal(x), IntVal(y)) => x == y as real
    case (StrVal(x), StrVal(y)) => x == y
    case _ => false
  }

  /** pandas' element-wise `==`: a missing value equals nothing, not even another missing value. */
  predicate CellEq(a: Cell, b: Cell) {
    a.Some? && b.Some? && ScalarEq(a.value, b.value)
  }

  /** Equality as `drop_duplicates` sees it: two missing values are the same. */
  predicate CellSame(a: Cell, b: Cell) {
    (a.None? && b.None?) || CellEq(a, b)
  }

  /** The cell of `r` under `c`; a column the row lacks reads as missing. */
  function Get(r: Row, c: string): Cell {
    if c in r then r[c] else None
  }

  /** Two columns hold the same values in every row. */
  predicate SameColumn(t: Table, a: string, b: string) {
    forall k :: 0 <= k < |t.rows| ==> CellSame(Get(t.rows[k], a), Get(t.rows[k], b))
  }

  /** The row restricted (and padded with missing cells) to exactly `cols`. */
  function Reindex(r: Row, cols: seq<string>): (r': Row)
    ensures r'.Keys == set c | c in cols
    ensures forall c :: c in cols ==> r'[c] == Get(r, c)
  {
    map c | c in cols :: Get(r, c)
  }

  /** Narrowing a reindexed row to fewer columns is reindexing it to those columns directly. */
  lemma ReindexTwice(r: Row, wide: seq<string>, narrow: seq<string>)
    requires forall c :: c in narrow ==> c in wide
    ensures Reindex(Reindex(r, wide), narrow) == Reindex(r, narrow)
  {
  }

  /** A row that has exactly the given columns is its own reindexing. */
  lemma ReindexOwnColumns(r: Row, cols: seq<string>)
    requires r.Keys == set c | c in cols
    ensures Reindex(r, cols) == r
  {
  }

  /** Column `j` repeats the values of an earlier column. */
  predicate RepeatsEarlier(t: Table, j: nat)
    requires j < |t.columns|
  {
    exists i :: 0 <= i < j && SameColumn(t, t.columns[i], t.columns[j])
  }

  /** The columns among the first `n` that do not repeat an earlier one, in order. */
  function FirstOfEach(t: Table, n: nat): (kept: seq<string>)
    requires n <= |t.columns|
    ensures forall c :: c in kept ==> c in t.columns[..n]
  {
    if n == 0 then []
    else FirstOfEach(t, n - 1) + (if RepeatsEarlier(t, n - 1) then [] else [t.columns[n - 1]])
  }

  lemma {:induction false} FirstOfEachExact(t: Table, n: nat, j: nat)
    requires n <= |t.columns| && Distinct(t.columns) && j < n
    ensures t.columns[j] in FirstOfEach(t, n) <==> !RepeatsEarlier(t, j)
  {
    var prev := FirstOfEach(t, n - 1);
    assert FirstOfEach(t, n) == prev + (if RepeatsEarlier(t, n - 1) then [] else [t.columns[n - 1]]);
    if j < n - 1 {
      FirstOfEachExact(t, n - 1, j);
      assert t.columns[j] != t.columns[n - 1];
    } else {
      var front := t.columns[..n - 1];
      assert t.columns[j] !in front by {
        forall i | 0 <= i < |front| ensures front[i] != t.columns[j] {
          assert front[i] == t.columns[i];
        }
      }
    }
  }

  /**
   * `df.T.drop_duplicates().T`: a column whose values repeat those of an earlier column is
   * dropped; the first of each group of equal columns is kept.
   */
  function DropDuplicateColumns(t: Table): (r: Table)
    ensures r.columns == FirstOfEach(t, |t.columns|)
    ensures |r.rows| == |t.rows|
    ensures forall k :: 0 <= k < |t.rows| ==> r.rows[k] == Reindex(t.rows[k], r.columns)
  {
    var cols := FirstOfEach(t, |t.columns|);
    Table(cols, seq(|t.rows|, k requires 0 <= k < |t.rows| => Reindex(t.rows[k], cols)))
  }

  /** Which columns survive `DropDuplicateColumns`: exactly those that repeat no earlier column. */
  lemma DropDuplicateColumnsKeeps(t: Table, j: nat)
    requires Distinct(t.columns) && j < |t.columns|
    ensures t.columns[j] in DropDuplicateColumns(t).columns <==> !RepeatsEarlier(t, j)
  {
    FirstOfEachExact(t, |t.columns|, j);
  }

  /** `b`'s columns that `a` lacks, in `b`'s order. */
  function NewColumns(a: seq<string>, b: seq<string>): (r: seq<string>)
    ensures forall c :: c in r <==> c in b && c !in a
  {
    if |b| == 0 then []
    else (if b[0] in a then [] else [b[0]]) + NewColumns(a, b[1..])
  }

  /**
   * `pd.concat([a, b])`: the rows of `a` then the rows of `b`, over the union of the columns
   * (those of `a` first); a cell a table lacks is missing.
   */
  function Concat(a: Table, b: Table): (r: Table)
    ensures r.columns == a.columns + NewColumns(a.columns, b.columns)
    ensures |r.rows| == |a.rows| + |b.rows|
    ensures forall k :: 0 <= k < |a.rows| ==> r.rows[k] == Reindex(a.rows[k], r.columns)
    ensures forall k :: 0 <= k < |b.rows| ==> r.rows[|a.rows| + k] == Reindex(b.rows[k], r.columns)
  {
    var cols := a.columns + NewColumns(a.columns, b.columns);
    Table(cols, seq(|a.rows|, k requires 0 <= k < |a.rows| => Reindex(a.rows[k], cols))
      + seq(|b.rows|, k requires 0 <= k < |b.rows| => Reindex(b.rows[k], cols)))
  }

  /**
   * `df[name] = value`: every row gets `value` under `name`; a new column is appended at the end,
   * an existing one keeps its place.
   */
  function SetColumn(t: Table, name: string, value: Scalar): (r: Table)
    ensures r.columns == if name in t.columns then t.columns else t.columns + [name]
    ensures |r.rows| == |t.rows|
    ensures forall k :: 0 <= k < |t.rows| ==> r.rows[k] == t.rows[k][name := Some(value)]
  {
    Table(if name in t.columns then t.columns else t.columns + [name],
      seq(|t.rows|, k requires 0 <= k < |t.rows| => t.rows[k][name := Some(value)]))
  }

  lemma SetColumnWellFormed(t: Table, name: string, value: Scalar)
    requires WellFormed(t)
    ensures WellFormed(SetColumn(t, name, value))
  {
    var r := SetColumn(t, name, value);
    forall k | 0 <= k < |r.rows| ensures r.rows[k].Keys == set c | c in r.columns {
      assert t.rows[k].Keys == set c | c in t.columns;
    }
  }

  /** `fillna(0)` on one cell. */
  function FillCell(c: Cell): Cell {
    if c.None? then Some(IntVal(0)) else c
  }

  /**
   * `df.fillna(0)`: every missing cell becomes 0; every other cell, the column names and the
   * order of the rows are unchanged.
   */
  function FillMissing(t: Table): (r: Table)
    ensures r.columns == t.columns && |r.rows| == |t.rows|
    ensures forall k :: 0 <= k < |t.rows| ==> r.rows[k].Keys == t.rows[k].Keys
    ensures forall k, c :: 0 <= k < |t.rows| && c in t.rows[k] ==>
      r.rows[k][c].Some? && (t.rows[k][c].Some? ==> r.rows[k][c] == t.rows[k][c])
    ensures forall k, c :: 0 <= k < |t.rows| && c in t.rows[k] && t.rows[k][c].None? ==>
      r.rows[k][c] == Some(IntVal(0))
  {
    Table(t.columns, seq(|t.rows|, k requires 0 <= k < |t.rows| =>
      map c | c in t.rows[k] :: FillCell(t.rows[k][c])))
  }

  /** `df.to_csv(columns=cols)` for columns the table has: the rows narrowed to `cols`. */
  function Project(t: Table, cols: seq<string>): (r: Table)
    ensures r.columns == cols && |r.rows| == |t.rows|
    ensures forall k :: 0 <= k < |t.rows| ==> r.rows[k] == Reindex(t.rows[k], cols)
  {
    Table(cols, seq(|t.rows|, k requires 0 <= k < |t.rows| => Reindex(t.rows[k], cols)))
  }
}
