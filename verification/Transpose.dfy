/** Byte transposition of record matrices, applied by the writer before deflate and undone by the reader. */
module Transpose {
  import opened Wire

  /** Position of cell (hi, lo) in a matrix stored in runs of `width` cells. */
  function Cell(hi: nat, lo: nat, width: nat): nat {
    hi * width + lo
  }

  function Hi(k: nat, width: nat): nat
    requires width > 0
  {
    k / width
  }

  function Lo(k: nat, width: nat): nat
    requires width > 0
  {
    k % width
  }

  lemma MulMono(x: nat, y: nat, m: nat)
    requires x <= y
    ensures x * m <= y * m
  {
    assert y * m == x * m + (y - x) * m;
  }

  lemma CellOf(hi: nat, lo: nat, a: nat, b: nat)
    requires hi < a && lo < b
    ensures Cell(hi, lo, b) < a * b
    ensures Hi(Cell(hi, lo, b), b) == hi && Lo(Cell(hi, lo, b), b) == lo
  {
    MulMono(hi + 1, a, b);
    ModUnique(Cell(hi, lo, b), b, hi, lo);
  }

  lemma PositionOf(k: nat, a: nat, b: nat)
    requires k < a * b
    ensures b > 0 && Hi(k, b) < a && Lo(k, b) < b && k == Cell(Hi(k, b), Lo(k, b), b)
  {
    if k / b >= a {
      MulMono(a, k / b, b);
    }
  }

  lemma CellsOf(a: nat, b: nat)
    ensures forall hi: nat, lo: nat :: hi < a && lo < b ==>
              Cell(hi, lo, b) < a * b && Hi(Cell(hi, lo, b), b) == hi && Lo(Cell(hi, lo, b), b) == lo
  {
    forall hi: nat, lo: nat | hi < a && lo < b
      ensures Cell(hi, lo, b) < a * b && Hi(Cell(hi, lo, b), b) == hi && Lo(Cell(hi, lo, b), b) == lo
    {
      CellOf(hi, lo, a, b);
    }
  }

  /** Whole rows in n bytes. */
  function Rows(n: nat, cols: nat): nat
    requires cols > 0
  {
    n / cols
  }

  /** Bytes that belong to whole rows. */
  function Body(n: nat, cols: nat): (m: nat)
    requires cols > 0
    ensures m <= n
  {
    Rows(n, cols) * cols
  }

  /** Both ways of cutting the body into cells stay inside it, and a position tells its cell. */
  lemma Grid(n: nat, cols: nat)
    requires cols > 0
    ensures forall i: nat, j: nat :: i < Rows(n, cols) && j < cols ==>
              Cell(i, j, cols) < Body(n, cols) && Hi(Cell(i, j, cols), cols) == i && Lo(Cell(i, j, cols), cols) == j
    ensures forall i: nat, j: nat :: i < Rows(n, cols) && j < cols ==>
              var rows := Rows(n, cols);
              Cell(j, i, rows) < Body(n, cols) && Hi(Cell(j, i, rows), rows) == j && Lo(Cell(j, i, rows), rows) == i
  {
    var rows := Rows(n, cols);
    assert cols * rows == rows * cols;
    CellsOf(rows, cols);
    CellsOf(cols, rows);
  }

  /** Position k of the body as a cell of the row-major and of the column-major matrix. */
  lemma GridPosition(n: nat, cols: nat, k: nat)
    requires cols > 0 && k < Body(n, cols)
    ensures Rows(n, cols) > 0
    ensures Hi(k, cols) < Rows(n, cols) && Lo(k, cols) < cols && k == Cell(Hi(k, cols), Lo(k, cols), cols)
    ensures Hi(k, Rows(n, cols)) < cols && Lo(k, Rows(n, cols)) < Rows(n, cols)
    ensures k == Cell(Hi(k, Rows(n, cols)), Lo(k, Rows(n, cols)), Rows(n, cols))
  {
    var rows := Rows(n, cols);
    assert cols * rows == rows * cols;
    PositionOf(k, rows, cols);
    PositionOf(k, cols, rows);
  }

  /** Byte j of row i goes to place i of column j; remainder bytes stay in place. */
  function TransposeSource(n: nat, cols: nat, k: nat): nat
    requires cols > 0
  {
    if k < Body(n, cols) then
      GridPosition(n, cols, k); Cell(Lo(k, Rows(n, cols)), Hi(k, Rows(n, cols)), cols)
    else k
  }

  /** Place i of column j goes back to byte j of row i. */
  function UntransposeSource(n: nat, cols: nat, k: nat): nat
    requires cols > 0
  {
    if k < Body(n, cols) then Cell(Lo(k, cols), Hi(k, cols), Rows(n, cols)) else k
  }

  /** The two position maps are mutually inverse permutations of 0..n. */
  lemma SourcesInverse(n: nat, cols: nat, k: nat)
    requires cols > 0 && k < n
    ensures TransposeSource(n, cols, k) < n && UntransposeSource(n, cols, k) < n
    ensures UntransposeSource(n, cols, TransposeSource(n, cols, k)) == k
    ensures TransposeSource(n, cols, UntransposeSource(n, cols, k)) == k
  {
    if k < Body(n, cols) {
      var rows := Rows(n, cols);
      assert Body(n, cols) == rows * cols == cols * rows;
      GridPosition(n, cols, k);
      CellOf(Lo(k, rows), Hi(k, rows), rows, cols);
      CellOf(Lo(k, cols), Hi(k, cols), cols, rows);
      hide Cell, Body, Rows, Hi, Lo;
    }
  }

  function Transposed(s: Bytes, cols: nat): (r: Bytes)
    requires cols > 0
    ensures |r| == |s|
  {
    seq(|s|, k requires 0 <= k < |s| => SourcesInverse(|s|, cols, k); s[TransposeSource(|s|, cols, k)])
  }

  /** The reader's inverse, with its guard. */
  function Untransposed(s: Bytes, cols: nat): (r: Bytes)
    ensures |r| == |s|
  {
    if ReaderSkips(|s|, cols) then s
    else
      seq(|s|, k requires 0 <= k < |s| => SourcesInverse(|s|, cols, k); s[UntransposeSource(|s|, cols, k)])
  }

  /** The writer's guard: record streams longer than one record. */
  predicate WriterTransposes(n: nat, recSize: nat) {
    recSize > 1 && n > recSize
  }

  predicate ReaderSkips(n: nat, cols: nat) {
    cols <= 1 || cols >= n
  }

  lemma UntransposeTranspose(s: Bytes, cols: nat)
    requires WriterTransposes(|s|, cols)
    ensures !ReaderSkips(|s|, cols)
    ensures Untransposed(Transposed(s, cols), cols) == s
    ensures Transposed(Untransposed(s, cols), cols) == s
  {
    forall k | 0 <= k < |s|
      ensures Untransposed(Transposed(s, cols), cols)[k] == s[k]
      ensures Transposed(Untransposed(s, cols), cols)[k] == s[k]
    {
      SourcesInverse(|s|, cols, k);
    }
  }

  /** Transposing moves every byte to exactly one place. */
  lemma TransposePermutes(s: Bytes, cols: nat, k: nat)
    requires cols > 0 && k < |s|
    ensures UntransposeSource(|s|, cols, k) < |s|
    ensures Transposed(s, cols)[UntransposeSource(|s|, cols, k)] == s[k]
    ensures forall j: nat :: j < |s| && TransposeSource(|s|, cols, j) == k ==> j == UntransposeSource(|s|, cols, k)
  {
    SourcesInverse(|s|, cols, k);
    forall j: nat | j < |s| && TransposeSource(|s|, cols, j) == k
      ensures j == UntransposeSource(|s|, cols, k)
    {
      SourcesInverse(|s|, cols, j);
    }
  }

  /** Fills the output column by column, row after row of the input. */
  method TransposeInto(input: Bytes, cols: nat) returns (out: Bytes)
    requires cols > 0
    ensures out == Transposed(input, cols)
  {
    var n := |input|;
    var rows, body := Rows(n, cols), Body(n, cols);
    var a := new Byte[n](_ => 0);
    Grid(n, cols);
    hide Cell, Rows, Body, Hi, Lo;
    for i := 0 to rows
      invariant forall i': nat, j': nat :: i' < i && j' < cols ==> a[Cell(j', i', rows)] == input[Cell(i', j', cols)]
    {
      for j := 0 to cols
        invariant forall i': nat, j': nat :: i' < i && j' < cols ==> a[Cell(j', i', rows)] == input[Cell(i', j', cols)]
        invariant forall j': nat :: j' < j ==> a[Cell(j', i, rows)] == input[Cell(i, j', cols)]
      {
        a[Cell(j, i, rows)] := input[Cell(i, j, cols)];
      }
    }
    forall k | body <= k < n {
      a[k] := input[k];
    }
    out := a[..];
    forall k | 0 <= k < n
      ensures out[k] == Transposed(input, cols)[k]
    {
      if k < body {
        GridPosition(n, cols, k);
      }
    }
  }

  /** Fills the output row-wise from column after column of the input. */
  method Untranspose(input: Bytes, cols: nat) returns (out: Bytes)
    ensures out == Untransposed(input, cols)
  {
    if cols <= 1 || cols >= |input| {
      return input;
    }
    var n := |input|;
    var rows, body := Rows(n, cols), Body(n, cols);
    var a := new Byte[n](_ => 0);
    Grid(n, cols);
    hide Cell, Rows, Body, Hi, Lo;
    for j := 0 to cols
      invariant forall i': nat, j': nat :: i' < rows && j' < j ==> a[Cell(i', j', cols)] == input[Cell(j', i', rows)]
    {
      for i := 0 to rows
        invariant forall i': nat, j': nat :: i' < rows && j' < j ==> a[Cell(i', j', cols)] == input[Cell(j', i', rows)]
        invariant forall i': nat :: i' < i ==> a[Cell(i', j, cols)] == input[Cell(j, i', rows)]
      {
        a[Cell(i, j, cols)] := input[Cell(j, i, rows)];
      }
    }
    forall k | body <= k < n {
      a[k] := input[k];
    }
    out := a[..];
    forall k | 0 <= k < n
      ensures out[k] == Untransposed(input, cols)[k]
    {
      if k < body {
        GridPosition(n, cols, k);
      }
    }
  }
}
