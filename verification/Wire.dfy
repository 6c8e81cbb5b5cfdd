/** Bytes, little-endian integers and byte ranges of a file, shared by every other module. */
module Wire {

  type Byte = x: int | 0 <= x < 256
  type Bytes = seq<Byte>

  /** What a reader reports instead of a value. */
  datatype Error =
    | OutOfBounds
    | InvalidBlock
    | Unsupported
    | ColumnStorage
    | NotMDF4
    | Unfinalized
    | Gap
    | CyclicChain
    | NoSignalData
    | BadRecord
    | InflateFailed
    | Syntax
    | BadArgument

  datatype Option<+T> = None | Some(value: T)

  datatype Result<+T> = Ok(value: T) | Err(error: Error) {
    predicate IsFailure() { Err? }

    function PropagateFailure<U>(): Result<U>
      requires Err?
    {
      Err(error)
    }

    function Extract(): T
      requires Ok?
    {
      value
    }
  }

  // ---- fixed-width unsigned integers ----

  const TWO_32: nat := 0x1_0000_0000
  const TWO_63: nat := 0x8000_0000_0000_0000
  const TWO_64: nat := 0x1_0000_0000_0000_0000

  function Pow256(n: nat): (p: nat)
    ensures p >= 1
  {
    if n == 0 then 1 else 256 * Pow256(n - 1)
  }

  lemma Pow256Widths()
    ensures Pow256(1) == 256
    ensures Pow256(2) == 0x1_0000
    ensures Pow256(4) == TWO_32
    ensures Pow256(8) == TWO_64
  {
    assert Pow256(2) == 256 * Pow256(1);
    assert Pow256(4) == 256 * Pow256(3) == 256 * (256 * Pow256(2));
    assert Pow256(6) == 256 * Pow256(5) == 256 * (256 * Pow256(4));
    assert Pow256(8) == 256 * Pow256(7) == 256 * (256 * Pow256(6));
  }

  /** The n low bytes of v, least significant first. */
  function LE(v: nat, n: nat): (r: Bytes)
    ensures |r| == n
    decreases n, v
  {
    if n == 0 then [] else [v % 256] + LE(v / 256, n - 1)
  }

  function FromLE(s: Bytes): nat {
    if s == [] then 0 else s[0] + 256 * FromLE(s[1..])
  }

  lemma {:induction false} FromLEBound(s: Bytes)
    ensures FromLE(s) < Pow256(|s|)
  {
    if s != [] {
      FromLEBound(s[1..]);
    }
  }

  /** Writing keeps the value modulo the width, reading it back loses nothing. */
  lemma {:induction false} LERoundTrip(v: nat, n: nat)
    ensures FromLE(LE(v, n)) == v % Pow256(n)
    decreases n
  {
    if n > 0 {
      LERoundTrip(v / 256, n - 1);
      assert LE(v, n)[1..] == LE(v / 256, n - 1);
      ModSplit(v, Pow256(n - 1));
    }
  }

  lemma ModSplit(v: nat, p: nat)
    requires p > 0
    ensures v % (256 * p) == v % 256 + 256 * (v / 256 % p)
  {
    var q := v / 256 / p;
    var r := v / 256 % p;
    assert v / 256 == q * p + r;
    assert v == 256 * (q * p + r) + v % 256;
    assert v == q * (256 * p) + (256 * r + v % 256) by {
      assert 256 * (q * p) == q * (256 * p);
    }
    assert 0 <= 256 * r + v % 256 < 256 * p;
    ModUnique(v, 256 * p, q, 256 * r + v % 256);
  }

  lemma QuotientUnique(m: nat, q: int, r: nat, q': int, r': nat)
    requires r < m && r' < m && q * m + r == q' * m + r'
    ensures q == q' && r == r'
  {
    assert (q - q') * m == q * m - q' * m;
    assert (q' - q) * m == q' * m - q * m;
    if q > q' {
      MulAtLeast(q - q', m);
    } else if q < q' {
      MulAtLeast(q' - q, m);
    }
  }

  lemma SubSlice(s: Bytes, a: nat, b: nat, i: nat, j: nat)
    requires a <= b <= |s| && i <= j <= b - a
    ensures s[a..b][i..j] == s[a + i..a + j]
  {
    forall k | 0 <= k < j - i
      ensures s[a..b][i..j][k] == s[a + i..a + j][k]
    {
    }
  }

  lemma MulAtLeast(d: int, m: nat)
    requires d >= 1
    ensures d * m >= m
  {
    assert d * m == m + (d - 1) * m;
  }

  lemma ModUnique(v: int, m: nat, q: int, r: nat)
    requires m > 0 && r < m && v == q * m + r
    ensures v % m == r && v / m == q
  {
    assert v == v / m * m + v % m;
    QuotientUnique(m, v / m, v % m, q, r);
  }

  lemma {:induction false} LEOfFromLE(s: Bytes)
    ensures LE(FromLE(s), |s|) == s
  {
    if s != [] {
      LEOfFromLE(s[1..]);
      assert FromLE(s) % 256 == s[0];
      assert FromLE(s) / 256 == FromLE(s[1..]);
    }
  }

  lemma LEFits(v: nat, n: nat)
    requires v < Pow256(n)
    ensures FromLE(LE(v, n)) == v
  {
    LERoundTrip(v, n);
  }

  lemma LE8(v: nat)
    requires v < TWO_64
    ensures FromLE(LE(v, 8)) == v
  {
    Pow256Widths();
    LEFits(v, 8);
  }

  lemma LE4(v: nat)
    requires v < TWO_32
    ensures FromLE(LE(v, 4)) == v
  {
    Pow256Widths();
    LEFits(v, 4);
  }

  lemma LE2(v: nat)
    requires v < 0x1_0000
    ensures FromLE(LE(v, 2)) == v
  {
    Pow256Widths();
    LEFits(v, 2);
  }

  /** int64(v) of a uint64 v. */
  function AsInt64(v: nat): int
  {
    if v % TWO_64 < TWO_63 then v % TWO_64 else v % TWO_64 - TWO_64
  }

  // ---- byte ranges ----

  function Zeros(n: nat): (r: Bytes)
    ensures |r| == n
    ensures forall i :: 0 <= i < n ==> r[i] == 0
  {
    seq(n, _ => 0)
  }

  /** Source.Slice: n bytes at off, or an error when the range leaves the file. */
  function Slice(f: Bytes, off: int, n: int): (r: Result<Bytes>)
    ensures r.Ok? <==> 0 <= off && 0 <= n && off + n <= |f|
    ensures r.Ok? ==> r.value == f[off..off + n]
  {
    if off < 0 || n < 0 || off > |f| || n > |f| - off then Err(OutOfBounds)
    else Ok(f[off..off + n])
  }

  /** x stands at offset a of f. */
  predicate At(f: Bytes, a: nat, x: Bytes) {
    a + |x| <= |f| && f[a..a + |x|] == x
  }

  lemma AtSub(f: Bytes, a: nat, x: Bytes, i: nat, j: nat)
    requires At(f, a, x) && i <= j <= |x|
    ensures f[a + i..a + j] == x[i..j]
    ensures At(f, a + i, x[i..j])
  {
    var y := f[a..a + |x|];
    forall k | 0 <= k < j - i
      ensures f[a + i..a + j][k] == x[i..j][k]
    {
      assert y[i + k] == f[a + i + k];
    }
    assert f[a + i..a + j] == x[i..j];
  }

  lemma AtInFile(f: Bytes, a: nat, x: Bytes)
    requires At(f, a, x)
    ensures a + |x| <= |f|
  {
  }

  lemma AtConcat(f: Bytes, a: nat, x: Bytes, y: Bytes)
    ensures At(f, a, x + y) <==> At(f, a, x) && At(f, a + |x|, y)
  {
    if At(f, a, x + y) {
      AtSub(f, a, x + y, 0, |x|);
      AtSub(f, a, x + y, |x|, |x + y|);
      assert (x + y)[..|x|] == x && (x + y)[|x|..] == y;
    }
    if At(f, a, x) && At(f, a + |x|, y) {
      assert f[a..a + |x + y|] == f[a..a + |x|] + f[a + |x|..a + |x| + |y|];
    }
  }

  lemma AtAppend(f: Bytes, g: Bytes, a: nat, x: Bytes)
    requires At(f, a, x)
    ensures At(f + g, a, x)
  {
    assert (f + g)[a..a + |x|] == f[a..a + |x|];
  }

  lemma AtPrefix(f: Bytes, n: nat, a: nat, x: Bytes)
    requires At(f, a, x) && a + |x| <= n <= |f|
    ensures At(f[..n], a, x)
  {
    assert f[..n][a..a + |x|] == f[a..a + |x|];
  }

  /** os.File.WriteAt: overwrite in place, growing the file when the write ends past it. */
  function WriteAt(f: Bytes, off: nat, b: Bytes): (r: Bytes)
    ensures |r| == if off + |b| > |f| && b != [] then off + |b| else |f|
  {
    if b == [] then f
    else if off > |f| then f + Zeros(off - |f|) + b
    else if off + |b| >= |f| then f[..off] + b
    else f[..off] + b + f[off + |b|..]
  }

  lemma WriteAtInside(f: Bytes, off: nat, b: Bytes)
    requires off + |b| <= |f|
    ensures WriteAt(f, off, b) == f[..off] + b + f[off + |b|..]
  {
    if b == [] {
      assert f == f[..off] + b + f[off..];
    }
  }

  /** A write elsewhere leaves x alone. */
  lemma AtFrame(f: Bytes, a: nat, x: Bytes, off: nat, b: Bytes)
    requires At(f, a, x) && off + |b| <= |f|
    requires off + |b| <= a || a + |x| <= off
    ensures At(WriteAt(f, off, b), a, x)
  {
    WriteAtInside(f, off, b);
    var r := WriteAt(f, off, b);
    assert forall i :: a <= i < a + |x| ==> r[i] == f[i];
    assert r[a..a + |x|] == f[a..a + |x|];
  }

  /** A write inside x is a write to x. */
  lemma AtInside(f: Bytes, a: nat, x: Bytes, off: nat, b: Bytes)
    requires At(f, a, x) && a <= off && off + |b| <= a + |x|
    ensures At(WriteAt(f, off, b), a, WriteAt(x, off - a, b))
  {
    WriteAtInside(f, off, b);
    WriteAtInside(x, off - a, b);
    var r := WriteAt(f, off, b);
    var y := WriteAt(x, off - a, b);
    assert |y| == |x|;
    forall i | 0 <= i < |x| ensures r[a + i] == y[i] {
      assert f[a..a + |x|][i] == x[i];
    }
    assert r[a..a + |x|] == y;
  }

  lemma WriteAtAppend(f: Bytes, g: Bytes, off: nat, b: Bytes)
    requires off + |b| <= |f|
    ensures WriteAt(f + g, off, b) == WriteAt(f, off, b) + g
  {
    WriteAtInside(f, off, b);
    WriteAtInside(f + g, off, b);
    assert (f + g)[..off] == f[..off];
    assert (f + g)[off + |b|..] == f[off + |b|..] + g;
  }

  /** binary.LittleEndian.PutUint: the n low bytes of v, byte after byte, into the buffer at off. */
  method PutLE(a: array<Byte>, off: nat, v: nat, n: nat)
    requires off + n <= a.Length
    modifies a
    ensures a[..] == WriteAt(old(a[..]), off, LE(v, n))
  {
    var rest := v;
    ghost var was := a[..];
    for i := 0 to n
      invariant a[..off] == was[..off] && a[off + i..] == was[off + i..]
      invariant a[off..off + i] + LE(rest, n - i) == LE(v, n)
    {
      assert LE(rest, n - i) == [rest % 256] + LE(rest / 256, n - i - 1);
      ghost var done := a[off..off + i];
      a[off + i] := rest % 256;
      assert a[off..off + i + 1] == done + [rest % 256];
      rest := rest / 256;
    }
    WriteAtInside(was, off, LE(v, n));
    assert a[..] == a[..off] + a[off..off + n] + a[off + n..];
  }

  // ---- concatenation of pieces ----

  function Concat(parts: seq<Bytes>): Bytes {
    if parts == [] then [] else parts[0] + Concat(parts[1..])
  }

  lemma {:induction false} ConcatAppend(a: seq<Bytes>, b: seq<Bytes>)
    ensures Concat(a + b) == Concat(a) + Concat(b)
  {
    if a == [] {
      assert a + b == b;
    } else {
      assert (a + b)[1..] == a[1..] + b;
      ConcatAppend(a[1..], b);
    }
  }

  lemma ConcatSnoc(a: seq<Bytes>, x: Bytes)
    ensures Concat(a + [x]) == Concat(a) + x
  {
    ConcatAppend(a, [x]);
    assert Concat([x]) == x + Concat([]);
  }

  /** Equal-sized pieces: piece i stands at i * n. */
  lemma {:induction false} ConcatUniform(parts: seq<Bytes>, n: nat)
    requires forall i :: 0 <= i < |parts| ==> |parts[i]| == n
    ensures |Concat(parts)| == |parts| * n
    ensures forall i :: 0 <= i < |parts| ==>
              0 <= i * n && i * n + n <= |Concat(parts)| && Concat(parts)[i * n..i * n + n] == parts[i]
  {
    forall i | 0 <= i < |parts|
      ensures 0 <= i * n && i * n + n <= |Concat(parts)| && Concat(parts)[i * n..i * n + n] == parts[i]
    {
      UniformPiece(parts, n, i);
    }
    UniformLength(parts, n);
  }

  lemma {:induction false} UniformLength(parts: seq<Bytes>, n: nat)
    requires forall i :: 0 <= i < |parts| ==> |parts[i]| == n
    ensures |Concat(parts)| == |parts| * n
  {
    if parts != [] {
      UniformLength(parts[1..], n);
      assert |parts| * n == n + |parts[1..]| * n;
    }
  }

  lemma {:induction false} UniformPiece(parts: seq<Bytes>, n: nat, i: nat)
    requires i < |parts| && forall i :: 0 <= i < |parts| ==> |parts[i]| == n
    ensures 0 <= i * n && i * n + n <= |Concat(parts)| && Concat(parts)[i * n..i * n + n] == parts[i]
  {
    if i > 0 {
      var rest := parts[1..];
      UniformPiece(rest, n, i - 1);
      assert rest[i - 1] == parts[i];
      var a := (i - 1) * n;
      assert i * n == a + n;
      assert Concat(parts)[a + n..a + n + n] == Concat(rest)[a..a + n];
    }
  }
}
