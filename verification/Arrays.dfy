/** Expansion of array channels: one element channel per index tuple, placed by mixed-radix arithmetic. */
module Arrays {
  import opened Wire
  import opened Bits

  /** One level of an array composition: its dimensions, and the distances of neighbouring elements. */
  datatype Level = Level(sizes: seq<nat>, offsetBase: int, invBase: nat)

  /** A dimension with the distance one step of its index makes. */
  datatype Dim = Dim(size: nat, stride: int, inv: nat)

  // ---- index tuples ----

  function Product(sizes: seq<nat>): nat {
    if sizes == [] then 1 else Product(sizes[..|sizes| - 1]) * sizes[|sizes| - 1]
  }

  ghost predicate Positive(sizes: seq<nat>) {
    forall i :: 0 <= i < |sizes| ==> sizes[i] > 0
  }

  /** Index tuple of element k: the last dimension runs fastest. */
  function Tuple(k: nat, sizes: seq<nat>): (r: seq<nat>)
    requires Positive(sizes)
    ensures |r| == |sizes|
    decreases |sizes|
  {
    if sizes == [] then []
    else
      var n := sizes[|sizes| - 1];
      QuotientNat(k, n);
      Tuple(k / n, sizes[..|sizes| - 1]) + [k % n]
  }

  lemma QuotientNat(k: nat, n: nat)
    requires n > 0
    ensures k / n >= 0
  {
  }

  ghost predicate InRange(t: seq<nat>, sizes: seq<nat>) {
    |t| == |sizes| && forall i :: 0 <= i < |t| ==> t[i] < sizes[i]
  }

  /** Position of a tuple in row-major order. */
  function Position(t: seq<nat>, sizes: seq<nat>): nat
    requires |t| == |sizes|
  {
    if t == [] then 0
    else Position(t[..|t| - 1], sizes[..|sizes| - 1]) * sizes[|sizes| - 1] + t[|t| - 1]
  }

  lemma RadixStep(k: nat, m: nat, n: nat)
    requires n > 0 && k < m * n
    ensures 0 <= k / n < m && k == k / n * n + k % n
  {
    QuotientNat(k, n);
    if k / n >= m {
      MulOrder(m, k / n, n);
      assert false;
    }
  }

  lemma MulSign(a: nat, b: nat)
    ensures a * b >= 0
  {
  }

  lemma {:induction false} TuplePosition(k: nat, sizes: seq<nat>)
    requires Positive(sizes) && k < Product(sizes)
    ensures InRange(Tuple(k, sizes), sizes) && Position(Tuple(k, sizes), sizes) == k
    decreases |sizes|
  {
    if sizes != [] {
      var init, n := sizes[..|sizes| - 1], sizes[|sizes| - 1];
      RadixStep(k, Product(init), n);
      TuplePosition(k / n, init);
      var t := Tuple(k, sizes);
      assert t[..|t| - 1] == Tuple(k / n, init);
    }
  }

  lemma {:induction false} PositionTuple(t: seq<nat>, sizes: seq<nat>)
    requires Positive(sizes) && InRange(t, sizes)
    ensures Position(t, sizes) < Product(sizes) && Tuple(Position(t, sizes), sizes) == t
    decreases |sizes|
  {
    if sizes == [] {
      assert t == [];
    } else {
      var init, n := sizes[..|sizes| - 1], sizes[|sizes| - 1];
      var ti, last := t[..|t| - 1], t[|t| - 1];
      PositionTuple(ti, init);
      var p := Position(ti, init);
      ModUnique(p * n + last, n, p, last);
      RadixBelow(p, Product(init), n, last);
      assert t == ti + [last];
    }
  }

  lemma RadixBelow(p: nat, m: nat, n: nat, r: nat)
    requires p < m && r < n
    ensures p * n + r < m * n
  {
    assert m * n == p * n + (m - p) * n;
    MulAtLeast(m - p, n);
  }

  /** The first n elements get n different tuples, and every tuple in range is one of them. */
  lemma TuplesAreElements(sizes: seq<nat>, t: seq<nat>)
    requires Positive(sizes)
    ensures InRange(t, sizes) <==> exists k: nat :: k < Product(sizes) && t == Tuple(k, sizes)
    ensures forall j: nat, k: nat :: j < Product(sizes) && k < Product(sizes) && Tuple(j, sizes) == Tuple(k, sizes) ==>
            j == k
  {
    hide Product, Tuple, Position;
    if InRange(t, sizes) {
      PositionTuple(t, sizes);
    }
    forall k: nat | k < Product(sizes)
      ensures InRange(Tuple(k, sizes), sizes) && Position(Tuple(k, sizes), sizes) == k
    {
      TuplePosition(k, sizes);
    }
  }

  /** Lexicographic order of tuples. */
  ghost predicate Before(a: seq<nat>, b: seq<nat>)
    requires |a| == |b|
  {
    a != [] && (Before(a[..|a| - 1], b[..|b| - 1]) || (a[..|a| - 1] == b[..|b| - 1] && a[|a| - 1] < b[|b| - 1]))
  }

  /** Elements come in row-major order. */
  lemma {:induction false} RowMajor(j: nat, k: nat, sizes: seq<nat>)
    requires Positive(sizes) && j < k < Product(sizes)
    ensures Before(Tuple(j, sizes), Tuple(k, sizes))
    decreases |sizes|
  {
    if sizes != [] {
      var init, n := sizes[..|sizes| - 1], sizes[|sizes| - 1];
      RadixStep(j, Product(init), n);
      RadixStep(k, Product(init), n);
      var s, t := Tuple(j, sizes), Tuple(k, sizes);
      assert s[..|s| - 1] == Tuple(j / n, init) && t[..|t| - 1] == Tuple(k / n, init);
      if j / n < k / n {
        RowMajor(j / n, k / n, init);
      } else {
        QuotientOrder(j, k, n);
      }
    }
  }

  lemma QuotientOrder(j: nat, k: nat, n: nat)
    requires n > 0 && j < k && j / n >= k / n
    ensures j / n == k / n && j % n < k % n
  {
    var q, p := j / n, k / n;
    assert j == q * n + j % n && k == p * n + k % n;
    if q > p {
      assert q * n == p * n + (q - p) * n;
      MulAtLeast(q - p, n);
    }
  }

  // ---- distances ----

  /** Within one level the last dimension steps by the base, each earlier one by the whole later extent. */
  function LevelDims(sizes: seq<nat>, stride: int, inv: nat): (r: seq<Dim>)
    ensures |r| == |sizes|
    decreases |sizes|
  {
    if sizes == [] then []
    else
      var n := sizes[|sizes| - 1];
      LevelDims(sizes[..|sizes| - 1], stride * n, inv * n) + [Dim(n, stride, inv)]
  }

  function AllDims(levels: seq<Level>): seq<Dim> {
    if levels == [] then []
    else
      var l := levels[|levels| - 1];
      AllDims(levels[..|levels| - 1]) + LevelDims(l.sizes, l.offsetBase, l.invBase)
  }

  function Sizes(dims: seq<Dim>): (r: seq<nat>)
    ensures |r| == |dims| && forall i :: 0 <= i < |dims| ==> r[i] == dims[i].size
  {
    seq(|dims|, i requires 0 <= i < |dims| => dims[i].size)
  }

  function Displacement(t: seq<nat>, dims: seq<Dim>): int
    requires |t| == |dims|
  {
    if t == [] then 0
    else Displacement(t[..|t| - 1], dims[..|dims| - 1]) + t[|t| - 1] * dims[|dims| - 1].stride
  }

  function Shift(t: seq<nat>, dims: seq<Dim>): nat
    requires |t| == |dims|
  {
    if t == [] then 0
    else Shift(t[..|t| - 1], dims[..|dims| - 1]) + t[|t| - 1] * dims[|dims| - 1].inv
  }

  /** Within one level an element's displacement is its position times the base. */
  lemma {:induction false} LevelDisplacement(t: seq<nat>, sizes: seq<nat>, stride: int, inv: nat)
    requires |t| == |sizes|
    ensures Displacement(t, LevelDims(sizes, stride, inv)) == Position(t, sizes) * stride
    ensures Shift(t, LevelDims(sizes, stride, inv)) == Position(t, sizes) * inv
    decreases |sizes|
  {
    if sizes != [] {
      var init, n := sizes[..|sizes| - 1], sizes[|sizes| - 1];
      var ti, last := t[..|t| - 1], t[|t| - 1];
      LevelDisplacement(ti, init, stride * n, inv * n);
      var dims := LevelDims(sizes, stride, inv);
      assert dims[..|dims| - 1] == LevelDims(init, stride * n, inv * n);
      Regroup(Position(ti, init), n, last, stride);
      Regroup(Position(ti, init), n, last, inv);
    } else {
      assert t == [];
    }
  }

  lemma Regroup(p: nat, n: nat, r: nat, s: int)
    ensures p * (s * n) + r * s == (p * n + r) * s
  {
    assert p * (s * n) == p * n * s;
  }

  lemma {:induction false} DisplacementJoin(a: seq<nat>, b: seq<nat>, da: seq<Dim>, db: seq<Dim>)
    requires |a| == |da| && |b| == |db|
    ensures Displacement(a + b, da + db) == Displacement(a, da) + Displacement(b, db)
    decreases |b|
  {
    if b == [] {
      assert a + b == a && da + db == da;
    } else {
      var bi, di := b[..|b| - 1], db[..|db| - 1];
      DisplacementJoin(a, bi, da, di);
      assert (a + b)[..|a + b| - 1] == a + bi && (da + db)[..|da + db| - 1] == da + di;
    }
  }

  // ---- levels ----

  /** The tuple cut into one part per level. */
  function Parts(t: seq<nat>, levels: seq<Level>): (r: seq<seq<nat>>)
    requires |t| == |AllDims(levels)|
    ensures |r| == |levels|
    decreases |levels|
  {
    if levels == [] then []
    else
      var init, l := levels[..|levels| - 1], levels[|levels| - 1];
      var n := |t| - |l.sizes|;
      Parts(t[..n], init) + [t[n..]]
  }

  /** Index of the element within each level. */
  function Indices(t: seq<nat>, levels: seq<Level>): (r: seq<nat>)
    requires |t| == |AllDims(levels)|
    ensures |r| == |levels|
    decreases |levels|
  {
    if levels == [] then []
    else
      var init, l := levels[..|levels| - 1], levels[|levels| - 1];
      var n := |t| - |l.sizes|;
      Indices(t[..n], init) + [Position(t[n..], l.sizes)]
  }

  /** Sum over the levels of index times base. */
  function Weighted(indices: seq<nat>, levels: seq<Level>): int
    requires |indices| == |levels|
  {
    if levels == [] then 0
    else
      var n := |levels| - 1;
      Weighted(indices[..n], levels[..n]) + indices[n] * levels[n].offsetBase
  }

  /** The displacement of an element is the sum over the levels of its index there times that level's base. */
  lemma {:induction false} DisplacementByLevels(t: seq<nat>, levels: seq<Level>)
    requires |t| == |AllDims(levels)|
    ensures Displacement(t, AllDims(levels)) == Weighted(Indices(t, levels), levels)
    decreases |levels|
  {
    if levels == [] {
      assert t == [];
    } else {
      var init, l := levels[..|levels| - 1], levels[|levels| - 1];
      var n := |t| - |l.sizes|;
      DisplacementByLevels(t[..n], init);
      LevelDisplacement(t[n..], l.sizes, l.offsetBase, l.invBase);
      DisplacementJoin(t[..n], t[n..], AllDims(init), LevelDims(l.sizes, l.offsetBase, l.invBase));
      assert t[..n] + t[n..] == t;
      var r := Indices(t, levels);
      assert r[..|levels| - 1] == Indices(t[..n], init);
    }
  }

  /** With a single level element k lies k bases behind the first. */
  lemma OneLevel(l: Level, k: nat)
    requires Positive(l.sizes) && k < Product(l.sizes)
    ensures Displacement(Tuple(k, l.sizes), LevelDims(l.sizes, l.offsetBase, l.invBase)) == k * l.offsetBase
  {
    TuplePosition(k, l.sizes);
    LevelDisplacement(Tuple(k, l.sizes), l.sizes, l.offsetBase, l.invBase);
  }

  // ---- disjoint fields ----

  function Times(i: int, b: int): int { i * b }

  /** Bytes from the first to the end of the last element below level n, each element taking width bytes. */
  function Extent(levels: seq<Level>, n: nat, width: nat): int
    requires n <= |levels|
    decreases |levels| - n
  {
    if n == |levels| then width
    else Times(Product(levels[n].sizes) - 1, levels[n].offsetBase) + Extent(levels, n + 1, width)
  }

  /** Every base covers what lies below its level. */
  ghost predicate Covering(levels: seq<Level>, width: nat) {
    forall n :: 0 <= n < |levels| ==>
        levels[n].offsetBase >= Extent(levels, n + 1, width) && Product(levels[n].sizes) > 0
  }

  /** Displacement contributed by the levels from n on. */
  function Below(indices: seq<nat>, levels: seq<Level>, n: nat): int
    requires |indices| == |levels| && n <= |levels|
    decreases |levels| - n
  {
    if n == |levels| then 0 else Times(indices[n], levels[n].offsetBase) + Below(indices, levels, n + 1)
  }

  ghost predicate IndexRange(indices: seq<nat>, levels: seq<Level>) {
    |indices| == |levels| && forall n :: 0 <= n < |levels| ==> indices[n] < Product(levels[n].sizes)
  }

  lemma CoveringAt(levels: seq<Level>, width: nat, n: nat)
    requires Covering(levels, width) && n < |levels|
    ensures levels[n].offsetBase >= Extent(levels, n + 1, width) && Product(levels[n].sizes) > 0
  {
    hide Extent;
  }

  lemma {:induction false} ExtentAtLeast(levels: seq<Level>, n: nat, width: nat)
    requires n <= |levels| && Covering(levels, width)
    ensures Extent(levels, n, width) >= width
    decreases |levels| - n
  {
    hide Product, Times, Covering;
    if n < |levels| {
      CoveringAt(levels, width, n);
      ExtentAtLeast(levels, n + 1, width);
      SlotInside(0, Product(levels[n].sizes), levels[n].offsetBase);
    }
  }

  lemma {:induction false} BelowInside(indices: seq<nat>, levels: seq<Level>, n: nat, width: nat)
    requires n <= |levels| && Covering(levels, width) && IndexRange(indices, levels)
    ensures 0 <= Below(indices, levels, n) && Below(indices, levels, n) + width <= Extent(levels, n, width)
    decreases |levels| - n
  {
    hide Product, Times, Covering;
    if n < |levels| {
      CoveringAt(levels, width, n);
      BelowInside(indices, levels, n + 1, width);
      ExtentAtLeast(levels, n + 1, width);
      SlotInside(indices[n], Product(levels[n].sizes), levels[n].offsetBase);
    }
  }

  lemma SlotInside(i: nat, c: nat, b: nat)
    requires i < c
    ensures 0 <= Times(i, b) <= Times(c - 1, b)
  {
    MulOrder(i, c - 1, b);
    MulSign(i, b);
  }

  /** Elements that first differ at level n lie at least one element apart. */
  lemma {:induction false} Apart(a: seq<nat>, b: seq<nat>, levels: seq<Level>, n: nat, width: nat)
    requires n <= |levels| && Covering(levels, width) && IndexRange(a, levels) && IndexRange(b, levels)
    requires exists i :: n <= i < |levels| && a[i] != b[i]
    ensures Below(a, levels, n) + width <= Below(b, levels, n) || Below(b, levels, n) + width <= Below(a, levels, n)
    decreases |levels| - n
  {
    hide Product, Times, Covering;
    CoveringAt(levels, width, n);
    if a[n] == b[n] {
      Apart(a, b, levels, n + 1, width);
    } else {
      BelowInside(a, levels, n + 1, width);
      BelowInside(b, levels, n + 1, width);
      StepApart(a[n], b[n], levels[n].offsetBase);
    }
  }

  lemma StepApart(i: nat, j: nat, b: int)
    requires i != j && b >= 0
    ensures i < j ==> Times(i, b) + b <= Times(j, b)
    ensures j < i ==> Times(j, b) + b <= Times(i, b)
  {
    if i < j {
      assert j * b == i * b + (j - i) * b;
      MulAtLeast(j - i, b);
    } else {
      assert i * b == j * b + (i - j) * b;
      MulAtLeast(i - j, b);
    }
  }

  lemma {:induction false} WeightedIsBelow(indices: seq<nat>, levels: seq<Level>, n: nat)
    requires |indices| == |levels| && n <= |levels|
    ensures Weighted(indices, levels) == Weighted(indices[..n], levels[..n]) + Below(indices, levels, n)
    decreases |levels| - n
  {
    if n == |levels| {
      assert indices[..n] == indices && levels[..n] == levels;
    } else {
      WeightedIsBelow(indices, levels, n + 1);
      assert indices[..n + 1][..n] == indices[..n] && levels[..n + 1][..n] == levels[..n];
    }
  }

  lemma {:induction false} IndicesInRange(t: seq<nat>, levels: seq<Level>)
    requires |t| == |AllDims(levels)| && InRange(t, Sizes(AllDims(levels)))
    requires forall i :: 0 <= i < |levels| ==> Positive(levels[i].sizes)
    ensures IndexRange(Indices(t, levels), levels)
    decreases |levels|
  {
    hide Position, Tuple, Sizes, LevelDims, InRange, Product, Indices, AllDims, Positive;
    if levels != [] {
      var init, l := levels[..|levels| - 1], levels[|levels| - 1];
      var n := |t| - |l.sizes|;
      CutTuple(t, levels);
      IndicesInRange(t[..n], init);
      PositionTuple(t[n..], l.sizes);
    }
  }

  lemma SizesJoin(a: seq<Dim>, b: seq<Dim>)
    ensures Sizes(a + b) == Sizes(a) + Sizes(b)
  {
  }

  lemma {:induction false} LevelSizes(sizes: seq<nat>, stride: int, inv: nat)
    ensures Sizes(LevelDims(sizes, stride, inv)) == sizes
    decreases |sizes|
  {
    if sizes != [] {
      var n := sizes[|sizes| - 1];
      LevelSizes(sizes[..|sizes| - 1], stride * n, inv * n);
    }
  }

  lemma {:induction false} IndicesTell(a: seq<nat>, b: seq<nat>, levels: seq<Level>)
    requires |a| == |b| == |AllDims(levels)| && Indices(a, levels) == Indices(b, levels)
    requires InRange(a, Sizes(AllDims(levels))) && InRange(b, Sizes(AllDims(levels)))
    requires forall i :: 0 <= i < |levels| ==> Positive(levels[i].sizes)
    ensures a == b
    decreases |levels|
  {
    hide Position, Tuple, Sizes, LevelDims, InRange, Product, Indices, AllDims, Positive;
    if levels != [] {
      var init, l := levels[..|levels| - 1], levels[|levels| - 1];
      var n := |a| - |l.sizes|;
      CutTuple(a, levels);
      CutTuple(b, levels);
      IndicesTell(a[..n], b[..n], init);
      PositionTuple(a[n..], l.sizes);
      PositionTuple(b[n..], l.sizes);
      assert a == a[..n] + a[n..] && b == b[..n] + b[n..];
    } else {
      NoLevels();
    }
  }

  /** The last level's part of a tuple and the rest, with their indices. */
  lemma CutTuple(t: seq<nat>, levels: seq<Level>)
    requires levels != [] && |t| == |AllDims(levels)| && InRange(t, Sizes(AllDims(levels)))
    ensures var init, l := levels[..|levels| - 1], levels[|levels| - 1];
            var n := |t| - |l.sizes|;
            && 0 <= n == |AllDims(init)| && InRange(t[..n], Sizes(AllDims(init))) && InRange(t[n..], l.sizes)
            && Indices(t, levels)[..|levels| - 1] == Indices(t[..n], init)
            && Indices(t, levels)[|levels| - 1] == Position(t[n..], l.sizes)
  {
    hide Position, LevelDims;
    var init, l := levels[..|levels| - 1], levels[|levels| - 1];
    SizesJoin(AllDims(init), LevelDims(l.sizes, l.offsetBase, l.invBase));
    LevelSizes(l.sizes, l.offsetBase, l.invBase);
    hide Sizes;
  }

  /** Fields of different elements do not overlap when every base covers the extent below it. */
  lemma ElementsDisjoint(levels: seq<Level>, a: seq<nat>, b: seq<nat>, width: nat)
    requires |a| == |b| == |AllDims(levels)| && a != b && Covering(levels, width)
    requires InRange(a, Sizes(AllDims(levels))) && InRange(b, Sizes(AllDims(levels)))
    requires forall i :: 0 <= i < |levels| ==> Positive(levels[i].sizes)
    ensures var x, y := Displacement(a, AllDims(levels)), Displacement(b, AllDims(levels));
            x + width <= y || y + width <= x
  {
    hide Product, Displacement, AllDims, Covering, InRange, Sizes, Positive, IndexRange, Below, Weighted;
    DisplacementByLevels(a, levels);
    DisplacementByLevels(b, levels);
    var ia, ib := Indices(a, levels), Indices(b, levels);
    IndicesInRange(a, levels);
    IndicesInRange(b, levels);
    if ia == ib {
      IndicesTell(a, b, levels);
      assert false;
    }
    WeightedIsBelow(ia, levels, 0);
    WeightedIsBelow(ib, levels, 0);
    assert ia[..0] == ib[..0];
    Apart(ia, ib, levels, 0, width);
  }

  // ---- the expansion ----

  const MAX_ELEMENTS: nat := 0x10_0000

  /** The running element count is kept in 64 bits; a level without dimensions, a zero or a count beyond the limit
      stops the expansion. */
  function Running(sizes: seq<nat>): nat {
    if sizes == [] then 1 else Running(sizes[..|sizes| - 1]) * sizes[|sizes| - 1] % TWO_64
  }

  ghost predicate Expandable(sizes: seq<nat>) {
    forall n :: 0 < n <= |sizes| ==> 0 < Running(sizes[..n]) <= MAX_ELEMENTS
  }

  /** The running count is the element count modulo 2^64. */
  lemma {:induction false} RunningWraps(sizes: seq<nat>)
    ensures Running(sizes) == Product(sizes) % TWO_64
    decreases |sizes|
  {
    if sizes == [] {
      ModUnique(1, TWO_64, 0, 1);
    } else {
      var init, n := sizes[..|sizes| - 1], sizes[|sizes| - 1];
      RunningWraps(init);
      MulWraps(Product(init), n, TWO_64);
    }
  }

  lemma MulWraps(a: nat, b: nat, m: nat)
    requires m > 0
    ensures a % m * b % m == a * b % m
  {
    assert a == a / m * m + a % m;
    assert a * b == a / m * b * m + a % m * b;
    ModOfSum(a / m * b, m, a % m * b);
  }

  /** An expandable array has as many elements as its dimensions say exactly when that number is below 2^64. */
  lemma CountIff(sizes: seq<nat>)
    ensures Running(sizes) == Product(sizes) <==> Product(sizes) < TWO_64
  {
    RunningWraps(sizes);
    if Product(sizes) < TWO_64 {
      ModUnique(Product(sizes), TWO_64, 0, Product(sizes));
    }
  }

  /** The limit that expansion checks is on the running count: an array that is expanded keeps to it exactly when its
      number of elements is below 2^64. */
  lemma LimitIff(sizes: seq<nat>)
    requires Expandable(sizes)
    ensures Product(sizes) <= MAX_ELEMENTS <==> Product(sizes) < TWO_64
    ensures Product(sizes) <= MAX_ELEMENTS <==> Running(sizes) == Product(sizes)
  {
    hide Running, Product;
    CountIff(sizes);
    if sizes == [] {
      NoSizes();
    } else {
      assert sizes[..|sizes|] == sizes;
      assert 0 < Running(sizes[..|sizes|]) <= MAX_ELEMENTS;
    }
  }

  lemma NoSizes()
    ensures Running([]) == Product([]) == 1
  {
  }

  /** The limit on the element count can be passed by wrapping around: two dimensions of 2^16 and 2^48 + 1 elements
      count as 2^16. */
  lemma CountWraps()
    ensures var sizes := [0x1_0000, 0x1_0000_0000_0001];
            Expandable(sizes) && Running(sizes) == 0x1_0000 && Product(sizes) > MAX_ELEMENTS
  {
    hide Product, Running;
    var sizes := [0x1_0000, 0x1_0000_0000_0001];
    assert sizes[..1] == [0x1_0000] && sizes[..2] == sizes;
    TwoSizes(0x1_0000, 0x1_0000_0000_0001);
  }

  lemma TwoSizes(a: nat, b: nat)
    ensures Product([a]) == a && Product([a, b]) == a * b
    ensures Running([a]) == a % TWO_64 && Running([a, b]) == a % TWO_64 * b % TWO_64
  {
    assert [a][..0] == [] && [a, b][..1] == [a];
    assert Product([]) == 1 && Running([]) == 1;
  }

  datatype Element = Element(index: seq<nat>, byteOffset: nat, invBit: nat)

  function ElementOf(k: nat, dims: seq<Dim>, byteOffset: nat, invBit: nat): Element
    requires Positive(Sizes(dims))
  {
    var t := Tuple(k, Sizes(dims));
    Element(t, (byteOffset + Displacement(t, dims)) % TWO_32, (invBit + Shift(t, dims)) % TWO_32)
  }

  /** Sizes and distances of one level, from the last dimension to the first. */
  method BuildLevel(l: Level) returns (dims: seq<Dim>)
    ensures dims == LevelDims(l.sizes, l.offsetBase, l.invBase)
  {
    var stride, inv := l.offsetBase, l.invBase;
    dims := [];
    var d: nat := |l.sizes|;
    assert l.sizes[..d] == l.sizes;
    while d > 0
      invariant d <= |l.sizes|
      invariant LevelDims(l.sizes[..d], stride, inv) + dims == LevelDims(l.sizes, l.offsetBase, l.invBase)
    {
      d := d - 1;
      assert l.sizes[..d + 1][..d] == l.sizes[..d];
      var dim := Dim(l.sizes[d], stride, inv);
      stride, inv := stride * l.sizes[d], inv * l.sizes[d];
      assert LevelDims(l.sizes[..d], stride, inv) + ([dim] + dims)
             == LevelDims(l.sizes[..d], stride, inv) + [dim] + dims;
      dims := [dim] + dims;
    }
    assert LevelDims(l.sizes[..0], stride, inv) == [];
  }

  /** Index tuple of element k, from the last dimension to the first. */
  method IndexOf(k: nat, dims: seq<Dim>) returns (t: seq<nat>)
    requires Positive(Sizes(dims))
    ensures t == Tuple(k, Sizes(dims))
  {
    ghost var sizes := Sizes(dims);
    var rem: nat := k;
    t := [];
    var d: nat := |dims|;
    assert sizes[..d] == sizes;
    while d > 0
      invariant d <= |dims|
      invariant Tuple(rem, sizes[..d]) + t == Tuple(k, sizes)
    {
      d := d - 1;
      assert sizes[..d + 1][..d] == sizes[..d];
      var i := rem % dims[d].size;
      QuotientNat(rem, dims[d].size);
      rem := rem / dims[d].size;
      assert Tuple(rem, sizes[..d]) + ([i] + t) == Tuple(rem, sizes[..d]) + [i] + t;
      t := [i] + t;
    }
    assert Tuple(rem, sizes[..0]) == [];
  }

  /** Where the element lies: both sums run over the dimensions. */
  method Place(t: seq<nat>, dims: seq<Dim>, byteOffset: nat, invBit: nat) returns (e: Element)
    requires |t| == |dims|
    ensures e == Element(t, (byteOffset + Displacement(t, dims)) % TWO_32, (invBit + Shift(t, dims)) % TWO_32)
  {
    var off, inv := byteOffset as int, 0;
    for d := 0 to |dims|
      invariant off == byteOffset + Displacement(t[..d], dims[..d]) && inv == Shift(t[..d], dims[..d])
    {
      assert t[..d + 1][..d] == t[..d] && dims[..d + 1][..d] == dims[..d];
      off := off + t[d] * dims[d].stride;
      inv := inv + t[d] * dims[d].inv;
    }
    assert t[..|dims|] == t && dims[..|dims|] == dims;
    e := Element(t, off % TWO_32, (invBit + inv) % TWO_32);
  }

  lemma ExpandablePrefix(a: seq<nat>, b: seq<nat>)
    requires a <= b && Expandable(b)
    ensures Expandable(a)
  {
    forall n | 0 < n <= |a|
      ensures 0 < Running(a[..n]) <= MAX_ELEMENTS
    {
      assert a[..n] == b[..n];
    }
  }

  lemma ExpandableMore(a: seq<nat>, n: nat)
    requires Expandable(a)
    ensures Running(a + [n]) == Running(a) * n % TWO_64
    ensures Expandable(a + [n]) <==> 0 < Running(a + [n]) <= MAX_ELEMENTS
  {
    assert (a + [n])[..|a|] == a && (a + [n])[..|a| + 1] == a + [n];
    forall k | 0 < k <= |a|
      ensures (a + [n])[..k] == a[..k]
    {
    }
  }

  lemma ExpandablePositive(sizes: seq<nat>)
    requires Expandable(sizes)
    ensures Positive(sizes)
  {
    forall i | 0 <= i < |sizes|
      ensures sizes[i] > 0
    {
      var upto := sizes[..i + 1];
      assert upto[..i] == sizes[..i];
      assert Running(upto) == Running(sizes[..i]) * sizes[i] % TWO_64 > 0;
    }
  }

  lemma {:induction false} AllDimsGrow(levels: seq<Level>, i: nat)
    requires i <= |levels|
    ensures AllDims(levels[..i]) <= AllDims(levels)
    decreases |levels|
  {
    if i < |levels| {
      var init := levels[..|levels| - 1];
      assert init[..i] == levels[..i];
      AllDimsGrow(init, i);
    } else {
      assert levels[..i] == levels;
    }
  }

  lemma SizesGrow(a: seq<Dim>, b: seq<Dim>)
    requires a <= b
    ensures Sizes(a) <= Sizes(b)
  {
    assert Sizes(b)[..|a|] == Sizes(a);
  }

  /** The running count over one more level, dimension by dimension. */
  method CountLevel(total: nat, sizes: seq<nat>, ghost before: seq<nat>) returns (count: nat, ok: bool)
    requires Expandable(before) && total == Running(before)
    ensures ok <==> Expandable(before + sizes)
    ensures ok ==> count == Running(before + sizes)
  {
    hide Running, Expandable;
    count := total;
    assert before + sizes[..0] == before;
    for d := 0 to |sizes|
      invariant Expandable(before + sizes[..d]) && count == Running(before + sizes[..d])
    {
      ExpandableMore(before + sizes[..d], sizes[d]);
      assert before + sizes[..d] + [sizes[d]] == before + sizes[..d + 1];
      count := count * sizes[d] % TWO_64;
      if count == 0 || count > MAX_ELEMENTS {
        if Expandable(before + sizes) {
          ExpandablePrefix(before + sizes[..d + 1], before + sizes);
        }
        return count, false;
      }
    }
    assert sizes[..|sizes|] == sizes;
    ok := true;
  }

  /** Every level has dimensions, and no running count is zero or beyond the limit. */
  ghost predicate Expands(levels: seq<Level>) {
    (forall i :: 0 <= i < |levels| ==> levels[i].sizes != []) && Expandable(Sizes(AllDims(levels)))
  }

  /** One element per index tuple, in the order of the tuples. */
  ghost predicate Expanded(elems: seq<Element>, dims: seq<Dim>, byteOffset: nat, invBit: nat) {
    && Positive(Sizes(dims)) && |elems| == Running(Sizes(dims))
    && forall k :: 0 <= k < |elems| ==> elems[k] == ElementOf(k, dims, byteOffset, invBit)
  }

  /** expandArray for template storage: all levels' dimensions, then one element per index tuple. */
  method Expand(levels: seq<Level>, byteOffset: nat, invBit: nat) returns (elems: Option<seq<Element>>)
    ensures elems.Some? <==> Expands(levels)
    ensures elems.Some? ==> Expanded(elems.value, AllDims(levels), byteOffset, invBit)
  {
    hide Running, Expandable, Displacement, Shift, LevelDims, Sizes;
    var dims, total := [], 1;
    NoLevels();
    for i := 0 to |levels|
      invariant dims == AllDims(levels[..i]) && total == Running(Sizes(dims)) && Expandable(Sizes(dims))
      invariant forall j :: 0 <= j < i ==> levels[j].sizes != []
    {
      var l := levels[i];
      if l.sizes == [] {
        return None;
      }
      assert levels[..i + 1][..i] == levels[..i];
      var level := BuildLevel(l);
      SizesJoin(dims, level);
      LevelSizes(l.sizes, l.offsetBase, l.invBase);
      var ok;
      total, ok := CountLevel(total, l.sizes, Sizes(dims));
      dims := dims + level;
      if !ok {
        AllDimsGrow(levels, i + 1);
        SizesGrow(dims, AllDims(levels));
        if Expandable(Sizes(AllDims(levels))) {
          ExpandablePrefix(Sizes(dims), Sizes(AllDims(levels)));
        }
        return None;
      }
    }
    assert levels[..|levels|] == levels;
    ExpandablePositive(Sizes(dims));
    var out: seq<Element> := [];
    for k := 0 to total
      invariant |out| == k && forall j :: 0 <= j < k ==> out[j] == ElementOf(j, dims, byteOffset, invBit)
    {
      var t := IndexOf(k, dims);
      var e := Place(t, dims, byteOffset, invBit);
      out := out + [e];
    }
    elems := Some(out);
  }

  lemma NoLevels()
    ensures AllDims([]) == [] && Sizes([]) == [] && Running([]) == 1 && Expandable([])
  {
  }
}
