/** Where the expanded elements of an array end up once their offsets are cut to 32 bits. */
module ArrayPlaces {
  import opened Wire
  import opened Arrays

  /** Distance of element k from the first one. */
  function Place(k: nat, levels: seq<Level>): int
    requires Positive(Sizes(AllDims(levels)))
  {
    Displacement(Tuple(k, Sizes(AllDims(levels))), AllDims(levels))
  }

  /** An expanded array whose bases cover what lies below them. */
  ghost predicate Laid(elems: seq<Element>, levels: seq<Level>, byteOffset: nat, invBit: nat, width: nat) {
    && Expanded(elems, AllDims(levels), byteOffset, invBit) && Covering(levels, width) && elems != []
    && |elems| == Product(Sizes(AllDims(levels))) && forall i :: 0 <= i < |levels| ==> Positive(levels[i].sizes)
  }

  /** The byte ranges of two elements do not overlap. */
  predicate NoOverlap(a: Element, b: Element, width: nat) {
    a.byteOffset + width <= b.byteOffset || b.byteOffset + width <= a.byteOffset
  }

  // ---- the last element is the farthest ----

  function Last(sizes: seq<nat>): (t: seq<nat>)
    requires Positive(sizes)
    ensures |t| == |sizes| && InRange(t, sizes)
  {
    seq(|sizes|, i requires 0 <= i < |sizes| => sizes[i] - 1)
  }

  lemma {:induction false} LastPosition(sizes: seq<nat>)
    requires Positive(sizes)
    ensures Product(sizes) > 0 && Position(Last(sizes), sizes) == Product(sizes) - 1
    decreases |sizes|
  {
    if sizes != [] {
      var init, n := sizes[..|sizes| - 1], sizes[|sizes| - 1];
      LastPosition(init);
      assert Last(sizes)[..|sizes| - 1] == Last(init);
      LastStep(Product(init), n);
    }
  }

  lemma LastStep(m: nat, n: nat)
    requires m > 0 && n > 0
    ensures m * n > 0 && (m - 1) * n + (n - 1) == m * n - 1
  {
  }

  lemma {:induction false} LastIndices(levels: seq<Level>)
    requires Positive(Sizes(AllDims(levels))) && forall i :: 0 <= i < |levels| ==> Positive(levels[i].sizes)
    ensures |Last(Sizes(AllDims(levels)))| == |AllDims(levels)|
    ensures forall n :: 0 <= n < |levels| ==>
              Indices(Last(Sizes(AllDims(levels))), levels)[n] == Product(levels[n].sizes) - 1
    decreases |levels|
  {
    hide Position, Product, LevelDims;
    if levels != [] {
      var init, l := levels[..|levels| - 1], levels[|levels| - 1];
      var dims := LevelDims(l.sizes, l.offsetBase, l.invBase);
      SizesJoin(AllDims(init), dims);
      LevelSizes(l.sizes, l.offsetBase, l.invBase);
      var t, m := Last(Sizes(AllDims(levels))), |AllDims(init)|;
      assert Sizes(AllDims(levels))[..m] == Sizes(AllDims(init)) && Sizes(AllDims(levels))[m..] == l.sizes;
      assert forall i :: 0 <= i < m ==> Sizes(AllDims(init))[i] == Sizes(AllDims(levels))[i];
      assert t[..m] == Last(Sizes(AllDims(init))) && t[m..] == Last(l.sizes);
      LastIndices(init);
      LastPosition(l.sizes);
    }
  }

  lemma {:induction false} LastBelow(indices: seq<nat>, levels: seq<Level>, n: nat, width: nat)
    requires |indices| == |levels| && n <= |levels|
    requires forall i :: 0 <= i < |levels| ==> indices[i] == Product(levels[i].sizes) - 1
    ensures Below(indices, levels, n) == Extent(levels, n, width) - width
    decreases |levels| - n
  {
    hide Product, Times;
    if n < |levels| {
      LastBelow(indices, levels, n + 1, width);
    }
  }

  lemma PlaceIs(t: seq<nat>, levels: seq<Level>)
    requires |t| == |AllDims(levels)|
    ensures Displacement(t, AllDims(levels)) == Below(Indices(t, levels), levels, 0)
  {
    hide Displacement, AllDims, Indices, Below;
    DisplacementByLevels(t, levels);
    WeightedIsBelow(Indices(t, levels), levels, 0);
  }

  lemma PlaceSign(levels: seq<Level>, width: nat, k: nat)
    requires Covering(levels, width) && forall i :: 0 <= i < |levels| ==> Positive(levels[i].sizes)
    requires Positive(Sizes(AllDims(levels))) && k < Product(Sizes(AllDims(levels)))
    ensures 0 <= Place(k, levels) <= Extent(levels, 0, width) - width
  {
    hide Displacement, AllDims, Indices, Below, Covering, Product, Tuple, Position, Extent, Sizes, Positive;
    var sizes := Sizes(AllDims(levels));
    TupleOf(k, sizes);
    IndicesInRange(Tuple(k, sizes), levels);
    PlaceIs(Tuple(k, sizes), levels);
    BelowInside(Indices(Tuple(k, sizes), levels), levels, 0, width);
  }

  /** Elements lie from the first one's place on, the last one farthest. */
  lemma PlacesReach(elems: seq<Element>, levels: seq<Level>, byteOffset: nat, invBit: nat, width: nat, k: nat)
    requires Laid(elems, levels, byteOffset, invBit, width) && k < |elems|
    ensures 0 <= Place(k, levels) <= Extent(levels, 0, width) - width
    ensures Place(|elems| - 1, levels) == Extent(levels, 0, width) - width
  {
    hide Displacement, AllDims, Indices, Below, Covering, Product, Tuple, Position, Extent, Sizes, Expanded;
    assert Positive(Sizes(AllDims(levels))) by { LaidPositive(elems, levels, byteOffset, invBit, width); }
    var sizes := Sizes(AllDims(levels));
    PlaceSign(levels, width, k);
    LastPosition(sizes);
    PositionTuple(Last(sizes), sizes);
    LastIndices(levels);
    PlaceIs(Last(sizes), levels);
    LastBelow(Indices(Last(sizes), levels), levels, 0, width);
  }

  lemma LaidPositive(elems: seq<Element>, levels: seq<Level>, byteOffset: nat, invBit: nat, width: nat)
    requires Laid(elems, levels, byteOffset, invBit, width)
    ensures Positive(Sizes(AllDims(levels)))
    ensures forall k :: 0 <= k < |elems| ==> elems[k].byteOffset == (byteOffset + Place(k, levels)) % TWO_32
  {
    hide Displacement, AllDims, Tuple, Covering, Shift;
  }

  lemma TupleOf(k: nat, sizes: seq<nat>)
    requires Positive(sizes) && k < Product(sizes)
    ensures InRange(Tuple(k, sizes), sizes)
  {
    hide Product, Tuple;
    TuplesAreElements(sizes, Tuple(k, sizes));
  }

  /** Every element is where its indices say if and only if the last one begins below 2^32. */
  lemma PlacedIff(elems: seq<Element>, levels: seq<Level>, byteOffset: nat, invBit: nat, width: nat)
    requires Laid(elems, levels, byteOffset, invBit, width)
    ensures Positive(Sizes(AllDims(levels)))
    ensures (forall k :: 0 <= k < |elems| ==> elems[k].byteOffset == byteOffset + Place(k, levels))
            <==> byteOffset + Extent(levels, 0, width) - width < TWO_32
  {
    hide Place, Laid, Extent;
    LaidPositive(elems, levels, byteOffset, invBit, width);
    NotEmpty(elems, levels, byteOffset, invBit, width);
    PlacesReach(elems, levels, byteOffset, invBit, width, 0);
    if byteOffset + Extent(levels, 0, width) - width < TWO_32 {
      forall k | 0 <= k < |elems|
        ensures elems[k].byteOffset == byteOffset + Place(k, levels)
      {
        PlacesReach(elems, levels, byteOffset, invBit, width, k);
        ModUnique(byteOffset + Place(k, levels), TWO_32, 0, byteOffset + Place(k, levels));
      }
    } else {
      assert elems[|elems| - 1].byteOffset < TWO_32;
    }
  }

  lemma NotEmpty(elems: seq<Element>, levels: seq<Level>, byteOffset: nat, invBit: nat, width: nat)
    requires Laid(elems, levels, byteOffset, invBit, width)
    ensures elems != []
  {
  }

  // ---- overlap ----

  function Distance(x: int, y: int): nat { if x <= y then y - x else x - y }

  /** The distance of two places, cut to 32 bits, leaves room for an element on both sides. */
  predicate Room(d: nat, width: nat) { width <= d % TWO_32 <= TWO_32 - width }

  /** Two places, the same offset added to both and cut to 32 bits, leave an element of this width apart. */
  predicate CutApart(o: nat, x: nat, y: nat, width: nat) {
    var a, b := (o + x) % TWO_32, (o + y) % TWO_32;
    a + width <= b || b + width <= a
  }

  lemma CutSum(p: nat, d: nat)
    ensures (p + d) % TWO_32 == if p % TWO_32 + d % TWO_32 < TWO_32 then p % TWO_32 + d % TWO_32
                                else p % TWO_32 + d % TWO_32 - TWO_32
  {
    var x, m := p % TWO_32, d % TWO_32;
    var q := p / TWO_32 + d / TWO_32;
    assert p + d == q * TWO_32 + (x + m);
    if x + m < TWO_32 {
      ModUnique(p + d, TWO_32, q, x + m);
    } else {
      ModUnique(p + d, TWO_32, q + 1, x + m - TWO_32);
    }
  }

  lemma Reach(x: nat, r: nat) returns (o: nat)
    requires r < TWO_32
    ensures o < TWO_32 && (o + x) % TWO_32 == r
  {
    var m := x % TWO_32;
    o := if m <= r then r - m else r + TWO_32 - m;
    CutSum(o, x);
    ModUnique(o, TWO_32, 0, o);
  }

  /** Whatever offset is added, the ranges of two elements stay apart, exactly when there is room. */
  lemma CutApartIff(x: nat, y: nat, width: nat)
    requires x <= y && 0 < width
    ensures (forall o: nat :: o < TWO_32 ==> CutApart(o, x, y, width)) <==> Room(y - x, width)
  {
    var m := (y - x) % TWO_32;
    if Room(y - x, width) {
      forall o: nat | o < TWO_32
        ensures CutApart(o, x, y, width)
      {
        CutSum(o + x, y - x);
        assert o + x + (y - x) == o + y;
      }
    } else {
      var o := Reach(x, if m < width then 0 else TWO_32 - 1);
      CutSum(o + x, y - x);
      assert o + x + (y - x) == o + y;
      assert !CutApart(o, x, y, width);
    }
  }

  lemma CutApartSwap(o: nat, x: nat, y: nat, width: nat)
    ensures CutApart(o, x, y, width) == CutApart(o, y, x, width)
  {
  }

  /** All pairs of n elements have room. */
  ghost predicate AllRoom(levels: seq<Level>, n: nat, width: nat)
    requires Positive(Sizes(AllDims(levels)))
  {
    forall j: nat, k: nat :: j < k < n ==> Room(Distance(Place(j, levels), Place(k, levels)), width)
  }

  ghost predicate AllApart(levels: seq<Level>, n: nat, o: nat, invBit: nat, width: nat)
    requires Positive(Sizes(AllDims(levels)))
  {
    forall j: nat, k: nat :: j < k < n ==>
      NoOverlap(ElementOf(j, AllDims(levels), o, invBit), ElementOf(k, AllDims(levels), o, invBit), width)
  }

  ghost predicate Well(levels: seq<Level>, width: nat) {
    Covering(levels, width) && width > 0 && forall i :: 0 <= i < |levels| ==> Positive(levels[i].sizes)
  }

  lemma {:induction false} WellPositive(levels: seq<Level>)
    requires forall i :: 0 <= i < |levels| ==> Positive(levels[i].sizes)
    ensures Positive(Sizes(AllDims(levels)))
    decreases |levels|
  {
    hide LevelDims;
    if levels != [] {
      var init, l := levels[..|levels| - 1], levels[|levels| - 1];
      WellPositive(init);
      SizesJoin(AllDims(init), LevelDims(l.sizes, l.offsetBase, l.invBase));
      LevelSizes(l.sizes, l.offsetBase, l.invBase);
      hide Sizes;
      assert forall i :: 0 <= i < |l.sizes| ==> l.sizes[i] > 0;
    }
  }

  lemma PairApart(levels: seq<Level>, width: nat, j: nat, k: nat, o: nat, invBit: nat)
    requires Well(levels, width) && Positive(Sizes(AllDims(levels)))
    requires j < Product(Sizes(AllDims(levels))) && k < Product(Sizes(AllDims(levels)))
    ensures Place(j, levels) >= 0 && Place(k, levels) >= 0
    ensures NoOverlap(ElementOf(j, AllDims(levels), o, invBit), ElementOf(k, AllDims(levels), o, invBit), width)
            <==> CutApart(o, Place(j, levels), Place(k, levels), width)
  {
    hide Displacement, AllDims, Tuple, Sizes, Shift, Well;
    WellParts(levels, width);
    PlaceSign(levels, width, j);
    PlaceSign(levels, width, k);
  }

  /** The expanded elements of an array overlap for no offset of the array if and only if any two of them have room. */
  lemma ElementsApartIff(levels: seq<Level>, width: nat, invBit: nat)
    requires Well(levels, width)
    ensures Positive(Sizes(AllDims(levels)))
    ensures var n := Product(Sizes(AllDims(levels)));
            (forall o: nat :: o < TWO_32 ==> AllApart(levels, n, o, invBit, width)) <==> AllRoom(levels, n, width)
  {
    hide Place, AllDims, Sizes, Product, Room, Positive, ElementOf, NoOverlap, CutApart;
    WellPositive(levels) by { WellParts(levels, width); }
    var n := Product(Sizes(AllDims(levels)));
    if AllRoom(levels, n, width) {
      forall o: nat, j: nat, k: nat | o < TWO_32 && j < k < n
        ensures NoOverlap(ElementOf(j, AllDims(levels), o, invBit), ElementOf(k, AllDims(levels), o, invBit), width)
      {
        PairApart(levels, width, j, k, o, invBit);
        PairIff(Place(j, levels), Place(k, levels), width);
      }
    }
    if forall o: nat :: o < TWO_32 ==> AllApart(levels, n, o, invBit, width) {
      forall j: nat, k: nat | j < k < n
        ensures Room(Distance(Place(j, levels), Place(k, levels)), width)
      {
        forall o: nat | o < TWO_32
          ensures Place(j, levels) >= 0 && Place(k, levels) >= 0
          ensures CutApart(o, Place(j, levels), Place(k, levels), width)
        {
          PairApart(levels, width, j, k, o, invBit);
          assert AllApart(levels, n, o, invBit, width);
        }
        PairApart(levels, width, j, k, 0, invBit);
        PairIff(Place(j, levels), Place(k, levels), width);
      }
    }
  }

  lemma WellParts(levels: seq<Level>, width: nat)
    requires Well(levels, width)
    ensures forall i :: 0 <= i < |levels| ==> Positive(levels[i].sizes)
    ensures width > 0 && Covering(levels, width)
  {
  }

  lemma PairIff(x: nat, y: nat, width: nat)
    requires 0 < width
    ensures (forall o: nat :: o < TWO_32 ==> CutApart(o, x, y, width)) <==> Room(Distance(x, y), width)
  {
    hide CutApart, Room;
    if x <= y {
      CutApartIff(x, y, width);
    } else {
      CutApartIff(y, x, width);
      forall o: nat
        ensures CutApart(o, x, y, width) == CutApart(o, y, x, width)
      {
        CutApartSwap(o, x, y, width);
      }
    }
  }

  /** There is room everywhere when the whole array, as it should lie, takes at most 2^32 bytes. */
  lemma SmallHasRoom(levels: seq<Level>, width: nat)
    requires Well(levels, width) && Extent(levels, 0, width) <= TWO_32
    ensures Positive(Sizes(AllDims(levels))) && AllRoom(levels, Product(Sizes(AllDims(levels))), width)
  {
    hide Place, AllDims, Sizes, Product, Positive, Extent, Covering;
    WellParts(levels, width);
    WellPositive(levels);
    var n := Product(Sizes(AllDims(levels)));
    forall j: nat, k: nat | j < k < n
      ensures Room(Distance(Place(j, levels), Place(k, levels)), width)
    {
      PlaceSign(levels, width, j);
      PlaceSign(levels, width, k);
      PlacesApart(levels, width, j, k);
      var d := Distance(Place(j, levels), Place(k, levels));
      ModUnique(d, TWO_32, 0, d);
    }
  }

  lemma PlacesApart(levels: seq<Level>, width: nat, j: nat, k: nat)
    requires Well(levels, width) && Positive(Sizes(AllDims(levels))) && j < k < Product(Sizes(AllDims(levels)))
    ensures Distance(Place(j, levels), Place(k, levels)) >= width
  {
    hide Displacement, AllDims, Covering, Product, Tuple, Sizes, Positive, InRange;
    var sizes := Sizes(AllDims(levels));
    TupleOf(j, sizes);
    TupleOf(k, sizes);
    TuplesAreElements(sizes, Tuple(j, sizes));
    if Tuple(j, sizes) == Tuple(k, sizes) {
      assert false;
    }
    ElementsDisjoint(levels, Tuple(j, sizes), Tuple(k, sizes), width);
  }

  /** Five elements 2^30 bytes apart, as the base allows: the last one is placed on the first. */
  lemma LastOnFirst()
    ensures var levels := [Level([5], 0x4000_0000, 1)];
            && Well(levels, 8) && Positive(Sizes(AllDims(levels))) && Expands(levels)
            && ElementOf(0, AllDims(levels), 0, 0).byteOffset == ElementOf(4, AllDims(levels), 0, 0).byteOffset == 0
  {
    hide Displacement, Tuple, AllDims, Sizes, Shift, Running;
    OneDim(5, 0x4000_0000, 0);
    OneDim(5, 0x4000_0000, 4);
    var levels := [Level([5], 0x4000_0000, 1)];
    OneExtent(levels[0], 8);
    assert forall n :: 0 < n <= 1 ==> [5][..n] == [5];
  }

  /** One level of one dimension. */
  lemma OneDim(n: nat, base: nat, k: nat)
    requires k < n < TWO_64
    ensures var dims := AllDims([Level([n], base, 1)]);
            && Sizes(dims) == [n] && Running([n]) == Product([n]) == n
            && Tuple(k, [n]) == [k] && Displacement([k], dims) == k * base
  {
    OneLevelDims(n, base);
    OneCount(n);
    OneTuple(k, n);
    OnePlace(k, Dim(n, base, 1));
  }

  lemma OneLevelDims(n: nat, base: nat)
    ensures AllDims([Level([n], base, 1)]) == [Dim(n, base, 1)]
  {
    var l := Level([n], base, 1);
    assert [l][..0] == [] && [n][..0] == [];
    assert LevelDims([], base * n, n) == [];
    assert LevelDims([n], base, 1) == [] + [Dim(n, base, 1)];
  }

  lemma OneCount(n: nat)
    requires n < TWO_64
    ensures Running([n]) == Product([n]) == n
  {
    assert [n][..0] == [];
    ModUnique(n, TWO_64, 0, n);
  }

  lemma OneTuple(k: nat, n: nat)
    requires k < n
    ensures Tuple(k, [n]) == [k]
  {
    assert [n][..0] == [];
    ModUnique(k, n, 0, k);
    assert Tuple(0, []) == [];
  }

  lemma OnePlace(k: nat, d: Dim)
    ensures Displacement([k], [d]) == k * d.stride
  {
    assert [k][..0] == [] && [d][..0] == [];
  }

  lemma OneExtent(l: Level, width: nat)
    requires l.offsetBase >= width && Product(l.sizes) > 0
    ensures Covering([l], width)
  {
    hide Product;
    assert Extent([l], 1, width) == width;
  }
}
