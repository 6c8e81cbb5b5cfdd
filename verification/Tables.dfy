/** Value tables of conversions: lookup with and without interpolation, what it means over real numbers, and range
    search. */
module Tables {
  import opened Wire
  import opened Numbers

  ghost predicate Ascending(keys: seq<real>) {
    forall i, j :: 0 <= i < j < |keys| ==> keys[i] < keys[j]
  }

  ghost predicate Table(keys: seq<real>, vals: seq<real>) {
    |keys| == |vals| > 0 && Ascending(keys)
  }

  // ---- search ----

  /** The first key that is not below x. */
  function FirstFrom(keys: seq<real>, x: real): (i: nat)
    ensures i <= |keys|
  {
    if keys == [] || keys[0] >= x then 0 else 1 + FirstFrom(keys[1..], x)
  }

  lemma {:induction false} FirstFromIs(keys: seq<real>, x: real)
    requires Ascending(keys)
    ensures forall i :: 0 <= i < |keys| ==> (keys[i] < x <==> i < FirstFrom(keys, x))
  {
    if keys != [] && keys[0] < x {
      FirstFromIs(keys[1..], x);
      assert forall i :: 0 < i < |keys| ==> keys[i] == keys[1..][i - 1];
    }
  }

  lemma FirstFromUnique(keys: seq<real>, x: real, n: nat)
    requires Ascending(keys) && n <= |keys| && (n > 0 ==> keys[n - 1] < x) && (n < |keys| ==> x <= keys[n])
    ensures FirstFrom(keys, x) == n
  {
    FirstFromIs(keys, x);
  }

  /** Binary search between two positions, in any list of keys. */
  function Bisect(keys: seq<Number>, x: Number, lo: nat, hi: nat): (i: nat)
    requires lo <= hi <= |keys|
    ensures lo <= i <= hi && (i < hi ==> Le(x, keys[i])) && (lo < i ==> !Le(x, keys[i - 1]))
    decreases hi - lo
  {
    if lo == hi then lo
    else
      var mid := (lo + hi) / 2;
      if Le(x, keys[mid]) then Bisect(keys, x, lo, mid) else Bisect(keys, x, mid + 1, hi)
  }

  /** In ascending keys it finds the first one that is not below x. */
  lemma BisectFirst(keys: seq<real>, x: real)
    requires Ascending(keys)
    ensures Bisect(Reals(keys), Real(x), 0, |keys|) == FirstFrom(keys, x)
  {
    FirstFromUnique(keys, x, Bisect(Reals(keys), Real(x), 0, |keys|));
  }

  /** What is not a number is above every key. */
  lemma {:induction false} BisectNaN(keys: seq<Number>, lo: nat, hi: nat)
    requires lo <= hi <= |keys|
    ensures Bisect(keys, NaN, lo, hi) == hi
    decreases hi - lo
  {
    if lo < hi {
      BisectNaN(keys, (lo + hi) / 2 + 1, hi);
    }
  }

  method Search(keys: seq<Number>, x: Number) returns (i: nat)
    ensures i == Bisect(keys, x, 0, |keys|)
  {
    var lo, hi := 0, |keys|;
    while lo < hi
      invariant 0 <= lo <= hi <= |keys|
      invariant Bisect(keys, x, lo, hi) == Bisect(keys, x, 0, |keys|)
    {
      var mid := (lo + hi) / 2;
      if Le(x, keys[mid]) {
        hi := mid;
      } else {
        lo := mid + 1;
      }
    }
    i := lo;
  }

  // ---- lookup ----

  function Between(k0: real, k1: real, v0: real, v1: real, x: real): real
    requires k0 < k1
  {
    v0 + (v1 - v0) * (x - k0) / (k1 - k0)
  }

  ghost function Lookup(keys: seq<real>, vals: seq<real>, x: real, interp: bool): real
    requires Table(keys, vals)
  {
    var n := |keys|;
    if x <= keys[0] then vals[0]
    else if x >= keys[n - 1] then vals[n - 1]
    else
      var i := FirstFrom(keys, x);
      FirstFromIs(keys, x);
      if keys[i] == x then vals[i]
      else if interp then Between(keys[i - 1], keys[i], vals[i - 1], vals[i], x)
      else if x - keys[i - 1] <= keys[i] - x then vals[i - 1]
      else vals[i]
  }

  function Interpolated(k0: Number, k1: Number, v0: Number, v1: Number, x: Number): Number {
    Add(v0, Div(Mul(Sub(v1, v0), Sub(x, k0)), Sub(k1, k0)))
  }

  /** An indexed element; none where the index would be out of range. */
  function Item<T>(s: seq<T>, i: int): Option<T> {
    if 0 <= i < |s| then Some(s[i]) else None
  }

  /** The lookup as it runs, on any keys, values and argument; none where it would index out of range. */
  function TableValue(keys: seq<Number>, vals: seq<Number>, x: Number, interp: bool): Option<Number> {
    var n := |keys|;
    if n == 0 then None
    else if Le(x, keys[0]) then Item(vals, 0)
    else if Le(keys[n - 1], x) then Item(vals, n - 1)
    else
      var i := Bisect(keys, x, 0, n);
      if i == n || i >= |vals| then None
      else if Same(keys[i], x) then Some(vals[i])
      else if interp then Some(Interpolated(keys[i - 1], keys[i], vals[i - 1], vals[i], x))
      else if Le(Sub(x, keys[i - 1]), Sub(keys[i], x)) then Some(vals[i - 1])
      else Some(vals[i])
  }

  method TabLookup(keys: seq<Number>, vals: seq<Number>, x: Number, interp: bool) returns (r: Option<Number>)
    ensures r == TableValue(keys, vals, x, interp)
  {
    var n := |keys|;
    if n == 0 {
      return None;
    }
    if Le(x, keys[0]) {
      return Item(vals, 0);
    }
    if Le(keys[n - 1], x) {
      return Item(vals, n - 1);
    }
    var i := Search(keys, x);
    if i == n || i >= |vals| {
      return None;
    }
    if Same(keys[i], x) {
      return Some(vals[i]);
    }
    if interp {
      return Some(Interpolated(keys[i - 1], keys[i], vals[i - 1], vals[i], x));
    }
    if Le(Sub(x, keys[i - 1]), Sub(keys[i], x)) {
      return Some(vals[i - 1]);
    }
    return Some(vals[i]);
  }

  /** On ascending real keys the lookup as it runs is the lookup over the reals. */
  lemma LookupRuns(keys: seq<real>, vals: seq<real>, x: real, interp: bool)
    requires Table(keys, vals)
    ensures TableValue(Reals(keys), Reals(vals), Real(x), interp) == Some(Real(Lookup(keys, vals, x, interp)))
  {
    hide Interpolated, Bisect, FirstFrom, Between, Ascending, Sub, Add;
    BisectFirst(keys, x);
    FirstFromIs(keys, x);
    var i := FirstFrom(keys, x);
    if keys[0] < x < keys[|keys| - 1] && keys[i] != x {
      assert 0 < i < |keys| by {
        Inner(keys, x);
      }
      assert keys[i - 1] < keys[i] by {
        InOrder(keys, i);
      }
      if interp {
        RunsBetween(keys[i - 1], keys[i], vals[i - 1], vals[i], x);
      } else {
        Differ(x, keys[i - 1]);
        Differ(keys[i], x);
      }
    }
  }

  lemma InOrder(keys: seq<real>, i: nat)
    requires Ascending(keys) && 0 < i < |keys|
    ensures keys[i - 1] < keys[i]
  {
  }

  lemma Inner(keys: seq<real>, x: real)
    requires Ascending(keys) && keys != [] && keys[0] < x < keys[|keys| - 1]
    ensures 0 < FirstFrom(keys, x) < |keys|
  {
    FirstFromIs(keys, x);
  }

  lemma Differ(a: real, b: real)
    ensures Sub(Real(a), Real(b)) == Real(a - b)
  {
  }

  lemma RunsBetween(k0: real, k1: real, v0: real, v1: real, x: real)
    requires k0 < k1
    ensures Interpolated(Real(k0), Real(k1), Real(v0), Real(v1), Real(x)) == Real(Between(k0, k1, v0, v1, x))
  {
    Parts(k0, k1, v0, v1, x);
  }

  lemma Parts(k0: real, k1: real, v0: real, v1: real, x: real)
    ensures Sub(Real(v1), Real(v0)) == Real(v1 - v0) && Sub(Real(x), Real(k0)) == Real(x - k0)
    ensures Sub(Real(k1), Real(k0)) == Real(k1 - k0)
  {
  }

  /** A table without a key that is not a number fails for exactly one argument: the one that is not a number. */
  lemma LookupFails(keys: seq<Number>, vals: seq<Number>, x: Number, interp: bool)
    requires |keys| == |vals| > 0 && NaN !in keys
    ensures TableValue(keys, vals, x, interp).None? <==> x == NaN
  {
    var n := |keys|;
    assert keys[0] in keys && keys[n - 1] in keys;
    if x == NaN {
      BisectNaN(keys, 0, n);
    }
  }

  // ---- what the lookup means ----

  /** At a key both forms return the value of that key. */
  lemma AtKey(keys: seq<real>, vals: seq<real>, j: nat, interp: bool)
    requires Table(keys, vals) && j < |keys|
    ensures Lookup(keys, vals, keys[j], interp) == vals[j]
  {
    FirstFromIs(keys, keys[j]);
    if 0 < j < |keys| - 1 {
      FirstFromUnique(keys, keys[j], j);
    }
  }

  function Min(a: real, b: real): real { if a <= b then a else b }
  function Max(a: real, b: real): real { if a <= b then b else a }

  lemma BetweenBounds(k0: real, k1: real, v0: real, v1: real, x: real)
    requires k0 < k1 && k0 <= x <= k1
    ensures Min(v0, v1) <= Between(k0, k1, v0, v1, x) <= Max(v0, v1)
  {
    var d, e, t := k1 - k0, v1 - v0, x - k0;
    if e >= 0.0 {
      Scaled(e, t, d);
    } else {
      Scaled(-e, t, d);
      Negated(e * t, d);
      assert (-e) * t == -(e * t);
    }
  }

  lemma Negated(p: real, d: real)
    requires d > 0.0
    ensures (-p) / d == -(p / d)
  {
  }

  /** A part t of a span d takes at most the whole of e. */
  lemma Scaled(e: real, t: real, d: real)
    requires e >= 0.0 && 0.0 <= t <= d && d > 0.0
    ensures 0.0 <= e * t / d <= e
  {
    assert e * t >= 0.0;
    assert e * t <= e * d;
    Quotient(e * t, d, 0.0);
    Quotient(e * d, d, e);
    Divided(e * t, e * d, d);
    Divided(0.0, e * t, d);
  }

  lemma Quotient(p: real, d: real, q: real)
    requires d > 0.0
    ensures p == q * d ==> p / d == q
  {
  }

  lemma Divided(p: real, q: real, d: real)
    requires d > 0.0 && p <= q
    ensures p / d <= q / d
  {
  }

  /** Between two neighbouring keys the interpolated value lies between their values. */
  lemma StaysBetween(keys: seq<real>, vals: seq<real>, i: nat, x: real)
    requires Table(keys, vals) && 0 < i < |keys| && keys[i - 1] <= x <= keys[i]
    ensures Min(vals[i - 1], vals[i]) <= Lookup(keys, vals, x, true) <= Max(vals[i - 1], vals[i])
  {
    if x == keys[i - 1] {
      AtKey(keys, vals, i - 1, true);
    } else if x == keys[i] {
      AtKey(keys, vals, i, true);
    } else {
      FirstFromUnique(keys, x, i);
      BetweenBounds(keys[i - 1], keys[i], vals[i - 1], vals[i], x);
    }
  }

  ghost predicate Monotone(vals: seq<real>) {
    forall i, j :: 0 <= i <= j < |vals| ==> vals[i] <= vals[j]
  }

  /** Over one span the interpolation follows the direction of the table. */
  lemma BetweenMonotone(k0: real, k1: real, v0: real, v1: real, x: real, y: real)
    requires k0 < k1 && v0 <= v1 && x <= y
    ensures Between(k0, k1, v0, v1, x) <= Between(k0, k1, v0, v1, y)
  {
    var d, e := k1 - k0, v1 - v0;
    assert e * (x - k0) <= e * (y - k0);
    Divided(e * (x - k0), e * (y - k0), d);
  }

  /** The span of an argument strictly inside the table: its value lies between the values at the ends. */
  lemma SpanOf(keys: seq<real>, vals: seq<real>, x: real, interp: bool) returns (i: nat)
    requires Table(keys, vals) && keys[0] < x < keys[|keys| - 1]
    ensures 0 < i < |keys| && i == FirstFrom(keys, x) && keys[i - 1] < x <= keys[i]
    ensures Monotone(vals) ==> vals[i - 1] <= Lookup(keys, vals, x, interp) <= vals[i]
  {
    FirstFromIs(keys, x);
    i := FirstFrom(keys, x);
    if Monotone(vals) && keys[i] != x && interp {
      BetweenBounds(keys[i - 1], keys[i], vals[i - 1], vals[i], x);
    }
  }

  /** A monotone table gives a monotone conversion, in both forms. */
  lemma LookupMonotone(keys: seq<real>, vals: seq<real>, x: real, y: real, interp: bool)
    requires Table(keys, vals) && Monotone(vals) && x <= y
    ensures Lookup(keys, vals, x, interp) <= Lookup(keys, vals, y, interp)
  {
    var n := |keys|;
    if keys[0] < x < keys[n - 1] && keys[0] < y < keys[n - 1] {
      var i := SpanOf(keys, vals, x, interp);
      var j := SpanOf(keys, vals, y, interp);
      if i < j {
        assert vals[i] <= vals[j - 1];
      } else if i == j && interp && x != keys[i] && y != keys[i] {
        BetweenMonotone(keys[i - 1], keys[i], vals[i - 1], vals[i], x, y);
      }
    } else if keys[0] < x < keys[n - 1] {
      var i := SpanOf(keys, vals, x, interp);
      assert vals[i] <= vals[n - 1];
    } else if keys[0] < y < keys[n - 1] {
      var j := SpanOf(keys, vals, y, interp);
      assert vals[0] <= vals[j - 1];
    }
  }

  function Distance(a: real, b: real): real { if a <= b then b - a else a - b }

  /** Key j is nearest to x, and of equally near keys the lowest. */
  ghost predicate Nearest(keys: seq<real>, x: real, j: nat) {
    && j < |keys|
    && (forall k :: 0 <= k < |keys| ==> Distance(keys[j], x) <= Distance(keys[k], x))
    && (forall k :: 0 <= k < j ==> Distance(keys[j], x) < Distance(keys[k], x))
  }

  /** Without interpolation the value is that of the nearest key, ties going to the lower one, edges included. */
  lemma LookupNearest(keys: seq<real>, vals: seq<real>, x: real) returns (j: nat)
    requires Table(keys, vals)
    ensures Nearest(keys, x, j) && Lookup(keys, vals, x, false) == vals[j]
  {
    var n := |keys|;
    FirstFromIs(keys, x);
    if x <= keys[0] {
      j := 0;
    } else if x >= keys[n - 1] {
      j := n - 1;
    } else {
      var i := FirstFrom(keys, x);
      j := if keys[i] != x && x - keys[i - 1] <= keys[i] - x then i - 1 else i;
    }
  }

  // ---- ranges ----

  datatype Range = Range(min: Number, max: Number)

  /** The upper bound belongs to the range for integer channels only. */
  predicate Inside(r: Range, intIn: bool, x: Number) {
    Le(r.min, x) && if intIn then Le(x, r.max) else Lt(x, r.max)
  }

  /** The first range from number k on that contains x, -1 when none does. */
  function FirstInside(ranges: seq<Range>, intIn: bool, x: Number, k: nat): (i: int)
    requires k <= |ranges|
    ensures i == -1 || (k <= i < |ranges| && Inside(ranges[i], intIn, x))
    ensures forall j :: k <= j < (if i == -1 then |ranges| else i) ==> !Inside(ranges[j], intIn, x)
    decreases |ranges| - k
  {
    if k == |ranges| then -1
    else if Inside(ranges[k], intIn, x) then k
    else FirstInside(ranges, intIn, x, k + 1)
  }

  method Find(ranges: seq<Range>, intIn: bool, x: Number) returns (i: int)
    ensures i == FirstInside(ranges, intIn, x, 0)
    ensures -1 <= i < |ranges|
    ensures i >= 0 ==> Inside(ranges[i], intIn, x) && forall k :: 0 <= k < i ==> !Inside(ranges[k], intIn, x)
    ensures i == -1 <==> forall k :: 0 <= k < |ranges| ==> !Inside(ranges[k], intIn, x)
  {
    for k := 0 to |ranges|
      invariant FirstInside(ranges, intIn, x, k) == FirstInside(ranges, intIn, x, 0)
    {
      if intIn {
        if Le(ranges[k].min, x) && Le(x, ranges[k].max) {
          return k;
        }
      } else if Le(ranges[k].min, x) && Lt(x, ranges[k].max) {
        return k;
      }
    }
    return -1;
  }
}
