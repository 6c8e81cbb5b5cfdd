/** Words of 64 bits as numbers: shifts, bitwise or and and, and what they do to single bits. */
module Bits {
  import opened Wire

  function Pow2(n: nat): (p: nat)
    ensures p >= 1
  {
    if n == 0 then 1 else 2 * Pow2(n - 1)
  }

  lemma {:induction false} Pow2Add(a: nat, b: nat)
    ensures Pow2(a + b) == Pow2(a) * Pow2(b)
  {
    if a > 0 {
      Pow2Add(a - 1, b);
      assert 2 * Pow2(a - 1) * Pow2(b) == 2 * (Pow2(a - 1) * Pow2(b));
    }
  }

  lemma {:induction false} Pow2Bytes(n: nat)
    ensures Pow2(8 * n) == Pow256(n)
  {
    if n > 0 {
      Pow2Bytes(n - 1);
      Pow2Add(8, 8 * (n - 1));
      Pow2Small();
    }
  }

  lemma Pow2Small()
    ensures Pow2(1) == 2 && Pow2(3) == 8 && Pow2(8) == 256
  {
    assert Pow2(2) == 2 * Pow2(1);
    assert Pow2(4) == 2 * Pow2(3) == 2 * (2 * Pow2(2));
    assert Pow2(6) == 2 * Pow2(5) == 2 * (2 * Pow2(4));
    assert Pow2(8) == 2 * Pow2(7) == 2 * (2 * Pow2(6));
  }

  lemma Pow2Word()
    ensures Pow2(64) == TWO_64 && Pow2(63) == TWO_63
  {
    Pow2Bytes(8);
    Pow256Widths();
    assert Pow2(64) == 2 * Pow2(63);
  }

  lemma Pow2Mono(a: nat, b: nat)
    requires a <= b
    ensures Pow2(a) <= Pow2(b)
  {
    Pow2Add(a, b - a);
    MulAtLeast(Pow2(b - a), Pow2(a));
  }

  // ---- quotients and remainders ----

  lemma MulLess(q: nat, b: nat, a: nat, r: nat)
    requires q < b && r < a
    ensures q * a + r < b * a
  {
    assert b * a == q * a + (b - q) * a;
    MulAtLeast(b - q, a);
  }

  lemma DivMod(x: nat, a: nat, b: nat)
    requires a > 0 && b > 0
    ensures a * b > 0
    ensures x / (a * b) == x / a / b
    ensures x % (a * b) == x % a + a * (x / a % b)
  {
    var q, r := x / a / b, x / a % b;
    assert x / a == q * b + r;
    assert x == x / a * a + x % a;
    assert x == q * (a * b) + (r * a + x % a) by {
      assert (q * b + r) * a == q * b * a + r * a;
      assert q * b * a == q * (a * b);
    }
    MulLess(r, b, a, x % a);
    assert b * a == a * b && r * a == a * r;
    MulAtLeast(b, a);
    ModUnique(x, a * b, q, r * a + x % a);
  }

  /** Low bits of a remainder, and its quotient. */
  lemma ModParts(x: nat, a: nat, b: nat)
    requires a > 0 && b > 0
    ensures a * b > 0
    ensures x % (a * b) % a == x % a
    ensures x % (a * b) / a == x / a % b
  {
    DivMod(x, a, b);
    var q := x / a % b;
    assert a * q == q * a;
    ModUnique(x % (a * b), a, q, x % a);
  }

  lemma ModOfSum(q: int, a: nat, r: nat)
    requires a > 0
    ensures (q * a + r) % a == r % a
  {
    assert q * a + r == (q + r / a) * a + r % a;
    ModUnique(q * a + r, a, q + r / a, r % a);
  }

  lemma MulDivExact(q: nat, a: nat, r: nat)
    requires a > 0 && r < a
    ensures (q * a + r) / a == q && (q * a + r) % a == r
  {
    ModUnique(q * a + r, a, q, r);
  }

  // ---- machine operations ----

  function Shl64(v: nat, k: nat): nat { v * Pow2(k) % TWO_64 }

  function Shr(v: nat, k: nat): nat {
    QuotientNat(v, Pow2(k));
    v / Pow2(k)
  }

  lemma QuotientNat(v: nat, p: nat)
    requires p > 0
    ensures v / p >= 0
  {
  }

  /** The low n bits. */
  function Low(v: nat, n: nat): (r: nat)
    ensures r < Pow2(n)
  {
    v % Pow2(n)
  }

  function Or(a: nat, b: nat): nat {
    if a == 0 && b == 0 then 0
    else (if a % 2 == 1 || b % 2 == 1 then 1 else 0) + 2 * Or(a / 2, b / 2)
  }

  function And(a: nat, b: nat): nat {
    if a == 0 || b == 0 then 0
    else (if a % 2 == 1 && b % 2 == 1 then 1 else 0) + 2 * And(a / 2, b / 2)
  }

  /** Or of bits that do not overlap is addition. */
  lemma {:induction false} OrDisjoint(a: nat, k: nat, b: nat)
    requires b < Pow2(k)
    ensures Or(a * Pow2(k), b) == a * Pow2(k) + b
  {
    if k == 0 {
      OrZero(a);
    } else {
      var h := a * Pow2(k - 1);
      assert a * Pow2(k) == 2 * h;
      OrDisjoint(a, k - 1, b / 2);
      assert 2 * h / 2 == h && 2 * h % 2 == 0;
      if h == 0 && b == 0 {
      } else {
        assert Or(2 * h, b) == (if b % 2 == 1 then 1 else 0) + 2 * Or(h, b / 2);
      }
    }
  }

  lemma {:induction false} OrZero(a: nat)
    ensures Or(a, 0) == a
  {
    if a > 0 {
      OrZero(a / 2);
    }
  }

  lemma {:induction false} OrCommutes(a: nat, b: nat)
    ensures Or(a, b) == Or(b, a)
  {
    if a != 0 || b != 0 {
      OrCommutes(a / 2, b / 2);
    }
  }

  /** Remainders by smaller powers see only lower bits. */
  lemma ModLower(x: nat, a: nat, b: nat)
    requires b <= a
    ensures Low(Low(x, a), b) == Low(x, b)
  {
    hide Pow2;
    Pow2Add(b, a - b);
    ModParts(x, Pow2(b), Pow2(a - b));
  }

  /** Shifting up drops what leaves the word. */
  lemma ShlKeeps(v: nat, k: nat)
    requires k <= 64
    ensures Shl64(v, k) == Low(v, 64 - k) * Pow2(k)
  {
    hide Pow2;
    Pow2Add(k, 64 - k);
    Pow2Word();
    ShlSplit(v, Pow2(k), Pow2(64 - k));
  }

  lemma ShlSplit(v: nat, m: nat, q: nat)
    requires m > 0 && q > 0
    ensures m * q > 0 && v * m % (m * q) == v % q * m
  {
    DivMod(v * m, m, q);
    MulDivExact(v, m, 0);
    assert m * (v % q) == v % q * m;
  }

  /** A word and the byte above it, shifted down by o: the word's part and the byte's part. */
  lemma ShiftedWord(w: nat, low: nat, high: nat, o: nat)
    requires low < TWO_64 && w == low + TWO_64 * high && o <= 64
    ensures Low(Shr(w, o), 64 - o) == Shr(low, o)
    ensures Shr(Shr(w, o), 64 - o) == high
  {
    hide Pow2;
    Pow2Add(o, 64 - o);
    Pow2Word();
    MulDivExact(high, TWO_64, low);
    assert w == high * TWO_64 + low;
    ModParts(w, Pow2(o), Pow2(64 - o));
    DivMod(w, Pow2(o), Pow2(64 - o));
  }

  /** The low word of a shifted number with something below it. */
  lemma LowOfJoin(x: nat, w: nat, c: nat, k: nat)
    requires k <= 64 && c < Pow2(k) && x == w * Pow2(k) + c
    ensures Low(x, 64) == Low(w, 64 - k) * Pow2(k) + c
  {
    hide Pow2;
    Pow2Add(k, 64 - k);
    JoinMod(x, w, c, Pow2(k), Pow2(64 - k));
  }

  lemma JoinMod(x: nat, w: nat, c: nat, m: nat, q: nat)
    requires m > 0 && q > 0 && c < m && x == w * m + c
    ensures m * q > 0 && x % (m * q) == w % q * m + c
  {
    DivMod(x, m, q);
    MulDivExact(w, m, c);
    assert m * (w % q) == w % q * m;
  }

  /** And with n low ones is the remainder. */
  lemma {:induction false} AndMask(a: nat, n: nat)
    ensures And(a, Pow2(n) - 1) == Low(a, n)
  {
    if n == 0 {
    } else if a == 0 {
      ModUnique(0, Pow2(n), 0, 0);
    } else {
      AndMask(a / 2, n - 1);
      var m := Pow2(n) - 1;
      assert m % 2 == 1 && m / 2 == Pow2(n - 1) - 1;
      DivMod(a, 2, Pow2(n - 1));
    }
  }

  // ---- single bits ----

  function BitOf(x: nat, i: nat): nat { x / Pow2(i) % 2 }

  /** Bit i of a number is bit i - 1 of its half. */
  lemma HalfBit(x: nat, i: nat)
    requires i > 0
    ensures BitOf(x, i) == BitOf(x / 2, i - 1)
  {
    hide Pow2;
    Pow2Add(1, i - 1);
    Pow2Small();
    DivMod(x, 2, Pow2(i - 1));
  }

  lemma BitZero(x: nat)
    ensures BitOf(x, 0) == x % 2
  {
    assert Pow2(0) == 1;
  }

  /** A field that ends within the word is not touched by truncation. */
  lemma FieldInWord(x: nat, o: nat, n: nat)
    requires o + n <= 64
    ensures Low(Shr(x % TWO_64, o), n) == Low(Shr(x, o), n)
    ensures n == 64 ==> Shr(x % TWO_64, o) == Low(Shr(x, o), n)
  {
    hide Pow2;
    Pow2Word();
    Pow2Add(o, 64 - o);
    ModParts(x, Pow2(o), Pow2(64 - o));
    ModLower(x / Pow2(o), 64 - o, n);
  }

  /** The number whose n bits are bits o, o + 1, ... of x. */
  function Digits(x: nat, o: nat, n: nat): nat
    decreases n
  {
    if n == 0 then 0 else BitOf(x, o) + 2 * Digits(x, o + 1, n - 1)
  }

  lemma {:induction false} DigitsAre(x: nat, o: nat, n: nat)
    ensures Digits(x, o, n) == Low(Shr(x, o), n)
    decreases n
  {
    if n == 0 {
      assert Pow2(0) == 1;
    } else {
      DigitsAre(x, o + 1, n - 1);
      Pow2Add(o, 1);
      Pow2Small();
      DigitStep(x, Pow2(o), Pow2(n - 1));
    }
  }

  lemma DigitStep(x: nat, p: nat, m: nat)
    requires p > 0 && m > 0
    ensures p * 2 > 0 && x / p % (2 * m) == x / p % 2 + 2 * (x / (p * 2) % m)
  {
    DivMod(x, p, 2);
    DivMod(x / p, 2, m);
  }

  /** Bit 8 * i + j of the little-endian number is bit j of byte i. */
  lemma {:induction false} BitOfLE(s: Bytes, i: nat, j: nat)
    requires j < 8
    ensures BitOf(FromLE(s), 8 * i + j) == if i < |s| then BitOf(s[i], j) else 0
    decreases i
  {
    if s == [] {
      ModUnique(0, Pow2(8 * i + j), 0, 0);
    } else {
      var rest := FromLE(s[1..]);
      if i == 0 {
        LowBit(s[0], rest, j);
      } else {
        BitOfLE(s[1..], i - 1, j);
        Pow2Add(8, 8 * (i - 1) + j);
        Pow2Small();
        DivMod(FromLE(s), 256, Pow2(8 * (i - 1) + j));
        MulDivExact(rest, 256, s[0]);
      }
    }
  }

  function Reversed(s: Bytes): (r: Bytes)
    ensures |r| == |s| && forall i :: 0 <= i < |s| ==> r[i] == s[|s| - 1 - i]
  {
    if s == [] then [] else Reversed(s[1..]) + [s[0]]
  }

  function FromBE(s: Bytes): nat { FromLE(Reversed(s)) }

  lemma BESnoc(s: Bytes, b: Byte)
    ensures FromBE(s + [b]) == 256 * FromBE(s) + b
  {
    assert Reversed(s + [b]) == [b] + Reversed(s);
    assert ([b] + Reversed(s))[1..] == Reversed(s);
  }

  lemma LowBit(b: Byte, rest: nat, j: nat)
    requires j < 8
    ensures BitOf(b + 256 * rest, j) == BitOf(b, j)
  {
    hide Pow2;
    var x, p, q := b + 256 * rest, Pow2(j), Pow2(7 - j);
    ByteSplit(j);
    ModParts(x, p, 2 * q);
    MulDivExact(rest, 256, b);
    assert x % 256 == b by { assert x == rest * 256 + b; }
    ModParts(x / p, 2, q);
  }

  lemma ByteSplit(j: nat)
    requires j < 8
    ensures Pow2(j) * (2 * Pow2(7 - j)) == 256
  {
    Pow2Add(j, 8 - j);
    Pow2Small();
  }

  // ---- signed numbers ----

  lemma MulOrder(a: nat, b: nat, d: nat)
    requires a <= b
    ensures a * d <= b * d
  {
    assert b * d == a * d + (b - a) * d;
  }

  /** Two's complement of the low n bits. */
  function TwosComplement(raw: nat, n: nat): int
    requires 0 < n <= 64
  {
    var v := Low(raw, n);
    if v >= Pow2(n - 1) then v - Pow2(n) else v
  }

  /** Arithmetic shift right of a signed word. */
  function Sar(x: int, k: nat): int { x / Pow2(k) }

  lemma WordSigned(raw: nat)
    ensures AsInt64(raw) == if raw % TWO_64 >= TWO_63 then raw % TWO_64 - TWO_64 else raw % TWO_64
  {
  }

  lemma SarExact(v: nat, p: nat, m: nat, h: nat)
    requires v < p && m > 0 && p * m == TWO_64 && h * m == TWO_63
    ensures AsInt64(v * m) / m == if v >= h then v - p else v
  {
    MulLess(v, p, m, 0);
    ModUnique(v * m, TWO_64, 0, v * m);
    if v >= h {
      MulOrder(h, v, m);
      assert v * m - TWO_64 == (v - p) * m;
      ModUnique(v * m - TWO_64, m, v - p, 0);
    } else {
      MulLess(v, h, m, 0);
      ModUnique(v * m, m, v, 0);
    }
  }

  /** Shifted up to the sign bit of the word and arithmetically back. */
  function SignExtend(v: nat, n: nat): int
    requires 0 < n <= 64
  {
    Sar(AsInt64(Shl64(v, 64 - n)), 64 - n)
  }

  lemma SignExtends(v: nat, n: nat)
    requires 0 < n <= 64
    ensures SignExtend(v, n) == TwosComplement(v, n)
  {
    hide Pow2, Shl64, AsInt64;
    Pow2Word();
    var k := 64 - n;
    ShlKeeps(v, k);
    Pow2Add(n, k);
    Pow2Add(n - 1, k);
    SarExact(Low(v, n), Pow2(n), Pow2(k), Pow2(n - 1));
  }
}
