/** DBC signals: extraction of Intel and Motorola bit fields from a frame payload. */
module Dbc {
  import opened Wire
  import opened Bits

  /** Where a signal lives in the payload. */
  datatype Signal = Signal(startBit: nat, length: int, bigEndian: bool, signed: bool)

  // ---- the definition, bit by bit ----

  /** Bit k of a payload: byte k / 8, counted from its low end. Missing bytes have no ones. */
  function IntelBit(p: Bytes, k: nat): nat {
    if k / 8 < |p| then BitOf(p[k / 8], k % 8) else 0
  }

  /** Bit q of a payload counted from the high end of its first byte. */
  function MotorolaBit(p: Bytes, q: nat): nat {
    if q / 8 < |p| then BitOf(p[q / 8], 7 - q % 8) else 0
  }

  /** The n bits from k upwards, lowest first. */
  function IntelField(p: Bytes, k: nat, n: nat): nat
    decreases n
  {
    if n == 0 then 0 else IntelBit(p, k) + 2 * IntelField(p, k + 1, n - 1)
  }

  /** The n bits from q on, highest first. */
  function MotorolaField(p: Bytes, q: nat, n: nat): nat
    decreases n
  {
    if n == 0 then 0 else 2 * MotorolaField(p, q, n - 1) + MotorolaBit(p, q + n - 1)
  }

  /** A Motorola start bit names the highest bit of the field, in the numbering of its byte. */
  function FirstBit(startBit: nat): nat {
    8 * (startBit / 8) + (7 - startBit % 8)
  }

  /** Where the field starts, counted from the low or from the high end. */
  function First(s: Signal): nat {
    if s.bigEndian then FirstBit(s.startBit) else s.startBit
  }

  /** The byte with the k-th bit of the field. */
  function ByteOf(s: Signal, k: nat): nat { (First(s) + k) / 8 }

  /** Byte i of the payload holds a bit of the field. */
  ghost predicate Touches(s: Signal, i: nat) {
    exists k: nat :: k < s.length && i == ByteOf(s, k)
  }

  /** Bytes from the start of the payload to the end of the field. */
  function Needed(s: Signal): int {
    First(s) / 8 + (First(s) % 8 + s.length + 7) / 8
  }

  /** The raw value of a signal, when its length is sensible and the payload has every byte it touches. */
  function Raw(s: Signal, p: Bytes): Option<nat> {
    if s.length <= 0 || s.length > 64 || Needed(s) > |p| then None
    else if s.bigEndian then Some(MotorolaField(p, First(s), s.length))
    else Some(IntelField(p, First(s), s.length))
  }

  lemma LastByte(s: Signal)
    requires s.length > 0
    ensures ByteOf(s, s.length - 1) + 1 == Needed(s)
    ensures forall k: nat :: k < s.length ==> ByteOf(s, k) < Needed(s)
  {
    forall k: nat | k < s.length
      ensures ByteOf(s, k) <= ByteOf(s, s.length - 1)
    {
    }
  }

  /** Extraction fails exactly when the length is out of range or a byte of the field is missing. */
  lemma RawFails(s: Signal, p: Bytes)
    ensures Raw(s, p).None? <==> s.length <= 0 || s.length > 64 || exists i: nat :: Touches(s, i) && i >= |p|
  {
    hide MotorolaField, IntelField, ByteOf, First, Needed;
    if 0 < s.length <= 64 {
      LastByte(s);
      var last: nat := s.length - 1;
      assert Touches(s, ByteOf(s, last));
    }
  }

  // ---- the payload as one number ----

  function Padded(p: Bytes): (r: Bytes)
    ensures |r| == 9
  {
    seq(9, i requires 0 <= i < 9 => if i < |p| then p[i] else 0)
  }

  lemma {:induction false} IntelDigits(p: Bytes, k: nat, n: nat)
    ensures IntelField(p, k, n) == Digits(FromLE(p), k, n)
    decreases n
  {
    hide FromLE, BitOf;
    if n > 0 {
      IntelDigits(p, k + 1, n - 1);
      BitOfLE(p, k / 8, k % 8);
    }
  }

  /** Counted from the high end, bit q of the reversed bytes is bit 8 * |p| - 1 - q. */
  lemma MotorolaDigit(p: Bytes, q: nat)
    requires q < 8 * |p|
    ensures MotorolaBit(p, q) == BitOf(FromBE(p), 8 * |p| - 1 - q)
  {
    hide FromLE, BitOf;
    var i, j := |p| - 1 - q / 8, 7 - q % 8;
    BitOfLE(Reversed(p), i, j);
    assert 8 * i + j == 8 * |p| - 1 - q;
  }

  lemma {:induction false} MotorolaDigits(p: Bytes, q: nat, n: nat)
    requires q + n <= 8 * |p|
    ensures MotorolaField(p, q, n) == Digits(FromBE(p), 8 * |p| - q - n, n)
    decreases n
  {
    hide FromBE, BitOf, MotorolaBit;
    if n > 0 {
      MotorolaDigits(p, q, n - 1);
      MotorolaDigit(p, q + n - 1);
    }
  }

  lemma ZeroBit(i: nat)
    ensures BitOf(0, i) == 0
  {
    ModUnique(0, Pow2(i), 0, 0);
  }

  lemma BitOfTail(p: Bytes, b: nat, k: nat)
    requires b <= |p| && k < 72
    ensures IntelBit(p, 8 * b + k) == IntelBit(Padded(p[b..]), k)
    ensures MotorolaBit(p, 8 * b + k) == MotorolaBit(Padded(p[b..]), k)
  {
    hide BitOf;
    assert (8 * b + k) / 8 == b + k / 8 && (8 * b + k) % 8 == k % 8;
    ZeroBit(k % 8);
    ZeroBit(7 - k % 8);
  }

  /** Only the bytes from the first touched one on matter, and of those nine. */
  lemma {:induction false} IntelTail(p: Bytes, b: nat, o: nat, n: nat)
    requires b <= |p| && o + n <= 72
    ensures IntelField(p, 8 * b + o, n) == IntelField(Padded(p[b..]), o, n)
    decreases n
  {
    hide IntelBit;
    if n > 0 {
      IntelTail(p, b, o + 1, n - 1);
      BitOfTail(p, b, o);
    }
  }

  lemma {:induction false} MotorolaTail(p: Bytes, b: nat, o: nat, n: nat)
    requires b <= |p| && o + n <= 72
    ensures MotorolaField(p, 8 * b + o, n) == MotorolaField(Padded(p[b..]), o, n)
    decreases n
  {
    hide MotorolaBit;
    if n > 0 {
      MotorolaTail(p, b, o, n - 1);
      BitOfTail(p, b, o + n - 1);
    }
  }

  // ---- the words the program reads ----

  /** Up to eight bytes, lowest first; missing ones are zero. */
  method LeWord(p: Bytes) returns (v: nat)
    ensures v == FromLE(p[..if |p| > 8 then 8 else |p|]) < TWO_64
  {
    hide Or, FromLE;
    var n := if |p| > 8 then 8 else |p|;
    v := 0;
    var i: nat := n;
    Bounded(p[..0]);
    assert p[n..n] == [] && p[..0] == [];
    NoBytes();
    while i > 0
      invariant i <= n && v == FromLE(p[i..n]) && v < Pow256(n - i)
    {
      i := i - 1;
      LowByteFirst(p, i, n);
      ShiftIn(v, p[i], n - i - 1);
      v := Or(Shl64(v, 8), p[i]);
    }
    assert p[0..n] == p[..n];
    Bounded(p[..n]);
  }

  lemma NoBytes()
    ensures FromLE([]) == 0 && Pow256(0) == 1 && FromBE([]) == 0
  {
  }

  lemma LowByteFirst(p: Bytes, i: nat, n: nat)
    requires i < n <= |p|
    ensures FromLE(p[i..n]) == 256 * FromLE(p[i + 1..n]) + p[i]
  {
    assert p[i..n][1..] == p[i + 1..n];
  }

  lemma {:induction false} Bounded(s: Bytes)
    requires |s| <= 8
    ensures FromLE(s) < TWO_64
  {
    hide FromLE, Pow2;
    FromLEBound(s);
    Pow256Widths();
    Pow2Bytes(|s|);
    Pow2Bytes(8);
    Pow2Mono(8 * |s|, 64);
  }

  /** Another byte at the low end of a word that has room for it. */
  lemma ShiftIn(v: nat, b: Byte, k: nat)
    requires v < Pow256(k) && k < 8
    ensures Or(Shl64(v, 8), b) == 256 * v + b < Pow256(k + 1)
  {
    Pow2Small();
    Pow256Widths();
    Pow2Bytes(k + 1);
    Pow2Mono(8 * (k + 1), 64);
    Pow2Word();
    assert v * 256 + b < Pow256(k + 1);
    ModUnique(v * 256, TWO_64, 0, v * 256);
    OrDisjoint(v, 8, b);
  }

  /** Up to eight bytes, highest first; missing ones are zero. */
  method BeWord(p: Bytes) returns (v: nat)
    ensures v == FromBE(Padded(p)[..8]) < TWO_64
  {
    hide Or, Shl64, FromBE;
    var n := if |p| > 8 then 8 else |p|;
    v := 0;
    assert p[..0] == [];
    NoBytes();
    for i := 0 to n
      invariant v == FromBE(p[..i]) && v < Pow256(i)
    {
      assert p[..i + 1] == p[..i] + [p[i]];
      BESnoc(p[..i], p[i]);
      ShiftIn(v, p[i], i);
      v := Or(Shl64(v, 8), p[i]);
    }
    PadBE(p[..n], 8 - n);
    assert Padded(p)[..8] == p[..n] + Zeros(8 - n);
    WholeWord(v, n);
    v := Shl64(v, 8 * (8 - n));
  }

  lemma {:induction false} PadBE(s: Bytes, k: nat)
    ensures FromBE(s + Zeros(k)) == FromBE(s) * Pow2(8 * k)
  {
    hide FromBE;
    if k == 0 {
      assert s + Zeros(0) == s;
    } else {
      PadBE(s, k - 1);
      assert s + Zeros(k) == s + Zeros(k - 1) + [0];
      BESnoc(s + Zeros(k - 1), 0);
      Pow2Add(8, 8 * (k - 1));
      Pow2Small();
      var x, y := FromBE(s), Pow2(8 * (k - 1));
      assert 256 * (x * y) == x * (256 * y);
    }
  }

  lemma WholeWord(v: nat, n: nat)
    requires n <= 8 && v < Pow256(n)
    ensures Shl64(v, 8 * (8 - n)) == v * Pow2(8 * (8 - n)) < TWO_64
  {
    hide Pow2, Pow256;
    Pow2Bytes(n);
    Pow2Add(8 * n, 8 * (8 - n));
    Pow2Word();
    var q, m := Pow2(8 * n), Pow2(8 * (8 - n));
    MulLess(v, q, m, 0);
    ModUnique(v * m, TWO_64, 0, v * m);
  }

  /** All ones below bit n. */
  function Mask(n: nat): nat {
    if n >= 64 then TWO_64 - 1 else Pow2(n) - 1
  }

  lemma MaskOf(v: nat, n: nat)
    requires n <= 64
    ensures And(v, Mask(n)) == Low(v, n)
  {
    Pow2Word();
    AndMask(v, n);
  }

  // ---- extraction ----

  /** Intel: the word from the first byte, shifted down, with the ninth byte's bits put on top when the field has
      any. */
  method RawLittle(s: Signal, p: Bytes) returns (r: Option<nat>)
    requires 0 < s.length <= 64 && !s.bigEndian
    ensures r == Raw(s, p)
  {
    hide Or, And, Shl64, FromLE, Mask, IntelField;
    var startByte, bitOff := s.startBit / 8, s.startBit % 8;
    var need := (bitOff + s.length + 7) / 8;
    if startByte + need > |p| {
      return None;
    }
    var tail := p[startByte..];
    var v := LeWord(tail);
    v := Shr(v, bitOff);
    if bitOff + s.length > 64 {
      v := Or(v, Shl64(p[startByte + 8], 64 - bitOff));
    }
    IntelWord(tail, bitOff, s.length);
    MaskOf(v, s.length);
    IntelTail(p, startByte, bitOff, s.length);
    r := Some(And(v, Mask(s.length)));
  }

  lemma {:induction false} PadLE(s: Bytes, k: nat)
    ensures FromLE(s + Zeros(k)) == FromLE(s)
  {
    if s == [] {
      ZerosValue(k);
      assert s + Zeros(k) == Zeros(k);
    } else {
      PadLE(s[1..], k);
      assert (s + Zeros(k))[1..] == s[1..] + Zeros(k);
    }
  }

  lemma {:induction false} ZerosValue(k: nat)
    ensures FromLE(Zeros(k)) == 0
  {
    if k > 0 {
      ZerosValue(k - 1);
      assert Zeros(k)[1..] == Zeros(k - 1);
    }
  }

  lemma {:induction false} TopByteLE(s: Bytes, b: Byte)
    ensures FromLE(s + [b]) == FromLE(s) + Pow256(|s|) * b
  {
    if s == [] {
      assert [] + [b] == [b] && [b][1..] == [];
    } else {
      TopByteLE(s[1..], b);
      assert (s + [b])[1..] == s[1..] + [b];
      var m := Pow256(|s| - 1);
      assert 256 * (m * b) == 256 * m * b;
    }
  }

  /** Nine bytes, lowest first, are a word and a byte above it. */
  lemma IntelParts(tail: Bytes)
    ensures var low := FromLE(tail[..if |tail| > 8 then 8 else |tail|]);
            low < TWO_64 && FromLE(Padded(tail)) == low + TWO_64 * Padded(tail)[8]
  {
    hide FromLE;
    var n := if |tail| > 8 then 8 else |tail|;
    Bounded(tail[..n]);
    PadLE(tail[..n], 8 - n);
    var nine := Padded(tail);
    assert nine[..8] == tail[..n] + Zeros(8 - n);
    assert nine == nine[..8] + [nine[8]];
    TopByteLE(nine[..8], nine[8]);
    Pow256Widths();
  }

  lemma IntelWord(tail: Bytes, o: nat, n: nat)
    requires o < 8 && 0 < n <= 64 && (o + n + 7) / 8 <= |tail|
    ensures var w := Shr(FromLE(tail[..if |tail| > 8 then 8 else |tail|]), o);
            var v := if o + n > 64 then Or(w, Shl64(tail[8], 64 - o)) else w;
            Low(v, n) == IntelField(Padded(tail), o, n)
  {
    hide FromLE, IntelField, Or, Shl64, Pow2, Digits, Shr, Low;
    var low := FromLE(tail[..if |tail| > 8 then 8 else |tail|]);
    var whole, high := FromLE(Padded(tail)), Padded(tail)[8];
    IntelParts(tail);
    IntelDigits(Padded(tail), o, n);
    DigitsAre(whole, o, n);
    ShiftedWord(whole, low, high, o);
    var x := Shr(whole, o);
    if o + n > 64 {
      ShlKeeps(high, 64 - o);
      JoinedWord(x, Shr(low, o), high, o);
      ModLower(x, 64, n);
    } else {
      ModLower(x, 64 - o, n);
    }
  }

  /** The word's part and the byte's part joined are the low 64 bits. */
  lemma JoinedWord(x: nat, w: nat, high: nat, o: nat)
    requires o <= 64 && Low(x, 64 - o) == w && Shr(x, 64 - o) == high
    ensures Or(w, Low(high, o) * Pow2(64 - o)) == Low(x, 64)
  {
    hide Or, Pow2;
    var k := 64 - o;
    OrCommutes(w, high % Pow2(o) * Pow2(k));
    assert w < Pow2(k);
    OrDisjoint(high % Pow2(o), k, w);
    Pow2Add(k, o);
    DivMod(x, Pow2(k), Pow2(o));
    assert Pow2(k) * (high % Pow2(o)) == high % Pow2(o) * Pow2(k);
  }

  /** Motorola: the word from the first byte, shifted down, or shifted up with the ninth byte's bits put below. */
  method RawBig(s: Signal, p: Bytes) returns (r: Option<nat>)
    requires 0 < s.length <= 64 && s.bigEndian
    ensures r == Raw(s, p)
  {
    hide Or, And, Shl64, FromBE, Mask, MotorolaField;
    var msb := 8 * (s.startBit / 8) + (7 - s.startBit % 8);
    var firstByte, bitOff := msb / 8, msb % 8;
    var need := (bitOff + s.length + 7) / 8;
    if firstByte + need > |p| {
      return None;
    }
    var tail := p[firstByte..];
    var v := BeWord(tail);
    var shift := 64 - bitOff - s.length;
    if shift >= 0 {
      v := Shr(v, shift);
    } else {
      v := Shl64(v, -shift);
      v := Or(v, Shr(p[firstByte + 8], 8 + shift));
    }
    MotorolaWord(tail, bitOff, s.length);
    MaskOf(v, s.length);
    MotorolaTail(p, firstByte, bitOff, s.length);
    r := Some(And(v, Mask(s.length)));
  }

  /** Nine bytes, highest first, are a word and a byte below it. */
  lemma MotorolaParts(tail: Bytes)
    ensures FromBE(Padded(tail)) == 256 * FromBE(Padded(tail)[..8]) + Padded(tail)[8]
  {
    hide FromBE;
    var nine := Padded(tail);
    assert nine == nine[..8] + [nine[8]];
    BESnoc(nine[..8], nine[8]);
  }

  lemma MotorolaWord(tail: Bytes, o: nat, n: nat)
    requires o < 8 && 0 < n <= 64 && (o + n + 7) / 8 <= |tail|
    ensures var w, shift := FromBE(Padded(tail)[..8]), 64 - o - n;
            var v := if shift >= 0 then Shr(w, shift) else Or(Shl64(w, -shift), Shr(tail[8], 8 + shift));
            Low(v, n) == MotorolaField(Padded(tail), o, n)
  {
    hide FromBE, MotorolaField, Or, Shl64, Pow2, Digits, Shr, Low;
    var w, low := FromBE(Padded(tail)[..8]), Padded(tail)[8];
    var whole := FromBE(Padded(tail));
    MotorolaParts(tail);
    MotorolaDigits(Padded(tail), o, n);
    DigitsAre(whole, 72 - o - n, n);
    Pow2Small();
    var shift := 64 - o - n;
    if shift >= 0 {
      ByteBelow(whole, w, low, shift);
    } else {
      var k := -shift;
      ShlKeeps(w, k);
      LowJoined(whole, w, low, k);
      ModLower(Shr(whole, 8 - k), 64, n);
    }
  }

  lemma ByteBelow(whole: nat, w: nat, low: Byte, shift: nat)
    requires whole == 256 * w + low
    ensures Shr(whole, 8 + shift) == Shr(w, shift)
  {
    hide Pow2;
    Pow2Small();
    Pow2Add(8, shift);
    DivMod(whole, 256, Pow2(shift));
    assert whole == w * 256 + low;
    MulDivExact(w, 256, low);
  }

  /** A word shifted up by k with the upper k bits of a byte below it. */
  lemma LowJoined(whole: nat, w: nat, low: Byte, k: nat)
    requires whole == 256 * w + low && 0 < k < 8
    ensures Or(Low(w, 64 - k) * Pow2(k), Shr(low, 8 - k)) == Low(Shr(whole, 8 - k), 64)
  {
    hide Or, Pow2, Low;
    Pow2Add(k, 8 - k);
    Pow2Small();
    Upper(whole, w, low, Pow2(k), Pow2(8 - k));
    OrDisjoint(Low(w, 64 - k), k, Shr(low, 8 - k));
    LowOfJoin(Shr(whole, 8 - k), w, Shr(low, 8 - k), k);
  }

  lemma Upper(whole: nat, w: nat, low: Byte, m: nat, d: nat)
    requires m > 0 && d > 0 && m * d == 256 && whole == 256 * w + low
    ensures whole / d == w * m + low / d && low / d < m
  {
    assert low == low / d * d + low % d;
    assert whole == (w * m + low / d) * d + low % d by {
      assert w * m * d == w * (m * d);
      assert (w * m + low / d) * d == w * m * d + low / d * d;
    }
    ModUnique(whole, d, w * m + low / d, low % d);
    if low / d >= m {
      MulOrder(m, low / d, d);
      assert false;
    }
  }

  // ---- signed values ----

  /** SignedRaw: shifted up to the sign bit and back. */
  function SignedRaw(s: Signal, raw: nat): int
    requires 0 < s.length <= 64
  {
    if !s.signed || s.length >= 64 then AsInt64(raw)
    else SignExtend(raw, s.length)
  }

  /** A signed signal is the two's complement reading of its bits. */
  lemma SignedIsTwosComplement(s: Signal, raw: nat)
    requires 0 < s.length <= 64 && s.signed
    ensures SignedRaw(s, raw) == TwosComplement(raw, s.length)
  {
    if s.length < 64 {
      SignExtends(raw, s.length);
    } else {
      WordSigned(raw);
      Pow2Word();
    }
  }


  /** Extraction as the program dispatches it. */
  method Extract(s: Signal, p: Bytes) returns (r: Option<nat>)
    ensures r == Raw(s, p)
  {
    if s.length <= 0 || s.length > 64 {
      return None;
    }
    if s.bigEndian {
      r := RawBig(s, p);
    } else {
      r := RawLittle(s, p);
    }
  }

  /** MuxValueOf: the signed raw value of the message's multiplexer switch. */
  function MuxValueOf(mux: Option<Signal>, p: Bytes): Option<int> {
    match mux
    case None => None
    case Some(s) =>
      match Raw(s, p)
      case None => None
      case Some(raw) => Some(SignedRaw(s, raw))
  }
}
