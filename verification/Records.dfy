/** Sample values in records: bit fields, the fast paths for aligned ones, and column extraction. */
module Records {
  import opened Wire
  import opened Bits
  import opened Bitsets

  // ---- bit fields ----

  /** The bytes of a field as one number. */
  function Number(p: Bytes, bigE: bool): nat {
    if bigE then FromBE(p) else FromLE(p)
  }

  function FieldBytes(bitOffset: nat, bitCount: nat): nat { (bitOffset + bitCount + 7) / 8 }

  /** The exact value: bits bitOffset and up of the number that the field's bytes make. */
  function FieldValue(p: Bytes, bitOffset: nat, bitCount: nat, bigE: bool): nat
    requires FieldBytes(bitOffset, bitCount) <= |p|
  {
    Low(Shr(Number(p[..FieldBytes(bitOffset, bitCount)], bigE), bitOffset), bitCount)
  }

  /** What accumulating in one 64-bit word gives. */
  function WordValue(p: Bytes, bitOffset: nat, bitCount: nat, bigE: bool): nat
    requires FieldBytes(bitOffset, bitCount) <= |p|
  {
    var v := Shr(Number(p[..FieldBytes(bitOffset, bitCount)], bigE) % TWO_64, bitOffset);
    if bitCount < 64 then And(v, Pow2(bitCount) - 1) else v
  }

  /** Byte by byte into the low end of a word; what does not fit is lost at the high end. */
  method BitField(p: Bytes, bitOffset: nat, bitCount: nat, bigE: bool) returns (v: nat)
    requires FieldBytes(bitOffset, bitCount) <= |p|
    ensures v == WordValue(p, bitOffset, bitCount, bigE)
  {
    hide Or, Shl64, FromLE, FromBE;
    var nBytes := (bitOffset + bitCount + 7) / 8;
    v := 0;
    Empty();
    if bigE {
      assert p[..0] == [];
      for i := 0 to nBytes
        invariant v == FromBE(p[..i]) % TWO_64
      {
        assert p[..i + 1] == p[..i] + [p[i]];
        BESnoc(p[..i], p[i]);
        ByteShifted(FromBE(p[..i]), p[i]);
        v := Or(Shl64(v, 8), p[i]);
      }
    } else {
      var i := nBytes;
      assert p[nBytes..nBytes] == [];
      while i > 0
        invariant 0 <= i <= nBytes && v == FromLE(p[i..nBytes]) % TWO_64
      {
        i := i - 1;
        LECons(p[i..nBytes]);
        assert p[i..nBytes][1..] == p[i + 1..nBytes];
        ByteShifted(FromLE(p[i + 1..nBytes]), p[i]);
        v := Or(Shl64(v, 8), p[i]);
      }
      assert p[0..nBytes] == p[..nBytes];
    }
    v := Shr(v, bitOffset);
    if bitCount < 64 {
      v := And(v, Pow2(bitCount) - 1);
    }
  }

  lemma Empty()
    ensures FromLE([]) == 0 && FromBE([]) == 0
  {
  }

  lemma LECons(s: Bytes)
    requires s != []
    ensures FromLE(s) == s[0] + 256 * FromLE(s[1..])
  {
  }

  /** Shifting a byte into a truncated word is truncating the longer number. */
  lemma ByteShifted(x: nat, b: Byte)
    ensures Or(Shl64(x % TWO_64, 8), b) == (256 * x + b) % TWO_64
  {
    hide Or, Pow2;
    var v := x % TWO_64;
    ShlKeeps(v, 8);
    Pow2Small();
    Pow2Word();
    OrDisjoint(Low(v, 56), 8, b);
    Pow2Add(8, 56);
    ModLower(x, 64, 56);
    DivMod(256 * x + b, 256, Pow2(56));
    MulDivExact(x, 256, b);
    assert 256 * x + b == x * 256 + b;
  }

  /** One word is enough exactly for fields that end within 64 bits. */
  lemma WordExact(p: Bytes, bitOffset: nat, bitCount: nat, bigE: bool)
    requires FieldBytes(bitOffset, bitCount) <= |p| && bitOffset + bitCount <= 64
    ensures WordValue(p, bitOffset, bitCount, bigE) == FieldValue(p, bitOffset, bitCount, bigE)
  {
    hide And, Pow2, Number, Shr, Low;
    var x := Number(p[..FieldBytes(bitOffset, bitCount)], bigE);
    FieldInWord(x, bitOffset, bitCount);
    AndMask(Shr(x % TWO_64, bitOffset), bitCount);
  }

  // ---- where one word is not enough ----

  function Ones(n: nat): Bytes {
    seq(n, _ => 255)
  }

  lemma {:induction false} OnesLE(n: nat)
    ensures FromLE(Ones(n)) == Pow2(8 * n) - 1
  {
    if n > 0 {
      OnesLE(n - 1);
      assert Ones(n)[1..] == Ones(n - 1);
      Pow2Add(8, 8 * (n - 1));
      Pow2Small();
    }
  }

  lemma OnesNumber(n: nat, bigE: bool)
    ensures Number(Ones(n), bigE) == Pow2(8 * n) - 1
  {
    assert Reversed(Ones(n)) == Ones(n);
    OnesLE(n);
  }

  /** Low ones shifted down are low ones. */
  lemma OnesShifted(a: nat, b: nat)
    ensures Shr(Pow2(a + b) - 1, a) == Pow2(b) - 1
    ensures Low(Pow2(a + b) - 1, a) == Pow2(a) - 1
  {
    hide Pow2;
    Pow2Add(a, b);
    var m, q := Pow2(a), Pow2(b);
    assert m * q - 1 == (q - 1) * m + (m - 1);
    ModUnique(m * q - 1, m, q - 1, m - 1);
  }

  lemma OnesField(bitOffset: nat, bitCount: nat, bigE: bool)
    ensures FieldValue(Ones(FieldBytes(bitOffset, bitCount)), bitOffset, bitCount, bigE) == Pow2(bitCount) - 1
  {
    hide Number, Pow2, Shr, Low;
    var n := FieldBytes(bitOffset, bitCount);
    assert Ones(n)[..n] == Ones(n);
    OnesNumber(n, bigE);
    OnesShifted(bitOffset, 8 * n - bitOffset);
    OnesShifted(bitCount, 8 * n - bitOffset - bitCount);
  }

  lemma OnesAccumulated(bitOffset: nat, bitCount: nat, bigE: bool)
    requires bitOffset + bitCount > 64 && bitCount > 0
    ensures WordValue(Ones(FieldBytes(bitOffset, bitCount)), bitOffset, bitCount, bigE) < Pow2(bitCount) - 1
  {
    hide Number, Pow2, And, Shr, Low;
    LowWord(Number(Ones(FieldBytes(bitOffset, bitCount)), bigE));
    var n := FieldBytes(bitOffset, bitCount);
    assert Ones(n)[..n] == Ones(n);
    OnesNumber(n, bigE);
    OnesShifted(64, 8 * n - 64);
    Pow2Word();
    OnesWord(bitOffset, bitCount);
    AndMask(Shr(TWO_64 - 1, bitOffset), bitCount);
  }

  /** A field of ones that passes bit 64 loses its upper bits. */
  lemma OnesLost(bitOffset: nat, bitCount: nat, bigE: bool)
    requires bitOffset + bitCount > 64 && bitCount > 0
    ensures var p := Ones(FieldBytes(bitOffset, bitCount));
            WordValue(p, bitOffset, bitCount, bigE) != FieldValue(p, bitOffset, bitCount, bigE)
  {
    hide WordValue, FieldValue;
    OnesField(bitOffset, bitCount, bigE);
    OnesAccumulated(bitOffset, bitCount, bigE);
  }

  lemma OnesWord(bitOffset: nat, bitCount: nat)
    requires bitOffset + bitCount > 64 && bitCount > 0
    ensures Shr(TWO_64 - 1, bitOffset) < Pow2(bitCount) - 1
    ensures Low(Shr(TWO_64 - 1, bitOffset), bitCount) < Pow2(bitCount) - 1
  {
    hide Pow2;
    Pow2Word();
    if bitOffset <= 64 {
      OnesShifted(bitOffset, 64 - bitOffset);
      StrictPow(64 - bitOffset, bitCount);
    } else {
      StrictPow(64, bitOffset);
      ModUnique(TWO_64 - 1, Pow2(bitOffset), 0, TWO_64 - 1);
      StrictPow(0, bitCount);
      PowZero();
    }
    var v := Shr(TWO_64 - 1, bitOffset);
    ModUnique(v, Pow2(bitCount), 0, v);
  }

  lemma LowWord(x: nat)
    ensures Low(x, 64) == x % TWO_64
  {
    Pow2Word();
  }

  lemma PowZero()
    ensures Pow2(0) == 1
  {
  }

  lemma StrictPow(a: nat, b: nat)
    requires a < b
    ensures Pow2(a) < Pow2(b)
  {
    Pow2Mono(a, b - 1);
  }

  /** One word holds every field of this shape exactly when the field is empty or ends within 64 bits. */
  lemma WordExactIff(bitOffset: nat, bitCount: nat, bigE: bool)
    ensures (forall p: Bytes :: FieldBytes(bitOffset, bitCount) <= |p| ==>
               WordValue(p, bitOffset, bitCount, bigE) == FieldValue(p, bitOffset, bitCount, bigE))
            <==> bitCount == 0 || bitOffset + bitCount <= 64
  {
    hide WordValue, FieldValue;
    if bitCount == 0 || bitOffset + bitCount <= 64 {
      forall p: Bytes | FieldBytes(bitOffset, bitCount) <= |p|
        ensures WordValue(p, bitOffset, bitCount, bigE) == FieldValue(p, bitOffset, bitCount, bigE)
      {
        if bitOffset + bitCount <= 64 {
          WordExact(p, bitOffset, bitCount, bigE);
        } else {
          EmptyField(p, bitOffset, bigE);
        }
      }
    } else {
      OnesLost(bitOffset, bitCount, bigE);
    }
  }

  lemma EmptyField(p: Bytes, bitOffset: nat, bigE: bool)
    requires FieldBytes(bitOffset, 0) <= |p|
    ensures WordValue(p, bitOffset, 0, bigE) == FieldValue(p, bitOffset, 0, bigE)
  {
    hide Number;
    PowZero();
    AndMask(Shr(Number(p[..FieldBytes(bitOffset, 0)], bigE) % TWO_64, bitOffset), 0);
  }

  // ---- samples ----

  const UINT_LE: nat := 0
  const UINT_BE: nat := 1
  const INT_LE: nat := 2
  const INT_BE: nat := 3
  const FLOAT_LE: nat := 4
  const FLOAT_BE: nat := 5
  const STRING_FIRST: nat := 6
  const STRING_LAST: nat := 9
  const BYTES_LAST: nat := 14

  /** Where a channel lives in the record; invalBit is absent when the channel has no invalidation bit. */
  datatype Spec = Spec(dataType: nat, byteOffset: nat, bitOffset: nat, bitCount: nat, invalBit: Option<nat>,
                       dataBytes: nat)

  /** A sample before any conversion. Floats are kept as the bit pattern found in the record. */
  datatype Value = Unsigned(u: nat) | Signed(x: int) | Float(width: nat, bits: nat) | Chars(bytes: Bytes)

  predicate BigEndian(s: Spec) { s.dataType == UINT_BE || s.dataType == INT_BE || s.dataType == FLOAT_BE }

  predicate IsSigned(s: Spec) { s.dataType == INT_LE || s.dataType == INT_BE }

  predicate Aligned(s: Spec) { s.bitOffset == 0 && s.bitCount % 8 == 0 }

  predicate FastWidth(n: nat) { n == 8 || n == 16 || n == 32 || n == 64 }

  function FieldEnd(s: Spec): nat { s.byteOffset + FieldBytes(s.bitOffset, s.bitCount) }

  /** Which specifications can be extracted from records of this size. */
  predicate Extractable(s: Spec, recSize: nat) {
    && FieldEnd(s) <= recSize && s.dataType <= BYTES_LAST
    && (FLOAT_LE <= s.dataType <= FLOAT_BE ==> Aligned(s) && (s.bitCount == 16 || s.bitCount == 32 || s.bitCount == 64))
    && (STRING_FIRST <= s.dataType <= STRING_LAST ==> Aligned(s))
  }

  /** The bits of an integer field: whole words directly, everything else bit by bit. */
  function FieldBits(s: Spec, p: Bytes): nat
    requires FieldBytes(s.bitOffset, s.bitCount) <= |p|
  {
    if Aligned(s) && FastWidth(s.bitCount) then Number(p[..s.bitCount / 8], BigEndian(s))
    else WordValue(p, s.bitOffset, s.bitCount, BigEndian(s))
  }

  /** Sign extension as the shifts do it; a field wider than the word is shifted out entirely. */
  function SignedBits(u: nat, bitCount: nat): int {
    if 0 < bitCount <= 64 then SignExtend(u, bitCount) else 0
  }

  function Sample(s: Spec, rec: Bytes): Value
    requires Extractable(s, |rec|)
  {
    var p := rec[s.byteOffset..];
    if s.dataType <= INT_BE then
      if IsSigned(s) then Signed(SignedBits(FieldBits(s, p), s.bitCount)) else Unsigned(FieldBits(s, p))
    else if s.dataType <= FLOAT_BE then Float(s.bitCount, Number(p[..s.bitCount / 8], BigEndian(s)))
    else Chars(p[..s.bitCount / 8])
  }

  /** The fast paths agree with the bit-by-bit one. */
  lemma FastAgrees(s: Spec, p: Bytes)
    requires FieldBytes(s.bitOffset, s.bitCount) <= |p| && Aligned(s) && FastWidth(s.bitCount)
    ensures Number(p[..s.bitCount / 8], BigEndian(s)) == WordValue(p, s.bitOffset, s.bitCount, BigEndian(s))
  {
    hide WordValue, Number, Pow2;
    assert FieldBytes(0, s.bitCount) == s.bitCount / 8;
    WordExact(p, 0, s.bitCount, BigEndian(s));
    var x := Number(p[..s.bitCount / 8], BigEndian(s));
    NumberBounded(p[..s.bitCount / 8], BigEndian(s));
    Pow2Bytes(s.bitCount / 8);
    WholeNumber(x, s.bitCount);
  }

  lemma NumberBounded(p: Bytes, bigE: bool)
    ensures Number(p, bigE) < Pow256(|p|)
  {
    FromLEBound(p);
    FromLEBound(Reversed(p));
  }

  lemma WholeNumber(x: nat, n: nat)
    requires x < Pow2(n)
    ensures Low(Shr(x, 0), n) == x
  {
    PowZero();
    ModUnique(x, Pow2(n), 0, x);
  }

  /** What a sample of an integer field within 64 bits is: the field's bits, or their two's complement value. */
  lemma SampleExact(s: Spec, rec: Bytes)
    requires Extractable(s, |rec|) && s.dataType <= INT_BE && 0 < s.bitCount && s.bitOffset + s.bitCount <= 64
    ensures var u := FieldValue(rec[s.byteOffset..], s.bitOffset, s.bitCount, BigEndian(s));
            Sample(s, rec) == if IsSigned(s) then Signed(TwosComplement(u, s.bitCount)) else Unsigned(u)
  {
    hide WordValue, FieldValue, Number;
    var p := rec[s.byteOffset..];
    WordExact(p, s.bitOffset, s.bitCount, BigEndian(s));
    if Aligned(s) && FastWidth(s.bitCount) {
      FastAgrees(s, p);
    }
    SignExtends(FieldBits(s, p), s.bitCount);
  }

  // ---- columns ----

  /** The invalidation flag of a record; a bit outside the record is never read. */
  function Flagged(s: Spec, rec: Bytes): bool {
    s.invalBit.Some? && FlagByte(s) < |rec| && BitOf(rec[FlagByte(s)], s.invalBit.value % 8) == 1
  }

  function FlagByte(s: Spec): nat
    requires s.invalBit.Some?
  {
    s.dataBytes + s.invalBit.value / 8
  }

  /** Whether extraction appends invalidation flags at all. */
  predicate FlagsKept(s: Spec, recSize: nat) { s.invalBit.Some? && FlagByte(s) < recSize }

  function Values(s: Spec, recs: seq<Bytes>): (r: seq<Value>)
    requires forall i :: 0 <= i < |recs| ==> Extractable(s, |recs[i]|)
    ensures |r| == |recs| && forall i :: 0 <= i < |recs| ==> r[i] == Sample(s, recs[i])
  {
    seq(|recs|, i requires 0 <= i < |recs| => Sample(s, recs[i]))
  }

  function Flags(s: Spec, recs: seq<Bytes>): (r: seq<bool>)
    ensures |r| == |recs| && forall i :: 0 <= i < |recs| ==> r[i] == Flagged(s, recs[i])
  {
    seq(|recs|, i requires 0 <= i < |recs| => Flagged(s, recs[i]))
  }

  /** count records of recSize bytes from the start of a buffer. */
  function Split(buf: Bytes, recSize: nat, count: nat): (r: seq<Bytes>)
    requires count * recSize <= |buf|
    ensures |r| == count && forall i :: 0 <= i < count ==> |r[i]| == recSize
  {
    seq(count, i requires 0 <= i < count => Piece(buf, recSize, count, i))
  }

  function Piece(buf: Bytes, recSize: nat, count: nat, i: nat): (r: Bytes)
    requires count * recSize <= |buf| && i < count
    ensures |r| == recSize
  {
    PieceInside(recSize, count, i);
    buf[i * recSize..i * recSize + recSize]
  }

  lemma PieceInside(recSize: nat, count: nat, i: nat)
    requires i < count
    ensures 0 <= i * recSize && i * recSize + recSize <= count * recSize
  {
    MulOrder(i + 1, count, recSize);
    assert (i + 1) * recSize == i * recSize + recSize;
  }

  /** The value of one record, by the path its layout selects. */
  method ExtractOne(s: Spec, rec: Bytes) returns (v: Value)
    requires Extractable(s, |rec|)
    ensures v == Sample(s, rec)
  {
    hide WordValue, Number;
    var p := rec[s.byteOffset..];
    if s.dataType > FLOAT_BE {
      return Chars(p[..s.bitCount / 8]);
    }
    if s.dataType > INT_BE {
      return Float(s.bitCount, Number(p[..s.bitCount / 8], BigEndian(s)));
    }
    var u: nat;
    if Aligned(s) && FastWidth(s.bitCount) {
      u := Number(p[..s.bitCount / 8], BigEndian(s));
    } else {
      u := BitField(p, s.bitOffset, s.bitCount, BigEndian(s));
    }
    v := if IsSigned(s) then Signed(SignedBits(u, s.bitCount)) else Unsigned(u);
  }

  /** Extract: the samples of count records join the column, their invalidation flags the flag set. */
  method Extract(s: Spec, buf: Bytes, recSize: nat, count: nat, column: seq<Value>, invalid: Bitset)
    returns (r: Result<seq<Value>>)
    requires invalid.Valid()
    modifies invalid
    ensures invalid.Valid()
    ensures r.Ok? <==> count * recSize <= |buf| && Extractable(s, recSize)
    ensures r.Ok? ==> r.value == column + Values(s, Split(buf, recSize, count))
    ensures r.Ok? ==> invalid.flags == old(invalid.flags)
                      + if FlagsKept(s, recSize) then Flags(s, Split(buf, recSize, count)) else []
    ensures r.Err? ==> invalid.flags == old(invalid.flags)
  {
    hide WordValue, Number, Sample, Flagged;
    if |buf| < recSize * count {
      return Err(OutOfBounds);
    }
    if FieldEnd(s) > recSize || !Extractable(s, recSize) {
      return Err(Unsupported);
    }
    ghost var recs := Split(buf, recSize, count);
    var out := column;
    for i := 0 to count
      invariant out == column + Values(s, recs[..i])
      invariant invalid.Valid() && invalid.flags == old(invalid.flags)
    {
      PieceInside(recSize, count, i);
      var v := ExtractOne(s, buf[i * recSize..i * recSize + recSize]);
      assert recs[..i + 1] == recs[..i] + [recs[i]];
      out := out + [v];
    }
    assert recs[..count] == recs;
    if FlagsKept(s, recSize) {
      ExtractFlags(s, buf, recSize, count, invalid);
    }
    r := Ok(out);
  }

  /** extractInvalid: one flag per record. */
  method ExtractFlags(s: Spec, buf: Bytes, recSize: nat, count: nat, invalid: Bitset)
    requires invalid.Valid() && count * recSize <= |buf| && FlagsKept(s, recSize)
    modifies invalid
    ensures invalid.Valid() && invalid.flags == old(invalid.flags) + Flags(s, Split(buf, recSize, count))
  {
    hide BitOf, And;
    var byteIdx, bit := FlagByte(s), s.invalBit.value % 8;
    ghost var recs := Split(buf, recSize, count);
    for i := 0 to count
      invariant invalid.Valid() && invalid.flags == old(invalid.flags) + Flags(s, recs[..i])
    {
      PieceInside(recSize, count, i);
      var b := buf[i * recSize + byteIdx];
      assert b == recs[i][byteIdx];
      AndBit(b, bit);
      invalid.Append(And(b, Pow2(bit)) != 0);
      assert recs[..i + 1] == recs[..i] + [recs[i]];
    }
    assert recs[..count] == recs;
  }
}
