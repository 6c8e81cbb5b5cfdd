/** The reusable record of the writer: typed setters into one buffer, and what the reader finds there. */
module RecordObject {
  import opened Wire
  import opened Bits
  import opened WriterSpec
  import opened Runs
  import R = Records

  /** Bytes the integer setter writes for a channel width. */
  function PutWidth(bits: nat): nat {
    if bits == 8 then 1 else if bits == 16 then 2 else if bits == 32 then 4 else 8
  }

  /** Fails, before anything is written, when the buffer ends before the bytes do. */
  method PutUint(buf: array<Byte>, off: nat, v: nat, bits: nat) returns (ok: bool)
    modifies buf
    ensures ok <==> off + PutWidth(bits) <= buf.Length
    ensures buf[..] == if ok then WriteAt(old(buf[..]), off, LE(v, PutWidth(bits))) else old(buf[..])
  {
    if off + PutWidth(bits) > buf.Length {
      return false;
    }
    match bits {
      case 8 => PutLE(buf, off, v, 1);
      case 16 => PutLE(buf, off, v, 2);
      case 32 => PutLE(buf, off, v, 4);
      case _ => PutLE(buf, off, v, 8);
    }
    ok := true;
  }

  /** The setters of a channel stay inside the buffer. */
  ghost predicate Settable(d: ChanDef, size: nat) {
    d.field.byteOffset + (if d.field.dataType == DT_FLOAT then d.field.bitCount / 8
                          else PutWidth(d.field.bitCount)) <= size
  }

  class Record {
    const chans: seq<ChanDef>
    const buf: array<Byte>
    var strings: seq<Bytes>
    /** The first channel that was set with the wrong type. */
    var failed: Option<nat>

    constructor (chans: seq<ChanDef>, recSize: nat)
      ensures this.chans == chans && buf[..] == Zeros(recSize) && fresh(buf)
      ensures |strings| == |chans| && (forall i :: 0 <= i < |strings| ==> strings[i] == []) && failed == None
    {
      this.chans := chans;
      buf := new Byte[recSize](_ => 0);
      strings := seq(|chans|, _ => []);
      failed := None;
    }

    method Fail(i: nat)
      modifies this`failed
      ensures failed == if old(failed).None? then Some(i) else old(failed)
    {
      if failed.None? {
        failed := Some(i);
      }
    }

    /** bits64 and bits32 are the double and single precision patterns of the value. */
    method SetFloat64(i: nat, bits64: nat, bits32: nat) returns (ok: bool)
      requires i < |chans|
      modifies this`failed, buf
      ensures var f := chans[i].field;
              if f.dataType == DT_FLOAT && (f.bitCount == 64 || f.bitCount == 32) then
                && failed == old(failed) && (ok <==> f.byteOffset + f.bitCount / 8 <= buf.Length)
                && buf[..] == if !ok then old(buf[..])
                              else WriteAt(old(buf[..]), f.byteOffset,
                                           if f.bitCount == 64 then LE(bits64, 8) else LE(bits32, 4))
              else ok && buf[..] == old(buf[..]) && failed == if old(failed).None? then Some(i) else old(failed)
    {
      var f := chans[i].field;
      if f.dataType == DT_FLOAT && (f.bitCount == 64 || f.bitCount == 32) {
        if f.byteOffset + f.bitCount / 8 > buf.Length {
          return false;
        }
        if f.bitCount == 64 {
          PutLE(buf, f.byteOffset, bits64, 8);
        } else {
          PutLE(buf, f.byteOffset, bits32, 4);
        }
      } else {
        Fail(i);
      }
      ok := true;
    }

    method SetInt(i: nat, v: int) returns (ok: bool)
      requires i < |chans|
      modifies this`failed, buf
      ensures var f := chans[i].field;
              if f.dataType == DT_INT then
                && failed == old(failed) && (ok <==> f.byteOffset + PutWidth(f.bitCount) <= buf.Length)
                && buf[..] == if !ok then old(buf[..])
                              else WriteAt(old(buf[..]), f.byteOffset, LE(v % TWO_64, PutWidth(f.bitCount)))
              else ok && buf[..] == old(buf[..]) && failed == if old(failed).None? then Some(i) else old(failed)
    {
      if chans[i].field.dataType != DT_INT {
        Fail(i);
        return true;
      }
      ok := PutUint(buf, chans[i].field.byteOffset, v % TWO_64, chans[i].field.bitCount);
    }

    method SetUint(i: nat, v: nat) returns (ok: bool)
      requires i < |chans|
      modifies this`failed, buf
      ensures var f := chans[i].field;
              if f.dataType == DT_UINT then
                && failed == old(failed) && (ok <==> f.byteOffset + PutWidth(f.bitCount) <= buf.Length)
                && buf[..] == if !ok then old(buf[..])
                              else WriteAt(old(buf[..]), f.byteOffset, LE(v, PutWidth(f.bitCount)))
              else ok && buf[..] == old(buf[..]) && failed == if old(failed).None? then Some(i) else old(failed)
    {
      if chans[i].field.dataType != DT_UINT {
        Fail(i);
        return true;
      }
      ok := PutUint(buf, chans[i].field.byteOffset, v, chans[i].field.bitCount);
    }

    method SetString(i: nat, s: Bytes)
      requires i < |chans| == |strings|
      modifies this`failed, this`strings
      ensures if chans[i].vlsd then strings == old(strings)[i := s] && failed == old(failed)
              else strings == old(strings) && failed == if old(failed).None? then Some(i) else old(failed)
    {
      if !chans[i].vlsd {
        Fail(i);
        return;
      }
      strings := strings[i := s];
    }
  }

  // ---- what the reader finds ----

  /** The reader's view of a defined channel: whole bytes, no invalidation bit. */
  function SpecOf(d: ChanDef): R.Spec {
    R.Spec(d.field.dataType, d.field.byteOffset, 0, d.field.bitCount, None, 0)
  }

  lemma FieldNumber(d: ChanDef, rec: Bytes, x: Bytes)
    requires R.FastWidth(d.field.bitCount) && (d.field.dataType == DT_UINT || d.field.dataType == DT_INT)
    requires |x| == d.field.bitCount / 8 && At(rec, d.field.byteOffset, x)
    ensures R.Extractable(SpecOf(d), |rec|)
    ensures R.FieldBits(SpecOf(d), rec[d.field.byteOffset..]) == FromLE(x)
  {
    hide FromLE, R.WordValue;
    assert rec[d.field.byteOffset..][..d.field.bitCount / 8] == x;
  }

  /** The bytes of a field, as a number, are its sample. */
  lemma FieldSample(d: ChanDef, rec: Bytes, x: Bytes)
    requires R.FastWidth(d.field.bitCount) && (d.field.dataType == DT_UINT || d.field.dataType == DT_INT)
    requires |x| == d.field.bitCount / 8 && At(rec, d.field.byteOffset, x)
    ensures R.Extractable(SpecOf(d), |rec|)
    ensures var u := FromLE(x);
            R.Sample(SpecOf(d), rec)
            == if d.field.dataType == DT_INT then R.Signed(TwosComplement(u, d.field.bitCount)) else R.Unsigned(u)
  {
    hide FromLE, R.FieldBits, SignExtend, TwosComplement, R.Extractable, At;
    FieldNumber(d, rec, x);
    SignExtends(FromLE(x), d.field.bitCount);
  }

  lemma WrittenThere(rec: Bytes, off: nat, x: Bytes)
    requires off + |x| <= |rec|
    ensures At(WriteAt(rec, off, x), off, x) && |WriteAt(rec, off, x)| == |rec|
  {
    WriteAtInside(rec, off, x);
  }

  /** An unsigned channel returns the value set, reduced to its width. */
  lemma SetUintRead(d: ChanDef, rec: Bytes, v: nat)
    requires d.field.dataType == DT_UINT && R.FastWidth(d.field.bitCount) && Settable(d, |rec|)
    ensures var rec' := WriteAt(rec, d.field.byteOffset, LE(v, PutWidth(d.field.bitCount)));
            R.Extractable(SpecOf(d), |rec'|)
            && R.Sample(SpecOf(d), rec') == R.Unsigned(Low(v, d.field.bitCount))
  {
    hide LE, FromLE, WriteAt;
    var x := LE(v, PutWidth(d.field.bitCount));
    WrittenThere(rec, d.field.byteOffset, x);
    FieldSample(d, WriteAt(rec, d.field.byteOffset, x), x);
    WidthOf(v, d.field.bitCount);
  }

  lemma WidthOf(v: nat, bits: nat)
    requires R.FastWidth(bits)
    ensures FromLE(LE(v, PutWidth(bits))) == Low(v, bits)
  {
    LERoundTrip(v, PutWidth(bits));
    Pow2Bytes(PutWidth(bits));
  }

  /** A signed channel returns the value set, reduced to its width with its sign; a value that fits is returned
      unchanged. */
  lemma SetIntRead(d: ChanDef, rec: Bytes, v: int)
    requires d.field.dataType == DT_INT && R.FastWidth(d.field.bitCount) && Settable(d, |rec|)
    ensures var rec' := WriteAt(rec, d.field.byteOffset, LE(v % TWO_64, PutWidth(d.field.bitCount)));
            R.Extractable(SpecOf(d), |rec'|)
            && R.Sample(SpecOf(d), rec') == R.Signed(TwosComplement(v % TWO_64, d.field.bitCount))
    ensures 0 <= v + Pow2(d.field.bitCount - 1) < Pow2(d.field.bitCount) ==>
            TwosComplement(v % TWO_64, d.field.bitCount) == v
  {
    hide LE, FromLE, WriteAt, Pow2;
    var u, n := v % TWO_64, d.field.bitCount;
    var x := LE(u, PutWidth(n));
    WrittenThere(rec, d.field.byteOffset, x);
    FieldSample(d, WriteAt(rec, d.field.byteOffset, x), x);
    WidthOf(u, n);
    TwosAgain(u, n);
    if 0 <= v + Pow2(n - 1) < Pow2(n) {
      FitsWidth(v, n);
    }
  }

  lemma TwosAgain(u: nat, n: nat)
    requires 0 < n <= 64
    ensures TwosComplement(Low(u, n), n) == TwosComplement(u, n)
  {
    ModLower(u, n, n);
  }

  lemma FitsWidth(v: int, n: nat)
    requires 0 < n <= 64 && 0 <= v + Pow2(n - 1) < Pow2(n)
    ensures TwosComplement(v % TWO_64, n) == v
  {
    hide Pow2;
    Pow2Word();
    Pow2Add(1, n - 1);
    Pow2Small();
    Pow2Mono(n, 64);
    Pow2Mono(n - 1, 63);
    var p := Pow2(n);
    if v >= 0 {
      ModUnique(v, TWO_64, 0, v);
      ModUnique(v, p, 0, v);
    } else {
      ModUnique(v, TWO_64, -1, v + TWO_64);
      Pow2Add(n, 64 - n);
      var q := Pow2(64 - n);
      assert v + TWO_64 == (q - 1) * p + (v + p) by { assert (q - 1) * p == q * p - p; }
      ModUnique(v + TWO_64, p, q - 1, v + p);
    }
  }

  /** A setter of one channel leaves every other channel's sample alone. */
  lemma OthersUntouched(chans: seq<Chan>, recSize: nat, i: nat, j: nat, rec: Bytes, x: Bytes)
    requires Tiled(chans, recSize) && i < |chans| && j < |chans| && i != j && |rec| == recSize
    requires |x| == chans[i].def.field.bitCount / 8 && chans[j].def.field.bitCount % 8 == 0
    requires R.Extractable(SpecOf(chans[j].def), recSize)
    ensures var rec' := WriteAt(rec, chans[i].def.field.byteOffset, x);
            |rec'| == |rec| && R.Sample(SpecOf(chans[j].def), rec') == R.Sample(SpecOf(chans[j].def), rec)
  {
    hide FromLE, R.WordValue, R.Number;
    TiledInside(chans, recSize);
    var s, off := SpecOf(chans[j].def), chans[i].def.field.byteOffset;
    var rec' := WriteAt(rec, off, x);
    WriteAtInside(rec, off, x);
    var a, n := s.byteOffset, s.bitCount / 8;
    assert At(rec, a, rec[a..a + n]);
    AtFrame(rec, a, rec[a..a + n], off, x);
    assert rec[a..][..n] == rec[a..a + n] && rec'[a..][..n] == rec'[a..a + n];
    SameBits(s, rec[a..], rec'[a..]);
  }

  /** Samples depend on the bytes of the field only. */
  lemma SameBits(s: R.Spec, p: Bytes, q: Bytes)
    requires s.bitOffset == 0 && s.bitCount % 8 == 0 && s.bitCount / 8 <= |p| && s.bitCount / 8 <= |q|
    requires p[..s.bitCount / 8] == q[..s.bitCount / 8]
    ensures R.FieldBytes(0, s.bitCount) == s.bitCount / 8 && R.FieldBits(s, p) == R.FieldBits(s, q)
  {
    hide R.Number;
  }

  /** A byte behind the channel survives the write of v to it. */
  ghost predicate Survives(bits: nat, rec: Bytes, off: nat, v: nat, k: nat) {
    off + PutWidth(bits) <= |rec| && off + bits / 8 <= k < |rec| ==>
      WriteAt(rec, off, LE(v, PutWidth(bits)))[k] == rec[k]
  }

  /** Writing as many bytes as the setter does stays within the channel exactly when the channel is that wide:
      8, 16, 32 or 64 bits, as documented. */
  lemma SetterStaysInside(bits: nat)
    ensures (forall rec: Bytes, off: nat, v: nat, k: nat :: Survives(bits, rec, off, v, k))
            <==> PutWidth(bits) <= bits / 8
  {
    hide LE;
    if PutWidth(bits) <= bits / 8 {
      forall rec: Bytes, off: nat, v: nat, k: nat
        ensures Survives(bits, rec, off, v, k)
      {
        if off + PutWidth(bits) <= |rec| && off + bits / 8 <= k < |rec| {
          WriteAtInside(rec, off, LE(v, PutWidth(bits)));
        }
      }
    } else {
      Overwrites(bits);
      assert !Survives(bits, Zeros(8), 0, TWO_64 - 1, bits / 8);
    }
  }

  lemma Overwrites(bits: nat)
    requires PutWidth(bits) > bits / 8
    ensures !Survives(bits, Zeros(8), 0, TWO_64 - 1, bits / 8)
  {
    hide LE;
    var rec, v, w := Zeros(8), TWO_64 - 1, PutWidth(bits);
    AllOnes(v, w);
    WriteAtInside(rec, 0, LE(v, w));
    assert WriteAt(rec, 0, LE(v, w))[bits / 8] == LE(v, w)[bits / 8] == 255;
    assert rec[bits / 8] == 0;
  }

  /** A setter fails at run time, instead of recording a failure, when it would write past the end of the record: never
      for a channel as wide as what is written to it, and for the last channel exactly when it is narrower. */
  lemma SetterFailsIff(chans: seq<Chan>, recSize: nat, i: nat)
    requires Tiled(chans, recSize) && i < |chans| && chans[i].def.field.dataType != DT_FLOAT
    ensures PutWidth(chans[i].def.field.bitCount) <= chans[i].def.field.bitCount / 8 ==> Settable(chans[i].def, recSize)
    ensures i == |chans| - 1 ==>
              (Settable(chans[i].def, recSize) <==>
               PutWidth(chans[i].def.field.bitCount) <= chans[i].def.field.bitCount / 8)
  {
    FieldInside(chans, recSize, i);
  }

  lemma {:induction false} FieldInside(chans: seq<Chan>, recSize: nat, i: nat)
    requires Tiled(chans, recSize) && i < |chans|
    ensures chans[i].def.field.byteOffset + chans[i].def.field.bitCount / 8 <= recSize
    ensures i == |chans| - 1 ==> chans[i].def.field.byteOffset + chans[i].def.field.bitCount / 8 == recSize
    decreases |chans|
  {
    var last := |chans| - 1;
    if i < last {
      FieldInside(chans[..last], chans[last].def.field.byteOffset, i);
    }
  }

  lemma AllOnes(v: nat, n: nat)
    requires n <= 8 && v == TWO_64 - 1
    ensures forall i :: 0 <= i < n ==> LE(v, n)[i] == 255
  {
    Pow256Widths();
    OnesDown(v, n, 8);
  }

  lemma {:induction false} OnesDown(v: nat, n: nat, k: nat)
    requires n <= k && v == Pow256(k) - 1
    ensures forall i :: 0 <= i < n ==> LE(v, n)[i] == 255
    decreases n
  {
    if n > 0 {
      assert v % 256 == 255 && v / 256 == Pow256(k - 1) - 1;
      OnesDown(v / 256, n - 1, k - 1);
      assert LE(v, n) == [v % 256] + LE(v / 256, n - 1);
    }
  }
}
