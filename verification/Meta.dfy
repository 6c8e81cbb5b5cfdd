/** The metadata blocks: how the writer lays out their fields, and how the reader finds them again. */
module Meta {
  import opened Wire
  import opened Blocks

  // ---- identification block ----

  const MAGIC_FINAL: Bytes := [0x4D, 0x44, 0x46, 0x20, 0x20, 0x20, 0x20, 0x20]
  const MAGIC_UNFIN: Bytes := [0x55, 0x6E, 0x46, 0x69, 0x6E, 0x4D, 0x46, 0x20]

  /** Cut or padded with blanks to 8 bytes. */
  function Pad8(s: Bytes): (r: Bytes)
    ensures |r| == 8
  {
    seq(8, i requires 0 <= i < 8 => if i < |s| then s[i] else 0x20)
  }

  function IDBytes(program: Bytes, version: nat, versionString: Bytes, unfin: nat): (r: Bytes)
    ensures |r| == ID_SIZE
  {
    (if unfin != 0 then MAGIC_UNFIN else MAGIC_FINAL) + Pad8(versionString) + Pad8(program)
    + Zeros(4) + LE(version, 2) + Zeros(30) + LE(unfin, 2) + Zeros(2)
  }

  datatype ID = ID(unfinalized: bool, version: nat, flags: nat, custom: nat)

  function DecodeID(f: Bytes): Result<ID> {
    var buf :- Slice(f, 0, ID_SIZE);
    if buf[0..8] != MAGIC_FINAL && buf[0..8] != MAGIC_UNFIN then Err(NotMDF4)
    else Ok(ID(buf[0..8] == MAGIC_UNFIN, FromLE(buf[28..30]), FromLE(buf[60..62]), FromLE(buf[62..64])))
  }

  lemma IDFields(f: Bytes, program: Bytes, version: nat, versionString: Bytes, unfin: nat)
    requires version < 0x1_0000 && unfin < 0x1_0000
    requires At(f, 0, IDBytes(program, version, versionString, unfin))
    ensures DecodeID(f) == Ok(ID(unfin != 0, version, unfin, 0))
  {
    hide LE, FromLE, Pad8;
    var x := IDBytes(program, version, versionString, unfin);
    assert f[0..64] == x;
    assert x[0..8] == if unfin != 0 then MAGIC_UNFIN else MAGIC_FINAL;
    assert MAGIC_UNFIN[0] != MAGIC_FINAL[0];
    assert x[28..30] == LE(version, 2);
    assert x[60..62] == LE(unfin, 2);
    assert x[62..64] == Zeros(2);
    LE2(version);
    LE2(unfin);
    ZeroField(2);
  }

  // ---- header, data group, channel group, channel, conversion ----

  function HDBlock(dgFirst: nat, fh: nat, md: nat, startNS: nat): Block {
    Block(ID_HD, [dgFirst, fh, 0, 0, 0, md], LE(startNS, 8) + Zeros(24))
  }

  function DGBlock(next: nat, cgFirst: nat, data: nat): Block {
    Block(ID_DG, [next, cgFirst, data, 0], Zeros(8))
  }

  function CGData(count: nat, recSize: nat): (r: Bytes)
    ensures |r| == 32
  {
    Zeros(8) + LE(count, 8) + Zeros(8) + LE(recSize, 4) + Zeros(4)
  }

  function CGBlock(cnFirst: nat, name: nat, count: nat, recSize: nat): Block {
    Block(ID_CG, [0, cnFirst, name, 0, 0, 0], CGData(count, recSize))
  }

  /** Where a channel's value sits in the record and how it is read. */
  datatype Field = Field(cnType: Byte, syncType: Byte, dataType: Byte, byteOffset: nat, bitCount: nat)

  function CNData(d: Field): (r: Bytes)
    ensures |r| == 72
  {
    [d.cnType, d.syncType, d.dataType, 0] + LE(d.byteOffset, 4) + LE(d.bitCount, 4) + Zeros(60)
  }

  function CNBlock(next: nat, name: nat, cc: nat, data: nat, unit: nat, comment: nat, d: Field): Block {
    Block(ID_CN, [next, 0, name, 0, cc, data, unit, comment], CNData(d))
  }

  /** physical = b + a * raw; both as float64 bit patterns. */
  datatype Linear = Linear(b: nat, a: nat)

  const CC_LINEAR: Byte := 1

  function CCBlock(c: Linear): Block {
    Block(ID_CC, [0, 0, 0, 0], [CC_LINEAR, 0, 0, 0, 0, 0] + LE(2, 2) + Zeros(16) + LE(c.b, 8) + LE(c.a, 8))
  }

  datatype DG = DG(next: int, cgFirst: int, data: int, comment: int, recIdSize: nat)

  function DecodeDG(f: Bytes, addr: int): Result<DG> {
    var r :- DecodeRaw(f, addr, ID_DG, 4, 1);
    Ok(DG(r.Link(0), r.Link(1), r.Link(2), r.Link(3), r.data[0]))
  }

  datatype CG = CG(next: int, cnFirst: int, name: int, comment: int, recordID: nat, count: nat, flags: nat,
                   dataBytes: nat, invalBytes: nat) {
    function RecordSize(): nat { dataBytes + invalBytes }
    predicate IsVLSD() { flags % 2 != 0 }
  }

  function DecodeCG(f: Bytes, addr: int): Result<CG> {
    var r :- DecodeRaw(f, addr, ID_CG, 6, 32);
    var d := r.data;
    Ok(CG(r.Link(0), r.Link(1), r.Link(2), r.Link(5), FromLE(d[0..8]), FromLE(d[8..16]), FromLE(d[16..18]),
          FromLE(d[24..28]), FromLE(d[28..32])))
  }

  datatype CN = CN(next: int, composition: int, name: int, cc: int, data: int, unit: int, comment: int,
                   bitOffset: Byte, field: Field, flags: nat, invalBitPos: nat)

  function DecodeCN(f: Bytes, addr: int): Result<CN> {
    var r :- DecodeRaw(f, addr, ID_CN, 8, 72);
    var d := r.data;
    Ok(CN(r.Link(0), r.Link(1), r.Link(2), r.Link(4), r.Link(5), r.Link(6), r.Link(7), d[3],
          Field(d[0], d[1], d[2], FromLE(d[4..8]), FromLE(d[8..12])), FromLE(d[12..16]), FromLE(d[16..20])))
  }

  datatype CC = CC(ccType: Byte, unit: int, refs: seq<int>, vals: seq<nat>)

  function DecodeCC(f: Bytes, addr: int): Result<Option<CC>> {
    if addr == 0 then Ok(None)
    else
      var r :- DecodeRaw(f, addr, ID_CC, 4, 24);
      var d := r.data;
      var nr, nv := FromLE(d[4..6]), FromLE(d[6..8]);
      if nr > 0 && 4 + nr > |r.links| then Err(InvalidBlock)
      else if nv > 0 && |d| < 24 + 8 * nv then Err(InvalidBlock)
      else
        Ok(Some(CC(d[0], r.Link(1), if nr > 0 then r.links[4..4 + nr] else [],
                   if nv == 0 then [] else seq(nv, i requires 0 <= i < nv => FromLE(d[24 + 8 * i..32 + 8 * i])))))
  }

  function DecodeHD(f: Bytes, addr: int): Result<int> {
    var r :- DecodeRaw(f, addr, ID_HD, 6, 32);
    Ok(r.Link(0))
  }

  lemma DGFields(f: Bytes, a: nat, next: nat, cgFirst: nat, data: nat)
    requires next < TWO_63 && cgFirst < TWO_63 && data < TWO_63
    requires At(f, a, Encode(DGBlock(next, cgFirst, data)))
    ensures DecodeDG(f, a) == Ok(DG(next, cgFirst, data, 0, 0))
  {
    RawBuilt(f, a, DGBlock(next, cgFirst, data), 4, 1);
  }

  lemma HDFields(f: Bytes, a: nat, b: Block)
    requires b.id == ID_HD && |b.links| == 6 && |b.data| == 32 && ValidBlock(b)
    requires At(f, a, Encode(b))
    ensures DecodeHD(f, a) == Ok(b.links[0])
  {
    RawBuilt(f, a, b, 6, 32);
  }

  lemma ZeroField(n: nat)
    ensures FromLE(Zeros(n)) == 0
  {
    if n > 0 {
      ZeroField(n - 1);
      assert Zeros(n)[1..] == Zeros(n - 1);
    }
  }

  lemma CGFields(f: Bytes, a: nat, cnFirst: nat, name: nat, count: nat, recSize: nat)
    requires cnFirst < TWO_63 && name < TWO_63 && count < TWO_64 && recSize < TWO_32
    requires At(f, a, Encode(CGBlock(cnFirst, name, count, recSize)))
    ensures DecodeCG(f, a) == Ok(CG(0, cnFirst, name, 0, 0, count, 0, recSize, 0))
  {
    hide LE, FromLE;
    RawBuilt(f, a, CGBlock(cnFirst, name, count, recSize), 6, 32);
    var d := CGData(count, recSize);
    assert d[0..8] == Zeros(8) && d[16..18] == Zeros(2) && d[28..32] == Zeros(4);
    assert d[8..16] == LE(count, 8);
    assert d[24..28] == LE(recSize, 4);
    LE8(count);
    LE4(recSize);
    ZeroField(8);
    ZeroField(2);
    ZeroField(4);
  }

  lemma CNFields(f: Bytes, a: nat, next: nat, name: nat, cc: nat, data: nat, unit: nat, comment: nat, d: Field)
    requires next < TWO_63 && name < TWO_63 && cc < TWO_63 && data < TWO_63 && unit < TWO_63 && comment < TWO_63
    requires d.byteOffset < TWO_32 && d.bitCount < TWO_32
    requires At(f, a, Encode(CNBlock(next, name, cc, data, unit, comment, d)))
    ensures DecodeCN(f, a) == Ok(CN(next, 0, name, cc, data, unit, comment, 0, d, 0, 0))
  {
    hide LE, FromLE;
    RawBuilt(f, a, CNBlock(next, name, cc, data, unit, comment, d), 8, 72);
    var x := CNData(d);
    assert x[0] == d.cnType && x[1] == d.syncType && x[2] == d.dataType && x[3] == 0;
    assert x[4..8] == LE(d.byteOffset, 4);
    assert x[8..12] == LE(d.bitCount, 4);
    assert x[12..16] == Zeros(4) && x[16..20] == Zeros(4);
    LE4(d.byteOffset);
    LE4(d.bitCount);
    ZeroField(4);
  }

  lemma CCFields(f: Bytes, a: nat, c: Linear)
    requires a != 0 && c.a < TWO_64 && c.b < TWO_64
    requires At(f, a, Encode(CCBlock(c)))
    ensures DecodeCC(f, a) == Ok(Some(CC(CC_LINEAR, 0, [], [c.b, c.a])))
  {
    hide LE, FromLE;
    RawBuilt(f, a, CCBlock(c), 4, 24);
    var d := CCBlock(c).data;
    assert d[4..6] == Zeros(2);
    assert d[6..8] == LE(2, 2);
    assert d[24..32] == LE(c.b, 8);
    assert d[32..40] == LE(c.a, 8);
    LE2(2);
    LE8(c.a);
    LE8(c.b);
    ZeroField(2);
    assert seq(2, i requires 0 <= i < 2 => FromLE(d[24 + 8 * i..32 + 8 * i])) == [c.b, c.a];
  }
}
