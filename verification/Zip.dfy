/** ##DZ blocks: optional transposition followed by zlib, which is a parameter. */
module Zip {
  import opened Wire
  import opened Blocks
  import T = Transpose

  /** zlib (RFC 1950, RFC 1951) seen from outside. `zip` may fail; `unzip` yields every byte a decoder
      can produce from a stream, or nothing when the stream has no zlib header. */
  datatype Zlib = Zlib(zip: Bytes -> Option<Bytes>, unzip: Bytes -> Option<Bytes>)

  ghost predicate Lossless(z: Zlib) {
    forall x: Bytes :: z.zip(x).Some? ==> z.unzip(z.zip(x).value) == Some(x)
  }

  const ZIP_DEFLATE: Byte := 0
  const ZIP_TRANSPOSE_DEFLATE: Byte := 1

  /** Reads exactly orgLen bytes of the inflated stream. */
  function Inflate(z: Zlib, comp: Bytes, orgLen: nat): (r: Result<Bytes>)
    ensures r.Ok? ==> |r.value| == orgLen
  {
    match z.unzip(comp)
    case None => Err(InflateFailed)
    case Some(out) => if |out| < orgLen then Err(InflateFailed) else Ok(out[..orgLen])
  }

  function DZData(id: Bytes, zipType: Byte, zipParam: nat, orgLen: nat, comp: Bytes): (r: Bytes)
    requires |id| == 4
    ensures |r| == 24 + |comp|
  {
    id[2..4] + [zipType, 0] + LE(zipParam, 4) + LE(orgLen, 8) + LE(|comp|, 8) + comp
  }

  /** The compressed form of content, when zlib delivers one. */
  function DZBlock(z: Zlib, id: Bytes, content: Bytes, recSize: nat): (r: Option<Block>)
    requires |id| == 4
    ensures r.Some? ==> r.value.id == ID_DZ && r.value.links == []
  {
    var transposes := T.WriterTransposes(|content|, recSize);
    var src := if transposes then T.Transposed(content, recSize) else content;
    match z.zip(src)
    case None => None
    case Some(comp) =>
      Some(Block(ID_DZ, [], DZData(id, if transposes then ZIP_TRANSPOSE_DEFLATE else ZIP_DEFLATE,
                                   if transposes then recSize else 0, |content|, comp)))
  }

  method BuildDZ(z: Zlib, id: Bytes, content: Bytes, recSize: nat) returns (out: Option<Bytes>)
    requires |id| == 4
    ensures out == (match DZBlock(z, id, content, recSize) case None => None case Some(b) => Some(Encode(b)))
  {
    var zipType, zipParam, src := ZIP_DEFLATE, 0, content;
    if recSize > 1 && |content| > recSize {
      src := T.TransposeInto(content, recSize);
      zipType, zipParam := ZIP_TRANSPOSE_DEFLATE, recSize;
    }
    match z.zip(src) {
      case None => out := None;
      case Some(comp) =>
        var bytes := Build(ID_DZ, [], DZData(id, zipType, zipParam, |content|, comp));
        out := Some(bytes);
    }
  }

  datatype DZ = DZ(orgType: Bytes, zipType: Byte, zipParam: nat, orgLen: nat, compLen: nat, dataAddr: int)

  function DecodeDZ(f: Bytes, addr: int): (r: Result<DZ>)
    ensures r.Ok? ==> r.value.dataAddr == addr + 48 && 0 <= addr
  {
    var r :- DecodeRaw(f, addr, ID_DZ, 0, 24);
    var d := r.data;
    var dz := DZ(d[0..2], d[2], FromLE(d[4..8]), FromLE(d[8..16]), FromLE(d[16..24]), addr + HEADER_SIZE + 24);
    if dz.compLen > (r.header.DataLen() - 24) % TWO_64 then Err(InvalidBlock) else Ok(dz)
  }

  lemma DZParts(id: Bytes, zipType: Byte, zipParam: nat, orgLen: nat, comp: Bytes)
    requires |id| == 4 && zipParam < TWO_32 && orgLen < TWO_63 && |comp| < TWO_63 - 48
    ensures var d := DZData(id, zipType, zipParam, orgLen, comp);
            && d[0..2] == id[2..4] && d[2] == zipType && FromLE(d[4..8]) == zipParam
            && FromLE(d[8..16]) == orgLen && FromLE(d[16..24]) == |comp| && d[24..] == comp
  {
    hide LE, FromLE;
    var d := DZData(id, zipType, zipParam, orgLen, comp);
    assert d[4..8] == LE(zipParam, 4);
    assert d[8..16] == LE(orgLen, 8);
    assert d[16..24] == LE(|comp|, 8);
    LE4(zipParam);
    LE8(orgLen);
    LE8(|comp|);
  }

  /** Without links the data follows the block's head. */
  lemma DataStands(f: Bytes, a: nat, b: Block)
    requires ValidId(b.id) && b.links == [] && At(f, a, Encode(b))
    ensures At(f, a + HEADER_SIZE, b.data)
  {
    hide Encode, HeadBytes, At;
    EncodeParts(b);
    assert LinkBytes(b.links) + b.data == b.data;
    AtConcat(f, a, HeadBytes(b.id, Size(b), |b.links|), b.data);
  }

  /** The decoder reads the fields where the builder puts them. */
  lemma DZFields(f: Bytes, a: nat, id: Bytes, zipType: Byte, zipParam: nat, orgLen: nat, comp: Bytes)
    requires |id| == 4 && zipParam < TWO_32 && orgLen < TWO_63 && |comp| < TWO_63 - 48
    requires At(f, a, Encode(Block(ID_DZ, [], DZData(id, zipType, zipParam, orgLen, comp))))
    ensures DecodeDZ(f, a) == Ok(DZ(id[2..4], zipType, zipParam, orgLen, |comp|, a + 48))
    ensures At(f, a + 48, comp)
  {
    hide FromLE, Encode, DZData, DecodeRaw, At, ValidId;
    var d := DZData(id, zipType, zipParam, orgLen, comp);
    var b := Block(ID_DZ, [], d);
    DZValid(d);
    RawBuilt(f, a, b, 0, 24);
    DZParts(id, zipType, zipParam, orgLen, comp);
    DataStands(f, a, b);
    assert d == d[..24] + comp;
    AtConcat(f, a + HEADER_SIZE, d[..24], comp);
  }

  lemma DZValid(d: Bytes)
    requires |d| < TWO_63 - 24
    ensures ValidBlock(Block(ID_DZ, [], d)) && ValidId(ID_DZ)
  {
  }
}
