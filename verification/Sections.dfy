/** Data sections: how a link resolves to segments, and what byte stands at each logical offset. */
module Sections {
  import opened Wire
  import opened Blocks
  import opened Zip
  import T = Transpose

  datatype Kind = Stored | Deflate | TransposeDeflate | Zero

  datatype Segment = Segment(logical: int, length: int, addr: int, compLen: int, zipParam: nat, kind: Kind) {
    function End(): int { logical + length }
  }

  datatype DL = DL(next: int, data: seq<int>, equal: bool, equalLength: nat, offsets: seq<nat>)

  ghost predicate ValidDL(dl: DL) {
    !dl.equal ==> |dl.offsets| == |dl.data|
  }

  function DecodeDL(f: Bytes, addr: int): (r: Result<DL>)
    ensures r.Ok? ==> ValidDL(r.value)
  {
    var r :- DecodeRaw(f, addr, ID_DL, 1, 8);
    var d := r.data;
    var n := FromLE(d[4..8]);
    if 1 + n > |r.links| then Err(InvalidBlock)
    else if d[0] % 2 != 0 then
      if |d| < 16 then Err(InvalidBlock)
      else Ok(DL(r.Link(0), r.links[1..1 + n], true, FromLE(d[8..16]), []))
    else if |d| < 8 + 8 * n then Err(InvalidBlock)
    else Ok(DL(r.Link(0), r.links[1..1 + n], false, 0,
               seq(n, i requires 0 <= i < n => FromLE(d[8 + 8 * i..16 + 8 * i]))))
  }

  function DecodeHL(f: Bytes, addr: int): Result<int> {
    var r :- DecodeRaw(f, addr, ID_HL, 1, 3);
    Ok(r.Link(0))
  }

  // ---- one data block, one segment ----

  function ClampedHeader(f: Bytes, addr: int): (r: Result<Header>)
    ensures r.Ok? ==> 0 <= addr && addr + 24 <= |f|
  {
    var buf :- Slice(f, addr, HEADER_SIZE);
    var id, length, linkCount := buf[0..4], FromLE(buf[8..16]), FromLE(buf[16..24]);
    if id[0] != 0x23 || id[1] != 0x23 || linkCount != 0 then Err(InvalidBlock)
    else
      var max := |f| - addr;
      var clamped := if length > max then max else length;
      Ok(Header(id, if clamped < HEADER_SIZE then HEADER_SIZE else clamped, 0))
  }

  /** Content length of a stored block; clamping recovers a last block whose length was never written. */
  function StoredLength(f: Bytes, addr: int, dataLen: nat, clamp: bool): int {
    var max := |f| - addr - HEADER_SIZE;
    if clamp && dataLen > max then max
    else if clamp && dataLen == 0 && max > 0 then max
    else dataLen
  }

  function AddStored(f: Bytes, addr: int, logical: int, clamp: bool): (r: Result<Segment>)
    ensures r.Ok? ==> r.value.kind == Stored && r.value.logical == logical
  {
    var decoded := DecodeHeader(f, addr, []);
    var h :- if decoded.Err? && clamp then ClampedHeader(f, addr) else decoded;
    Ok(Segment(logical, StoredLength(f, addr, h.DataLen(), clamp), addr + HEADER_SIZE, 0, 0, Stored))
  }

  function AddZipped(f: Bytes, addr: int, logical: int): (r: Result<Segment>)
    ensures r.Ok? ==> r.value.kind in {Deflate, TransposeDeflate} && r.value.logical == logical
    ensures r.Ok? ==> r.value.addr == addr + 48 > 0
  {
    var dz :- DecodeDZ(f, addr);
    if dz.zipType == ZIP_DEFLATE then
      Ok(Segment(logical, AsInt64(dz.orgLen), dz.dataAddr, AsInt64(dz.compLen), dz.zipParam, Deflate))
    else if dz.zipType == ZIP_TRANSPOSE_DEFLATE then
      Ok(Segment(logical, AsInt64(dz.orgLen), dz.dataAddr, AsInt64(dz.compLen), dz.zipParam, TransposeDeflate))
    else Err(Unsupported)
  }

  predicate IsStoredId(id: Bytes) {
    id == ID_DT || id == ID_DV || id == ID_SD || id == ID_RD
  }

  /** A leaf of a data list, stored or zipped; both may be mixed. */
  function Leaf(f: Bytes, addr: int, logical: int, clamp: bool): (r: Result<Segment>)
    ensures r.Ok? ==> r.value.logical == logical
  {
    var id :- PeekID(f, addr);
    if IsStoredId(id) then AddStored(f, addr, logical, clamp)
    else if id == ID_DZ then AddZipped(f, addr, logical)
    else Err(InvalidBlock)
  }

  // ---- data lists ----

  /** Logical offset of entry i when `before` blocks precede it in the whole chain. */
  function EntryLogical(dl: DL, i: nat, before: nat): int
    requires ValidDL(dl) && i < |dl.data|
  {
    if dl.equal then AsInt64(dl.equalLength * before) else AsInt64(dl.offsets[i])
  }

  /** Segments of the first n entries of one list block; NIL entries are skipped and not counted. */
  function Entries(f: Bytes, dl: DL, n: nat, before: nat, clamp: bool): Result<seq<Segment>>
    requires ValidDL(dl) && n <= |dl.data|
  {
    if n == 0 then Ok([])
    else
      var prev :- Entries(f, dl, n - 1, before, clamp);
      if dl.data[n - 1] == 0 then Ok(prev)
      else
        var seg :- Leaf(f, dl.data[n - 1], EntryLogical(dl, n - 1, before + |prev|), clamp);
        Ok(prev + [seg])
  }

  /** Walks a chain of list blocks. A chain longer than the file has bytes revisits a block: the program
      would follow it forever, here it ends with CyclicChain. */
  function Chain(f: Bytes, addr: int, acc: seq<Segment>, clamp: bool, fuel: nat): Result<seq<Segment>>
    decreases fuel
  {
    if addr == 0 then Ok(acc)
    else if fuel == 0 then Err(CyclicChain)
    else
      var dl :- DecodeDL(f, addr);
      var es :- Entries(f, dl, |dl.data|, |acc|, clamp);
      Chain(f, dl.next, acc + es, clamp, fuel - 1)
  }

  function ResolveRaw(f: Bytes, addr: int, clamp: bool): Result<seq<Segment>> {
    var id :- PeekID(f, addr);
    if IsStoredId(id) then
      var s :- AddStored(f, addr, 0, clamp);
      Ok([s])
    else if id == ID_DZ then
      var s :- AddZipped(f, addr, 0);
      Ok([s])
    else if id == ID_HL then
      var first :- DecodeHL(f, addr);
      Chain(f, first, [], clamp, |f|)
    else if id == ID_DL then Chain(f, addr, [], clamp, |f|)
    else if id == ID_LD then Err(ColumnStorage)
    else Err(InvalidBlock)
  }

  /** Resolved, then sorted by logical offset. A NIL link is an empty section. */
  function Resolve(f: Bytes, addr: int, clamp: bool): Result<seq<Segment>> {
    if addr == 0 then Ok([])
    else
      var segs :- ResolveRaw(f, addr, clamp);
      Ok(Sorted(segs))
  }

  function SizeOf(segs: seq<Segment>): (n: int)
    ensures n >= 0
    ensures forall i :: 0 <= i < |segs| ==> segs[i].End() <= n
  {
    if segs == [] then 0
    else
      var m := SizeOf(segs[..|segs| - 1]);
      var last := segs[|segs| - 1];
      assert forall i :: 0 <= i < |segs| - 1 ==> segs[i] == segs[..|segs| - 1][i];
      if last.End() > m then last.End() else m
  }

  // ---- sorting ----

  function InsertSeg(segs: seq<Segment>, s: Segment): seq<Segment> {
    if segs == [] then [s]
    else if segs[|segs| - 1].logical <= s.logical then segs + [s]
    else InsertSeg(segs[..|segs| - 1], s) + [segs[|segs| - 1]]
  }

  function Sorted(segs: seq<Segment>): seq<Segment> {
    if segs == [] then [] else InsertSeg(Sorted(segs[..|segs| - 1]), segs[|segs| - 1])
  }

  ghost predicate Ascending(segs: seq<Segment>) {
    forall i, j :: 0 <= i < j < |segs| ==> segs[i].logical <= segs[j].logical
  }

  lemma {:induction false} InsertSorts(segs: seq<Segment>, s: Segment)
    requires Ascending(segs)
    ensures Ascending(InsertSeg(segs, s)) && multiset(InsertSeg(segs, s)) == multiset(segs) + multiset{s}
  {
    if segs != [] && segs[|segs| - 1].logical > s.logical {
      var init, last := segs[..|segs| - 1], segs[|segs| - 1];
      assert segs == init + [last];
      InsertSorts(init, s);
      InsertElements(init, s);
      assert InsertSeg(segs, s) == InsertSeg(init, s) + [last];
      hide InsertSeg;
    }
  }

  lemma {:induction false} InsertElements(segs: seq<Segment>, s: Segment)
    ensures forall i :: 0 <= i < |InsertSeg(segs, s)| ==> InsertSeg(segs, s)[i] == s || InsertSeg(segs, s)[i] in segs
  {
    if segs != [] && segs[|segs| - 1].logical > s.logical {
      var init := segs[..|segs| - 1];
      InsertElements(init, s);
      assert forall x :: x in init ==> x in segs;
    }
  }

  /** The sort returns the same segments in ascending order. */
  lemma {:induction false} SortedSorts(segs: seq<Segment>)
    ensures Ascending(Sorted(segs)) && multiset(Sorted(segs)) == multiset(segs)
  {
    if segs != [] {
      assert segs == segs[..|segs| - 1] + [segs[|segs| - 1]];
      SortedSorts(segs[..|segs| - 1]);
      InsertSorts(Sorted(segs[..|segs| - 1]), segs[|segs| - 1]);
    }
  }

  lemma {:induction false} SortedOfAscending(segs: seq<Segment>)
    requires Ascending(segs)
    ensures Sorted(segs) == segs
  {
    if segs != [] {
      SortedOfAscending(segs[..|segs| - 1]);
      assert segs == segs[..|segs| - 1] + [segs[|segs| - 1]];
      if |segs| > 1 {
        assert segs[..|segs| - 1][|segs| - 2] == segs[|segs| - 2];
      }
    }
  }

  // ---- contents ----

  /** The decompressed content of a zipped segment. */
  function Decompress(f: Bytes, z: Zlib, s: Segment): (r: Result<Bytes>)
    ensures r.Ok? ==> |r.value| == s.length
  {
    var comp :- Slice(f, s.addr, s.compLen);
    if s.length < 0 then Err(InflateFailed)
    else
      var buf :- Inflate(z, comp, s.length);
      Ok(if s.kind == TransposeDeflate then T.Untransposed(buf, s.zipParam) else buf)
  }

  predicate IsZipped(k: Kind) {
    k == Deflate || k == TransposeDeflate
  }

  /** Byte d of a segment, None where the file does not provide it. */
  function SegByte(f: Bytes, z: Zlib, s: Segment, d: int): Option<Byte>
    requires 0 <= d < s.length
  {
    match s.kind
    case Stored => if 0 <= s.addr + d < |f| then Some(f[s.addr + d]) else None
    case Zero => Some(0)
    case _ =>
      match Decompress(f, z, s)
      case Ok(buf) => Some(buf[d])
      case Err(_) => None
  }

  /** The last segment that starts at or before off; -1 when there is none. */
  function SegIndex(segs: seq<Segment>, off: int): (i: int)
    ensures -1 <= i < |segs|
    ensures i >= 0 ==> segs[i].logical <= off
    ensures forall j :: i < j < |segs| ==> segs[j].logical > off
  {
    if segs == [] then -1
    else if segs[|segs| - 1].logical <= off then |segs| - 1
    else SegIndex(segs[..|segs| - 1], off)
  }

  /** The byte at logical offset off; None in a gap, past the end or in an unreadable segment. */
  function ByteAt(f: Bytes, z: Zlib, segs: seq<Segment>, off: int): Option<Byte> {
    var i := SegIndex(segs, off);
    if i < 0 || off >= segs[i].End() then None
    else SegByte(f, z, segs[i], off - segs[i].logical)
  }

  /** Segments in ascending order without overlap; gaps may remain. */
  ghost predicate Disjoint(segs: seq<Segment>) {
    && (forall i :: 0 <= i < |segs| ==> segs[i].length >= 0 && segs[i].logical >= 0)
    && (forall i, j :: 0 <= i < j < |segs| ==> segs[i].End() <= segs[j].logical)
  }

  /** Disjoint, starting at 0 and without gaps. */
  ghost predicate Contiguous(segs: seq<Segment>) {
    && (forall i :: 0 <= i < |segs| ==> segs[i].length > 0)
    && (|segs| > 0 ==> segs[0].logical == 0)
    && (forall i :: 0 < i < |segs| ==> segs[i - 1].End() == segs[i].logical)
  }

  function SegContent(f: Bytes, z: Zlib, s: Segment): Result<Bytes> {
    match s.kind
    case Stored => Slice(f, s.addr, s.length)
    case Zero => if s.length < 0 then Err(OutOfBounds) else Ok(Zeros(s.length))
    case _ => Decompress(f, z, s)
  }

  ghost predicate Readable(f: Bytes, z: Zlib, segs: seq<Segment>) {
    forall i :: 0 <= i < |segs| ==> SegContent(f, z, segs[i]).Ok?
  }

  /** One flat byte string: the contents of the segments in order. */
  function Flat(f: Bytes, z: Zlib, segs: seq<Segment>): Bytes {
    if segs == [] then []
    else
      Flat(f, z, segs[..|segs| - 1]) + match SegContent(f, z, segs[|segs| - 1]) case Ok(b) => b case Err(_) => []
  }

  lemma SegByteOfContent(f: Bytes, z: Zlib, s: Segment, d: int)
    requires 0 <= d < s.length && SegContent(f, z, s).Ok?
    ensures |SegContent(f, z, s).value| == s.length
    ensures SegByte(f, z, s, d) == Some(SegContent(f, z, s).value[d])
  {
  }

  lemma {:induction false} ContiguousLayout(f: Bytes, z: Zlib, segs: seq<Segment>)
    requires Contiguous(segs) && Readable(f, z, segs)
    ensures Disjoint(segs)
    ensures segs != [] ==> segs[|segs| - 1].End() == |Flat(f, z, segs)|
    ensures SizeOf(segs) == |Flat(f, z, segs)|
  {
    if segs != [] {
      var init, last := segs[..|segs| - 1], segs[|segs| - 1];
      assert forall i :: 0 <= i < |init| ==> init[i] == segs[i];
      ContiguousLayout(f, z, init);
      SegByteOfContent(f, z, last, 0);
      assert init != [] ==> init[|init| - 1] == segs[|segs| - 2];
      forall i, j | 0 <= i < j < |segs|
        ensures segs[i].End() <= segs[j].logical
      {
        if j < |segs| - 1 {
          assert init[i].End() <= init[j].logical;
        } else if i < |segs| - 2 {
          assert init[i].End() <= init[|init| - 1].logical;
        }
      }
    }
  }

  lemma ByteAtEmpty(f: Bytes, z: Zlib, off: int)
    ensures ByteAt(f, z, [], off) == None
  {
  }

  lemma ByteAtInit(f: Bytes, z: Zlib, segs: seq<Segment>, off: int)
    requires segs != [] && off < segs[|segs| - 1].logical
    ensures ByteAt(f, z, segs, off) == ByteAt(f, z, segs[..|segs| - 1], off)
  {
    assert SegIndex(segs, off) == SegIndex(segs[..|segs| - 1], off);
  }

  lemma ByteAtLast(f: Bytes, z: Zlib, segs: seq<Segment>, off: int)
    requires segs != [] && segs[|segs| - 1].logical <= off
    ensures ByteAt(f, z, segs, off) ==
            if off >= segs[|segs| - 1].End() then None
            else SegByte(f, z, segs[|segs| - 1], off - segs[|segs| - 1].logical)
  {
  }

  /** On contiguous readable segments the byte at off is byte off of the flat string, and there is none past its end. */
  lemma {:induction false} FlatByte(f: Bytes, z: Zlib, segs: seq<Segment>, off: nat)
    requires Contiguous(segs) && Readable(f, z, segs)
    ensures ByteAt(f, z, segs, off) == if off < |Flat(f, z, segs)| then Some(Flat(f, z, segs)[off]) else None
  {
    hide SegByte, SegContent, SizeOf, ByteAt, SegIndex;
    if segs == [] {
      ByteAtEmpty(f, z, off);
    } else {
      var init, last := segs[..|segs| - 1], segs[|segs| - 1];
      assert forall i :: 0 <= i < |init| ==> init[i] == segs[i];
      ContiguousLayout(f, z, segs);
      ContiguousLayout(f, z, init);
      assert init != [] ==> init[|init| - 1] == segs[|segs| - 2];
      assert last.logical == |Flat(f, z, init)|;
      if off < last.logical {
        ByteAtInit(f, z, segs, off);
        FlatByte(f, z, init, off);
      } else {
        ByteAtLast(f, z, segs, off);
        if off < last.End() {
          SegByteOfContent(f, z, last, off - last.logical);
        }
      }
    }
  }
}
