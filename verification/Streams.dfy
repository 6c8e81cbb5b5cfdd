/** Chunked streams: what is written for a link, and that the reader gets it back. */
module Streams {
  import opened Wire
  import opened Blocks
  import opened Zip
  import opened Sections
  import opened Store
  import opened WriterSpec
  import opened Written
  import T = Transpose

  /** The block of a segment holds the part, plain or zipped. */
  ghost predicate SegHolds(h: Heap, z: Zlib, id: Bytes, recSize: nat, seg: WSeg, part: Bytes) {
    && |id| == 4 && seg.addr in h && part != [] && seg.orgLen == |part|
    && (h[seg.addr] == Block(id, [], part) || DZBlock(z, id, part, recSize) == Some(h[seg.addr]))
  }

  ghost predicate Parts(h: Heap, z: Zlib, id: Bytes, recSize: nat, segs: seq<WSeg>, parts: seq<Bytes>) {
    && |parts| == |segs|
    && forall i :: 0 <= i < |segs| ==> SegHolds(h, z, id, recSize, segs[i], parts[i])
  }

  /** Record streams are cut between records, into pieces just past the chunk size. */
  ghost predicate WholeRecords(parts: seq<Bytes>, recSize: nat, chunkSize: nat) {
    recSize > 0 ==> forall i :: 0 <= i < |parts| ==> |parts[i]| % recSize == 0 && |parts[i]| < chunkSize + recSize
  }

  /** Everything appended to the stream so far: written parts, then the buffer. */
  ghost predicate StreamIs(h: Heap, z: Zlib, cs: Stream, chunkSize: nat, all: Bytes) {
    && RecordId(cs.id) && cs.total == |all| && |cs.buf| < chunkSize
    && (cs.segs == [] <==> |all| < chunkSize)
    && (cs.recSize > 0 ==> |cs.buf| % cs.recSize == 0)
    && exists parts ::
         && Parts(h, z, cs.id, cs.recSize, cs.segs, parts) && Concat(parts) + cs.buf == all
         && WholeRecords(parts, cs.recSize, chunkSize)
  }

  predicate MetaId(id: Bytes) { id == ID_HD || id == ID_DG || id == ID_CG || id == ID_CN }

  predicate RecordId(id: Bytes) { id == ID_DT || id == ID_SD }

  /** Blocks with records, signal data or lists stay as they are; links and counters of others may change. */
  ghost predicate DataKept(h: Heap, h': Heap) {
    forall a :: a in h && !MetaId(h[a].id) ==> a in h' && h'[a] == h[a]
  }

  /** Records, signal data or a list stand at a. */
  ghost predicate DataAt(h: Heap, a: nat) {
    a in h && !MetaId(h[a].id)
  }

  lemma DataIds()
    ensures !MetaId(ID_DT) && !MetaId(ID_SD) && !MetaId(ID_DZ) && !MetaId(ID_DL)
  {
    assert ID_DT[3] != ID_HD[3] && ID_DT[3] != ID_DG[3] && ID_DT[3] != ID_CN[3];
    assert ID_SD[2] != ID_HD[2] && ID_SD[2] != ID_DG[2] && ID_SD[2] != ID_CG[2];
    assert ID_DZ[3] != ID_HD[3] && ID_DZ[3] != ID_DG[3] && ID_DZ[3] != ID_CN[3];
    assert ID_DL[3] != ID_HD[3] && ID_DL[3] != ID_DG[3] && ID_DL[3] != ID_CN[3];
  }

  lemma ExtKeepsData(h: Heap, h': Heap)
    requires Ext(h, h')
    ensures DataKept(h, h')
  {
  }

  lemma DataKeptTrans(a: Heap, b: Heap, c: Heap)
    requires DataKept(a, b) && DataKept(b, c)
    ensures DataKept(a, c)
  {
  }

  lemma LinkChangeKeepsData(h: Heap, h': Heap, a: nat)
    requires KeptBut(h, h', {a}) && a in h && MetaId(h[a].id)
    ensures DataKept(h, h')
  {
  }

  lemma SegHoldsExt(h: Heap, h': Heap, z: Zlib, id: Bytes, recSize: nat, seg: WSeg, part: Bytes)
    requires SegHolds(h, z, id, recSize, seg, part) && DataKept(h, h') && RecordId(id)
    ensures SegHolds(h', z, id, recSize, seg, part)
  {
    DataIds();
    hide DZData;
  }

  lemma PartsExt(h: Heap, h': Heap, z: Zlib, id: Bytes, recSize: nat, segs: seq<WSeg>, parts: seq<Bytes>)
    requires Parts(h, z, id, recSize, segs, parts) && DataKept(h, h') && RecordId(id)
    ensures Parts(h', z, id, recSize, segs, parts)
  {
    hide SegHolds, DataKept;
    forall i | 0 <= i < |segs|
      ensures SegHolds(h', z, id, recSize, segs[i], parts[i])
    {
      SegHoldsExt(h, h', z, id, recSize, segs[i], parts[i]);
    }
  }

  lemma StreamExt(h: Heap, h': Heap, z: Zlib, cs: Stream, chunkSize: nat, all: Bytes)
    requires StreamIs(h, z, cs, chunkSize, all) && DataKept(h, h')
    ensures StreamIs(h', z, cs, chunkSize, all)
  {
    hide Parts, WholeRecords, DataKept;
    var parts :| Parts(h, z, cs.id, cs.recSize, cs.segs, parts) && Concat(parts) + cs.buf == all
                 && WholeRecords(parts, cs.recSize, chunkSize);
    PartsExt(h, h', z, cs.id, cs.recSize, cs.segs, parts);
  }

  lemma EmptyStream(h: Heap, z: Zlib, id: Bytes, recSize: nat, chunkSize: nat)
    requires RecordId(id) && chunkSize > 0
    ensures StreamIs(h, z, NewStream(id, recSize), chunkSize, [])
  {
    var cs := NewStream(id, recSize);
    assert Parts(h, z, id, recSize, cs.segs, []) && Concat([]) + cs.buf == [] && WholeRecords([], recSize, chunkSize);
  }

  lemma PartsSnoc(h: Heap, z: Zlib, id: Bytes, recSize: nat, segs: seq<WSeg>, parts: seq<Bytes>, seg: WSeg, part: Bytes)
    requires Parts(h, z, id, recSize, segs, parts) && SegHolds(h, z, id, recSize, seg, part)
    ensures Parts(h, z, id, recSize, segs + [seg], parts + [part])
  {
    hide SegHolds;
  }

  /** The block chosen for a chunk holds it. */
  lemma ChunkHolds(h: Heap, z: Zlib, compress: bool, cs: Stream, a: nat)
    requires |cs.id| == 4 && cs.buf != []
    ensures SegHolds(h[a := ChunkBlock(z, compress, cs)], z, cs.id, cs.recSize, WSeg(a, |cs.buf|), cs.buf)
    ensures ChunkBlock(z, compress, cs).links == []
    ensures ChunkBlock(z, compress, cs).id in {cs.id, ID_DZ}
  {
    hide DZData;
  }

  /** Flushing moves the buffer into one new part. */
  lemma FlushWritten(z: Zlib, compress: bool, st: Store, h: Heap, cs: Stream, parts: seq<Bytes>)
    returns (h': Heap, parts': seq<Bytes>)
    requires StoreInv(st, h) && RecordId(cs.id) && Parts(h, z, cs.id, cs.recSize, cs.segs, parts)
    ensures var (st', cs') := FlushChunk(z, compress, st, cs);
            && Appended(st, h, st', h') && Parts(h', z, cs.id, cs.recSize, cs'.segs, parts')
            && cs' == cs.(segs := cs'.segs, buf := [])
            && parts' == (if cs.buf == [] then parts else parts + [cs.buf])
            && Concat(parts') == Concat(parts) + cs.buf
            && (cs.buf != [] ==> DataAt(h', AlignUp(st.End())))
  {
    hide StoreInv, Appended, Parts, SegHolds, ChunkBlock, Ext, DataAt, MetaId;
    if cs.buf == [] {
      AppendedSelf(st, h);
      h', parts' := h, parts;
      assert Concat(parts) + [] == Concat(parts);
    } else {
      var b := ChunkBlock(z, compress, cs);
      var (st', a) := st.Put(b);
      ChunkHolds(h, z, compress, cs, a);
      PutAppends(st, h, b);
      h', parts' := h[a := b], parts + [cs.buf];
      AppendedInv(st, h, st', h');
      ExtKeepsData(h, h');
      PartsExt(h, h', z, cs.id, cs.recSize, cs.segs, parts);
      PartsSnoc(h', z, cs.id, cs.recSize, cs.segs, parts, WSeg(a, |cs.buf|), cs.buf);
      ConcatSnoc(parts, cs.buf);
      ChunkIsData(z, compress, st, h, cs);
    }
  }

  /** The block of a chunk is no metadata. */
  lemma ChunkIsData(z: Zlib, compress: bool, st: Store, h: Heap, cs: Stream)
    requires RecordId(cs.id) && |cs.id| == 4 && cs.buf != []
    ensures var b := ChunkBlock(z, compress, cs);
            var a := st.Put(b).1; a == AlignUp(st.End()) && DataAt(h[a := b], a)
  {
    hide SegHolds, ChunkBlock;
    ChunkHolds(h, z, compress, cs, 0);
    DataIds();
  }

  lemma SumOfMultiples(a: nat, b: nat, m: nat)
    requires m > 0 && a % m == 0 && b % m == 0
    ensures (a + b) % m == 0
  {
    var x, y := a / m, b / m;
    assert a == x * m && b == y * m;
    assert a + b == (x + y) * m;
    ModUnique(a + b, m, x + y, 0);
  }

  /** Appending to a stream appends to what it stands for, whether or not a chunk is written. */
  lemma AppendWritten(z: Zlib, cfg: Config, st: Store, h: Heap, cs: Stream, b: Bytes, all: Bytes) returns (h': Heap)
    requires StoreInv(st, h) && cfg.chunkSize > 0
    requires StreamIs(h, z, cs, cfg.chunkSize, all)
    requires cs.recSize > 0 ==> |b| == cs.recSize
    ensures var (st', cs') := AppendStream(z, cfg, st, cs, b);
            && Appended(st, h, st', h') && StreamIs(h', z, cs', cfg.chunkSize, all + b)
            && cs'.id == cs.id && cs'.recSize == cs.recSize && cs'.total == cs.total + |b|
            && (st' != st ==> DataAt(h', AlignUp(st.End())))
  {
    hide StoreInv, Appended, Parts, WholeRecords, FlushChunk;
    var parts :| Parts(h, z, cs.id, cs.recSize, cs.segs, parts) && Concat(parts) + cs.buf == all
                 && WholeRecords(parts, cs.recSize, cfg.chunkSize);
    var cs1 := cs.(total := cs.total + |b|, buf := cs.buf + b);
    assert Concat(parts) + cs1.buf == all + b;
    PartsCount(h, z, cs.id, cs.recSize, cs.segs, parts);
    if cs.recSize > 0 {
      ModUnique(|b|, cs.recSize, 1, 0);
      SumOfMultiples(|cs.buf|, |b|, cs.recSize);
    }
    if |cs1.buf| >= cfg.chunkSize {
      var parts';
      h', parts' := FlushWritten(z, cfg.compress, st, h, cs1, parts);
      var cs' := FlushChunk(z, cfg.compress, st, cs1).1;
      WholeSnoc(parts, cs1.buf, cs.recSize, cfg.chunkSize);
      PartsCount(h', z, cs.id, cs.recSize, cs'.segs, parts');
      assert Parts(h', z, cs'.id, cs'.recSize, cs'.segs, parts') && Concat(parts') + cs'.buf == all + b;
    } else {
      AppendedSelf(st, h);
      h' := h;
      assert Parts(h, z, cs1.id, cs1.recSize, cs1.segs, parts) && Concat(parts) + cs1.buf == all + b;
    }
  }

  lemma WholeSnoc(parts: seq<Bytes>, part: Bytes, recSize: nat, chunkSize: nat)
    requires WholeRecords(parts, recSize, chunkSize)
    requires recSize > 0 ==> |part| % recSize == 0 && |part| < chunkSize + recSize
    ensures WholeRecords(parts + [part], recSize, chunkSize)
  {
  }

  // ---- linked streams ----

  ghost predicate LinkAt(h: Heap, addr: nat, segs: seq<WSeg>) {
    if |segs| == 0 then addr == 0
    else if |segs| == 1 then addr == segs[0].addr
    else addr in h && h[addr] == DLBlock(segs)
  }

  /** A link through which `all` can be read: in parts that are not empty and, for records, whole. */
  ghost predicate Linked(h: Heap, z: Zlib, id: Bytes, recSize: nat, chunkSize: nat, addr: nat, all: Bytes) {
    exists segs, parts ::
      && Parts(h, z, id, recSize, segs, parts) && LinkAt(h, addr, segs) && Concat(parts) == all
      && WholeRecords(parts, recSize, chunkSize) && |segs| < TWO_32
  }

  lemma AddrsBelow(st: Store, h: Heap, z: Zlib, id: Bytes, recSize: nat, segs: seq<WSeg>, parts: seq<Bytes>)
    requires StoreInv(st, h) && Parts(h, z, id, recSize, segs, parts)
    ensures LinksBelow(DLBlock(segs), st.End())
    ensures forall i :: 0 <= i < |segs| ==> segs[i].addr <= st.End()
  {
    hide DZBlock, OffsetBytes, LE, StoreInv;
    forall i | 0 <= i < |segs|
      ensures segs[i].addr <= st.End()
    {
      assert SegHolds(h, z, id, recSize, segs[i], parts[i]);
      BlockInside(st, h, segs[i].addr);
    }
    var b := DLBlock(segs);
    forall i | 0 <= i < |b.links|
      ensures b.links[i] <= st.End()
    {
      if i > 0 {
        assert b.links[i] == segs[i - 1].addr;
      }
    }
  }

  /** linkStream: the rest of the buffer is written, and the link leads to everything. */
  lemma LinkWritten(z: Zlib, compress: bool, st: Store, h: Heap, cs: Stream, chunkSize: nat, all: Bytes)
    returns (h': Heap)
    requires StoreInv(st, h) && StreamIs(h, z, cs, chunkSize, all)
    requires |LinkStream(z, compress, st, cs).1.segs| < TWO_32
    ensures var (st', _, a) := LinkStream(z, compress, st, cs);
            && Appended(st, h, st', h') && Linked(h', z, cs.id, cs.recSize, chunkSize, a, all) && a <= st'.End()
            && (all != [] ==> a != 0)
  {
    hide StoreInv, Appended, Parts, WholeRecords, FlushChunk, DLBlock, Ext;
    var parts0 :| Parts(h, z, cs.id, cs.recSize, cs.segs, parts0) && Concat(parts0) + cs.buf == all
                  && WholeRecords(parts0, cs.recSize, chunkSize);
    var h1, parts := FlushWritten(z, compress, st, h, cs, parts0);
    var (st1, cs1) := FlushChunk(z, compress, st, cs);
    if cs.buf != [] {
      WholeSnoc(parts0, cs.buf, cs.recSize, chunkSize);
    }
    AppendedInv(st, h, st1, h1);
    AddrsBelow(st1, h1, z, cs.id, cs.recSize, cs1.segs, parts);
    PartsCount(h1, z, cs.id, cs.recSize, cs1.segs, parts);
    if |cs1.segs| < 2 {
      h' := h1;
      assert LinkAt(h1, LinkStream(z, compress, st, cs).2, cs1.segs);
      if |cs1.segs| == 1 {
        SegNotNil(st1, h1, z, cs.id, cs.recSize, cs1.segs, parts);
      }
    } else {
      var b := DLBlock(cs1.segs);
      var (st2, a) := st1.Put(b);
      DLId(cs1.segs);
      PutAppends(st1, h1, b);
      h' := h1[a := b];
      AppendedInv(st1, h1, st2, h');
      AppendedTrans(st, h, st1, h1, st2, h');
      ExtKeepsData(h1, h');
      PartsExt(h1, h', z, cs.id, cs.recSize, cs1.segs, parts);
      assert LinkAt(h', a, cs1.segs);
      EndPositive(st1, h1);
    }
  }

  lemma PartsCount(h: Heap, z: Zlib, id: Bytes, recSize: nat, segs: seq<WSeg>, parts: seq<Bytes>)
    requires Parts(h, z, id, recSize, segs, parts)
    ensures |segs| == |parts| && (|segs| == 0 ==> Concat(parts) == [])
  {
  }

  lemma SegNotNil(st: Store, h: Heap, z: Zlib, id: Bytes, recSize: nat, segs: seq<WSeg>, parts: seq<Bytes>)
    requires StoreInv(st, h) && Parts(h, z, id, recSize, segs, parts) && |segs| == 1
    ensures segs[0].addr != 0
  {
    assert SegHolds(h, z, id, recSize, segs[0], parts[0]);
    BlockInside(st, h, segs[0].addr);
  }

  lemma DLId(segs: seq<WSeg>)
    ensures ValidId(DLBlock(segs).id)
  {
  }

  lemma EndPositive(st: Store, h: Heap)
    requires StoreInv(st, h)
    ensures st.End() >= ID_SIZE
  {
  }

  lemma LinkedExt(h: Heap, h': Heap, z: Zlib, id: Bytes, recSize: nat, chunkSize: nat, addr: nat, all: Bytes)
    requires Linked(h, z, id, recSize, chunkSize, addr, all) && DataKept(h, h') && RecordId(id)
    ensures Linked(h', z, id, recSize, chunkSize, addr, all)
  {
    hide Parts, WholeRecords;
    var segs, parts :| Parts(h, z, id, recSize, segs, parts) && LinkAt(h, addr, segs) && Concat(parts) == all
                       && WholeRecords(parts, recSize, chunkSize) && |segs| < TWO_32;
    PartsExt(h, h', z, id, recSize, segs, parts);
    DataIds();
    assert LinkAt(h', addr, segs);
  }

  // ---- reading back ----

  /** A leaf of the section is read as one segment with the part's bytes. */
  lemma LeafRead(f: Bytes, z: Zlib, h: Heap, id: Bytes, recSize: nat, seg: WSeg, part: Bytes, logical: int)
    requires Lossless(z) && RecordId(id) && recSize < TWO_32 && |part| < TWO_63
    requires SegHolds(h, z, id, recSize, seg, part)
    requires ValidBlock(h[seg.addr]) && At(f, seg.addr, Encode(h[seg.addr]))
    ensures var r := Leaf(f, seg.addr, logical, false);
            && r.Ok? && r.value.logical == logical && r.value.length == |part|
            && SegContent(f, z, r.value) == Ok(part)
    ensures PeekID(f, seg.addr).Ok? && (IsStoredId(PeekID(f, seg.addr).value) || PeekID(f, seg.addr).value == ID_DZ)
  {
    var b := h[seg.addr];
    HeaderBuilt(f, seg.addr, b, []);
    assert ID_DZ != ID_DT && ID_DZ != ID_SD && ID_DZ != ID_DV && ID_DZ != ID_RD by {
      assert ID_DZ[3] != ID_DT[3] && ID_DZ[3] != ID_SD[3] && ID_DZ[3] != ID_DV[3] && ID_DZ[3] != ID_RD[3];
    }
    if b == Block(id, [], part) {
      StoredRead(f, seg.addr, id, part, logical);
    } else {
      ZippedRead(f, z, seg.addr, id, recSize, part, logical);
    }
  }

  lemma StoredRead(f: Bytes, a: nat, id: Bytes, part: Bytes, logical: int)
    requires RecordId(id) && ValidBlock(Block(id, [], part)) && At(f, a, Encode(Block(id, [], part)))
    ensures Leaf(f, a, logical, false) == Ok(Segment(logical, |part|, a + 24, 0, 0, Stored))
    ensures AddStored(f, a, logical, false) == Ok(Segment(logical, |part|, a + 24, 0, 0, Stored))
    ensures Slice(f, a + 24, |part|) == Ok(part)
  {
    hide LE, FromLE;
    var b := Block(id, [], part);
    HeaderBuilt(f, a, b, []);
    AtSub(f, a, Encode(b), 24, Size(b));
    assert Encode(b)[24..Size(b)] == part;
  }

  lemma ZippedRead(f: Bytes, z: Zlib, a: nat, id: Bytes, recSize: nat, part: Bytes, logical: int)
    requires Lossless(z) && RecordId(id) && recSize < TWO_32 && |part| < TWO_63
    requires DZBlock(z, id, part, recSize).Some? && ValidBlock(DZBlock(z, id, part, recSize).value)
    requires At(f, a, Encode(DZBlock(z, id, part, recSize).value))
    ensures var r := Leaf(f, a, logical, false);
            r.Ok? && r.value.logical == logical && r.value.length == |part| && SegContent(f, z, r.value) == Ok(part)
  {
    hide FromLE, Encode, T.Transposed, T.Untransposed, DZData, DecodeDZ, Decompress, Lossless, At, ValidBlock;
    var transposes := T.WriterTransposes(|part|, recSize);
    var src := if transposes then T.Transposed(part, recSize) else part;
    var comp := z.zip(src).value;
    var zipType := if transposes then ZIP_TRANSPOSE_DEFLATE else ZIP_DEFLATE;
    var zipParam := if transposes then recSize else 0;
    var b := Block(ID_DZ, [], DZData(id, zipType, zipParam, |part|, comp));
    assert DZBlock(z, id, part, recSize) == Some(b);
    CompLength(b, id, zipType, zipParam, |part|, comp);
    HeaderBuilt(f, a, b, []);
    DZFields(f, a, id, zipType, zipParam, |part|, comp);
    ZippedIsNotStored();
    var kind := if transposes then TransposeDeflate else Deflate;
    var s := Segment(logical, |part|, a + 48, |comp|, zipParam, kind);
    assert Leaf(f, a, logical, false) == Ok(s);
    Inflated(f, z, s, src, comp);
    if transposes {
      T.UntransposeTranspose(part, recSize);
    }
  }

  lemma CompLength(b: Block, id: Bytes, zipType: Byte, zipParam: nat, orgLen: nat, comp: Bytes)
    requires |id| == 4 && b == Block(ID_DZ, [], DZData(id, zipType, zipParam, orgLen, comp)) && ValidBlock(b)
    ensures |comp| < TWO_63 - 48
  {
    hide LE;
  }

  lemma ZippedIsNotStored()
    ensures !IsStoredId(ID_DZ)
  {
    assert ID_DZ[3] != ID_DT[3] && ID_DZ[3] != ID_SD[3] && ID_DZ[3] != ID_DV[3] && ID_DZ[3] != ID_RD[3];
  }

  /** A deflated segment decompresses to what was deflated. */
  lemma Inflated(f: Bytes, z: Zlib, s: Segment, src: Bytes, comp: Bytes)
    requires Lossless(z) && z.zip(src) == Some(comp) && s.length == |src| && s.compLen == |comp|
    requires s.addr >= 0 && At(f, s.addr, comp) && IsZipped(s.kind)
    ensures SegContent(f, z, s) == Ok(if s.kind == TransposeDeflate then T.Untransposed(src, s.zipParam) else src)
  {
    hide T.Untransposed;
    assert z.unzip(comp) == Some(src);
    assert src[..|src|] == src;
    assert f[s.addr..s.addr + |comp|] == comp;
  }
}
