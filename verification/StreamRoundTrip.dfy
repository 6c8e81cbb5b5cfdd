/** Streams on their own: whatever is appended piece by piece can be read back as one byte string. */
module StreamRoundTrip {
  import opened Wire
  import opened Blocks
  import opened Zip
  import opened Store
  import opened WriterSpec
  import opened Written
  import opened Streams
  import opened SectionProof
  import opened Tree
  import opened Sections

  /** Any sequence of appends to one stream. */
  function AppendAll(z: Zlib, cfg: Config, st: Store, cs: Stream, pieces: seq<Bytes>): (r: (Store, Stream))
    requires |cs.id| == 4
    ensures |r.1.id| == 4
  {
    if pieces == [] then (st, cs)
    else
      var (st1, cs1) := AppendAll(z, cfg, st, cs, pieces[..|pieces| - 1]);
      AppendStream(z, cfg, st1, cs1, pieces[|pieces| - 1])
  }

  lemma {:induction false} AllWritten(z: Zlib, cfg: Config, st: Store, h: Heap, id: Bytes, recSize: nat,
                                      pieces: seq<Bytes>)
    returns (h': Heap)
    requires StoreInv(st, h) && cfg.chunkSize > 0 && RecordId(id)
    requires recSize > 0 ==> forall i :: 0 <= i < |pieces| ==> |pieces[i]| == recSize
    ensures |id| == 4
    ensures var (st', cs) := AppendAll(z, cfg, st, NewStream(id, recSize), pieces);
            && StoreInv(st', h') && StreamIs(h', z, cs, cfg.chunkSize, Concat(pieces))
            && cs.id == id && cs.recSize == recSize
  {
    hide StoreInv, StreamIs, AppendStream, Appended;
    if pieces == [] {
      EmptyStream(h, z, id, recSize, cfg.chunkSize);
      h' := h;
    } else {
      var init, last := pieces[..|pieces| - 1], pieces[|pieces| - 1];
      var h1 := AllWritten(z, cfg, st, h, id, recSize, init);
      var (st1, cs1) := AppendAll(z, cfg, st, NewStream(id, recSize), init);
      h' := AppendWritten(z, cfg, st1, h1, cs1, last, Concat(init));
      AppendedInv(st1, h1, AppendStream(z, cfg, st1, cs1, last).0, h');
      assert pieces == init + [last];
      ConcatSnoc(init, last);
    }
  }

  /** The cut of a stream: no segment is empty, and record segments hold whole records and pass the chunk size by
      less than one record. */
  ghost predicate WellCut(segs: seq<WSeg>, recSize: nat, chunkSize: nat) {
    forall i :: 0 <= i < |segs| ==>
      && segs[i].orgLen > 0
      && (recSize > 0 ==> segs[i].orgLen % recSize == 0 && segs[i].orgLen < chunkSize + recSize)
  }

  lemma PartsWellCut(h: Heap, z: Zlib, id: Bytes, recSize: nat, chunkSize: nat, segs: seq<WSeg>, parts: seq<Bytes>)
    requires Parts(h, z, id, recSize, segs, parts) && WholeRecords(parts, recSize, chunkSize)
    ensures WellCut(segs, recSize, chunkSize)
  {
    forall i | 0 <= i < |segs|
      ensures segs[i].orgLen == |parts[i]| > 0
    {
      assert SegHolds(h, z, id, recSize, segs[i], parts[i]);
    }
  }

  lemma LinkCut(z: Zlib, compress: bool, st: Store, h: Heap, cs: Stream, chunkSize: nat, all: Bytes)
    requires StoreInv(st, h) && StreamIs(h, z, cs, chunkSize, all)
    ensures WellCut(LinkStream(z, compress, st, cs).1.segs, cs.recSize, chunkSize)
  {
    hide StoreInv, Appended, Parts, WholeRecords, FlushChunk, DLBlock, Ext;
    var parts0 :| Parts(h, z, cs.id, cs.recSize, cs.segs, parts0) && Concat(parts0) + cs.buf == all
                  && WholeRecords(parts0, cs.recSize, chunkSize);
    var h1, parts := FlushWritten(z, compress, st, h, cs, parts0);
    if cs.buf != [] {
      WholeSnoc(parts0, cs.buf, cs.recSize, chunkSize);
    }
    PartsWellCut(h1, z, cs.id, cs.recSize, chunkSize, FlushChunk(z, compress, st, cs).1.segs, parts);
  }

  lemma HeapOfStore(st: Store, h: Heap)
    requires StoreInv(st, h) && st.End() < TWO_63
    ensures HeapIn(st.Image(), h)
  {
    hide StoreInv, Encode;
    forall a | a in h
      ensures ValidBlock(h[a]) && At(st.Image(), a, Encode(h[a])) && 0 < a < TWO_63
    {
      BlocksValid(st, h, a);
    }
  }

  /** For every chunk size, every choice of stored or deflated chunks, and none, one or many segments: the section
      behind the link of a stream is the concatenation of what was appended. */
  lemma RoundTrip(z: Zlib, cfg: Config, st: Store, h: Heap, id: Bytes, recSize: nat, pieces: seq<Bytes>)
    requires StoreInv(st, h) && cfg.chunkSize > 0 && RecordId(id) && Lossless(z) && recSize < TWO_32
    requires recSize > 0 ==> forall i :: 0 <= i < |pieces| ==> |pieces[i]| == recSize
    requires var (st1, cs) := AppendAll(z, cfg, st, NewStream(id, recSize), pieces);
             var (st2, cs2, _) := LinkStream(z, cfg.compress, st1, cs);
             st2.End() < TWO_63 && |cs2.segs| < TWO_32 && |Concat(pieces)| < TWO_63
    ensures var (st1, cs) := AppendAll(z, cfg, st, NewStream(id, recSize), pieces);
            var (st2, cs2, a) := LinkStream(z, cfg.compress, st1, cs);
            && SectionIs(st2.Image(), z, a, false, Concat(pieces))
            && WellCut(cs2.segs, recSize, cfg.chunkSize)
            && (a == 0 <==> Concat(pieces) == [])
  {
    hide StoreInv, StreamIs, AppendAll, LinkStream, Appended, Linked, WellCut, SectionIs, Lossless, HeapIn, Resolve;
    hide Reads;
    var h1 := AllWritten(z, cfg, st, h, id, recSize, pieces);
    var (st1, cs) := AppendAll(z, cfg, st, NewStream(id, recSize), pieces);
    var h2 := LinkWritten(z, cfg.compress, st1, h1, cs, cfg.chunkSize, Concat(pieces));
    var (st2, cs2, a) := LinkStream(z, cfg.compress, st1, cs);
    LinkCut(z, cfg.compress, st1, h1, cs, cfg.chunkSize, Concat(pieces));
    AppendedInv(st1, h1, st2, h2);
    HeapOfStore(st2, h2);
    LinkedRead(st2.Image(), z, h2, id, recSize, cfg.chunkSize, a, Concat(pieces));
    if Concat(pieces) == [] {
      LinkedNothing(h2, z, id, recSize, cfg.chunkSize, a, []);
    }
  }

  lemma PartsNonEmpty(h: Heap, z: Zlib, id: Bytes, recSize: nat, segs: seq<WSeg>, parts: seq<Bytes>)
    requires Parts(h, z, id, recSize, segs, parts)
    ensures segs != [] ==> |Concat(parts)| > 0
  {
    if segs != [] {
      assert SegHolds(h, z, id, recSize, segs[0], parts[0]);
      assert |Concat(parts)| >= |parts[0]|;
    }
  }

  lemma LinkedNothing(h: Heap, z: Zlib, id: Bytes, recSize: nat, chunkSize: nat, addr: nat, all: Bytes)
    requires Linked(h, z, id, recSize, chunkSize, addr, all) && all == []
    ensures addr == 0
  {
    hide WholeRecords;
    var segs, parts :| Parts(h, z, id, recSize, segs, parts) && LinkAt(h, addr, segs) && Concat(parts) == all
                       && WholeRecords(parts, recSize, chunkSize) && |segs| < TWO_32;
    PartsNonEmpty(h, z, id, recSize, segs, parts);
  }
}
