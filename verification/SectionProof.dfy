/** What linkStream wrote, resolved and read by the section reader. */
module SectionProof {
  import opened Wire
  import opened Blocks
  import opened Zip
  import opened Sections
  import opened Store
  import opened WriterSpec
  import opened Tree
  import opened Streams

  /** Every block of the heap stands in the file and decodes. */
  ghost predicate HeapIn(f: Bytes, h: Heap) {
    forall a :: a in h ==> ValidBlock(h[a]) && At(f, a, Encode(h[a])) && 0 < a < TWO_63
  }

  /** The segments are contiguous, readable, and make up exactly these bytes. */
  ghost predicate Reads(f: Bytes, z: Zlib, segs: seq<Segment>, all: Bytes) {
    Contiguous(segs) && Readable(f, z, segs) && Flat(f, z, segs) == all
  }

  lemma ReadsNothing(f: Bytes, z: Zlib)
    ensures Reads(f, z, [], [])
  {
  }

  lemma ReadsMore(f: Bytes, z: Zlib, segs: seq<Segment>, all: Bytes, s: Segment, part: Bytes)
    requires Reads(f, z, segs, all) && part != []
    requires s.logical == |all| && s.length == |part| && SegContent(f, z, s) == Ok(part)
    ensures Reads(f, z, segs + [s], all + part)
  {
    hide SegContent;
    ContiguousLayout(f, z, segs);
    var more := segs + [s];
    assert more[..|segs|] == segs;
  }

  lemma ReadsAscend(f: Bytes, z: Zlib, segs: seq<Segment>, all: Bytes)
    requires Reads(f, z, segs, all)
    ensures Sorted(segs) == segs && SectionHolds(f, z, segs, all)
  {
    ContiguousLayout(f, z, segs);
    forall i, j | 0 <= i < j < |segs|
      ensures segs[i].logical <= segs[j].logical
    {
      assert segs[i].End() <= segs[j].logical;
    }
    SortedOfAscending(segs);
    forall k: nat | k < |all|
      ensures ByteAt(f, z, segs, k) == Some(all[k])
    {
      FlatByte(f, z, segs, k);
    }
  }

  // ---- data list blocks ----

  lemma {:induction false} OffsetBytesAt(segs: seq<WSeg>, i: nat)
    requires i < |segs|
    ensures OffsetBytes(segs)[8 * i..8 * i + 8] == LE(Lengths(segs[..i]), 8)
  {
    hide LE;
    var init := segs[..|segs| - 1];
    if i < |segs| - 1 {
      OffsetBytesAt(init, i);
      assert init[..i] == segs[..i];
      assert OffsetBytes(segs)[8 * i..8 * i + 8] == OffsetBytes(init)[8 * i..8 * i + 8];
    }
  }

  lemma DLParts(segs: seq<WSeg>)
    requires |segs| < TWO_32 && forall i :: 0 <= i < |segs| ==> Lengths(segs[..i]) < TWO_63
    ensures var d := DLBlock(segs).data;
            && |d| == 8 + 8 * |segs| && d[0] == 0 && FromLE(d[4..8]) == |segs|
            && forall i :: 0 <= i < |segs| ==> FromLE(d[8 + 8 * i..16 + 8 * i]) == Lengths(segs[..i])
  {
    hide LE, FromLE, OffsetBytes, Lengths;
    var d := DLBlock(segs).data;
    assert d[4..8] == LE(|segs|, 4);
    LE4(|segs|);
    forall i | 0 <= i < |segs|
      ensures FromLE(d[8 + 8 * i..16 + 8 * i]) == Lengths(segs[..i])
    {
      OffsetAt(segs, i);
    }
  }

  lemma OffsetAt(segs: seq<WSeg>, i: nat)
    requires i < |segs| && Lengths(segs[..i]) < TWO_63
    ensures FromLE(DLBlock(segs).data[8 + 8 * i..16 + 8 * i]) == Lengths(segs[..i])
  {
    hide LE, FromLE, OffsetBytes, Lengths;
    var d := DLBlock(segs).data;
    OffsetBytesAt(segs, i);
    assert d[8 + 8 * i..16 + 8 * i] == OffsetBytes(segs)[8 * i..8 * i + 8];
    LE8(Lengths(segs[..i]));
  }

  lemma DLFields(f: Bytes, a: nat, segs: seq<WSeg>)
    requires |segs| < TWO_32 && ValidBlock(DLBlock(segs)) && At(f, a, Encode(DLBlock(segs)))
    requires forall i :: 0 <= i < |segs| ==> Lengths(segs[..i]) < TWO_63
    ensures DecodeDL(f, a).Ok?
    ensures var dl := DecodeDL(f, a).value;
            && dl.next == 0 && !dl.equal && |dl.data| == |segs| == |dl.offsets|
            && forall i :: 0 <= i < |segs| ==> dl.data[i] == segs[i].addr && dl.offsets[i] == Lengths(segs[..i])
  {
    hide FromLE, Encode, DecodeRaw, Lengths, At, DLBlock, ValidBlock;
    var b := DLBlock(segs);
    ListLinks(segs);
    DLParts(segs);
    RawBuilt(f, a, b, 1, 8);
  }

  lemma ListLinks(segs: seq<WSeg>)
    ensures DLBlock(segs).id == ID_DL && DLBlock(segs).links == [0] + Addrs(segs)
  {
  }

  lemma {:induction false} LengthsAreParts(h: Heap, z: Zlib, id: Bytes, recSize: nat, segs: seq<WSeg>,
                                           parts: seq<Bytes>, n: nat)
    requires Parts(h, z, id, recSize, segs, parts) && n <= |segs|
    ensures Lengths(segs[..n]) == |Concat(parts[..n])| <= |Concat(parts)|
  {
    hide SegHolds;
    ConcatAppend(parts[..n], parts[n..]);
    assert parts[..n] + parts[n..] == parts;
    if n > 0 {
      LengthsAreParts(h, z, id, recSize, segs, parts, n - 1);
      assert segs[..n][..n - 1] == segs[..n - 1];
      assert parts[..n] == parts[..n - 1] + [parts[n - 1]];
      ConcatSnoc(parts[..n - 1], parts[n - 1]);
      SegLength(h, z, id, recSize, segs[n - 1], parts[n - 1]);
    }
  }

  lemma SegLength(h: Heap, z: Zlib, id: Bytes, recSize: nat, seg: WSeg, part: Bytes)
    requires SegHolds(h, z, id, recSize, seg, part)
    ensures seg.orgLen == |part| > 0 && seg.addr in h
  {
  }

  lemma HeapHas(f: Bytes, h: Heap, a: nat)
    requires HeapIn(f, h) && a in h
    ensures ValidBlock(h[a]) && At(f, a, Encode(h[a])) && 0 < a < TWO_63
  {
    hide Encode;
  }

  lemma PartsCount(h: Heap, z: Zlib, id: Bytes, recSize: nat, segs: seq<WSeg>, parts: seq<Bytes>)
    requires Parts(h, z, id, recSize, segs, parts)
    ensures |segs| == |parts|
  {
  }

  lemma PartHolds(h: Heap, z: Zlib, id: Bytes, recSize: nat, segs: seq<WSeg>, parts: seq<Bytes>, i: nat)
    requires Parts(h, z, id, recSize, segs, parts) && i < |segs|
    ensures |segs| == |parts| && SegHolds(h, z, id, recSize, segs[i], parts[i])
  {
    hide SegHolds;
  }

  lemma ConcatNothing()
    ensures Concat([]) == []
  {
  }

  lemma {:induction false} EntriesRead(f: Bytes, z: Zlib, h: Heap, id: Bytes, recSize: nat, segs: seq<WSeg>,
                                       parts: seq<Bytes>, dl: DL, n: nat)
    requires HeapIn(f, h) && Lossless(z) && RecordId(id) && recSize < TWO_32
    requires Parts(h, z, id, recSize, segs, parts) && n <= |segs| && |Concat(parts)| < TWO_63
    requires ValidDL(dl) && !dl.equal && |dl.data| == |segs|
    requires forall i :: 0 <= i < |segs| ==> dl.data[i] == segs[i].addr && dl.offsets[i] == Lengths(segs[..i])
    ensures var r := Entries(f, dl, n, 0, false);
            r.Ok? && |r.value| == n && Reads(f, z, r.value, Concat(parts[..n]))
  {
    hide Leaf, SegContent, SegHolds, Reads, Lossless, LE, FromLE, Encode, HeapIn, Parts, Concat, Lengths;
    PartsCount(h, z, id, recSize, segs, parts);
    if n == 0 {
      assert parts[..0] == [];
      ReadsNothing(f, z);
      ConcatNothing();
    } else {
      EntriesRead(f, z, h, id, recSize, segs, parts, dl, n - 1);
      var prev := Entries(f, dl, n - 1, 0, false).value;
      var seg, part := segs[n - 1], parts[n - 1];
      PartHolds(h, z, id, recSize, segs, parts, n - 1);
      SegLength(h, z, id, recSize, seg, part);
      LengthsAreParts(h, z, id, recSize, segs, parts, n - 1);
      LengthsAreParts(h, z, id, recSize, segs, parts, n);
      assert parts[..n] == parts[..n - 1] + [part];
      ConcatSnoc(parts[..n - 1], part);
      var logical := EntryLogical(dl, n - 1, n - 1);
      HeapHas(f, h, seg.addr);
      LeafRead(f, z, h, id, recSize, seg, part, logical);
      ReadsMore(f, z, prev, Concat(parts[..n - 1]), Leaf(f, seg.addr, logical, false).value, part);
    }
  }

  /** Reading through a link of the writer returns everything appended to its stream. */
  lemma LinkedRead(f: Bytes, z: Zlib, h: Heap, id: Bytes, recSize: nat, chunkSize: nat, addr: nat, all: Bytes)
    requires HeapIn(f, h) && Lossless(z) && RecordId(id) && recSize < TWO_32 && |all| < TWO_63
    requires Linked(h, z, id, recSize, chunkSize, addr, all)
    ensures Resolve(f, addr, false).Ok? && Reads(f, z, Resolve(f, addr, false).value, all)
    ensures SectionIs(f, z, addr, false, all)
  {
    hide Parts, WholeRecords, Reads, SectionHolds, Lossless, HeapIn;
    var segs, parts :| Parts(h, z, id, recSize, segs, parts) && LinkAt(h, addr, segs) && Concat(parts) == all
                       && WholeRecords(parts, recSize, chunkSize) && |segs| < TWO_32;
    PartsSame(h, z, id, recSize, segs, parts);
    if |segs| == 0 {
      ReadsNothing(f, z);
    } else if |segs| == 1 {
      OneRead(f, z, h, id, recSize, segs[0], parts[0]);
      assert parts == [parts[0]];
      assert Concat(parts) == parts[0] + Concat([]) == parts[0];
    } else {
      ListRead(f, z, h, id, recSize, addr, segs, parts);
    }
    ReadsAscend(f, z, Resolve(f, addr, false).value, all);
  }

  lemma PartsSame(h: Heap, z: Zlib, id: Bytes, recSize: nat, segs: seq<WSeg>, parts: seq<Bytes>)
    requires Parts(h, z, id, recSize, segs, parts)
    ensures |segs| == |parts| && (|segs| == 0 ==> Concat(parts) == [])
    ensures |segs| == 1 ==> SegHolds(h, z, id, recSize, segs[0], parts[0])
  {
  }

  lemma OneRead(f: Bytes, z: Zlib, h: Heap, id: Bytes, recSize: nat, seg: WSeg, part: Bytes)
    requires HeapIn(f, h) && Lossless(z) && RecordId(id) && recSize < TWO_32 && |part| < TWO_63
    requires SegHolds(h, z, id, recSize, seg, part)
    ensures seg.addr != 0
    ensures Resolve(f, seg.addr, false).Ok? && Reads(f, z, Resolve(f, seg.addr, false).value, part)
  {
    hide Lossless, SegHolds, SegContent, AddStored, AddZipped, Reads, Encode;
    SegLength(h, z, id, recSize, seg, part);
    LeafRead(f, z, h, id, recSize, seg, part, 0);
    var s := Leaf(f, seg.addr, 0, false).value;
    ReadsNothing(f, z);
    ReadsMore(f, z, [], [], s, part);
    assert [] + [s] == [s] && [] + part == part;
    assert ResolveRaw(f, seg.addr, false) == Ok([s]);
    ReadsAscend(f, z, [s], part);
  }

  lemma ListRead(f: Bytes, z: Zlib, h: Heap, id: Bytes, recSize: nat, addr: nat, segs: seq<WSeg>, parts: seq<Bytes>)
    requires HeapIn(f, h) && Lossless(z) && RecordId(id) && recSize < TWO_32 && |Concat(parts)| < TWO_63
    requires Parts(h, z, id, recSize, segs, parts) && 2 <= |segs| < TWO_32
    requires addr in h && h[addr] == DLBlock(segs)
    ensures addr != 0
    ensures Resolve(f, addr, false).Ok? && Reads(f, z, Resolve(f, addr, false).value, Concat(parts))
  {
    hide Lossless, SegHolds, SegContent, Reads, Encode, LE, FromLE, DecodeDL, Entries, DLBlock, DecodeHeader;
    forall i | 0 <= i < |segs|
      ensures Lengths(segs[..i]) < TWO_63
    {
      LengthsAreParts(h, z, id, recSize, segs, parts, i);
    }
    DLFields(f, addr, segs);
    var dl := DecodeDL(f, addr).value;
    EntriesRead(f, z, h, id, recSize, segs, parts, dl, |segs|);
    assert parts[..|parts|] == parts;
    var es := Entries(f, dl, |segs|, 0, false).value;
    ReadsAscend(f, z, es, Concat(parts));
    HeaderBuilt(f, addr, h[addr], []);
    IsDL(f, addr, segs);
    assert f != [];
    assert Chain(f, addr, [], false, |f|) == Chain(f, 0, [] + es, false, |f| - 1);
    assert [] + es == es;
  }

  lemma IsDL(f: Bytes, addr: nat, segs: seq<WSeg>)
    requires ValidBlock(DLBlock(segs)) && At(f, addr, Encode(DLBlock(segs)))
    ensures PeekID(f, addr) == Ok(ID_DL) && !IsStoredId(ID_DL) && ID_DL != ID_DZ && ID_DL != ID_HL
    ensures |f| > 0
  {
    hide LE, FromLE;
    HeaderBuilt(f, addr, DLBlock(segs), []);
    assert ID_DL[3] != ID_DT[3] && ID_DL[3] != ID_DV[3] && ID_DL[3] != ID_SD[3] && ID_DL[3] != ID_RD[3];
    assert ID_DL[3] != ID_DZ[3] && ID_DL[2] != ID_HL[2];
  }
}
