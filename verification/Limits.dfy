/** The limits of the growing layout: string channels write their own blocks into the same file, so the records stay
    in one piece exactly while no such block has been written. */
module Limits {
  import opened Wire
  import opened Blocks
  import opened Meta
  import opened Zip
  import opened Store
  import opened WriterSpec
  import opened Written
  import opened Streams
  import opened Runs
  import opened History
  import opened Closing
  import opened RoundTrip
  import opened Grown
  import opened Tree
  import opened TreeProof
  import opened SectionProof

  /** Everything behind the header of the growing data block is the recording. */
  ghost predicate OnePiece(s: State, records: Bytes) {
    && s.growBytes == |records|
    && s.store.End() == s.growAddr + 24 + |records|
    && At(s.store.Image(), s.growAddr + 24, records)
  }

  lemma GrowthMeans(s: State, h: Heap, g0: Group, rows: seq<Row>)
    requires GrowIs(s, h, g0, rows)
    ensures |s.groups| == 1
    ensures OnePiece(s, DataStream(g0.chans, rows)) <==> SignalsBuffered(s.groups[0].chans)
    ensures s.store.End() >= s.growAddr + 24 + s.growBytes && s.growBytes == |DataStream(g0.chans, rows)|
  {
    hide DataStream, SignalsBuffered;
  }

  /** The records are one piece exactly when every string channel has gathered less than a chunk. */
  lemma OnePieceIffShort(z: Zlib, s0: State, ops: seq<Op>)
    requires Defined(s0) && WellTyped(s0) && LegalOps(s0, ops) && CanBegin(s0) && Growing(s0)
    ensures OnePiece(Recorded(z, s0, ops), DataStream(s0.groups[0].chans, RowsOf(ops, 0))) <==> ShortTexts(s0, ops)
  {
    hide Begin, Running, Defined, CanBegin, DataStream, TextStream, Recorded, Hist, OnePiece, LegalOps;
    hide SignalsBuffered, GrowIs, FileInv, IDBytes, GroupIs, SameGroup, Restreamed;
    var s := Recorded(z, s0, ops);
    var h := RecordedRunning(z, s0, ops);
    InPlaceIffShort(z, s0, ops, s, h);
    DefsKept(s0, 0);
    RunningGrows(z, s, h, Begin(s0).groups, Hist(ops, |s0.groups|));
    HistAt(ops, |s0.groups|, 0);
    SameData(s0.groups[0], Begin(s0).groups[0], RowsOf(ops, 0));
    GrowthMeans(s, h, Begin(s0).groups[0], RowsOf(ops, 0));
  }

  lemma RunningGrows(z: Zlib, s: State, h: Heap, gs0: seq<Group>, hist: seq<seq<Row>>)
    requires Running(z, s, h, gs0, hist) && s.growing
    ensures |gs0| == |hist| == |s.groups| == 1 && GrowIs(s, h, gs0[0], hist[0])
    ensures GroupIs(h, z, s.cfg, true, s.groups[0], gs0[0], hist[0]) && s.store.patches == []
  {
    hide GrowIs, GroupIs, FileInv;
  }

  lemma SameData(g: Group, g0: Group, rows: seq<Row>)
    requires SameGroup(g0, Restreamed(g))
    ensures DataStream(g0.chans, rows) == DataStream(g.chans, rows)
  {
    DataSame(g0.chans, g.chans, rows);
  }

  // ---- what finalize appends ----

  /** Finalizing writes something behind the records exactly when a string channel still buffers data. */
  lemma {:induction false} TailWritten(z: Zlib, compress: bool, st: Store, chans: seq<Chan>, n: nat)
    requires n <= |chans| && forall i :: 0 <= i < |chans| ==> |chans[i].sd.id| == 4 && chans[i].sd.segs == []
    ensures var r := FinalizeChans(z, compress, st, chans, n);
            && r.End() >= st.End()
            && (r.End() == st.End() <==> forall i :: 0 <= i < n && chans[i].def.vlsd ==> chans[i].sd.buf == [])
  {
    hide ChunkBlock, DLBlock, Encode;
    if n > 0 {
      TailWritten(z, compress, st, chans, n - 1);
      var c, st1 := chans[n - 1], FinalizeChans(z, compress, st, chans, n - 1);
      if c.def.vlsd {
        LinkTail(z, compress, st1, c.sd);
      }
    }
  }

  lemma LinkTail(z: Zlib, compress: bool, st: Store, cs: Stream)
    requires |cs.id| == 4 && cs.segs == []
    ensures var st1 := LinkStream(z, compress, st, cs).0;
            st1.End() >= st.End() && (st1.End() == st.End() <==> cs.buf == [])
  {
    hide ChunkBlock, Encode;
    if cs.buf != [] {
      var b := ChunkBlock(z, compress, cs);
      assert |Encode(b)| > 0 by { EncodeLong(b); }
    }
  }

  lemma EncodeLong(b: Block)
    requires |b.id| == 4
    ensures |Encode(b)| >= 24
  {
  }

  /** Close appends nothing behind the records of a growing file exactly when no string channel has a row: otherwise
      the signal data lies behind the data block, whose length is patched only afterwards. */
  lemma NothingBehindIff(z: Zlib, s0: State, ops: seq<Op>)
    requires Defined(s0) && WellTyped(s0) && LegalOps(s0, ops) && CanBegin(s0) && Growing(s0) && ShortTexts(s0, ops)
    ensures var s := Recorded(z, s0, ops);
            Prepared(z, s).End() == s.store.End()
            <==> RowsOf(ops, 0) == [] || forall ci :: 0 <= ci < |s0.groups[0].chans| ==>
                !s0.groups[0].chans[ci].def.vlsd
  {
    hide Begin, Running, Defined, CanBegin, DataStream, TextStream, Recorded, Hist, LegalOps, GrowIs, FileInv;
    hide IDBytes, GroupIs, SameGroup, Restreamed, Prepared, SignalsBuffered, FinalizeChans;
    var s, rows := Recorded(z, s0, ops), RowsOf(ops, 0);
    var h := RecordedRunning(z, s0, ops);
    InPlaceIffShort(z, s0, ops, s, h);
    DefsKept(s0, 0);
    RunningGrows(z, s, h, Begin(s0).groups, Hist(ops, |s0.groups|));
    HistAt(ops, |s0.groups|, 0);
    OneGroupPrepared(z, s);
    var g, chans := s.groups[0], s.groups[0].chans;
    NoSegments(chans);
    TypedChans(s);
    Uncompressed(s0);
    TailWritten(z, s.cfg.compress, s.store.AddPatch(s.growAddr + 8, HEADER_SIZE + s.growBytes), chans, |chans|);
    BuffersAre(h, z, s.cfg, g, Begin(s0).groups[0], s0.groups[0], rows);
  }

  lemma Uncompressed(s0: State)
    requires Growing(s0)
    ensures !s0.cfg.compress
  {
  }

  lemma NoSegments(chans: seq<Chan>)
    requires SignalsBuffered(chans)
    ensures forall i :: 0 <= i < |chans| ==> chans[i].sd.segs == []
  {
  }

  lemma TypedChans(s: State)
    requires WellTyped(s) && |s.groups| == 1
    ensures forall i :: 0 <= i < |s.groups[0].chans| ==> |s.groups[0].chans[i].sd.id| == 4
  {
    assert TypedGroup(s.groups[0]);
  }

  lemma BuffersAre(h: Heap, z: Zlib, cfg: Config, g: Group, g0: Group, d: Group, rows: seq<Row>)
    requires GroupIs(h, z, cfg, true, g, g0, rows) && SameGroup(g0, Restreamed(d))
    requires forall i :: 0 <= i < |g.chans| ==> g.chans[i].sd.segs == []
    ensures |g.chans| == |d.chans| && forall i :: 0 <= i < |g.chans| ==> g.chans[i].def == d.chans[i].def
    ensures forall i :: 0 <= i < |g.chans| && g.chans[i].def.vlsd ==> (g.chans[i].sd.buf == [] <==> rows == [])
  {
    hide TextStream, DataStream, FieldsInside, RowsFit;
    forall i | 0 <= i < |g.chans| && g.chans[i].def.vlsd
      ensures g.chans[i].sd.buf == [] <==> rows == []
    {
      assert SignalIs(h, z, cfg.chunkSize, g.chans[i], i, rows);
      UnwrittenIsBuffered(h, z, g.chans[i].sd, cfg.chunkSize, TextStream(rows, i));
      TextsNonEmpty(rows, i);
    }
  }

  lemma UnwrittenIsBuffered(h: Heap, z: Zlib, cs: Stream, chunkSize: nat, all: Bytes)
    requires StreamIs(h, z, cs, chunkSize, all) && cs.segs == []
    ensures cs.buf == all
  {
    var parts :| Parts(h, z, cs.id, cs.recSize, cs.segs, parts) && Concat(parts) + cs.buf == all;
    assert parts == [];
  }

  // ---- long texts, through Open ----

  /** Definitions and a history of the growing layout within the format's sizes. */
  ghost predicate Recordable(env: Env, s0: State, ops: seq<Op>) {
    && Defined(s0) && WellTyped(s0) && LegalOps(s0, ops) && CanBegin(s0) && Growing(s0) && Lossless(env.z)
    && LegibleGroup(s0.groups[0]) && Expressible(env.z, s0, ops)
  }

  /** The closed file opens with all that was defined and recorded. */
  ghost predicate ClosedReads(env: Env, s0: State, ops: seq<Op>)
    requires WellTyped(s0) && LegalOps(s0, ops) && |s0.groups| == 1
  {
    var f := Close(env.z, Run(env.z, s0, ops)).store.disk;
    var r := Open(env, f);
    r.Ok? && |r.value.groups| == 1 && GroupReads(f, env.z, r.value.groups[0], s0.groups[0], RowsOf(ops, 0))
  }

  /** A block's mark stands pad bytes behind the place of record k, for records from a on. */
  ghost predicate MarkAt(f: Bytes, a: nat, chans: seq<Chan>, rows: seq<Row>, k: nat, pad: nat) {
    && k < |rows|
    && var at := a + |DataStream(chans, rows[..k])| + pad; at < |f| && f[at] == 0x23
  }

  lemma InPlaceMeans(s: State)
    requires |s.groups| == 1 && s.growing && !InPlace(s)
    ensures !SignalsBuffered(s.groups[0].chans)
  {
  }

  lemma MarkMoves(f: Bytes, a: nat, g: Group, g0: Group, rows: seq<Row>, k: nat, pad: nat)
    requires MarkAt(f, a, g0.chans, rows, k, pad) && SameGroup(g0, Restreamed(g))
    ensures MarkAt(f, a, g.chans, rows, k, pad)
  {
    hide DataStream, SameGroup, Restreamed;
    SameData(g, g0, rows[..k]);
  }

  lemma OnlyBegun(s0: State) returns (g0: Group)
    requires Defined(s0) && WellTyped(s0) && CanBegin(s0) && |s0.groups| == 1
    ensures Begin(s0).groups == [g0] && SameGroup(g0, Restreamed(s0.groups[0]))
  {
    hide Begin, Defined, SameGroup, Restreamed, WellTyped;
    DefsKept(s0, 0);
    g0 := Begin(s0).groups[0];
  }

  lemma ShapeRuns(z: Zlib, s: State, cfg: Config, f: Bytes, h0: Heap, h: Heap, g0: Group, late: Late, rows: seq<Row>)
    requires GrownShape(z, s, cfg, f, h0, h, [g0], late, rows)
    ensures |s.groups| == 1 && s.growing && s.cfg == cfg && Running(z, s, h0, [g0], [rows])
  {
    hide Running, GrownTree, GrownFile;
  }

  /** A block that interrupted the recording is still in the closed file. */
  lemma MarkStands(z: Zlib, s: State, cfg: Config, f: Bytes, h0: Heap, h: Heap, g0: Group, late: Late, rows: seq<Row>)
    returns (k: nat, pad: nat)
    requires |s.groups| == 1 && !SignalsBuffered(s.groups[0].chans)
    requires GrownShape(z, s, cfg, f, h0, h, [g0], late, rows)
    ensures pad < 8 && MarkAt(f, s.growAddr + 24, g0.chans, rows, k, pad)
  {
    hide Running, GrownTree, GrowIs, SignalsBuffered, DataStream, HeapIn, Without, DataKept, AlignUp, DataAt, FinalID;
    hide Encode, Covered, At, Bare, WellTyped;
    RunningGrows(z, s, h0, [g0], [rows]);
    k := FirstStop(s, h0, g0, rows);
    var e := s.growAddr + 24 + |DataStream(g0.chans, rows[..k])|;
    AlignPad(e);
    DataIds();
    DataKeptAt(h0, h, AlignUp(e));
    pad := AlignUp(e) - e;
    WithoutAt(f, h, s.growAddr, AlignUp(e));
  }

  /** When a text has filled a chunk, in the place of some record k, up to seven bytes on, stands the mark that every
      block begins with. */
  lemma MarkThere(env: Env, s0: State, ops: seq<Op>) returns (k: nat, pad: nat)
    requires |s0.groups| == 1 && Recordable(env, s0, ops) && !ShortTexts(s0, ops)
    ensures pad < 8 <= s0.groups[0].recSize
    ensures MarkAt(Close(env.z, Run(env.z, s0, ops)).store.disk, Recorded(env.z, s0, ops).growAddr + 24,
                   s0.groups[0].chans, RowsOf(ops, 0), k, pad)
  {
    hide Begin, Defined, CanBegin, LegibleGroup, Lossless, DataStream, Run, Close, Recorded, LegalOps, WellTyped;
    hide Expressible, GrownShape, SignalsBuffered, RowsOf, ShortTexts, Running, SameGroup, Restreamed, MarkAt, InPlace;
    var z := env.z;
    var h0, h, late := GrownClosed(z, s0, ops);
    var s, f, rows := Recorded(z, s0, ops), Close(z, Run(z, s0, ops)).store.disk, RowsOf(ops, 0);
    var g0 := OnlyBegun(s0);
    ShapeRuns(z, s, s0.cfg, f, h0, h, g0, late, rows);
    HistOne(ops);
    InPlaceIffShort(z, s0, ops, s, h0);
    InPlaceMeans(s);
    k, pad := MarkStands(z, s, s0.cfg, f, h0, h, g0, late, rows);
    MarkMoves(f, s.growAddr + 24, s0.groups[0], g0, rows, k, pad);
    LongNeedsText(s0, ops);
  }

  lemma FirstStep(z: Zlib, s0: State, op: Op)
    requires Defined(s0) && WellTyped(s0) && CanBegin(s0) && op.Append? && LegalOps(s0, [op])
    ensures WellTyped(Begin(s0)) && LegalOp(Begin(s0), op)
    ensures Recorded(z, s0, [op]) == AppendRecord(z, Begin(s0), op.g, op.rec, op.strings)
  {
    hide Begin, AppendRecord, CanBegin, WellTyped, Defined;
    assert LegalOp(s0, [op][0]);
    DefinedOpen(s0);
    StepFirst(z, s0, op);
    BeginFields(s0);
    assert [op][..0] == [];
    assert Run(z, s0, []) == s0;
    var b := Begin(s0);
    assert Step(z, b, op) == AppendRecord(z, b, op.g, op.rec, op.strings);
    StepStays(z, b, op);
  }

  lemma HistOne(ops: seq<Op>)
    ensures Hist(ops, 1) == [RowsOf(ops, 0)]
  {
  }

  lemma FirstStop(s: State, h: Heap, g0: Group, rows: seq<Row>) returns (k: nat)
    requires GrowIs(s, h, g0, rows) && !SignalsBuffered(s.groups[0].chans)
    ensures k < |rows| && DataAt(h, AlignUp(s.growAddr + 24 + |DataStream(g0.chans, rows[..k])|))
  {
    hide DataStream, DataAt, AlignUp;
    k :| Stops(h, s.growAddr, g0.chans, rows, k);
  }

  lemma AlignPad(n: nat)
    ensures n <= AlignUp(n) < n + 8
  {
  }

  lemma DataKeptAt(h: Heap, h': Heap, a: nat)
    requires DataKept(h, h') && DataAt(h, a)
    ensures a in h'
  {
  }

  lemma WithoutAt(f: Bytes, h: Heap, a: nat, b: nat)
    requires HeapIn(f, Without(h, a)) && b in h && b != a
    ensures b < |f| && f[b] == 0x23
  {
    hide LE, LinkBytes;
    var x := Without(h, a)[b];
    assert ValidBlock(x) && At(f, b, Encode(x));
    assert f[b..b + |Encode(x)|][0] == Encode(x)[0] == x.id[0];
  }

  /** A string channel makes the record at least eight bytes long. */
  lemma TextFits(s0: State)
    requires Defined(s0) && Growing(s0)
             && !(forall ci :: 0 <= ci < |s0.groups[0].chans| ==> !s0.groups[0].chans[ci].def.vlsd)
    ensures s0.groups[0].recSize >= 8
  {
    var g := s0.groups[0];
    assert FreshGroup(g);
    TiledInside(g.chans, g.recSize);
    var ci :| 0 <= ci < |g.chans| && g.chans[ci].def.vlsd;
    assert FreshChan(g.chans[ci]);
  }

  lemma LongNeedsText(s0: State, ops: seq<Op>)
    requires Defined(s0) && Growing(s0) && !ShortTexts(s0, ops)
    ensures s0.groups[0].recSize >= 8
  {
    hide Defined, TextStream, RowsOf;
    TextFits(s0);
  }

  lemma {:induction false} DataPrefix(chans: seq<Chan>, rows: seq<Row>, k: nat)
    requires k <= |rows|
    ensures DataStream(chans, rows[..k]) <= DataStream(chans, rows)
  {
    hide DataStream, StoredRow;
    if k < |rows| {
      var before, row := rows[..|rows| - 1], rows[|rows| - 1];
      DataPrefix(chans, before, k);
      DataSnoc(chans, before, row);
      assert before + [row] == rows && before[..k] == rows[..k];
    } else {
      assert rows[..k] == rows;
    }
  }

  /** Byte b of record k in the recording. */
  lemma ByteOfRow(chans: seq<Chan>, rows: seq<Row>, k: nat, b: nat)
    requires k < |rows| && b < |StoredRow(chans, rows[..k], rows[k])|
    ensures var at := |DataStream(chans, rows[..k])| + b;
            at < |DataStream(chans, rows)| && DataStream(chans, rows)[at] == StoredRow(chans, rows[..k], rows[k])[b]
  {
    hide DataStream, StoredRow;
    assert rows[..k + 1] == rows[..k] + [rows[k]];
    DataSnoc(chans, rows[..k], rows[k]);
    DataPrefix(chans, rows, k + 1);
  }

  /** No stored record has the mark of a block in its first eight bytes. */
  ghost predicate Markless(chans: seq<Chan>, rows: seq<Row>) {
    forall k :: 0 <= k < |rows| ==> NoMark(StoredRow(chans, rows[..k], rows[k]))
  }

  ghost predicate NoMark(rec: Bytes) {
    forall b :: 0 <= b < 8 && b < |rec| ==> rec[b] != 0x23
  }

  /** For such records the closed file reads back if and only if no text has filled a chunk. */
  lemma MarklessReadsIff(env: Env, s0: State, ops: seq<Op>)
    requires |s0.groups| == 1 && Recordable(env, s0, ops) && Markless(s0.groups[0].chans, RowsOf(ops, 0))
    ensures ClosedReads(env, s0, ops) <==> ShortTexts(s0, ops)
  {
    hide Defined, CanBegin, LegibleGroup, DataStream, Run, Close, Recorded, Lossless, LegalOps, WellTyped;
    hide Expressible, Open;
    hide GroupReads, ShortTexts, StoredRow, NoMark, Growing;
    assert Growing(s0) && |s0.groups| == 1 by { GrowingMeans(s0); }
    GrownReadsIff(env, s0, ops);
    if ShortTexts(s0, ops) {
      LegibleAll(s0);
      CloseThenOpen(env, s0, ops);
    } else {
      var k, pad := MarkThere(env, s0, ops);
      var f, g, rows := Close(env.z, Run(env.z, s0, ops)).store.disk, s0.groups[0], RowsOf(ops, 0);
      var a := Recorded(env.z, s0, ops).growAddr + 24;
      StoredLong(s0, ops, k);
      ByteOfRow(g.chans, rows, k, pad);
      NoMarkAt(StoredRow(g.chans, rows[..k], rows[k]), pad);
      AtByte(f, a, DataStream(g.chans, rows), |DataStream(g.chans, rows[..k])| + pad);
    }
  }

  lemma GrowingMeans(s0: State)
    requires Growing(s0)
    ensures |s0.groups| == 1
  {
  }

  lemma LegibleAll(s0: State)
    requires |s0.groups| == 1 && LegibleGroup(s0.groups[0])
    ensures forall gi :: 0 <= gi < |s0.groups| ==> LegibleGroup(s0.groups[gi])
  {
  }

  lemma NoMarkAt(rec: Bytes, b: nat)
    requires NoMark(rec) && b < 8 && b < |rec|
    ensures rec[b] != 0x23
  {
  }

  lemma StoredLong(s0: State, ops: seq<Op>, k: nat)
    requires Defined(s0) && LegalOps(s0, ops) && |s0.groups| == 1 && k < |RowsOf(ops, 0)|
    ensures var g, rows := s0.groups[0], RowsOf(ops, 0);
            |StoredRow(g.chans, rows[..k], rows[k])| == g.recSize
  {
    var g, rows := s0.groups[0], RowsOf(ops, 0);
    hide Stamped;
    RowsLegal(s0, ops, 0);
    StringsLie(g);
    StampedLength(g.chans, rows[..k], rows[k], |g.chans|);
  }

  lemma {:induction false} RowsLegal(s0: State, ops: seq<Op>, gi: nat)
    requires LegalOps(s0, ops) && gi < |s0.groups|
    ensures RowsFit(RowsOf(ops, gi), s0.groups[gi].recSize, |s0.groups[gi].chans|)
  {
    if ops != [] {
      var init, op := ops[..|ops| - 1], ops[|ops| - 1];
      assert forall i :: 0 <= i < |init| ==> init[i] == ops[i];
      RowsLegal(s0, init, gi);
      assert LegalOp(s0, op);
    }
  }

  lemma StringsLie(g: Group)
    requires FreshGroup(g)
    ensures FieldsInside(g.chans, g.recSize)
  {
    TiledInside(g.chans, g.recSize);
    forall i | 0 <= i < |g.chans| && g.chans[i].def.vlsd
      ensures g.chans[i].def.field.byteOffset + 8 <= g.recSize
    {
      assert FreshChan(g.chans[i]);
    }
  }

  lemma AtByte(img: Bytes, a: nat, part: Bytes, k: nat)
    requires k < |part| && a + k < |img|
    ensures At(img, a, part) ==> img[a + k] == part[k]
  {
    assert At(img, a, part) ==> img[a..a + |part|][k] == part[k];
  }
}
