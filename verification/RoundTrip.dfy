/** Closing a recording and opening the file: everything that was defined and appended is there. */
module RoundTrip {
  import opened Wire
  import opened Blocks
  import opened Meta
  import opened Zip
  import opened Store
  import opened WriterSpec
  import opened Written
  import opened Streams
  import opened Runs
  import opened History
  import opened Closing
  import opened SectionProof
  import opened TreeProof
  import opened Tree
  import opened Sections
  import T = Transpose
  import SR = StreamRoundTrip

  /** A channel of the file is the channel that was defined. */
  ghost predicate ChannelIs(v: ChannelView, d: ChanDef) {
    && v.name == d.name && v.unit == d.unit && v.comment == d.comment && v.field == d.field
    && v.bitOffset == 0 && v.flags == 0 && v.composition == 0 && v.cc == ConvView(d.conv)
  }

  /** The signal data of a string channel is complete; the link is NIL when there is none. */
  ghost predicate SignalReads(f: Bytes, z: Zlib, link: int, rows: seq<Row>, ci: nat) {
    && (link == 0 <==> rows == [])
    && SectionIs(f, z, link, false, TextStream(rows, ci))
  }

  /** A group of the file is the group that was defined, with its record count and complete signal data. */
  ghost predicate GroupShows(f: Bytes, z: Zlib, v: GroupView, g: Group, rows: seq<Row>) {
    && v.name == g.name && v.recordSize == g.recSize && v.recIdSize == 0
    && v.recordCount == |rows|
    && |v.channels| == |g.chans|
    && (forall ci :: 0 <= ci < |g.chans| ==> ChannelIs(v.channels[ci], g.chans[ci].def))
    && (forall ci :: 0 <= ci < |g.chans| && g.chans[ci].def.vlsd ==> SignalReads(f, z, v.channels[ci].data, rows, ci))
  }

  /** In addition its data section holds exactly the rows appended to it. */
  ghost predicate GroupReads(f: Bytes, z: Zlib, v: GroupView, g: Group, rows: seq<Row>) {
    GroupShows(f, z, v, g, rows) && SectionIs(f, z, v.data, false, DataStream(g.chans, rows))
  }

  /** The writer as finalize finds it: an untouched one has begun first. */
  function Recorded(z: Zlib, s0: State, ops: seq<Op>): (r: State)
    requires WellTyped(s0) && LegalOps(s0, ops) && CanBegin(s0)
    ensures WellTyped(r)
  {
    BeginTyped(s0);
    var s := Run(z, s0, ops);
    if s.started then s else Begin(s0)
  }

  /** Sizes the format can express: file offsets, stream lengths and list counts. */
  ghost predicate Expressible(z: Zlib, s0: State, ops: seq<Op>)
    requires WellTyped(s0) && LegalOps(s0, ops) && CanBegin(s0)
  {
    var s := Recorded(z, s0, ops);
    && |Close(z, Run(z, s0, ops)).store.disk| < TWO_63
    && (forall i :: 0 <= i < |s.groups| ==> ListsFit(s.groups[i]))
    && (forall gi :: 0 <= gi < |s0.groups| ==>
          && |DataStream(s0.groups[gi].chans, RowsOf(ops, gi))| < TWO_63
          && forall ci :: 0 <= ci < |s0.groups[gi].chans| && s0.groups[gi].chans[ci].def.vlsd ==>
               |TextStream(RowsOf(ops, gi), ci)| < TWO_63)
  }

  /** No string channel of a growing file has gathered a whole chunk before Close. */
  ghost predicate ShortTexts(s0: State, ops: seq<Op>) {
    Growing(s0) ==>
      forall ci :: 0 <= ci < |s0.groups[0].chans| && s0.groups[0].chans[ci].def.vlsd ==>
        |TextStream(RowsOf(ops, 0), ci)| < s0.cfg.chunkSize
  }

  // ---- pieces ----

  lemma RecordedRunning(z: Zlib, s0: State, ops: seq<Op>) returns (h: Heap)
    requires Defined(s0) && WellTyped(s0) && LegalOps(s0, ops)
    ensures CanBegin(s0)
    ensures var s := Recorded(z, s0, ops);
            && Running(z, s, h, Begin(s0).groups, Hist(ops, |s0.groups|)) && WellTyped(s)
            && |Begin(s0).groups| == |s0.groups| && s.cfg == s0.cfg && s.growing == Growing(s0) && !s.closed
    ensures Close(z, Run(z, s0, ops)).store.disk
            == WriteAt(Prepared(z, Recorded(z, s0, ops)).Image(), 0, FinalID(s0.cfg))
  {
    hide Begin, Running, Run, Defined, CanBegin, Hist, Prepared, WellTyped, FinalID, SameGroup, Restreamed;
    DefinedTyped(s0);
    DefinedOpen(s0);
    BeginTyped(s0);
    BeginFields(s0);
    RunCfg(z, s0, ops);
    h := RunRunning(z, s0, ops);
    if !Run(z, s0, ops).started {
      h := BeginRunning(z, s0);
    }
  }

  /** Configuration and layout do not change after begin. */
  lemma {:induction false} RunCfg(z: Zlib, s0: State, ops: seq<Op>)
    requires Defined(s0) && WellTyped(s0) && LegalOps(s0, ops) && CanBegin(s0)
    ensures var s := Run(z, s0, ops); s.cfg == s0.cfg && (s.started ==> s.growing == Growing(s0)) && !s.closed
    ensures var s := Run(z, s0, ops); !s.started ==> s == s0
    decreases |ops|
  {
    DefinedOpen(s0);
    hide Begin, Defined, CanBegin, Step, WellTyped;
    if ops != [] {
      var init, op := ops[..|ops| - 1], ops[|ops| - 1];
      assert forall i :: 0 <= i < |init| ==> init[i] == ops[i];
      RunCfg(z, s0, init);
      var s := Run(z, s0, init);
      assert LegalOp(s0, op) && LegalOp(s, op);
      if !s.started {
        StepFirst(z, s0, op);
        BeginFields(s0);
        if op.Append? {
          StepCfg(z, Begin(s0), op);
        }
      } else {
        StepCfg(z, s, op);
      }
    }
  }

  lemma StepCfg(z: Zlib, s: State, op: Op)
    requires WellTyped(s) && LegalOp(s, op) && s.started
    ensures var t := Step(z, s, op); t.cfg == s.cfg && t.growing == s.growing && t.closed == s.closed && t.started
  {
    hide AppendStrings, AppendStream;
  }

  lemma DefsKept(s0: State, gi: nat)
    requires Defined(s0) && WellTyped(s0) && CanBegin(s0) && gi < |s0.groups|
    ensures |Begin(s0).groups| == |s0.groups|
    ensures SameGroup(Begin(s0).groups[gi], Restreamed(s0.groups[gi]))
  {
    BeginTyped(s0);
  }

  lemma {:induction false} StampedSame(cs: seq<Chan>, ds: seq<Chan>, before: seq<Row>, row: Row, n: nat)
    requires n <= |cs| == |ds| && forall i :: 0 <= i < |cs| ==> cs[i].def == ds[i].def
    ensures Stamped(cs, before, row, n) == Stamped(ds, before, row, n)
  {
    hide LE;
    if n > 0 {
      StampedSame(cs, ds, before, row, n - 1);
    }
  }

  /** Stored records depend on the definitions only. */
  lemma {:induction false} DataSame(cs: seq<Chan>, ds: seq<Chan>, rows: seq<Row>)
    requires |cs| == |ds| && forall i :: 0 <= i < |cs| ==> cs[i].def == ds[i].def
    ensures StoredRows(cs, rows) == StoredRows(ds, rows)
  {
    hide Stamped;
    if rows != [] {
      DataSame(cs, ds, rows[..|rows| - 1]);
      StampedSame(cs, ds, rows[..|rows| - 1], rows[|rows| - 1], |cs|);
    }
  }

  /** Rewriting the identification block leaves every other block alone. */
  lemma HeapRewritten(st: Store, h: Heap, id: Bytes)
    requires StoreInv(st, h) && st.End() < TWO_63 && |id| == ID_SIZE
    ensures var f := WriteAt(st.Image(), 0, id);
            HeapIn(f, h) && At(f, 0, id) && |f| == st.End()
  {
    hide Encode, StoreInv;
    ImageLength(st) by { InRangeOf(st, h); }
    EndPositive(st, h);
    var img := st.Image();
    var f := WriteAt(img, 0, id);
    WriteAtInside(img, 0, id);
    assert img[..0] == [];
    assert f[0..64] == id;
    forall a | a in h
      ensures ValidBlock(h[a]) && At(f, a, Encode(h[a])) && 0 < a < TWO_63
    {
      BlocksValid(st, h, a);
      BlockInside(st, h, a);
      AtFrame(img, a, Encode(h[a]), 0, id);
    }
  }

  lemma TextsNonEmpty(rows: seq<Row>, ci: nat)
    ensures TextStream(rows, ci) == [] <==> rows == []
  {
    if rows != [] {
      assert |Entry(Text(rows[|rows| - 1], ci))| >= 4;
    }
  }

  lemma SignalRead(f: Bytes, z: Zlib, h: Heap, chunkSize: nat, c0: Chan, ci: nat, link: nat, rows: seq<Row>)
    requires HeapIn(f, h) && Lossless(z) && SignalLinked(h, z, chunkSize, c0, ci, link, rows) && c0.def.vlsd
    requires |TextStream(rows, ci)| < TWO_63
    ensures SignalReads(f, z, link, rows, ci)
  {
    hide HeapIn, Lossless, Linked, TextStream, SectionIs;
    TextsNonEmpty(rows, ci);
    LinkedRead(f, z, h, ID_SD, 0, chunkSize, link, TextStream(rows, ci));
    if rows == [] {
      SR.LinkedNothing(h, z, ID_SD, 0, chunkSize, link, TextStream(rows, ci));
    }
  }

  /** The one data block of the growing layout. */
  lemma GrownRead(f: Bytes, z: Zlib, h: Heap, a: nat, content: Bytes)
    requires HeapIn(f, h) && a in h && h[a] == Block(ID_DT, [], content)
    ensures SectionIs(f, z, a, false, content)
  {
    StoredRead(f, a, ID_DT, content, 0);
    HeaderBuilt(f, a, h[a], []);
    hide Encode, HeapIn, LE, FromLE, AddStored;
    var s := Segment(0, |content|, a + 24, 0, 0, Stored);
    assert Resolve(f, a, false) == Ok([s]) by {
      assert Sorted([s]) == [s] by { SortedOfAscending([s]); }
    }
    OneSegment(f, z, s, content);
  }

  lemma OneSegment(f: Bytes, z: Zlib, s: Segment, content: Bytes)
    requires s.kind == Stored && s.logical == 0 && s.length == |content| && Slice(f, s.addr, s.length) == Ok(content)
    ensures SectionHolds(f, z, [s], content)
  {
    assert [s][..0] == [];
    assert SizeOf([]) == 0;
    forall k: nat | k < |content|
      ensures ByteAt(f, z, [s], k) == Some(content[k])
    {
      assert SegIndex([s], k) == 0;
      assert content[k] == f[s.addr..s.addr + s.length][k];
    }
  }

  lemma DataRead(f: Bytes, z: Zlib, h: Heap, cfg: Config, growing: bool, g0: Group, data: nat, rows: seq<Row>)
    requires HeapIn(f, h) && Lossless(z) && DataLinkedTo(h, z, cfg, growing, g0, data, rows) && g0.recSize < TWO_32
    requires |DataStream(g0.chans, rows)| < TWO_63
    ensures SectionIs(f, z, data, false, DataStream(g0.chans, rows))
  {
    hide HeapIn, Lossless, Linked, DataStream, SectionIs;
    if growing {
      GrownRead(f, z, h, data, DataStream(g0.chans, rows));
    } else {
      LinkedRead(f, z, h, ID_DT, g0.recSize, cfg.chunkSize, data, DataStream(g0.chans, rows));
    }
  }

  /** One final group, seen through Open. */
  lemma GroupSeen(f: Bytes, z: Zlib, h: Heap, cfg: Config, growing: bool, g: Group, g0: Group, late: Late,
                  rows: seq<Row>)
    requires HeapIn(f, h) && Lossless(z) && GroupFinal(h, z, cfg, growing, g0, late, rows)
    requires SameGroup(g0, Restreamed(g)) && g.recSize < TWO_32
    requires |DataStream(g.chans, rows)| < TWO_63
    requires forall ci :: 0 <= ci < |g.chans| && g.chans[ci].def.vlsd ==> |TextStream(rows, ci)| < TWO_63
    ensures |late.signals| == |g0.chans|
    ensures GroupReads(f, z, GroupViewOf(g0, late), g, rows)
  {
    hide HeapIn, Lossless, DataLinkedTo, SignalsLinked, SectionIs, GroupShows, TextStream;
    DataSame(g0.chans, g.chans, rows);
    DataRead(f, z, h, cfg, growing, g0, late.data, rows);
    GroupShown(f, z, h, cfg.chunkSize, g, g0, late, rows);
  }

  lemma GroupShown(f: Bytes, z: Zlib, h: Heap, chunkSize: nat, g: Group, g0: Group, late: Late, rows: seq<Row>)
    requires HeapIn(f, h) && Lossless(z) && late.count == |rows|
    requires SignalsLinked(h, z, chunkSize, g0.chans, late.signals, rows, |g0.chans|)
    requires SameGroup(g0, Restreamed(g))
    requires forall ci :: 0 <= ci < |g.chans| && g.chans[ci].def.vlsd ==> |TextStream(rows, ci)| < TWO_63
    ensures |late.signals| == |g0.chans|
    ensures GroupShows(f, z, GroupViewOf(g0, late), g, rows)
  {
    hide HeapIn, Lossless, SignalLinked, SectionIs, SignalReads, TextStream;
    ViewsAt(g0.chans, late.signals, 0);
    var v := GroupViewOf(g0, late);
    forall ci | 0 <= ci < |g.chans|
      ensures ChannelIs(v.channels[ci], g.chans[ci].def)
      ensures g.chans[ci].def.vlsd ==> SignalReads(f, z, v.channels[ci].data, rows, ci)
    {
      assert v.channels[ci] == ViewOf(g0.chans[ci].def, late.signals[ci]);
      assert SignalLinked(h, z, chunkSize, g0.chans[ci], ci, late.signals[ci], rows);
      if g.chans[ci].def.vlsd {
        SignalRead(f, z, h, chunkSize, g0.chans[ci], ci, late.signals[ci], rows);
      }
    }
  }

  lemma BufferedIffShort(h: Heap, z: Zlib, chunkSize: nat, chans: seq<Chan>, rows: seq<Row>)
    requires SignalsAre(h, z, chunkSize, chans, rows)
    ensures SignalsBuffered(chans) <==>
            forall ci :: 0 <= ci < |chans| && chans[ci].def.vlsd ==> |TextStream(rows, ci)| < chunkSize
  {
    hide StreamIs, TextStream;
    forall ci | 0 <= ci < |chans|
      ensures chans[ci].sd.segs == [] <==> (chans[ci].def.vlsd ==> |TextStream(rows, ci)| < chunkSize)
    {
      assert SignalIs(h, z, chunkSize, chans[ci], ci, rows);
      if chans[ci].def.vlsd {
        StreamTotal(h, z, chans[ci].sd, chunkSize, TextStream(rows, ci));
      }
    }
  }

  lemma LegibleKept(g: Group, g0: Group)
    requires LegibleGroup(g) && SameGroup(g0, Restreamed(g))
    ensures LegibleGroup(g0)
  {
    hide Legible;
    forall i | 0 <= i < |g0.chans|
      ensures Legible(g0.chans[i].def)
    {
      assert Legible(g.chans[i].def);
    }
  }

  lemma FewRows(g: Group, rows: seq<Row>)
    requires FreshGroup(g) && RowsFit(rows, g.recSize, |g.chans|) && |DataStream(g.chans, rows)| < TWO_63
    ensures |rows| < TWO_64
  {
    TiledInside(g.chans, g.recSize);
    assert FieldsInside(g.chans, g.recSize) by {
      forall i | 0 <= i < |g.chans| && g.chans[i].def.vlsd
        ensures g.chans[i].def.field.byteOffset + 8 <= g.recSize
      {
        assert FreshChan(g.chans[i]);
      }
    }
    StoredLengths(g.chans, rows, g.recSize);
    T.MulMono(1, g.recSize, |rows|);
  }

  /** Under the invariant, the growing layout is in place exactly when all texts are shorter than a chunk. */
  lemma InPlaceIffShort(z: Zlib, s0: State, ops: seq<Op>, s: State, h: Heap)
    requires Defined(s0) && WellTyped(s0) && CanBegin(s0) && s.cfg == s0.cfg && s.growing == Growing(s0)
    requires Running(z, s, h, Begin(s0).groups, Hist(ops, |s0.groups|))
    ensures |Begin(s0).groups| == |s0.groups| == |s.groups|
    ensures InPlace(s) <==> ShortTexts(s0, ops)
  {
    hide Begin, FileInv, GrowIs, SignalsAre, TextStream, StreamIs, SignalsBuffered, DataStream, IDBytes, Defined;
    hide CanBegin;
    DefsCount(s0);
    if s.growing {
      DefsKept(s0, 0);
      var g, g0, rows := s.groups[0], Begin(s0).groups[0], Hist(ops, |s0.groups|)[0];
      assert GroupIs(h, z, s.cfg, s.growing, g, g0, rows);
      BufferedIffShort(h, z, s.cfg.chunkSize, g.chans, rows);
      assert forall ci :: 0 <= ci < |g.chans| ==> g.chans[ci].def == s0.groups[0].chans[ci].def;
    }
  }

  lemma DefsCount(s0: State)
    requires Defined(s0) && WellTyped(s0) && CanBegin(s0)
    ensures |Begin(s0).groups| == |s0.groups| > 0
  {
    BeginTyped(s0);
  }

  // ---- the round trip ----

  lemma ExpressibleMeans(z: Zlib, s0: State, ops: seq<Op>)
    requires WellTyped(s0) && LegalOps(s0, ops) && CanBegin(s0) && Expressible(z, s0, ops)
    ensures |Close(z, Run(z, s0, ops)).store.disk| < TWO_63
    ensures forall i :: 0 <= i < |Recorded(z, s0, ops).groups| ==> ListsFit(Recorded(z, s0, ops).groups[i])
  {
    hide Close, Run, Recorded, ListsFit, DataStream, TextStream, WellTyped, LegalOps, CanBegin;
  }

  /** A closed file: its tree, and every group with everything appended to it. */
  ghost predicate ClosedAs(f: Bytes, z: Zlib, cfg: Config, gs: seq<Group>, ops: seq<Op>, gs0: seq<Group>, st: Store,
                           h: Heap, id: Bytes, lates: seq<Late>)
  {
    && FileInv(st, h, id, gs0, lates) && HeapIn(f, h) && At(f, 0, FinalID(cfg)) && |lates| == |gs0| == |gs|
    && forall gi :: 0 <= gi < |gs0| ==>
         && LegibleGroup(gs0[gi]) && lates[gi].count < TWO_64 && |lates[gi].signals| == |gs0[gi].chans|
         && GroupReads(f, z, GroupViewOf(gs0[gi], lates[gi]), gs[gi], RowsOf(ops, gi))
  }

  lemma ClosedIsRead(env: Env, f: Bytes, cfg: Config, gs: seq<Group>, ops: seq<Op>, gs0: seq<Group>, st: Store,
                     h: Heap, id: Bytes, lates: seq<Late>)
    requires ClosedAs(f, env.z, cfg, gs, ops, gs0, st, h, id, lates)
    ensures var r := Open(env, f);
            && r.Ok? && r.value.version == VERSION && !r.value.finalize && |r.value.groups| == |gs|
            && forall gi :: 0 <= gi < |gs| ==> GroupReads(f, env.z, r.value.groups[gi], gs[gi], RowsOf(ops, gi))
  {
    hide FileInv, GroupReads, LegibleGroup, IDBytes, Open, GroupViewOf, HeapIn, RowsOf;
    OpenRead(env, f, st, h, id, gs0, lates, cfg.program, 0);
    GroupViewsAt(gs0, lates, 0);
  }

  lemma ClosedFile(z: Zlib, s0: State, ops: seq<Op>, f: Bytes) returns (st: Store, h: Heap, id: Bytes, lates: seq<Late>)
    requires Defined(s0) && WellTyped(s0) && LegalOps(s0, ops) && CanBegin(s0) && Lossless(z)
    requires forall gi :: 0 <= gi < |s0.groups| ==> LegibleGroup(s0.groups[gi])
    requires Expressible(z, s0, ops) && ShortTexts(s0, ops) && f == Close(z, Run(z, s0, ops)).store.disk
    ensures ClosedAs(f, z, s0.cfg, s0.groups, ops, Begin(s0).groups, st, h, id, lates)
  {
    hide Begin, Running, FileInv, GroupFinal, Defined, CanBegin, GroupReads, LegibleGroup, TextStream, DataStream, Hist;
    hide Prepared, Run, Close, Recorded, ListsFit, SameGroup, Restreamed, IDBytes, GroupViewOf, HeapIn, WriteAt;
    hide Lossless, Expressible, ShortTexts, LegalOps, WellTyped;
    var s := Recorded(z, s0, ops);
    var h0 := RecordedRunning(z, s0, ops);
    var gs0, hist := Begin(s0).groups, Hist(ops, |s0.groups|);
    InPlaceIffShort(z, s0, ops, s, h0);
    ExpressibleMeans(z, s0, ops);
    h, lates := PreparedFinal(z, s, h0, gs0, hist);
    st, id := Prepared(z, s), OpenID(s);
    FileStoreInv(st, h, id, gs0, lates);
    FinalLength(st, h, FinalID(s0.cfg));
    HeapRewritten(st, h, FinalID(s0.cfg));
    forall gi | 0 <= gi < |gs0|
      ensures LegibleGroup(gs0[gi]) && lates[gi].count < TWO_64 && |lates[gi].signals| == |gs0[gi].chans|
      ensures GroupReads(f, z, GroupViewOf(gs0[gi], lates[gi]), s0.groups[gi], RowsOf(ops, gi))
    {
      HistAt(ops, |s0.groups|, gi);
      FinalGroup(z, s0, ops, f, h, s, h0, gs0[gi], lates[gi], hist[gi], gi);
    }
  }

  /** For any definitions and any history of appends and flushes: after Close the file opens as a finalized
      version 4.10 file with the groups and channels in definition order, record counts equal to the number of
      appends, and every data and signal data section equal to the concatenation of what was appended. */
  lemma CloseThenOpen(env: Env, s0: State, ops: seq<Op>)
    requires Defined(s0) && WellTyped(s0) && LegalOps(s0, ops) && CanBegin(s0) && Lossless(env.z)
    requires forall gi :: 0 <= gi < |s0.groups| ==> LegibleGroup(s0.groups[gi])
    requires Expressible(env.z, s0, ops) && ShortTexts(s0, ops)
    ensures var f := Close(env.z, Run(env.z, s0, ops)).store.disk;
            var r := Open(env, f);
            && r.Ok? && r.value.version == VERSION && !r.value.finalize && |r.value.groups| == |s0.groups|
            && forall gi :: 0 <= gi < |s0.groups| ==>
                 GroupReads(f, env.z, r.value.groups[gi], s0.groups[gi], RowsOf(ops, gi))
  {
    hide Begin, FileInv, Defined, CanBegin, GroupReads, LegibleGroup, Run, Close, Recorded, IDBytes, Open, GroupViewOf;
    hide HeapIn, Lossless, Expressible, ShortTexts, LegalOps, WellTyped, RowsOf, ClosedAs;
    var f := Close(env.z, Run(env.z, s0, ops)).store.disk;
    var st, h, id, lates := ClosedFile(env.z, s0, ops, f);
    ClosedIsRead(env, f, s0.cfg, s0.groups, ops, Begin(s0).groups, st, h, id, lates);
  }

  lemma HistAt(ops: seq<Op>, n: nat, gi: nat)
    requires gi < n
    ensures |Hist(ops, n)| == n && Hist(ops, n)[gi] == RowsOf(ops, gi)
  {
  }

  lemma FinalLength(st: Store, h: Heap, id: Bytes)
    requires StoreInv(st, h) && |id| == ID_SIZE
    ensures |WriteAt(st.Image(), 0, id)| == st.End()
  {
    ImageLength(st);
  }

  lemma FinalGroup(z: Zlib, s0: State, ops: seq<Op>, f: Bytes, h: Heap, s: State, h0: Heap, g0: Group, late: Late,
                   rows: seq<Row>, gi: nat)
    requires Defined(s0) && WellTyped(s0) && LegalOps(s0, ops) && CanBegin(s0) && Lossless(z)
    requires Expressible(z, s0, ops) && gi < |s0.groups| == |Begin(s0).groups| && LegibleGroup(s0.groups[gi])
    requires g0 == Begin(s0).groups[gi] && rows == RowsOf(ops, gi)
    requires Running(z, s, h0, Begin(s0).groups, Hist(ops, |s0.groups|)) && s.cfg == s0.cfg
    requires HeapIn(f, h) && GroupFinal(h, z, s.cfg, s.growing, g0, late, rows)
    ensures LegibleGroup(g0) && late.count < TWO_64 && |late.signals| == |g0.chans|
    ensures GroupReads(f, z, GroupViewOf(g0, late), s0.groups[gi], rows)
  {
    hide Begin, FileInv, GrowIs, LegibleGroup, TextStream, DataStream, IDBytes, GroupReads, GroupViewOf, HeapIn;
    hide SignalsAre, StreamIs, Lossless;
    var g := s0.groups[gi];
    assert Hist(ops, |s0.groups|)[gi] == rows;
    DefsKept(s0, gi);
    LegibleKept(g, g0);
    assert FreshGroup(g);
    assert GroupIs(h0, z, s.cfg, s.growing, s.groups[gi], g0, rows);
    SameRows(g0, g, rows);
    FewRows(g, rows);
    assert late.count == |rows| by { FinalCount(h, z, s.cfg, s.growing, g0, late, rows); }
    GroupSeen(f, z, h, s.cfg, s.growing, g, g0, late, rows);
  }

  lemma FinalCount(h: Heap, z: Zlib, cfg: Config, growing: bool, g0: Group, late: Late, rows: seq<Row>)
    requires GroupFinal(h, z, cfg, growing, g0, late, rows)
    ensures late.count == |rows|
  {
  }

  lemma SameRows(g0: Group, g: Group, rows: seq<Row>)
    requires SameGroup(g0, Restreamed(g)) && RowsFit(rows, g0.recSize, |g0.chans|)
    ensures RowsFit(rows, g.recSize, |g.chans|)
  {
  }

  lemma ViewFields(g: Group, g0: Group, late: Late)
    requires SameGroup(g0, Restreamed(g)) && |late.signals| == |g0.chans|
    ensures var v := GroupViewOf(g0, late);
            && v.name == g.name && v.recordSize == g.recSize && v.recIdSize == 0 && v.data == late.data
            && |v.channels| == |g.chans| && forall ci :: 0 <= ci < |g.chans| ==>
               ChannelIs(v.channels[ci], g.chans[ci].def)
  {
    ViewsAt(g0.chans, late.signals, 0);
    forall ci | 0 <= ci < |g.chans|
      ensures ChannelIs(GroupViewOf(g0, late).channels[ci], g.chans[ci].def)
    {
      assert GroupViewOf(g0, late).channels[ci] == ViewOf(g0.chans[ci].def, late.signals[ci]);
    }
  }
}
