/** The growing layout under crashes: whatever prefix of the recording reached the disk, and however far Close
    had come, the file opens and holds exactly the complete records that reached it. */
module Crash {
  import opened Wire
  import opened Blocks
  import opened Meta
  import opened Zip
  import opened Store
  import opened WriterSpec
  import opened Written
  import opened Runs
  import opened History
  import opened Closing
  import opened SectionProof
  import opened TreeProof
  import opened Tree
  import opened Sections
  import opened RoundTrip
  import T = Transpose

  /** A single uncompressed group without string channels. */
  ghost predicate Logger(s0: State) {
    && Defined(s0) && WellTyped(s0) && Growing(s0)
    && forall ci :: 0 <= ci < |s0.groups[0].chans| ==> !s0.groups[0].chans[ci].def.vlsd
  }

  /** What a crash can leave behind from the end of begin to the end of Close: all that was handed to the system
      and any part of the write buffer; during Close the whole buffer and some of the patches; at the very end the
      finalized identification block. */
  ghost predicate CrashImage(z: Zlib, s: State, img: Bytes)
    requires WellTyped(s)
  {
    || (exists n :: 0 <= n <= |s.store.buf| && img == s.store.disk + s.store.buf[..n])
    || (exists k :: 0 <= k <= |Prepared(z, s).patches|
                    && img == Patched(Prepared(z, s).disk + Prepared(z, s).buf, Prepared(z, s).patches[..k]))
    || img == WriteAt(Prepared(z, s).Image(), 0, FinalID(s.cfg))
  }

  /** Bytes of the recording proper that are in the file. */
  function Durable(s: State, img: Bytes): int {
    |img| - (s.growAddr + 24)
  }

  /** The history up to its last flush. */
  function UpToFlush(ops: seq<Op>): (r: seq<Op>)
    ensures r <= ops
  {
    if ops == [] || ops[|ops| - 1].Flush? then ops else UpToFlush(ops[..|ops| - 1])
  }

  // ---- how much is on disk ----

  lemma {:induction false} RowsPrefix(ops: seq<Op>, gi: nat)
    ensures RowsOf(UpToFlush(ops), gi) <= RowsOf(ops, gi)
  {
    if ops != [] && !ops[|ops| - 1].Flush? {
      RowsPrefix(ops[..|ops| - 1], gi);
    }
  }

  /** A logger's append leaves the disk to the write buffer. */
  lemma {:induction false} NoStringsAppended(z: Zlib, cfg: Config, st: Store, chans: seq<Chan>, rec: Bytes,
                                             strings: seq<Bytes>, n: nat)
    requires n <= |chans| == |strings| && forall i :: 0 <= i < |chans| ==> |chans[i].sd.id| == 4
    requires forall i :: 0 <= i < |chans| ==> !chans[i].def.vlsd
    ensures AppendStrings(z, cfg, st, chans, rec, strings, n) == (st, chans, rec)
  {
    hide AppendStream, LE;
    if n > 0 {
      NoStringsAppended(z, cfg, st, chans, rec, strings, n - 1);
    }
  }

  ghost predicate NoStrings(s: State) {
    && |s.groups| == 1 && s.growing && !s.closed && s.started
    && forall ci :: 0 <= ci < |s.groups[0].chans| ==> !s.groups[0].chans[ci].def.vlsd
  }

  lemma LoggerStep(z: Zlib, s: State, op: Op)
    requires NoStrings(s) && WellTyped(s) && LegalOp(s, op)
    ensures var t := Step(z, s, op);
            && NoStrings(t) && t.growAddr == s.growAddr && t.groups[0].recSize == s.groups[0].recSize
            && (op.Append? ==> t.store.disk == s.store.disk && t.growBytes == s.growBytes + |op.rec|)
            && (op.Flush? ==>
                t.store.disk == s.store.disk + s.store.buf && t.store.buf == [] && t.growBytes == s.growBytes)
            && t.store.End() == s.store.End() + if op.Append? then |op.rec| else 0
  {
    if op.Append? {
      var g := s.groups[0];
      assert TypedGroup(g);
      NoStringsAppended(z, s.cfg, s.store, g.chans, op.rec, op.strings, |g.chans|);
      hide AppendStrings;
    }
  }

  /** Complete records in m bytes. */
  function Complete(m: nat, recSize: nat): nat
    requires recSize > 0
  {
    m / recSize
  }

  /** Bytes of n records. */
  function Span(n: nat, recSize: nat): nat { n * recSize }

  /** n records are in the file or its write buffer, m of them certainly on disk. */
  ghost predicate OnDisk(s0: State, s: State, n: nat, m: nat) {
    && NoStrings(s) && |s0.groups| == 1 && s.groups[0].recSize == s0.groups[0].recSize > 0
    && s.store.End() == s.growAddr + 24 + s.growBytes
    && s.growBytes == Span(n, s0.groups[0].recSize)
    && |s.store.disk| >= s.growAddr + 24 + Span(m, s0.groups[0].recSize)
    && SameShape(s0, s) && WellTyped(s)
  }

  lemma LoggerBegin(s0: State)
    requires Logger(s0) && CanBegin(s0)
    ensures OnDisk(s0, Begin(s0), 0, 0)
  {
    hide Begin, Defined, CanBegin, WellTyped, SameGroup, Restreamed;
    BeginTyped(s0);
    BeginFields(s0);
    RecordSizes(s0);
    DefinedOpen(s0);
    BegunSize(s0);
    NoStringsKept(s0.groups[0], Begin(s0).groups[0]);
  }

  lemma BegunSize(s0: State)
    requires CanBegin(s0) && Growing(s0)
    ensures var b := Begin(s0); b.store.buf == [] && b.store.End() == b.growAddr + 24 && b.growBytes == 0
  {
    hide Begin, FileInv, LatesAfterBegin, CanBegin;
    BeginFields(s0);
    var h := BeginWritten(s0);
  }

  lemma NoStringsKept(g: Group, g0: Group)
    requires SameGroup(g0, Restreamed(g)) && forall ci :: 0 <= ci < |g.chans| ==> !g.chans[ci].def.vlsd
    ensures forall ci :: 0 <= ci < |g0.chans| ==> !g0.chans[ci].def.vlsd
  {
  }

  /** Appended bytes are the records appended, durable bytes those up to the last flush. */
  lemma SpansStep(base: nat, bytes: nat, n: nat, m: nat, recSize: nat, end: nat, disk: nat, appended: bool)
    requires bytes == Span(n, recSize) && end == base + bytes && disk >= base + Span(m, recSize)
    ensures appended ==> bytes + recSize == Span(n + 1, recSize)
    ensures end >= base + Span(n, recSize)
  {
  }

  lemma OnDiskStep(z: Zlib, s0: State, s: State, n: nat, m: nat, op: Op)
    requires OnDisk(s0, s, n, m) && LegalOp(s0, op)
    ensures OnDisk(s0, Step(z, s, op), if op.Append? then n + 1 else n, if op.Flush? then n else m)
  {
    hide Step, Span, WellTyped;
    OnDiskLegal(s0, s, n, m, op);
    LoggerStep(z, s, op);
    StepShape(z, s, op);
    SpansStep(s.growAddr + 24, s.growBytes, n, m, s0.groups[0].recSize, s.store.End(), |s.store.disk|, op.Append?);
  }

  /** Everything up to the last flush is on disk: the metadata, the head of the data block, and every record
      appended before. */
  lemma {:induction false} FlushedOnDisk(z: Zlib, s0: State, ops: seq<Op>)
    requires Logger(s0) && LegalOps(s0, ops) && CanBegin(s0)
    ensures OnDisk(s0, Recorded(z, s0, ops), |RowsOf(ops, 0)|, |RowsOf(UpToFlush(ops), 0)|)
    decreases |ops|
  {
    hide Begin, Step, CanBegin, Defined, OnDisk, Recorded, RowsOf, UpToFlush;
    LoggerBegin(s0);
    if ops == [] {
      RecordedNone(z, s0);
      EmptyRows([], 0);
      assert UpToFlush([]) == [];
    } else {
      var init, op := ops[..|ops| - 1], ops[|ops| - 1];
      assert forall i :: 0 <= i < |init| ==> init[i] == ops[i];
      FlushedOnDisk(z, s0, init);
      var s := Recorded(z, s0, init);
      assert LegalOp(s0, op);
      OnDiskLegal(s0, s, |RowsOf(init, 0)|, |RowsOf(UpToFlush(init), 0)|, op);
      RecordedStep(z, s0, ops);
      RowsOneMore(ops, 0);
      if Run(z, s0, init).started || op.Append? {
        OnDiskStep(z, s0, s, |RowsOf(init, 0)|, |RowsOf(UpToFlush(init), 0)|, op);
      } else {
        NeverBegun(z, s0, init);
        EmptyRows(init, 0);
        EmptyRows(ops, 0);
        NoRowsPrefix(init);
      }
    }
  }

  lemma NoRowsPrefix(ops: seq<Op>)
    requires RowsOf(ops, 0) == []
    ensures RowsOf(UpToFlush(ops), 0) == []
  {
    RowsPrefix(ops, 0);
  }

  lemma OnDiskLegal(s0: State, s: State, n: nat, m: nat, op: Op)
    requires OnDisk(s0, s, n, m) && LegalOp(s0, op)
    ensures LegalOp(s, op) && WellTyped(s) && (op.Append? ==> op.g == 0)
  {
  }

  lemma RecordedNone(z: Zlib, s0: State)
    requires Logger(s0) && CanBegin(s0)
    ensures Recorded(z, s0, []) == Begin(s0)
  {
    DefinedOpen(s0);
  }

  lemma RowsOneMore(ops: seq<Op>, gi: nat)
    requires ops != []
    ensures var init, last := ops[..|ops| - 1], ops[|ops| - 1];
            |RowsOf(ops, gi)| == |RowsOf(init, gi)| + if last.Append? && last.g == gi then 1 else 0
    ensures UpToFlush(ops) == if ops[|ops| - 1].Flush? then ops else UpToFlush(ops[..|ops| - 1])
  {
  }

  lemma {:induction false} NeverBegun(z: Zlib, s0: State, ops: seq<Op>)
    requires Logger(s0) && LegalOps(s0, ops) && CanBegin(s0) && !Run(z, s0, ops).started
    ensures forall i :: 0 <= i < |ops| ==> ops[i].Flush?
    decreases |ops|
  {
    hide Begin, CanBegin, Defined, WellTyped;
    if ops != [] {
      var init, op := ops[..|ops| - 1], ops[|ops| - 1];
      assert forall i :: 0 <= i < |init| ==> init[i] == ops[i];
      var s := Run(z, s0, init);
      assert LegalOp(s0, op) && LegalOp(s, op);
      if s.started {
        StepStays(z, s, op);
      }
      NeverBegun(z, s0, init);
      RunCfg(z, s0, init);
      DefinedOpen(s0);
      StepFirst(z, s0, op);
      BeginFields(s0);
      if op.Append? {
        StepStays(z, Begin(s0), op);
      }
    }
  }

  lemma {:induction false} EmptyRows(ops: seq<Op>, gi: nat)
    requires forall i :: 0 <= i < |ops| ==> ops[i].Flush?
    ensures RowsOf(ops, gi) == []
  {
    if ops != [] {
      EmptyRows(ops[..|ops| - 1], gi);
    }
  }

  /** Recording one more call is a step of the begun writer, or nothing when only flushes came so far. */
  lemma RecordedStep(z: Zlib, s0: State, ops: seq<Op>)
    requires Logger(s0) && LegalOps(s0, ops) && CanBegin(s0) && ops != []
    requires var init, op := ops[..|ops| - 1], ops[|ops| - 1];
             LegalOps(s0, init) && WellTyped(Recorded(z, s0, init)) && LegalOp(Recorded(z, s0, init), op)
    ensures var init, op := ops[..|ops| - 1], ops[|ops| - 1];
            Recorded(z, s0, ops) == if Run(z, s0, init).started || op.Append? then Step(z, Recorded(z, s0, init), op)
                                    else Recorded(z, s0, init)
  {
    hide Begin, Defined, CanBegin, WellTyped;
    var init, op := ops[..|ops| - 1], ops[|ops| - 1];
    var s := Run(z, s0, init);
    RunCfg(z, s0, init);
    DefinedOpen(s0);
    assert LegalOp(s0, op) && LegalOp(s, op);
    if s.started {
      StepStays(z, s, op);
    } else {
      StepFirst(z, s0, op);
      BeginFields(s0);
      if op.Append? {
        StepStays(z, Begin(s0), op);
      }
    }
  }

  // ---- opening a crash image ----

  /** The open data block of an unfinalized file reads to the end of the file. */
  lemma OpenBlockReads(f: Bytes, a: nat)
    requires At(f, a, Encode(Block(ID_DT, [], []))) && 0 < a && |f| < TWO_63
    ensures Resolve(f, a, true) == Ok([Segment(0, |f| - a - 24, a + 24, 0, 0, Stored)])
  {
    hide LE, FromLE, Encode;
    var b := Block(ID_DT, [], []);
    HeaderBuilt(f, a, b, []);
    var s := Segment(0, |f| - a - 24, a + 24, 0, 0, Stored);
    assert AddStored(f, a, 0, true) == Ok(s);
    SortedOfAscending([s]);
  }

  /** A data block whose length was patched already reads to that length, unless it says that there is nothing. */
  lemma FullBlockReads(f: Bytes, a: nat, content: Bytes)
    requires At(f, a, Encode(Block(ID_DT, [], content))) && 0 < a && |f| < TWO_63
    requires content == [] ==> |f| == a + 24
    ensures Resolve(f, a, true) == Ok([Segment(0, |content|, a + 24, 0, 0, Stored)])
  {
    hide LE, FromLE, Encode;
    var b := Block(ID_DT, [], content);
    HeaderBuilt(f, a, b, []);
    var s := Segment(0, |content|, a + 24, 0, 0, Stored);
    assert AddStored(f, a, 0, true) == Ok(s);
    SortedOfAscending([s]);
  }

  /** What Open must return for a recording of which `data` has reached the file. */
  ghost predicate Recovered(env: Env, f: Bytes, g: Group, rows: seq<Row>, data: Bytes) {
    var r := Open(env, f);
    && r.Ok? && r.value.version == VERSION && |r.value.groups| == 1
    && var v := r.value.groups[0];
       && v.name == g.name && v.recordSize == g.recSize > 0 && v.recIdSize == 0
       && |v.channels| == |g.chans|
       && (forall ci :: 0 <= ci < |g.chans| ==> ChannelIs(v.channels[ci], g.chans[ci].def))
       && v.recordCount == Complete(|data|, g.recSize)
       && SectionIs(f, env.z, v.data, r.value.finalize, data)
  }

  lemma CountFixed(f: Bytes, v: GroupView, s: Segment)
    requires v.recordSize > 0 && v.recIdSize == 0 && Resolve(f, v.data, true) == Ok([s]) && s.logical == 0
             && s.length >= 0
    ensures FixCycleCounts(f, [v], true) == Ok([v.(recordCount := s.length / v.recordSize)])
  {
    hide Resolve;
    assert [s][..0] == [];
    assert SizeOf([]) == 0;
    assert SizeOf([s]) == s.length;
    assert [v][1..] == [];
    assert FixCycleCounts(f, [], true) == Ok([]);
    var v' := v.(recordCount := s.length / v.recordSize);
    assert FixCycleCount(f, v, true) == Ok(v');
    assert [v'] + [] == [v'];
  }

  /** An unfinalized image: metadata intact, the data block first in its section, and n bytes behind its header taken
      for records. */
  lemma UnfinalizedOpens(env: Env, f: Bytes, st: Store, h: Heap, id: Bytes, g: Group, g0: Group, late: Late,
                         rows: seq<Row>, program: Bytes, n: nat)
    requires HeapIn(f, h) && FileInv(st, h, id, [g0], [late]) && late.count < TWO_64
    requires At(f, 0, IDBytes(program, VERSION, VERSION_STRING, 5))
    requires LegibleGroup(g) && SameGroup(g0, Restreamed(g)) && g.recSize > 0
    requires late.data + 24 + n <= |f|
    requires Resolve(f, late.data, true) == Ok([Segment(0, n, late.data + 24, 0, 0, Stored)])
    ensures Recovered(env, f, g, rows, f[late.data + 24..late.data + 24 + n])
  {
    hide HeapIn, FileInv, LegibleGroup, Open, IDBytes, Resolve, GroupViewOf;
    LegibleKept(g, g0);
    OpenRead(env, f, st, h, id, [g0], [late], program, 5);
    assert |late.signals| == |g0.chans| by {
      assert Paired([g0], [late]);
      assert |[late][0].signals| == |[g0][0].chans|;
    }
    var v := GroupViewOf(g0, late);
    assert GroupViewsFrom([g0], [late], 1) == [];
    assert GroupViewsFrom([g0], [late], 0) == [v] + [] == [v];
    ViewFields(g, g0, late);
    var s := Segment(0, n, late.data + 24, 0, 0, Stored);
    CountFixed(f, v, s);
    OneSegment(f, env.z, s, f[late.data + 24..late.data + 24 + n]);
  }

  lemma HeapOfPrefix(st: Store, h: Heap, n: nat)
    requires StoreInv(st, h) && n <= st.End() < TWO_63
    requires forall a :: a in h ==> a + Size(h[a]) <= n
    ensures |st.Image()| == st.End() && HeapIn(st.Image()[..n], h)
  {
    hide Encode;
    ImageLength(st);
    forall a | a in h
      ensures ValidBlock(h[a]) && At(st.Image()[..n], a, Encode(h[a])) && 0 < a < TWO_63
    {
      BlocksValid(st, h, a);
      AtPrefix(st.Image(), n, a, Encode(h[a]));
    }
  }

  // ---- the three kinds of crash images ----

  lemma BufferedLogger(h: Heap, z: Zlib, chunkSize: nat, chans: seq<Chan>, rows: seq<Row>)
    requires SignalsAre(h, z, chunkSize, chans, rows) && forall ci :: 0 <= ci < |chans| ==> !chans[ci].def.vlsd
    ensures SignalsBuffered(chans)
  {
    forall ci | 0 <= ci < |chans|
      ensures chans[ci].sd.segs == []
    {
      assert SignalIs(h, z, chunkSize, chans[ci], ci, rows);
    }
  }

  /** What the invariant says about a logger, in one place. */
  ghost predicate Logging(z: Zlib, s: State, h: Heap, g: Group, g0: Group, rows: seq<Row>) {
    && Running(z, s, h, [g0], [rows]) && WellTyped(s) && NoStrings(s) && SignalsBuffered(s.groups[0].chans)
    && SameGroup(g0, Restreamed(g)) && LegibleGroup(g) && FreshGroup(g)
    && s.store.End() < TWO_63 && s.store.End() == s.growAddr + 24 + |DataStream(g0.chans, rows)|
    && At(s.store.Image(), s.growAddr + 24, DataStream(g0.chans, rows))
    && ListsFit(s.groups[0])
  }

  lemma LoggingNow(z: Zlib, s0: State, ops: seq<Op>) returns (h: Heap, g0: Group)
    requires Logger(s0) && LegalOps(s0, ops) && CanBegin(s0) && |s0.groups| == 1 && LegibleGroup(s0.groups[0])
    requires Recorded(z, s0, ops).store.End() < TWO_63
    ensures Begin(s0).groups == [g0]
    ensures var s := Recorded(z, s0, ops);
            Logging(z, s, h, s0.groups[0], g0, RowsOf(ops, 0)) && s.cfg == s0.cfg && s.growing
  {
    hide Begin, Recorded, Defined, CanBegin, FileInv, DataStream, SignalsAre, IDBytes, LegibleGroup, FreshGroup;
    hide WellTyped, SignalsBuffered;
    LoggerDefined(s0);
    h := RecordedRunning(z, s0, ops);
    FlushedOnDisk(z, s0, ops);
    var s := Recorded(z, s0, ops);
    DefsKept(s0, 0);
    var rows := RowsOf(ops, 0);
    g0 := Begin(s0).groups[0];
    assert Begin(s0).groups == [g0];
    assert Hist(ops, 1) == [rows];
    assert GroupIs(h, z, s.cfg, s.growing, s.groups[0], [g0][0], [rows][0]);
    BufferedLogger(h, z, s.cfg.chunkSize, s.groups[0].chans, rows);
    NoLists(h, z, s.cfg, s.groups[0], g0, rows);
  }

  lemma LoggerDefined(s0: State)
    requires Logger(s0) && |s0.groups| == 1
    ensures Defined(s0) && WellTyped(s0) && Growing(s0) && FreshGroup(s0.groups[0])
  {
  }

  lemma NoLists(h: Heap, z: Zlib, cfg: Config, g: Group, g0: Group, rows: seq<Row>)
    requires GroupIs(h, z, cfg, true, g, g0, rows) && SignalsBuffered(g.chans)
    ensures ListsFit(g)
  {
  }

  lemma OpenIDFlags(s: State)
    requires s.growing
    ensures OpenID(s) == IDBytes(s.cfg.program, VERSION, VERSION_STRING, 5) && |OpenID(s)| == ID_SIZE
  {
  }

  lemma IDInFile(st: Store, h: Heap, id: Bytes, gs: seq<Group>, lates: seq<Late>)
    requires FileInv(st, h, id, gs, lates)
    ensures At(st.Image(), 0, id)
  {
  }

  /** While recording: any cut of the file behind the data block's header. */
  lemma CutOpens(env: Env, s: State, h: Heap, g: Group, g0: Group, rows: seq<Row>, m: nat)
    requires Logging(env.z, s, h, g, g0, rows) && s.growAddr + 24 <= m <= s.store.End()
    ensures |s.store.Image()| == s.store.End()
    ensures Recovered(env, s.store.Image()[..m], g, rows, DataStream(g0.chans, rows)[..m - s.growAddr - 24])
  {
    hide FileInv, DataStream, GroupIs, IDBytes, LegibleGroup, FreshGroup, WellTyped, SignalsBuffered, Encode;
    hide SameGroup, Restreamed, OpenLate, Resolve, Recovered;
    var late := OpenLate(g0, s.growAddr);
    var lates := OpenLates([g0], s.growAddr);
    assert lates == [late];
    FileStoreInv(s.store, h, OpenID(s), [g0], lates);
    OpenIDFlags(s);
    HeapOfPrefix(s.store, h, m);
    var img := s.store.Image();
    var f := img[..m];
    IDInFile(s.store, h, OpenID(s), [g0], lates);
    AtPrefix(img, m, 0, OpenID(s));
    assert HeapIn(f, h);
    OpenBlockReads(f, s.growAddr);
    LateFields(g0, s.growAddr);
    FreshSize(g);
    UnfinalizedOpens(env, f, s.store, h, OpenID(s), g, g0, late, rows, s.cfg.program, m - s.growAddr - 24);
    var data := DataStream(g0.chans, rows);
    assert img[s.growAddr + 24..] == data;
    assert f[s.growAddr + 24..m] == data[..m - s.growAddr - 24];
  }

  lemma LateFields(g0: Group, data: nat)
    ensures OpenLate(g0, data).data == data && OpenLate(g0, data).count == 0
  {
  }

  lemma FreshSize(g: Group)
    requires FreshGroup(g)
    ensures 0 < g.recSize < TWO_32
  {
  }

  /** During Close, after a patch: the whole recording is in the data block. */
  lemma PatchedOpens(env: Env, st: Store, h: Heap, s: State, g: Group, g0: Group, rows: seq<Row>, late: Late)
    requires FileInv(st, h, OpenID(s), [g0], [late]) && s.growing && late.count < TWO_64
    requires SameGroup(g0, Restreamed(g)) && LegibleGroup(g) && FreshGroup(g)
    requires st.End() < TWO_63 && late.data in h && h[late.data] == Block(ID_DT, [], DataStream(g0.chans, rows))
    requires st.End() == late.data + 24 + |DataStream(g0.chans, rows)|
    ensures Recovered(env, st.Image(), g, rows, DataStream(g0.chans, rows))
  {
    hide FileInv, DataStream, IDBytes, LegibleGroup, FreshGroup, Encode, SameGroup, Restreamed, Resolve, Recovered;
    var f, data := st.Image(), DataStream(g0.chans, rows);
    FileStoreInv(st, h, OpenID(s), [g0], [late]);
    ImageInside(st, h);
    assert f[..st.End()] == f;
    HeapOfAll(st, h);
    OpenIDFlags(s);
    IDInFile(st, h, OpenID(s), [g0], [late]);
    FullBlockReads(f, late.data, data);
    FreshSize(g);
    UnfinalizedOpens(env, f, st, h, OpenID(s), g, g0, late, rows, s.cfg.program, |data|);
    StoredTail(f, late.data, data);
  }

  lemma StoredTail(f: Bytes, a: nat, data: Bytes)
    requires At(f, a, Encode(Block(ID_DT, [], data)))
    ensures a + 24 + |data| <= |f| && f[a + 24..a + 24 + |data|] == data
  {
    hide LE;
    var b := Block(ID_DT, [], data);
    AtSub(f, a, Encode(b), 24, Size(b));
    assert Encode(b)[24..Size(b)] == data;
  }

  lemma ImageInside(st: Store, h: Heap)
    requires StoreInv(st, h)
    ensures |st.Image()| == st.End()
  {
    ImageLength(st);
  }

  lemma HeapOfAll(st: Store, h: Heap)
    requires StoreInv(st, h) && st.End() < TWO_63
    ensures HeapIn(st.Image(), h)
  {
    hide Encode;
    forall a | a in h
      ensures ValidBlock(h[a]) && At(st.Image(), a, Encode(h[a])) && 0 < a < TWO_63
    {
      BlocksValid(st, h, a);
    }
  }

  /** Close queues two patches for a logger: the length of the data block, then the cycle count. */
  lemma LoggerPrepared(z: Zlib, s: State)
    requires NoStrings(s) && WellTyped(s) && s.store.patches == []
    ensures var p := Prepared(z, s);
            && p.disk == s.store.disk && p.buf == s.store.buf
            && p.patches == [Patch(s.growAddr + 8, HEADER_SIZE + s.growBytes),
                             Patch(s.groups[0].cgAddr + 24 + 6 * 8 + 8, s.groups[0].count)]
  {
    OneGroupPrepared(z, s);
    var g := s.groups[0];
    NothingToClose(z, s.cfg.compress, s.store.AddPatch(s.growAddr + 8, HEADER_SIZE + s.growBytes), g.chans, |g.chans|);
    hide FinalizeChans, Prepared;
  }

  lemma {:induction false} NothingToClose(z: Zlib, compress: bool, st: Store, chans: seq<Chan>, n: nat)
    requires n <= |chans| && forall i :: 0 <= i < |chans| ==> |chans[i].sd.id| == 4 && !chans[i].def.vlsd
    ensures FinalizeChans(z, compress, st, chans, n) == st
  {
    if n > 0 {
      NothingToClose(z, compress, st, chans, n - 1);
    }
  }

  /** During Close: after none, one or both of the patches. */
  lemma ClosingOpens(env: Env, s: State, h: Heap, g: Group, g0: Group, rows: seq<Row>, k: nat)
    requires Logging(env.z, s, h, g, g0, rows) && k <= |Prepared(env.z, s).patches|
    ensures var p := Prepared(env.z, s);
            Recovered(env, Patched(p.disk + p.buf, p.patches[..k]), g, rows, DataStream(g0.chans, rows))
  {
    hide FileInv, DataStream, IDBytes, LegibleGroup, FreshGroup, SignalsBuffered, Encode, SameGroup, Restreamed;
    hide OpenLate, Resolve, Recovered, Prepared, GroupIs, GrowIs;
    var z := env.z;
    LoggerPrepared(z, s);
    LoggingCount(z, s, h, g, g0, rows);
    var p := Prepared(z, s);
    var data := DataStream(g0.chans, rows);
    if k == 0 {
      CutOpens(env, s, h, g, g0, rows, s.store.End());
      assert p.patches[..0] == s.store.patches;
      assert s.store.Image()[..s.store.End()] == s.store.Image();
      assert data[..|data|] == data;
    } else if k == 1 {
      var h1 := GrowLengthened(z, s, h, [g0], [rows]);
      var st1 := s.store.AddPatch(s.growAddr + 8, HEADER_SIZE + s.growBytes);
      assert p.patches[..1] == st1.patches;
      LateFields(g0, s.growAddr);
      assert OpenLates([g0], s.growAddr) == [OpenLate(g0, s.growAddr)];
      PatchedOpens(env, st1, h1, s, g, g0, rows, OpenLate(g0, s.growAddr));
    } else {
      var h2, lates := GrowClosed(z, s, h, [g0], [rows]);
      assert p.patches[..2] == p.patches;
      assert lates == [lates[0]];
      PatchedOpens(env, p, h2, s, g, g0, rows, lates[0]) by {
        FinalData(h2, z, s.cfg, g0, lates[0], rows);
      }
    }
  }

  lemma FinalData(h: Heap, z: Zlib, cfg: Config, g0: Group, late: Late, rows: seq<Row>)
    requires GroupFinal(h, z, cfg, true, g0, late, rows)
    ensures late.count == |rows| && late.data in h && h[late.data] == Block(ID_DT, [], DataStream(g0.chans, rows))
  {
  }

  lemma LoggingCount(z: Zlib, s: State, h: Heap, g: Group, g0: Group, rows: seq<Row>)
    requires Logging(z, s, h, g, g0, rows)
    ensures |rows| < TWO_63
  {
    hide FileInv, DataStream, IDBytes, LegibleGroup, SignalsAre, Tiled;
    assert GroupIs(h, z, s.cfg, s.growing, s.groups[0], [g0][0], [rows][0]);
    StoredLengths(g0.chans, rows, g0.recSize);
    T.MulMono(1, g0.recSize, |rows|);
  }

  // ---- whole records ----

  lemma {:induction false} RowsAreRecords(chans: seq<Chan>, rows: seq<Row>)
    requires forall ci :: 0 <= ci < |chans| ==> !chans[ci].def.vlsd
    ensures forall i :: 0 <= i < |rows| ==> StoredRows(chans, rows)[i] == rows[i].rec
  {
    hide Stamped;
    if rows != [] {
      var before, row := rows[..|rows| - 1], rows[|rows| - 1];
      RowsAreRecords(chans, before);
      NotStamped(chans, before, row, |chans|);
    }
  }

  lemma {:induction false} NotStamped(chans: seq<Chan>, before: seq<Row>, row: Row, n: nat)
    requires n <= |chans| && forall ci :: 0 <= ci < |chans| ==> !chans[ci].def.vlsd
    ensures Stamped(chans, before, row, n) == row.rec
  {
    if n > 0 {
      NotStamped(chans, before, row, n - 1);
    }
  }

  /** Record i of a recording stands at i * recSize. */
  lemma RecordAt(chans: seq<Chan>, rows: seq<Row>, recSize: nat, i: nat)
    requires (forall ci :: 0 <= ci < |chans| ==> !chans[ci].def.vlsd) && RowsFit(rows, recSize, |chans|) && i < |rows|
    ensures |DataStream(chans, rows)| == Span(|rows|, recSize)
    ensures 0 <= Span(i, recSize) && Span(i, recSize) + recSize <= |DataStream(chans, rows)|
    ensures DataStream(chans, rows)[Span(i, recSize)..Span(i, recSize) + recSize] == rows[i].rec
  {
    RowsAreRecords(chans, rows);
    ConcatUniform(StoredRows(chans, rows), recSize);
  }

  /** What a reader gets from an opened recording: exactly these records, in whole and in order. */
  ghost predicate HoldsRecords(env: Env, f: Bytes, g: Group, recs: seq<Bytes>) {
    var r := Open(env, f);
    && r.Ok? && r.value.version == VERSION && |r.value.groups| == 1
    && var v := r.value.groups[0];
       && v.name == g.name && v.recordSize == g.recSize && |v.channels| == |g.chans|
       && (forall ci :: 0 <= ci < |g.chans| ==> ChannelIs(v.channels[ci], g.chans[ci].def))
       && v.recordCount == |recs|
       && exists data ::
            && SectionIs(f, env.z, v.data, r.value.finalize, data)
            && forall i :: 0 <= i < |recs| ==>
                 Span(i, g.recSize) + g.recSize <= |data|
                 && data[Span(i, g.recSize)..Span(i, g.recSize) + g.recSize] == recs[i]
  }

  function Records(rows: seq<Row>): (r: seq<Bytes>)
    ensures |r| == |rows| && forall i :: 0 <= i < |rows| ==> r[i] == rows[i].rec
  {
    seq(|rows|, i requires 0 <= i < |rows| => rows[i].rec)
  }

  lemma SpanDiv(m: nat, recSize: nat, i: nat)
    requires recSize > 0
    ensures i < Complete(m, recSize) ==> Span(i, recSize) + recSize <= m
    ensures m >= Span(i, recSize) ==> Complete(m, recSize) >= i
    ensures m < Span(i, recSize) + recSize ==> Complete(m, recSize) <= i
  {
    var q := m / recSize;
    assert m == q * recSize + m % recSize;
    if i < q {
      T.MulMono(i + 1, q, recSize);
      assert (i + 1) * recSize == i * recSize + recSize;
    }
    if q < i {
      T.MulMono(q + 1, i, recSize);
      assert (q + 1) * recSize == q * recSize + recSize;
    }
  }

  /** The first n rows, and no more, are recovered. */
  ghost predicate HoldsFirst(env: Env, f: Bytes, g: Group, rows: seq<Row>, n: nat) {
    n <= |rows| && HoldsRecords(env, f, g, Records(rows[..n]))
  }

  lemma PrefixHolds(env: Env, f: Bytes, g: Group, chans: seq<Chan>, rows: seq<Row>, m: nat)
    requires (forall ci :: 0 <= ci < |chans| ==> !chans[ci].def.vlsd) && RowsFit(rows, g.recSize, |chans|)
    requires m <= |DataStream(chans, rows)| && g.recSize > 0
    requires Recovered(env, f, g, rows, DataStream(chans, rows)[..m])
    ensures HoldsFirst(env, f, g, rows, Complete(m, g.recSize))
  {
    hide DataStream, SectionIs, Open, Span, ChannelIs, Complete;
    var n, all := Complete(m, g.recSize), DataStream(chans, rows);
    var data := all[..m];
    RecordsLength(chans, rows, g.recSize);
    SpanDiv(m, g.recSize, |rows|);
    SpanPositive(m, g.recSize, |rows|);
    var recs := Records(rows[..n]);
    forall i | 0 <= i < |recs|
      ensures Span(i, g.recSize) + g.recSize <= |data|
      ensures data[Span(i, g.recSize)..Span(i, g.recSize) + g.recSize] == recs[i]
    {
      SpanDiv(m, g.recSize, i);
      RecordAt(chans, rows, g.recSize, i);
      assert data[Span(i, g.recSize)..Span(i, g.recSize) + g.recSize]
             == all[Span(i, g.recSize)..Span(i, g.recSize) + g.recSize];
    }
  }

  lemma RecordsLength(chans: seq<Chan>, rows: seq<Row>, recSize: nat)
    requires (forall ci :: 0 <= ci < |chans| ==> !chans[ci].def.vlsd) && RowsFit(rows, recSize, |chans|)
    ensures |DataStream(chans, rows)| == Span(|rows|, recSize)
  {
    RowsAreRecords(chans, rows);
    ConcatUniform(StoredRows(chans, rows), recSize);
  }

  lemma SpanPositive(m: nat, recSize: nat, n: nat)
    requires recSize > 0 && m <= Span(n, recSize)
    ensures Complete(m, recSize) <= n
  {
    SpanDiv(m, recSize, n);
  }

  // ---- the theorem ----

  /** At every crash point from the end of begin to the end of Close the file opens, and holds exactly the records
      that reached it completely: floor(durable bytes / record size) of them, never fewer than were appended before
      the last flush, and all of them once Close has flushed the write buffer. */
  lemma CrashRecovery(env: Env, s0: State, ops: seq<Op>, img: Bytes)
    requires Logger(s0) && LegalOps(s0, ops) && CanBegin(s0) && |s0.groups| == 1 && LegibleGroup(s0.groups[0])
    requires Lossless(env.z) && Recorded(env.z, s0, ops).store.End() < TWO_63
    requires CrashImage(env.z, Recorded(env.z, s0, ops), img)
    ensures s0.groups[0].recSize > 0
    ensures var s, g, rows := Recorded(env.z, s0, ops), s0.groups[0], RowsOf(ops, 0);
            && Durable(s, img) >= 0
            && HoldsFirst(env, img, g, rows, Complete(Durable(s, img), g.recSize))
            && |RowsOf(UpToFlush(ops), 0)| <= Complete(Durable(s, img), g.recSize)
            && (|img| == s.store.End() ==> HoldsFirst(env, img, g, rows, |rows|))
  {
    hide Begin, Recorded, Defined, CanBegin, Logging, OnDisk, RowsOf, UpToFlush, HoldsFirst, LegibleGroup, Lossless;
    hide CrashImage, DataStream, LegalOps, Complete, Span, WellTyped, Recovered, Logger;
    var z := env.z;
    LoggerTyped(s0);
    var s, g, rows := Recorded(z, s0, ops), s0.groups[0], RowsOf(ops, 0);
    var h, g0 := LoggingNow(z, s0, ops);
    FlushedOnDisk(z, s0, ops);
    DiskFacts(s0, s, |rows|, |RowsOf(UpToFlush(ops), 0)|);
    LoggingFacts(z, s, h, g, g0, rows);
    var all := DataStream(g0.chans, rows);
    var m := CrashCases(env, s0, ops, s, h, g, g0, rows, img);
    PrefixHolds(env, img, g, g0.chans, rows, m);
    SpanDiv(m, g.recSize, |RowsOf(UpToFlush(ops), 0)|);
    if |img| == s.store.End() {
      RecordsLength(g0.chans, rows, g.recSize);
      SpanExact(g.recSize, |rows|);
    }
  }

  lemma LoggerTyped(s0: State)
    requires Logger(s0)
    ensures WellTyped(s0)
  {
  }

  lemma SpanExact(recSize: nat, n: nat)
    requires recSize > 0
    ensures Complete(Span(n, recSize), recSize) == n
  {
    SpanDiv(Span(n, recSize), recSize, n);
  }

  lemma DiskFacts(s0: State, s: State, n: nat, m: nat)
    requires OnDisk(s0, s, n, m)
    ensures |s.store.disk| >= s.growAddr + 24 + Span(m, s0.groups[0].recSize)
    ensures |s.store.disk| <= s.store.End() && |s0.groups| == 1 && s0.groups[0].recSize > 0
  {
  }

  lemma LoggingFacts(z: Zlib, s: State, h: Heap, g: Group, g0: Group, rows: seq<Row>)
    requires Logging(z, s, h, g, g0, rows)
    ensures forall ci :: 0 <= ci < |g0.chans| ==> !g0.chans[ci].def.vlsd
    ensures RowsFit(rows, g.recSize, |g0.chans|)
    ensures s.store.End() == s.growAddr + 24 + |DataStream(g0.chans, rows)|
    ensures WellTyped(s) && NoStrings(s) && s.store.patches == []
  {
    hide FileInv, DataStream, IDBytes, LegibleGroup, SignalsAre, FreshGroup;
    var g1 := s.groups[0];
    assert GroupIs(h, z, s.cfg, s.growing, g1, [g0][0], [rows][0]);
    forall ci | 0 <= ci < |g0.chans|
      ensures !g0.chans[ci].def.vlsd
    {
      assert g1.chans[ci].def == g0.chans[ci].def;
    }
  }

  /** A logger and its history, with the state they lead to. */
  ghost predicate Logged(z: Zlib, s0: State, ops: seq<Op>, s: State, g: Group, rows: seq<Row>) {
    && Logger(s0) && LegalOps(s0, ops) && CanBegin(s0) && s0.groups == [g] && LegibleGroup(g)
    && s == Recorded(z, s0, ops) && s.store.End() < TWO_63 && rows == RowsOf(ops, 0) && s.cfg == s0.cfg
  }

  /** Every crash image holds the first m bytes of the recording, for the m its length tells. */
  lemma CrashCases(env: Env, s0: State, ops: seq<Op>, s: State, h: Heap, g: Group, g0: Group, rows: seq<Row>,
                   img: Bytes)
    returns (m: nat)
    requires Logged(env.z, s0, ops, s, g, rows) && Lossless(env.z) && Logging(env.z, s, h, g, g0, rows)
    requires WellTyped(s) && CrashImage(env.z, s, img) && |s.store.disk| >= s.growAddr + 24
    ensures |s.store.disk| <= |img| <= s.store.End() && m == Durable(s, img)
    ensures m <= |DataStream(g0.chans, rows)| && Recovered(env, img, g, rows, DataStream(g0.chans, rows)[..m])
  {
    hide Begin, Defined, CanBegin, Logging, RowsOf, LegibleGroup, Lossless, DataStream, LegalOps, Recovered, Recorded;
    hide Prepared, Logged, WellTyped;
    var z := env.z;
    LoggingFacts(z, s, h, g, g0, rows);
    LoggerPrepared(z, s);
    var p, all := Prepared(z, s), DataStream(g0.chans, rows);
    assert all[..|all|] == all;
    if n :| 0 <= n <= |s.store.buf| && img == s.store.disk + s.store.buf[..n] {
      m := Durable(s, img);
      CutOpens(env, s, h, g, g0, rows, |img|);
      assert s.store.Image() == s.store.disk + s.store.buf;
      assert s.store.Image()[..|img|] == img;
    } else if k :| 0 <= k <= |p.patches| && img == Patched(p.disk + p.buf, p.patches[..k]) {
      ClosingOpens(env, s, h, g, g0, rows, k);
      PatchesInside(z, s, h, g, g0, rows, k);
      m := |all|;
    } else {
      ClosedOpens(env, s0, ops, s, h, g, g0, rows);
      m := |all|;
    }
  }

  lemma PatchesInside(z: Zlib, s: State, h: Heap, g: Group, g0: Group, rows: seq<Row>, k: nat)
    requires Logging(z, s, h, g, g0, rows) && k <= |Prepared(z, s).patches|
    ensures var p := Prepared(z, s); |Patched(p.disk + p.buf, p.patches[..k])| == s.store.End()
  {
    hide FileInv, DataStream, IDBytes, LegibleGroup, FreshGroup, SignalsBuffered, Encode, SameGroup, Restreamed;
    hide Prepared, GroupIs, GrowIs;
    LoggerPrepared(z, s);
    var p := Prepared(z, s);
    var h2, lates := GrowClosed(z, s, h, [g0], [rows]);
    FileStoreInv(p, h2, OpenID(s), [g0], lates);
    InRangeOf(p, h2);
    PatchedLength(p.disk + p.buf, p.patches[..k]);
  }

  /** After Close. */
  lemma ClosedOpens(env: Env, s0: State, ops: seq<Op>, s: State, h: Heap, g: Group, g0: Group, rows: seq<Row>)
    requires Logged(env.z, s0, ops, s, g, rows) && Lossless(env.z) && Logging(env.z, s, h, g, g0, rows) && WellTyped(s)
    ensures var f := WriteAt(Prepared(env.z, s).Image(), 0, FinalID(s.cfg));
            |f| == s.store.End() && Recovered(env, f, g, rows, DataStream(g0.chans, rows))
  {
    hide Begin, CanBegin, Logged, Logging, RowsOf, LegibleGroup, Lossless, DataStream, LegalOps, Recovered, Recorded;
    hide Prepared, Close, Run, GroupReads, FinalID, WriteAt, Running, WellTyped, Expressible, ShortTexts, Open;
    hide OnlyGroupReads, RowsFit;
    var z := env.z;
    LoggedCloses(z, s0, ops, s, g, rows);
    var f := WriteAt(Prepared(z, s).Image(), 0, FinalID(s.cfg));
    ClosedLength(z, s, h, g, g0, rows);
    LoggingFacts(z, s, h, g, g0, rows);
    LoggingSame(z, s, h, g, g0, rows);
    LoggerExpressible(z, s0, ops, s, g, rows);
    OnlyGroup(env, s0, ops, f, s, g, rows);
    ReadsRecovered(env, f, g, g0.chans, rows);
  }

  /** What Close leaves on disk is the prepared file with the final identification block. */
  lemma LoggedCloses(z: Zlib, s0: State, ops: seq<Op>, s: State, g: Group, rows: seq<Row>)
    requires Logged(z, s0, ops, s, g, rows)
    ensures WellTyped(s0) && WellTyped(s) && LegalOps(s0, ops)
    ensures Close(z, Run(z, s0, ops)).store.disk == WriteAt(Prepared(z, s).Image(), 0, FinalID(s.cfg))
  {
    hide Begin, Defined, CanBegin, Running, Prepared, FinalID, Recorded, Close, Run, RowsOf, LegibleGroup;
    LoggerDefined(s0);
    var h := RecordedRunning(z, s0, ops);
  }

  ghost predicate OnlyGroupReads(env: Env, f: Bytes, g: Group, rows: seq<Row>) {
    var r := Open(env, f);
    && r.Ok? && r.value.version == VERSION && !r.value.finalize && |r.value.groups| == 1
    && GroupReads(f, env.z, r.value.groups[0], g, rows)
  }

  lemma OnlyGroup(env: Env, s0: State, ops: seq<Op>, f: Bytes, s: State, g: Group, rows: seq<Row>)
    requires Logged(env.z, s0, ops, s, g, rows) && WellTyped(s0) && Lossless(env.z)
    requires Expressible(env.z, s0, ops) && ShortTexts(s0, ops)
    requires f == Close(env.z, Run(env.z, s0, ops)).store.disk
    ensures OnlyGroupReads(env, f, g, rows)
  {
    hide Begin, CanBegin, Defined, WellTyped, LegalOps, LegibleGroup, Lossless, Expressible, ShortTexts, Close, Run;
    hide Open, GroupReads, RowsOf, Recorded;
    LoggerDefined(s0);
    CloseThenOpen(env, s0, ops);
  }

  lemma ClosedLength(z: Zlib, s: State, h: Heap, g: Group, g0: Group, rows: seq<Row>)
    requires Logging(z, s, h, g, g0, rows)
    ensures |WriteAt(Prepared(z, s).Image(), 0, FinalID(s.cfg))| == s.store.End()
  {
    hide FileInv, DataStream, IDBytes, LegibleGroup, FreshGroup, SignalsBuffered, Encode, SameGroup, Restreamed;
    hide Prepared, GroupIs, GrowIs, FinalID, WriteAt;
    LoggerPrepared(z, s);
    var p := Prepared(z, s);
    var h2, lates := GrowClosed(z, s, h, [g0], [rows]);
    FileStoreInv(p, h2, OpenID(s), [g0], lates);
    FinalLength(p, h2, FinalID(s.cfg));
  }

  lemma LoggingSame(z: Zlib, s: State, h: Heap, g: Group, g0: Group, rows: seq<Row>)
    requires Logging(z, s, h, g, g0, rows)
    ensures DataStream(g0.chans, rows) == DataStream(g.chans, rows) && ListsFit(s.groups[0])
    ensures |g.chans| == |g0.chans| && forall ci :: 0 <= ci < |g.chans| ==> g.chans[ci].def == g0.chans[ci].def
    ensures g.recSize > 0
  {
    hide FileInv, IDBytes, LegibleGroup, SignalsAre, Running;
    DataSame(g0.chans, g.chans, rows);
  }

  lemma LoggerExpressible(z: Zlib, s0: State, ops: seq<Op>, s: State, g: Group, rows: seq<Row>)
    requires Logged(z, s0, ops, s, g, rows) && WellTyped(s0) && |s.groups| == 1
    requires |Close(z, Run(z, s0, ops)).store.disk| == s.store.End() && ListsFit(s.groups[0])
    requires s.store.End() == s.growAddr + 24 + |DataStream(g.chans, rows)|
    ensures Expressible(z, s0, ops) && ShortTexts(s0, ops)
  {
    hide Begin, CanBegin, RowsOf, DataStream, TextStream, Recorded, Close, Run, Defined, ListsFit, LegibleGroup;
  }

  lemma ReadsRecovered(env: Env, f: Bytes, g: Group, chans: seq<Chan>, rows: seq<Row>)
    requires OnlyGroupReads(env, f, g, rows)
    requires g.recSize > 0 && DataStream(g.chans, rows) == DataStream(chans, rows)
    requires RowsFit(rows, g.recSize, |chans|) && forall ci :: 0 <= ci < |chans| ==> !chans[ci].def.vlsd
    ensures Recovered(env, f, g, rows, DataStream(chans, rows))
  {
    hide Open, DataStream, SectionIs, ChannelIs;
    RecordsLength(chans, rows, g.recSize);
    SpanExact(g.recSize, |rows|);
  }
}
