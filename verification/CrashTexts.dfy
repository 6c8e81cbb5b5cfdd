/** Crashes of a growing file with string channels, as long as no text has filled a chunk: what a reader recovers, and
    when the signal data that Close writes behind the records is miscounted as records. */
module CrashTexts {
  import opened Wire
  import opened Blocks
  import opened Meta
  import opened Zip
  import opened Store
  import opened WriterSpec
  import opened Written
  import opened Runs
  import opened History
  import opened Closing
  import opened SectionProof
  import opened TreeProof
  import opened Sections
  import opened Tree
  import opened RoundTrip
  import opened Limits
  import opened Crash

  /** What the invariant says about a growing file whose texts are all still buffered. */
  ghost predicate Texting(z: Zlib, s: State, h: Heap, g: Group, g0: Group, rows: seq<Row>) {
    && Running(z, s, h, [g0], [rows]) && s.growing && WellTyped(s) && |s.groups| == 1
    && SignalsBuffered(s.groups[0].chans) && SameGroup(g0, Restreamed(g)) && LegibleGroup(g) && FreshGroup(g)
  }

  lemma TextingNow(z: Zlib, s0: State, ops: seq<Op>) returns (h: Heap, g0: Group)
    requires Defined(s0) && WellTyped(s0) && LegalOps(s0, ops) && CanBegin(s0) && Growing(s0)
    requires LegibleGroup(s0.groups[0]) && ShortTexts(s0, ops)
    ensures Begin(s0).groups == [g0] && |s0.groups| == 1
    ensures var s := Recorded(z, s0, ops); Texting(z, s, h, s0.groups[0], g0, RowsOf(ops, 0)) && s.cfg == s0.cfg
  {
    hide Begin, CanBegin, Running, LegibleGroup, FreshGroup, WellTyped, Recorded, ShortTexts, SignalsBuffered, Hist;
    hide SameGroup;
    hide Restreamed, Run, Close;
    h := RecordedRunning(z, s0, ops);
    DefsKept(s0, 0);
    HistOne(ops);
    g0 := Begin(s0).groups[0];
    assert Begin(s0).groups == [g0];
    InPlaceIffShort(z, s0, ops, Recorded(z, s0, ops), h);
    assert FreshGroup(s0.groups[0]);
  }

  /** The growing data block, the records and nothing else behind it. */
  lemma TextingFacts(z: Zlib, s: State, h: Heap, g: Group, g0: Group, rows: seq<Row>)
    requires Texting(z, s, h, g, g0, rows)
    ensures FileInv(s.store, h, OpenID(s), [g0], [OpenLate(g0, s.growAddr)]) && s.store.patches == []
    ensures s.growAddr in h && h[s.growAddr] == Block(ID_DT, [], [])
    ensures s.store.End() == s.growAddr + 24 + s.growBytes && s.growBytes == |DataStream(g0.chans, rows)|
    ensures At(s.store.Image(), s.growAddr + 24, DataStream(g0.chans, rows))
    ensures forall a :: a in h ==> a + Size(h[a]) <= s.growAddr + 24
    ensures TypedGroup(s.groups[0]) && s.groups[0].cgAddr == g0.cgAddr && SameChans(s.groups[0].chans, g0.chans)
    ensures s.groups[0].count == |rows| && RowsFit(rows, g0.recSize, |g0.chans|)
    ensures GroupIs(h, z, s.cfg, true, s.groups[0], g0, rows)
  {
    hide FileInv, DataStream, SignalsAre, IDBytes, LegibleGroup, FreshGroup, OpenLate, SignalsBuffered, SameChans;
    hide FieldsInside;
    assert OpenLates([g0], s.growAddr) == [OpenLate(g0, s.growAddr)];
    assert GroupIs(h, z, s.cfg, true, s.groups[0], [g0][0], [rows][0]);
  }

  // ---- what Close appends and queues ----

  /** The patch fills the signal data link of a channel with an address inside the file. */
  ghost predicate LinkPatch(chans: seq<Chan>, p: Patch, end: nat) {
    exists k :: 0 <= k < |chans| && p.off == chans[k].cnAddr + 64 && p.val <= end
  }

  lemma LinkAppends(z: Zlib, compress: bool, st: Store, cs: Stream)
    requires |cs.id| == 4 && cs.segs == []
    ensures var (st1, _, a) := LinkStream(z, compress, st, cs);
            st1.disk == st.disk && st.buf <= st1.buf && st1.patches == st.patches && a <= st1.End()
  {
    hide ChunkBlock, Encode;
  }

  lemma {:induction false} ChansAppend(z: Zlib, compress: bool, st: Store, chans: seq<Chan>, n: nat)
    requires n <= |chans| && st.patches == []
    requires forall i :: 0 <= i < |chans| ==> |chans[i].sd.id| == 4 && chans[i].sd.segs == []
    ensures var r := FinalizeChans(z, compress, st, chans, n);
            && r.disk == st.disk && st.buf <= r.buf
            && forall i :: 0 <= i < |r.patches| ==> LinkPatch(chans, r.patches[i], r.End())
  {
    hide LinkStream, LinkPatch;
    if n > 0 {
      ChansAppend(z, compress, st, chans, n - 1);
      var r, c := FinalizeChans(z, compress, st, chans, n - 1), chans[n - 1];
      if c.def.vlsd {
        LinkAppends(z, compress, r, c.sd);
        var (r1, _, a) := LinkStream(z, compress, r, c.sd);
        LinkOf(chans, n - 1, a, r1.End());
        forall i | 0 <= i < |r.patches|
          ensures LinkPatch(chans, r.patches[i], r1.End())
        {
          LinkLater(chans, r.patches[i], r.End(), r1.End());
        }
      }
    }
  }

  lemma LinkOf(chans: seq<Chan>, k: nat, a: nat, end: nat)
    requires k < |chans| && a <= end
    ensures LinkPatch(chans, Patch(chans[k].cnAddr + 24 + 40, a), end)
  {
  }

  lemma LinkLater(chans: seq<Chan>, p: Patch, end: nat, more: nat)
    requires LinkPatch(chans, p, end) && end <= more
    ensures LinkPatch(chans, p, more)
  {
  }

  /** Close appends some bytes and queues the length of the data block, the links of the string channels, and the
      record count. */
  ghost predicate Queued(s: State, p: Store)
    requires |s.groups| == 1
  {
    && p.disk == s.store.disk && s.store.buf <= p.buf && |p.patches| >= 2
    && p.patches[0] == Patch(s.growAddr + 8, HEADER_SIZE + s.growBytes)
    && p.patches[|p.patches| - 1] == Patch(s.groups[0].cgAddr + 80, s.groups[0].count)
    && forall i :: 0 < i < |p.patches| - 1 ==> LinkPatch(s.groups[0].chans, p.patches[i], p.End())
  }

  lemma ClosingQueues(z: Zlib, s: State, h: Heap, g: Group, g0: Group, rows: seq<Row>)
    requires Texting(z, s, h, g, g0, rows)
    ensures Queued(s, Prepared(z, s))
  {
    hide Running, LegibleGroup, FreshGroup, FinalizeChans, Prepared, LinkPatch, FileInv, DataStream, IDBytes, SameGroup;
    hide SameChans, RowsFit, OpenLate, GroupIs;
    TextingFacts(z, s, h, g, g0, rows);
    var chans := s.groups[0].chans;
    OneGroupPrepared(z, s);
    NoSegments(chans);
    ChansAppend(z, s.cfg.compress, s.store, chans, |chans|);
    var first := Patch(s.growAddr + 8, HEADER_SIZE + s.growBytes);
    G.ChansUnpatched(z, s.cfg.compress, s.store, chans, |chans|, [first]);
    assert s.store.AddPatch(first.off, first.val) == s.store.(patches := [first]);
    var inner := FinalizeChans(z, s.cfg.compress, s.store, chans, |chans|).patches;
    var p := Prepared(z, s);
    assert p.patches == [first] + inner + [Patch(s.groups[0].cgAddr + 80, s.groups[0].count)];
  }

  import G = Grown

  /** The bytes that Close appends behind the records. */
  function Tail(z: Zlib, s: State): Bytes
    requires WellTyped(s)
  {
    var p := Prepared(z, s);
    if |s.store.buf| <= |p.buf| then p.buf[|s.store.buf|..] else []
  }

  lemma TailIs(z: Zlib, s: State)
    requires WellTyped(s) && |s.groups| == 1 && Queued(s, Prepared(z, s)) && s.store.patches == []
    ensures var p := Prepared(z, s);
            Store(p.disk, p.buf, []) == s.store.Append(Tail(z, s)) && p.End() == s.store.End() + |Tail(z, s)|
  {
    hide Prepared;
  }

  // ---- before the length patch ----

  /** Everything up to m, the records and what Close appends. */
  function Cut(z: Zlib, s: State, m: nat): Bytes
    requires WellTyped(s) && m <= Prepared(z, s).End()
  {
    (Prepared(z, s).disk + Prepared(z, s).buf)[..m]
  }

  /** Before the length of the data block is patched, an unfinalized file counts everything behind the block head as
      records, the beginning of the signal data included. */
  lemma CutCounts(env: Env, s: State, h: Heap, g: Group, g0: Group, rows: seq<Row>, m: nat)
    requires Texting(env.z, s, h, g, g0, rows) && Prepared(env.z, s).End() < TWO_63
    requires s.growAddr + 24 <= m <= Prepared(env.z, s).End()
    ensures var data := DataStream(g0.chans, rows) + Tail(env.z, s);
            m - s.growAddr - 24 <= |data| && Recovered(env, Cut(env.z, s, m), g, rows, data[..m - s.growAddr - 24])
  {
    hide Running, LegibleGroup, FreshGroup, FileInv, DataStream, IDBytes, SameGroup, Prepared, Tail, WellTyped;
    hide SignalsBuffered;
    hide SameChans, RowsFit, OpenLate, Queued, Recovered, Resolve, Encode, GroupIs;
    TextingFacts(env.z, s, h, g, g0, rows);
    ClosingQueues(env.z, s, h, g, g0, rows);
    TailIs(env.z, s);
    var st, late, lates := s.store.Append(Tail(env.z, s)), OpenLate(g0, s.growAddr), [OpenLate(g0, s.growAddr)];
    FileStoreInv(s.store, h, OpenID(s), [g0], lates);
    AppendedBytes(s.store, h, Tail(env.z, s));
    FileAppended(s.store, h, st, h, OpenID(s), [g0], lates);
    FileStoreInv(st, h, OpenID(s), [g0], lates);
    OpenIDFlags(s);
    HeapOfPrefix(st, h, m);
    var f := st.Image()[..m];
    PlainImage(st);
    IDInFile(st, h, OpenID(s), [g0], lates);
    BlockLowest(s.store, h, s.growAddr);
    AtPrefix(st.Image(), m, 0, OpenID(s));
    BlockOf(f, h, s.growAddr);
    OpenBlockReads(f, s.growAddr);
    LateFields(g0, s.growAddr);
    FreshSize(g);
    UnfinalizedOpens(env, f, st, h, OpenID(s), g, g0, late, rows, s.cfg.program, m - s.growAddr - 24);
    RecordsThenTail(s.store, Tail(env.z, s), s.growAddr + 24, DataStream(g0.chans, rows), m);
  }

  lemma PlainImage(st: Store)
    requires st.patches == []
    ensures st.Image() == st.disk + st.buf
  {
  }

  lemma BlockLowest(st: Store, h: Heap, a: nat)
    requires StoreInv(st, h) && a in h
    ensures a >= ID_SIZE
  {
    G.BlockLow(st, h, a);
  }

  lemma BlockOf(f: Bytes, h: Heap, a: nat)
    requires HeapIn(f, h) && a in h
    ensures At(f, a, Encode(h[a])) && 0 < a
  {
  }

  lemma RecordsThenTail(st: Store, tail: Bytes, a: nat, data: Bytes, m: nat)
    requires st.patches == [] && At(st.Image(), a, data) && st.End() == a + |data| && a <= m <= st.End() + |tail|
    ensures |st.Append(tail).Image()| == st.End() + |tail|
    ensures st.Append(tail).Image()[..m][a..m] == (data + tail)[..m - a]
  {
    var img := st.disk + st.buf;
    assert st.Append(tail).Image() == img + tail;
    assert img[a..] == data;
    assert (img + tail)[a..] == data + tail;
  }

  // ---- after it ----

  /** The file with the first k patches applied. */
  function Partly(p: Store, k: nat): Store
    requires k <= |p.patches|
  {
    Store(p.disk, p.buf, p.patches[..k])
  }

  /** The data block is complete, and metadata is intact. */
  ghost predicate Halfway(s: State, st: Store, h: Heap, g0: Group, late: Late, rows: seq<Row>) {
    && FileInv(st, h, OpenID(s), [g0], [late]) && late.data == s.growAddr && late.count <= |rows|
    && s.growAddr in h && h[s.growAddr] == Block(ID_DT, [], DataStream(g0.chans, rows))
  }

  lemma TextingPlain(z: Zlib, s: State, h: Heap, g: Group, g0: Group, rows: seq<Row>)
    requires Texting(z, s, h, g, g0, rows)
    ensures s.store.patches == [] && WellTyped(s) && s.growing && |s.groups| == 1
  {
    TextingFacts(z, s, h, g, g0, rows);
  }

  /** The file with everything Close appends, before its first patch. */
  lemma TailAppended(z: Zlib, s: State, h: Heap, g: Group, g0: Group, rows: seq<Row>, content: Bytes)
    requires Texting(z, s, h, g, g0, rows) && content == DataStream(g0.chans, rows)
    ensures var st := s.store.Append(Tail(z, s));
            && FileInv(st, h, OpenID(s), [g0], [OpenLate(g0, s.growAddr)])
            && At(st.Image(), s.growAddr + 24, content) && s.growAddr + 24 + |content| <= st.End()
    ensures s.growAddr in h && h[s.growAddr] == Block(ID_DT, [], []) && s.growBytes == |content|
    ensures forall a :: a in h ==> a + Size(h[a]) <= s.growAddr + 24
  {
    hide FileInv, DataStream, IDBytes, Tail, WellTyped, Texting, TypedGroup, SameChans, RowsFit, OpenLate, GroupIs;
    hide Appended, StoreInv, At, Size;
    TextingPlain(z, s, h, g, g0, rows);
    TextingFacts(z, s, h, g, g0, rows);
    var id, lates := OpenID(s), [OpenLate(g0, s.growAddr)];
    FileStoreInv(s.store, h, id, [g0], lates);
    AppendedBytes(s.store, h, Tail(z, s));
    FileAppended(s.store, h, s.store.Append(Tail(z, s)), h, id, [g0], lates);
    PlainImage(s.store);
    PlainImage(s.store.Append(Tail(z, s)));
    AtAppend(s.store.Image(), Tail(z, s), s.growAddr + 24, content);
    assert s.store.Append(Tail(z, s)).Image() == s.store.Image() + Tail(z, s);
  }

  /** The length patch completes the open data block. */
  lemma BlockCompleted(st: Store, h: Heap, a: nat, content: Bytes, s: State, g0: Group, late: Late) returns (h': Heap)
    requires FileInv(st, h, OpenID(s), [g0], [late]) && a in h && h[a] == Block(ID_DT, [], []) && s.growing
    requires At(st.Image(), a + 24, content) && a + 24 + |content| <= st.End()
    requires forall k :: k in h ==> k + Size(h[k]) <= a + 24
    ensures FileInv(st.AddPatch(a + 8, HEADER_SIZE + |content|), h', OpenID(s), [g0], [late])
    ensures a in h' && h'[a] == Block(ID_DT, [], content)
  {
    hide FileInv, StoreInv, IDBytes, KeptBut, Patchable, Linking, At, Size;
    var id, v, b := OpenID(s), HEADER_SIZE + |content|, Block(ID_DT, [], content);
    FileStoreInv(st, h, id, [g0], [late]);
    GrowPatched(st, h, a, content);
    h' := h[a := b];
    OneChanged(h, a, b);
    OpenIDFlags(s);
    FileGrown(st, h, st.AddPatch(a + 8, v), h', a, v, id, [g0], [late]);
  }

  lemma FirstPatch(z: Zlib, s: State)
    requires WellTyped(s) && |s.groups| == 1 && Queued(s, Prepared(z, s)) && s.store.patches == []
    ensures |Prepared(z, s).patches| >= 2
    ensures Partly(Prepared(z, s), 1)
            == s.store.Append(Tail(z, s)).AddPatch(s.growAddr + 8, HEADER_SIZE + s.growBytes)
  {
    hide Prepared, Tail, WellTyped;
    TailIs(z, s);
    var p := Prepared(z, s);
    assert p.patches[..1] == [Patch(s.growAddr + 8, HEADER_SIZE + s.growBytes)];
  }

  lemma LengthPatch(z: Zlib, s: State, h: Heap, g: Group, g0: Group, rows: seq<Row>) returns (h': Heap, late: Late)
    requires Texting(z, s, h, g, g0, rows)
    ensures |Prepared(z, s).patches| >= 2 && Halfway(s, Partly(Prepared(z, s), 1), h', g0, late, rows)
  {
    hide FileInv, DataStream, IDBytes, Prepared, Tail, WellTyped, At, Size, Queued, Partly, OpenLate;
    ClosingQueues(z, s, h, g, g0, rows);
    TextingPlain(z, s, h, g, g0, rows);
    FirstPatch(z, s);
    var content := DataStream(g0.chans, rows);
    late := OpenLate(g0, s.growAddr);
    TailAppended(z, s, h, g, g0, rows, content);
    h' := BlockCompleted(s.store.Append(Tail(z, s)), h, s.growAddr, content, s, g0, late);
    LateFields(g0, s.growAddr);
  }

  /** One patch more, a link or the count. */
  lemma NextPatch(s: State, p: Store, k: nat, h: Heap, g0: Group, late: Late, rows: seq<Row>)
    returns (h': Heap, late': Late)
    requires |s.groups| == 1 && Queued(s, p) && 1 <= k < |p.patches| && Halfway(s, Partly(p, k), h, g0, late, rows)
    requires SameChans(s.groups[0].chans, g0.chans) && s.groups[0].cgAddr == g0.cgAddr && s.groups[0].count == |rows|
    requires |OpenID(s)| == ID_SIZE
    ensures Halfway(s, Partly(p, k + 1), h', g0, late', rows)
  {
    hide FileInv, DataStream, IDBytes, OpenID;
    var q, st := p.patches[k], Partly(p, k);
    assert p.patches[..k + 1] == p.patches[..k] + [q];
    assert Partly(p, k + 1) == st.AddPatch(q.off, q.val);
    CNIsMeta();
    DTIsNotMeta();
    if k < |p.patches| - 1 {
      var i := PatchedLink(s.groups[0].chans, q, p.End());
      h' := PatchSignalLink(st, h, OpenID(s), [g0], [late], 0, i, q.val);
      late' := late.(signals := late.signals[i := q.val]);
      assert [late][0 := late'] == [late'];
    } else {
      h' := PatchCount(st, h, OpenID(s), [g0], [late], 0, q.val);
      late' := late.(count := q.val);
      assert [late][0 := late'] == [late'];
    }
  }

  lemma PatchedLink(chans: seq<Chan>, p: Patch, end: nat) returns (k: nat)
    requires LinkPatch(chans, p, end)
    ensures k < |chans| && p.off == chans[k].cnAddr + 64 && p.val <= end
  {
    k :| 0 <= k < |chans| && p.off == chans[k].cnAddr + 64 && p.val <= end;
  }

  lemma {:induction false} PatchesRun(z: Zlib, s: State, h: Heap, g: Group, g0: Group, rows: seq<Row>, k: nat)
    returns (h': Heap, late: Late)
    requires Texting(z, s, h, g, g0, rows) && 1 <= k <= |Prepared(z, s).patches|
    ensures Halfway(s, Partly(Prepared(z, s), k), h', g0, late, rows)
  {
    hide Running, LegibleGroup, FreshGroup, FileInv, DataStream, IDBytes, SameGroup, Prepared, WellTyped;
    hide SignalsBuffered;
    hide SameChans, RowsFit, OpenLate, Halfway, Partly, Queued, GroupIs, OpenID;
    if k == 1 {
      h', late := LengthPatch(z, s, h, g, g0, rows);
    } else {
      TextingFacts(z, s, h, g, g0, rows);
      ClosingQueues(z, s, h, g, g0, rows);
      OpenIDFlags(s);
      h', late := PatchesRun(z, s, h, g, g0, rows, k - 1);
      h', late := NextPatch(s, Prepared(z, s), k - 1, h', g0, late, rows);
    }
  }

  /** Nothing is appended behind an empty recording. */
  lemma EmptyTail(z: Zlib, s: State, h: Heap, g: Group, g0: Group, rows: seq<Row>)
    requires Texting(z, s, h, g, g0, rows) && DataStream(g0.chans, rows) == []
    ensures Prepared(z, s).End() == s.store.End()
  {
    hide Running, LegibleGroup, FileInv, IDBytes, Prepared, WellTyped, SignalsBuffered, DataStream, FinalizeChans;
    hide SameChans, RowsFit, OpenLate, GroupIs, TextStream;
    TextingFacts(z, s, h, g, g0, rows);
    EmptyRecording(g, g0, rows);
    var chans := s.groups[0].chans;
    OneGroupPrepared(z, s);
    NoSegments(chans);
    GrowingPlain(z, s, h, g0, rows);
    TailWritten(z, s.cfg.compress, s.store.AddPatch(s.growAddr + 8, HEADER_SIZE + s.growBytes), chans, |chans|);
    BuffersAre(h, z, s.cfg, s.groups[0], g0, g, rows);
  }

  lemma GrowingPlain(z: Zlib, s: State, h: Heap, g0: Group, rows: seq<Row>)
    requires Running(z, s, h, [g0], [rows]) && s.growing
    ensures |s.groups| == 1
  {
  }

  lemma EmptyRecording(g: Group, g0: Group, rows: seq<Row>)
    requires SameGroup(g0, Restreamed(g)) && FreshGroup(g) && RowsFit(rows, g0.recSize, |g0.chans|)
    requires DataStream(g0.chans, rows) == []
    ensures rows == []
  {
    hide StoredRows, Concat;
    DataSame(g0.chans, g.chans, rows);
    StringsLie(g);
    StoredLengths(g.chans, rows, g.recSize);
  }

  /** Once the length of the data block is patched, the recording is counted right, however many of the other patches
      are applied. */
  lemma PatchedCounts(env: Env, s: State, h: Heap, g: Group, g0: Group, rows: seq<Row>, k: nat)
    requires Texting(env.z, s, h, g, g0, rows) && Prepared(env.z, s).End() < TWO_63 && |rows| < TWO_64
    requires 1 <= k <= |Prepared(env.z, s).patches|
    ensures var p := Prepared(env.z, s);
            Recovered(env, Patched(p.disk + p.buf, p.patches[..k]), g, rows, DataStream(g0.chans, rows))
  {
    hide Running, LegibleGroup, FreshGroup, FileInv, DataStream, IDBytes, SameGroup, Prepared, WellTyped;
    hide SignalsBuffered;
    hide SameChans, RowsFit, OpenLate, Queued, Recovered, Resolve, Encode, GroupIs, OpenID;
    TextingFacts(env.z, s, h, g, g0, rows);
    var h', late := PatchesRun(env.z, s, h, g, g0, rows, k);
    var st, data := Partly(Prepared(env.z, s), k), DataStream(g0.chans, rows);
    FileStoreInv(st, h', OpenID(s), [g0], [late]);
    ImageInside(st, h');
    HeapOfAll(st, h');
    OpenIDFlags(s);
    IDInFile(st, h', OpenID(s), [g0], [late]);
    if data == [] {
      EmptyTail(env.z, s, h, g, g0, rows);
    }
    BlockOf(st.Image(), h', s.growAddr);
    FullBlockReads(st.Image(), s.growAddr, data);
    FreshSize(g);
    StoredTail(st.Image(), s.growAddr, data);
    UnfinalizedOpens(env, st.Image(), st, h', OpenID(s), g, g0, late, rows, s.cfg.program, |data|);
  }

  // ---- over histories ----

  /** Definitions and a history of the growing layout in which no text fills a chunk. */
  ghost predicate Texts(z: Zlib, s0: State, ops: seq<Op>) {
    && Defined(s0) && WellTyped(s0) && LegalOps(s0, ops) && CanBegin(s0) && Growing(s0)
    && LegibleGroup(s0.groups[0]) && ShortTexts(s0, ops) && Prepared(z, Recorded(z, s0, ops)).End() < TWO_63
  }

  /** Open counts this many records. */
  ghost predicate Counts(env: Env, f: Bytes, n: nat) {
    var r := Open(env, f);
    r.Ok? && |r.value.groups| == 1 && r.value.groups[0].recordCount == n
  }

  function Least(a: nat, b: nat): nat { if a < b then a else b }

  lemma RecoveredCounts(env: Env, f: Bytes, g: Group, rows: seq<Row>, data: Bytes, n: nat)
    requires Recovered(env, f, g, rows, data)
    ensures g.recSize > 0 && (Counts(env, f, n) <==> n == Complete(|data|, g.recSize))
  {
    hide Open;
  }

  /** Records in x bytes, of which the first n records are real. */
  lemma CountIff(x: nat, n: nat, recSize: nat)
    requires recSize > 0
    ensures Complete(x, recSize) == Complete(Least(x, Span(n, recSize)), recSize) <==> x < Span(n, recSize) + recSize
  {
    hide Span, Complete;
    SpanDiv(x, recSize, n);
    SpanExact(recSize, n);
    SpanDiv(x, recSize, n + 1);
    SpanMore(n, recSize);
  }

  lemma SpanMore(n: nat, recSize: nat)
    ensures Span(n + 1, recSize) == Span(n, recSize) + recSize
  {
  }

  lemma RecordingSize(z: Zlib, s: State, h: Heap, g: Group, g0: Group, rows: seq<Row>)
    requires Texting(z, s, h, g, g0, rows)
    ensures |DataStream(g.chans, rows)| == Span(|rows|, g.recSize)
            && DataStream(g.chans, rows) == DataStream(g0.chans, rows)
    ensures g.recSize > 0 && s.store.End() == s.growAddr + 24 + |DataStream(g.chans, rows)|
    ensures RowsFit(rows, g.recSize, |g.chans|)
  {
    hide Running, LegibleGroup, WellTyped, SignalsBuffered, DataStream, FileInv, IDBytes, SameChans, OpenLate, GroupIs;
    TextingFacts(z, s, h, g, g0, rows);
    SameData(g, g0, rows);
    StringsLie(g);
    StoredLengths(g.chans, rows, g.recSize);
  }

  /** Every cut of the file before Close patches the length of the data block, while recording or in the middle of what
      Close appends: the records that reached the file completely are recovered, and their count is right if and only if
      less than one record's worth of signal data follows them. */
  lemma CutCountsIff(env: Env, s0: State, ops: seq<Op>, m: nat)
    requires Texts(env.z, s0, ops)
    requires var s := Recorded(env.z, s0, ops); s.growAddr + 24 <= m <= Prepared(env.z, s).End()
    ensures |s0.groups| == 1 && s0.groups[0].recSize > 0
    ensures var s, g, rows := Recorded(env.z, s0, ops), s0.groups[0], RowsOf(ops, 0);
            var x, data := m - s.growAddr - 24, DataStream(g.chans, rows);
            && s.store.End() == s.growAddr + 24 + |data| && x <= |data + Tail(env.z, s)|
            && Recovered(env, Cut(env.z, s, m), g, rows, (data + Tail(env.z, s))[..x])
            && (Counts(env, Cut(env.z, s, m), Complete(Least(x, |data|), g.recSize)) <==> x < |data| + g.recSize)
  {
    hide Defined, CanBegin, LegibleGroup, WellTyped, Begin, Recorded, Prepared, Tail, Cut, DataStream, LegalOps;
    hide Texting;
    hide Recovered, Counts, Complete, Span, ShortTexts;
    GrowingMeans(s0);
    var z := env.z;
    var h, g0 := TextingNow(z, s0, ops);
    var s, g, rows := Recorded(z, s0, ops), s0.groups[0], RowsOf(ops, 0);
    RecordingSize(z, s, h, g, g0, rows);
    CutCounts(env, s, h, g, g0, rows, m);
    var x := m - s.growAddr - 24;
    var data := (DataStream(g.chans, rows) + Tail(z, s))[..x];
    RecoveredCounts(env, Cut(z, s, m), g, rows, data, Complete(Least(x, |DataStream(g.chans, rows)|), g.recSize));
    CountIff(x, |rows|, g.recSize);
  }

  /** From the length patch on the recording is complete and counted right, at every crash point of Close. */
  lemma PatchedCountsRight(env: Env, s0: State, ops: seq<Op>, k: nat)
    requires Texts(env.z, s0, ops) && 1 <= k <= |Prepared(env.z, Recorded(env.z, s0, ops)).patches|
    ensures |s0.groups| == 1
    ensures var p, g, rows := Prepared(env.z, Recorded(env.z, s0, ops)), s0.groups[0], RowsOf(ops, 0);
            var f := Patched(p.disk + p.buf, p.patches[..k]);
            Recovered(env, f, g, rows, DataStream(g.chans, rows)) && Counts(env, f, |rows|)
  {
    hide Defined, CanBegin, LegibleGroup, WellTyped, Begin, Recorded, Prepared, DataStream, LegalOps, Texting;
    hide Recovered, Counts, Complete, Span, ShortTexts;
    GrowingMeans(s0);
    var z := env.z;
    var h, g0 := TextingNow(z, s0, ops);
    var s, g, rows := Recorded(z, s0, ops), s0.groups[0], RowsOf(ops, 0);
    RecordingSize(z, s, h, g, g0, rows);
    PreparedLonger(z, s, h, g, g0, rows);
    FewRecords(g.recSize, |rows|);
    PatchedCounts(env, s, h, g, g0, rows, k);
    var f := Patched(Prepared(z, s).disk + Prepared(z, s).buf, Prepared(z, s).patches[..k]);
    RecoveredCounts(env, f, g, rows, DataStream(g.chans, rows), |rows|);
    SpanExact(g.recSize, |rows|);
  }

  lemma PreparedLonger(z: Zlib, s: State, h: Heap, g: Group, g0: Group, rows: seq<Row>)
    requires Texting(z, s, h, g, g0, rows)
    ensures Prepared(z, s).End() >= s.store.End()
  {
    hide Running, LegibleGroup, FreshGroup, FileInv, DataStream, IDBytes, SameGroup, Prepared, Tail, SignalsBuffered;
    hide SameChans, RowsFit, OpenLate, LinkPatch, GroupIs;
    TextingFacts(z, s, h, g, g0, rows);
    ClosingQueues(z, s, h, g, g0, rows);
    TailIs(z, s);
  }

  lemma FewRecords(recSize: nat, n: nat)
    requires recSize > 0
    ensures n <= Span(n, recSize)
  {
    MulAtLeast(recSize, n);
  }

  /** While recording, what is recovered are the stored records one by one. */
  lemma StoredAt(chans: seq<Chan>, rows: seq<Row>, recSize: nat, i: nat)
    requires FieldsInside(chans, recSize) && RowsFit(rows, recSize, |chans|) && i < |rows|
    ensures Span(i, recSize) + recSize <= |DataStream(chans, rows)|
    ensures DataStream(chans, rows)[Span(i, recSize)..Span(i, recSize) + recSize] == StoredRows(chans, rows)[i]
  {
    StoredLengths(chans, rows, recSize);
    ConcatUniform(StoredRows(chans, rows), recSize);
  }
}
