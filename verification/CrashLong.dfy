/** Crash images of the growing layout for any history, texts that filled a chunk included. */
module CrashLong {
  import opened Wire
  import opened Blocks
  import opened Meta
  import opened Zip
  import opened Sections
  import opened Store
  import opened WriterSpec
  import opened Written
  import opened Streams
  import opened Runs
  import opened History
  import opened Closing
  import opened TreeProof
  import opened Tree
  import opened RoundTrip
  import opened Grown
  import opened Metadata
  import opened Limits
  import opened Crash
  import opened CrashTexts

  /** Definitions and any history of the growing layout. */
  ghost predicate AnyTexts(z: Zlib, s0: State, ops: seq<Op>) {
    && Defined(s0) && WellTyped(s0) && LegalOps(s0, ops) && CanBegin(s0) && Growing(s0)
    && LegibleGroup(s0.groups[0]) && Prepared(z, Recorded(z, s0, ops)).End() < TWO_63
  }

  lemma RecordedKept(z: Zlib, s0: State, ops: seq<Op>) returns (h: Heap)
    requires Defined(s0) && WellTyped(s0) && LegalOps(s0, ops) && CanBegin(s0)
    ensures Kept(Recorded(z, s0, ops), h, Begin(s0).groups)
  {
    hide Kept, Begin, Defined, CanBegin, WellTyped, LegalOps;
    h := BegunKept(s0);
    RunKept(z, s0, h, ops);
  }

  /** All bytes finalize leaves, before any patch: the metadata of begin with everything appended behind it. */
  lemma AllBytes(z: Zlib, s: State, h: Heap, gs0: seq<Group>) returns (st: Store)
    requires Kept(s, h, gs0) && WellTyped(s)
    ensures st == Store(Prepared(z, s).disk, Prepared(z, s).buf, [])
    ensures FileInv(st, h, OpenID(s), gs0, OpenLates(gs0, OpenAt(s))) && s.store.End() <= st.End()
    ensures s.growing ==> |gs0| == 1 && GrowSits(st, h, s.growAddr)
  {
    hide FileInv, GroupSits, GrowSits, WellTyped, FinalizeGroups;
    GroupsBehind(z, s, |s.groups|);
    st := Store(Prepared(z, s).disk, Prepared(z, s).buf, []);
    FileLonger(s.store, h, st, OpenID(s), gs0, OpenLates(gs0, OpenAt(s)));
    if s.growing {
      GrowLonger(s.store, h, st, s.growAddr);
    }
  }

  lemma GrowParts(st: Store, h: Heap, a: nat)
    requires GrowSits(st, h, a)
    ensures ID_SIZE <= a && a + 24 <= st.End() && At(st.Image(), a, Encode(Block(ID_DT, [], []))) && AllBelow(h, a)
  {
  }

  /** What a reader needs to know about the only group. */
  lemma OnlyGroup(s0: State)
    requires Defined(s0) && WellTyped(s0) && CanBegin(s0) && Growing(s0) && LegibleGroup(s0.groups[0])
    ensures |s0.groups| == |Begin(s0).groups| == 1 && Begin(s0).groups == [Begin(s0).groups[0]]
    ensures SameGroup(Begin(s0).groups[0], Restreamed(s0.groups[0])) && s0.groups[0].recSize > 0
  {
    hide Begin, LegibleGroup, CanBegin, WellTyped, SameGroup, Restreamed;
    DefsKept(s0, 0);
    FreshSize(s0.groups[0]);
  }

  /** Any cut of the growing file behind the block head opens, whatever texts were appended: what stands between the
      block head and the cut counts as records. */
  lemma LongCutOpens(env: Env, s0: State, ops: seq<Op>, m: nat)
    requires AnyTexts(env.z, s0, ops)
    requires var s := Recorded(env.z, s0, ops); s.growAddr + 24 <= m <= Prepared(env.z, s).End()
    ensures var s := Recorded(env.z, s0, ops);
            var f := Cut(env.z, s, m);
            |f| == m && Recovered(env, f, s0.groups[0], RowsOf(ops, 0), f[s.growAddr + 24..])
  {
    hide FileInv, Begin, Defined, CanBegin, WellTyped, LegalOps, LegibleGroup, Recorded, Prepared, IDBytes, SameGroup;
    hide Restreamed, OpenLate, Recovered, Resolve, Encode, Kept, GrowSits, FreshGroup, RowsOf;
    var z := env.z;
    OnlyGroup(s0);
    var s, g, g0 := Recorded(z, s0, ops), s0.groups[0], Begin(s0).groups[0];
    var h := RecordedKept(z, s0, ops);
    RecordedGrows(z, s0, ops);
    var st := AllBytes(z, s, h, [g0]);
    var late, lates := OpenLate(g0, s.growAddr), OpenLates([g0], s.growAddr);
    assert lates == [late];
    FileStoreInv(st, h, OpenID(s), [g0], lates);
    GrowParts(st, h, s.growAddr);
    BelowMeans(h, s.growAddr, m);
    HeapOfPrefix(st, h, m);
    PlainImage(st);
    var f := st.Image()[..m];
    IDInFile(st, h, OpenID(s), [g0], lates);
    OpenIDFlags(s);
    AtPrefix(st.Image(), m, 0, OpenID(s));
    EmptySize();
    AtPrefix(st.Image(), m, s.growAddr, Encode(Block(ID_DT, [], [])));
    OpenBlockReads(f, s.growAddr);
    LateFields(g0, s.growAddr);
    UnfinalizedOpens(env, f, st, h, OpenID(s), g, g0, late, RowsOf(ops, 0), s.cfg.program, m - s.growAddr - 24);
    assert f[s.growAddr + 24..m] == f[s.growAddr + 24..];
  }

  lemma EmptySize()
    ensures |Encode(Block(ID_DT, [], []))| == 24
  {
  }

  lemma RecordedGrows(z: Zlib, s0: State, ops: seq<Op>)
    requires Defined(s0) && WellTyped(s0) && LegalOps(s0, ops) && CanBegin(s0) && Growing(s0)
    ensures var s := Recorded(z, s0, ops);
            s.growing && WellTyped(s) && s.cfg == s0.cfg && |s.groups| == |s0.groups| == 1
  {
    hide Begin, Running, Defined, CanBegin, WellTyped, LegalOps, Recorded, Hist, Close, Run;
    var h := RecordedRunning(z, s0, ops);
    GrownGroup(z, Recorded(z, s0, ops), h, Begin(s0).groups, Hist(ops, |s0.groups|));
  }

  /** So a cut within the recorded bytes recovers what was recorded there if and only if those bytes stand behind the
      block head. */
  lemma LongCutReadsIff(env: Env, s0: State, ops: seq<Op>, m: nat)
    requires AnyTexts(env.z, s0, ops)
    requires var s := Recorded(env.z, s0, ops); s.growAddr + 24 <= m <= Prepared(env.z, s).End()
    requires m <= Recorded(env.z, s0, ops).growAddr + 24 + |DataStream(s0.groups[0].chans, RowsOf(ops, 0))|
    ensures var s, data := Recorded(env.z, s0, ops), DataStream(s0.groups[0].chans, RowsOf(ops, 0));
            var f, x := Cut(env.z, s, m), m - s.growAddr - 24;
            Recovered(env, f, s0.groups[0], RowsOf(ops, 0), data[..x]) <==> At(f, s.growAddr + 24, data[..x])
  {
    hide Begin, Defined, CanBegin, WellTyped, LegalOps, LegibleGroup, Recorded, Prepared, DataStream, Open, SectionIs;
    hide RowsOf, Cut;
    LongCutOpens(env, s0, ops, m);
    var s, data := Recorded(env.z, s0, ops), DataStream(s0.groups[0].chans, RowsOf(ops, 0));
    var f, x := Cut(env.z, s, m), m - s.growAddr - 24;
    if Recovered(env, f, s0.groups[0], RowsOf(ops, 0), data[..x]) {
      var v := Open(env, f).value;
      SectionUnique(f, env.z, v.groups[0].data, v.finalize, f[s.growAddr + 24..], data[..x]);
    }
    AtTail(f, s.growAddr + 24, data[..x]);
  }

  lemma AtTail(f: Bytes, a: nat, x: Bytes)
    requires |f| == a + |x|
    ensures At(f, a, x) <==> f[a..] == x
  {
    assert f[a..a + |x|] == f[a..];
  }

  // ---- during Close ----

  /** What n patches leave of the open block: the part of the file that counts as records. */
  function Counted(s: State, end: nat): nat
    requires s.growAddr + 24 <= end
  {
    if s.growBytes == 0 then end - s.growAddr - 24 else s.growBytes
  }

  /** From the length patch on, at every crash point of Close, the records that count are the recorded length of bytes
      behind the block head: the whole recording, where nothing interrupted it. */
  lemma LongPatchedOpens(env: Env, s0: State, ops: seq<Op>, k: nat)
    requires AnyTexts(env.z, s0, ops) && 1 <= k <= |Prepared(env.z, Recorded(env.z, s0, ops)).patches|
    ensures var s := Recorded(env.z, s0, ops);
            var p := Prepared(env.z, s);
            var f, a := Patched(p.disk + p.buf, p.patches[..k]), s.growAddr;
            && |f| == p.End() >= a + 24 && a + 24 + Counted(s, |f|) <= |f|
            && Recovered(env, f, s0.groups[0], RowsOf(ops, 0), f[a + 24..a + 24 + Counted(s, |f|)])
  {
    hide FileInv, Begin, Defined, CanBegin, WellTyped, LegalOps, LegibleGroup, Recorded, Prepared, IDBytes, SameGroup;
    hide Restreamed, OpenLate, Recovered, Resolve, Encode, Kept, GrowSits, FreshGroup, RowsOf, Pending, LatesFine;
    hide AllBelow;
    var z := env.z;
    OnlyGroup(s0);
    var s, g, g0 := Recorded(z, s0, ops), s0.groups[0], Begin(s0).groups[0];
    var h := RecordedKept(z, s0, ops);
    RecordedGrows(z, s0, ops);
    RecordedCounts(z, s0, ops);
    var p := Prepared(z, s);
    var st := AllBytes(z, s, h, [g0]);
    var late, lates, ps := OpenLate(g0, s.growAddr), OpenLates([g0], s.growAddr), p.patches[..k];
    assert lates == [late];
    LateFields(g0, s.growAddr);
    LatesOpen(s, lates);
    OpenIDFlags(s);
    GrowParts(st, h, s.growAddr);
    NoStray(z, s0, ops);
    PreparedPending(z, s, h, [g0]);
    PendingPrefix(p.patches, k, s, [g0], st.End());
    var h', lates' := PatchesKept(st, h, OpenID(s), [g0], lates, ps, s);
    var st' := st.(patches := ps);
    assert |lates'| == 1 by { FileParts(st', h', OpenID(s), [g0], lates'); }
    LatesMean(lates', s);
    FileStoreInv(st', h', OpenID(s), [g0], lates');
    ImageInside(st', h');
    HeapOfAll(st', h');
    IDInFile(st', h', OpenID(s), [g0], lates');
    var f := st'.Image();
    KeptParts(s, h, [g0]);
    LengthFirst(z, s);
    HeadOfBlock(st, h, [g0], s, ps);
    BlockCounted(f, s);
    assert [lates'[0]] == lates';
    UnfinalizedOpens(env, f, st', h', OpenID(s), g, g0, lates'[0], RowsOf(ops, 0), s.cfg.program, Counted(s, |f|));
  }

  lemma LatesOpen(s: State, lates: seq<Late>)
    requires |lates| == 1 && lates[0].count == 0 && lates[0].data == s.growAddr
    ensures LatesFine(lates, s)
  {
  }

  lemma LatesMean(lates: seq<Late>, s: State)
    requires LatesFine(lates, s) && s.growing && |lates| == 1
    ensures lates[0].count < TWO_64 && lates[0].data == s.growAddr
  {
  }

  lemma PendingPrefix(ps: seq<Patch>, k: nat, s: State, gs0: seq<Group>, end: nat)
    requires Pending(ps, s, gs0, false, end) && k <= |ps|
    ensures Pending(ps[..k], s, gs0, false, end)
  {
    hide AnyPatch;
  }

  /** The recorded bytes fit in the file, and the records can be counted. */
  lemma RecordedCounts(z: Zlib, s0: State, ops: seq<Op>)
    requires AnyTexts(z, s0, ops)
    ensures var s := Recorded(z, s0, ops);
            && |s.groups| == 1 && s.groups[0].count < TWO_64 && s.growAddr + 24 + s.growBytes <= Prepared(z, s).End()
  {
    hide Begin, Running, Defined, CanBegin, WellTyped, LegalOps, Recorded, Hist, Close, Run, LegibleGroup, DataStream;
    hide Prepared, GrowIs, FileInv, SignalsAre, StreamIs, FinalizeGroups, FreshGroup, SameGroup, Restreamed;
    var s, g := Recorded(z, s0, ops), s0.groups[0];
    var h := RecordedRunning(z, s0, ops);
    OnlyGroup(s0);
    var g0, rows := Begin(s0).groups[0], RowsOf(ops, 0);
    HistOne(ops);
    RunningGrows(z, s, h, [g0], [rows]);
    GrowthMeans(s, h, g0, rows);
    PreparedEnd(z, s);
    SameData(g, g0, rows);
    assert FreshGroup(g) by { FreshOf(s0); }
    RowsFitKept(h, z, s, g, g0, rows);
    FewRows(g, rows);
  }

  lemma PreparedEnd(z: Zlib, s: State)
    requires WellTyped(s)
    ensures s.store.End() <= Prepared(z, s).End()
  {
    hide WellTyped;
    GroupsBehind(z, s, |s.groups|);
  }

  lemma FreshOf(s0: State)
    requires Defined(s0)
    ensures FreshGroup(s0.groups[0])
  {
  }

  lemma RowsFitKept(h: Heap, z: Zlib, s: State, g: Group, g0: Group, rows: seq<Row>)
    requires |s.groups| == 1 && GroupIs(h, z, s.cfg, true, s.groups[0], g0, rows) && SameGroup(g0, Restreamed(g))
    ensures RowsFit(rows, g.recSize, |g.chans|) && s.groups[0].count == |rows|
  {
    hide SignalsAre, StreamIs, DataStream;
  }

  lemma NoStray(z: Zlib, s0: State, ops: seq<Op>)
    requires Defined(s0) && WellTyped(s0) && LegalOps(s0, ops) && CanBegin(s0)
    ensures !Stray(Recorded(z, s0, ops), Begin(s0).groups)
  {
    hide Begin, Defined, CanBegin, LegalOps, Run;
    BeginTyped(s0);
    var s, gs0 := Recorded(z, s0, ops), Begin(s0).groups;
    forall i: nat, ci: nat | i < |s.groups| == |gs0|
      ensures !StrayChan(s.groups[i], gs0[i], ci)
    {
      assert SameShape(s0, Run(z, s0, ops));
      assert SameGroup(gs0[i], Restreamed(s0.groups[i]));
    }
  }

  lemma PreparedPending(z: Zlib, s: State, h: Heap, gs0: seq<Group>)
    requires Kept(s, h, gs0) && WellTyped(s) && forall i :: 0 <= i < |s.groups| ==> s.groups[i].count < TWO_64
    ensures |s.groups| == |gs0| && Pending(Prepared(z, s).patches, s, gs0, Stray(s, gs0), Prepared(z, s).End())
    ensures Stray(s, gs0) ==> exists k: nat :: k < |Prepared(z, s).patches| && StrayPatch(Prepared(z, s).patches[k])
  {
    hide FileInv, GroupSits, WellTyped, FinalizeGroups, Pending, StrayPatch, StrayChan, GrowSits;
    FilePending(z, s, gs0, |s.groups|);
  }

  lemma LengthFirst(z: Zlib, s: State)
    requires WellTyped(s) && s.growing && |s.groups| == 1 && s.store.patches == []
    ensures |Prepared(z, s).patches| > 0 && GrowPatch(Prepared(z, s).patches[0], s)
  {
    hide FinalizeChans;
    var g, first := s.groups[0], Patch(s.growAddr + 8, HEADER_SIZE + s.growBytes);
    OneGroupPrepared(z, s);
    FirstStays(z, s.cfg.compress, s.store.AddPatch(first.off, first.val), g.chans, |g.chans|);
  }

  lemma {:induction false} FirstStays(z: Zlib, compress: bool, st: Store, chans: seq<Chan>, n: nat)
    requires n <= |chans| && forall i :: 0 <= i < |chans| ==> |chans[i].sd.id| == 4
    ensures st.patches <= FinalizeChans(z, compress, st, chans, n).patches
  {
    hide FlushChunk, DLBlock;
    if n > 0 {
      FirstStays(z, compress, st, chans, n - 1);
      LinkPatches(z, compress, FinalizeChans(z, compress, st, chans, n - 1), chans[n - 1].sd);
    }
  }

  lemma LinkPatches(z: Zlib, compress: bool, st: Store, cs: Stream)
    requires |cs.id| == 4
    ensures LinkStream(z, compress, st, cs).0.patches == st.patches
  {
    hide ChunkBlock, DLBlock;
    ListId(FlushChunk(z, compress, st, cs).1.segs);
  }

  /** After the length patch the head of the open block has the recorded length. */
  lemma HeadOfBlock(st: Store, h: Heap, gs0: seq<Group>, s: State, ps: seq<Patch>)
    requires FileInv(st, h, OpenID(s), gs0, OpenLates(gs0, OpenAt(s))) && st.patches == [] && s.growing
    requires GrowSits(st, h, s.growAddr) && Pending(ps, s, gs0, false, st.End())
    requires ps != [] && GrowPatch(ps[0], s)
    ensures At(st.(patches := ps).Image(), s.growAddr, HeadBytes(ID_DT, HEADER_SIZE + s.growBytes, 0))
  {
    hide FileInv, OpenLate, IDBytes, Encode, HeadBytes, OwnPatch;
    GrowParts(st, h, s.growAddr);
    PlainImage(st);
    EmptyHead();
    forall k | 0 <= k < |ps|
      ensures GrowPatch(ps[k], s) || ps[k].off + 8 <= s.growAddr
      ensures ps[k].off + 8 <= st.End()
    {
      assert AnyPatch(ps[k], s, gs0, false, st.End());
      if !GrowPatch(ps[k], s) {
        var a: nat := OwnRange(st, h, OpenID(s), gs0, OpenLates(gs0, OpenAt(s)), ps[k], s.growing, st.End());
        assert a + Size(h[a]) <= s.growAddr by { BelowMeans(h, s.growAddr, s.growAddr); }
      }
    }
    DataHeadPatched(st.disk + st.buf, ps, s);
  }

  lemma EmptyHead()
    ensures Encode(Block(ID_DT, [], [])) == HeadBytes(ID_DT, HEADER_SIZE, 0)
  {
    EncodePlain([]);
  }

  lemma BlockCounted(f: Bytes, s: State)
    requires At(f, s.growAddr, HeadBytes(ID_DT, HEADER_SIZE + s.growBytes, 0)) && 0 < s.growAddr && |f| < TWO_63
    requires s.growAddr + 24 + s.growBytes <= |f|
    ensures Resolve(f, s.growAddr, true) == Ok([Segment(0, Counted(s, |f|), s.growAddr + 24, 0, 0, Stored)])
  {
    hide HeadBytes, Encode, Resolve;
    var a, n := s.growAddr, s.growBytes;
    var content := f[a + 24..a + 24 + n];
    EncodePlain(content);
    AtConcat(f, a, HeadBytes(ID_DT, HEADER_SIZE + n, 0), content);
    if n == 0 {
      assert content == [];
      OpenBlockReads(f, a);
    } else {
      FullBlockReads(f, a, content);
    }
  }
}
