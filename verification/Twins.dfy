/** Histories that differ in record bytes only: the file grows alike, so a caller can tell from the texts alone whether
    every choice of record bytes survives in the growing layout. */
module Twins {
  import opened Wire
  import opened Blocks
  import opened Meta
  import opened Zip
  import opened Store
  import opened WriterSpec
  import opened Written
  import opened Streams
  import opened Runs
  import opened History
  import opened Closing
  import opened TreeProof
  import opened Tree
  import opened RoundTrip
  import opened Grown
  import opened Limits
  import V = Vlsd

  /** The same call but for the bytes of the record. */
  ghost predicate SameCall(a: Op, b: Op) {
    match a
    case Flush => b.Flush?
    case Append(g, rec, strings) => b.Append? && b.g == g && |b.rec| == |rec| && b.strings == strings
  }

  ghost predicate SameCalls(a: seq<Op>, b: seq<Op>) {
    |a| == |b| && forall i :: 0 <= i < |a| ==> SameCall(a[i], b[i])
  }

  // ---- in lockstep ----

  ghost predicate TwinStores(a: Store, b: Store) {
    |a.disk| == |b.disk| && |a.buf| == |b.buf| && a.patches == b.patches
  }

  ghost predicate TwinStates(s: State, t: State) {
    t == s.(store := t.store) && TwinStores(s.store, t.store)
  }

  lemma StreamTwins(z: Zlib, cfg: Config, a: Store, b: Store, cs: Stream, x: Bytes)
    requires TwinStores(a, b) && |cs.id| == 4
    ensures var (r, t) := (AppendStream(z, cfg, a, cs, x), AppendStream(z, cfg, b, cs, x));
            TwinStores(r.0, t.0) && r.1 == t.1 && |r.1.id| == 4
  {
    hide ChunkBlock, Encode;
  }

  lemma {:induction false} StringTwins(z: Zlib, cfg: Config, a: Store, b: Store, chans: seq<Chan>, x: Bytes, y: Bytes,
                                       strings: seq<Bytes>, n: nat)
    requires n <= |chans| == |strings| && TwinStores(a, b) && |x| == |y|
    requires forall i :: 0 <= i < |chans| ==> |chans[i].sd.id| == 4
    ensures var r := AppendStrings(z, cfg, a, chans, x, strings, n);
            var t := AppendStrings(z, cfg, b, chans, y, strings, n);
            TwinStores(r.0, t.0) && r.1 == t.1 && |r.2| == |t.2|
  {
    hide AppendStream, LE, WriteAt, TwinStores;
    if n > 0 {
      StringTwins(z, cfg, a, b, chans, x, y, strings, n - 1);
      var r := AppendStrings(z, cfg, a, chans, x, strings, n - 1);
      var t := AppendStrings(z, cfg, b, chans, y, strings, n - 1);
      var c := r.1[n - 1];
      if c.def.vlsd {
        var text := strings[n - 1];
        StreamTwins(z, cfg, r.0, t.0, c.sd, LE(|text|, 4));
        var (r1, sd) := AppendStream(z, cfg, r.0, c.sd, LE(|text|, 4));
        var (t1, _) := AppendStream(z, cfg, t.0, c.sd, LE(|text|, 4));
        StreamTwins(z, cfg, r1, t1, sd, text);
      }
    }
  }

  lemma RecordTwins(z: Zlib, s: State, t: State, gi: nat, x: Bytes, y: Bytes, strings: seq<Bytes>)
    requires TwinStates(s, t) && s.growing && WellTyped(s) && gi < |s.groups| && |strings| == |s.groups[gi].chans|
    requires |x| == |y|
    ensures TwinStates(AppendRecord(z, s, gi, x, strings), AppendRecord(z, t, gi, y, strings))
  {
    hide AppendStrings;
    TypedHere(s, gi);
    StringTwins(z, s.cfg, s.store, t.store, s.groups[gi].chans, x, y, strings, |strings|);
  }

  lemma TypedHere(s: State, gi: nat)
    requires WellTyped(s) && gi < |s.groups|
    ensures TypedGroup(s.groups[gi])
  {
  }

  lemma StepTwins(z: Zlib, s: State, t: State, a: Op, b: Op)
    requires WellTyped(s) && LegalOp(s, a) && SameCall(a, b) && s.started && s.growing && TwinStates(s, t)
    ensures LegalOp(t, b) && TwinStates(Step(z, s, a), Step(z, t, b))
  {
    hide AppendRecord, TwinStores;
    match a {
      case Flush =>
        FlushTwins(s, t);
      case Append(gi, rec, strings) =>
        if !s.closed {
          RecordTwins(z, s, t, gi, rec, b.rec, strings);
        }
    }
  }

  lemma FlushTwins(s: State, t: State)
    requires TwinStates(s, t)
    ensures TwinStates(s.(store := s.store.Flushed()), t.(store := t.store.Flushed()))
  {
  }

  lemma {:induction false} RunTwins(z: Zlib, s0: State, a: seq<Op>, b: seq<Op>)
    requires Defined(s0) && WellTyped(s0) && CanBegin(s0) && Growing(s0) && LegalOps(s0, a) && SameCalls(a, b)
    ensures LegalOps(s0, b) && TwinStates(Run(z, s0, a), Run(z, s0, b))
    decreases |a|
  {
    hide Begin, CanBegin, Defined, WellTyped, Step, TwinStates, SameCall;
    forall i | 0 <= i < |b|
      ensures LegalOp(s0, b[i])
    {
      assert LegalOp(s0, a[i]);
      SameLegal(s0, a[i], b[i]);
    }
    if a == [] {
      SelfTwins(s0);
    } else {
      var ia, ib, x, y := a[..|a| - 1], b[..|b| - 1], a[|a| - 1], b[|b| - 1];
      assert forall i :: 0 <= i < |ia| ==> ia[i] == a[i];
      RunTwins(z, s0, ia, ib);
      var s, t := Run(z, s0, ia), Run(z, s0, ib);
      RunCfg(z, s0, ia);
      RunCfg(z, s0, ib);
      TwinsStarted(s, t);
      assert LegalOp(s0, x) && LegalOp(s, x) && LegalOp(t, y) && LegalOp(s0, y);
      if s.started {
        StepTwins(z, s, t, x, y);
      } else {
        StepFirst(z, s0, x);
        StepFirst(z, s0, y);
        SameKind(x, y);
        SelfTwins(s0);
        SelfTwins(Begin(s0));
        if x.Append? {
          BeginFields(s0);
          StepTwins(z, Begin(s0), Begin(s0), x, y);
        }
      }
    }
  }

  lemma SameLegal(s: State, a: Op, b: Op)
    requires SameCall(a, b) && LegalOp(s, a)
    ensures LegalOp(s, b)
  {
  }

  lemma SameKind(a: Op, b: Op)
    requires SameCall(a, b)
    ensures a.Append? == b.Append?
  {
  }

  lemma SelfTwins(s: State)
    ensures TwinStates(s, s)
  {
  }

  lemma TwinsStarted(s: State, t: State)
    requires TwinStates(s, t)
    ensures s.started == t.started && s.groups == t.groups && s.growBytes == t.growBytes
  {
  }

  // ---- finalization ----

  lemma ChunkTwins(z: Zlib, compress: bool, a: Store, b: Store, cs: Stream)
    requires TwinStores(a, b) && |cs.id| == 4
    ensures var (r, t) := (FlushChunk(z, compress, a, cs), FlushChunk(z, compress, b, cs));
            TwinStores(r.0, t.0) && r.1 == t.1 && |r.1.id| == 4
  {
    hide ChunkBlock, Encode;
  }

  lemma LinkTwins(z: Zlib, compress: bool, a: Store, b: Store, cs: Stream)
    requires TwinStores(a, b) && |cs.id| == 4
    ensures var (r, t) := (LinkStream(z, compress, a, cs), LinkStream(z, compress, b, cs));
            TwinStores(r.0, t.0) && r.1 == t.1 && r.2 == t.2
  {
    hide ChunkBlock, DLBlock, Encode, FlushChunk;
    ChunkTwins(z, compress, a, b, cs);
  }

  lemma {:induction false} ChanTwins(z: Zlib, compress: bool, a: Store, b: Store, chans: seq<Chan>, n: nat)
    requires n <= |chans| && TwinStores(a, b) && forall i :: 0 <= i < |chans| ==> |chans[i].sd.id| == 4
    ensures TwinStores(FinalizeChans(z, compress, a, chans, n), FinalizeChans(z, compress, b, chans, n))
  {
    hide LinkStream;
    if n > 0 {
      ChanTwins(z, compress, a, b, chans, n - 1);
      var c := chans[n - 1];
      if c.def.vlsd {
        LinkTwins(z, compress, FinalizeChans(z, compress, a, chans, n - 1), FinalizeChans(z, compress, b, chans, n - 1),
                  c.sd);
      }
    }
  }

  lemma BareTwins(z: Zlib, s: State, t: State)
    requires TwinStates(s, t) && WellTyped(s) && |s.groups| == 1 && TypedGroup(s.groups[0])
    ensures Bare(z, s).End() == Bare(z, t).End()
  {
    hide FinalizeChans;
    ChanTwins(z, s.cfg.compress, s.store, t.store, s.groups[0].chans, |s.groups[0].chans|);
  }

  // ---- the same texts ----

  lemma {:induction false} SameRows(a: seq<Op>, b: seq<Op>, gi: nat)
    requires SameCalls(a, b)
    ensures var (x, y) := (RowsOf(a, gi), RowsOf(b, gi));
            |x| == |y| && forall i :: 0 <= i < |x| ==> x[i].strings == y[i].strings && |x[i].rec| == |y[i].rec|
  {
    if a != [] {
      var ia, ib := a[..|a| - 1], b[..|b| - 1];
      SameRows(ia, ib, gi);
      assert SameCall(a[|a| - 1], b[|b| - 1]);
    }
  }

  lemma {:induction false} SameTexts(x: seq<Row>, y: seq<Row>, ci: nat)
    requires |x| == |y| && forall i :: 0 <= i < |x| ==> x[i].strings == y[i].strings
    ensures TextStream(x, ci) == TextStream(y, ci)
  {
    hide LE;
    if x != [] {
      SameTexts(x[..|x| - 1], y[..|y| - 1], ci);
    }
  }

  lemma ShortTwins(s0: State, a: seq<Op>, b: seq<Op>)
    requires SameCalls(a, b)
    ensures ShortTexts(s0, a) <==> ShortTexts(s0, b)
  {
    hide TextStream;
    SameRows(a, b, 0);
    forall ci: nat
      ensures TextStream(RowsOf(a, 0), ci) == TextStream(RowsOf(b, 0), ci)
    {
      SameTexts(RowsOf(a, 0), RowsOf(b, 0), ci);
    }
  }

  /** The size of a closed file of the growing layout. */
  lemma ClosedSize(z: Zlib, s0: State, ops: seq<Op>)
    requires Defined(s0) && WellTyped(s0) && LegalOps(s0, ops) && CanBegin(s0) && Growing(s0)
    requires |Recorded(z, s0, ops).groups| == 1 && ListsFit(Recorded(z, s0, ops).groups[0])
    ensures TypedGroup(Recorded(z, s0, ops).groups[0])
    ensures |Close(z, Run(z, s0, ops)).store.disk| == Bare(z, Recorded(z, s0, ops)).End()
    ensures |DataStream(s0.groups[0].chans, RowsOf(ops, 0))| == Recorded(z, s0, ops).growBytes
  {
    hide Begin, Running, FileInv, Defined, CanBegin, DataStream, Prepared, Run, Close, Recorded, ListsFit, Bare;
    hide FinalID;
    hide StoreInv, LegalOps, WellTyped, IDBytes, SameGroup, Restreamed, WriteAt, LE, DataKept, SignalsLinked;
    hide TypedGroup;
    var s := Recorded(z, s0, ops);
    var h0 := RecordedRunning(z, s0, ops);
    var gs0, hist := Begin(s0).groups, Hist(ops, |s0.groups|);
    HistAt(ops, |s0.groups|, 0);
    GrownGroup(z, s, h0, gs0, hist);
    DefsKept(s0, 0);
    var g0, rows := gs0[0], RowsOf(ops, 0);
    assert gs0 == [g0] && hist == [rows];
    RunningGrows(z, s, h0, [g0], [rows]);
    GrowthSize(s, h0, g0, rows);
    SameData(s0.groups[0], g0, rows);
    var h, late := BareFinal(z, s, h0, gs0, hist);
    LengthLast(z, s, h, gs0, late, rows, h0);
    FileStoreInv(Bare(z, s), h, OpenID(s), gs0, [late]);
    FinalSize(Bare(z, s), h, FinalID(s0.cfg), s.growAddr, s.growBytes);
  }

  lemma GrowthSize(s: State, h: Heap, g0: Group, rows: seq<Row>)
    requires GrowIs(s, h, g0, rows)
    ensures s.growBytes == |DataStream(g0.chans, rows)|
  {
    hide DataStream, SignalsBuffered, Stops;
  }

  lemma RecordedTwins(z: Zlib, s0: State, a: seq<Op>, b: seq<Op>)
    requires Defined(s0) && WellTyped(s0) && CanBegin(s0) && Growing(s0) && LegalOps(s0, a) && SameCalls(a, b)
    ensures LegalOps(s0, b) && TwinStates(Recorded(z, s0, a), Recorded(z, s0, b))
  {
    hide Begin, CanBegin, Defined, WellTyped, Run, TwinStates;
    RunTwins(z, s0, a, b);
    TwinsStarted(Run(z, s0, a), Run(z, s0, b));
    SelfTwins(Begin(s0));
  }

  lemma RecordableTwins(env: Env, s0: State, a: seq<Op>, b: seq<Op>)
    requires Recordable(env, s0, a) && SameCalls(a, b)
    ensures Recordable(env, s0, b)
  {
    hide Defined, CanBegin, LegibleGroup, DataStream, TextStream, Run, Close, Recorded, Lossless, LegalOps, WellTyped;
    hide ListsFit;
    hide Bare, TwinStates, SameCalls, RowsOf;
    var z := env.z;
    RecordedTwins(z, s0, a, b);
    var s, t := Recorded(z, s0, a), Recorded(z, s0, b);
    TwinsStarted(s, t);
    OneRecorded(z, s0, a);
    ClosedSize(z, s0, a);
    ClosedSize(z, s0, b);
    BareTwins(z, s, t);
    SameRows(a, b, 0);
    forall ci: nat
      ensures TextStream(RowsOf(a, 0), ci) == TextStream(RowsOf(b, 0), ci)
    {
      SameTexts(RowsOf(a, 0), RowsOf(b, 0), ci);
    }
  }

  lemma OneRecorded(z: Zlib, s0: State, ops: seq<Op>)
    requires Defined(s0) && WellTyped(s0) && CanBegin(s0) && Growing(s0) && LegalOps(s0, ops)
    ensures |s0.groups| == |Recorded(z, s0, ops).groups| == 1
  {
    hide Begin, CanBegin, Defined, WellTyped, Running, Recorded, Hist, Run, Close;
    var h := RecordedRunning(z, s0, ops);
    GrownGroup(z, Recorded(z, s0, ops), h, Begin(s0).groups, Hist(ops, |s0.groups|));
  }

  // ---- every choice of record bytes ----

  /** The first eight bytes of a record are the caller's: no string channel lies there. */
  ghost predicate FixedHead(chans: seq<Chan>) {
    forall i :: 0 <= i < |chans| && chans[i].def.vlsd ==> chans[i].def.field.byteOffset >= 8
  }

  /** The same calls with records of zeros. */
  function Blanked(ops: seq<Op>): (r: seq<Op>)
    ensures |r| == |ops|
  {
    seq(|ops|, i requires 0 <= i < |ops| =>
      if ops[i].Append? then Op.Append(ops[i].g, Zeros(|ops[i].rec|), ops[i].strings) else ops[i])
  }

  lemma {:induction false} BlankRows(ops: seq<Op>, gi: nat)
    ensures forall k :: 0 <= k < |RowsOf(Blanked(ops), gi)| ==>
              var rec := RowsOf(Blanked(ops), gi)[k].rec; rec == Zeros(|rec|)
  {
    if ops != [] {
      assert Blanked(ops)[..|ops| - 1] == Blanked(ops[..|ops| - 1]);
      BlankRows(ops[..|ops| - 1], gi);
    }
  }

  lemma BlankMarkless(s0: State, ops: seq<Op>)
    requires Defined(s0) && LegalOps(s0, Blanked(ops)) && |s0.groups| == 1 && FixedHead(s0.groups[0].chans)
    ensures Markless(s0.groups[0].chans, RowsOf(Blanked(ops), 0))
  {
    hide RowsOf, Blanked, Stamped;
    var g, rows := s0.groups[0], RowsOf(Blanked(ops), 0);
    BlankRows(ops, 0);
    RowsLegal(s0, Blanked(ops), 0);
    StringsLie(g);
    forall k | 0 <= k < |rows|
      ensures NoMark(StoredRow(g.chans, rows[..k], rows[k]))
    {
      forall b | 0 <= b < 8 && b < |StoredRow(g.chans, rows[..k], rows[k])|
        ensures StoredRow(g.chans, rows[..k], rows[k])[b] != 0x23
      {
        StampedLength(g.chans, rows[..k], rows[k], |g.chans|);
        var rec := rows[k].rec;
        assert At(rec, b, [0]) by { assert rec[b..b + 1] == [0]; }
        V.OthersUntouched(g.chans, rows[..k], rows[k], |g.chans|, b, [0]);
        assert StoredRow(g.chans, rows[..k], rows[k])[b..b + 1][0] == 0;
      }
    }
  }

  /** What a caller can check beforehand: given the texts and the number of rows, every choice of record bytes reads
      back after Close if and only if no text fills a chunk. */
  lemma AnyRecordsIff(env: Env, s0: State, ops: seq<Op>)
    requires Recordable(env, s0, ops) && |s0.groups| == 1 && FixedHead(s0.groups[0].chans)
    ensures ShortTexts(s0, ops)
            <==> forall other :: SameCalls(ops, other) ==> LegalOps(s0, other) && ClosedReads(env, s0, other)
  {
    hide ClosedReads, Markless, FixedHead, ShortTexts, Expressible, Defined, CanBegin, LegibleGroup, Lossless, SameCall;
    if ShortTexts(s0, ops) {
      LegibleAll(s0);
      forall other | SameCalls(ops, other)
        ensures LegalOps(s0, other) && ClosedReads(env, s0, other)
      {
        RecordableTwins(env, s0, ops, other);
        ShortTwins(s0, ops, other);
        ShortReads(env, s0, other);
      }
    } else {
      var other := Blanked(ops);
      BlankedSame(ops);
      RecordableTwins(env, s0, ops, other);
      ShortTwins(s0, ops, other);
      BlankMarkless(s0, ops);
      MarklessReadsIff(env, s0, other);
    }
  }

  lemma BlankedSame(ops: seq<Op>)
    ensures SameCalls(ops, Blanked(ops))
  {
  }

  lemma ShortReads(env: Env, s0: State, ops: seq<Op>)
    requires Recordable(env, s0, ops) && |s0.groups| == 1 && ShortTexts(s0, ops)
    ensures ClosedReads(env, s0, ops)
  {
    hide Defined, CanBegin, LegibleGroup, Run, Close, Lossless, LegalOps, WellTyped, Expressible, Open, GroupReads;
    hide ShortTexts;
    LegibleAll(s0);
    CloseThenOpen(env, s0, ops);
  }
}
