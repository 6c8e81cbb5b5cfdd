/** The recording invariant over whole histories of calls. */
module History {
  import opened Wire
  import opened Blocks
  import opened Meta
  import opened Zip
  import opened Store
  import opened WriterSpec
  import opened Written
  import opened Streams
  import opened Runs

  /** The rows a history appends to group gi, in order. */
  function RowsOf(ops: seq<Op>, gi: nat): seq<Row> {
    if ops == [] then []
    else
      var init, last := ops[..|ops| - 1], ops[|ops| - 1];
      if last.Append? && last.g == gi then RowsOf(init, gi) + [Row(last.rec, last.strings)] else RowsOf(init, gi)
  }

  function Hist(ops: seq<Op>, n: nat): (r: seq<seq<Row>>)
    ensures |r| == n
  {
    seq(n, gi requires 0 <= gi < n => RowsOf(ops, gi))
  }

  /** A writer whose groups are defined and to which nothing was appended yet. */
  ghost predicate Defined(s: State) {
    && !s.started && !s.closed && !s.growing && s.cfg.chunkSize > 0 && s.groups != [] && s.store == Store([], [], [])
    && forall i :: 0 <= i < |s.groups| ==> FreshGroup(s.groups[i]) && TypedGroup(s.groups[i])
  }

  lemma DefinedTyped(s: State)
    requires Defined(s)
    ensures WellTyped(s) && CanBegin(s)
  {
  }

  lemma DefinedGroup(s: State, i: nat)
    requires Defined(s) && i < |s.groups|
    ensures FreshGroup(s.groups[i]) && s.cfg.chunkSize > 0
  {
  }

  lemma FreshBegun(z: Zlib, cfg: Config, h: Heap, growing: bool, g: Group, g0: Group)
    requires cfg.chunkSize > 0 && FreshGroup(g) && SameGroup(g0, Restreamed(g))
    ensures GroupIs(h, z, cfg, growing, g0, g0, []) && SignalsBuffered(g0.chans)
  {
    TiledInside(g.chans, g.recSize);
    EmptyStream(h, z, ID_DT, g.recSize, cfg.chunkSize);
    EmptyStream(h, z, ID_SD, 0, cfg.chunkSize);
    hide StreamIs;
    forall i | 0 <= i < |g0.chans|
      ensures SignalIs(h, z, cfg.chunkSize, g0.chans[i], i, []) && g0.chans[i].sd.segs == []
      ensures g0.chans[i].def.vlsd ==> g0.chans[i].def.field.byteOffset + 8 <= g0.recSize
    {
      assert FreshChan(g.chans[i]);
      assert g0.chans[i].def == g.chans[i].def && g0.chans[i].sd == g.chans[i].sd;
    }
  }

  lemma LatesAgree(s: State)
    ensures LatesAfterBegin(s) == OpenLates(s.groups, if s.growing then s.growAddr else 0)
  {
  }

  lemma NoHistory(n: nat)
    ensures forall i :: 0 <= i < n ==> Hist([], n)[i] == []
  {
  }

  lemma GroupsBegun(z: Zlib, s: State, h: Heap)
    requires Defined(s) && CanBegin(s)
    ensures |Begin(s).groups| == |s.groups|
    ensures forall i :: 0 <= i < |s.groups| ==>
              GroupIs(h, z, s.cfg, Begin(s).growing, Begin(s).groups[i], Begin(s).groups[i], [])
              && SignalsBuffered(Begin(s).groups[i].chans)
  {
    hide *;
    DefinedTyped(s);
    BeginTyped(s);
    var b := Begin(s);
    forall i | 0 <= i < |b.groups|
      ensures GroupIs(h, z, s.cfg, b.growing, b.groups[i], b.groups[i], []) && SignalsBuffered(b.groups[i].chans)
    {
      DefinedGroup(s, i);
      FreshBegun(z, s.cfg, h, b.growing, s.groups[i], b.groups[i]);
    }
  }

  /** begin starts an empty recording. */
  lemma BeginRunning(z: Zlib, s: State) returns (h: Heap)
    requires Defined(s)
    ensures CanBegin(s) && Running(z, Begin(s), h, Begin(s).groups, Hist([], |Begin(s).groups|))
  {
    hide FileInv, GroupIs, StoreInv, Begin, IDBytes, GrowIs, GrowStart, LatesAfterBegin, OpenLate, SignalsBuffered;
    hide CanBegin, Defined, Hist;
    hide OpenLates, Running, OpenID;
    DefinedTyped(s);
    h := BeginWritten(s);
    GroupsBegun(z, s, h);
    BeginFields(s);
    DefinedChunk(s);
    var b := Begin(s);
    LatesAgree(b);
    NoHistory(|b.groups|);
    if b.growing {
      OneGroup(b, h);
      GrowBegin(b, h);
    }
    RunningOf(z, b, h, Hist([], |b.groups|));
  }

  lemma RunningOf(z: Zlib, b: State, h: Heap, hist: seq<seq<Row>>)
    requires b.started && b.cfg.chunkSize > 0 && |hist| == |b.groups| && b.store.patches == []
    requires FileInv(b.store, h, OpenID(b), b.groups, OpenLates(b.groups, if b.growing then b.growAddr else 0))
    requires forall i :: 0 <= i < |b.groups| ==>
             hist[i] == [] && GroupIs(h, z, b.cfg, b.growing, b.groups[i], b.groups[i], [])
    requires b.growing ==> |b.groups| == 1 && GrowIs(b, h, b.groups[0], [])
    ensures Running(z, b, h, b.groups, hist)
  {
    hide FileInv, GroupIs, OpenLates, OpenID, GrowIs;
  }

  lemma DefinedChunk(s: State)
    requires Defined(s)
    ensures s.cfg.chunkSize > 0
  {
  }

  lemma BeginFields(s: State)
    requires CanBegin(s)
    ensures Begin(s).started && Begin(s).closed == s.closed && Begin(s).cfg == s.cfg
    ensures Begin(s).growing == (|s.groups| == 1 && !s.cfg.compress)
  {
  }

  lemma OneGroup(b: State, h: Heap)
    requires GrowStart(b, h)
    ensures |b.groups| == 1
  {
  }

  lemma GrowBegin(b: State, h: Heap)
    requires GrowStart(b, h) && SignalsBuffered(b.groups[0].chans)
    requires FileInv(b.store, h, OpenID(b), b.groups, LatesAfterBegin(b))
    ensures GrowIs(b, h, b.groups[0], [])
  {
    hide FileInv, Encode, IDBytes, LatesAfterBegin, StoreInv, SignalsBuffered;
    FileStoreInv(b.store, h, OpenID(b), b.groups, LatesAfterBegin(b));
    InRangeOf(b.store, h);
    ImageLength(b.store);
    forall a | a in h
      ensures a + Size(h[a]) <= b.growAddr + 24
    {
      BlockInside(b.store, h, a);
    }
  }

  /** Every call keeps the invariant; an append adds exactly its row to exactly its group. */
  lemma StepRunning(z: Zlib, s: State, h: Heap, gs0: seq<Group>, hist: seq<seq<Row>>, op: Op) returns (h': Heap)
    requires Running(z, s, h, gs0, hist) && !s.closed && WellTyped(s) && LegalOp(s, op)
    requires forall i :: 0 <= i < |gs0| ==> gs0[i].recSize > 0
    ensures var hist' := if op.Append? then hist[op.g := hist[op.g] + [Row(op.rec, op.strings)]] else hist;
            Running(z, Step(z, s, op), h', gs0, hist')
    ensures Step(z, s, op).closed == s.closed
  {
    match op {
      case Flush =>
        FlushRunning(z, s, h, gs0, hist);
        h' := h;
      case Append(gi, rec, strings) =>
        h' := AppendRunning(z, s, h, gs0, hist, gi, rec, strings);
    }
  }

  lemma FlushRunning(z: Zlib, s: State, h: Heap, gs0: seq<Group>, hist: seq<seq<Row>>)
    requires Running(z, s, h, gs0, hist)
    ensures Running(z, s.(store := s.store.Flushed()), h, gs0, hist)
  {
    hide FileInv, GroupIs, StoreInv, IDBytes, DataStream, Encode, OpenLate;
    var lates := OpenLates(gs0, if s.growing then s.growAddr else 0);
    FileStoreInv(s.store, h, OpenID(s), gs0, lates);
    FlushKeeps(s.store, h);
    FileSameImage(s.store, s.store.Flushed(), h, OpenID(s), gs0, lates);
  }

  lemma AppendRunning(z: Zlib, s: State, h: Heap, gs0: seq<Group>, hist: seq<seq<Row>>, gi: nat, rec: Bytes,
                      strings: seq<Bytes>)
    returns (h': Heap)
    requires Running(z, s, h, gs0, hist) && !s.closed && WellTyped(s) && LegalOp(s, Append(gi, rec, strings))
    requires forall i :: 0 <= i < |gs0| ==> gs0[i].recSize > 0
    ensures Running(z, AppendRecord(z, s, gi, rec, strings), h', gs0, hist[gi := hist[gi] + [Row(rec, strings)]])
  {
    hide FileInv, GroupIs, StoreInv, Appended, AppendStrings, AppendStream, GrowIs, TypedGroup, IDBytes;
    var lates := OpenLates(gs0, if s.growing then s.growAddr else 0);
    FileStoreInv(s.store, h, OpenID(s), gs0, lates);
    var g, g0, rows, row := s.groups[gi], gs0[gi], hist[gi], Row(rec, strings);
    assert GroupIs(h, z, s.cfg, s.growing, g, g0, rows);
    RowFitsHere(h, z, s.cfg, s.growing, g, g0, rows, row);
    assert TypedGroup(g);
    var s' := AppendRecord(z, s, gi, rec, strings);
    if s.growing {
      h' := GrowingRecord(z, s, h, g0, rows, row);
      assert s'.groups == [s'.groups[0]];
    } else {
      h' := ChunkedRecord(z, s.cfg, s.store, h, g, g0, rows, row);
    }
    AppendUnpatched(s.store, h, s'.store, h');
    FileAppended(s.store, h, s'.store, h', OpenID(s), gs0, lates);
    AppendedInv(s.store, h, s'.store, h');
    ExtKeepsData(h, h');
    var hist' := hist[gi := rows + [row]];
    forall i | 0 <= i < |gs0|
      ensures GroupIs(h', z, s'.cfg, s'.growing, s'.groups[i], gs0[i], hist'[i])
    {
      if i != gi {
        assert s'.groups[i] == s.groups[i];
        GroupIsKept(h, h', z, s.cfg, s.growing, s.groups[i], gs0[i], hist[i]);
      }
    }
  }

  lemma RowFitsHere(h: Heap, z: Zlib, cfg: Config, growing: bool, g: Group, g0: Group, rows: seq<Row>, row: Row)
    requires GroupIs(h, z, cfg, growing, g, g0, rows) && |row.rec| == g.recSize && |row.strings| == |g.chans|
    ensures RowFits(row, g0)
  {
  }

  lemma AppendUnpatched(st: Store, h: Heap, st': Store, h': Heap)
    requires Appended(st, h, st', h')
    ensures st'.patches == st.patches
  {
  }

  lemma HistSnoc(ops: seq<Op>, n: nat)
    requires ops != []
    ensures var init, last := ops[..|ops| - 1], ops[|ops| - 1];
            Hist(ops, n) == if last.Append? && last.g < n
                            then Hist(init, n)[last.g := Hist(init, n)[last.g] + [Row(last.rec, last.strings)]]
                            else Hist(init, n)
  {
  }

  ghost predicate RunInv(z: Zlib, s0: State, s: State, h: Heap, ops: seq<Op>)
    requires CanBegin(s0)
  {
    && !s.closed
    && (s.started ==> Running(z, s, h, Begin(s0).groups, Hist(ops, |s0.groups|)))
    && (!s.started ==> s == s0 && Hist(ops, |s0.groups|) == Hist([], |s0.groups|))
  }

  /** Over any history: once something was appended, the file holds the metadata tree of the definitions and,
      per group and string channel, exactly what the history appended. */
  lemma {:induction false} RunRunning(z: Zlib, s0: State, ops: seq<Op>) returns (h: Heap)
    requires Defined(s0) && WellTyped(s0) && LegalOps(s0, ops)
    ensures CanBegin(s0) && RunInv(z, s0, Run(z, s0, ops), h, ops)
    decreases |ops|
  {
    hide RunInv, Running, Begin, Step, Hist, Defined, CanBegin, LegalOp, WellTyped, SameShape;
    DefinedTyped(s0);
    DefinedOpen(s0);
    if ops == [] {
      h := map[];
      RunStart(z, s0, h);
    } else {
      var init, op := ops[..|ops| - 1], ops[|ops| - 1];
      assert forall i :: 0 <= i < |init| ==> init[i] == ops[i];
      h := RunRunning(z, s0, init);
      assert LegalOp(s0, op);
      h := RunOneMore(z, s0, Run(z, s0, init), h, ops);
    }
  }

  lemma DefinedOpen(s: State)
    requires Defined(s)
    ensures !s.started && !s.closed
  {
  }

  lemma RunStart(z: Zlib, s0: State, h: Heap)
    requires CanBegin(s0) && !s0.started && !s0.closed
    ensures RunInv(z, s0, s0, h, [])
  {
    hide Begin, Running, Hist;
  }

  lemma RunOneMore(z: Zlib, s0: State, s: State, h: Heap, ops: seq<Op>) returns (h': Heap)
    requires Defined(s0) && WellTyped(s0) && WellTyped(s) && CanBegin(s0) && ops != []
    requires var init, op := ops[..|ops| - 1], ops[|ops| - 1];
             LegalOp(s0, op) && SameShape(s0, s) && RunInv(z, s0, s, h, init)
    ensures LegalOp(s, ops[|ops| - 1]) && RunInv(z, s0, Step(z, s, ops[|ops| - 1]), h', ops)
  {
    hide Running, Begin, Step, Hist, Defined, CanBegin, LegalOp, WellTyped, SameShape;
    var init, op := ops[..|ops| - 1], ops[|ops| - 1];
    DefinedOpen(s0);
    HistSnoc(ops, |s0.groups|);
    RecordSizes(s0);
    LegalHere(s0, s, op);
    h' := h;
    if s.started {
      h' := StepRunning(z, s, h, Begin(s0).groups, Hist(init, |s0.groups|), op);
      StepStays(z, s, op);
    } else {
      StepFirst(z, s0, op);
      if op.Append? {
        h' := BeginRunning(z, s0);
        BeginFields(s0);
        var b := Begin(s0);
        h' := StepRunning(z, b, h', b.groups, Hist(init, |s0.groups|), op);
        StepStays(z, b, op);
      }
    }
  }

  lemma LegalHere(s0: State, s: State, op: Op)
    requires SameShape(s0, s) && LegalOp(s0, op)
    ensures LegalOp(s, op) && (op.Append? ==> op.g < |s0.groups|)
  {
  }

  lemma BeginLegal(s: State, op: Op)
    requires Defined(s) && CanBegin(s) && WellTyped(s) && LegalOp(s, op)
    ensures LegalOp(Begin(s), op)
  {
    hide Begin;
    RecordSizes(s);
  }

  /** The first append begins the file; a flush before it does nothing. */
  lemma StepFirst(z: Zlib, s: State, op: Op)
    requires Defined(s) && WellTyped(s) && CanBegin(s) && LegalOp(s, op)
    ensures op.Flush? ==> Step(z, s, op) == s
    ensures WellTyped(Begin(s)) && LegalOp(Begin(s), op)
    ensures op.Append? ==> Step(z, s, op) == Step(z, Begin(s), op)
  {
    hide Begin, AppendRecord, WellTyped, CanBegin, Defined;
    BeginTyped(s);
    BeginLegal(s, op);
    BeginFields(s);
    NothingToFlush(s);
  }

  lemma NothingToFlush(s: State)
    requires Defined(s)
    ensures s.store.Flushed() == s.store && !s.started
  {
  }

  lemma StepStays(z: Zlib, s: State, op: Op)
    requires WellTyped(s) && LegalOp(s, op) && s.started
    ensures Step(z, s, op).started
  {
    hide AppendStrings, AppendStream;
  }

  lemma RecordSizes(s: State)
    requires Defined(s) && CanBegin(s) && WellTyped(s)
    ensures |Begin(s).groups| == |s.groups|
    ensures forall i :: 0 <= i < |s.groups| ==>
              Begin(s).groups[i].recSize == s.groups[i].recSize > 0 && |Begin(s).groups[i].chans| == |s.groups[i].chans|
  {
    BeginTyped(s);
    hide Begin;
    forall i | 0 <= i < |s.groups|
      ensures Begin(s).groups[i].recSize == s.groups[i].recSize > 0 && |Begin(s).groups[i].chans| == |s.groups[i].chans|
    {
      assert SameGroup(Begin(s).groups[i], Restreamed(s.groups[i]));
      assert FreshGroup(s.groups[i]);
    }
  }
}
