/** Channels added after recording has started: the program accepts the call, and the closed file no longer
    reads back. */
module LateChannels {
  import opened Wire
  import opened Blocks
  import opened Meta
  import opened Zip
  import opened Store
  import opened WriterSpec
  import opened Written
  import opened Runs
  import opened History
  import opened TreeProof
  import opened Tree
  import opened RoundTrip
  import opened Metadata
  import L = CrashLong

  /** A call of the recording interface, or one that adds a channel to a group. */
  datatype Call = Record(op: Op) | Extend(gi: nat, def: ChanDef)

  ghost predicate LegalCall(s: State, c: Call) {
    match c
    case Record(op) => LegalOp(s, op)
    case Extend(gi, def) => gi < |s.groups| && s.started
  }

  function AddLate(s: State, gi: nat, def: ChanDef): (r: State)
    requires WellTyped(s) && gi < |s.groups|
    ensures WellTyped(r)
  {
    assert TypedGroup(s.groups[gi]);
    s.(groups := s.groups[gi := AddChan(s.groups[gi], def)])
  }

  function Do(z: Zlib, s: State, c: Call): (r: State)
    requires WellTyped(s) && LegalCall(s, c)
    ensures WellTyped(r)
  {
    match c
    case Record(op) => StepShape(z, s, op); Step(z, s, op)
    case Extend(gi, def) => AddLate(s, gi, def)
  }

  /** Every call is legal in the state it meets: records are as long as their group's channels then want them. */
  ghost predicate LegalCalls(z: Zlib, s: State, cs: seq<Call>)
    requires WellTyped(s)
    decreases |cs|, 0
  {
    cs == [] || (LegalCalls(z, s, cs[..|cs| - 1]) && LegalCall(DoAll(z, s, cs[..|cs| - 1]), cs[|cs| - 1]))
  }

  ghost function DoAll(z: Zlib, s: State, cs: seq<Call>): (r: State)
    requires WellTyped(s) && LegalCalls(z, s, cs)
    ensures WellTyped(r)
    decreases |cs|, 1
  {
    if cs == [] then s else Do(z, DoAll(z, s, cs[..|cs| - 1]), cs[|cs| - 1])
  }

  function OpsOf(cs: seq<Call>): seq<Op> {
    if cs == [] then []
    else
      var init, last := OpsOf(cs[..|cs| - 1]), cs[|cs| - 1];
      if last.Record? then init + [last.op] else init
  }

  ghost predicate NoLate(cs: seq<Call>) { forall i :: 0 <= i < |cs| ==> cs[i].Record? }

  /** The file shows the groups with all channels they have in the writer, and everything appended. */
  ghost predicate ReadsBack(env: Env, f: Bytes, t: State, ops: seq<Op>) {
    var r := Open(env, f);
    && r.Ok? && |r.value.groups| == |t.groups|
    && forall gi :: 0 <= gi < |t.groups| ==> GroupReads(f, env.z, r.value.groups[gi], t.groups[gi], RowsOf(ops, gi))
  }

  // ---- what every sequence of calls keeps ----

  lemma LateKept(s: State, h: Heap, gs0: seq<Group>, gi: nat, def: ChanDef)
    requires Kept(s, h, gs0) && WellTyped(s) && gi < |s.groups|
    ensures Kept(AddLate(s, gi, def), h, gs0)
  {
    hide FileInv, GroupSits, GrowSits, WellTyped, Kept, AddChan;
    var t := AddLate(s, gi, def);
    KeptParts(s, h, gs0);
    forall i | 0 <= i < |gs0|
      ensures GroupSits(t.groups[i], gs0[i], t.store.End())
    {
      if i == gi {
        LateSits(s.groups[gi], gs0[gi], s.store.End(), def);
      }
    }
    assert Longer(s.store, t.store);
    KeptLonger(s, h, gs0, t);
  }

  lemma LateSits(g: Group, g0: Group, end: nat, def: ChanDef)
    requires GroupSits(g, g0, end)
    ensures GroupSits(AddChan(g, def), g0, end)
  {
  }

  lemma {:induction false} CallsKept(z: Zlib, s0: State, h: Heap, cs: seq<Call>)
    requires Defined(s0) && WellTyped(s0) && CanBegin(s0) && LegalCalls(z, s0, cs)
    requires Kept(Begin(s0), h, Begin(s0).groups)
    ensures var t := DoAll(z, s0, cs);
            if t.started then Kept(t, h, Begin(s0).groups) && !t.closed else t == s0
    decreases |cs|
  {
    hide Kept, Begin, Defined, CanBegin, WellTyped, Step, LegalOp, AddLate;
    DefinedOpen(s0);
    if cs != [] {
      var init, c := cs[..|cs| - 1], cs[|cs| - 1];
      CallsKept(z, s0, h, init);
      var s := DoAll(z, s0, init);
      match c
      case Record(op) =>
        StepKept(z, s0, h, s, op);
      case Extend(gi, def) =>
        LateKept(s, h, Begin(s0).groups, gi, def);
        LateOpen(s, gi, def);
    }
  }

  lemma LateOpen(s: State, gi: nat, def: ChanDef)
    requires WellTyped(s) && gi < |s.groups|
    ensures var t := AddLate(s, gi, def); t.started == s.started && t.closed == s.closed
  {
  }

  /** Groups have lost no channel, and gained one exactly by the calls that add one. */
  ghost predicate Grew(s0: State, t: State, late: bool) {
    && |t.groups| == |s0.groups|
    && (forall gi :: 0 <= gi < |t.groups| ==> |t.groups[gi].chans| >= |s0.groups[gi].chans|)
    && (late <==> exists gi :: 0 <= gi < |t.groups| && |t.groups[gi].chans| > |s0.groups[gi].chans|)
  }

  lemma {:induction false} CallsGrow(z: Zlib, s0: State, cs: seq<Call>)
    requires WellTyped(s0) && LegalCalls(z, s0, cs)
    ensures Grew(s0, DoAll(z, s0, cs), !NoLate(cs)) && (!NoLate(cs) ==> DoAll(z, s0, cs).started)
    decreases |cs|
  {
    hide WellTyped, Step, LegalOp, AddLate;
    if cs != [] {
      var init, c := cs[..|cs| - 1], cs[|cs| - 1];
      CallsGrow(z, s0, init);
      var s, t := DoAll(z, s0, init), DoAll(z, s0, cs);
      match c
      case Record(op) =>
        StepShape(z, s, op);
        StepStarted(z, s, op);
        assert NoLate(cs) <==> NoLate(init) by { OneMoreCall(cs); }
        assert forall gi :: 0 <= gi < |t.groups| ==> |t.groups[gi].chans| == |s.groups[gi].chans|;
      case Extend(gi, def) =>
        LateCount(s, gi, def);
        assert !NoLate(cs);
        assert |t.groups[gi].chans| > |s0.groups[gi].chans|;
    }
  }

  lemma OneMoreCall(cs: seq<Call>)
    requires cs != [] && cs[|cs| - 1].Record?
    ensures NoLate(cs) <==> NoLate(cs[..|cs| - 1])
  {
    assert forall i :: 0 <= i < |cs| - 1 ==> cs[..|cs| - 1][i] == cs[i];
  }

  lemma StepStarted(z: Zlib, s: State, op: Op)
    requires WellTyped(s) && LegalOp(s, op)
    ensures s.started ==> Step(z, s, op).started
  {
    hide AppendRecord;
    if op.Append? && s.started {
      AppendFields(z, s, op.g, op.rec, op.strings);
    }
  }

  lemma LateCount(s: State, gi: nat, def: ChanDef)
    requires WellTyped(s) && gi < |s.groups|
    ensures var t := AddLate(s, gi, def);
            && |t.groups| == |s.groups| && t.started == s.started
            && forall i :: 0 <= i < |s.groups| ==>
                 |t.groups[i].chans| == |s.groups[i].chans| + if i == gi then 1 else 0
  {
  }

  /** Without such calls the history is one of appends and flushes. */
  lemma {:induction false} CallsAreOps(z: Zlib, s0: State, cs: seq<Call>)
    requires WellTyped(s0) && LegalCalls(z, s0, cs) && NoLate(cs)
    ensures LegalOps(s0, OpsOf(cs)) && Run(z, s0, OpsOf(cs)) == DoAll(z, s0, cs)
    decreases |cs|
  {
    hide WellTyped, Step;
    if cs != [] {
      var init, op := cs[..|cs| - 1], cs[|cs| - 1].op;
      CallsAreOps(z, s0, init);
      var ops := OpsOf(init);
      assert (ops + [op])[..|ops|] == ops;
      assert SameShape(s0, Run(z, s0, ops)) && LegalOp(Run(z, s0, ops), op);
      assert LegalOps(s0, ops + [op]);
      RunMore(z, s0, ops + [op]);
    }
  }

  // ---- a string channel came too late ----

  lemma HeadGone(env: Env, f: Bytes)
    requires |f| >= 72 && f[64] % 8 == 0
    ensures Open(env, f).Err?
  {
    hide BuildTree, FixCycleCounts, DecodeID, FromLE;
    if |f| >= ID_SIZE + HEADER_SIZE {
      assert f[64..88][0..4][0] == f[64];
    }
    assert DecodeHeader(f, ID_SIZE, ID_HD).Err?;
  }

  lemma StrayClosed(env: Env, s: State, h: Heap, gs0: seq<Group>)
    requires Kept(s, h, gs0) && WellTyped(s) && Stray(s, gs0)
    requires forall i :: 0 <= i < |s.groups| ==> s.groups[i].count < TWO_64
    ensures Open(env, WriteAt(Prepared(env.z, s).Image(), 0, FinalID(s.cfg))).Err?
  {
    hide FileInv, GroupSits, WellTyped, FinalizeGroups, Prepared, Pending, StrayPatch, Stray, IDBytes, GrowSits;
    hide FinalID;
    hide OpenLate, OwnPatch, Open;
    var z := env.z;
    L.PreparedPending(z, s, h, gs0);
    var p := Prepared(z, s);
    var st := L.AllBytes(z, s, h, gs0);
    var lates := OpenLates(gs0, OpenAt(s));
    FileHead(st, h, OpenID(s), gs0, lates);
    forall k | 0 <= k < |p.patches|
      ensures p.patches[k].off + 8 <= p.End() && (p.patches[k].off >= 72 || StrayPatch(p.patches[k]))
    {
      PendingAt(p.patches, k, s, gs0, st.End());
      PatchPlace(st, h, s, gs0, p.patches[k]);
    }
    HeadDestroyed(p.disk + p.buf, p.patches);
    var img := p.Image();
    WriteAtInside(img, 0, FinalID(s.cfg));
    assert WriteAt(img, 0, FinalID(s.cfg))[64] == img[64];
    HeadGone(env, WriteAt(img, 0, FinalID(s.cfg)));
  }

  lemma PendingAt(ps: seq<Patch>, k: nat, s: State, gs0: seq<Group>, end: nat)
    requires Pending(ps, s, gs0, true, end) && k < |ps|
    ensures AnyPatch(ps[k], s, gs0, true, end)
  {
    hide AnyPatch;
  }

  lemma FileHead(st: Store, h: Heap, id: Bytes, gs: seq<Group>, lates: seq<Late>)
    requires FileInv(st, h, id, gs, lates)
    ensures st.End() >= 88
  {
    hide GroupAt, NewGroups;
    FileStoreInv(st, h, id, gs, lates);
    BlockInside(st, h, ID_SIZE);
  }

  lemma PatchPlace(st: Store, h: Heap, s: State, gs0: seq<Group>, p: Patch)
    requires FileInv(st, h, OpenID(s), gs0, OpenLates(gs0, OpenAt(s))) && st.End() >= 88
    requires (s.growing ==> GrowSits(st, h, s.growAddr)) && AnyPatch(p, s, gs0, true, st.End())
    ensures p.off + 8 <= st.End() && (p.off >= 72 || StrayPatch(p))
  {
    hide FileInv, OpenLate, IDBytes, OwnPatch, Encode;
    if OwnPatch(p, gs0, s.growing, st.End()) {
      var a: nat := OwnRange(st, h, OpenID(s), gs0, OpenLates(gs0, OpenAt(s)), p, s.growing, st.End());
    }
  }

  // ---- only other channels came too late ----

  /** The closed file shows the groups with the channels they had at begin. */
  lemma PlainClosed(env: Env, s0: State, s: State, h: Heap)
    requires Defined(s0) && WellTyped(s0) && CanBegin(s0)
    requires forall gi :: 0 <= gi < |s0.groups| ==> LegibleGroup(s0.groups[gi])
    requires Kept(s, h, Begin(s0).groups) && WellTyped(s) && !Stray(s, Begin(s0).groups)
    requires Prepared(env.z, s).End() < TWO_63 && forall i :: 0 <= i < |s.groups| ==> s.groups[i].count < TWO_64
    ensures var f := WriteAt(Prepared(env.z, s).Image(), 0, FinalID(s.cfg));
            var r := Open(env, f);
            && r.Ok? && |r.value.groups| == |s0.groups|
            && forall gi :: 0 <= gi < |s0.groups| ==> |r.value.groups[gi].channels| == |s0.groups[gi].chans|
  {
    hide FileInv, GroupSits, WellTyped, FinalizeGroups, Prepared, Pending, Stray, IDBytes, GrowSits, LatesFine, Begin;
    hide Open, Defined, CanBegin, LegibleGroup, SameGroup, Restreamed, OpenLate, AllBelow, StoreInv, WriteAt;
    var z, gs0 := env.z, Begin(s0).groups;
    L.PreparedPending(z, s, h, gs0);
    var p := Prepared(z, s);
    var st := L.AllBytes(z, s, h, gs0);
    var lates := OpenLates(gs0, OpenAt(s));
    OpenFine(s, gs0);
    IDSize(s);
    if s.growing {
      L.GrowParts(st, h, s.growAddr);
    }
    var h', lates' := PatchesKept(st, h, OpenID(s), gs0, lates, p.patches, s);
    assert st.(patches := p.patches) == p;
    FileStoreInv(p, h', OpenID(s), gs0, lates');
    HeapRewritten(p, h', FinalID(s.cfg));
    BeginTyped(s0);
    forall i | 0 <= i < |gs0|
      ensures LegibleGroup(gs0[i]) && |gs0[i].chans| == |s0.groups[i].chans|
    {
      LegibleKept(s0.groups[i], gs0[i]);
      SameCount(gs0[i], s0.groups[i]);
    }
    assert |lates'| == |gs0| by { FileParts(p, h', OpenID(s), gs0, lates'); }
    FineCounts(lates', s);
    var f := WriteAt(p.Image(), 0, FinalID(s.cfg));
    OpenRead(env, f, p, h', OpenID(s), gs0, lates', s.cfg.program, 0);
    ViewCounts(gs0, lates');
  }

  lemma SameCount(g0: Group, g: Group)
    requires SameGroup(g0, Restreamed(g))
    ensures |g0.chans| == |g.chans| && g0.name == g.name && g0.recSize == g.recSize
  {
  }

  lemma FineCounts(lates: seq<Late>, s: State)
    requires LatesFine(lates, s)
    ensures forall i :: 0 <= i < |lates| ==> lates[i].count < TWO_64
  {
  }

  lemma OpenFine(s: State, gs0: seq<Group>)
    ensures LatesFine(OpenLates(gs0, OpenAt(s)), s)
  {
  }

  lemma IDSize(s: State)
    ensures |OpenID(s)| == ID_SIZE
  {
  }

  lemma ViewCounts(gs0: seq<Group>, lates: seq<Late>)
    requires Paired(gs0, lates)
    ensures var views := GroupViewsFrom(gs0, lates, 0);
            |views| == |gs0| && forall i :: 0 <= i < |gs0| ==> |views[i].channels| == |gs0[i].chans|
  {
    var views := GroupViewsFrom(gs0, lates, 0);
    GroupViewsAt(gs0, lates, 0);
    forall i | 0 <= i < |gs0|
      ensures |views[i].channels| == |gs0[i].chans|
    {
      assert views[i - 0] == GroupViewOf(gs0[i], lates[i]);
      ViewsAt(gs0[i].chans, lates[i].signals, 0);
    }
  }

  // ---- the whole story ----

  /** Definitions, any calls on them, and sizes the format can express. */
  ghost predicate Recording(env: Env, s0: State, cs: seq<Call>) {
    && Defined(s0) && WellTyped(s0) && CanBegin(s0) && Lossless(env.z) && LegalCalls(env.z, s0, cs)
    && (forall gi :: 0 <= gi < |s0.groups| ==> LegibleGroup(s0.groups[gi]))
    && var t := DoAll(env.z, s0, cs);
       && Prepared(env.z, t).End() < TWO_63 && (forall i :: 0 <= i < |t.groups| ==> t.groups[i].count < TWO_64)
       && (NoLate(cs) && LegalOps(s0, OpsOf(cs)) ==> Expressible(env.z, s0, OpsOf(cs)) && ShortTexts(s0, OpsOf(cs)))
  }

  lemma LateBreaks(env: Env, s0: State, cs: seq<Call>)
    requires Recording(env, s0, cs) && !NoLate(cs)
    ensures var t := DoAll(env.z, s0, cs); !ReadsBack(env, Close(env.z, t).store.disk, t, OpsOf(cs))
  {
    hide Begin, Defined, CanBegin, WellTyped, LegibleGroup, Lossless, Kept, Prepared, FinalID, Stray, WriteAt, Open;
    hide DoAll;
    hide LegalCalls, GroupReads, RowsOf, Expressible, ShortTexts, NoLate, OpsOf;
    var z, t := env.z, DoAll(env.z, s0, cs);
    var h := BegunKept(s0);
    CallsKept(z, s0, h, cs);
    CallsGrow(z, s0, cs);
    BeginFields(s0);
    KeptParts(t, h, Begin(s0).groups);
    ClosedDisk(z, t);
    if Stray(t, Begin(s0).groups) {
      StrayClosed(env, t, h, Begin(s0).groups);
    } else {
      PlainClosed(env, s0, t, h);
      var f := Close(z, t).store.disk;
      var gi :| 0 <= gi < |t.groups| && |t.groups[gi].chans| > |s0.groups[gi].chans|;
      var v := Open(env, f).value.groups[gi];
      ReadChannels(f, z, v, t.groups[gi], RowsOf(OpsOf(cs), gi));
    }
  }

  lemma ReadChannels(f: Bytes, z: Zlib, v: GroupView, g: Group, rows: seq<Row>)
    ensures GroupReads(f, z, v, g, rows) ==> |v.channels| == |g.chans|
  {
    hide DataStream;
  }

  lemma ClosedDisk(z: Zlib, t: State)
    requires WellTyped(t) && t.started && !t.closed
    ensures Close(z, t).store.disk == WriteAt(Prepared(z, t).Image(), 0, FinalID(t.cfg))
  {
    hide Prepared, FinalID, WriteAt;
  }

  /** Without late channels, the round trip, against the groups as they are in the writer. */
  lemma NoLateReads(env: Env, s0: State, cs: seq<Call>)
    requires Recording(env, s0, cs) && NoLate(cs)
    ensures var t := DoAll(env.z, s0, cs); ReadsBack(env, Close(env.z, t).store.disk, t, OpsOf(cs))
  {
    hide Begin, Defined, CanBegin, WellTyped, LegibleGroup, Lossless, Prepared, Open, DoAll, LegalCalls, GroupReads;
    hide RowsOf, Expressible, ShortTexts, OpsOf, Close, Run, LegalOps;
    var z, ops, t := env.z, OpsOf(cs), DoAll(env.z, s0, cs);
    CallsAreOps(z, s0, cs);
    CloseThenOpen(env, s0, ops);
    var f := Close(z, t).store.disk;
    GroupsAsDefined(z, s0, ops);
    forall gi | 0 <= gi < |t.groups|
      ensures GroupReads(f, z, Open(env, f).value.groups[gi], t.groups[gi], RowsOf(ops, gi))
    {
      ReadsSame(f, z, Open(env, f).value.groups[gi], s0.groups[gi], t.groups[gi], RowsOf(ops, gi));
    }
  }

  ghost predicate SameDefs(g: Group, g': Group) {
    && g.name == g'.name && g.recSize == g'.recSize && |g.chans| == |g'.chans|
    && forall ci :: 0 <= ci < |g.chans| ==> g.chans[ci].def == g'.chans[ci].def
  }

  lemma ReadsSame(f: Bytes, z: Zlib, v: GroupView, g: Group, g': Group, rows: seq<Row>)
    requires GroupReads(f, z, v, g, rows) && SameDefs(g, g')
    ensures GroupReads(f, z, v, g', rows)
  {
    hide StoredRows, SectionIs, Concat;
    DataSame(g.chans, g'.chans, rows);
  }

  lemma GroupsAsDefined(z: Zlib, s0: State, ops: seq<Op>)
    requires Defined(s0) && WellTyped(s0) && CanBegin(s0) && LegalOps(s0, ops)
    ensures var t := Run(z, s0, ops);
            |t.groups| == |s0.groups| && forall gi :: 0 <= gi < |s0.groups| ==> SameDefs(s0.groups[gi], t.groups[gi])
  {
    hide Begin, Defined, CanBegin, WellTyped, LegalOps, Run, Hist, SignalsAre, FileInv, GrowIs, RowsFit;
    var t := Run(z, s0, ops);
    var h := RunRunning(z, s0, ops);
    if t.started {
      BeginTyped(s0);
      var gs0, hist := Begin(s0).groups, Hist(ops, |s0.groups|);
      forall gi | 0 <= gi < |s0.groups|
        ensures SameDefs(s0.groups[gi], t.groups[gi])
      {
        assert GroupIs(h, z, t.cfg, t.growing, t.groups[gi], gs0[gi], hist[gi]);
      }
    }
  }

  /** After any calls, the closed file reads back if and only if no channel was added since the recording started. */
  lemma ReadsIffNoLate(env: Env, s0: State, cs: seq<Call>)
    requires Recording(env, s0, cs)
    ensures var t := DoAll(env.z, s0, cs);
            ReadsBack(env, Close(env.z, t).store.disk, t, OpsOf(cs)) <==> NoLate(cs)
  {
    hide Recording, ReadsBack, NoLate;
    if NoLate(cs) {
      NoLateReads(env, s0, cs);
    } else {
      LateBreaks(env, s0, cs);
    }
  }
}
