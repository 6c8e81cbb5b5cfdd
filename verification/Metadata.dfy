/** The metadata of a file from begin on: whatever is appended behind it, records of any length included, the tree that
    begin wrote stays, and finalize patches it only where its own links and counters are. */
module Metadata {
  import opened Wire
  import opened Blocks
  import opened Meta
  import opened Zip
  import opened Store
  import opened WriterSpec
  import opened Written
  import opened Runs
  import opened History
  import opened Closing
  import opened Grown

  // ---- the file only gets longer ----

  /** Bytes were appended, and nothing else. */
  ghost predicate Longer(st: Store, st': Store) {
    st'.disk == st.disk && st'.patches == st.patches && st.buf <= st'.buf
  }

  lemma LongerEnd(st: Store, st': Store)
    requires Longer(st, st')
    ensures st.End() <= st'.End() && st' == st.Append(st'.buf[|st.buf|..])
  {
    assert st'.buf == st.buf + st'.buf[|st.buf|..];
  }

  lemma LongerTrans(s1: Store, s2: Store, s3: Store)
    requires Longer(s1, s2) && Longer(s2, s3)
    ensures Longer(s1, s3)
  {
    assert s3.buf[..|s1.buf|] == s2.buf[..|s1.buf|];
  }

  lemma FileLonger(st: Store, h: Heap, st': Store, id: Bytes, gs: seq<Group>, lates: seq<Late>)
    requires FileInv(st, h, id, gs, lates) && Longer(st, st')
    ensures FileInv(st', h, id, gs, lates)
  {
    hide FileInv, Appended, StoreInv;
    LongerEnd(st, st');
    FileStoreInv(st, h, id, gs, lates);
    AppendedBytes(st, h, st'.buf[|st.buf|..]);
    FileAppended(st, h, st', h, id, gs, lates);
  }

  /** The blocks a stream has written stand at multiples of 8 within the file. */
  ghost predicate Placed(cs: Stream, end: nat) {
    |cs.id| == 4 && forall k :: 0 <= k < |cs.segs| ==> cs.segs[k].addr <= end && cs.segs[k].addr % 8 == 0
  }

  lemma PutPlaces(st: Store, b: Block)
    requires |b.id| == 4
    ensures var (st', a) := st.Put(b); Longer(st, st') && st.End() <= a <= st'.End() && a % 8 == 0
  {
    hide Encode;
    PadAligns(st.End());
    assert st.buf + Zeros(st.Pad()) + Encode(b) == st.buf + (Zeros(st.Pad()) + Encode(b));
  }

  lemma ChunkPlaced(z: Zlib, compress: bool, st: Store, cs: Stream)
    requires Placed(cs, st.End())
    ensures var (st', cs') := FlushChunk(z, compress, st, cs);
            Longer(st, st') && Placed(cs', st'.End())
  {
    hide ChunkBlock;
    if cs.buf != [] {
      PutPlaces(st, ChunkBlock(z, compress, cs));
    }
  }

  lemma StreamPlaced(z: Zlib, cfg: Config, st: Store, cs: Stream, b: Bytes)
    requires Placed(cs, st.End())
    ensures var (st', cs') := AppendStream(z, cfg, st, cs, b);
            Longer(st, st') && Placed(cs', st'.End())
  {
    hide FlushChunk;
    ChunkPlaced(z, cfg.compress, st, cs.(total := cs.total + |b|, buf := cs.buf + b));
  }

  lemma LinkPlaced(z: Zlib, compress: bool, st: Store, cs: Stream)
    requires Placed(cs, st.End())
    ensures var (st', _, a) := LinkStream(z, compress, st, cs);
            Longer(st, st') && a <= st'.End() && a % 8 == 0
  {
    hide FlushChunk, DLBlock;
    var (st1, cs1) := FlushChunk(z, compress, st, cs);
    ChunkPlaced(z, compress, st, cs);
    if |cs1.segs| > 1 {
      assert |DLBlock(cs1.segs).id| == 4 by { ListId(cs1.segs); }
      PutPlaces(st1, DLBlock(cs1.segs));
      LongerTrans(st, st1, st1.Put(DLBlock(cs1.segs)).0);
    }
  }

  lemma ListId(segs: seq<WSeg>)
    ensures |DLBlock(segs).id| == 4
  {
  }

  lemma PlacedLater(cs: Stream, n: nat, m: nat)
    requires Placed(cs, n) && n <= m
    ensures Placed(cs, m)
  {
  }

  // ---- groups and their channels ----

  /** A channel of the file, or one that came too late for it. */
  ghost predicate ChanSits(c: Chan, cs0: seq<Chan>, ci: nat) {
    if ci < |cs0| then c.def == cs0[ci].def && c.cnAddr == cs0[ci].cnAddr else c.cnAddr == 0
  }

  ghost predicate ChansSit(chans: seq<Chan>, cs0: seq<Chan>, end: nat) {
    && |chans| >= |cs0|
    && forall ci :: 0 <= ci < |chans| ==> ChanSits(chans[ci], cs0, ci) && Placed(chans[ci].sd, end)
  }

  ghost predicate GroupSits(g: Group, g0: Group, end: nat) {
    && g.dgAddr == g0.dgAddr && g.cgAddr == g0.cgAddr && Placed(g.data, end) && ChansSit(g.chans, g0.chans, end)
  }

  lemma ChansLater(chans: seq<Chan>, cs0: seq<Chan>, n: nat, m: nat)
    requires ChansSit(chans, cs0, n) && n <= m
    ensures ChansSit(chans, cs0, m)
  {
    hide ChanSits;
  }

  lemma GroupLater(g: Group, g0: Group, n: nat, m: nat)
    requires GroupSits(g, g0, n) && n <= m
    ensures GroupSits(g, g0, m)
  {
    hide ChansSit;
    PlacedLater(g.data, n, m);
    ChansLater(g.chans, g0.chans, n, m);
  }

  lemma {:induction false} StringsPlaced(z: Zlib, cfg: Config, st: Store, chans: seq<Chan>, cs0: seq<Chan>, rec: Bytes,
                                         strings: seq<Bytes>, n: nat)
    requires ChansSit(chans, cs0, st.End()) && n <= |chans| == |strings|
    requires forall i :: 0 <= i < |chans| ==> |chans[i].sd.id| == 4
    ensures var (st', cs, _) := AppendStrings(z, cfg, st, chans, rec, strings, n);
            Longer(st, st') && ChansSit(cs, cs0, st'.End())
  {
    hide AppendStream, LE, WriteAt, ChanSits;
    if n > 0 {
      StringsPlaced(z, cfg, st, chans, cs0, rec, strings, n - 1);
      var (st1, cs, _) := AppendStrings(z, cfg, st, chans, rec, strings, n - 1);
      var c := cs[n - 1];
      if c.def.vlsd {
        hide Longer, Placed;
        var s := strings[n - 1];
        StreamPlaced(z, cfg, st1, c.sd, LE(|s|, 4));
        PlacedId(AppendStream(z, cfg, st1, c.sd, LE(|s|, 4)).1, AppendStream(z, cfg, st1, c.sd, LE(|s|, 4)).0.End());
        var (st2, sd2) := AppendStream(z, cfg, st1, c.sd, LE(|s|, 4));
        StreamPlaced(z, cfg, st2, sd2, s);
        var (st3, sd3) := AppendStream(z, cfg, st2, sd2, s);
        LongerTrans(st, st1, st2);
        LongerTrans(st, st2, st3);
        LongerTrans(st1, st2, st3);
        LongerEnd(st1, st3);
        OneReplaced(cs, cs0, n - 1, sd3, st1.End(), st3.End());
      }
    }
  }

  lemma PlacedId(cs: Stream, end: nat)
    requires Placed(cs, end)
    ensures |cs.id| == 4
  {
  }

  lemma OneReplaced(cs: seq<Chan>, cs0: seq<Chan>, k: nat, sd: Stream, n: nat, m: nat)
    requires ChansSit(cs, cs0, n) && k < |cs| && Placed(sd, m) && n <= m
    ensures ChansSit(cs[k := cs[k].(sd := sd)], cs0, m)
  {
    ChansLater(cs, cs0, n, m);
    hide Placed;
  }

  // ---- from begin on ----

  /** Where the data links point while recording. */
  function OpenAt(s: State): nat { if s.growing then s.growAddr else 0 }

  /** A recording whose metadata h stands in the file as begin wrote it for groups gs0. */
  ghost predicate Kept(s: State, h: Heap, gs0: seq<Group>) {
    && s.started && s.store.patches == [] && |s.groups| == |gs0|
    && FileInv(s.store, h, OpenID(s), gs0, OpenLates(gs0, OpenAt(s)))
    && (forall i :: 0 <= i < |gs0| ==> GroupSits(s.groups[i], gs0[i], s.store.End()))
    && (s.growing ==> |gs0| == 1 && GrowSits(s.store, h, s.growAddr))
  }

  /** The open data block stands behind the metadata. */
  ghost predicate GrowSits(st: Store, h: Heap, a: nat) {
    && ID_SIZE <= a && a + 24 <= st.End() && At(st.Image(), a, Encode(Block(ID_DT, [], [])))
    && forall k :: k in h ==> k + Size(h[k]) <= a
  }

  lemma BegunKept(s0: State) returns (h: Heap)
    requires Defined(s0) && WellTyped(s0) && CanBegin(s0)
    ensures Kept(Begin(s0), h, Begin(s0).groups)
  {
    hide FileInv, StoreInv, GrowStart, OpenLate, IDBytes, Begin, CanBegin, LE, FreshGroup;
    var b := Begin(s0);
    var h0 := BeginWritten(s0);
    BeginTyped(s0);
    BeginFields(s0);
    SameLates(b);
    forall i | 0 <= i < |b.groups|
      ensures GroupSits(b.groups[i], b.groups[i], b.store.End())
    {
      FreshSits(s0.groups[i], b.groups[i], b.store.End());
    }
    if b.growing {
      FileStoreInv(b.store, h0, OpenID(b), b.groups, LatesAfterBegin(b));
      GrowBegun(b, h0);
      h := Without(h0, b.growAddr);
      FileWithout(b.store, h0, OpenID(b), b.groups, LatesAfterBegin(b), b.growAddr);
    } else {
      h := h0;
    }
  }

  lemma SameLates(b: State)
    ensures LatesAfterBegin(b) == OpenLates(b.groups, OpenAt(b))
  {
    hide OpenLate;
  }

  lemma FreshSits(g: Group, g0: Group, end: nat)
    requires FreshGroup(g) && SameGroup(g0, Restreamed(g))
    ensures GroupSits(g0, g0, end)
  {
    hide Tiled;
    forall ci | 0 <= ci < |g0.chans|
      ensures ChanSits(g0.chans[ci], g0.chans, ci) && Placed(g0.chans[ci].sd, end)
    {
      assert FreshChan(g.chans[ci]);
    }
  }

  lemma GrowBegun(b: State, h: Heap)
    requires GrowStart(b, h) && StoreInv(b.store, h)
    ensures |b.groups| == 1 && b.growAddr in h && h[b.growAddr].id == ID_DT
    ensures GrowSits(b.store, Without(h, b.growAddr), b.growAddr)
  {
    hide Encode;
    var a := b.growAddr;
    assert BlockAt(b.store.Image(), a, h[a]);
    forall k | k in h && k != a
      ensures k + Size(h[k]) <= a
    {
      assert BlockAt(b.store.Image(), k, h[k]);
      if a < k {
        StoreInside(b.store, h, k);
      }
    }
  }

  lemma StoreInside(st: Store, h: Heap, a: nat)
    requires StoreInv(st, h) && a in h
    ensures a + Size(h[a]) <= st.End()
  {
    BlockInside(st, h, a);
  }

  lemma GrowLonger(st: Store, h: Heap, st': Store, a: nat)
    requires GrowSits(st, h, a) && Longer(st, st') && st.patches == []
    ensures GrowSits(st', h, a)
  {
    hide Encode;
    LongerEnd(st, st');
    AppendImage(st, st'.buf[|st.buf|..]);
    AtAppend(st.Image(), st'.buf[|st.buf|..], a, Encode(Block(ID_DT, [], [])));
  }

  /** A step that appends to the file and leaves the groups where they are. */
  lemma KeptLonger(s: State, h: Heap, gs0: seq<Group>, t: State)
    requires Kept(s, h, gs0) && Longer(s.store, t.store) && t.started && |t.groups| == |s.groups|
    requires t.cfg == s.cfg && t.growing == s.growing && t.growAddr == s.growAddr
    requires forall i :: 0 <= i < |gs0| ==> GroupSits(t.groups[i], gs0[i], t.store.End())
    ensures Kept(t, h, gs0)
  {
    hide FileInv, GroupSits, GrowSits, IDBytes, Longer;
    FileLonger(s.store, h, t.store, OpenID(s), gs0, OpenLates(gs0, OpenAt(s)));
    LongerEnd(s.store, t.store);
    if s.growing {
      GrowLonger(s.store, h, t.store, s.growAddr);
    }
  }

  lemma FlushKept(s: State, h: Heap, gs0: seq<Group>)
    requires Kept(s, h, gs0)
    ensures Kept(s.(store := s.store.Flushed()), h, gs0)
  {
    hide FileInv, GroupSits, IDBytes, StoreInv, Encode;
    var st := s.store.Flushed();
    FileStoreInv(s.store, h, OpenID(s), gs0, OpenLates(gs0, OpenAt(s)));
    assert st.Image() == s.store.Image() && st.End() == s.store.End();
    FlushedInv(s.store, h);
    FileSameImage(s.store, st, h, OpenID(s), gs0, OpenLates(gs0, OpenAt(s)));
  }

  lemma FlushedInv(st: Store, h: Heap)
    requires StoreInv(st, h) && st.patches == []
    ensures StoreInv(st.Flushed(), h)
  {
    assert st.Flushed().Image() == st.Image();
  }

  lemma RecordKept(z: Zlib, s: State, h: Heap, gs0: seq<Group>, gi: nat, rec: Bytes, strings: seq<Bytes>)
    requires Kept(s, h, gs0) && WellTyped(s) && gi < |s.groups| && |strings| == |s.groups[gi].chans|
    ensures Kept(AppendRecord(z, s, gi, rec, strings), h, gs0)
  {
    hide FileInv, GroupSits, GrowSits, IDBytes, AppendStrings, AppendStream, Kept, LE;
    var g, t := s.groups[gi], AppendRecord(z, s, gi, rec, strings);
    KeptParts(s, h, gs0);
    SitsParts(g, gs0[gi], s.store.End());
    StringsPlaced(z, s.cfg, s.store, g.chans, gs0[gi].chans, rec, strings, |g.chans|);
    var (st, cs, rec') := AppendStrings(z, s.cfg, s.store, g.chans, rec, strings, |g.chans|);
    LongerEnd(s.store, st);
    PlacedLater(g.data, s.store.End(), st.End());
    if s.growing {
      BytesLonger(st, rec');
    } else {
      StreamPlaced(z, s.cfg, st, g.data, rec');
    }
    LongerEnd(st, t.store);
    LongerTrans(s.store, st, t.store);
    ChansLater(cs, gs0[gi].chans, st.End(), t.store.End());
    PlacedLater(g.data, st.End(), t.store.End());
    forall i | 0 <= i < |gs0|
      ensures GroupSits(t.groups[i], gs0[i], t.store.End())
    {
      if i == gi {
        SitsOf(g, t.groups[i], gs0[i], s.store.End(), t.store.End());
      } else {
        GroupLater(s.groups[i], gs0[i], s.store.End(), t.store.End());
      }
    }
    KeptLonger(s, h, gs0, t);
  }

  lemma BytesLonger(st: Store, b: Bytes)
    ensures Longer(st, st.Append(b))
  {
  }

  lemma KeptParts(s: State, h: Heap, gs0: seq<Group>)
    requires Kept(s, h, gs0)
    ensures |s.groups| == |gs0| && s.started && s.store.patches == []
    ensures forall i :: 0 <= i < |gs0| ==> GroupSits(s.groups[i], gs0[i], s.store.End())
    ensures s.growing ==> |gs0| == 1 && GrowSits(s.store, h, s.growAddr)
    ensures FileInv(s.store, h, OpenID(s), gs0, OpenLates(gs0, OpenAt(s)))
  {
    hide FileInv, GroupSits, GrowSits;
  }

  lemma SitsParts(g: Group, g0: Group, end: nat)
    requires GroupSits(g, g0, end)
    ensures Placed(g.data, end) && ChansSit(g.chans, g0.chans, end)
  {
  }

  lemma SitsOf(g: Group, g': Group, g0: Group, n: nat, m: nat)
    requires GroupSits(g, g0, n) && g'.dgAddr == g.dgAddr && g'.cgAddr == g.cgAddr
    requires Placed(g'.data, m) && ChansSit(g'.chans, g0.chans, m)
    ensures GroupSits(g', g0, m)
  {
  }

  /** Any history of calls on definitions keeps what begin wrote. */
  lemma {:induction false} RunKept(z: Zlib, s0: State, h: Heap, ops: seq<Op>)
    requires Defined(s0) && WellTyped(s0) && CanBegin(s0) && LegalOps(s0, ops)
    requires Kept(Begin(s0), h, Begin(s0).groups)
    ensures var s := Run(z, s0, ops);
            if s.started then Kept(s, h, Begin(s0).groups) && !s.closed else s == s0
    decreases |ops|
  {
    hide Kept, Begin, Defined, CanBegin, WellTyped, Step, LegalOp, SameShape;
    DefinedOpen(s0);
    if ops != [] {
      var init, op := ops[..|ops| - 1], ops[|ops| - 1];
      RunKept(z, s0, h, init);
      var s := Run(z, s0, init);
      assert LegalOp(s0, op);
      RunMore(z, s0, ops);
      StepKept(z, s0, h, s, op);
    }
  }

  lemma RunMore(z: Zlib, s0: State, ops: seq<Op>)
    requires WellTyped(s0) && LegalOps(s0, ops) && ops != []
    ensures var init, op := ops[..|ops| - 1], ops[|ops| - 1];
            && LegalOps(s0, init) && LegalOp(Run(z, s0, init), op)
            && Run(z, s0, ops) == Step(z, Run(z, s0, init), op)
  {
    hide Step, Begin;
  }

  lemma StepKept(z: Zlib, s0: State, h: Heap, s: State, op: Op)
    requires Defined(s0) && CanBegin(s0) && Kept(Begin(s0), h, Begin(s0).groups) && WellTyped(s) && LegalOp(s, op)
    requires if s.started then Kept(s, h, Begin(s0).groups) && !s.closed else s == s0
    ensures var t := Step(z, s, op);
            if t.started then Kept(t, h, Begin(s0).groups) && !t.closed else t == s0
  {
    hide Kept, Begin, CanBegin, WellTyped, AppendRecord, SameGroup, Restreamed;
    DefinedOpen(s0);
    BeginFields(s0);
    match op
    case Flush =>
      if s.started {
        FlushKept(s, h, Begin(s0).groups);
      } else {
        NothingFlushed(s0);
      }
    case Append(gi, rec, strings) =>
      BeginTyped(s);
      var s1 := if s.started then s else Begin(s);
      ChansCount(s, gi);
      RecordKept(z, s1, h, Begin(s0).groups, gi, rec, strings);
      AppendFields(z, s1, gi, rec, strings);
  }

  ghost predicate SameChanCount(s: State, t: State, gi: nat) {
    gi < |s.groups| == |t.groups| && |t.groups[gi].chans| == |s.groups[gi].chans|
  }

  lemma ChansCount(s: State, gi: nat)
    requires WellTyped(s) && gi < |s.groups| && (!s.started ==> CanBegin(s))
    ensures SameChanCount(s, if s.started then s else Begin(s), gi)
  {
    hide Begin;
    BeginTyped(s);
  }

  lemma AppendFields(z: Zlib, s: State, gi: nat, rec: Bytes, strings: seq<Bytes>)
    requires WellTyped(s) && gi < |s.groups| && |strings| == |s.groups[gi].chans|
    ensures var t := AppendRecord(z, s, gi, rec, strings); t.started == s.started && t.closed == s.closed
  {
    hide AppendStrings, AppendStream;
  }

  lemma NothingFlushed(s0: State)
    requires Defined(s0)
    ensures s0.(store := s0.store.Flushed()) == s0
  {
  }

  // ---- finalize ----

  /** Bytes were appended; patches may be pending. */
  ghost predicate Behind(st: Store, st': Store) { st'.disk == st.disk && st.buf <= st'.buf }

  lemma BehindTrans(s1: Store, s2: Store, s3: Store)
    requires Behind(s1, s2) && Behind(s2, s3)
    ensures Behind(s1, s3)
  {
    assert s3.buf[..|s1.buf|] == s2.buf[..|s1.buf|];
  }

  lemma {:induction false} ChansBehind(z: Zlib, compress: bool, st: Store, chans: seq<Chan>, n: nat)
    requires n <= |chans| && forall i :: 0 <= i < |chans| ==> |chans[i].sd.id| == 4
    ensures Behind(st, FinalizeChans(z, compress, st, chans, n))
  {
    hide LinkStream;
    if n > 0 {
      var c, st1 := chans[n - 1], FinalizeChans(z, compress, st, chans, n - 1);
      ChansBehind(z, compress, st, chans, n - 1);
      if c.def.vlsd {
        LinkBehind(z, compress, st1, c.sd);
        BehindTrans(st, st1, LinkStream(z, compress, st1, c.sd).0);
      }
    }
  }

  lemma LinkBehind(z: Zlib, compress: bool, st: Store, cs: Stream)
    requires |cs.id| == 4
    ensures Behind(st, LinkStream(z, compress, st, cs).0)
  {
    hide ChunkBlock, DLBlock;
    var (st1, cs1) := FlushChunk(z, compress, st, cs);
    if cs.buf != [] {
      PutPlaces(st, ChunkBlock(z, compress, cs));
    }
    if |cs1.segs| > 1 {
      ListId(cs1.segs);
      PutPlaces(st1, DLBlock(cs1.segs));
      BehindTrans(st, st1, st1.Put(DLBlock(cs1.segs)).0);
    }
  }

  lemma {:induction false} GroupsBehind(z: Zlib, s: State, n: nat)
    requires n <= |s.groups| && WellTyped(s)
    ensures Behind(s.store, FinalizeGroups(z, s, n))
  {
    hide LinkStream, FinalizeChans;
    if n > 0 {
      GroupsBehind(z, s, n - 1);
      var st, g := FinalizeGroups(z, s, n - 1), s.groups[n - 1];
      assert TypedGroup(g);
      var st1 :=
        if s.growing then st.AddPatch(s.growAddr + 8, HEADER_SIZE + s.growBytes)
        else LinkStream(z, s.cfg.compress, st, g.data).0.AddPatch(
               g.dgAddr + 24 + 16, LinkStream(z, s.cfg.compress, st, g.data).2);
      LinkBehind(z, s.cfg.compress, st, g.data);
      ChansBehind(z, s.cfg.compress, st1, g.chans, |g.chans|);
      BehindTrans(s.store, st, st1);
      BehindTrans(s.store, st1, FinalizeGroup(z, s, st, g));
    }
  }

  // ---- what finalize patches ----

  /** A link or counter of one group's blocks, as finalize sets it. */
  ghost predicate GroupPatch(p: Patch, g0: Group, growing: bool, end: nat) {
    || (!growing && p.off == g0.dgAddr + 24 + 16 && p.val <= end)
    || (p.off == g0.cgAddr + 24 + 6 * 8 + 8 && p.val < TWO_64)
    || exists ci: nat :: ci < |g0.chans| && ChanPatch(p, g0.chans[ci], end)
  }

  ghost predicate ChanPatch(p: Patch, c: Chan, end: nat) { p.off == c.cnAddr + 24 + 40 && p.val <= end }

  ghost predicate OwnPatch(p: Patch, gs0: seq<Group>, growing: bool, end: nat) {
    exists i: nat :: i < |gs0| && GroupPatch(p, gs0[i], growing, end)
  }

  /** The link of a string channel without a block in the file: it lands on the header block. */
  ghost predicate StrayPatch(p: Patch) { p.off == 24 + 40 && p.val % 8 == 0 }

  ghost predicate GrowPatch(p: Patch, s: State) {
    s.growing && p == Patch(s.growAddr + 8, HEADER_SIZE + s.growBytes)
  }

  ghost predicate AnyPatch(p: Patch, s: State, gs0: seq<Group>, stray: bool, end: nat) {
    GrowPatch(p, s) || OwnPatch(p, gs0, s.growing, end) || (stray && StrayPatch(p))
  }

  ghost predicate Pending(ps: seq<Patch>, s: State, gs0: seq<Group>, stray: bool, end: nat) {
    forall k :: 0 <= k < |ps| ==> AnyPatch(ps[k], s, gs0, stray, end)
  }

  /** A string channel came too late for the file. */
  ghost predicate StrayChan(g: Group, g0: Group, ci: nat) { |g0.chans| <= ci < |g.chans| && g.chans[ci].def.vlsd }

  ghost predicate Stray(s: State, gs0: seq<Group>) {
    exists i: nat, ci: nat :: i < |s.groups| == |gs0| && StrayChan(s.groups[i], gs0[i], ci)
  }

  lemma AnyLater(p: Patch, s: State, gs0: seq<Group>, stray: bool, n: nat, m: nat)
    requires AnyPatch(p, s, gs0, stray, n) && n <= m
    ensures AnyPatch(p, s, gs0, stray, m)
  {
    hide GrowPatch, StrayPatch;
    if OwnPatch(p, gs0, s.growing, n) {
      var i: nat :| i < |gs0| && GroupPatch(p, gs0[i], s.growing, n);
      GroupPatchLater(p, gs0[i], s.growing, n, m);
    }
  }

  lemma GroupPatchLater(p: Patch, g0: Group, growing: bool, n: nat, m: nat)
    requires GroupPatch(p, g0, growing, n) && n <= m
    ensures GroupPatch(p, g0, growing, m)
  {
    if ci: nat :| ci < |g0.chans| && ChanPatch(p, g0.chans[ci], n) {
      assert ChanPatch(p, g0.chans[ci], m);
    }
  }

  lemma PendingLater(ps: seq<Patch>, s: State, gs0: seq<Group>, stray: bool, n: nat, m: nat)
    requires Pending(ps, s, gs0, stray, n) && n <= m
    ensures Pending(ps, s, gs0, stray, m)
  {
    hide AnyPatch;
    forall k | 0 <= k < |ps|
      ensures AnyPatch(ps[k], s, gs0, stray, m)
    {
      AnyLater(ps[k], s, gs0, stray, n, m);
    }
  }

  lemma PendingMore(ps: seq<Patch>, p: Patch, s: State, gs0: seq<Group>, stray: bool, n: nat, m: nat)
    requires Pending(ps, s, gs0, stray, n) && n <= m && AnyPatch(p, s, gs0, stray, m)
    ensures Pending(ps + [p], s, gs0, stray, m)
  {
    hide AnyPatch;
    PendingLater(ps, s, gs0, stray, n, m);
  }

  /** The links of the first n channels of group i. */
  lemma {:induction false} ChansPending(z: Zlib, s: State, gs0: seq<Group>, i: nat, st: Store, n: nat)
    requires WellTyped(s) && i < |s.groups| == |gs0| && n <= |s.groups[i].chans|
    requires ChansSit(s.groups[i].chans, gs0[i].chans, st.End()) && TypedGroup(s.groups[i])
    requires Pending(st.patches, s, gs0, Stray(s, gs0), st.End())
    ensures var st' := FinalizeChans(z, s.cfg.compress, st, s.groups[i].chans, n);
            && st.End() <= st'.End() && Pending(st'.patches, s, gs0, Stray(s, gs0), st'.End())
            && st.patches <= st'.patches
            && ((exists ci: nat :: ci < n && StrayChan(s.groups[i], gs0[i], ci)) ==>
                 exists k: nat :: k < |st'.patches| && StrayPatch(st'.patches[k]))
  {
    hide LinkStream, WellTyped, Stray, Pending, AnyPatch, StrayPatch;
    var g, chans := s.groups[i], s.groups[i].chans;
    if n > 0 {
      ChansPending(z, s, gs0, i, st, n - 1);
      var st1, c := FinalizeChans(z, s.cfg.compress, st, chans, n - 1), chans[n - 1];
      if c.def.vlsd {
        assert Placed(c.sd, st.End());
        PlacedLater(c.sd, st.End(), st1.End());
        LinkPlaced(z, s.cfg.compress, st1, c.sd);
        var (st2, _, a) := LinkStream(z, s.cfg.compress, st1, c.sd);
        LongerEnd(st1, st2);
        var p := Patch(c.cnAddr + 24 + 40, a);
        LinkPending(s, gs0, i, n - 1, a, st2.End());
        PendingMore(st1.patches, p, s, gs0, Stray(s, gs0), st1.End(), st2.End());
        var ps := st1.patches + [p];
        if n - 1 >= |gs0[i].chans| {
          StrayIs(c, gs0[i].chans, n - 1, a);
          assert StrayPatch(ps[|st1.patches|]);
        }
      } else if ci: nat :| ci < n && StrayChan(g, gs0[i], ci) {
        assert ci < n - 1;
      }
    }
  }

  lemma StrayIs(c: Chan, cs0: seq<Chan>, ci: nat, a: nat)
    requires ChanSits(c, cs0, ci) && ci >= |cs0| && a % 8 == 0
    ensures StrayPatch(Patch(c.cnAddr + 24 + 40, a))
  {
  }

  lemma LinkPending(s: State, gs0: seq<Group>, i: nat, ci: nat, a: nat, end: nat)
    requires i < |s.groups| == |gs0| && ci < |s.groups[i].chans| && a <= end && a % 8 == 0
    requires ChanSits(s.groups[i].chans[ci], gs0[i].chans, ci) && s.groups[i].chans[ci].def.vlsd
    ensures AnyPatch(Patch(s.groups[i].chans[ci].cnAddr + 24 + 40, a), s, gs0, Stray(s, gs0), end)
  {
    hide GrowPatch;
    var p := Patch(s.groups[i].chans[ci].cnAddr + 24 + 40, a);
    if ci < |gs0[i].chans| {
      assert ChanPatch(p, gs0[i].chans[ci], end);
      assert GroupPatch(p, gs0[i], s.growing, end);
    } else {
      assert StrayChan(s.groups[i], gs0[i], ci);
      assert StrayPatch(p);
    }
  }

  /** What finalize does to the group's data link, or to the length of the open block. */
  function DataFinal(z: Zlib, s: State, st: Store, g: Group): Store
    requires |g.data.id| == 4
  {
    if s.growing then st.AddPatch(s.growAddr + 8, HEADER_SIZE + s.growBytes)
    else
      var (st0, _, a) := LinkStream(z, s.cfg.compress, st, g.data);
      st0.AddPatch(g.dgAddr + 24 + 16, a)
  }

  lemma DataPending(z: Zlib, s: State, gs0: seq<Group>, i: nat, st: Store)
    requires i < |s.groups| == |gs0| && (s.growing ==> i == 0)
    requires GroupSits(s.groups[i], gs0[i], st.End()) && Pending(st.patches, s, gs0, Stray(s, gs0), st.End())
    ensures |s.groups[i].data.id| == 4
    ensures var st1 := DataFinal(z, s, st, s.groups[i]);
            && st.End() <= st1.End() && Pending(st1.patches, s, gs0, Stray(s, gs0), st1.End())
            && st.patches <= st1.patches && ChansSit(s.groups[i].chans, gs0[i].chans, st1.End())
  {
    hide LinkStream, Stray, Pending, ChansSit, StrayPatch, ChanPatch;
    var g, stray := s.groups[i], Stray(s, gs0);
    PlacedId(g.data, st.End());
    if s.growing {
      PendingMore(st.patches, Patch(s.growAddr + 8, HEADER_SIZE + s.growBytes), s, gs0, stray, st.End(), st.End());
    } else {
      LinkPlaced(z, s.cfg.compress, st, g.data);
      var (st0, _, a) := LinkStream(z, s.cfg.compress, st, g.data);
      LongerEnd(st, st0);
      var p := Patch(g.dgAddr + 24 + 16, a);
      assert GroupPatch(p, gs0[i], s.growing, st0.End());
      PendingMore(st.patches, p, s, gs0, stray, st.End(), st0.End());
      ChansLater(g.chans, gs0[i].chans, st.End(), st0.End());
    }
  }

  lemma GroupPending(z: Zlib, s: State, gs0: seq<Group>, i: nat, st: Store)
    requires WellTyped(s) && i < |s.groups| == |gs0| && s.groups[i].count < TWO_64 && (s.growing ==> i == 0)
    requires GroupSits(s.groups[i], gs0[i], st.End()) && Pending(st.patches, s, gs0, Stray(s, gs0), st.End())
    ensures TypedGroup(s.groups[i])
    ensures var st' := FinalizeGroup(z, s, st, s.groups[i]);
            && st.End() <= st'.End() && Pending(st'.patches, s, gs0, Stray(s, gs0), st'.End())
            && st.patches <= st'.patches
            && ((exists ci: nat :: StrayChan(s.groups[i], gs0[i], ci)) ==>
                 exists k: nat :: k < |st'.patches| && StrayPatch(st'.patches[k]))
  {
    hide WellTyped, Stray, Pending, ChansSit, StrayPatch, AnyPatch, GroupSits, LinkStream, FinalizeChans, DataFinal;
    hide StrayChan, FinalizeGroup;
    OneTyped(s, i);
    var g, stray := s.groups[i], Stray(s, gs0);
    DataPending(z, s, gs0, i, st);
    var st1 := DataFinal(z, s, st, g);
    ChansPending(z, s, gs0, i, st1, |g.chans|);
    var st2 := FinalizeChans(z, s.cfg.compress, st1, g.chans, |g.chans|);
    var q := Patch(g.cgAddr + 24 + 6 * 8 + 8, g.count);
    GroupQueues(z, s, st, g);
    CountPending(s, gs0, i, st.End(), st2.End());
    PendingMore(st2.patches, q, s, gs0, stray, st2.End(), st2.End());
    StrayStays(g, gs0[i], st2.patches, q);
  }

  lemma OneTyped(s: State, i: nat)
    requires WellTyped(s) && i < |s.groups|
    ensures TypedGroup(s.groups[i])
  {
  }

  lemma GroupQueues(z: Zlib, s: State, st: Store, g: Group)
    requires TypedGroup(g)
    ensures var st2 := FinalizeChans(z, s.cfg.compress, DataFinal(z, s, st, g), g.chans, |g.chans|);
            FinalizeGroup(z, s, st, g)
            == st2.(patches := st2.patches + [Patch(g.cgAddr + 24 + 6 * 8 + 8, g.count)])
  {
    hide FinalizeChans, LinkStream;
  }

  lemma StrayStays(g: Group, g0: Group, ps: seq<Patch>, q: Patch)
    requires forall ci: nat :: ci < |g.chans| && StrayChan(g, g0, ci) ==>
               exists k: nat :: k < |ps| && StrayPatch(ps[k])
    ensures (exists ci: nat :: StrayChan(g, g0, ci)) ==>
              exists k: nat :: k < |ps + [q]| && StrayPatch((ps + [q])[k])
  {
    hide StrayPatch;
    if ci: nat :| StrayChan(g, g0, ci) {
      assert ci < |g.chans|;
      var k: nat :| k < |ps| && StrayPatch(ps[k]);
      assert StrayPatch((ps + [q])[k]);
    }
  }

  lemma CountPending(s: State, gs0: seq<Group>, i: nat, n: nat, end: nat)
    requires i < |s.groups| == |gs0| && s.groups[i].count < TWO_64 && GroupSits(s.groups[i], gs0[i], n)
    ensures AnyPatch(Patch(s.groups[i].cgAddr + 24 + 6 * 8 + 8, s.groups[i].count), s, gs0, Stray(s, gs0), end)
  {
    hide Stray, StrayPatch, ChansSit;
    assert GroupPatch(Patch(s.groups[i].cgAddr + 24 + 6 * 8 + 8, s.groups[i].count), gs0[i], s.growing, end);
  }

  /** Everything finalize patches is a link or counter of the file's own blocks, the length of the open data block, or,
      when a string channel came too late, the header block. */
  lemma {:induction false} FilePending(z: Zlib, s: State, gs0: seq<Group>, n: nat)
    requires WellTyped(s) && n <= |s.groups| == |gs0| && s.store.patches == [] && (s.growing ==> |gs0| == 1)
    requires forall i :: 0 <= i < |gs0| ==> GroupSits(s.groups[i], gs0[i], s.store.End()) && s.groups[i].count < TWO_64
    ensures var st := FinalizeGroups(z, s, n);
            && s.store.End() <= st.End() && Pending(st.patches, s, gs0, Stray(s, gs0), st.End())
            && ((exists i: nat, ci: nat :: i < n && StrayChan(s.groups[i], gs0[i], ci)) ==>
                 exists k: nat :: k < |st.patches| && StrayPatch(st.patches[k]))
  {
    hide WellTyped, Stray, FinalizeGroup, GroupSits, StrayPatch, AnyPatch, StrayChan;
    if n > 0 {
      FilePending(z, s, gs0, n - 1);
      var st := FinalizeGroups(z, s, n - 1);
      GroupLater(s.groups[n - 1], gs0[n - 1], s.store.End(), st.End());
      GroupPending(z, s, gs0, n - 1, st);
      var st' := FinalizeGroup(z, s, st, s.groups[n - 1]);
      if i: nat, ci: nat :| i < n && StrayChan(s.groups[i], gs0[i], ci) {
        if i < n - 1 {
          var k: nat :| k < |st.patches| && StrayPatch(st.patches[k]);
          assert StrayPatch(st'.patches[k]);
        }
      }
    }
  }

  // ---- the patched file ----

  /** The header block is overwritten when a string channel came too late: it no longer starts like a block. */
  lemma {:induction false} HeadDestroyed(f: Bytes, ps: seq<Patch>)
    requires InRange(|f|, ps) && forall k :: 0 <= k < |ps| ==> ps[k].off >= 72 || StrayPatch(ps[k])
    requires exists k: nat :: k < |ps| && StrayPatch(ps[k])
    ensures |Patched(f, ps)| == |f| >= 72 && Patched(f, ps)[64] % 8 == 0
    decreases |ps|
  {
    hide LE;
    var init, last := ps[..|ps| - 1], ps[|ps| - 1];
    PatchedLength(f, init);
    PatchedLength(f, ps);
    var g := Patched(f, init);
    WriteAtInside(g, last.off, LE(last.val, 8));
    if StrayPatch(last) {
      LowByte(last.val);
      assert Patched(f, ps)[64] == LE(last.val, 8)[0];
    } else {
      var k: nat :| k < |ps| && StrayPatch(ps[k]);
      assert StrayPatch(init[k]);
      HeadDestroyed(f, init);
      assert Patched(f, ps)[64] == g[64];
    }
  }

  lemma LowByte(v: nat)
    ensures |LE(v, 8)| == 8 && LE(v, 8)[0] == v % 256
    ensures v % 8 == 0 ==> (v % 256) % 8 == 0
  {
    assert v == v / 256 * 256 + v % 256;
    assert v % 8 == (v / 256 * 256 + v % 256) % 8;
    LEFirst(v, 8);
  }

  lemma LEFirst(v: nat, n: nat)
    requires n > 0
    ensures LE(v, n)[0] == v % 256
  {
  }

  /** A patch that touches none of the metadata. */
  lemma PatchElsewhere(st: Store, h: Heap, id: Bytes, gs: seq<Group>, lates: seq<Late>, off: nat, v: nat)
    requires FileInv(st, h, id, gs, lates) && |id| == ID_SIZE && ID_SIZE <= off && off + 8 <= st.End()
    requires forall k :: k in h ==> k + Size(h[k]) <= off
    ensures FileInv(st.AddPatch(off, v), h, id, gs, lates)
  {
    hide FileInv, GroupAt, NewGroups, HeadWrittenAs, StoreInv, KeptBut;
    FileParts(st, h, id, gs, lates);
    FileStoreInv(st, h, id, gs, lates);
    InvElsewhere(st, h, off, v);
    HeadElsewhere(st, h, id, NextDG(gs, 0), off, v);
    forall i | 0 <= i < |gs|
      ensures GroupAt(h, gs[i], NextDG(gs, i + 1), lates[i])
    {
      FileGroup(st, h, id, gs, lates, i);
    }
    FileOf(st.AddPatch(off, v), h, id, gs, lates);
  }

  lemma InvElsewhere(st: Store, h: Heap, off: nat, v: nat)
    requires StoreInv(st, h) && off + 8 <= st.End() && forall k :: k in h ==> k + Size(h[k]) <= off
    ensures StoreInv(st.AddPatch(off, v), h)
  {
    hide LE, WriteAt, Encode;
    ImageLength(st);
    PatchedSnoc(st.disk + st.buf, st.patches, Patch(off, v));
    forall k | k in h
      ensures BlockAt(st.AddPatch(off, v).Image(), k, h[k])
    {
      assert BlockAt(st.Image(), k, h[k]);
      AtFrame(st.Image(), k, Encode(h[k]), off, LE(v, 8));
    }
  }

  lemma HeadElsewhere(st: Store, h: Heap, id: Bytes, dgFirst: nat, off: nat, v: nat)
    requires HeadWrittenAs(st, h, id, dgFirst) && |id| == ID_SIZE && ID_SIZE <= off && off + 8 <= st.End()
    requires StoreInv(st.AddPatch(off, v), h)
    ensures HeadWrittenAs(st.AddPatch(off, v), h, id, dgFirst)
  {
    hide StoreInv;
    assert KeptBut(h, h, {});
    HeaderKept(st, h, st.AddPatch(off, v), h, off, v, id, dgFirst, {});
  }

  /** The patched eight bytes lie within a block of the metadata. */
  lemma OwnRange(st: Store, h: Heap, id: Bytes, gs: seq<Group>, lates: seq<Late>, p: Patch, growing: bool, end: nat)
    returns (a: nat)
    requires FileInv(st, h, id, gs, lates) && OwnPatch(p, gs, growing, end)
    ensures a in h && ID_SIZE <= a && a + 8 <= p.off && p.off + 8 <= a + Size(h[a]) <= st.End()
  {
    hide FileInv, StoreInv, GroupAt, GroupPatch, NewGroup;
    var i: nat :| i < |gs| && GroupPatch(p, gs[i], growing, end);
    FileGroup(st, h, id, gs, lates, i);
    FileStoreInv(st, h, id, gs, lates);
    a := GroupRange(h, gs[i], NextDG(gs, i + 1), lates[i], p, growing, end);
    BlockInside(st, h, a);
  }

  lemma GroupRange(h: Heap, g: Group, next: nat, late: Late, p: Patch, growing: bool, end: nat) returns (a: nat)
    requires GroupAt(h, g, next, late) && GroupPatch(p, g, growing, end)
    ensures a in h && a + 8 <= p.off && p.off + 8 <= a + Size(h[a])
  {
    hide GroupAt, ChanPatch;
    KeyKinds(h, g, next, late);
    DGLinks(h, g, next, late);
    if !growing && p.off == g.dgAddr + 24 + 16 {
      a := g.dgAddr;
    } else if p.off == g.cgAddr + 24 + 6 * 8 + 8 {
      a := g.cgAddr;
    } else {
      var ci: nat :| ci < |g.chans| && ChanPatch(p, g.chans[ci], end);
      a := g.chans[ci].cnAddr;
      CNLinks(h, g, next, late, ci);
      assert p.off == g.chans[ci].cnAddr + 24 + 40 by {
        ChanOff(p, g.chans[ci], end);
      }
    }
  }

  lemma ChanOff(p: Patch, c: Chan, end: nat)
    requires ChanPatch(p, c, end)
    ensures p.off == c.cnAddr + 24 + 40 && p.val <= end
  {
  }

  /** Counters within 64 bits, and in the growing layout the data link at the open block. */
  ghost predicate LatesFine(lates: seq<Late>, s: State) {
    forall i :: 0 <= i < |lates| ==> lates[i].count < TWO_64 && (s.growing ==> lates[i].data == s.growAddr)
  }

  ghost predicate AllBelow(h: Heap, a: nat) { forall k :: k in h ==> k + Size(h[k]) <= a }

  lemma OwnKept(st: Store, h: Heap, id: Bytes, gs: seq<Group>, lates: seq<Late>, p: Patch, s: State)
    returns (h': Heap, lates': seq<Late>)
    requires FileInv(st, h, id, gs, lates) && |id| == ID_SIZE && OwnPatch(p, gs, s.growing, st.End())
    requires LatesFine(lates, s)
    ensures FileInv(st.AddPatch(p.off, p.val), h', id, gs, lates') && SameSizes(h, h') && LatesFine(lates', s)
  {
    hide FileInv, KeptBut, SameSizes;
    assert |lates| == |gs| by { FileParts(st, h, id, gs, lates); }
    var i: nat :| i < |gs| && GroupPatch(p, gs[i], s.growing, st.End());
    if !s.growing && p.off == gs[i].dgAddr + 24 + 16 && p.val <= st.End() {
      h' := PatchDataLink(st, h, id, gs, lates, i, p.val);
      lates' := lates[i := lates[i].(data := p.val)];
    } else if p.off == gs[i].cgAddr + 24 + 6 * 8 + 8 && p.val < TWO_64 {
      h' := PatchCount(st, h, id, gs, lates, i, p.val);
      lates' := lates[i := lates[i].(count := p.val)];
    } else {
      var ci: nat :| ci < |gs[i].chans| && ChanPatch(p, gs[i].chans[ci], st.End());
      h' := PatchSignalLink(st, h, id, gs, lates, i, ci, p.val);
      lates' := lates[i := lates[i].(signals := lates[i].signals[ci := p.val])];
    }
  }

  /** Any number of finalize's patches leave the metadata tree intact. */
  lemma {:induction false} PatchesKept(st: Store, h: Heap, id: Bytes, gs: seq<Group>, lates: seq<Late>, ps: seq<Patch>,
                                       s: State) returns (h': Heap, lates': seq<Late>)
    requires FileInv(st, h, id, gs, lates) && |id| == ID_SIZE && st.patches == [] && LatesFine(lates, s)
    requires Pending(ps, s, gs, false, st.End())
    requires s.growing ==> ID_SIZE <= s.growAddr && s.growAddr + 24 <= st.End() && AllBelow(h, s.growAddr)
    ensures FileInv(st.(patches := ps), h', id, gs, lates') && SameSizes(h, h') && LatesFine(lates', s)
    decreases |ps|
  {
    hide FileInv, LatesFine, OwnPatch, SameSizes, AllBelow;
    if ps == [] {
      SizesSelf(h);
      assert st.(patches := ps) == st;
      h', lates' := h, lates;
    } else {
      var init, p := ps[..|ps| - 1], ps[|ps| - 1];
      var h1, lates1 := PatchesKept(st, h, id, gs, lates, init, s);
      var st1 := st.(patches := init);
      assert init + [p] == ps;
      assert st1.AddPatch(p.off, p.val) == st.(patches := ps);
      assert AnyPatch(p, s, gs, false, st.End());
      if GrowPatch(p, s) {
        BelowSizes(h, h1, s.growAddr);
        BelowMeans(h1, s.growAddr, p.off);
        PatchElsewhere(st1, h1, id, gs, lates1, p.off, p.val);
        h', lates' := h1, lates1;
      } else {
        h', lates' := OwnKept(st1, h1, id, gs, lates1, p, s);
        SizesTrans(h, h1, h');
      }
    }
  }

  lemma SizesSelf(h: Heap)
    ensures SameSizes(h, h)
  {
  }

  lemma SizesTrans(a: Heap, b: Heap, c: Heap)
    requires SameSizes(a, b) && SameSizes(b, c)
    ensures SameSizes(a, c)
  {
  }

  lemma BelowSizes(h: Heap, h': Heap, a: nat)
    requires SameSizes(h, h') && AllBelow(h, a)
    ensures AllBelow(h', a)
  {
  }

  lemma BelowMeans(h: Heap, a: nat, off: nat)
    requires AllBelow(h, a) && a <= off
    ensures forall k :: k in h ==> k + Size(h[k]) <= off
  {
  }

  /** Length of the open block once these patches are applied. */
  ghost function PatchedSize(ps: seq<Patch>, s: State): nat {
    if exists k :: 0 <= k < |ps| && GrowPatch(ps[k], s) then HEADER_SIZE + s.growBytes else HEADER_SIZE
  }

  /** The head of the open block has the length finalize patched, once it did. */
  lemma {:induction false} DataHeadPatched(f: Bytes, ps: seq<Patch>, s: State)
    requires s.growing && InRange(|f|, ps) && At(f, s.growAddr, HeadBytes(ID_DT, HEADER_SIZE, 0))
    requires forall k :: 0 <= k < |ps| ==> GrowPatch(ps[k], s) || ps[k].off + 8 <= s.growAddr
    ensures At(Patched(f, ps), s.growAddr, HeadBytes(ID_DT, PatchedSize(ps, s), 0))
    decreases |ps|
  {
    hide LE, WriteAt, HeadBytes;
    if ps != [] {
      var init, p := ps[..|ps| - 1], ps[|ps| - 1];
      DataHeadPatched(f, init, s);
      PatchedLength(f, init);
      var n := PatchedSize(init, s);
      var g, v := Patched(f, init), LE(p.val, 8);
      assert forall k :: 0 <= k < |init| ==> ps[k] == init[k];
      if GrowPatch(p, s) {
        assert GrowPatch(ps[|ps| - 1], s);
        AtInside(g, s.growAddr, HeadBytes(ID_DT, n, 0), p.off, v);
        HeadRelength(ID_DT, n, p.val);
      } else {
        AtFrame(g, s.growAddr, HeadBytes(ID_DT, n, 0), p.off, v);
      }
    }
  }
}
