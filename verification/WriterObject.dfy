/** The writer as the program runs it: one object whose fields every call updates, refining the state machine. */
module WriterObject {
  import opened Wire
  import opened Blocks
  import opened Meta
  import opened Zip
  import opened Store
  import opened WriterSpec
  import opened RowStamps

  class Writer {
    const z: Zlib
    const cfg: Config
    /** Bytes handed to the operating system, and bytes in the write buffer behind them. */
    var disk: Bytes
    var buf: Bytes
    var patches: seq<Patch>
    var groups: seq<Group>
    var started: bool
    var closed: bool
    var growing: bool
    var growAddr: nat
    var growBytes: nat

    function File(): Store
      reads this`disk, this`buf, this`patches
    {
      Store(disk, buf, patches)
    }

    function State(): State
      reads this
    {
      WriterSpec.State(cfg, File(), groups, started, closed, growing, growAddr, growBytes)
    }

    constructor (z: Zlib, cfg: Config)
      ensures this.z == z && State() == NewWriter(cfg)
    {
      this.z := z;
      this.cfg := if cfg.compress && cfg.chunkSize > MAX_DZ_CHUNK then cfg.(chunkSize := MAX_DZ_CHUNK) else cfg;
      disk, buf, patches, groups := [], [], [], [];
      started, closed, growing, growAddr, growBytes := false, false, false, 0, 0;
    }

    // ---- the end of the file ----

    method Write(b: Bytes) returns (addr: nat)
      modifies this`buf
      ensures File() == old(File()).Append(b) && addr == old(File()).End()
    {
      addr := |disk| + |buf|;
      buf := buf + b;
    }

    method Align8()
      modifies this`buf
      ensures File() == old(File()).Align()
    {
      var pad := (|disk| + |buf|) % 8;
      if pad != 0 {
        var _ := Write(Zeros(8 - pad));
      } else {
        assert buf + Zeros(0) == buf;
      }
    }

    /** writeBlock: composed bytes at the next multiple of 8. */
    method WriteAligned(bytes: Bytes) returns (addr: nat)
      modifies this`buf
      ensures File() == old(File()).Align().Append(bytes) && addr == old(File()).Align().End()
    {
      Align8();
      addr := Write(bytes);
    }

    method WriteBlock(b: Block) returns (addr: nat)
      requires |b.id| == 4
      modifies this`buf
      ensures (File(), addr) == old(File()).Put(b)
    {
      var bytes := Build(b.id, b.links, b.data);
      addr := WriteAligned(bytes);
    }

    method PatchLink(off: nat, val: nat)
      modifies this`patches
      ensures File() == old(File()).AddPatch(off, val)
    {
      patches := patches + [Patch(off, val)];
    }

    method FlushBuffer()
      modifies this`disk, this`buf
      ensures File() == old(File()).Flushed()
    {
      disk, buf := disk + buf, [];
    }

    /** Every pending patch in its order, on a flushed file. */
    method ApplyPatches()
      modifies this`disk, this`buf, this`patches
      ensures File() == old(File()).Applied()
    {
      hide LE, WriteAt;
      FlushBuffer();
      ghost var whole := disk;
      for i := 0 to |patches|
        invariant patches == old(patches) && buf == []
        invariant disk == Patched(whole, patches[..i])
      {
        assert patches[..i + 1][..i] == patches[..i];
        disk := WriteAt(disk, patches[i].off, LE(patches[i].val, 8));
      }
      assert patches[..|patches|] == patches;
      patches := [];
    }

    // ---- definitions ----

    /** NewGroup: refused once recording has started. */
    method NewGroup(name: Bytes, noMaster: bool) returns (ok: bool)
      modifies this`groups
      ensures State() == AddGroup(old(State()), OpenGroup(name, noMaster)) && ok == !started
      ensures ok ==> groups == old(groups) + [OpenGroup(name, noMaster)]
    {
      if started {
        return false;
      }
      groups := groups + [EmptyGroup(name)];
      if !noMaster {
        AddChannel(|groups| - 1, MasterDef([0x74], [0x73]));
      }
      return true;
    }

    /** add: the next channel of a group. */
    method AddChannel(gi: nat, def: ChanDef)
      requires gi < |groups|
      modifies this`groups
      ensures groups == old(groups)[gi := AddChan(old(groups)[gi], def)]
    {
      var g := groups[gi];
      var placed := def.(field := def.field.(byteOffset := g.recSize % TWO_32));
      groups := groups[gi := g.(chans := g.chans + [Chan(placed, NewStream(ID_SD, 0), 0)],
                                recSize := g.recSize + def.field.bitCount / 8)];
    }

    method SetLinearConversion(gi: nat, i: nat, conv: Linear)
      requires gi < |groups| && i < |groups[gi].chans|
      modifies this`groups
      ensures var c := old(groups)[gi].chans[i];
              groups == old(groups)[gi := old(groups)[gi].(chans :=
                          old(groups)[gi].chans[i := c.(def := c.def.(conv := Some(conv)))])]
    {
      var g := groups[gi];
      groups := groups[gi := g.(chans := g.chans[i := g.chans[i].(def := g.chans[i].def.(conv := Some(conv)))])];
    }

    method SetComment(gi: nat, i: nat, comment: Bytes)
      requires gi < |groups| && i < |groups[gi].chans|
      modifies this`groups
      ensures var c := old(groups)[gi].chans[i];
              groups == old(groups)[gi := old(groups)[gi].(chans :=
                          old(groups)[gi].chans[i := c.(def := c.def.(comment := comment))])]
    {
      var g := groups[gi];
      groups := groups[gi := g.(chans := g.chans[i := g.chans[i].(def := g.chans[i].def.(comment := comment))])];
    }

    // ---- metadata ----

    method WriteText(s: Bytes, optional: bool) returns (addr: nat)
      modifies this`buf
      ensures (File(), addr) == if optional then PutOptional(old(File()), s) else PutText(old(File()), s)
    {
      if optional && s == [] {
        return 0;
      }
      addr := WriteBlock(TextBlock(s));
    }

    method WriteChannel(d: ChanDef, next: nat) returns (addr: nat)
      modifies this`buf
      ensures (File(), addr) == WriteChan(old(File()), d, next)
    {
      hide Encode, TextBlock, CNBlock, CCBlock;
      var name := WriteText(d.name, false);
      var unit := WriteText(d.unit, true);
      var comment := WriteText(d.comment, true);
      var cc := 0;
      if d.conv.Some? {
        cc := WriteConversion(d.conv.value);
      }
      addr := WriteChannelBlock(next, name, cc, unit, comment, d.field);
    }

    method WriteConversion(c: Linear) returns (addr: nat)
      modifies this`buf
      ensures (File(), addr) == old(File()).Put(CCBlock(c))
    {
      hide Encode;
      addr := WriteBlock(CCBlock(c));
    }

    method WriteChannelBlock(next: nat, name: nat, cc: nat, unit: nat, comment: nat, f: Field) returns (addr: nat)
      modifies this`buf
      ensures (File(), addr) == old(File()).Put(CNBlock(next, name, cc, 0, unit, comment, f))
    {
      hide Encode;
      addr := WriteBlock(CNBlock(next, name, cc, 0, unit, comment, f));
    }

    /** Channel blocks from the last to the first, so that each can link to its successor. */
    method WriteChannels(defs: seq<Chan>) returns (chans: seq<Chan>, first: nat)
      modifies this`buf
      ensures (File(), chans, first) == WriteChans(old(File()), defs, |defs|, 0)
    {
      hide WriteChan;
      chans, first := defs, 0;
      var ci: nat := |defs|;
      while ci > 0
        invariant ci <= |chans| == |defs|
        invariant WriteChans(old(File()), defs, |defs|, 0) == WriteChans(File(), chans, ci, first)
      {
        ci := ci - 1;
        first := WriteChannel(chans[ci].def, first);
        chans := chans[ci := chans[ci].(cnAddr := first)];
      }
    }

    /** The channels of a group, then the group's own blocks. */
    method WriteGroupMeta(gi: nat, nextDG: nat)
      requires gi < |groups|
      modifies this`buf, this`groups
      ensures var (st, g) := WriteGroup(old(File()), old(groups)[gi], nextDG);
              File() == st && groups == old(groups)[gi := g]
    {
      hide Encode, WriteChans, TextBlock, CGBlock, DGBlock;
      var g := groups[gi];
      var chans, nextCN := WriteChannels(g.chans);
      var name := WriteText(g.name, false);
      var cg := WriteGroupBlock(nextCN, name, g.recSize);
      var dg := WriteDataGroupBlock(nextDG, cg);
      groups := groups[gi := g.(chans := chans, cgAddr := cg, dgAddr := dg)];
    }

    method WriteGroupBlock(cnFirst: nat, name: nat, recSize: nat) returns (addr: nat)
      modifies this`buf
      ensures (File(), addr) == old(File()).Put(CGBlock(cnFirst, name, 0, recSize))
    {
      hide Encode;
      addr := WriteBlock(CGBlock(cnFirst, name, 0, recSize));
    }

    method WriteDataGroupBlock(next: nat, cg: nat) returns (addr: nat)
      modifies this`buf
      ensures (File(), addr) == old(File()).Put(DGBlock(next, cg, 0))
    {
      hide Encode;
      addr := WriteBlock(DGBlock(next, cg, 0));
    }

    // ---- begin ----

    /** Identification, header, file history, comment. */
    method WriteFileHead()
      requires File() == Store([], [], [])
      modifies this`buf, this`patches
      ensures File() == WriteHead(cfg, growing)
    {
      hide *;
      var _ := Write(IDBytes(cfg.program, VERSION, VERSION_STRING, UnfinFlags(growing)));
      IDStored(old(File()), IDBytes(cfg.program, VERSION, VERSION_STRING, UnfinFlags(growing)));
      HeadIds(cfg.startNS, cfg.comment);
      var hd := WriteBlock(HDBlock(0, 0, 0, cfg.startNS));
      ghost var s1 := File();
      var md := WriteBlock(MDBlock(FHText()));
      ghost var s2 := File();
      HistoryId(md, cfg.startNS);
      var fh := WriteBlock(FHBlock(md, cfg.startNS));
      HeadSteps(cfg, growing, s1, hd, s2, md, File(), fh);
      PatchLink(hd + 24 + 8, fh);
      if cfg.comment != [] {
        var c := WriteBlock(MDBlock(cfg.comment));
        PatchLink(hd + 24 + 40, c);
      }
    }

    /** All groups from the last to the first. */
    method WriteAllGroups() returns (dgFirst: nat)
      modifies this`buf, this`groups
      ensures (File(), groups, dgFirst) == WriteGroups(old(File()), old(groups), |old(groups)|, 0)
    {
      hide WriteGroup;
      dgFirst := 0;
      var gi: nat := |groups|;
      while gi > 0
        invariant gi <= |groups| == |old(groups)|
        invariant WriteGroups(old(File()), old(groups), |old(groups)|, 0) == WriteGroups(File(), groups, gi, dgFirst)
      {
        gi := gi - 1;
        WriteGroupMeta(gi, dgFirst);
        dgFirst := groups[gi].dgAddr;
      }
    }

    /** Every group gets a fresh stream for its records; a group without channels stops the recording. */
    method StartStreams() returns (ok: bool)
      modifies this`groups
      ensures ok == CanBegin(old(State()))
      ensures ok ==> groups == RestreamedAll(old(groups))
      ensures PartlyStarted(groups, old(groups))
    {
      if groups == [] {
        return false;
      }
      var i := 0;
      while i < |groups|
        invariant i <= |groups| == |old(groups)|
        invariant forall k :: 0 <= k < i ==> old(groups)[k].recSize != 0 && groups[k] == Restreamed(old(groups)[k])
        invariant forall k :: i <= k < |groups| ==> groups[k] == old(groups)[k]
      {
        var g := groups[i];
        if g.recSize == 0 {
          return false;
        }
        groups := groups[i := g.(data := NewStream(ID_DT, g.recSize))];
        i := i + 1;
      }
      assert groups == RestreamedAll(old(groups));
      return true;
    }

    /** Head, groups, and the header's link to the first group. */
    method WriteMetadata(ghost s: State)
      requires File() == Store([], [], []) && cfg == s.cfg && growing == Growing(s) && groups == RestreamedAll(s.groups)
      modifies this`buf, this`patches, this`groups
      ensures (File(), groups) == WriteTree(s) && |groups| == |s.groups|
    {
      hide WriteHead, WriteGroups, RestreamedAll;
      WriteFileHead();
      RestreamedCount(s.groups);
      GroupsCount(WriteHead(cfg, growing), RestreamedAll(s.groups));
      var dgFirst := WriteAllGroups();
      PatchLink(ID_SIZE + 24, dgFirst);
    }

    method BeginRecording() returns (ok: bool)
      requires !started && File() == Store([], [], []) && !growing && growAddr == 0 && growBytes == 0
      modifies this`disk, this`buf, this`patches, this`groups, this`started, this`growing, this`growAddr
      ensures ok == CanBegin(old(State()))
      ensures ok ==> State() == Begin(old(State()))
      ensures !ok ==> !started && !growing && growAddr == 0 && File() == old(File())
      ensures !ok ==> PartlyStarted(groups, old(groups))
    {
      hide WriteTree, RestreamedAll, CanBegin, Encode, Restreamed, Patched, PartlyStarted, Begin;
      ok := StartStreams();
      if !ok {
        return;
      }
      RestreamedCount(old(groups));
      started := true;
      growing := |groups| == 1 && !cfg.compress;
      WriteMetadata(old(State()));
      BeginSteps(old(State()), File(), groups);
      if growing {
        growAddr := WriteBlock(Block(ID_DT, [], []));
        PatchLink(groups[0].dgAddr + 24 + 16, growAddr);
      }
      ApplyPatches();
    }

    // ---- streams ----

    /** The buffered bytes as one block, deflated when that is shorter. */
    method FlushChunkOf(cs: Stream) returns (r: Stream)
      requires |cs.id| == 4
      modifies this`buf
      ensures (File(), r) == FlushChunk(z, cfg.compress, old(File()), cs)
    {
      hide Encode, DZBlock;
      if cs.buf == [] {
        return cs;
      }
      var bytes := Build(cs.id, [], cs.buf);
      if cfg.compress {
        EncodedSize(Block(cs.id, [], cs.buf));
        var dz := BuildDZ(z, cs.id, cs.buf, cs.recSize);
        if dz.Some? {
          EncodedSize(DZBlock(z, cs.id, cs.buf, cs.recSize).value);
          if |dz.value| < |bytes| {
            bytes := dz.value;
          }
        }
      }
      var addr := WriteAligned(bytes);
      r := cs.(segs := cs.segs + [WSeg(addr, |cs.buf|)], buf := []);
    }

    method AppendToStream(cs: Stream, b: Bytes) returns (r: Stream)
      requires |cs.id| == 4
      modifies this`buf
      ensures (File(), r) == AppendStream(z, cfg, old(File()), cs, b)
    {
      hide FlushChunk;
      r := cs.(total := cs.total + |b|, buf := cs.buf + b);
      if |r.buf| >= cfg.chunkSize {
        r := FlushChunkOf(r);
      }
    }

    /** The list block of several segments: addresses and running offsets are filled in segment by segment. */
    method ListBlock(segs: seq<WSeg>) returns (b: Block)
      ensures b == DLBlock(segs)
    {
      hide LE, WriteAt, OffsetBytes, Addrs, Lengths;
      var links := new nat[1 + |segs|](_ => 0);
      var data := new Byte[8 + 8 * |segs|](_ => 0);
      assert data[..] == Zeros(8 + 8 * |segs|);
      PutLE(data, 4, |segs|, 4);
      ghost var head := Zeros(4) + LE(|segs|, 4);
      CountWritten(segs);
      NoSegs(segs);
      var off: nat := 0;
      for i := 0 to |segs|
        invariant links[..1 + i] == [0] + Addrs(segs[..i])
        invariant off == Lengths(segs[..i])
        invariant data[..] == head + OffsetBytes(segs[..i]) + Zeros(8 * (|segs| - i))
      {
        SegsSnoc(segs, i);
        links[1 + i] := segs[i].addr;
        assert links[..2 + i] == links[..1 + i] + [segs[i].addr];
        OffsetWritten(head, segs, i);
        PutLE(data, 8 + 8 * i, off, 8);
        off := off + segs[i].orgLen;
      }
      assert segs[..|segs|] == segs;
      b := Block(ID_DL, links[..], data[..]);
    }

    /** What the owning link should point at once the stream is complete. */
    method Link(cs: Stream) returns (addr: nat, r: Stream)
      requires |cs.id| == 4
      modifies this`buf
      ensures (File(), r, addr) == LinkStream(z, cfg.compress, old(File()), cs)
    {
      hide FlushChunk, DLBlock, Encode;
      r := FlushChunkOf(cs);
      if |r.segs| == 0 {
        return 0, r;
      }
      if |r.segs| == 1 {
        return r.segs[0].addr, r;
      }
      var b := ListBlock(r.segs);
      ListId(r.segs);
      addr := WriteBlock(b);
    }

    // ---- appending ----

    /** String fields lie inside the record, and nothing is in the file before recording starts. */
    ghost predicate Valid()
      reads this
    {
      && WellTyped(State()) && StringsInside(groups)
      && (!started ==> File() == Store([], [], []) && !growing && growAddr == 0 && growBytes == 0)
    }

    /** Strings join their signal data; their offsets are stamped into the record in place. */
    method AppendTexts(chans0: seq<Chan>, rec: array<Byte>, strings: seq<Bytes>) returns (chans: seq<Chan>)
      requires |chans0| == |strings| && forall i :: 0 <= i < |chans0| ==> |chans0[i].sd.id| == 4
      requires forall i :: 0 <= i < |chans0| && chans0[i].def.vlsd ==> chans0[i].def.field.byteOffset + 8 <= rec.Length
      modifies this`buf, rec
      ensures (File(), chans, rec[..]) == AppendStrings(z, cfg, old(File()), chans0, old(rec[..]), strings, |chans0|)
    {
      hide LE, WriteAt, AppendStream;
      chans := chans0;
      for i := 0 to |chans0|
        invariant |chans| == |chans0| && forall k :: 0 <= k < |chans| ==> |chans[k].sd.id| == 4
        invariant forall k :: 0 <= k < |chans| ==> chans[k].def == chans0[k].def
        invariant (File(), chans, rec[..]) == AppendStrings(z, cfg, old(File()), chans0, old(rec[..]), strings, i)
      {
        var c := chans[i];
        if c.def.vlsd {
          var s := strings[i];
          PutLE(rec, c.def.field.byteOffset, c.sd.total, 8);
          StreamShape(z, cfg, File(), c.sd, LE(|s|, 4));
          var sd := AppendToStream(c.sd, LE(|s|, 4));
          StreamShape(z, cfg, File(), sd, s);
          sd := AppendToStream(sd, s);
          chans := chans[i := c.(sd := sd)];
        }
      }
    }

    /** The first append begins the recording. */
    method EnsureBegun() returns (ok: bool)
      requires Valid()
      modifies this`disk, this`buf, this`patches, this`groups, this`started, this`growing, this`growAddr
      ensures Valid() && ok == (old(started) || CanBegin(old(State()))) && closed == old(closed)
      ensures ok ==> started
      ensures ok ==> State() == if old(started) then old(State()) else Begin(old(State()))
      ensures !ok ==> File() == old(File()) && !started
      ensures SameLayout(groups, old(groups))
    {
      hide Begin, CanBegin, SameGroup, Restreamed;
      if started {
        return true;
      }
      BeginTyped(State());
      ok := BeginRecording();
      if ok {
        BegunInside(old(State()));
      } else {
        RestartedInside(old(groups), groups);
      }
    }

    method AppendRow(gi: nat, rec: array<Byte>, strings: seq<Bytes>)
      requires Valid() && started && gi < |groups|
      requires rec.Length == groups[gi].recSize && |strings| == |groups[gi].chans|
      modifies this`buf, this`groups, this`growBytes, rec
      ensures Valid() && State() == AppendRecord(z, old(State()), gi, old(rec[..]), strings)
      ensures Differ(DefsOf(old(groups[gi].chans)), 0, rec[..], old(rec[..]))
    {
      hide AppendStrings, AppendStream, Differ;
      var g := groups[gi];
      TypedAt(State(), gi);
      AppendShape(z, State(), gi, rec[..], strings);
      StringsStayInside(z, State(), gi, rec[..], strings);
      StampsOnly(z, cfg, File(), g.chans, rec[..], strings, |g.chans|);
      var chans := AppendTexts(g.chans, rec, strings);
      groups := groups[gi := g.(chans := chans, count := g.count + 1)];
      if growing {
        growBytes := growBytes + rec.Length;
        var _ := Write(rec[..]);
      } else {
        var data := AppendToStream(g.data, rec[..]);
        groups := groups[gi := groups[gi].(data := data)];
      }
    }

    /** Append: nothing is written when recording cannot begin or the writer is closed. */
    method Append(gi: nat, rec: array<Byte>, strings: seq<Bytes>) returns (ok: bool)
      requires Valid() && gi < |groups| && rec.Length == groups[gi].recSize && |strings| == |groups[gi].chans|
      modifies this, rec
      ensures Valid()
      ensures ok <==> (old(started) || CanBegin(old(State()))) && !old(closed)
      ensures old(started) || CanBegin(old(State())) ==>
                State() == Step(z, old(State()), Op.Append(gi, old(rec[..]), strings))
      ensures !old(started) && !CanBegin(old(State())) ==> File() == old(File()) && !started
      ensures ok ==> started && !closed
      ensures Differ(DefsOf(old(groups[gi].chans)), 0, rec[..], old(rec[..]))
    {
      hide Begin, CanBegin, AppendRecord, WellTyped, StringsInside, Differ;
      BeginTyped(State());
      NoDifference(DefsOf(groups[gi].chans), rec[..]);
      ghost var defs := DefsOf(groups[gi].chans);
      ok := EnsureBegun();
      if !ok || closed {
        return false;
      }
      BegunDefs(old(State()), gi);
      AppendRow(gi, rec, strings);
    }

    method Flush()
      requires Valid()
      modifies this`disk, this`buf
      ensures Valid() && State() == Step(z, old(State()), Op.Flush)
    {
      FlushBuffer();
    }

    // ---- closing ----

    method CloseChannels(chans: seq<Chan>)
      requires forall i :: 0 <= i < |chans| ==> |chans[i].sd.id| == 4
      modifies this`buf, this`patches
      ensures File() == FinalizeChans(z, cfg.compress, old(File()), chans, |chans|)
    {
      hide LinkStream;
      for i := 0 to |chans|
        invariant File() == FinalizeChans(z, cfg.compress, old(File()), chans, i)
      {
        if chans[i].def.vlsd {
          var addr, _ := Link(chans[i].sd);
          PatchLink(chans[i].cnAddr + 24 + 40, addr);
        }
      }
    }

    method CloseGroup(g: Group)
      requires TypedGroup(g)
      modifies this`buf, this`patches
      ensures File() == FinalizeGroup(z, old(State()), old(File()), g)
    {
      hide LinkStream, FinalizeChans;
      if growing {
        PatchLink(growAddr + 8, HEADER_SIZE + growBytes);
      } else {
        var addr, _ := Link(g.data);
        PatchLink(g.dgAddr + 24 + 16, addr);
      }
      CloseChannels(g.chans);
      PatchLink(g.cgAddr + 24 + 6 * 8 + 8, g.count);
    }

    /** finalize: remaining chunks, lists and patches group by group; the identification block last. */
    method Finalize() returns (ok: bool)
      requires Valid()
      modifies this`disk, this`buf, this`patches, this`groups, this`started, this`growing, this`growAddr
      ensures ok == (old(started) || CanBegin(old(State()))) && closed == old(closed)
      ensures ok ==> var s1 := if old(started) then old(State()) else Begin(old(State()));
                     WellTyped(s1)
                     && State() == s1.(store := Prepared(z,
                                                         s1).Applied().(disk := WriteAt(Prepared(z, s1).Applied().disk,
                                                             0, FinalID(cfg))))
      ensures !ok ==> File() == old(File()) && !started
    {
      hide Begin, CanBegin, FinalizeGroup, FinalizeGroups, TypedGroup, StringsInside, IDBytes, Patched, WriteAt;
      BeginTyped(State());
      ok := EnsureBegun();
      if !ok {
        return;
      }
      ghost var s1 := State();
      FirstFinal(z, s1);
      for i := 0 to |groups|
        invariant groups == s1.groups && State() == s1.(store := FinalizeGroups(z, s1, i))
      {
        TypedAt(s1, i);
        SameFinal(z, s1, State(), File(), groups[i]);
        NextFinal(z, s1, i);
        CloseGroup(groups[i]);
      }
      ApplyPatches();
      disk := WriteAt(disk, 0, IDBytes(cfg.program, VERSION, VERSION_STRING, 0));
    }

    /** Close: finalizes once; a second call does nothing. */
    method Close()
      requires Valid()
      modifies this
      ensures closed
      ensures old(closed) || old(started) || CanBegin(old(State())) ==> State() == WriterSpec.Close(z, old(State()))
      ensures !old(closed) && !old(started) && !CanBegin(old(State())) ==> File() == old(File()) && !started
    {
      hide Begin, CanBegin, FinalizeGroups, StringsInside, FinalID, TypedGroup, WriteAt;
      if closed {
        return;
      }
      ghost var s0 := State();
      BeginTyped(s0);
      closed := true;
      CloseFlag(s0);
      if started || CanBegin(s0) {
        ghost var s1 := if started then s0 else Begin(s0);
        FinalFlag(z, s1, |s1.groups|);
      }
      var _ := Finalize();
    }
  }

  lemma FirstFinal(z: Zlib, s: State)
    requires WellTyped(s)
    ensures FinalizeGroups(z, s, 0) == s.store
  {
  }

  lemma NextFinal(z: Zlib, s: State, i: nat)
    requires WellTyped(s) && i < |s.groups| && TypedGroup(s.groups[i])
    ensures FinalizeGroups(z, s, i + 1) == FinalizeGroup(z, s, FinalizeGroups(z, s, i), s.groups[i])
  {
    hide FinalizeGroup, TypedGroup;
  }

  /** Finalizing a group looks at the layout, not at the file or the flags. */
  lemma SameFinal(z: Zlib, s: State, t: State, st: Store, g: Group)
    requires t == s.(store := t.store) && TypedGroup(g)
    ensures FinalizeGroup(z, s, st, g) == FinalizeGroup(z, t, st, g)
  {
    hide LinkStream, FinalizeChans;
  }

  lemma TreeFlag(s: State, t: State)
    requires t == s.(closed := true)
    ensures WriteTree(t) == WriteTree(s)
  {
    hide WriteHead, WriteGroups, RestreamedAll;
  }

  /** Being marked closed changes neither what begin writes nor what finalize writes. */
  lemma CloseFlag(s: State)
    requires WellTyped(s)
    ensures var t := s.(closed := true);
            && WellTyped(t) && (CanBegin(t) <==> CanBegin(s))
            && (CanBegin(s) ==> Begin(t) == Begin(s).(closed := true))
  {
    hide WriteTree, TypedGroup;
    TreeFlag(s, s.(closed := true));
  }

  lemma {:induction false} FinalFlag(z: Zlib, s: State, n: nat)
    requires WellTyped(s) && n <= |s.groups|
    ensures WellTyped(s.(closed := true))
    ensures FinalizeGroups(z, s.(closed := true), n) == FinalizeGroups(z, s, n)
  {
    hide TypedGroup, LinkStream, FinalizeChans;
    if n > 0 {
      FinalFlag(z, s, n - 1);
    }
  }

  ghost predicate StringsInside(groups: seq<Group>) {
    forall i, k :: 0 <= i < |groups| && 0 <= k < |groups[i].chans| && groups[i].chans[k].def.vlsd ==>
      groups[i].chans[k].def.field.byteOffset + 8 <= groups[i].recSize
  }

  /** The same record sizes and numbers of channels. */
  ghost predicate SameLayout(gs: seq<Group>, gs0: seq<Group>) {
    && |gs| == |gs0|
    && forall i :: 0 <= i < |gs| ==> gs[i].recSize == gs0[i].recSize && |gs[i].chans| == |gs0[i].chans|
  }

  /** What starting the streams leaves behind when a group has no record size: some of them started. */
  ghost predicate PartlyStarted(gs: seq<Group>, gs0: seq<Group>) {
    |gs| == |gs0| && forall k :: 0 <= k < |gs| ==> gs[k] == gs0[k] || gs[k] == Restreamed(gs0[k])
  }

  lemma TypedAt(s: State, gi: nat)
    requires WellTyped(s) && gi < |s.groups|
    ensures TypedGroup(s.groups[gi])
  {
  }

  lemma BegunInside(s: State)
    requires WellTyped(s) && CanBegin(s) && StringsInside(s.groups)
    ensures StringsInside(Begin(s).groups) && Begin(s).started && SameLayout(Begin(s).groups, s.groups)
  {
    hide *;
    BeginTyped(s);
    BeginStarted(s);
    ShapeInside(s.groups, Begin(s).groups);
  }

  lemma ShapeInside(gs0: seq<Group>, gs: seq<Group>)
    requires StringsInside(gs0) && |gs| == |gs0|
    requires forall i :: 0 <= i < |gs0| ==> SameGroup(gs[i], Restreamed(gs0[i]))
    ensures StringsInside(gs) && SameLayout(gs, gs0)
  {
  }

  /** What begin does once the tree is written. */
  lemma BeginSteps(s: State, st: Store, gs: seq<Group>)
    requires CanBegin(s) && (st, gs) == WriteTree(s) && |gs| == |s.groups|
    ensures Begin(s)
            == if Growing(s) then
                 var (st1, grow) := st.Put(Block(ID_DT, [], []));
                 var st2 := st1.AddPatch(gs[0].dgAddr + 24 + 16, grow).Applied();
                 WriterSpec.State(s.cfg, st2, gs, true, s.closed, true, grow, 0)
               else WriterSpec.State(s.cfg, st.Applied(), gs, true, s.closed, false, 0, 0)
  {
    hide WriteTree, Encode, Patched;
  }

  lemma BeginStarted(s: State)
    requires CanBegin(s)
    ensures Begin(s).started
  {
    hide WriteTree;
  }

  lemma RestartedInside(before: seq<Group>, after: seq<Group>)
    requires PartlyStarted(after, before)
    ensures StringsInside(before) ==> StringsInside(after)
    ensures SameLayout(after, before)
    ensures (forall i :: 0 <= i < |before| ==> TypedGroup(before[i])) ==> forall i :: 0 <= i < |after| ==>
            TypedGroup(after[i])
  {
  }

  lemma StringsStayInside(z: Zlib, s: State, gi: nat, rec: Bytes, strings: seq<Bytes>)
    requires WellTyped(s) && gi < |s.groups| && |strings| == |s.groups[gi].chans| && StringsInside(s.groups)
    ensures StringsInside(AppendRecord(z, s, gi, rec, strings).groups)
  {
    hide AppendStrings, AppendStream;
    TypedAt(s, gi);
    AppendedDefs(z, s.cfg, s.store, s.groups[gi].chans, rec, strings, |strings|);
  }

  lemma NoSegs(segs: seq<WSeg>)
    ensures Addrs(segs[..0]) == [] && Lengths(segs[..0]) == 0
  {
  }

  lemma SegsSnoc(segs: seq<WSeg>, i: nat)
    requires i < |segs|
    ensures Addrs(segs[..i + 1]) == Addrs(segs[..i]) + [segs[i].addr]
    ensures Lengths(segs[..i + 1]) == Lengths(segs[..i]) + segs[i].orgLen
  {
    assert segs[..i + 1][..i] == segs[..i];
  }

  lemma CountWritten(segs: seq<WSeg>)
    ensures WriteAt(Zeros(8 + 8 * |segs|), 4, LE(|segs|, 4))
            == Zeros(4) + LE(|segs|, 4) + OffsetBytes(segs[..0]) + Zeros(8 * |segs|)
  {
    hide LE;
    WriteAtInside(Zeros(8 + 8 * |segs|), 4, LE(|segs|, 4));
    assert OffsetBytes(segs[..0]) == [];
  }

  lemma OffsetWritten(head: Bytes, segs: seq<WSeg>, i: nat)
    requires i < |segs| && |head| == 8
    ensures WriteAt(head + OffsetBytes(segs[..i]) + Zeros(8 * (|segs| - i)), 8 + 8 * i, LE(Lengths(segs[..i]), 8))
            == head + OffsetBytes(segs[..i + 1]) + Zeros(8 * (|segs| - (i + 1)))
  {
    hide LE, WriteAt;
    var done, rest, v := head + OffsetBytes(segs[..i]), Zeros(8 * (|segs| - i)), LE(Lengths(segs[..i]), 8);
    assert segs[..i + 1][..i] == segs[..i];
    WriteAtInside(done + rest, 8 + 8 * i, v);
    assert (done + rest)[..8 + 8 * i] == done;
    assert (done + rest)[8 + 8 * i + 8..] == Zeros(8 * (|segs| - (i + 1)));
    assert OffsetBytes(segs[..i + 1]) == OffsetBytes(segs[..i]) + v;
  }

  lemma ListId(segs: seq<WSeg>)
    ensures |DLBlock(segs).id| == 4
  {
  }

  lemma EncodedSize(b: Block)
    requires |b.id| == 4
    ensures |Encode(b)| == Size(b)
  {
  }

  lemma HeadIds(startNS: nat, comment: Bytes)
    ensures |HDBlock(0, 0, 0, startNS).id| == 4 && |MDBlock(FHText()).id| == 4 && |MDBlock(comment).id| == 4
  {
    hide FHText;
  }

  lemma IDStored(st: Store, id: Bytes)
    requires st == Store([], [], [])
    ensures st.Append(id) == Store([], id, [])
  {
    assert [] + id == id;
  }

  /** The blocks in front of the groups, one after the other. */
  lemma HeadSteps(cfg: Config, growing: bool, s1: Store, hd: nat, s2: Store, md: nat, s3: Store, fh: nat)
    requires |HDBlock(0, 0, 0, cfg.startNS).id| == 4 && |FHBlock(md, cfg.startNS).id| == 4
    requires |MDBlock(FHText()).id| == 4 && |MDBlock(cfg.comment).id| == 4
    requires var id := IDBytes(cfg.program, VERSION, VERSION_STRING, UnfinFlags(growing));
             (s1, hd) == Store([], id, []).Put(HDBlock(0, 0, 0, cfg.startNS))
    requires (s2, md) == s1.Put(MDBlock(FHText())) && (s3, fh) == s2.Put(FHBlock(md, cfg.startNS))
    ensures var s4 := s3.AddPatch(hd + 24 + 8, fh);
            WriteHead(cfg, growing)
            == if cfg.comment == [] then s4
               else var (s5, c) := s4.Put(MDBlock(cfg.comment)); s5.AddPatch(hd + 24 + 40, c)
  {
    hide Encode, FHText, MDBlock, HDBlock, FHBlock, IDBytes, UnfinFlags;
  }

  lemma HistoryId(md: nat, startNS: nat)
    ensures |FHBlock(md, startNS).id| == 4
  {
  }

  lemma RestreamedCount(gs: seq<Group>)
    ensures |RestreamedAll(gs)| == |gs|
  {
  }

  lemma GroupsCount(st: Store, gs: seq<Group>)
    ensures |WriteGroups(st, gs, |gs|, 0).1| == |gs|
  {
    WriteGroupsShape(st, gs, |gs|, 0);
  }
}
