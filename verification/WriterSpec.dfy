/** The writer as a state machine: definitions, begin, Append, Flush and Close on the bytes of the file. */
module WriterSpec {
  import opened Wire
  import opened Blocks
  import opened Meta
  import opened Zip
  import opened Store

  datatype Config = Config(startNS: nat, program: Bytes, comment: Bytes, compress: bool, chunkSize: nat)

  const MAX_DZ_CHUNK: nat := 0x40_0000

  /** NewWriter caps the chunk size when compressing. */
  function Capped(cfg: Config): Config {
    if cfg.compress && cfg.chunkSize > MAX_DZ_CHUNK then cfg.(chunkSize := MAX_DZ_CHUNK) else cfg
  }

  datatype WSeg = WSeg(addr: nat, orgLen: nat)

  /** Bytes accumulated for one link, with the blocks already written for it. */
  datatype Stream = Stream(id: Bytes, recSize: nat, buf: Bytes, segs: seq<WSeg>, total: nat)

  datatype ChanDef = ChanDef(name: Bytes, unit: Bytes, comment: Bytes, field: Field, conv: Option<Linear>, vlsd: bool)

  datatype Chan = Chan(def: ChanDef, sd: Stream, cnAddr: nat)

  datatype Group = Group(name: Bytes, recSize: nat, chans: seq<Chan>, count: nat, data: Stream, cgAddr: nat,
                         dgAddr: nat)

  datatype State = State(cfg: Config, store: Store, groups: seq<Group>, started: bool, closed: bool,
                         growing: bool, growAddr: nat, growBytes: nat)

  function NewStream(id: Bytes, recSize: nat): Stream { Stream(id, recSize, [], [], 0) }

  // ---- definitions ----

  const CN_FIXED: Byte := 0
  const CN_VLSD: Byte := 1
  const CN_MASTER: Byte := 2
  const SYNC_TIME: Byte := 1
  const DT_UINT: Byte := 0
  const DT_INT: Byte := 2
  const DT_FLOAT: Byte := 4
  const DT_UTF8: Byte := 7

  /** add: the next channel starts where the record ended and makes it longer by its whole bytes. */
  function AddChan(g: Group, def: ChanDef): Group {
    var placed := def.(field := def.field.(byteOffset := g.recSize % TWO_32));
    g.(chans := g.chans + [Chan(placed, NewStream(ID_SD, 0), 0)], recSize := g.recSize + def.field.bitCount / 8)
  }

  function NewWriter(cfg: Config): State {
    State(Capped(cfg), Store([], [], []), [], false, false, false, 0, 0)
  }

  function EmptyGroup(name: Bytes): Group {
    Group(name, 0, [], 0, NewStream(ID_DT, 0), 0, 0)
  }

  function MasterDef(name: Bytes, unit: Bytes): ChanDef {
    ChanDef(name, unit, [], Field(CN_MASTER, SYNC_TIME, DT_FLOAT, 0, 64), None, false)
  }

  /** NewGroup: a group starts with the time master "t" in "s", unless it is to have none. */
  function OpenGroup(name: Bytes, noMaster: bool): Group {
    if noMaster then EmptyGroup(name) else AddChan(EmptyGroup(name), MasterDef([0x74], [0x73]))
  }

  function AddGroup(s: State, g: Group): State {
    if s.started then s else s.(groups := s.groups + [g])
  }

  /** Channels lie one behind the other and fill the record. */
  ghost predicate Tiled(chans: seq<Chan>, recSize: nat) {
    if chans == [] then recSize == 0
    else
      var last := chans[|chans| - 1].def.field;
      last.byteOffset + last.bitCount / 8 == recSize && Tiled(chans[..|chans| - 1], last.byteOffset)
  }

  ghost predicate FreshChan(c: Chan) {
    && c.sd == NewStream(ID_SD, 0) && c.cnAddr == 0
    && (c.def.vlsd ==> c.def.field.bitCount == 64)
    && c.def.field.bitCount < TWO_32
    && (c.def.conv.Some? ==> c.def.conv.value.a < TWO_64 && c.def.conv.value.b < TWO_64)
  }

  /** A group as NewGroup and the channel methods leave it. Records are shorter than 2^32 bytes: the format
      stores their size in 32 bits. */
  ghost predicate FreshGroup(g: Group) {
    && g.count == 0 && g.data.segs == [] && g.data.buf == []
    && 0 < g.recSize < TWO_32 && Tiled(g.chans, g.recSize)
    && forall i :: 0 <= i < |g.chans| ==> FreshChan(g.chans[i])
  }

  lemma AddChanTiles(g: Group, def: ChanDef)
    requires Tiled(g.chans, g.recSize) && g.recSize < TWO_32
    ensures Tiled(AddChan(g, def).chans, AddChan(g, def).recSize)
  {
    assert AddChan(g, def).chans[..|g.chans|] == g.chans;
  }

  // ---- metadata ----

  function PutText(st: Store, s: Bytes): (Store, nat) {
    st.Put(TextBlock(s))
  }

  /** Absent texts are not written and leave a NIL link. */
  function PutOptional(st: Store, s: Bytes): (Store, nat) {
    if s == [] then (st, 0) else PutText(st, s)
  }

  function PutConv(st: Store, c: Option<Linear>): (Store, nat) {
    match c
    case None => (st, 0)
    case Some(l) => st.Put(CCBlock(l))
  }

  function WriteChan(st: Store, d: ChanDef, next: nat): (Store, nat) {
    var (s1, name) := PutText(st, d.name);
    var (s2, unit) := PutOptional(s1, d.unit);
    var (s3, comment) := PutOptional(s2, d.comment);
    var (s4, cc) := PutConv(s3, d.conv);
    s4.Put(CNBlock(next, name, cc, 0, unit, comment, d.field))
  }

  /** Channels n-1 down to 0, so that every next link points at a block already written. */
  function WriteChans(st: Store, chans: seq<Chan>, n: nat, next: nat): (Store, seq<Chan>, nat)
    requires n <= |chans|
    decreases n
  {
    if n == 0 then (st, chans, next)
    else
      var (s1, a) := WriteChan(st, chans[n - 1].def, next);
      WriteChans(s1, chans[n - 1 := chans[n - 1].(cnAddr := a)], n - 1, a)
  }

  function WriteGroup(st: Store, g: Group, next: nat): (Store, Group) {
    var (s1, chans, cnFirst) := WriteChans(st, g.chans, |g.chans|, 0);
    var (s2, name) := PutText(s1, g.name);
    var (s3, cg) := s2.Put(CGBlock(cnFirst, name, 0, g.recSize));
    var (s4, dg) := s3.Put(DGBlock(next, cg, 0));
    (s4, g.(chans := chans, cgAddr := cg, dgAddr := dg))
  }

  function WriteGroups(st: Store, gs: seq<Group>, n: nat, next: nat): (Store, seq<Group>, nat)
    requires n <= |gs|
    decreases n
  {
    if n == 0 then (st, gs, next)
    else
      var (s1, g) := WriteGroup(st, gs[n - 1], next);
      WriteGroups(s1, gs[n - 1 := g], n - 1, g.dgAddr)
  }

  const VERSION: nat := 410
  const VERSION_STRING: Bytes := [0x34, 0x2E, 0x31, 0x30]

  predicate CanBegin(s: State) {
    s.groups != [] && forall i :: 0 <= i < |s.groups| ==> s.groups[i].recSize != 0
  }

  predicate Growing(s: State) {
    |s.groups| == 1 && !s.cfg.compress
  }

  /** Bit 0: cycle counters open; bit 2: length of the last DT block open (growing layout). */
  function UnfinFlags(growing: bool): nat {
    if growing then 5 else 1
  }

  function Ascii(s: string): Bytes {
    seq(|s|, i requires 0 <= i < |s| => s[i] as int % 256)
  }

  /** The creator's entry in the file history. */
  function FHText(): Bytes {
    Ascii("<FHcomment><TX>created</TX><tool_id>GoMDF</tool_id>")
    + Ascii("<tool_vendor>GoMDF</tool_vendor><tool_version>2</tool_version></FHcomment>")
  }

  function FHBlock(md: nat, startNS: nat): Block {
    Block(ID_FH, [0, md], LE(startNS, 8) + Zeros(8))
  }

  function MDBlock(s: Bytes): Block { Block(ID_MD, [], TextData(s)) }

  /** Identification, header, file history and optional comment. */
  function WriteHead(cfg: Config, growing: bool): Store {
    var s0 := Store([], IDBytes(cfg.program, VERSION, VERSION_STRING, UnfinFlags(growing)), []);
    var (s1, hd) := s0.Put(HDBlock(0, 0, 0, cfg.startNS));
    var (s2, md) := s1.Put(MDBlock(FHText()));
    var (s3, fh) := s2.Put(FHBlock(md, cfg.startNS));
    var s4 := s3.AddPatch(hd + 24 + 8, fh);
    if cfg.comment == [] then s4
    else
      var (s5, c) := s4.Put(MDBlock(cfg.comment));
      s5.AddPatch(hd + 24 + 40, c)
  }

  function Restreamed(g: Group): Group {
    g.(data := NewStream(ID_DT, g.recSize))
  }

  function RestreamedAll(gs: seq<Group>): (r: seq<Group>)
    ensures |r| == |gs| && forall i :: 0 <= i < |gs| ==> r[i] == Restreamed(gs[i])
  {
    seq(|gs|, i requires 0 <= i < |gs| => Restreamed(gs[i]))
  }

  /** Head, groups, and the header's link to the first group. */
  function WriteTree(s: State): (Store, seq<Group>) {
    var blank := RestreamedAll(s.groups);
    var (st, gs, dgFirst) := WriteGroups(WriteHead(s.cfg, Growing(s)), blank, |blank|, 0);
    (st.AddPatch(ID_SIZE + 24, dgFirst), gs)
  }

  /** begin: the whole metadata tree is written and its links are patched before any record. */
  function Begin(s: State): State
    requires CanBegin(s)
  {
    var (st, gs) := WriteTree(s);
    if Growing(s) then
      var (st1, grow) := st.Put(Block(ID_DT, [], []));
      var st2 := st1.AddPatch(NextDG(gs, 0) + 24 + 16, grow);
      State(s.cfg, st2.Applied(), gs, true, s.closed, true, grow, 0)
    else
      State(s.cfg, st.Applied(), gs, true, s.closed, false, 0, 0)
  }

  /** Address of data group i, NIL past the last one. */
  function NextDG(gs: seq<Group>, i: nat): nat {
    if i < |gs| then gs[i].dgAddr else 0
  }

  // ---- data ----

  /** One DT/SD block, or a DZ block when compressing pays off. */
  function ChunkBlock(z: Zlib, compress: bool, cs: Stream): (b: Block)
    requires |cs.id| == 4
    ensures |b.id| == 4
  {
    var plain := Block(cs.id, [], cs.buf);
    var dz := DZBlock(z, cs.id, cs.buf, cs.recSize);
    if compress && dz.Some? && Size(dz.value) < Size(plain) then dz.value else plain
  }

  function FlushChunk(z: Zlib, compress: bool, st: Store, cs: Stream): (Store, Stream)
    requires |cs.id| == 4
  {
    if cs.buf == [] then (st, cs)
    else
      var (st', a) := st.Put(ChunkBlock(z, compress, cs));
      (st', cs.(segs := cs.segs + [WSeg(a, |cs.buf|)], buf := []))
  }

  function AppendStream(z: Zlib, cfg: Config, st: Store, cs: Stream, b: Bytes): (Store, Stream)
    requires |cs.id| == 4
  {
    var cs' := cs.(total := cs.total + |b|, buf := cs.buf + b);
    if |cs'.buf| >= cfg.chunkSize then FlushChunk(z, cfg.compress, st, cs') else (st, cs')
  }

  /** The first n channels' strings go to their signal data; the record keeps their offsets. */
  function AppendStrings(z: Zlib, cfg: Config, st: Store, chans: seq<Chan>, rec: Bytes, strings: seq<Bytes>, n: nat)
    : (r: (Store, seq<Chan>, Bytes))
    requires n <= |chans| == |strings| && forall i :: 0 <= i < |chans| ==> |chans[i].sd.id| == 4
    ensures |r.1| == |chans| && forall i :: 0 <= i < |chans| ==> |r.1[i].sd.id| == 4
  {
    if n == 0 then (st, chans, rec)
    else
      var (st1, cs, rec1) := AppendStrings(z, cfg, st, chans, rec, strings, n - 1);
      var c := cs[n - 1];
      if !c.def.vlsd then (st1, cs, rec1)
      else
        var s := strings[n - 1];
        var rec2 := WriteAt(rec1, c.def.field.byteOffset, LE(c.sd.total, 8));
        var (st2, sd2) := AppendStream(z, cfg, st1, c.sd, LE(|s|, 4));
        var (st3, sd3) := AppendStream(z, cfg, st2, sd2, s);
        (st3, cs[n - 1 := c.(sd := sd3)], rec2)
  }

  datatype Op = Append(g: nat, rec: Bytes, strings: seq<Bytes>) | Flush

  ghost predicate LegalOp(s: State, op: Op) {
    op.Append? ==>
      op.g < |s.groups| && |op.rec| == s.groups[op.g].recSize && |op.strings| == |s.groups[op.g].chans|
  }

  ghost predicate TypedGroup(g: Group) {
    |g.data.id| == 4 && forall j :: 0 <= j < |g.chans| ==> |g.chans[j].sd.id| == 4
  }

  ghost predicate WellTyped(s: State) {
    forall i :: 0 <= i < |s.groups| ==> TypedGroup(s.groups[i])
  }

  function AppendRecord(z: Zlib, s: State, gi: nat, rec: Bytes, strings: seq<Bytes>): State
    requires WellTyped(s) && gi < |s.groups| && |strings| == |s.groups[gi].chans|
  {
    var g := s.groups[gi];
    var (st, chans, rec') := AppendStrings(z, s.cfg, s.store, g.chans, rec, strings, |g.chans|);
    var g1 := g.(chans := chans, count := g.count + 1);
    if s.growing then
      s.(store := st.Append(rec'), groups := s.groups[gi := g1], growBytes := s.growBytes + |rec'|)
    else
      var (st', data) := AppendStream(z, s.cfg, st, g.data, rec');
      s.(store := st', groups := s.groups[gi := g1.(data := data)])
  }

  // ---- finalization ----

  function OffsetBytes(segs: seq<WSeg>): (r: Bytes)
    ensures |r| == 8 * |segs|
  {
    if segs == [] then []
    else OffsetBytes(segs[..|segs| - 1]) + LE(Lengths(segs[..|segs| - 1]), 8)
  }

  function Lengths(segs: seq<WSeg>): nat {
    if segs == [] then 0 else Lengths(segs[..|segs| - 1]) + segs[|segs| - 1].orgLen
  }

  function Addrs(segs: seq<WSeg>): (r: seq<nat>)
    ensures |r| == |segs|
  {
    seq(|segs|, i requires 0 <= i < |segs| => segs[i].addr)
  }

  function DLBlock(segs: seq<WSeg>): Block {
    Block(ID_DL, [0] + Addrs(segs), Zeros(4) + LE(|segs|, 4) + OffsetBytes(segs))
  }

  /** What the owning link points at: nothing, the one data block, or a list of them. */
  function LinkStream(z: Zlib, compress: bool, st: Store, cs: Stream): (Store, Stream, nat)
    requires |cs.id| == 4
  {
    var (st', cs') := FlushChunk(z, compress, st, cs);
    if |cs'.segs| == 0 then (st', cs', 0)
    else if |cs'.segs| == 1 then (st', cs', cs'.segs[0].addr)
    else
      var (st'', a) := st'.Put(DLBlock(cs'.segs));
      (st'', cs', a)
  }

  function FinalizeChans(z: Zlib, compress: bool, st: Store, chans: seq<Chan>, n: nat): Store
    requires n <= |chans| && forall i :: 0 <= i < |chans| ==> |chans[i].sd.id| == 4
  {
    if n == 0 then st
    else
      var st1 := FinalizeChans(z, compress, st, chans, n - 1);
      var c := chans[n - 1];
      if !c.def.vlsd then st1
      else
        var (st2, _, a) := LinkStream(z, compress, st1, c.sd);
        st2.AddPatch(c.cnAddr + 24 + 40, a)
  }

  function FinalizeGroup(z: Zlib, s: State, st: Store, g: Group): Store
    requires TypedGroup(g)
  {
    var st1 :=
      if s.growing then st.AddPatch(s.growAddr + 8, HEADER_SIZE + s.growBytes)
      else
        var (st0, _, a) := LinkStream(z, s.cfg.compress, st, g.data);
        st0.AddPatch(g.dgAddr + 24 + 16, a);
    var st2 := FinalizeChans(z, s.cfg.compress, st1, g.chans, |g.chans|);
    st2.AddPatch(g.cgAddr + 24 + 6 * 8 + 8, g.count)
  }

  function FinalizeGroups(z: Zlib, s: State, n: nat): Store
    requires n <= |s.groups| && WellTyped(s)
  {
    if n == 0 then s.store else FinalizeGroup(z, s, FinalizeGroups(z, s, n - 1), s.groups[n - 1])
  }

  /** Everything finalize appends and every patch it queues, before patches are applied. */
  function Prepared(z: Zlib, s: State): Store
    requires WellTyped(s)
  {
    FinalizeGroups(z, s, |s.groups|)
  }

  function FinalID(cfg: Config): (r: Bytes)
    ensures |r| == ID_SIZE
  {
    IDBytes(cfg.program, VERSION, VERSION_STRING, 0)
  }

  /** Close: finalize once; the identification block is rewritten last. */
  function Close(z: Zlib, s: State): State
    requires WellTyped(s)
  {
    if s.closed then s
    else if !s.started && !CanBegin(s) then s.(closed := true)
    else
      var s1 := if s.started then s else Begin(s);
      BeginTyped(s);
      var st := Prepared(z, s1).Applied();
      s1.(closed := true, store := st.(disk := WriteAt(st.disk, 0, FinalID(s.cfg))))
  }

  /** One call of the public interface. An append to a closed writer, or with definitions that cannot begin,
      is refused. */
  function Step(z: Zlib, s: State, op: Op): State
    requires WellTyped(s) && LegalOp(s, op)
  {
    match op
    case Flush => s.(store := s.store.Flushed())
    case Append(gi, rec, strings) =>
      if !s.started && !CanBegin(s) then s
      else
        var s1 := if s.started then s else Begin(s);
        BeginTyped(s);
        if s1.closed then s1 else AppendRecord(z, s1, gi, rec, strings)
  }

  // ---- shapes ----

  lemma {:induction false} WriteChansShape(st: Store, chans: seq<Chan>, n: nat, next: nat)
    requires n <= |chans|
    ensures var cs := WriteChans(st, chans, n, next).1;
            && |cs| == |chans|
            && (forall i :: 0 <= i < |chans| ==> cs[i].def == chans[i].def && cs[i].sd == chans[i].sd)
            && (forall i :: n <= i < |chans| ==> cs[i] == chans[i])
    decreases n
  {
    hide WriteChan;
    if n > 0 {
      var (s1, a) := WriteChan(st, chans[n - 1].def, next);
      WriteChansShape(s1, chans[n - 1 := chans[n - 1].(cnAddr := a)], n - 1, a);
    }
  }

  ghost predicate SameGroup(g: Group, h: Group) {
    && g.name == h.name && g.recSize == h.recSize && g.count == h.count && g.data == h.data
    && |g.chans| == |h.chans|
    && forall i :: 0 <= i < |g.chans| ==> g.chans[i].def == h.chans[i].def && g.chans[i].sd == h.chans[i].sd
  }

  lemma WriteGroupShape(st: Store, g: Group, next: nat)
    ensures SameGroup(WriteGroup(st, g, next).1, g)
  {
    hide WriteChans, PutText;
    WriteChansShape(st, g.chans, |g.chans|, 0);
  }

  lemma {:induction false} WriteGroupsShape(st: Store, gs: seq<Group>, n: nat, next: nat)
    requires n <= |gs|
    ensures var r := WriteGroups(st, gs, n, next).1;
            && |r| == |gs|
            && (forall i :: 0 <= i < |gs| ==> SameGroup(r[i], gs[i]))
            && (forall i :: n <= i < |gs| ==> r[i] == gs[i])
    decreases n
  {
    hide WriteGroup, SameGroup;
    if n > 0 {
      var (s1, g) := WriteGroup(st, gs[n - 1], next);
      WriteGroupShape(st, gs[n - 1], next);
      WriteGroupsShape(s1, gs[n - 1 := g], n - 1, g.dgAddr);
      SameGroupTrans(gs, g, n, WriteGroups(st, gs, n, next).1);
    } else {
      SameGroupRefl(gs);
    }
  }

  lemma SameGroupRefl(gs: seq<Group>)
    ensures forall i :: 0 <= i < |gs| ==> SameGroup(gs[i], gs[i])
  {
  }

  lemma SameGroupTrans(gs: seq<Group>, g: Group, n: nat, r: seq<Group>)
    requires 0 < n <= |gs| == |r| && SameGroup(g, gs[n - 1])
    requires forall i :: 0 <= i < |r| ==> SameGroup(r[i], gs[n - 1 := g][i])
    ensures forall i :: 0 <= i < |r| ==> SameGroup(r[i], gs[i])
  {
    assert SameGroup(r[n - 1], gs[n - 1 := g][n - 1]);
    forall i | 0 <= i < |r|
      ensures SameGroup(r[i], gs[i])
    {
      assert SameGroup(r[i], gs[n - 1 := g][i]);
    }
  }

  lemma TreeShape(s: State)
    ensures var gs := WriteTree(s).1;
            |gs| == |s.groups| && forall i :: 0 <= i < |gs| ==> SameGroup(gs[i], Restreamed(s.groups[i]))
  {
    hide WriteHead, WriteGroups, SameGroup, Restreamed, RestreamedAll;
    var blank := RestreamedAll(s.groups);
    WriteGroupsShape(WriteHead(s.cfg, Growing(s)), blank, |blank|, 0);
    var gs := WriteTree(s).1;
    forall i | 0 <= i < |gs|
      ensures SameGroup(gs[i], Restreamed(s.groups[i]))
    {
      assert SameGroup(gs[i], blank[i]);
    }
  }

  lemma SameTyped(g: Group, h: Group)
    requires TypedGroup(h) && SameGroup(g, Restreamed(h))
    ensures TypedGroup(g)
  {
  }

  lemma BeginTyped(s: State)
    requires WellTyped(s)
    ensures CanBegin(s) ==> WellTyped(Begin(s)) && |Begin(s).groups| == |s.groups|
    ensures CanBegin(s) ==> forall i :: 0 <= i < |s.groups| ==> SameGroup(Begin(s).groups[i], Restreamed(s.groups[i]))
  {
    hide WriteTree, SameGroup, Restreamed, TypedGroup;
    if CanBegin(s) {
      TreeShape(s);
      var gs := WriteTree(s).1;
      assert Begin(s).groups == gs;
      forall i | 0 <= i < |gs|
        ensures TypedGroup(gs[i])
      {
        SameTyped(gs[i], s.groups[i]);
      }
    }
  }

  /** What never changes about the groups: their number, record sizes and channels. */
  ghost predicate SameShape(s: State, r: State) {
    && |s.groups| == |r.groups|
    && forall i :: 0 <= i < |s.groups| ==>
         s.groups[i].recSize == r.groups[i].recSize && |s.groups[i].chans| == |r.groups[i].chans|
  }

  lemma StepShape(z: Zlib, s: State, op: Op)
    requires WellTyped(s) && LegalOp(s, op)
    ensures WellTyped(Step(z, s, op)) && SameShape(s, Step(z, s, op))
  {
    hide Begin, AppendStrings, AppendStream, LE;
    BeginTyped(s);
    if op.Append? && (s.started || CanBegin(s)) {
      var s1 := if s.started then s else Begin(s);
      assert forall i :: 0 <= i < |s.groups| ==> TypedGroup(s1.groups[i]);
      assert SameShape(s, s1);
      if !s1.closed {
        AppendShape(z, s1, op.g, op.rec, op.strings);
      }
    }
  }

  lemma StreamShape(z: Zlib, cfg: Config, st: Store, cs: Stream, b: Bytes)
    requires |cs.id| == 4
    ensures AppendStream(z, cfg, st, cs, b).1.id == cs.id
  {
  }

  lemma AppendShape(z: Zlib, s: State, gi: nat, rec: Bytes, strings: seq<Bytes>)
    requires WellTyped(s) && gi < |s.groups| && |strings| == |s.groups[gi].chans|
    ensures WellTyped(AppendRecord(z, s, gi, rec, strings)) && SameShape(s, AppendRecord(z, s, gi, rec, strings))
  {
    hide AppendStrings, AppendStream;
    var g := s.groups[gi];
    assert TypedGroup(g);
    var (st, chans, rec') := AppendStrings(z, s.cfg, s.store, g.chans, rec, strings, |g.chans|);
    StreamShape(z, s.cfg, st, g.data, rec');
    var r := AppendRecord(z, s, gi, rec, strings);
    forall i | 0 <= i < |r.groups|
      ensures TypedGroup(r.groups[i])
    {
      if i != gi {
        assert r.groups[i] == s.groups[i];
      }
    }
  }

  ghost predicate LegalOps(s: State, ops: seq<Op>) {
    forall i :: 0 <= i < |ops| ==> LegalOp(s, ops[i])
  }

  /** Any history of calls. */
  function Run(z: Zlib, s: State, ops: seq<Op>): (r: State)
    requires WellTyped(s) && LegalOps(s, ops)
    ensures WellTyped(r) && SameShape(s, r)
    decreases |ops|
  {
    if ops == [] then s
    else
      var before := Run(z, s, ops[..|ops| - 1]);
      var op := ops[|ops| - 1];
      assert LegalOp(s, op) && LegalOp(before, op);
      StepShape(z, before, op);
      Step(z, before, op)
  }
}
