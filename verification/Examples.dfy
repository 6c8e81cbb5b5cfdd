/** Three files of the growing layout with one string channel, through Open: a long text breaks the recording, luck can
    save it, and a crash in Close can make signal data count as records. */
module Examples {
  import opened Wire
  import opened Blocks
  import opened Meta
  import opened Zip
  import opened Store
  import opened WriterSpec
  import opened Written
  import opened Streams
  import opened Runs
  import opened History
  import opened Closing
  import opened SectionProof
  import opened TreeProof
  import opened Tree
  import opened RoundTrip
  import opened Grown
  import G = Grown
  import opened Limits
  import opened Twins
  import opened Crash
  import opened CrashTexts
  import opened Metadata
  import L = LateChannels

  /** zlib that never compresses; no comment holds XML. */
  const PLAIN: Env := Env(Zlib(_ => None, _ => None), _ => None)

  function Counter(): ChanDef {
    ChanDef([], [], [], Field(CN_FIXED, 0, DT_UINT, 0, 64), None, false)
  }

  function Label(): ChanDef {
    ChanDef([], [], [], Field(CN_VLSD, 0, DT_UTF8, 0, 64), None, true)
  }

  /** Two counters and a text: records of 24 bytes. */
  function LabelGroup(): Group {
    AddChan(AddChan(AddChan(EmptyGroup([]), Counter()), Counter()), Label())
  }

  function LabelWriter(chunkSize: nat): State {
    AddGroup(NewWriter(Config(0, [], [], false, chunkSize)), LabelGroup())
  }

  /** One row with an empty text. */
  function OneRow(rec: Bytes): seq<Op> {
    [Op.Append(0, rec, [[], [], []])]
  }

  /** No texts and no conversion. */
  ghost predicate Plainest(d: ChanDef) {
    |d.name| == |d.unit| == |d.comment| == 0 && d.conv == None
  }

  lemma LabelChans()
    ensures var g := LabelGroup();
            && |g.chans| == 3 && |g.name| == 0 && g.recSize == 24 && !g.chans[0].def.vlsd && !g.chans[1].def.vlsd
               && g.chans[2].def.vlsd
            && g.chans[0].def.field.byteOffset == 0 && g.chans[1].def.field.byteOffset == 8
            && g.chans[2].def.field.byteOffset == 16
            && (forall i :: 0 <= i < 3 ==> FreshChan(g.chans[i]) && Plainest(g.chans[i].def))
            && FreshGroup(g) && TypedGroup(g) && LegibleGroup(g)
  {
    var a := AddChan(EmptyGroup([]), Counter());
    var b := AddChan(a, Counter());
    AddChanTiles(EmptyGroup([]), Counter());
    AddChanTiles(a, Counter());
    AddChanTiles(b, Label());
  }

  lemma LabelDefined(chunkSize: nat)
    requires chunkSize > 0
    ensures var s0 := LabelWriter(chunkSize);
            && Defined(s0) && WellTyped(s0) && CanBegin(s0) && Growing(s0) && s0.groups == [LabelGroup()]
            && LegibleGroup(s0.groups[0]) && s0.cfg.chunkSize == chunkSize && FixedHead(s0.groups[0].chans)
            && s0.cfg.comment == [] && s0.cfg.program == []
    ensures Lossless(PLAIN.z)
  {
    hide LabelGroup;
    LabelChans();
  }

  lemma OneRowLegal(chunkSize: nat, rec: Bytes)
    requires chunkSize > 0 && |rec| == 24
    ensures LegalOps(LabelWriter(chunkSize), OneRow(rec)) && RowsOf(OneRow(rec), 0) == [Row(rec, [[], [], []])]
  {
    hide LabelGroup;
    LabelChans();
    LabelDefined(chunkSize);
    var ops := OneRow(rec);
    assert ops[..0] == [];
    assert RowsOf([], 0) == [];
    assert [] + [Row(rec, [[], [], []])] == [Row(rec, [[], [], []])];
  }

  // ---- sizes ----

  lemma PutEnd(st: Store, b: Block, n: nat, size: nat)
    requires |b.id| == 4 && st.End() <= n && Size(b) <= size
    ensures st.Put(b).0.End() <= n + 8 + size
  {
    hide LE, LinkBytes;
  }

  lemma ChanEnd(st: Store, d: ChanDef, next: nat, n: nat)
    requires st.End() <= n && Plainest(d)
    ensures WriteChan(st, d, next).0.End() <= n + 300
  {
    hide LE, Encode;
    PutEnd(st, TextBlock(d.name), n, 32);
    var (s1, name) := PutText(st, d.name);
    PutEnd(s1, CNBlock(next, name, 0, 0, 0, 0, d.field), n + 40, 200);
  }

  lemma {:induction false} ChansEnd(st: Store, chans: seq<Chan>, k: nat, next: nat, n: nat)
    requires k <= |chans| && st.End() <= n
    requires forall i :: 0 <= i < |chans| ==> Plainest(chans[i].def)
    ensures WriteChans(st, chans, k, next).0.End() <= n + 300 * k
    decreases k
  {
    hide WriteChan;
    if k > 0 {
      ChanEnd(st, chans[k - 1].def, next, n);
      var (s1, a) := WriteChan(st, chans[k - 1].def, next);
      ChansEnd(s1, chans[k - 1 := chans[k - 1].(cnAddr := a)], k - 1, a, n + 300);
    }
  }

  lemma HeadEnd(cfg: Config)
    requires cfg.comment == []
    ensures WriteHead(cfg, true).End() <= 1000
  {
    hide LE, Encode, IDBytes, FHText;
    HistoryText();
    var s0 := Store([], IDBytes(cfg.program, VERSION, VERSION_STRING, UnfinFlags(true)), []);
    PutEnd(s0, HDBlock(0, 0, 0, cfg.startNS), 64, 200);
    var (s1, hd) := s0.Put(HDBlock(0, 0, 0, cfg.startNS));
    PutEnd(s1, MDBlock(FHText()), 272, 300);
    var (s2, md) := s1.Put(MDBlock(FHText()));
    PutEnd(s2, FHBlock(md, cfg.startNS), 580, 100);
  }

  lemma HistoryText()
    ensures |FHText()| <= 200
  {
  }

  lemma GroupEnd(st: Store, g: Group, next: nat, n: nat)
    requires st.End() <= n && |g.chans| == 3 && |g.name| == 0
    requires forall i :: 0 <= i < |g.chans| ==> Plainest(g.chans[i].def)
    ensures WriteGroup(st, g, next).0.End() <= n + 1400
  {
    hide LE, Encode, WriteChans;
    ChansEnd(st, g.chans, 3, 0, n);
    var (s1, chans, cnFirst) := WriteChans(st, g.chans, 3, 0);
    PutEnd(s1, TextBlock(g.name), n + 900, 32);
    var (s2, name) := PutText(s1, g.name);
    PutEnd(s2, CGBlock(cnFirst, name, 0, g.recSize), n + 940, 150);
    var (s3, cg) := s2.Put(CGBlock(cnFirst, name, 0, g.recSize));
    PutEnd(s3, DGBlock(next, cg, 0), n + 1098, 150);
  }

  lemma BegunAt(chunkSize: nat)
    requires chunkSize > 0
    ensures CanBegin(LabelWriter(chunkSize))
    ensures var b := Begin(LabelWriter(chunkSize)); b.growAddr <= 3000 && b.growAddr % 8 == 0
  {
    hide LabelGroup, WriteHead, WriteGroup, LE, Encode;
    LabelDefined(chunkSize);
    LabelChans();
    var s0 := LabelWriter(chunkSize);
    var blank := RestreamedAll(s0.groups);
    HeadEnd(s0.cfg);
    var head := WriteHead(s0.cfg, true);
    GroupEnd(head, blank[0], 0, 1000);
    var (st, g) := WriteGroup(head, blank[0], 0);
    assert WriteGroups(head, blank, 1, 0) == WriteGroups(st, blank[0 := g], 0, g.dgAddr);
    var st1 := st.AddPatch(ID_SIZE + 24, g.dgAddr);
    PadAligns(st1.End());
  }

  // ---- the row ----

  /** The writer after one row with an empty text: its length prefix is in the file or in the channel's buffer. */
  ghost predicate OneRowState(b: State, s: State, cfg: Config, chunkSize: nat) {
    && s.growAddr == b.growAddr <= 3000 && b.growAddr % 8 == 0 && s.growBytes == 24 && s.cfg == cfg
    && |s.groups| == 1 && |s.groups[0].chans| == 3
    && (forall i :: 0 <= i < 2 ==>
          s.groups[0].chans[i].sd == NewStream(ID_SD, 0) && !s.groups[0].chans[i].def.vlsd)
    && s.groups[0].chans[2].def.vlsd && s.groups[0].data.segs == [] && |s.groups[0].data.id| == 4
    && var sd := s.groups[0].chans[2].sd;
       if chunkSize <= 4 then
         sd == Stream(ID_SD, 0, [], [WSeg(s.growAddr + 24, 4)], 4) && s.store.End() == s.growAddr + 76
       else
         sd == Stream(ID_SD, 0, LE(0, 4), [], 4) && s.store.End() == s.growAddr + 48
  }

  /** What is recorded after the only row: the text's length has become a block of its own when it fills a chunk. */
  lemma Recording(chunkSize: nat, rec: Bytes)
    requires chunkSize > 0 && |rec| == 24
    ensures var s0, ops := LabelWriter(chunkSize), OneRow(rec);
            && CanBegin(s0) && LegalOps(s0, ops) && WellTyped(s0)
            && OneRowState(Begin(s0), Recorded(PLAIN.z, s0, ops), s0.cfg, chunkSize)
  {
    hide LabelGroup, LE, Encode, Begin, CanBegin, WriteAt, Recorded, OneRowState, AppendRecord;
    LabelDefined(chunkSize);
    LabelChans();
    OneRowLegal(chunkSize, rec);
    BegunAt(chunkSize);
    var s0, op := LabelWriter(chunkSize), OneRow(rec)[0];
    FirstStep(PLAIN.z, s0, op);
    assert OneRow(rec) == [op];
    DefsKept(s0, 0);
    BeginFields(s0);
    BegunSize(s0);
    Texted(Begin(s0), rec);
  }

  lemma Texted(b: State, rec: Bytes)
    requires |b.groups| == 1 && |b.groups[0].chans| == 3 && TypedGroup(b.groups[0]) && WellTyped(b) && b.growing
             && |rec| == 24
    requires !b.cfg.compress && b.cfg.chunkSize > 0 && b.store.End() == b.growAddr + 24 && b.growAddr % 8 == 0
    requires forall i :: 0 <= i < 3 ==> b.groups[0].chans[i].sd == NewStream(ID_SD, 0)
    requires !b.groups[0].chans[0].def.vlsd && !b.groups[0].chans[1].def.vlsd && b.groups[0].chans[2].def.vlsd
    requires b.groups[0].chans[2].def.field.byteOffset == 16 && b.groups[0].data.segs == [] && b.growBytes == 0
    requires |b.groups[0].data.id| == 4 && b.growAddr <= 3000
    ensures OneRowState(b, AppendRecord(PLAIN.z, b, 0, rec, [[], [], []]), b.cfg, b.cfg.chunkSize)
  {
    hide LE, Encode, WriteAt, AppendStrings;
    TextStep(b, rec);
    WriteAtByteCount(rec);
  }

  lemma WriteAtByteCount(rec: Bytes)
    requires |rec| == 24
    ensures |WriteAt(rec, 16, LE(0, 8))| == 24
  {
  }

  lemma TextStep(b: State, rec: Bytes)
    requires |b.groups| == 1 && |b.groups[0].chans| == 3 && TypedGroup(b.groups[0])
    requires !b.cfg.compress && b.cfg.chunkSize > 0 && b.store.End() == b.growAddr + 24 && b.growAddr % 8 == 0
    requires forall i :: 0 <= i < 3 ==> b.groups[0].chans[i].sd == NewStream(ID_SD, 0)
    requires !b.groups[0].chans[0].def.vlsd && !b.groups[0].chans[1].def.vlsd && b.groups[0].chans[2].def.vlsd
    requires b.groups[0].chans[2].def.field.byteOffset == 16
    ensures var chans := b.groups[0].chans;
            var (st, cs, rec') := AppendStrings(PLAIN.z, b.cfg, b.store, chans, rec, [[], [], []], 3);
            && cs[0] == chans[0] && cs[1] == chans[1] && cs[2].def == chans[2].def && rec' == WriteAt(rec, 16, LE(0, 8))
            && if b.cfg.chunkSize <= 4 then
                 cs[2].sd == Stream(ID_SD, 0, [], [WSeg(b.growAddr + 24, 4)], 4) && st.End() == b.growAddr + 52
               else
                 cs[2].sd == Stream(ID_SD, 0, LE(0, 4), [], 4) && st.End() == b.growAddr + 24
  {
    hide LE, Encode, WriteAt;
    var z, chans := PLAIN.z, b.groups[0].chans;
    var texts: seq<Bytes> := [[], [], []];
    assert AppendStrings(z, b.cfg, b.store, chans, rec, texts, 0) == (b.store, chans, rec);
    assert AppendStrings(z, b.cfg, b.store, chans, rec, texts, 1) == (b.store, chans, rec);
    assert AppendStrings(z, b.cfg, b.store, chans, rec, texts, 2) == (b.store, chans, rec);
    var (st1, sd1) := AppendStream(z, b.cfg, b.store, chans[2].sd, LE(0, 4));
    assert [] + LE(0, 4) == LE(0, 4);
    if b.cfg.chunkSize <= 4 {
      PlainChunk();
      assert st1.End() == b.growAddr + 52;
      assert sd1 == Stream(ID_SD, 0, [], [WSeg(b.growAddr + 24, 4)], 4);
    } else {
      assert LE(0, 4) + [] == LE(0, 4);
    }
  }

  lemma PlainChunk()
    ensures |Encode(Block(ID_SD, [], LE(0, 4)))| == 28
  {
  }

  /** How much longer finalizing makes the file. */
  lemma ClosedEnd(chunkSize: nat, rec: Bytes)
    requires chunkSize > 0 && |rec| == 24
    ensures CanBegin(LabelWriter(chunkSize)) && LegalOps(LabelWriter(chunkSize), OneRow(rec))
            && WellTyped(LabelWriter(chunkSize))
    ensures var s := Recorded(PLAIN.z, LabelWriter(chunkSize), OneRow(rec));
            && |s.groups| == 1 && TypedGroup(s.groups[0])
            && Prepared(PLAIN.z, s).End() == G.Bare(PLAIN.z, s).End() == s.growAddr + 76
  {
    hide LabelGroup, LE, Encode, Begin, CanBegin, Recorded, LabelWriter, OneRow, Prepared, LegalOps;
    Recording(chunkSize, rec);
    var s := Recorded(PLAIN.z, LabelWriter(chunkSize), OneRow(rec));
    LabelGrows(chunkSize, rec);
    OneGroupPrepared(PLAIN.z, s);
    PlainChunk();
    var st := s.store.AddPatch(s.growAddr + 8, HEADER_SIZE + s.growBytes);
    LabelFinal(s, s.store);
    LabelFinal(s, st);
  }

  lemma LabelGrows(chunkSize: nat, rec: Bytes)
    requires chunkSize > 0 && |rec| == 24
    ensures CanBegin(LabelWriter(chunkSize)) && LegalOps(LabelWriter(chunkSize), OneRow(rec))
            && WellTyped(LabelWriter(chunkSize))
    ensures Recorded(PLAIN.z, LabelWriter(chunkSize), OneRow(rec)).growing
  {
    hide LabelGroup, Begin, CanBegin, Recorded, Running, Hist, LegalOps, Run, Close;
    LabelDefined(chunkSize);
    OneRowLegal(chunkSize, rec);
    var h := RecordedRunning(PLAIN.z, LabelWriter(chunkSize), OneRow(rec));
  }

  lemma LabelFinal(s: State, st: Store)
    requires |s.groups| == 1 && TypedGroup(s.groups[0]) && |s.groups[0].chans| == 3 && st.End() == s.store.End()
    requires !s.groups[0].chans[0].def.vlsd && !s.groups[0].chans[1].def.vlsd && s.groups[0].chans[2].def.vlsd
    requires s.growAddr % 8 == 0
    requires var sd := s.groups[0].chans[2].sd;
             || (sd == Stream(ID_SD, 0, [], [WSeg(s.growAddr + 24, 4)], 4) && s.store.End() == s.growAddr + 76)
             || (sd == Stream(ID_SD, 0, LE(0, 4), [], 4) && s.store.End() == s.growAddr + 48)
    ensures FinalizeChans(PLAIN.z, s.cfg.compress, st, s.groups[0].chans, 3).End() == s.growAddr + 76
  {
    hide LE, Encode;
    var z, c, chans := PLAIN.z, s.cfg.compress, s.groups[0].chans;
    assert FinalizeChans(z, c, st, chans, 0) == st;
    assert FinalizeChans(z, c, st, chans, 1) == st;
    assert FinalizeChans(z, c, st, chans, 2) == st;
    PlainChunk();
  }

  lemma RowTexts(rec: Bytes)
    ensures TextStream([Row(rec, [[], [], []])], 2) == LE(0, 4)
  {
    hide LE;
    var rows := [Row(rec, [[], [], []])];
    assert rows[..0] == [];
    assert TextStream([], 2) == [];
    assert LE(0, 4) + [] == LE(0, 4);
    assert [] + LE(0, 4) == LE(0, 4);
  }

  lemma LabelRecordable(chunkSize: nat, rec: Bytes)
    requires chunkSize > 0 && |rec| == 24
    ensures Recordable(PLAIN, LabelWriter(chunkSize), OneRow(rec))
    ensures ShortTexts(LabelWriter(chunkSize), OneRow(rec)) <==> chunkSize > 4
  {
    hide LabelGroup, LE, Begin, CanBegin, Recorded, LegalOps, Run, Close, Lossless, Defined, WellTyped, LegibleGroup;
    hide DataStream;
    hide TextStream, G.Bare, Prepared;
    LabelChans();
    LabelDefined(chunkSize);
    OneRowLegal(chunkSize, rec);
    Recording(chunkSize, rec);
    ClosedEnd(chunkSize, rec);
    var s0, ops := LabelWriter(chunkSize), OneRow(rec);
    LabelLists(Recorded(PLAIN.z, s0, ops));
    ClosedSize(PLAIN.z, s0, ops);
    RowTexts(rec);
  }

  lemma LabelLists(s: State)
    requires |s.groups| == 1 && |s.groups[0].chans| == 3 && s.groups[0].data.segs == []
    requires forall i :: 0 <= i < 3 ==> |s.groups[0].chans[i].sd.segs| <= 1
    ensures ListsFit(s.groups[0])
  {
  }

  // ---- the examples ----

  /** A text as long as a chunk in a row of zeros: the closed file opens, but its records are not those recorded. */
  lemma LongTextBreaks()
    ensures var s0, ops := LabelWriter(4), OneRow(Zeros(24));
            Recordable(PLAIN, s0, ops) && |s0.groups| == 1 && !ShortTexts(s0, ops) && !ClosedReads(PLAIN, s0, ops)
  {
    hide LabelGroup, Recordable, ShortTexts, ClosedReads, Markless, LegalOps;
    var s0, ops := LabelWriter(4), OneRow(Zeros(24));
    LabelDefined(4);
    OneRowLegal(4, Zeros(24));
    LabelRecordable(4, Zeros(24));
    assert Blanked(ops) == ops;
    BlankMarkless(s0, ops);
    MarklessReadsIff(PLAIN, s0, ops);
  }

  /** The same text in a row that looks like the head of a signal data block: here the file reads back. */
  lemma LongTextSurvives()
    ensures |LuckyRow()| == 24
    ensures var s0, ops := LabelWriter(4), OneRow(LuckyRow());
            Recordable(PLAIN, s0, ops) && |s0.groups| == 1 && !ShortTexts(s0, ops) && ClosedReads(PLAIN, s0, ops)
  {
    LuckyLength();
    hide LabelGroup, ShortTexts, LegalOps, LuckyRow, Begin, Defined, CanBegin, WellTyped, Lossless, LegibleGroup;
    hide Expressible;
    hide Run, Close, Recorded, Open, GroupReads, DataStream, SignalBlock, Encode, Running, G.Without, DataKept;
    hide HeapIn, FileInv;
    hide OpenID, FinalID, SignalsLinked, G.Covered, G.Bare;
    var rec := LuckyRow();
    var s0, ops := LabelWriter(4), OneRow(rec);
    LabelDefined(4);
    OneRowLegal(4, rec);
    LabelRecordable(4, rec);
    Recording(4, rec);
    GrownReadsIff(PLAIN, s0, ops);
    var h0, h, late := GrownClosed(PLAIN.z, s0, ops);
    var s, f := Recorded(PLAIN.z, s0, ops), Close(PLAIN.z, Run(PLAIN.z, s0, ops)).store.disk;
    SignalBlockThere(s, h0, Begin(s0).groups[0], rec);
    DataIds();
    BlockKept(h0, h, s.growAddr + 24);
    InFile(f, h, s.growAddr, s.growAddr + 24);
    LuckyStored(s0.groups[0].chans);
    AtPart(f, s.growAddr + 24, Encode(SignalBlock()), 24);
  }

  function SignalBlock(): (b: Block)
    ensures |b.id| == 4
  {
    Block(ID_SD, [], LE(0, 4))
  }

  /** The first 24 bytes of the block of an empty text. */
  function LuckyRow(): Bytes
  {
    if |Encode(SignalBlock())| < 24 then [] else Encode(SignalBlock())[..24]
  }

  lemma LuckyLength()
    ensures |Encode(SignalBlock())| == 28 && |LuckyRow()| == 24 && LuckyRow() == Encode(SignalBlock())[..24]
  {
    PlainChunk();
  }

  /** Its bytes 16 to 24, where the offset of the text is stamped, are zero already. */
  lemma LuckyStored(chans: seq<Chan>)
    requires chans == LabelGroup().chans
    ensures DataStream(chans, [Row(LuckyRow(), [[], [], []])]) == LuckyRow()
  {
    hide LabelGroup, LE;
    LuckyLength();
    LabelChans();
    var rec := LuckyRow();
    var rows := [Row(rec, [[], [], []])];
    assert rows[..0] == [];
    LuckyOffset();
    assert TextStream([], 2) == [];
    assert Stamped(chans, [], rows[0], 0) == rec;
    assert Stamped(chans, [], rows[0], 1) == rec;
    assert Stamped(chans, [], rows[0], 2) == rec;
    assert StoredRow(chans, [], rows[0]) == WriteAt(rec, 16, LE(0, 8)) == rec;
    assert StoredRows(chans, []) == [];
    assert StoredRows(chans, rows) == [rec];
    assert Concat([rec]) == rec + Concat([]);
  }

  lemma LuckyOffset()
    ensures |LuckyRow()| == 24 && WriteAt(LuckyRow(), 16, LE(0, 8)) == LuckyRow()
  {
    hide LE;
    LuckyLength();
    var e := Encode(SignalBlock());
    EncodeParts(SignalBlock());
    assert e[16..24] == LE(0, 8);
    WriteAtInside(LuckyRow(), 16, LE(0, 8));
    assert LuckyRow()[..16] + e[16..24] + LuckyRow()[24..] == LuckyRow();
  }

  lemma AtPart(f: Bytes, a: nat, x: Bytes, n: nat)
    requires At(f, a, x) && n <= |x|
    ensures At(f, a, x[..n])
  {
    AtSub(f, a, x, 0, n);
  }

  lemma InFile(f: Bytes, h: Heap, a: nat, b: nat)
    requires HeapIn(f, Without(h, a)) && b in h && b != a
    ensures |h[b].id| == 4 && At(f, b, Encode(h[b]))
  {
    hide Encode;
    assert Without(h, a)[b] == h[b];
  }

  lemma SignalBlockThere(s: State, h: Heap, g0: Group, rec: Bytes)
    requires Running(PLAIN.z, s, h, [g0], [[Row(rec, [[], [], []])]]) && s.growing && s.cfg.chunkSize == 4
    requires |s.groups| == 1 && |s.groups[0].chans| == 3 && s.groups[0].chans[2].def.vlsd
    requires s.groups[0].chans[2].sd == Stream(ID_SD, 0, [], [WSeg(s.growAddr + 24, 4)], 4)
    ensures s.growAddr + 24 in h && h[s.growAddr + 24] == SignalBlock() && !MetaId(SignalBlock().id)
  {
    hide LE, FileInv, GrowIs, TextStream, OpenID, DataStream;
    var z, rows, sd := PLAIN.z, [Row(rec, [[], [], []])], s.groups[0].chans[2].sd;
    DataIds();
    RowTexts(rec);
    assert GroupIs(h, z, s.cfg, true, s.groups[0], [g0][0], [rows][0]);
    assert SignalIs(h, z, 4, s.groups[0].chans[2], 2, rows);
    var parts :| Parts(h, z, sd.id, sd.recSize, sd.segs, parts) && Concat(parts) + sd.buf == TextStream(rows, 2)
                 && WholeRecords(parts, sd.recSize, 4);
    assert SegHolds(h, z, ID_SD, 0, sd.segs[0], parts[0]);
    assert parts[1..] == [];
    assert Concat(parts) == parts[0] + Concat([]);
    assert parts[0] == LE(0, 4);
  }

  /** The file with all that Close appends and no patch opens with another number of rows than were appended. */
  ghost predicate TailMiscounts(env: Env, s0: State, ops: seq<Op>) {
    && Texts(env.z, s0, ops)
    && var p := Prepared(env.z, Recorded(env.z, s0, ops)); !Counts(env, p.disk + p.buf, |RowsOf(ops, 0)|)
  }

  /** Close of a recording with one row and a short text, interrupted before the length of the data block is
      patched: the signal data behind the record counts as a second record. */
  lemma TailMiscounted()
    ensures TailMiscounts(PLAIN, LabelWriter(1000), OneRow(Zeros(24)))
  {
    hide LabelGroup, ShortTexts, LegalOps, Begin, Defined, CanBegin, WellTyped, Lossless, LegibleGroup, Expressible;
    hide Counts;
    hide Run, Close, Recorded, Open, DataStream, Encode, Prepared, G.Bare, Recovered;
    var rec := Zeros(24);
    var s0, ops := LabelWriter(1000), OneRow(rec);
    LabelDefined(1000);
    OneRowLegal(1000, rec);
    LabelRecordable(1000, rec);
    Recording(1000, rec);
    ClosedEnd(1000, rec);
    var p := Prepared(PLAIN.z, Recorded(PLAIN.z, s0, ops));
    CutCountsIff(PLAIN, s0, ops, p.End());
    assert (p.disk + p.buf)[..p.End()] == p.disk + p.buf;
    LabelChans();
    assert Complete(24, 24) == 1;
  }

  // ---- a channel too late ----

  /** One row, then one more channel. */
  function RowThenChannel(def: ChanDef): seq<L.Call> {
    [L.Record(OneRow(Zeros(24))[0]), L.Extend(0, def)]
  }

  /** Every call is accepted, and the closed file does not give back what was defined and recorded. */
  ghost predicate ClosesUnreadable(env: Env, s0: State, cs: seq<L.Call>) {
    && WellTyped(s0) && L.LegalCalls(env.z, s0, cs)
    && var t := L.DoAll(env.z, s0, cs); !L.ReadsBack(env, Close(env.z, t).store.disk, t, L.OpsOf(cs))
  }

  /** After the row the writer accepts any further channel, and the closed file does not read back. */
  lemma LateChannelBreaks(def: ChanDef)
    ensures ClosesUnreadable(PLAIN, LabelWriter(1000), RowThenChannel(def))
  {
    hide LabelGroup, Begin, CanBegin, Recorded, LegalOps, Run, Close, Lossless, Defined, LegibleGroup, Prepared;
    hide L.ReadsBack, Expressible, ShortTexts, OneRow, L.AddLate, LegalOp;
    var z, rec, s0 := PLAIN.z, Zeros(24), LabelWriter(1000);
    LabelChans();
    LabelDefined(1000);
    OneRowLegal(1000, rec);
    Recording(1000, rec);
    ClosedEnd(1000, rec);
    RowCalls(def);
    var s, cs := Recorded(z, s0, OneRow(rec)), RowThenChannel(def);
    AddedEnd(z, s, def);
    assert cs[1].Extend?;
    assert !L.NoLate(cs);
    L.LateBreaks(PLAIN, s0, cs);
  }

  ghost predicate OneRowGrown(s: State) {
    s.started && s.growing && |s.groups| == 1 && s.groups[0].count == 1
  }

  ghost predicate CallsLead(z: Zlib, s0: State, ops: seq<Op>, cs: seq<L.Call>, def: ChanDef) {
    && WellTyped(s0) && CanBegin(s0) && LegalOps(s0, ops) && L.LegalCalls(z, s0, cs)
    && var s := Recorded(z, s0, ops);
       WellTyped(s) && OneRowGrown(s) && L.DoAll(z, s0, cs) == L.AddLate(s, 0, def)
  }

  /** The calls are legal and lead from the recorded row to the longer group. */
  lemma RowCalls(def: ChanDef)
    ensures CallsLead(PLAIN.z, LabelWriter(1000), OneRow(Zeros(24)), RowThenChannel(def), def)
  {
    hide LabelGroup, Begin, CanBegin, Recorded, AppendRecord, L.AddLate, WellTyped;
    var z, rec, s0, cs := PLAIN.z, Zeros(24), LabelWriter(1000), RowThenChannel(def);
    LabelDefined(1000);
    OneRowLegal(1000, rec);
    var op := OneRow(rec)[0];
    assert OneRow(rec) == [op];
    FirstStep(z, s0, op);
    Recording(1000, rec);
    LabelGrows(1000, rec);
    RowCounted(z, s0, op);
    assert LegalOp(s0, op);
    DefinedOpen(s0);
    BeginFields(s0);
    StepFirst(z, s0, op);
    var s := Recorded(z, s0, [op]);
    assert Step(z, s0, op) == s;
    OneCall(z, s0, cs[0]);
    assert cs[..|cs| - 1] == [cs[0]];
    assert L.LegalCall(L.DoAll(z, s0, cs[..|cs| - 1]), cs[|cs| - 1]);
  }

  lemma OneCall(z: Zlib, s: State, c: L.Call)
    requires WellTyped(s) && L.LegalCall(s, c)
    ensures L.LegalCalls(z, s, [c]) && L.DoAll(z, s, [c]) == L.Do(z, s, c)
  {
    hide L.Do, WellTyped, L.LegalCall;
    assert [c][..0] == [];
    assert L.LegalCalls(z, s, []) && L.DoAll(z, s, []) == s;
  }

  lemma RowCounted(z: Zlib, s0: State, op: Op)
    requires Defined(s0) && WellTyped(s0) && CanBegin(s0) && op.Append? && LegalOps(s0, [op])
    ensures var s := Recorded(z, s0, [op]);
            s.started && op.g < |s.groups| && s.groups[op.g].count == 1
  {
    hide Begin, CanBegin, WellTyped, Recorded, AppendStrings, AppendStream;
    assert LegalOp(s0, [op][0]);
    FirstStep(z, s0, op);
    BeginFields(s0);
    BeginTyped(s0);
    var b := Begin(s0);
    assert SameGroup(b.groups[op.g], Restreamed(s0.groups[op.g]));
    assert FreshGroup(s0.groups[op.g]);
    AppendCounts(z, b, op.g, op.rec, op.strings);
    AppendFields(z, b, op.g, op.rec, op.strings);
  }

  lemma AppendCounts(z: Zlib, s: State, gi: nat, rec: Bytes, strings: seq<Bytes>)
    requires WellTyped(s) && gi < |s.groups| && |strings| == |s.groups[gi].chans|
    ensures var t := AppendRecord(z, s, gi, rec, strings);
            |t.groups| == |s.groups| && t.groups[gi].count == s.groups[gi].count + 1
  {
    hide AppendStrings, AppendStream;
  }

  /** A further channel adds nothing to what finalize appends. */
  lemma AddedEnd(z: Zlib, s: State, def: ChanDef)
    requires WellTyped(s) && s.growing && |s.groups| == 1
    ensures var t := L.AddLate(s, 0, def);
            |t.groups| == 1 && t.groups[0].count == s.groups[0].count && Prepared(z, t).End() == Prepared(z, s).End()
  {
    hide FinalizeChans, WellTyped, Prepared;
    var g, t := s.groups[0], L.AddLate(s, 0, def);
    OneGroupPrepared(z, s);
    OneGroupPrepared(z, t);
    var st, chans := s.store.AddPatch(s.growAddr + 8, HEADER_SIZE + s.growBytes), t.groups[0].chans;
    assert chans[..|g.chans|] == g.chans;
    FirstChans(z, s.cfg.compress, st, g.chans, chans, |g.chans|);
    LastChan(z, s.cfg.compress, st, chans, |g.chans|);
  }

  lemma {:induction false} FirstChans(z: Zlib, compress: bool, st: Store, a: seq<Chan>, b: seq<Chan>, n: nat)
    requires n <= |a| && a <= b && forall i :: 0 <= i < |b| ==> |b[i].sd.id| == 4
    ensures (forall i :: 0 <= i < |a| ==> |a[i].sd.id| == 4)
    ensures FinalizeChans(z, compress, st, b, n) == FinalizeChans(z, compress, st, a, n)
  {
    hide LinkStream;
    assert forall i :: 0 <= i < |a| ==> a[i] == b[i];
    if n > 0 {
      FirstChans(z, compress, st, a, b, n - 1);
    }
  }

  lemma LastChan(z: Zlib, compress: bool, st: Store, chans: seq<Chan>, n: nat)
    requires n + 1 == |chans| && chans[n].sd == NewStream(ID_SD, 0)
    requires forall i :: 0 <= i < |chans| ==> |chans[i].sd.id| == 4
    ensures FinalizeChans(z, compress, st, chans, n + 1).End() == FinalizeChans(z, compress, st, chans, n).End()
  {
  }
}
