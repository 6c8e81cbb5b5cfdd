/** Finalization: the rest of every stream is written, and each link and counter is patched. */
module Closing {
  import opened Wire
  import opened Blocks
  import opened Meta
  import opened Zip
  import opened Store
  import opened WriterSpec
  import opened Written
  import opened Streams
  import opened Runs

  /** Links to signal data: one per string channel, NIL for others. */
  ghost predicate SignalLinked(h: Heap, z: Zlib, chunkSize: nat, c0: Chan, ci: nat, link: nat, rows: seq<Row>) {
    if c0.def.vlsd then
      Linked(h, z, ID_SD, 0, chunkSize, link, TextStream(rows, ci)) && (TextStream(rows, ci) != [] ==> link != 0)
    else link == 0
  }

  ghost predicate SignalsLinked(h: Heap, z: Zlib, chunkSize: nat, cs0: seq<Chan>, links: seq<nat>, rows: seq<Row>,
                                n: nat)
  {
    |links| == |cs0| && n <= |cs0| &&
    forall ci :: 0 <= ci < n ==> SignalLinked(h, z, chunkSize, cs0[ci], ci, links[ci], rows)
  }

  ghost predicate DataLinkedTo(h: Heap, z: Zlib, cfg: Config, growing: bool, g0: Group, data: nat, rows: seq<Row>) {
    if growing then data in h && h[data] == Block(ID_DT, [], DataStream(g0.chans, rows))
    else Linked(h, z, ID_DT, g0.recSize, cfg.chunkSize, data, DataStream(g0.chans, rows))
  }

  /** Everything late about a group is in place. */
  ghost predicate GroupFinal(h: Heap, z: Zlib, cfg: Config, growing: bool, g0: Group, late: Late, rows: seq<Row>) {
    && late.count == |rows|
    && DataLinkedTo(h, z, cfg, growing, g0, late.data, rows)
    && SignalsLinked(h, z, cfg.chunkSize, g0.chans, late.signals, rows, |g0.chans|)
  }

  lemma SignalLinkedKept(h: Heap, h': Heap, z: Zlib, chunkSize: nat, c0: Chan, ci: nat, link: nat, rows: seq<Row>)
    requires SignalLinked(h, z, chunkSize, c0, ci, link, rows) && DataKept(h, h')
    ensures SignalLinked(h', z, chunkSize, c0, ci, link, rows)
  {
    hide Linked, DataKept, TextStream;
    if c0.def.vlsd {
      LinkedExt(h, h', z, ID_SD, 0, chunkSize, link, TextStream(rows, ci));
    }
  }

  lemma SignalsLinkedKept(h: Heap, h': Heap, z: Zlib, chunkSize: nat, cs0: seq<Chan>, links: seq<nat>, rows: seq<Row>,
                          n: nat)
    requires SignalsLinked(h, z, chunkSize, cs0, links, rows, n) && DataKept(h, h')
    ensures SignalsLinked(h', z, chunkSize, cs0, links, rows, n)
  {
    hide SignalLinked, DataKept;
    forall ci | 0 <= ci < n
      ensures SignalLinked(h', z, chunkSize, cs0[ci], ci, links[ci], rows)
    {
      SignalLinkedKept(h, h', z, chunkSize, cs0[ci], ci, links[ci], rows);
    }
  }

  lemma DataLinkedKept(h: Heap, h': Heap, z: Zlib, cfg: Config, growing: bool, g0: Group, data: nat, rows: seq<Row>)
    requires DataLinkedTo(h, z, cfg, growing, g0, data, rows) && DataKept(h, h')
    ensures DataLinkedTo(h', z, cfg, growing, g0, data, rows)
  {
    DataIds();
    hide Linked, DataStream;
    if !growing {
      LinkedExt(h, h', z, ID_DT, g0.recSize, cfg.chunkSize, data, DataStream(g0.chans, rows));
    }
  }

  lemma GroupFinalKept(h: Heap, h': Heap, z: Zlib, cfg: Config, growing: bool, g0: Group, late: Late, rows: seq<Row>)
    requires GroupFinal(h, z, cfg, growing, g0, late, rows) && DataKept(h, h')
    ensures GroupFinal(h', z, cfg, growing, g0, late, rows)
  {
    hide DataLinkedTo, SignalsLinked, DataKept;
    DataLinkedKept(h, h', z, cfg, growing, g0, late.data, rows);
    SignalsLinkedKept(h, h', z, cfg.chunkSize, g0.chans, late.signals, rows, |g0.chans|);
  }

  /** Room for one more segment in a data list, whose count has 32 bits. */
  ghost predicate ListsFit(g: Group) {
    && |g.data.segs| + 1 < TWO_32
    && forall ci :: 0 <= ci < |g.chans| ==> |g.chans[ci].sd.segs| + 1 < TWO_32
  }

  lemma LinkCount(z: Zlib, compress: bool, st: Store, cs: Stream)
    requires |cs.id| == 4 && |cs.segs| + 1 < TWO_32
    ensures |LinkStream(z, compress, st, cs).1.segs| < TWO_32
  {
    hide ChunkBlock;
  }

  /** One string channel: rest of its signal data, then the link. */
  lemma SignalClosed(z: Zlib, cfg: Config, st: Store, h: Heap, id: Bytes, gs0: seq<Group>, lates: seq<Late>, i: nat,
                     c: Chan, k: nat, rows: seq<Row>) returns (h': Heap)
    requires FileInv(st, h, id, gs0, lates) && |id| == ID_SIZE && i < |gs0| && k < |gs0[i].chans|
    requires c.def == gs0[i].chans[k].def && c.cnAddr == gs0[i].chans[k].cnAddr && c.def.vlsd
    requires SignalIs(h, z, cfg.chunkSize, c, k, rows) && |c.sd.segs| + 1 < TWO_32 && |c.sd.id| == 4
    ensures |lates[i].signals| == |gs0[i].chans|
    ensures var (st1, _, a) := LinkStream(z, cfg.compress, st, c.sd);
            var st2 := st1.AddPatch(c.cnAddr + 24 + 40, a);
            && FileInv(st2, h', id, gs0, lates[i := lates[i].(signals := lates[i].signals[k := a])])
            && DataKept(h, h') && SignalLinked(h', z, cfg.chunkSize, gs0[i].chans[k], k, a, rows)
            && st2.End() >= st.End() && st.Image() <= st1.Image() && st1.disk == st.disk
  {
    hide FileInv, StreamIs, LinkStream, Linked, TextStream, StoreInv, Appended, DataKept, KeptBut, Ext;
    FileStoreInv(st, h, id, gs0, lates);
    LinkCount(z, cfg.compress, st, c.sd);
    var all := TextStream(rows, k);
    var h1 := LinkWritten(z, cfg.compress, st, h, c.sd, cfg.chunkSize, all);
    var (st1, _, a) := LinkStream(z, cfg.compress, st, c.sd);
    AppendedGrew(st, h, st1, h1);
    FileAppended(st, h, st1, h1, id, gs0, lates);
    h' := PatchSignalLink(st1, h1, id, gs0, lates, i, k, a);
    ExtKeepsData(h, h1);
    CNIsMeta();
    LinkChangeKeepsData(h1, h', c.cnAddr);
    DataKeptTrans(h, h1, h');
    LinkedExt(h1, h', z, ID_SD, 0, cfg.chunkSize, a, all);
  }

  lemma AppendedGrew(st: Store, h: Heap, st': Store, h': Heap)
    requires Appended(st, h, st', h')
    ensures Ext(h, h') && st'.End() >= st.End() && st.Image() <= st'.Image() && st'.disk == st.disk
  {
  }

  lemma CNIsMeta()
    ensures MetaId(ID_CN) && MetaId(ID_CG) && MetaId(ID_DG)
  {
  }

  /** The first n channels of group i. */
  lemma {:induction false} SignalsClosed(z: Zlib, cfg: Config, st: Store, h: Heap, id: Bytes, gs0: seq<Group>,
                                         lates: seq<Late>,
                                         i: nat, chans: seq<Chan>, rows: seq<Row>, n: nat)
    returns (h': Heap, links: seq<nat>)
    requires FileInv(st, h, id, gs0, lates) && |id| == ID_SIZE && i < |gs0| && n <= |chans|
    requires SameChans(chans, gs0[i].chans) && SignalsAre(h, z, cfg.chunkSize, chans, rows)
    requires forall ci :: 0 <= ci < |chans| ==> |chans[ci].sd.segs| + 1 < TWO_32 && |chans[ci].sd.id| == 4
    requires |lates| == |gs0| && lates[i].signals == ZeroLinks(|chans|)
    ensures var st' := FinalizeChans(z, cfg.compress, st, chans, n);
            && FileInv(st', h', id, gs0, lates[i := lates[i].(signals := links)])
            && DataKept(h, h') && SignalsLinked(h', z, cfg.chunkSize, gs0[i].chans, links, rows, n)
            && (forall ci :: n <= ci < |chans| ==> links[ci] == 0)
            && st'.End() >= st.End()
    decreases n
  {
    hide FileInv, SignalIs, LinkStream, DataKept, SignalLinked;
    if n == 0 {
      h', links := h, lates[i].signals;
      assert lates[i := lates[i].(signals := links)] == lates;
      KeptSelf(h);
    } else {
      var h1, links1 := SignalsClosed(z, cfg, st, h, id, gs0, lates, i, chans, rows, n - 1);
      var st1 := FinalizeChans(z, cfg.compress, st, chans, n - 1);
      var lates1 := lates[i := lates[i].(signals := links1)];
      var c := chans[n - 1];
      if !c.def.vlsd {
        h', links := h1, links1;
        assert SignalLinked(h1, z, cfg.chunkSize, gs0[i].chans[n - 1], n - 1, 0, rows) by {
          NoSignal(h1, z, cfg.chunkSize, gs0[i].chans[n - 1], n - 1, rows);
        }
      } else {
        assert SignalIs(h, z, cfg.chunkSize, c, n - 1, rows);
        SignalKept(h, h1, z, cfg.chunkSize, c, n - 1, rows);
        h' := SignalClosed(z, cfg, st1, h1, id, gs0, lates1, i, c, n - 1, rows);
        var a := LinkStream(z, cfg.compress, st1, c.sd).2;
        links := links1[n - 1 := a];
        assert lates1[i := lates1[i].(signals := links)] == lates[i := lates[i].(signals := links)];
        DataKeptTrans(h, h1, h');
        SignalsLinkedKept(h1, h', z, cfg.chunkSize, gs0[i].chans, links1, rows, n - 1);
      }
    }
  }

  lemma KeptSelf(h: Heap)
    ensures DataKept(h, h)
  {
  }

  lemma NoSignal(h: Heap, z: Zlib, chunkSize: nat, c0: Chan, ci: nat, rows: seq<Row>)
    requires !c0.def.vlsd
    ensures SignalLinked(h, z, chunkSize, c0, ci, 0, rows)
  {
  }

  /** Chunked layout: the data link of group i. */
  lemma DataClosed(z: Zlib, cfg: Config, st: Store, h: Heap, id: Bytes, gs0: seq<Group>, lates: seq<Late>, i: nat,
                   g: Group, rows: seq<Row>) returns (h': Heap)
    requires FileInv(st, h, id, gs0, lates) && |id| == ID_SIZE && i < |gs0|
    requires GroupIs(h, z, cfg, false, g, gs0[i], rows) && |g.data.segs| + 1 < TWO_32 && |g.data.id| == 4
    ensures |lates| == |gs0|
    ensures var (st1, _, a) := LinkStream(z, cfg.compress, st, g.data);
            var st2 := st1.AddPatch(g.dgAddr + 24 + 16, a);
            && FileInv(st2, h', id, gs0, lates[i := lates[i].(data := a)])
            && DataKept(h, h') && DataLinkedTo(h', z, cfg, false, gs0[i], a, rows)
            && st2.End() >= st.End()
  {
    hide FileInv, StreamIs, LinkStream, Linked, StoreInv, Appended, DataKept, KeptBut, Ext, DataStream, SignalsAre;
    hide SameChans;
    FileStoreInv(st, h, id, gs0, lates);
    FileParts(st, h, id, gs0, lates);
    LinkCount(z, cfg.compress, st, g.data);
    var all := DataStream(gs0[i].chans, rows);
    var h1 := LinkWritten(z, cfg.compress, st, h, g.data, cfg.chunkSize, all);
    var (st1, _, a) := LinkStream(z, cfg.compress, st, g.data);
    AppendedGrew(st, h, st1, h1);
    FileAppended(st, h, st1, h1, id, gs0, lates);
    h' := PatchDataLink(st1, h1, id, gs0, lates, i, a);
    ExtKeepsData(h, h1);
    CNIsMeta();
    LinkChangeKeepsData(h1, h', g.dgAddr);
    DataKeptTrans(h, h1, h');
    LinkedExt(h1, h', z, ID_DT, g.data.recSize, cfg.chunkSize, a, all);
  }

  /** All of group i in the chunked layout. */
  lemma GroupClosed(z: Zlib, s: State, st: Store, h: Heap, id: Bytes, gs0: seq<Group>, lates: seq<Late>, i: nat,
                    g: Group, rows: seq<Row>) returns (h': Heap, late: Late)
    requires FileInv(st, h, id, gs0, lates) && |id| == ID_SIZE && i < |gs0| && !s.growing
    requires GroupIs(h, z, s.cfg, false, g, gs0[i], rows) && ListsFit(g) && TypedGroup(g)
    requires |lates| == |gs0| && lates[i] == OpenLate(gs0[i], 0)
    ensures var st' := FinalizeGroup(z, s, st, g);
            && FileInv(st', h', id, gs0, lates[i := late])
            && DataKept(h, h') && GroupFinal(h', z, s.cfg, false, gs0[i], late, rows)
  {
    hide FileInv, LinkStream, DataKept, KeptBut, SignalsAre, DataLinkedTo, FinalizeChans, SignalsLinked, StreamIs;
    hide DataStream;
    var h1 := DataClosed(z, s.cfg, st, h, id, gs0, lates, i, g, rows);
    var (st0, _, a) := LinkStream(z, s.cfg.compress, st, g.data);
    var st1 := st0.AddPatch(g.dgAddr + 24 + 16, a);
    var lates1 := lates[i := lates[i].(data := a)];
    SignalsKept(h, h1, z, s.cfg.chunkSize, g.chans, rows);
    var h2, links := SignalsClosed(z, s.cfg, st1, h1, id, gs0, lates1, i, g.chans, rows, |g.chans|);
    var st2 := FinalizeChans(z, s.cfg.compress, st1, g.chans, |g.chans|);
    var lates2 := lates1[i := lates1[i].(signals := links)];
    h' := PatchCount(st2, h2, id, gs0, lates2, i, g.count);
    late := Late(a, g.count, links);
    assert lates2[i := lates2[i].(count := g.count)] == lates[i := late];
    CNIsMeta();
    LinkChangeKeepsData(h2, h', gs0[i].cgAddr);
    DataKeptTrans(h, h1, h2);
    DataKeptTrans(h, h2, h');
    DataLinkedKept(h1, h2, z, s.cfg, false, gs0[i], a, rows);
    DataLinkedKept(h2, h', z, s.cfg, false, gs0[i], a, rows);
    SignalsLinkedKept(h2, h', z, s.cfg.chunkSize, gs0[i].chans, links, rows, |gs0[i].chans|);
  }

  /** The first n groups in the chunked layout. */
  lemma {:induction false} GroupsClosed(z: Zlib, s: State, h: Heap, gs0: seq<Group>, hist: seq<seq<Row>>, n: nat)
    returns (h': Heap, lates: seq<Late>)
    requires Running(z, s, h, gs0, hist) && !s.growing && WellTyped(s) && n <= |gs0|
    requires forall i :: 0 <= i < |gs0| ==> ListsFit(s.groups[i])
    ensures var st := FinalizeGroups(z, s, n);
            && FileInv(st, h', OpenID(s), gs0, lates) && DataKept(h, h') && |lates| == |gs0|
            && (forall i :: n <= i < |gs0| ==> lates[i] == OpenLate(gs0[i], 0))
            && (forall i :: 0 <= i < n ==> GroupFinal(h', z, s.cfg, false, gs0[i], lates[i], hist[i]))
    decreases n
  {
    hide FileInv, GroupIs, GroupFinal, DataKept, FinalizeGroup, ListsFit, TypedGroup, IDBytes, OpenLate;
    if n == 0 {
      h', lates := h, OpenLates(gs0, 0);
      KeptSelf(h);
    } else {
      var h1, lates1 := GroupsClosed(z, s, h, gs0, hist, n - 1);
      var st1 := FinalizeGroups(z, s, n - 1);
      var g := s.groups[n - 1];
      GroupIsKept(h, h1, z, s.cfg, false, g, gs0[n - 1], hist[n - 1]);
      assert ListsFit(g) && TypedGroup(g);
      var late;
      h', late := GroupClosed(z, s, st1, h1, OpenID(s), gs0, lates1, n - 1, g, hist[n - 1]);
      lates := lates1[n - 1 := late];
      DataKeptTrans(h, h1, h');
      forall i | 0 <= i < n
        ensures GroupFinal(h', z, s.cfg, false, gs0[i], lates[i], hist[i])
      {
        if i < n - 1 {
          GroupFinalKept(h1, h', z, s.cfg, false, gs0[i], lates1[i], hist[i]);
        }
      }
    }
  }

  // ---- growing layout ----

  lemma HeadRelength(id: Bytes, was: nat, now: nat)
    requires |id| == 4
    ensures WriteAt(HeadBytes(id, was, 0), 8, LE(now, 8)) == HeadBytes(id, now, 0)
  {
    hide LE;
    var x := HeadBytes(id, was, 0);
    WriteAtInside(x, 8, LE(now, 8));
    assert x[..8] == id + Zeros(4);
    assert x[16..] == LE(0, 8);
  }

  /** The open data block with its length patched is a complete block of everything behind its header. */
  lemma LengthPatched(f: Bytes, a: nat, content: Bytes)
    requires At(f, a, Encode(Block(ID_DT, [], []))) && At(f, a + 24, content)
    ensures At(WriteAt(f, a + 8, LE(HEADER_SIZE + |content|, 8)), a, Encode(Block(ID_DT, [], content)))
  {
    hide LE, WriteAt, LinkBytes, Encode, HeadBytes, At;
    var n := HEADER_SIZE + |content|;
    var f' := WriteAt(f, a + 8, LE(n, 8));
    var head, head' := HeadBytes(ID_DT, 24, 0), HeadBytes(ID_DT, n, 0);
    EncodePlain([]);
    EncodePlain(content);
    assert head + [] == head;
    AtInFile(f, a, head);
    HeadRelength(ID_DT, 24, n);
    AtInside(f, a, head, a + 8, LE(n, 8));
    AtFrame(f, a + 24, content, a + 8, LE(n, 8));
    AtConcat(f', a, head', content);
  }

  lemma EncodePlain(content: Bytes)
    ensures Encode(Block(ID_DT, [], content)) == HeadBytes(ID_DT, HEADER_SIZE + |content|, 0) + content
  {
    hide LE;
    assert LinkBytes([]) == [];
  }

  lemma GrowPatched(st: Store, h: Heap, a: nat, content: Bytes)
    requires StoreInv(st, h) && a in h && h[a] == Block(ID_DT, [], [])
    requires At(st.Image(), a + 24, content) && a + 24 + |content| <= st.End()
    requires forall k :: k in h ==> k + Size(h[k]) <= a + 24
    ensures StoreInv(st.AddPatch(a + 8, HEADER_SIZE + |content|), h[a := Block(ID_DT, [], content)])
  {
    hide Encode, LE, WriteAt, LinksBelow;
    var img, v, b := st.Image(), HEADER_SIZE + |content|, Block(ID_DT, [], content);
    ImageLength(st);
    assert BlockAt(img, a, h[a]);
    PatchedSnoc(st.disk + st.buf, st.patches, Patch(a + 8, v));
    var st' := st.AddPatch(a + 8, v);
    LengthPatched(img, a, content);
    forall k | k in h && k != a
      ensures BlockAt(st'.Image(), k, h[k]) && k + Size(h[k]) <= a
    {
      assert BlockAt(img, k, h[k]);
      assert k < a;
      AtFrame(img, k, Encode(h[k]), a + 8, LE(v, 8));
    }
    assert LinksBelow(b, st.End()) by { NoLinks(b, st.End()); }
    LastReplaced(st, st', h, a, b);
  }

  lemma NoLinks(b: Block, end: nat)
    requires b.links == []
    ensures LinksBelow(b, end)
  {
  }

  /** Another last block: no other one has moved. */
  lemma LastReplaced(st: Store, st': Store, h: Heap, a: nat, b: Block)
    requires StoreInv(st, h) && a in h && st'.End() == st.End() && InRange(st'.End(), st'.patches)
    requires forall k :: k in h && k != a ==> BlockAt(st'.Image(), k, h[k]) && k + Size(h[k]) <= a
    requires BlockAt(st'.Image(), a, b) && LinksBelow(b, st.End())
    ensures StoreInv(st', h[a := b])
  {
    hide BlockAt, LinksBelow, InRange;
  }

  /** A data block changed: metadata stays as it was. */
  lemma FileGrown(st: Store, h: Heap, st': Store, h': Heap, a: nat, v: nat, id: Bytes, gs0: seq<Group>,
                  lates: seq<Late>)
    requires FileInv(st, h, id, gs0, lates) && |id| == ID_SIZE && a in h && h[a].id == ID_DT
    requires st' == st.AddPatch(a + 8, v) && StoreInv(st', h') && KeptBut(h, h', {a}) && a in h'
    ensures FileInv(st', h', id, gs0, lates)
  {
    hide FileInv, StoreInv, HeadWrittenAs, GroupAt, NewGroups, NextDG, NewGroup, Linking, Keys, KeptBut;
    FileStoreInv(st, h, id, gs0, lates);
    FileParts(st, h, id, gs0, lates);
    HeadInv(st, h, id, NextDG(gs0, 0));
    BlockInside(st, h, a);
    DTIsNotMeta();
    KeptAll(h, h', a);
    HeaderKept(st, h, st', h', a + 8, v, id, NextDG(gs0, 0), {a});
    NewGroupsKept(h, h', gs0);
    forall i | 0 <= i < |gs0|
      ensures GroupAt(h', gs0[i], NextDG(gs0, i + 1), lates[i])
    {
      FileGroup(st, h, id, gs0, lates, i);
      DataNotKey(h, gs0[i], NextDG(gs0, i + 1), lates[i], a);
      GroupKept(h, h', {a}, gs0[i], NextDG(gs0, i + 1), lates[i]);
    }
    FileOf(st', h', id, gs0, lates);
  }

  lemma KeptAll(h: Heap, h': Heap, a: nat)
    requires KeptBut(h, h', {a}) && a in h'
    ensures forall k :: k in h ==> k in h'
  {
  }

  lemma DTIsNotMeta()
    ensures Linking(ID_DT) && ID_DT != ID_HD && ID_DT != ID_DG && ID_DT != ID_CG && ID_DT != ID_CN
  {
    assert ID_DT[3] != ID_HD[3] && ID_DT[3] != ID_DG[3] && ID_DT[3] != ID_CG[3] && ID_DT[3] != ID_CN[3];
  }

  lemma DataNotKey(h: Heap, g: Group, next: nat, late: Late, a: nat)
    requires GroupAt(h, g, next, late) && a in h && h[a].id == ID_DT
    ensures {a} !! Keys(g)
  {
    hide GroupAt;
    KeyKinds(h, g, next, late);
    DTIsNotMeta();
  }

  /** Streams that wrote nothing do not depend on the file. */
  lemma BufferedKept(h: Heap, h': Heap, z: Zlib, chunkSize: nat, chans: seq<Chan>, rows: seq<Row>)
    requires SignalsAre(h, z, chunkSize, chans, rows) && SignalsBuffered(chans)
    ensures SignalsAre(h', z, chunkSize, chans, rows)
  {
    hide TextStream;
    forall ci | 0 <= ci < |chans|
      ensures SignalIs(h', z, chunkSize, chans[ci], ci, rows)
    {
      var c := chans[ci];
      assert SignalIs(h, z, chunkSize, c, ci, rows) && c.sd.segs == [];
      if c.def.vlsd {
        var all := TextStream(rows, ci);
        var parts :| Parts(h, z, c.sd.id, c.sd.recSize, c.sd.segs, parts) && Concat(parts) + c.sd.buf == all
                     && WholeRecords(parts, c.sd.recSize, chunkSize);
        assert Parts(h', z, c.sd.id, c.sd.recSize, c.sd.segs, parts);
      }
    }
  }

  /** The growing layout while all signal data is still in memory. */
  lemma GrowingNow(z: Zlib, s: State, h: Heap, gs0: seq<Group>, hist: seq<seq<Row>>) returns (content: Bytes)
    requires Running(z, s, h, gs0, hist) && s.growing && SignalsBuffered(s.groups[0].chans)
    ensures |gs0| == |hist| == |s.groups| == 1 && content == DataStream(gs0[0].chans, hist[0])
    ensures FileInv(s.store, h, OpenID(s), gs0, OpenLates(gs0, s.growAddr))
    ensures SignalsAre(h, z, s.cfg.chunkSize, s.groups[0].chans, hist[0])
    ensures s.growAddr in h && h[s.growAddr] == Block(ID_DT, [], []) && s.growBytes == |content|
    ensures At(s.store.Image(), s.growAddr + 24, content) && s.store.End() == s.growAddr + 24 + s.growBytes
    ensures forall a :: a in h ==> a + Size(h[a]) <= s.growAddr + 24
  {
    hide FileInv, DataStream, SignalsAre, SignalsBuffered, SameMeta, RowsFit, FieldsInside, StreamIs, IDBytes, At;
    hide Size, OpenLates;
    assert GroupIs(h, z, s.cfg, true, s.groups[0], gs0[0], hist[0]);
    content := DataStream(gs0[0].chans, hist[0]);
  }

  /** The first patch of finalize: the open data block becomes complete. */
  lemma GrowLengthened(z: Zlib, s: State, h: Heap, gs0: seq<Group>, hist: seq<seq<Row>>) returns (h': Heap)
    requires Running(z, s, h, gs0, hist) && s.growing && SignalsBuffered(s.groups[0].chans)
    ensures |gs0| == 1
    ensures var st := s.store.AddPatch(s.growAddr + 8, HEADER_SIZE + s.growBytes);
            && FileInv(st, h', OpenID(s), gs0, OpenLates(gs0, s.growAddr))
            && DataLinkedTo(h', z, s.cfg, true, gs0[0], s.growAddr, hist[0])
            && SignalsAre(h', z, s.cfg.chunkSize, s.groups[0].chans, hist[0])
            && h' == h[s.growAddr := Block(ID_DT, [], DataStream(gs0[0].chans, hist[0]))]
  {
    hide FileInv, DataStream, SignalsAre, SignalsBuffered, StoreInv, IDBytes, Running, OpenLates, KeptBut, Linking;
    hide At, Size, Patchable;
    var content := GrowingNow(z, s, h, gs0, hist);
    var lates := OpenLates(gs0, s.growAddr);
    FileStoreInv(s.store, h, OpenID(s), gs0, lates);
    GrowPatched(s.store, h, s.growAddr, content);
    var b := Block(ID_DT, [], content);
    h' := h[s.growAddr := b];
    OneChanged(h, s.growAddr, b);
    FileGrown(s.store, h, s.store.AddPatch(s.growAddr + 8, HEADER_SIZE + s.growBytes), h', s.growAddr,
              HEADER_SIZE + s.growBytes, OpenID(s), gs0, lates);
    BufferedKept(h, h', z, s.cfg.chunkSize, s.groups[0].chans, hist[0]);
  }

  /** All of finalize in the growing layout, when no signal data was flushed before. */
  lemma GrowClosed(z: Zlib, s: State, h: Heap, gs0: seq<Group>, hist: seq<seq<Row>>)
    returns (h': Heap, lates: seq<Late>)
    requires Running(z, s, h, gs0, hist) && s.growing && SignalsBuffered(s.groups[0].chans) && WellTyped(s)
    requires ListsFit(s.groups[0])
    ensures |gs0| == |lates| == 1 && lates[0].data == s.growAddr
    ensures FileInv(Prepared(z, s), h', OpenID(s), gs0, lates)
    ensures GroupFinal(h', z, s.cfg, true, gs0[0], lates[0], hist[0])
  {
    hide FileInv, DataKept, KeptBut, SignalsAre, DataLinkedTo, FinalizeChans, SignalsLinked, StreamIs, DataStream;
    hide GrowIs, IDBytes;
    var h1 := GrowLengthened(z, s, h, gs0, hist);
    var st1 := s.store.AddPatch(s.growAddr + 8, HEADER_SIZE + s.growBytes);
    var lates1 := OpenLates(gs0, s.growAddr);
    var g, rows := s.groups[0], hist[0];
    assert GroupIs(h, z, s.cfg, true, g, gs0[0], rows) && TypedGroup(g);
    var h2, links := SignalsClosed(z, s.cfg, st1, h1, OpenID(s), gs0, lates1, 0, g.chans, rows, |g.chans|);
    var st2 := FinalizeChans(z, s.cfg.compress, st1, g.chans, |g.chans|);
    var lates2 := lates1[0 := lates1[0].(signals := links)];
    h' := PatchCount(st2, h2, OpenID(s), gs0, lates2, 0, g.count);
    lates := lates2[0 := lates2[0].(count := g.count)];
    CNIsMeta();
    LinkChangeKeepsData(h2, h', gs0[0].cgAddr);
    DataLinkedKept(h1, h2, z, s.cfg, true, gs0[0], s.growAddr, rows);
    DataLinkedKept(h2, h', z, s.cfg, true, gs0[0], s.growAddr, rows);
    SignalsLinkedKept(h2, h', z, s.cfg.chunkSize, gs0[0].chans, links, rows, |gs0[0].chans|);
    OneGroupPrepared(z, s);
  }

  lemma OneGroupPrepared(z: Zlib, s: State)
    requires WellTyped(s) && |s.groups| == 1 && s.growing
    ensures var g := s.groups[0];
            TypedGroup(g) && Prepared(z, s)
            == FinalizeChans(z, s.cfg.compress, s.store.AddPatch(s.growAddr + 8, HEADER_SIZE + s.growBytes), g.chans,
                             |g.chans|)
               .AddPatch(g.cgAddr + 24 + 6 * 8 + 8, g.count)
  {
    hide FinalizeChans;
    assert TypedGroup(s.groups[0]);
    assert FinalizeGroups(z, s, 0) == s.store;
    assert FinalizeGroups(z, s, 1) == FinalizeGroup(z, s, s.store, s.groups[0]);
  }

  // ---- either layout ----

  /** In the growing layout, whether every string channel still buffers all of its data. */
  ghost predicate InPlace(s: State) {
    s.growing ==> |s.groups| == 1 && SignalsBuffered(s.groups[0].chans)
  }

  /** After finalize has queued its patches, every link and counter is final. */
  lemma PreparedFinal(z: Zlib, s: State, h: Heap, gs0: seq<Group>, hist: seq<seq<Row>>)
    returns (h': Heap, lates: seq<Late>)
    requires Running(z, s, h, gs0, hist) && WellTyped(s) && InPlace(s)
    requires forall i :: 0 <= i < |s.groups| ==> ListsFit(s.groups[i])
    ensures FileInv(Prepared(z, s), h', OpenID(s), gs0, lates) && |lates| == |gs0|
    ensures forall i :: 0 <= i < |gs0| ==> GroupFinal(h', z, s.cfg, s.growing, gs0[i], lates[i], hist[i])
  {
    hide FileInv, GroupFinal, FinalizeGroups, GroupIs, GrowIs, ListsFit, IDBytes;
    if s.growing {
      h', lates := GrowClosed(z, s, h, gs0, hist);
    } else {
      h', lates := GroupsClosed(z, s, h, gs0, hist, |gs0|);
    }
  }
}
