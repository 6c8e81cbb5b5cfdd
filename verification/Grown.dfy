/** The growing layout closed after any history, long texts included: the file always opens, and its one data block
    covers as many bytes behind its head as were recorded, whatever stands there. */
module Grown {
  import opened Wire
  import opened Blocks
  import opened Meta
  import opened Zip
  import opened Store
  import opened WriterSpec
  import opened Written
  import opened Streams
  import opened Runs
  import opened History
  import opened Closing
  import opened SectionProof
  import opened TreeProof
  import opened Tree
  import opened Sections
  import opened RoundTrip

  // ---- the heap without the growing block ----

  ghost function Without(h: Heap, a: nat): Heap {
    map k | k in h && k != a :: h[k]
  }

  /** The metadata does not need the growing data block. */
  lemma FileWithout(st: Store, h: Heap, id: Bytes, gs: seq<Group>, lates: seq<Late>, a: nat)
    requires FileInv(st, h, id, gs, lates) && a in h && h[a].id == ID_DT
    ensures FileInv(st, Without(h, a), id, gs, lates)
  {
    hide FileInv, HeadWrittenAs, GroupAt, NewGroups, Keys, KeptBut, Linking;
    var h' := Without(h, a);
    FileParts(st, h, id, gs, lates);
    DTIsNotMeta();
    HeadWithout(st, h, id, NextDG(gs, 0), a);
    WithoutKept(h, a);
    forall i | 0 <= i < |gs|
      ensures GroupAt(h', gs[i], NextDG(gs, i + 1), lates[i]) && NewGroup(map[], h', gs[i])
    {
      FileGroup(st, h, id, gs, lates, i);
      DataNotKey(h, gs[i], NextDG(gs, i + 1), lates[i], a);
      GroupKept(h, h', {a}, gs[i], NextDG(gs, i + 1), lates[i]);
      NewGroupWithout(h, gs[i], a);
    }
    SeparateKept(h, h', gs);
    FileOf(st, h', id, gs, lates);
  }

  lemma WithoutKept(h: Heap, a: nat)
    ensures KeptBut(h, Without(h, a), {a}) && a !in Without(h, a)
  {
  }

  lemma HeadWithout(st: Store, h: Heap, id: Bytes, dgFirst: nat, a: nat)
    requires HeadWrittenAs(st, h, id, dgFirst) && a in h && h[a].id != ID_HD
    ensures HeadWrittenAs(st, Without(h, a), id, dgFirst)
  {
  }

  lemma NewGroupWithout(h: Heap, g: Group, a: nat)
    requires NewGroup(map[], h, g) && {a} !! Keys(g)
    ensures NewGroup(map[], Without(h, a), g)
  {
    assert forall i :: 0 <= i < |g.chans| ==> g.chans[i].cnAddr in Keys(g);
    assert g.dgAddr in Keys(g) && g.cgAddr in Keys(g);
  }

  lemma SeparateKept(h: Heap, h': Heap, gs: seq<Group>)
    requires NewGroups(h, gs, 0) && forall i :: 0 <= i < |gs| ==> NewGroup(map[], h', gs[i])
    ensures NewGroups(h', gs, 0)
  {
    hide NewGroup, Separate;
  }

  /** Signal data never lies in a data block, so it does not need the growing one. */
  lemma LinkedWithout(h: Heap, z: Zlib, chunkSize: nat, addr: nat, all: Bytes, a: nat)
    requires Linked(h, z, ID_SD, 0, chunkSize, addr, all) && a in h && h[a].id == ID_DT
    ensures Linked(Without(h, a), z, ID_SD, 0, chunkSize, addr, all)
  {
    hide WholeRecords, DZData, OffsetBytes;
    var h' := Without(h, a);
    var segs, parts :| Parts(h, z, ID_SD, 0, segs, parts) && LinkAt(h, addr, segs) && Concat(parts) == all
                       && WholeRecords(parts, 0, chunkSize) && |segs| < TWO_32;
    DTAlone();
    forall i | 0 <= i < |segs|
      ensures SegHolds(h', z, ID_SD, 0, segs[i], parts[i])
    {
      assert SegHolds(h, z, ID_SD, 0, segs[i], parts[i]);
    }
    assert LinkAt(h', addr, segs);
  }

  lemma DTAlone()
    ensures ID_DT != ID_SD && ID_DT != ID_DZ && ID_DT != ID_DL
  {
    assert ID_DT[2] != ID_SD[2] && ID_DT[3] != ID_DZ[3] && ID_DT[3] != ID_DL[3];
  }

  lemma SignalsWithout(h: Heap, z: Zlib, chunkSize: nat, cs0: seq<Chan>, links: seq<nat>, rows: seq<Row>, a: nat)
    requires SignalsLinked(h, z, chunkSize, cs0, links, rows, |cs0|) && a in h && h[a].id == ID_DT
    ensures SignalsLinked(Without(h, a), z, chunkSize, cs0, links, rows, |cs0|)
  {
    hide Linked, TextStream;
    forall ci | 0 <= ci < |cs0|
      ensures SignalLinked(Without(h, a), z, chunkSize, cs0[ci], ci, links[ci], rows)
    {
      assert SignalLinked(h, z, chunkSize, cs0[ci], ci, links[ci], rows);
      if cs0[ci].def.vlsd {
        LinkedWithout(h, z, chunkSize, links[ci], TextStream(rows, ci), a);
      }
    }
  }

  // ---- finalize without the length patch ----

  /** What finalize leaves pending in the growing layout, but for the length of the data block. */
  function Bare(z: Zlib, s: State): Store
    requires WellTyped(s) && |s.groups| == 1 && TypedGroup(s.groups[0])
  {
    var g := s.groups[0];
    FinalizeChans(z, s.cfg.compress, s.store, g.chans, |g.chans|).AddPatch(g.cgAddr + 24 + 6 * 8 + 8, g.count)
  }

  lemma BareFinal(z: Zlib, s: State, h: Heap, gs0: seq<Group>, hist: seq<seq<Row>>) returns (h': Heap, late: Late)
    requires Running(z, s, h, gs0, hist) && s.growing && WellTyped(s) && ListsFit(s.groups[0])
    ensures |gs0| == 1 && |s.groups| == 1 && TypedGroup(s.groups[0])
    ensures FileInv(Bare(z, s), h', OpenID(s), gs0, [late]) && DataKept(h, h')
    ensures late.data == s.growAddr && late.count == |hist[0]|
    ensures s.growAddr in h' && h'[s.growAddr] == Block(ID_DT, [], [])
    ensures SignalsLinked(h', z, s.cfg.chunkSize, gs0[0].chans, late.signals, hist[0], |gs0[0].chans|)
    ensures Bare(z, s).End() >= s.store.End()
  {
    hide FileInv, DataKept, KeptBut, SignalsAre, FinalizeChans, SignalsLinked, StreamIs, DataStream, IDBytes;
    hide SignalsBuffered;
    var lates := OpenLates(gs0, s.growAddr);
    var g, rows := s.groups[0], hist[0];
    assert GroupIs(h, z, s.cfg, true, g, gs0[0], rows) && TypedGroup(g);
    var h1, links := SignalsClosed(z, s.cfg, s.store, h, OpenID(s), gs0, lates, 0, g.chans, rows, |g.chans|);
    var st1 := FinalizeChans(z, s.cfg.compress, s.store, g.chans, |g.chans|);
    var lates1 := lates[0 := lates[0].(signals := links)];
    h' := PatchCount(st1, h1, OpenID(s), gs0, lates1, 0, g.count);
    late := lates1[0].(count := g.count);
    assert lates1[0 := late] == [late];
    CNIsMeta();
    LinkChangeKeepsData(h1, h', gs0[0].cgAddr);
    DataKeptTrans(h, h1, h');
    SignalsLinkedKept(h1, h', z, s.cfg.chunkSize, gs0[0].chans, links, rows, |gs0[0].chans|);
    DataIds();
    BlockKept(h, h', s.growAddr);
  }

  lemma BlockKept(h: Heap, h': Heap, a: nat)
    requires DataKept(h, h') && a in h && !MetaId(h[a].id)
    ensures a in h' && h'[a] == h[a]
  {
  }

  // ---- the length patch comes first, but could come last ----

  lemma LinkUnpatched(z: Zlib, compress: bool, st: Store, cs: Stream, ps: seq<Patch>)
    requires |cs.id| == 4
    ensures var (a, b) := (LinkStream(z, compress, st, cs), LinkStream(z, compress, st.(patches := ps), cs));
            b == (a.0.(patches := ps), a.1, a.2)
    ensures LinkStream(z, compress, st, cs).0.patches == st.patches
  {
    hide ChunkBlock, DLBlock, Encode;
  }

  /** The patch fills the signal data link of one of these channels. */
  ghost predicate SignalPatch(chans: seq<Chan>, p: Patch) {
    exists k :: 0 <= k < |chans| && p.off == chans[k].cnAddr + 64
  }

  /** Patches queued before do not influence what finalizing the channels writes, and stand in front. */
  lemma {:induction false} ChansUnpatched(z: Zlib, compress: bool, st: Store, chans: seq<Chan>, n: nat, ps: seq<Patch>)
    requires n <= |chans| && st.patches == [] && forall i :: 0 <= i < |chans| ==> |chans[i].sd.id| == 4
    ensures var b := FinalizeChans(z, compress, st, chans, n);
            && FinalizeChans(z, compress, st.(patches := ps), chans, n) == b.(patches := ps + b.patches)
            && forall i :: 0 <= i < |b.patches| ==> SignalPatch(chans, b.patches[i])
  {
    hide LinkStream;
    if n == 0 {
      assert ps + [] == ps;
    } else {
      ChansUnpatched(z, compress, st, chans, n - 1, ps);
      var b := FinalizeChans(z, compress, st, chans, n - 1);
      var c := chans[n - 1];
      if c.def.vlsd {
        LinkUnpatched(z, compress, b, c.sd, ps + b.patches);
        var a := LinkStream(z, compress, b, c.sd).2;
        assert ps + b.patches + [Patch(c.cnAddr + 64, a)] == ps + (b.patches + [Patch(c.cnAddr + 64, a)]);
      }
    }
  }

  lemma WriteAtCommute(f: Bytes, a: nat, x: Bytes, b: nat, y: Bytes)
    requires a + |x| <= |f| && b + |y| <= |f| && (a + |x| <= b || b + |y| <= a)
    ensures WriteAt(WriteAt(f, a, x), b, y) == WriteAt(WriteAt(f, b, y), a, x)
  {
    WriteAtInside(f, a, x);
    WriteAtInside(f, b, y);
    var fx, fy := WriteAt(f, a, x), WriteAt(f, b, y);
    WriteAtInside(fx, b, y);
    WriteAtInside(fy, a, x);
    hide WriteAt;
    var l, r := fx[..b] + y + fx[b + |y|..], fy[..a] + x + fy[a + |x|..];
    assert |l| == |f| && |r| == |f|;
    forall i | 0 <= i < |f|
      ensures l[i] == r[i]
    {
    }
  }

  ghost predicate Apart(p: Patch, ps: seq<Patch>) {
    forall i :: 0 <= i < |ps| ==> ps[i].off + 8 <= p.off || p.off + 8 <= ps[i].off
  }

  lemma {:induction false} PatchedFirst(f: Bytes, p: Patch, ps: seq<Patch>)
    requires InRange(|f|, ps) && p.off + 8 <= |f| && Apart(p, ps)
    ensures Patched(f, [p] + ps) == WriteAt(Patched(f, ps), p.off, LE(p.val, 8))
  {
    hide LE, WriteAt;
    if ps == [] {
      assert [p] + ps == [] + [p];
      PatchedSnoc(f, [], p);
    } else {
      var init, last := ps[..|ps| - 1], ps[|ps| - 1];
      PatchedFirst(f, p, init);
      assert [p] + ps == ([p] + init) + [last];
      PatchedSnoc(f, [p] + init, last);
      PatchedLength(f, init);
      WriteAtCommute(Patched(f, init), p.off, LE(p.val, 8), last.off, LE(last.val, 8));
    }
  }

  /** The final file in the growing layout is what finalize would leave without the length patch, with those eight
      bytes of the data block's head overwritten. */
  lemma LengthLast(z: Zlib, s: State, h': Heap, gs0: seq<Group>, late: Late, rows: seq<Row>, h: Heap)
    requires Running(z, s, h, gs0, [rows]) && s.growing && WellTyped(s) && |gs0| == |s.groups| == 1
    requires TypedGroup(s.groups[0]) && FileInv(Bare(z, s), h', OpenID(s), gs0, [late])
    requires s.growAddr in h' && h'[s.growAddr] == Block(ID_DT, [], [])
    ensures Prepared(z, s).End() == Bare(z, s).End() && s.growAddr + 24 <= Bare(z, s).End()
    ensures Prepared(z, s).Image() == WriteAt(Bare(z, s).Image(), s.growAddr + 8, LE(HEADER_SIZE + s.growBytes, 8))
    ensures Prepared(z, s).disk == Bare(z, s).disk && Prepared(z, s).buf == Bare(z, s).buf
    ensures Prepared(z, s).patches == [Patch(s.growAddr + 8, HEADER_SIZE + s.growBytes)] + Bare(z, s).patches
  {
    hide FileInv, FinalizeChans, LE, WriteAt, IDBytes, GrowIs, GroupIs, Prepared;
    var g, p := s.groups[0], Patch(s.growAddr + 8, HEADER_SIZE + s.growBytes);
    OneGroupPrepared(z, s);
    ChansUnpatched(z, s.cfg.compress, s.store, g.chans, |g.chans|, [p]);
    assert s.store.AddPatch(p.off, p.val) == s.store.(patches := [p]);
    var b := Bare(z, s);
    var inner := FinalizeChans(z, s.cfg.compress, s.store, g.chans, |g.chans|).patches;
    var count := Patch(g.cgAddr + 24 + 6 * 8 + 8, g.count);
    assert [p] + inner + [count] == [p] + b.patches;
    FileStoreInv(b, h', OpenID(s), gs0, [late]);
    PatchesApart(z, s, h', gs0, late, rows, h, inner);
    InRangeOf(b, h');
    BlockInside(b, h', s.growAddr);
    PatchedFirst(b.disk + b.buf, p, b.patches);
  }

  lemma PatchesApart(z: Zlib, s: State, h': Heap, gs0: seq<Group>, late: Late, rows: seq<Row>, h: Heap,
                     inner: seq<Patch>)
    requires Running(z, s, h, gs0, [rows]) && s.growing && |gs0| == |s.groups| == 1
    requires WellTyped(s) && TypedGroup(s.groups[0]) && FileInv(Bare(z, s), h', OpenID(s), gs0, [late])
    requires s.growAddr in h' && h'[s.growAddr] == Block(ID_DT, [], [])
    requires forall i :: 0 <= i < |inner| ==> SignalPatch(s.groups[0].chans, inner[i])
    requires Bare(z, s).patches == inner + [Patch(s.groups[0].cgAddr + 80, s.groups[0].count)]
    ensures Apart(Patch(s.growAddr + 8, HEADER_SIZE + s.growBytes), Bare(z, s).patches)
  {
    hide FileInv, Bare, IDBytes, GrowIs, HeadWrittenAs, Encode, StoreInv, GroupAt, Size, SignalsAre, DataStream;
    hide FieldsInside, RowsFit;
    hide SignalPatch;
    var g, g0, ps := s.groups[0], gs0[0], Bare(z, s).patches;
    assert GroupIs(h, z, s.cfg, true, g, g0, rows);
    assert SameMeta(g, g0);
    FileStoreInv(Bare(z, s), h', OpenID(s), gs0, [late]);
    FileGroup(Bare(z, s), h', OpenID(s), gs0, [late], 0);
    KeyKinds(h', g0, NextDG(gs0, 1), late);
    MetaSizes(h', g0, NextDG(gs0, 1), late);
    DTIsNotMeta();
    forall i | 0 <= i < |ps|
      ensures ps[i].off + 8 <= s.growAddr + 8 || s.growAddr + 16 <= ps[i].off
    {
      var b := Bare(z, s);
      if i < |inner| {
        var k := PatchedChan(g.chans, inner[i]);
        OtherBlock(b, h', g0.chans[k].cnAddr, s.growAddr);
      } else {
        OtherBlock(b, h', g0.cgAddr, s.growAddr);
      }
      PlainSize();
    }
  }

  lemma PatchedChan(chans: seq<Chan>, p: Patch) returns (k: nat)
    requires SignalPatch(chans, p)
    ensures k < |chans| && p.off == chans[k].cnAddr + 64
  {
    k :| 0 <= k < |chans| && p.off == chans[k].cnAddr + 64;
  }

  lemma PlainSize()
    ensures Size(Block(ID_DT, [], [])) == 24
  {
  }

  lemma OtherBlock(st: Store, h: Heap, a: nat, b: nat)
    requires StoreInv(st, h) && a in h && b in h && a != b
    ensures a + Size(h[a]) <= b || b + Size(h[b]) <= a
  {
  }

  lemma MetaSizes(h: Heap, g: Group, next: nat, late: Late)
    requires GroupAt(h, g, next, late)
    ensures g.cgAddr in h && Size(h[g.cgAddr]) >= 88
    ensures forall k :: 0 <= k < |g.chans| ==> g.chans[k].cnAddr in h && Size(h[g.chans[k].cnAddr]) >= 72
  {
    hide LE;
    forall k | 0 <= k < |g.chans|
      ensures g.chans[k].cnAddr in h && Size(h[g.chans[k].cnAddr]) >= 72
    {
      assert ChanAt(h, g.chans[k].cnAddr, g.chans[k].def, NextCN(g.chans, k + 1), late.signals[k]);
    }
  }

  // ---- the closed file ----

  /** Behind the head of the data block, as many bytes as were recorded. */
  function Covered(f: Bytes, a: nat, n: nat): Bytes
    requires a + 24 + n <= |f|
  {
    f[a + 24..a + 24 + n]
  }

  /** The blocks but the one at a are out of reach of a patch of its length. */
  lemma RestKept(st: Store, h: Heap, f0: Bytes, a: nat, v: Bytes)
    requires StoreInv(st, h) && HeapIn(f0, h) && |f0| == st.End()
    requires a in h && h[a] == Block(ID_DT, [], []) && |v| == 8 && a + 24 <= st.End()
    ensures HeapIn(WriteAt(f0, a + 8, v), Without(h, a))
  {
    hide LE, Encode, StoreInv, WriteAt;
    forall k | k in Without(h, a)
      ensures ValidBlock(h[k]) && At(WriteAt(f0, a + 8, v), k, Encode(h[k])) && 0 < k < TWO_63
    {
      HeapOf(f0, h, k);
      OtherBlock(st, h, k, a);
      AtFrame(f0, k, Encode(h[k]), a + 8, v);
    }
  }

  /** The patch of the length in a file that starts with the identification block. */
  lemma PatchedHead(f0: Bytes, id: Bytes, a: nat, n: nat)
    requires |id| == ID_SIZE <= a && At(f0, 0, id) && At(f0, a, Encode(Block(ID_DT, [], []))) && a + 24 + n <= |f0|
    requires |f0| < TWO_63
    ensures var f := WriteAt(f0, a + 8, LE(HEADER_SIZE + n, 8));
            |f| == |f0| && At(f, 0, id) && At(f, a, Encode(Block(ID_DT, [], Covered(f, a, n))))
  {
    hide LE, Encode, HeadBytes, LinkBytes, WriteAt;
    var v := LE(HEADER_SIZE + n, 8);
    var f := WriteAt(f0, a + 8, v);
    WriteAtInside(f0, a + 8, v);
    assert f0[a + 24..a + 24 + n] == Covered(f, a, n);
    LengthPatched(f0, a, Covered(f, a, n));
    AtFrame(f0, 0, id, a + 8, v);
  }

  lemma GrownHeap(st: Store, h: Heap, id: Bytes, a: nat, n: nat)
    requires StoreInv(st, h) && st.End() < TWO_63 && |id| == ID_SIZE
    requires a in h && h[a] == Block(ID_DT, [], []) && a + 24 + n <= st.End()
    ensures |st.Image()| == st.End() && ID_SIZE <= a
    ensures var f := WriteAt(WriteAt(st.Image(), a + 8, LE(HEADER_SIZE + n, 8)), 0, id);
            && HeapIn(f, Without(h, a)) && At(f, 0, id) && |f| == st.End()
            && At(f, a, Encode(Block(ID_DT, [], Covered(f, a, n))))
  {
    hide LE, Encode, StoreInv, WriteAt, HeapIn, Without, At, Covered;
    var v := LE(HEADER_SIZE + n, 8);
    HeapRewritten(st, h, id);
    ImageLength(st) by { InRangeOf(st, h); }
    var f0 := WriteAt(st.Image(), 0, id);
    HeapOf(f0, h, a);
    BlockLow(st, h, a);
    WriteAtCommute(st.Image(), a + 8, v, 0, id);
    PatchedHead(f0, id, a, n);
    RestKept(st, h, f0, a, v);
  }

  lemma FinalSize(st: Store, h: Heap, id: Bytes, a: nat, n: nat)
    requires StoreInv(st, h) && |id| == ID_SIZE && a + 24 <= st.End()
    ensures |WriteAt(WriteAt(st.Image(), a + 8, LE(HEADER_SIZE + n, 8)), 0, id)| == st.End()
  {
    hide LE, WriteAt;
    EndPositive(st, h);
    InRangeOf(st, h);
    ImageLength(st);
  }

  lemma HeapOf(f: Bytes, h: Heap, a: nat)
    requires HeapIn(f, h) && a in h
    ensures ValidBlock(h[a]) && At(f, a, Encode(h[a])) && 0 < a < TWO_63
  {
  }

  lemma BlockLow(st: Store, h: Heap, a: nat)
    requires StoreInv(st, h) && a in h
    ensures a >= ID_SIZE
  {
    assert BlockAt(st.Image(), a, h[a]);
  }

  lemma SectionUnique(f: Bytes, z: Zlib, addr: int, clamp: bool, x: Bytes, y: Bytes)
    requires SectionIs(f, z, addr, clamp, x) && SectionIs(f, z, addr, clamp, y)
    ensures x == y
  {
    hide Resolve, ByteAt, SizeOf, Disjoint;
    forall k: nat | k < |x|
      ensures x[k] == y[k]
    {
      assert ByteAt(f, z, Resolve(f, addr, clamp).value, k) == Some(x[k]);
    }
  }

  /** What Open returns for a closed file of the growing layout, whatever became of its records. */
  ghost predicate GrownOpen(env: Env, f: Bytes, a: nat, n: nat, g: Group, rows: seq<Row>) {
    var r := Open(env, f);
    && r.Ok? && r.value.version == VERSION && !r.value.finalize && |r.value.groups| == 1
    && r.value.groups[0].data == a && a + 24 + n <= |f|
    && GroupShows(f, env.z, r.value.groups[0], g, rows)
    && SectionIs(f, env.z, a, false, Covered(f, a, n))
  }

  lemma GrownSeen(env: Env, f: Bytes, st: Store, h: Heap, id: Bytes, g: Group, g0: Group, late: Late, rows: seq<Row>,
                  chunkSize: nat, program: Bytes, n: nat)
    requires HeapIn(f, h) && FileInv(st, h, id, [g0], [late]) && LegibleGroup(g0) && late.count == |rows| < TWO_64
    requires At(f, 0, IDBytes(program, VERSION, VERSION_STRING, 0)) && Lossless(env.z)
    requires SignalsLinked(h, env.z, chunkSize, g0.chans, late.signals, rows, |g0.chans|)
             && SameGroup(g0, Restreamed(g))
    requires forall ci :: 0 <= ci < |g.chans| && g.chans[ci].def.vlsd ==> |TextStream(rows, ci)| < TWO_63
    requires late.data + 24 + n <= |f| < TWO_63 && 0 < late.data
    requires At(f, late.data, Encode(Block(ID_DT, [], Covered(f, late.data, n))))
    ensures GrownOpen(env, f, late.data, n, g, rows)
  {
    hide HeapIn, FileInv, LegibleGroup, Open, IDBytes, GroupViewOf, SignalsLinked, TextStream, SectionIs, GroupShows;
    hide Encode;
    OpenRead(env, f, st, h, id, [g0], [late], program, 0);
    GroupShown(f, env.z, h, chunkSize, g, g0, late, rows);
    OneView(g0, late);
    var b := Block(ID_DT, [], Covered(f, late.data, n));
    BlockIn(f, late.data, b);
    GrownRead(f, env.z, map[late.data := b], late.data, Covered(f, late.data, n));
    assert GroupViewOf(g0, late).data == late.data by { ViewFields(g, g0, late); }
  }

  lemma OneView(g0: Group, late: Late)
    requires |late.signals| == |g0.chans|
    ensures Paired([g0], [late]) && GroupViewsFrom([g0], [late], 0) == [GroupViewOf(g0, late)]
  {
    hide GroupViewOf;
    assert GroupViewsFrom([g0], [late], 1) == [];
  }

  lemma BlockIn(f: Bytes, a: nat, b: Block)
    requires b.id == ID_DT && b.links == [] && At(f, a, Encode(b)) && 0 < a && |f| < TWO_63
    ensures HeapIn(f, map[a := b])
  {
    hide LE;
  }

  /** The recording before Close, and the heap of blocks Close leaves. */
  ghost predicate GrownState(z: Zlib, s: State, cfg: Config, h0: Heap, h: Heap, g0: Group, rows: seq<Row>) {
    && Running(z, s, h0, [g0], [rows]) && s.growing && |s.groups| == 1 && s.cfg == cfg
    && DataKept(h0, h) && s.growAddr in h && h[s.growAddr].id == ID_DT && 0 < s.growAddr
  }

  /** All blocks but the growing one stand as they were written. */
  ghost predicate GrownTree(z: Zlib, s: State, h: Heap, g0: Group, late: Late, rows: seq<Row>) {
    && WellTyped(s) && |s.groups| == 1 && TypedGroup(s.groups[0])
    && FileInv(Bare(z, s), Without(h, s.growAddr), OpenID(s), [g0], [late])
    && late.data == s.growAddr && late.count == |rows|
    && SignalsLinked(Without(h, s.growAddr), z, s.cfg.chunkSize, g0.chans, late.signals, rows, |g0.chans|)
  }

  /** In the file, the growing block covers as many bytes as were recorded. */
  ghost predicate GrownFile(z: Zlib, s: State, cfg: Config, h: Heap, f: Bytes) {
    && WellTyped(s) && |s.groups| == 1 && TypedGroup(s.groups[0]) && |f| == Bare(z, s).End()
    && HeapIn(f, Without(h, s.growAddr)) && At(f, 0, FinalID(cfg)) && s.growAddr + 24 + s.growBytes <= |f| < TWO_63
    && At(f, s.growAddr, Encode(Block(ID_DT, [], Covered(f, s.growAddr, s.growBytes))))
  }

  ghost predicate GrownShape(z: Zlib, s: State, cfg: Config, f: Bytes, h0: Heap, h: Heap, gs0: seq<Group>,
                             late: Late, rows: seq<Row>)
  {
    && |gs0| == 1 && GrownState(z, s, cfg, h0, h, gs0[0], rows) && GrownTree(z, s, h, gs0[0], late, rows)
    && GrownFile(z, s, cfg, h, f)
  }

  /** Where a recording of the growing layout ends up after Close. */
  lemma GrownClosed(z: Zlib, s0: State, ops: seq<Op>) returns (h0: Heap, h: Heap, late: Late)
    requires Defined(s0) && WellTyped(s0) && LegalOps(s0, ops) && CanBegin(s0) && Growing(s0)
    requires LegibleGroup(s0.groups[0]) && Expressible(z, s0, ops)
    ensures |s0.groups| == 1
    ensures GrownShape(z, Recorded(z, s0, ops), s0.cfg, Close(z, Run(z, s0, ops)).store.disk, h0, h, Begin(s0).groups,
                       late, RowsOf(ops, 0))
  {
    hide Begin, Running, FileInv, Defined, CanBegin, LegibleGroup, TextStream, DataStream, Hist, Prepared, Run, Close;
    hide Recorded, ListsFit, SameGroup, Restreamed, HeapIn, WriteAt, Bare, SignalsLinked, FinalID, IDBytes;
    hide Covered, Without, DataKept, StoreInv, LE, Encode, LegalOps, WellTyped;
    var s := Recorded(z, s0, ops);
    h0 := RecordedRunning(z, s0, ops);
    var gs0, hist := Begin(s0).groups, Hist(ops, |s0.groups|);
    var g, g0, rows := s0.groups[0], gs0[0], RowsOf(ops, 0);
    HistAt(ops, |s0.groups|, 0);
    GrownGroup(z, s, h0, gs0, hist);
    DefsKept(s0, 0);
    assert gs0 == [g0] && hist == [rows];
    GrownFacts(z, s0, ops, s, h0, g, g0, rows);
    h, late := BareFinal(z, s, h0, gs0, hist);
    LengthLast(z, s, h, gs0, late, rows, h0);
    FileStoreInv(Bare(z, s), h, OpenID(s), gs0, [late]);
    FinalSize(Bare(z, s), h, FinalID(s0.cfg), s.growAddr, s.growBytes);
    GrownHeap(Bare(z, s), h, FinalID(s0.cfg), s.growAddr, s.growBytes);
    FileWithout(Bare(z, s), h, OpenID(s), gs0, [late], s.growAddr);
    SignalsWithout(h, z, s.cfg.chunkSize, g0.chans, late.signals, rows, s.growAddr);
  }

  /** For every history in the growing layout the closed file opens with all definitions, the record count and the
      signal data; its data section is what stands behind the block head. */
  lemma GrownOpens(env: Env, s0: State, ops: seq<Op>)
    requires Defined(s0) && WellTyped(s0) && LegalOps(s0, ops) && CanBegin(s0) && Growing(s0) && Lossless(env.z)
    requires LegibleGroup(s0.groups[0]) && Expressible(env.z, s0, ops)
    ensures var f, g, rows := Close(env.z, Run(env.z, s0, ops)).store.disk, s0.groups[0], RowsOf(ops, 0);
            GrownOpen(env, f, Recorded(env.z, s0, ops).growAddr, |DataStream(g.chans, rows)|, g, rows)
  {
    hide Begin, Running, FileInv, Defined, CanBegin, LegibleGroup, TextStream, DataStream, Prepared, Run, Close;
    hide Recorded, ListsFit, SameGroup, Restreamed, Open, HeapIn, WriteAt, Lossless, Bare, GrownOpen, SignalsLinked;
    hide FinalID;
    hide Covered, Without, DataKept, LE, Encode, LegalOps, WellTyped, IDBytes;
    var z := env.z;
    var h0, h, late := GrownClosed(z, s0, ops);
    var s, f := Recorded(z, s0, ops), Close(z, Run(z, s0, ops)).store.disk;
    var g, g0, rows := s0.groups[0], Begin(s0).groups[0], RowsOf(ops, 0);
    DefsKept(s0, 0);
    GrownFacts(z, s0, ops, s, h0, g, g0, rows);
    FinalIDIs(s0.cfg);
    GrownSeen(env, f, Bare(z, s), Without(h, s.growAddr), OpenID(s), g, g0, late, rows, s.cfg.chunkSize, s0.cfg.program,
              s.growBytes);
  }

  lemma FinalIDIs(cfg: Config)
    ensures FinalID(cfg) == IDBytes(cfg.program, VERSION, VERSION_STRING, 0)
  {
  }

  lemma GrownGroup(z: Zlib, s: State, h: Heap, gs0: seq<Group>, hist: seq<seq<Row>>)
    requires Running(z, s, h, gs0, hist) && s.growing
    ensures |gs0| == |hist| == |s.groups| == 1
  {
    hide FileInv, GroupIs, GrowIs;
  }

  lemma GrownFacts(z: Zlib, s0: State, ops: seq<Op>, s: State, h: Heap, g: Group, g0: Group, rows: seq<Row>)
    requires Defined(s0) && WellTyped(s0) && LegalOps(s0, ops) && CanBegin(s0) && Growing(s0) && Expressible(z, s0, ops)
    requires s == Recorded(z, s0, ops) && g == s0.groups[0] && rows == RowsOf(ops, 0) && LegibleGroup(g)
    requires Running(z, s, h, [g0], [rows]) && s.growing && SameGroup(g0, Restreamed(g))
    ensures |s.groups| == 1 && ListsFit(s.groups[0]) && |rows| < TWO_64 && LegibleGroup(g0)
    ensures s.growBytes == |DataStream(g.chans, rows)| && s.growAddr + 24 + s.growBytes <= s.store.End()
    ensures |Close(z, Run(z, s0, ops)).store.disk| < TWO_63
    ensures forall ci :: 0 <= ci < |g.chans| && g.chans[ci].def.vlsd ==> |TextStream(rows, ci)| < TWO_63
  {
    hide Begin, FileInv, LegibleGroup, TextStream, ListsFit, Recorded, Close, Run, CanBegin, SignalsAre;
    hide SignalsBuffered, Stops, IDBytes;
    LegibleKept(g, g0);
    assert GroupIs(h, z, s.cfg, true, s.groups[0], [g0][0], [rows][0]);
    assert FreshGroup(g);
    SameRows(g0, g, rows);
    FewRows(g, rows);
    DataSame(g0.chans, g.chans, rows);
  }

  /** The exact condition: the closed file reads back if and only if the recorded bytes stand behind the block head. */
  lemma GrownReadsIff(env: Env, s0: State, ops: seq<Op>)
    requires Defined(s0) && WellTyped(s0) && LegalOps(s0, ops) && CanBegin(s0) && Growing(s0) && Lossless(env.z)
    requires LegibleGroup(s0.groups[0]) && Expressible(env.z, s0, ops)
    ensures var f, g, rows := Close(env.z, Run(env.z, s0, ops)).store.disk, s0.groups[0], RowsOf(ops, 0);
            && Open(env, f).Ok? && |Open(env, f).value.groups| == 1
            && (GroupReads(f, env.z, Open(env, f).value.groups[0], g, rows)
                <==> At(f, Recorded(env.z, s0, ops).growAddr + 24, DataStream(g.chans, rows)))
  {
    hide Begin, Defined, CanBegin, LegibleGroup, DataStream, Run, Close, Recorded, Open, Lossless, SectionIs;
    hide GroupShows;
    hide LegalOps, WellTyped, Expressible;
    GrownOpens(env, s0, ops);
    var f, g, rows := Close(env.z, Run(env.z, s0, ops)).store.disk, s0.groups[0], RowsOf(ops, 0);
    var a, data := Recorded(env.z, s0, ops).growAddr, DataStream(g.chans, rows);
    if GroupReads(f, env.z, Open(env, f).value.groups[0], g, rows) {
      SectionUnique(f, env.z, a, false, data, Covered(f, a, |data|));
    }
  }
}
