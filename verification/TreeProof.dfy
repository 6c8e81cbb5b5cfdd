/** The tree walk over a written file finds every group and channel in definition order. */
module TreeProof {
  import opened Wire
  import opened Blocks
  import opened Meta
  import opened Store
  import opened WriterSpec
  import opened Written
  import opened Tree
  import opened SectionProof

  /** Text that survives: it has no NUL byte; as a unit or comment it is not mistaken for XML. */
  ghost predicate Plain(s: Bytes) { 0 !in s }

  ghost predicate PlainComment(s: Bytes) { 0 !in s && (s == [] || s[0] != 0x3C) }

  ghost predicate Legible(d: ChanDef) {
    && Plain(d.name) && PlainComment(d.unit) && PlainComment(d.comment)
    && d.field.byteOffset < TWO_32 && d.field.bitCount < TWO_32
    && (d.conv.Some? ==> d.conv.value.a < TWO_64 && d.conv.value.b < TWO_64)
  }

  ghost predicate LegibleGroup(g: Group) {
    && Plain(g.name) && g.recSize < TWO_32
    && forall i :: 0 <= i < |g.chans| ==> Legible(g.chans[i].def)
  }

  // ---- what the reader is expected to see ----

  ghost function ConvView(c: Option<Linear>): Option<CC> {
    match c
    case None => None
    case Some(l) => Some(CC(CC_LINEAR, 0, [], [l.b, l.a]))
  }

  ghost function ViewOf(d: ChanDef, data: nat): ChannelView {
    ChannelView(d.name, d.unit, d.comment, d.field, 0, 0, 0, 0, data, ConvView(d.conv))
  }

  ghost function ViewsFrom(chans: seq<Chan>, data: seq<nat>, n: nat): seq<ChannelView>
    requires n <= |chans| == |data|
    decreases |chans| - n
  {
    if n == |chans| then [] else [ViewOf(chans[n].def, data[n])] + ViewsFrom(chans, data, n + 1)
  }

  ghost function GroupViewOf(g: Group, late: Late): GroupView
    requires |late.signals| == |g.chans|
  {
    GroupView(g.name, [], late.count, g.recSize, 0, 0, late.data, ViewsFrom(g.chans, late.signals, 0))
  }

  ghost predicate Paired(gs: seq<Group>, lates: seq<Late>) {
    |lates| == |gs| && forall i :: 0 <= i < |gs| ==> |lates[i].signals| == |gs[i].chans|
  }

  ghost function GroupViewsFrom(gs: seq<Group>, lates: seq<Late>, n: nat): seq<GroupView>
    requires n <= |gs| && Paired(gs, lates)
    decreases |gs| - n
  {
    if n == |gs| then [] else [GroupViewOf(gs[n], lates[n])] + GroupViewsFrom(gs, lates, n + 1)
  }

  lemma {:induction false} ViewsAt(chans: seq<Chan>, data: seq<nat>, n: nat)
    requires n <= |chans| == |data|
    ensures |ViewsFrom(chans, data, n)| == |chans| - n
    ensures forall i :: n <= i < |chans| ==> ViewsFrom(chans, data, n)[i - n] == ViewOf(chans[i].def, data[i])
    decreases |chans| - n
  {
    if n < |chans| {
      ViewsAt(chans, data, n + 1);
    }
  }

  lemma {:induction false} GroupViewsAt(gs: seq<Group>, lates: seq<Late>, n: nat)
    requires n <= |gs| && Paired(gs, lates)
    ensures |GroupViewsFrom(gs, lates, n)| == |gs| - n
    ensures forall i :: n <= i < |gs| ==> GroupViewsFrom(gs, lates, n)[i - n] == GroupViewOf(gs[i], lates[i])
    decreases |gs| - n
  {
    hide GroupViewOf;
    if n < |gs| {
      GroupViewsAt(gs, lates, n + 1);
      var views, more := GroupViewsFrom(gs, lates, n), GroupViewsFrom(gs, lates, n + 1);
      forall i | n <= i < |gs|
        ensures views[i - n] == GroupViewOf(gs[i], lates[i])
      {
        if i > n {
          assert views[i - n] == more[i - (n + 1)];
        }
      }
    }
  }

  // ---- chains are no longer than the file ----

  lemma {:induction false} DistinctBelow(s: seq<nat>, n: nat)
    requires forall i :: 0 <= i < |s| ==> s[i] < n
    requires forall i, j :: 0 <= i < j < |s| ==> s[i] != s[j]
    ensures |s| <= n
  {
    assert s != [] ==> s[0] < n;
    if n > 0 {
      if k :| 0 <= k < |s| && s[k] == n - 1 {
        DistinctBelow(s[..k] + s[k + 1..], n - 1);
      } else {
        DistinctBelow(s, n - 1);
      }
    }
  }

  // ---- leaves ----

  lemma TextRead(f: Bytes, h: Heap, a: nat, s: Bytes)
    requires HeapIn(f, h) && TextAt(h, a, s) && Plain(s)
    ensures DecodeText(f, a) == Ok(s)
  {
    TextRoundTrip(f, a, s);
  }

  lemma CommentRead(env: Env, f: Bytes, h: Heap, a: nat, s: Bytes)
    requires HeapIn(f, h) && OptionalAt(h, a, s) && PlainComment(s)
    ensures CommentText(env, f, a) == Ok(s)
  {
    hide DecodeText;
    if s == [] {
      NilText(f);
    } else {
      TextRead(f, h, a, s);
    }
  }

  lemma NilText(f: Bytes)
    ensures DecodeText(f, 0) == Ok([])
  {
  }

  lemma ConvRead(f: Bytes, h: Heap, a: nat, c: Option<Linear>)
    requires HeapIn(f, h) && ConvAt(h, a, c) && (c.Some? ==> c.value.a < TWO_64 && c.value.b < TWO_64)
    ensures DecodeCC(f, a) == Ok(ConvView(c))
  {
    if c.Some? {
      CCFields(f, a, c.value);
    }
  }

  lemma ChannelRead(env: Env, f: Bytes, h: Heap, a: nat, d: ChanDef, next: nat, data: nat)
    requires HeapIn(f, h) && ChanAt(h, a, d, next, data) && Legible(d)
    ensures DecodeCN(f, a).Ok? && DecodeCN(f, a).value.next == next && 0 < a
    ensures BuildChannel(env, f, DecodeCN(f, a).value) == Ok(ViewOf(d, data))
  {
    hide DecodeText, CommentText, DecodeCC, DecodeCN, TextAt, ConvAt, OptionalAt, Plain, PlainComment, Encode, ConvView;
    var l := h[a].links;
    CNValid(h[a], next, data, d);
    CNFields(f, a, next, l[2], l[4], data, l[6], l[7], d.field);
    TextRead(f, h, l[2], d.name);
    CommentRead(env, f, h, l[6], d.unit);
    CommentRead(env, f, h, l[7], d.comment);
    ConvRead(f, h, l[4], d.conv);
    NilComment(env, f);
    ConvUnit(d.conv);
  }

  lemma NilComment(env: Env, f: Bytes)
    ensures CommentText(env, f, 0) == Ok([])
  {
  }

  lemma ConvUnit(c: Option<Linear>)
    ensures ConvView(c).Some? ==> ConvView(c).value.unit == 0
  {
  }

  lemma CNValid(b: Block, next: nat, data: nat, d: ChanDef)
    requires ValidBlock(b) && |b.links| == 8
    requires b == CNBlock(next, b.links[2], b.links[4], data, b.links[6], b.links[7], d.field)
    ensures next < TWO_63 && b.links[2] < TWO_63 && b.links[4] < TWO_63 && data < TWO_63
    ensures b.links[6] < TWO_63 && b.links[7] < TWO_63
  {
    assert b.links[0] == next && b.links[5] == data;
  }

  // ---- chains ----

  lemma {:induction false} ChannelsRead(env: Env, f: Bytes, h: Heap, chans: seq<Chan>, data: seq<nat>, n: nat,
                                        fuel: nat)
    requires HeapIn(f, h) && ChansAt(h, chans, 0, data) && n <= |chans| && fuel >= |chans| - n
    requires forall i :: 0 <= i < |chans| ==> Legible(chans[i].def)
    ensures BuildChannels(env, f, NextCN(chans, n), fuel) == Ok(ViewsFrom(chans, data, n))
    decreases |chans| - n
  {
    hide HeapIn, ChanAt, Legible, BuildChannel, DecodeCN, ViewOf;
    if n < |chans| {
      var c := chans[n];
      assert ChanAt(h, c.cnAddr, c.def, NextCN(chans, n + 1), data[n]);
      ChannelRead(env, f, h, c.cnAddr, c.def, NextCN(chans, n + 1), data[n]);
      ChannelsRead(env, f, h, chans, data, n + 1, fuel - 1);
    }
  }

  lemma ChainFits(f: Bytes, h: Heap, chans: seq<Chan>)
    requires HeapIn(f, h) && NewChans(map[], h, chans, 0)
    ensures |chans| <= |f|
  {
    hide Encode, ValidBlock;
    var addrs := seq(|chans|, i requires 0 <= i < |chans| => chans[i].cnAddr);
    forall i | 0 <= i < |addrs|
      ensures addrs[i] < |f|
    {
      assert chans[i].cnAddr in h;
    }
    DistinctBelow(addrs, |f|);
  }

  lemma GroupRead(env: Env, f: Bytes, h: Heap, g: Group, next: nat, late: Late)
    requires HeapIn(f, h) && GroupAt(h, g, next, late) && LegibleGroup(g) && NewGroup(map[], h, g)
             && late.count < TWO_64
    ensures 0 < g.dgAddr && DecodeDG(f, g.dgAddr).Ok?
    ensures |late.signals| == |g.chans|
    ensures var dg := DecodeDG(f, g.dgAddr).value;
            && dg.next == next
            && BuildGroups(env, f, dg, dg.cgFirst, |f|) == Ok([GroupViewOf(g, late)])
  {
    hide Encode, DecodeText, DecodeCG, DecodeDG, BuildChannels, ViewsFrom, Legible, ChansAt, TextAt, Plain;
    GroupBlocks(f, h, g, next, late);
    var name := h[g.cgAddr].links[2];
    DGFields(f, g.dgAddr, next, g.cgAddr, late.data);
    CGFields(f, g.cgAddr, NextCN(g.chans, 0), name, late.count, g.recSize);
    TextRead(f, h, name, g.name);
    NilComment(env, f);
    ChainFits(f, h, g.chans);
    ChannelsRead(env, f, h, g.chans, late.signals, 0, |f|);
    var dg := DecodeDG(f, g.dgAddr).value;
    var cg := DecodeCG(f, g.cgAddr).value;
    assert BuildGroup(env, f, dg, cg) == Ok(GroupViewOf(g, late));
    assert BuildGroups(env, f, dg, 0, |f| - 1) == Ok([]);
    assert dg.cgFirst == g.cgAddr && cg.next == 0 && !cg.IsVLSD();
    assert [GroupViewOf(g, late)] + [] == [GroupViewOf(g, late)];
  }

  lemma GroupBlocks(f: Bytes, h: Heap, g: Group, next: nat, late: Late)
    requires HeapIn(f, h) && GroupAt(h, g, next, late)
    ensures next < TWO_63 && 0 < g.cgAddr < TWO_63 && late.data < TWO_63 && 0 < g.dgAddr && |late.signals| == |g.chans|
    ensures At(f, g.dgAddr, Encode(DGBlock(next, g.cgAddr, late.data)))
    ensures |h[g.cgAddr].links| == 6 && NextCN(g.chans, 0) < TWO_63 && h[g.cgAddr].links[2] < TWO_63
    ensures At(f, g.cgAddr, Encode(CGBlock(NextCN(g.chans, 0), h[g.cgAddr].links[2], late.count, g.recSize)))
    ensures TextAt(h, h[g.cgAddr].links[2], g.name) && ChansAt(h, g.chans, 0, late.signals) && |f| > 0
  {
    hide Encode;
    var d, c := h[g.dgAddr], h[g.cgAddr];
    assert d.links[0] == next && d.links[1] == g.cgAddr && d.links[2] == late.data;
    assert c.links[1] == NextCN(g.chans, 0);
  }

  lemma {:induction false} GroupsRead(env: Env, f: Bytes, st: Store, h: Heap, id: Bytes, gs: seq<Group>,
                                      lates: seq<Late>,
                                      n: nat, fuel: nat)
    requires HeapIn(f, h) && FileInv(st, h, id, gs, lates) && n <= |gs| && fuel >= |gs| - n
    requires forall i :: 0 <= i < |gs| ==> LegibleGroup(gs[i]) && lates[i].count < TWO_64
    ensures Paired(gs, lates)
    ensures BuildTree(env, f, NextDG(gs, n), fuel) == Ok(GroupViewsFrom(gs, lates, n))
    decreases |gs| - n
  {
    hide HeapIn, FileInv, GroupAt, LegibleGroup, BuildGroups, DecodeDG, GroupViewOf, NewGroup;
    forall i | 0 <= i < |gs|
      ensures |lates| == |gs| && |lates[i].signals| == |gs[i].chans|
    {
      FileGroup(st, h, id, gs, lates, i);
      GroupBlocks(f, h, gs[i], NextDG(gs, i + 1), lates[i]);
    }
    FileParts(st, h, id, gs, lates);
    if n < |gs| {
      FileGroup(st, h, id, gs, lates, n);
      GroupRead(env, f, h, gs[n], NextDG(gs, n + 1), lates[n]);
      GroupsRead(env, f, st, h, id, gs, lates, n + 1, fuel - 1);
    }
  }

  lemma TreeFits(f: Bytes, h: Heap, gs: seq<Group>)
    requires HeapIn(f, h) && NewGroups(h, gs, 0)
    ensures |gs| <= |f|
  {
    hide Encode, ValidBlock;
    var addrs := seq(|gs|, i requires 0 <= i < |gs| => gs[i].dgAddr);
    forall i | 0 <= i < |addrs|
      ensures addrs[i] < |f|
    {
      assert NewGroup(map[], h, gs[i]);
    }
    forall i, j | 0 <= i < j < |addrs|
      ensures addrs[i] != addrs[j]
    {
      assert Separate(gs[i], gs[j]);
    }
    DistinctBelow(addrs, |f|);
  }

  /** Header and groups, as Open finds them before recomputing any counter. */
  lemma TreeRead(env: Env, f: Bytes, st: Store, h: Heap, id: Bytes, gs: seq<Group>, lates: seq<Late>)
    requires HeapIn(f, h) && FileInv(st, h, id, gs, lates)
    requires forall i :: 0 <= i < |gs| ==> LegibleGroup(gs[i]) && lates[i].count < TWO_64
    ensures Paired(gs, lates)
    ensures DecodeHD(f, ID_SIZE) == Ok(NextDG(gs, 0))
    ensures BuildTree(env, f, NextDG(gs, 0), |f|) == Ok(GroupViewsFrom(gs, lates, 0))
  {
    FileParts(st, h, id, gs, lates);
    TreeFits(f, h, gs);
    GroupsRead(env, f, st, h, id, gs, lates, 0, |f|);
    hide FileInv, NewGroups, BuildTree, GroupViewsFrom;
    HDFields(f, ID_SIZE, h[ID_SIZE]);
  }

  /** With an identification block of version 4.10 in front, Open returns these groups, and recomputes their
      record counts when the file is marked as unfinalized. */
  lemma OpenRead(env: Env, f: Bytes, st: Store, h: Heap, id: Bytes, gs: seq<Group>, lates: seq<Late>,
                 program: Bytes, unfin: nat)
    requires HeapIn(f, h) && FileInv(st, h, id, gs, lates)
    requires forall i :: 0 <= i < |gs| ==> LegibleGroup(gs[i]) && lates[i].count < TWO_64
    requires At(f, 0, IDBytes(program, VERSION, VERSION_STRING, unfin)) && unfin in {0, 1, 5}
    ensures Paired(gs, lates)
    ensures var views := GroupViewsFrom(gs, lates, 0);
            Open(env, f) == if unfin == 0 then Ok(FileView(VERSION, false, views))
                            else match FixCycleCounts(f, views, true)
                                 case Ok(fixed) => Ok(FileView(VERSION, true, fixed))
                                 case Err(e) => Err(e)
  {
    hide HeapIn, FileInv, LegibleGroup, DecodeID, DecodeHD, BuildTree, FixCycleCounts, GroupViewsFrom, IDBytes;
    TreeRead(env, f, st, h, id, gs, lates);
    IDFields(f, program, VERSION, VERSION_STRING, unfin);
  }
}
