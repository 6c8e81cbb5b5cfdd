/** What stands in the file after begin: the metadata tree, block by block. */
module Written {
  import opened Wire
  import opened Blocks
  import opened Meta
  import opened Store
  import opened WriterSpec

  ghost predicate TextAt(h: Heap, a: nat, s: Bytes) {
    a in h && h[a] == TextBlock(s)
  }

  ghost predicate OptionalAt(h: Heap, a: nat, s: Bytes) {
    if s == [] then a == 0 else TextAt(h, a, s)
  }

  ghost predicate ConvAt(h: Heap, a: nat, c: Option<Linear>) {
    match c
    case None => a == 0
    case Some(l) => a in h && h[a] == CCBlock(l)
  }

  /** A channel block with its texts and conversion; `next` and `data` are its chain and signal data links. */
  ghost predicate ChanAt(h: Heap, a: nat, d: ChanDef, next: nat, data: nat) {
    && a in h && h[a].id == ID_CN && |h[a].links| == 8
    && var l := h[a].links;
       && h[a] == CNBlock(next, l[2], l[4], data, l[6], l[7], d.field)
       && TextAt(h, l[2], d.name) && ConvAt(h, l[4], d.conv)
       && OptionalAt(h, l[6], d.unit) && OptionalAt(h, l[7], d.comment)
  }

  function NextCN(chans: seq<Chan>, i: nat): nat {
    if i < |chans| then chans[i].cnAddr else 0
  }

  /** Channels from n on, chained in definition order, with the given signal data links. */
  ghost predicate ChansAt(h: Heap, chans: seq<Chan>, n: nat, data: seq<nat>) {
    && |data| == |chans|
    && forall i :: n <= i < |chans| ==> ChanAt(h, chans[i].cnAddr, chans[i].def, NextCN(chans, i + 1), data[i])
  }

  ghost predicate CGAt(h: Heap, g: Group, count: nat) {
    && g.cgAddr in h && |h[g.cgAddr].links| == 6
    && h[g.cgAddr] == CGBlock(NextCN(g.chans, 0), h[g.cgAddr].links[2], count, g.recSize)
    && TextAt(h, h[g.cgAddr].links[2], g.name)
  }

  /** The links and the counter that are filled in late. */
  datatype Late = Late(data: nat, count: nat, signals: seq<nat>)

  ghost predicate GroupAt(h: Heap, g: Group, next: nat, late: Late) {
    && g.dgAddr in h && h[g.dgAddr] == DGBlock(next, g.cgAddr, late.data)
    && CGAt(h, g, late.count)
    && ChansAt(h, g.chans, 0, late.signals)
  }

  function ZeroLinks(n: nat): (r: seq<nat>)
    ensures |r| == n
  {
    seq(n, _ => 0)
  }

  function OpenLate(g: Group, data: nat): Late {
    Late(data, 0, ZeroLinks(|g.chans|))
  }

  // ---- growth of the heap ----

  ghost predicate Ext(h: Heap, h': Heap) {
    forall a :: a in h ==> a in h' && h'[a] == h[a]
  }

  lemma ExtTrans(a: Heap, b: Heap, c: Heap)
    requires Ext(a, b) && Ext(b, c)
    ensures Ext(a, c)
  {
  }

  lemma ChanAtExt(h: Heap, h': Heap, a: nat, d: ChanDef, next: nat, data: nat)
    requires ChanAt(h, a, d, next, data) && Ext(h, h')
    ensures ChanAt(h', a, d, next, data)
  {
  }

  lemma ChansAtExt(h: Heap, h': Heap, chans: seq<Chan>, n: nat, data: seq<nat>)
    requires ChansAt(h, chans, n, data) && Ext(h, h')
    ensures ChansAt(h', chans, n, data)
  {
    hide ChanAt, Ext;
    forall i | n <= i < |chans|
      ensures ChanAt(h', chans[i].cnAddr, chans[i].def, NextCN(chans, i + 1), data[i])
    {
      ChanAtExt(h, h', chans[i].cnAddr, chans[i].def, NextCN(chans, i + 1), data[i]);
    }
  }

  lemma GroupAtExt(h: Heap, h': Heap, g: Group, next: nat, late: Late)
    requires GroupAt(h, g, next, late) && Ext(h, h')
    ensures GroupAt(h', g, next, late)
  {
    ChansAtExt(h, h', g.chans, 0, late.signals);
    hide ChansAt;
  }

  /** The store after a step that only appended: the same disk and patches, a longer image, older blocks kept. */
  ghost predicate Appended(st: Store, h: Heap, st': Store, h': Heap) {
    && StoreInv(st', h') && Ext(h, h')
    && st'.disk == st.disk && st'.patches == st.patches && st.End() <= st'.End()
    && st.Image() <= st'.Image()
    && (forall a :: a in h' && a !in h ==> a >= st.End())
  }

  lemma AppendedTrans(s1: Store, h1: Heap, s2: Store, h2: Heap, s3: Store, h3: Heap)
    requires Appended(s1, h1, s2, h2) && Appended(s2, h2, s3, h3)
    ensures Appended(s1, h1, s3, h3)
  {
    hide StoreInv;
  }

  lemma AppendedSelf(st: Store, h: Heap)
    requires StoreInv(st, h)
    ensures Appended(st, h, st, h)
  {
  }

  lemma PutAppends(st: Store, h: Heap, b: Block)
    requires StoreInv(st, h) && ValidId(b.id) && LinksBelow(b, st.End())
    ensures var (st', a) := st.Put(b);
            && Appended(st, h, st', h[a := b]) && a !in h && st.End() <= a < st'.End()
            && a % 8 == 0 && a < st.End() + 8 && st'.End() == a + Size(b)
  {
    PutKeeps(st, h, b);
  }

  lemma TextWritten(st: Store, h: Heap, s: Bytes) returns (h': Heap)
    requires StoreInv(st, h)
    ensures var (st', a) := PutText(st, s);
            Appended(st, h, st', h') && TextAt(h', a, s) && a <= st'.End()
  {
    hide StoreInv, Appended;
    PutAppends(st, h, TextBlock(s));
    h' := h[PutText(st, s).1 := TextBlock(s)];
  }

  lemma OptionalWritten(st: Store, h: Heap, s: Bytes) returns (h': Heap)
    requires StoreInv(st, h)
    ensures var (st', a) := PutOptional(st, s);
            Appended(st, h, st', h') && OptionalAt(h', a, s) && a <= st'.End()
  {
    hide StoreInv, Appended;
    if s == [] {
      AppendedSelf(st, h);
      h' := h;
    } else {
      h' := TextWritten(st, h, s);
    }
  }

  lemma ConvWritten(st: Store, h: Heap, c: Option<Linear>) returns (h': Heap)
    requires StoreInv(st, h)
    ensures var (st', a) := PutConv(st, c);
            Appended(st, h, st', h') && ConvAt(h', a, c) && a <= st'.End()
  {
    hide StoreInv, Appended;
    match c {
      case None =>
        AppendedSelf(st, h);
        h' := h;
      case Some(l) =>
        PutAppends(st, h, CCBlock(l));
        h' := h[st.Put(CCBlock(l)).1 := CCBlock(l)];
    }
  }

  lemma AppendedInv(st: Store, h: Heap, st': Store, h': Heap)
    requires Appended(st, h, st', h')
    ensures StoreInv(st', h') && Ext(h, h') && st.End() <= st'.End()
    ensures forall a :: a in h' && a !in h ==> a >= st.End()
  {
  }

  lemma OptionalExt(h: Heap, h': Heap, a: nat, s: Bytes)
    requires OptionalAt(h, a, s) && Ext(h, h')
    ensures OptionalAt(h', a, s)
  {
  }

  lemma ConvExt(h: Heap, h': Heap, a: nat, c: Option<Linear>)
    requires ConvAt(h, a, c) && Ext(h, h')
    ensures ConvAt(h', a, c)
  {
  }

  /** A channel's texts and conversion are written before the channel block that links to them. */
  lemma ChanWritten(st: Store, h: Heap, d: ChanDef, next: nat) returns (h': Heap)
    requires StoreInv(st, h) && next <= st.End()
    ensures var (st', a) := WriteChan(st, d, next);
            Appended(st, h, st', h') && a !in h && a <= st'.End() && ChanAt(h', a, d, next, 0)
  {
    hide StoreInv, Appended, Ext, TextAt, OptionalAt, ConvAt, PutOptional, PutConv, CNBlock, TextBlock, LinksBelow;
    var s1, name := PutText(st, d.name).0, PutText(st, d.name).1;
    var h1 := TextWritten(st, h, d.name);
    AppendedInv(st, h, s1, h1);
    var s2, unit := PutOptional(s1, d.unit).0, PutOptional(s1, d.unit).1;
    var h2 := OptionalWritten(s1, h1, d.unit);
    AppendedInv(s1, h1, s2, h2);
    var s3, comment := PutOptional(s2, d.comment).0, PutOptional(s2, d.comment).1;
    var h3 := OptionalWritten(s2, h2, d.comment);
    AppendedInv(s2, h2, s3, h3);
    var s4, cc := PutConv(s3, d.conv).0, PutConv(s3, d.conv).1;
    var h4 := ConvWritten(s3, h3, d.conv);
    AppendedInv(s3, h3, s4, h4);
    var b := CNBlock(next, name, cc, 0, unit, comment, d.field);
    CNBelow(s4.End(), next, name, cc, 0, unit, comment, d.field);
    PutAppends(s4, h4, b);
    var s5, a := s4.Put(b).0, s4.Put(b).1;
    h' := h4[a := b];
    AppendedInv(s4, h4, s5, h');
    AppendedTrans(st, h, s1, h1, s2, h2);
    AppendedTrans(st, h, s2, h2, s3, h3);
    AppendedTrans(st, h, s3, h3, s4, h4);
    AppendedTrans(st, h, s4, h4, s5, h');
    ExtTrans(h1, h2, h3);
    ExtTrans(h1, h3, h4);
    ExtTrans(h1, h4, h');
    ExtTrans(h2, h3, h4);
    ExtTrans(h2, h4, h');
    ExtTrans(h3, h4, h');
    TextExt(h1, h', name, d.name);
    OptionalExt(h2, h', unit, d.unit);
    OptionalExt(h3, h', comment, d.comment);
    ConvExt(h4, h', cc, d.conv);
    ChanStands(h', a, d, next, name, cc, unit, comment);
    AppendedInv(st, h, s4, h4);
  }

  lemma CNBelow(n: nat, next: nat, name: nat, cc: nat, data: nat, unit: nat, comment: nat, d: Field)
    requires next <= n && name <= n && cc <= n && data <= n && unit <= n && comment <= n
    ensures LinksBelow(CNBlock(next, name, cc, data, unit, comment, d), n)
    ensures ValidId(CNBlock(next, name, cc, data, unit, comment, d).id)
  {
  }

  lemma TextExt(h: Heap, h': Heap, a: nat, s: Bytes)
    requires TextAt(h, a, s) && Ext(h, h')
    ensures TextAt(h', a, s)
  {
  }

  lemma ChanStands(h: Heap, a: nat, d: ChanDef, next: nat, name: nat, cc: nat, unit: nat, comment: nat)
    requires a in h && h[a] == CNBlock(next, name, cc, 0, unit, comment, d.field)
    requires TextAt(h, name, d.name) && ConvAt(h, cc, d.conv) && OptionalAt(h, unit, d.unit)
    requires OptionalAt(h, comment, d.comment)
    ensures ChanAt(h, a, d, next, 0)
  {
  }

  /** Channel blocks from n on are new since h0 and pairwise distinct. */
  ghost predicate NewChans(h0: Heap, h: Heap, chans: seq<Chan>, n: nat) {
    && (forall i :: n <= i < |chans| ==> chans[i].cnAddr in h && chans[i].cnAddr !in h0)
    && (forall i, j :: n <= i < j < |chans| ==> chans[i].cnAddr != chans[j].cnAddr)
  }

  lemma ChanIn(h: Heap, a: nat, d: ChanDef, next: nat, data: nat)
    requires ChanAt(h, a, d, next, data)
    ensures a in h
  {
  }

  lemma OneMoreChan(h0: Heap, h: Heap, h1: Heap, chans: seq<Chan>, n: nat, next: nat, a: nat)
    requires 0 < n <= |chans| && next == NextCN(chans, n) && Ext(h, h1) && Ext(h0, h)
    requires ChansAt(h, chans, n, ZeroLinks(|chans|)) && NewChans(h0, h, chans, n)
    requires a !in h && ChanAt(h1, a, chans[n - 1].def, next, 0)
    ensures var cs := chans[n - 1 := chans[n - 1].(cnAddr := a)];
            && ChansAt(h1, cs, n - 1, ZeroLinks(|chans|)) && NewChans(h0, h1, cs, n - 1) && NextCN(cs, n - 1) == a
  {
    hide ChanAt;
    ChansAtExt(h, h1, chans, n, ZeroLinks(|chans|));
    ChanIn(h1, a, chans[n - 1].def, next, 0);
    var cs := chans[n - 1 := chans[n - 1].(cnAddr := a)];
    forall i | n - 1 <= i < |cs|
      ensures ChanAt(h1, cs[i].cnAddr, cs[i].def, NextCN(cs, i + 1), 0)
    {
      if i >= n {
        assert cs[i] == chans[i] && NextCN(cs, i + 1) == NextCN(chans, i + 1);
        assert ChanAt(h1, chans[i].cnAddr, chans[i].def, NextCN(chans, i + 1), ZeroLinks(|chans|)[i]);
      }
    }
  }

  lemma {:induction false} ChansWritten(st: Store, h: Heap, h0: Heap, chans: seq<Chan>, n: nat, next: nat)
    returns (h': Heap)
    requires StoreInv(st, h) && Ext(h0, h) && n <= |chans| && next == NextCN(chans, n) && next <= st.End()
    requires ChansAt(h, chans, n, ZeroLinks(|chans|)) && NewChans(h0, h, chans, n)
    ensures var (st', cs, first) := WriteChans(st, chans, n, next);
            && Appended(st, h, st', h') && |cs| == |chans|
            && ChansAt(h', cs, 0, ZeroLinks(|cs|)) && NewChans(h0, h', cs, 0)
            && first == NextCN(cs, 0) && first <= st'.End()
    decreases n
  {
    hide StoreInv, Appended, Ext, ChansAt, NewChans, ChanAt, NextCN, WriteChan;
    if n == 0 {
      AppendedSelf(st, h);
      h' := h;
    } else {
      var (s1, a) := WriteChan(st, chans[n - 1].def, next);
      var h1 := ChanWritten(st, h, chans[n - 1].def, next);
      AppendedInv(st, h, s1, h1);
      OneMoreChan(h0, h, h1, chans, n, next, a);
      ExtTrans(h0, h, h1);
      var cs := chans[n - 1 := chans[n - 1].(cnAddr := a)];
      h' := ChansWritten(s1, h1, h0, cs, n - 1, a);
      AppendedTrans(st, h, s1, h1, WriteChans(s1, cs, n - 1, a).0, h');
    }
  }

  /** A group's patchable blocks are new since h0. */
  ghost predicate NewGroup(h0: Heap, h: Heap, g: Group) {
    && g.dgAddr in h && g.dgAddr !in h0 && g.cgAddr in h && g.cgAddr !in h0
    && NewChans(h0, h, g.chans, 0)
  }

  lemma CGBelow(n: nat, cnFirst: nat, name: nat, count: nat, recSize: nat)
    requires cnFirst <= n && name <= n
    ensures LinksBelow(CGBlock(cnFirst, name, count, recSize), n) && ValidId(CGBlock(cnFirst, name, count, recSize).id)
  {
  }

  lemma DGBelow(n: nat, next: nat, cg: nat, data: nat)
    requires next <= n && cg <= n && data <= n
    ensures LinksBelow(DGBlock(next, cg, data), n) && ValidId(DGBlock(next, cg, data).id)
  {
  }

  lemma CGStands(h: Heap, g: Group, name: nat)
    requires g.cgAddr in h && h[g.cgAddr] == CGBlock(NextCN(g.chans, 0), name, 0, g.recSize) && TextAt(h, name, g.name)
    ensures CGAt(h, g, 0)
  {
  }

  lemma GroupStands(h: Heap, g: Group, next: nat)
    requires g.dgAddr in h && h[g.dgAddr] == DGBlock(next, g.cgAddr, 0) && CGAt(h, g, 0)
    requires ChansAt(h, g.chans, 0, ZeroLinks(|g.chans|))
    ensures GroupAt(h, g, next, OpenLate(g, 0))
  {
    hide CGAt, ChansAt, DGBlock;
  }

  lemma CGAtExt(h: Heap, h': Heap, g: Group, count: nat)
    requires CGAt(h, g, count) && Ext(h, h')
    ensures CGAt(h', g, count)
  {
  }

  lemma NewChansExt(h0: Heap, h: Heap, h': Heap, chans: seq<Chan>)
    requires NewChans(h0, h, chans, 0) && Ext(h, h')
    ensures NewChans(h0, h', chans, 0)
  {
  }

  lemma SameCG(h: Heap, g: Group, g': Group)
    requires CGAt(h, g, 0) && g'.cgAddr == g.cgAddr && g'.chans == g.chans && g'.recSize == g.recSize
             && g'.name == g.name
    ensures CGAt(h, g', 0)
  {
  }

  /** Name, channel group and data group behind the channels. */
  lemma GroupBlocks(st: Store, h: Heap, h0: Heap, g: Group, next: nat, cnFirst: nat) returns (h': Heap)
    requires StoreInv(st, h) && Ext(h0, h) && next <= st.End() && cnFirst <= st.End() && cnFirst == NextCN(g.chans, 0)
    ensures var (s2, nm) := PutText(st, g.name);
            var (s3, cg) := s2.Put(CGBlock(cnFirst, nm, 0, g.recSize));
            var (s4, dg) := s3.Put(DGBlock(next, cg, 0));
            && Appended(st, h, s4, h') && dg <= s4.End() && dg in h' && dg !in h0 && cg in h' && cg !in h0
            && h'[dg] == DGBlock(next, cg, 0) && CGAt(h', g.(cgAddr := cg), 0)
  {
    hide StoreInv, Appended, Ext, CGAt, TextAt, LinksBelow, CGBlock, DGBlock, NextCN;
    var (s2, nm) := PutText(st, g.name);
    var h2 := TextWritten(st, h, g.name);
    AppendedInv(st, h, s2, h2);
    var cgb := CGBlock(cnFirst, nm, 0, g.recSize);
    CGBelow(s2.End(), cnFirst, nm, 0, g.recSize);
    PutAppends(s2, h2, cgb);
    var (s3, cg) := s2.Put(cgb);
    var h3 := h2[cg := cgb];
    AppendedInv(s2, h2, s3, h3);
    var dgb := DGBlock(next, cg, 0);
    DGBelow(s3.End(), next, cg, 0);
    PutAppends(s3, h3, dgb);
    var (s4, dg) := s3.Put(dgb);
    h' := h3[dg := dgb];
    AppendedInv(s3, h3, s4, h');
    AppendedTrans(st, h, s2, h2, s3, h3);
    AppendedTrans(st, h, s3, h3, s4, h');
    TextExt(h2, h3, nm, g.name);
    CGStands(h3, g.(cgAddr := cg), nm);
    CGAtExt(h3, h', g.(cgAddr := cg), 0);
    ExtTrans(h0, h, h2);
    ExtTrans(h0, h2, h3);
    NotOlder(h0, h2, cg);
    NotOlder(h0, h3, dg);
  }

  /** Channels, name, channel group and data group, in this order. */
  lemma GroupWritten(st: Store, h: Heap, g: Group, next: nat) returns (h': Heap)
    requires StoreInv(st, h) && next <= st.End()
    ensures var (st', g') := WriteGroup(st, g, next);
            && Appended(st, h, st', h') && GroupAt(h', g', next, OpenLate(g', 0)) && NewGroup(h, h', g')
            && g'.dgAddr <= st'.End()
  {
    hide StoreInv, Appended, Ext, ChansAt, NewChans, ChanAt, WriteChans, CGAt, TextAt, LinksBelow, CGBlock, DGBlock;
    hide ZeroLinks, GroupAt, PutText, NextCN;
    var (s1, chans, cnFirst) := WriteChans(st, g.chans, |g.chans|, 0);
    NoChans(h, g.chans);
    ExtSelf(h);
    var h1 := ChansWritten(st, h, h, g.chans, |g.chans|, 0);
    AppendedInv(st, h, s1, h1);
    h' := GroupBlocks(s1, h1, h, g.(chans := chans), next, cnFirst);
    var (s4, g') := WriteGroup(st, g, next);
    AppendedInv(s1, h1, s4, h');
    AppendedTrans(st, h, s1, h1, s4, h');
    SameCG(h', g.(chans := chans, cgAddr := g'.cgAddr), g');
    ChansAtExt(h1, h', chans, 0, ZeroLinks(|chans|));
    NewChansExt(h, h1, h', chans);
    GroupStands(h', g', next);
  }

  lemma NotOlder(h: Heap, h': Heap, a: nat)
    requires a !in h'
    ensures Ext(h, h') ==> a !in h
  {
  }

  lemma NoChans(h: Heap, chans: seq<Chan>)
    ensures ChansAt(h, chans, |chans|, ZeroLinks(|chans|)) && NewChans(h, h, chans, |chans|)
    ensures NextCN(chans, |chans|) == 0
  {
  }

  lemma ExtSelf(h: Heap)
    ensures Ext(h, h)
  {
  }

  /** No block of one group that is patched later belongs to the other. */
  ghost predicate Separate(a: Group, b: Group) {
    && a.dgAddr != b.dgAddr && a.cgAddr != b.cgAddr
    && forall i, j :: 0 <= i < |a.chans| && 0 <= j < |b.chans| ==> a.chans[i].cnAddr != b.chans[j].cnAddr
  }

  ghost predicate NewGroups(h: Heap, gs: seq<Group>, n: nat) {
    && (forall i :: n <= i < |gs| ==> NewGroup(map[], h, gs[i]))
    && (forall i, j :: n <= i < j < |gs| ==> Separate(gs[i], gs[j]))
  }

  lemma NewGroupExt(h0: Heap, h: Heap, h': Heap, g: Group)
    requires NewGroup(h0, h, g) && Ext(h, h')
    ensures NewGroup(map[], h', g)
  {
  }

  lemma NewIsSeparate(h0: Heap, h: Heap, a: Group, b: Group)
    requires NewGroup(h0, h, a) && NewGroup(map[], h0, b)
    ensures Separate(a, b)
  {
  }

  lemma OneMoreGroup(h: Heap, h1: Heap, gs: seq<Group>, n: nat, next: nat, g: Group)
    requires 0 < n <= |gs| && next == NextDG(gs, n) && Ext(h, h1)
    requires forall i :: n <= i < |gs| ==> GroupAt(h, gs[i], NextDG(gs, i + 1), OpenLate(gs[i], 0))
    requires NewGroups(h, gs, n) && NewGroup(h, h1, g) && GroupAt(h1, g, next, OpenLate(g, 0))
    ensures var r := gs[n - 1 := g];
            && (forall i :: n - 1 <= i < |r| ==> GroupAt(h1, r[i], NextDG(r, i + 1), OpenLate(r[i], 0)))
            && NewGroups(h1, r, n - 1) && NextDG(r, n - 1) == g.dgAddr
  {
    hide GroupAt, NewGroup, Separate, Ext, OpenLate;
    var r := gs[n - 1 := g];
    forall i | n - 1 <= i < |r|
      ensures GroupAt(h1, r[i], NextDG(r, i + 1), OpenLate(r[i], 0)) && NewGroup(map[], h1, r[i])
    {
      if i >= n {
        assert NextDG(r, i + 1) == NextDG(gs, i + 1);
        GroupAtExt(h, h1, gs[i], NextDG(gs, i + 1), OpenLate(gs[i], 0));
        NewGroupExt(map[], h, h1, gs[i]);
      } else {
        ExtSelf(h1);
        NewGroupExt(h, h1, h1, g);
      }
    }
    forall i, j | n - 1 <= i < j < |r|
      ensures Separate(r[i], r[j])
    {
      if i == n - 1 {
        NewIsSeparate(h, h1, g, gs[j]);
      }
    }
  }

  /** Groups in reverse order, each chained to the one written before it. */
  lemma {:induction false} GroupsWritten(st: Store, h: Heap, gs: seq<Group>, n: nat, next: nat) returns (h': Heap)
    requires StoreInv(st, h) && n <= |gs| && next == NextDG(gs, n) && next <= st.End()
    requires forall i :: n <= i < |gs| ==> GroupAt(h, gs[i], NextDG(gs, i + 1), OpenLate(gs[i], 0))
    requires NewGroups(h, gs, n)
    ensures var (st', r, first) := WriteGroups(st, gs, n, next);
            && Appended(st, h, st', h') && |r| == |gs|
            && (forall i :: 0 <= i < |r| ==> GroupAt(h', r[i], NextDG(r, i + 1), OpenLate(r[i], 0)))
            && NewGroups(h', r, 0) && first == NextDG(r, 0) && first <= st'.End()
    decreases n
  {
    hide StoreInv, Appended, Ext, GroupAt, NewGroup, NewGroups, WriteGroup, NextDG, OpenLate;
    if n == 0 {
      AppendedSelf(st, h);
      h' := h;
    } else {
      var (s1, g) := WriteGroup(st, gs[n - 1], next);
      var h1 := GroupWritten(st, h, gs[n - 1], next);
      AppendedInv(st, h, s1, h1);
      OneMoreGroup(h, h1, gs, n, next, g);
      var r := gs[n - 1 := g];
      h' := GroupsWritten(s1, h1, r, n - 1, g.dgAddr);
      AppendedTrans(st, h, s1, h1, WriteGroups(s1, r, n - 1, g.dgAddr).0, h');
    }
  }

  // ---- the head of the file ----

  /** The header block with its root link; the other links are the file history and the comment. */
  ghost predicate HeadAt(h: Heap, dgFirst: nat) {
    && ID_SIZE in h && h[ID_SIZE].id == ID_HD && |h[ID_SIZE].links| == 6 && |h[ID_SIZE].data| == 32
    && h[ID_SIZE].links[0] == dgFirst
  }

  lemma IDStands(cfg: Config, growing: bool)
    ensures StoreInv(Store([], IDBytes(cfg.program, VERSION, VERSION_STRING, UnfinFlags(growing)), []), map[])
  {
  }

  lemma HDPatched(st: Store, h: Heap, i: nat, v: nat, dgFirst: nat) returns (h': Heap)
    requires StoreInv(st, h) && HeadAt(h, dgFirst) && i < 6 && v <= st.End()
    ensures var st' := st.AddPatch(ID_SIZE + 24 + 8 * i, v);
            StoreInv(st', h') && HeadAt(h', if i == 0 then v else dgFirst)
    ensures forall a :: a in h && a != ID_SIZE ==> a in h' && h'[a] == h[a]
    ensures forall a :: a in h' ==> a in h
  {
    hide StoreInv;
    PatchLinkKeeps(st, h, ID_SIZE, i, v);
    h' := h[ID_SIZE := h[ID_SIZE].(links := h[ID_SIZE].links[i := v])];
  }

  lemma IDKept(st: Store, off: nat, v: nat, id: Bytes)
    requires InRange(st.End(), st.patches) && |id| == ID_SIZE && At(st.Image(), 0, id) && off >= ID_SIZE
             && off + 8 <= st.End()
    ensures At(st.AddPatch(off, v).Image(), 0, id)
  {
    hide LE;
    ImageLength(st);
    PatchedSnoc(st.disk + st.buf, st.patches, Patch(off, v));
    AtFrame(st.Image(), 0, id, off, LE(v, 8));
  }

  lemma IDExtended(st: Store, h: Heap, st': Store, h': Heap, id: Bytes)
    requires Appended(st, h, st', h') && At(st.Image(), 0, id)
    ensures At(st'.Image(), 0, id)
  {
    var rest := st'.Image()[|st.Image()|..];
    assert st'.Image() == st.Image() + rest;
    AtAppend(st.Image(), rest, 0, id);
  }

  ghost predicate HeadWrittenAs(st: Store, h: Heap, id: Bytes, dgFirst: nat) {
    StoreInv(st, h) && HeadAt(h, dgFirst) && At(st.Image(), 0, id)
  }

  lemma HeadAppended(st: Store, h: Heap, b: Block, id: Bytes, dgFirst: nat) returns (h': Heap)
    requires HeadWrittenAs(st, h, id, dgFirst) && ValidId(b.id) && LinksBelow(b, st.End())
    ensures var (st', a) := st.Put(b); HeadWrittenAs(st', h', id, dgFirst) && a <= st'.End() && st.End() <= st'.End()
  {
    PutAppends(st, h, b);
    var (st', a) := st.Put(b);
    h' := h[a := b];
    hide StoreInv;
    IDExtended(st, h, st', h', id);
  }

  lemma HeadPatched(st: Store, h: Heap, i: nat, v: nat, id: Bytes, dgFirst: nat) returns (h': Heap)
    requires HeadWrittenAs(st, h, id, dgFirst) && i < 6 && v <= st.End() && |id| == ID_SIZE
    ensures HeadWrittenAs(st.AddPatch(ID_SIZE + 24 + 8 * i, v), h', id, if i == 0 then v else dgFirst)
    ensures forall a :: a in h && a != ID_SIZE ==> a in h' && h'[a] == h[a]
    ensures forall a :: a in h' ==> a in h
  {
    h' := HDPatched(st, h, i, v, dgFirst);
    ImageLength(st);
    assert BlockAt(st.Image(), ID_SIZE, h[ID_SIZE]);
    hide StoreInv;
    IDKept(st, ID_SIZE + 24 + 8 * i, v, id) by { InRangeOf(st, h); }
  }

  lemma InRangeOf(st: Store, h: Heap)
    requires StoreInv(st, h)
    ensures InRange(st.End(), st.patches)
  {
  }

  lemma HDPut(cfg: Config, growing: bool) returns (h: Heap)
    ensures var id := IDBytes(cfg.program, VERSION, VERSION_STRING, UnfinFlags(growing));
            var (st, a) := Store([], id, []).Put(HDBlock(0, 0, 0, cfg.startNS));
            && HeadWrittenAs(st, h, id, 0) && a == ID_SIZE && h.Keys == {ID_SIZE}
  {
    IDStands(cfg, growing);
    hide StoreInv, IDBytes, LE;
    var id := IDBytes(cfg.program, VERSION, VERSION_STRING, UnfinFlags(growing));
    var s0 := Store([], id, []);
    var b := HDBlock(0, 0, 0, cfg.startNS);
    PutAppends(s0, map[], b);
    var (st, a) := s0.Put(b);
    h := map[a := b];
    assert map[][a := b] == h;
    assert s0.Image() == [] + id == id;
    IDExtended(s0, map[], st, h, id);
    AppendedInv(s0, map[], st, h);
  }

  lemma HeadWritten(cfg: Config, growing: bool) returns (h: Heap)
    ensures HeadWrittenAs(WriteHead(cfg, growing), h,
                          IDBytes(cfg.program, VERSION, VERSION_STRING, UnfinFlags(growing)), 0)
  {
    hide HeadWrittenAs, IDBytes, LE, FHText, TextData;
    var id := IDBytes(cfg.program, VERSION, VERSION_STRING, UnfinFlags(growing));
    var (s1, hd) := Store([], id, []).Put(HDBlock(0, 0, 0, cfg.startNS));
    var h1 := HDPut(cfg, growing);
    var (s2, md) := s1.Put(MDBlock(FHText()));
    var h2 := HeadAppended(s1, h1, MDBlock(FHText()), id, 0);
    var (s3, fh) := s2.Put(FHBlock(md, cfg.startNS));
    var h3 := HeadAppended(s2, h2, FHBlock(md, cfg.startNS), id, 0);
    var h4 := HeadPatched(s3, h3, 1, fh, id, 0);
    h := h4;
    if cfg.comment != [] {
      var s4 := s3.AddPatch(hd + 24 + 8, fh);
      var (s5, c) := s4.Put(MDBlock(cfg.comment));
      var h5 := HeadAppended(s4, h4, MDBlock(cfg.comment), id, 0);
      h := HeadPatched(s5, h5, 5, c, id, 0);
    }
  }

  // ---- changes to a few blocks ----

  ghost predicate KeptBut(h: Heap, h': Heap, changed: set<nat>) {
    forall a :: a in h && a !in changed ==> a in h' && h'[a] == h[a]
  }

  /** The blocks a group's late links and counter live in. */
  ghost function Keys(g: Group): set<nat> {
    {g.dgAddr, g.cgAddr} + set i | 0 <= i < |g.chans| :: g.chans[i].cnAddr
  }

  ghost predicate Linking(id: Bytes) {
    id == ID_HD || id == ID_DG || id == ID_CG || id == ID_CN || id == ID_DT
  }

  /** Only blocks with links, and the growing data block, ever change. */
  ghost predicate Patchable(h: Heap, changed: set<nat>) {
    forall a :: a in changed && a in h ==> Linking(h[a].id)
  }

  lemma TextKept(h: Heap, h': Heap, changed: set<nat>, a: nat, s: Bytes)
    requires TextAt(h, a, s) && KeptBut(h, h', changed) && Patchable(h, changed)
    ensures TextAt(h', a, s)
  {
    assert !Linking(ID_TX) by {
      assert ID_TX[2] != ID_HD[2] && ID_TX[2] != ID_DG[2] && ID_TX[2] != ID_CG[2];
    }
  }

  lemma ConvKept(h: Heap, h': Heap, changed: set<nat>, a: nat, c: Option<Linear>)
    requires ConvAt(h, a, c) && KeptBut(h, h', changed) && Patchable(h, changed)
    ensures ConvAt(h', a, c)
  {
    assert !Linking(ID_CC) by {
      assert ID_CC[3] != ID_HD[3] && ID_CC[3] != ID_DG[3] && ID_CC[3] != ID_CN[3] && ID_CC[3] != ID_DT[3];
    }
  }

  lemma OptionalKept(h: Heap, h': Heap, changed: set<nat>, a: nat, s: Bytes)
    requires OptionalAt(h, a, s) && KeptBut(h, h', changed) && Patchable(h, changed)
    ensures OptionalAt(h', a, s)
  {
    if s != [] {
      TextKept(h, h', changed, a, s);
    }
  }

  lemma ChanKept(h: Heap, h': Heap, changed: set<nat>, a: nat, d: ChanDef, next: nat, data: nat)
    requires ChanAt(h, a, d, next, data) && KeptBut(h, h', changed) && Patchable(h, changed) && a !in changed
    ensures ChanAt(h', a, d, next, data)
  {
    var l := h[a].links;
    TextKept(h, h', changed, l[2], d.name);
    ConvKept(h, h', changed, l[4], d.conv);
    OptionalKept(h, h', changed, l[6], d.unit);
    OptionalKept(h, h', changed, l[7], d.comment);
    hide TextAt, ConvAt, OptionalAt, Patchable;
  }

  lemma ChansKept(h: Heap, h': Heap, changed: set<nat>, chans: seq<Chan>, data: seq<nat>)
    requires ChansAt(h, chans, 0, data) && KeptBut(h, h', changed) && Patchable(h, changed)
    requires forall i :: 0 <= i < |chans| ==> chans[i].cnAddr !in changed
    ensures ChansAt(h', chans, 0, data)
  {
    hide ChanAt, KeptBut, Patchable;
    forall i | 0 <= i < |chans|
      ensures ChanAt(h', chans[i].cnAddr, chans[i].def, NextCN(chans, i + 1), data[i])
    {
      ChanKept(h, h', changed, chans[i].cnAddr, chans[i].def, NextCN(chans, i + 1), data[i]);
    }
  }

  lemma GroupKept(h: Heap, h': Heap, changed: set<nat>, g: Group, next: nat, late: Late)
    requires GroupAt(h, g, next, late) && KeptBut(h, h', changed) && Patchable(h, changed) && changed !! Keys(g)
    ensures GroupAt(h', g, next, late)
  {
    assert forall i :: 0 <= i < |g.chans| ==> g.chans[i].cnAddr in Keys(g);
    assert g.dgAddr in Keys(g) && g.cgAddr in Keys(g);
    ChansKept(h, h', changed, g.chans, late.signals);
    TextKept(h, h', changed, h[g.cgAddr].links[2], g.name);
    hide ChansAt, Patchable, TextAt;
  }

  lemma NewGroupsKept(h: Heap, h': Heap, gs: seq<Group>)
    requires NewGroups(h, gs, 0) && forall a :: a in h ==> a in h'
    ensures NewGroups(h', gs, 0)
  {
    forall i | 0 <= i < |gs|
      ensures NewGroup(map[], h', gs[i])
    {
      assert NewGroup(map[], h, gs[i]);
    }
  }

  // ---- the whole tree ----

  /** The file's metadata: identification, header, and every group with the given late links and counters. */
  ghost predicate FileInv(st: Store, h: Heap, id: Bytes, gs: seq<Group>, lates: seq<Late>) {
    && HeadWrittenAs(st, h, id, NextDG(gs, 0))
    && NewGroups(h, gs, 0)
    && |lates| == |gs|
    && forall i :: 0 <= i < |gs| ==> GroupAt(h, gs[i], NextDG(gs, i + 1), lates[i])
  }

  lemma HeadKept(st: Store, h: Heap, st': Store, h': Heap, id: Bytes, dgFirst: nat)
    requires HeadWrittenAs(st, h, id, dgFirst) && Appended(st, h, st', h')
    ensures HeadWrittenAs(st', h', id, dgFirst)
  {
    IDExtended(st, h, st', h', id);
    hide StoreInv;
  }

  lemma HeadInv(st: Store, h: Heap, id: Bytes, dgFirst: nat)
    requires HeadWrittenAs(st, h, id, dgFirst)
    ensures StoreInv(st, h) && ID_SIZE in h && h[ID_SIZE].id == ID_HD
  {
  }

  /** Groups written and the header's root link queued. */
  ghost predicate TreeDone(cfg: Config, growing: bool, st: Store, gs: seq<Group>, h: Heap) {
    && HeadWrittenAs(st, h, IDBytes(cfg.program, VERSION, VERSION_STRING, UnfinFlags(growing)), NextDG(gs, 0))
    && NewGroups(h, gs, 0)
    && forall i :: 0 <= i < |gs| ==> GroupAt(h, gs[i], NextDG(gs, i + 1), OpenLate(gs[i], 0))
  }

  lemma TreeWritten(s: State) returns (h: Heap)
    ensures TreeDone(s.cfg, Growing(s), WriteTree(s).0, WriteTree(s).1, h)
  {
    hide HeadWrittenAs, IDBytes, GroupAt, NewGroup, Separate, WriteHead, WriteGroups, StoreInv, Appended, LE;
    hide RestreamedAll, NextDG, OpenLate, UnfinFlags, Growing;
    var growing := Growing(s);
    var head := WriteHead(s.cfg, growing);
    var id := IDBytes(s.cfg.program, VERSION, VERSION_STRING, UnfinFlags(growing));
    var h0 := HeadWritten(s.cfg, growing);
    var blank := RestreamedAll(s.groups);
    HeadInv(head, h0, id, 0);
    NoMoreGroups(blank);
    var h1 := GroupsWritten(head, h0, blank, |blank|, 0);
    var (st, gs, first) := WriteGroups(head, blank, |blank|, 0);
    HeadKept(head, h0, st, h1, id, 0);
    HeadInv(st, h1, id, 0);
    h := HeadPatched(st, h1, 0, first, id, 0);
    assert KeptBut(h1, h, {ID_SIZE}) && Patchable(h1, {ID_SIZE});
    forall i | 0 <= i < |gs|
      ensures GroupAt(h, gs[i], NextDG(gs, i + 1), OpenLate(gs[i], 0))
    {
      HeaderNotInGroup(h1, gs[i], NextDG(gs, i + 1), OpenLate(gs[i], 0));
      GroupKept(h1, h, {ID_SIZE}, gs[i], NextDG(gs, i + 1), OpenLate(gs[i], 0));
    }
    HeadInv(st.AddPatch(ID_SIZE + 24 + 8 * 0, first), h, id, first);
    NewGroupsKept(h1, h, gs);
  }

  lemma NoMoreGroups(gs: seq<Group>)
    ensures NextDG(gs, |gs|) == 0
  {
  }

  lemma HeaderNotInGroup(h: Heap, g: Group, next: nat, late: Late)
    requires GroupAt(h, g, next, late) && ID_SIZE in h && h[ID_SIZE].id == ID_HD
    ensures {ID_SIZE} !! Keys(g)
  {
    hide GroupAt;
    KeyKinds(h, g, next, late);
  }

  lemma FileAppended(st: Store, h: Heap, st': Store, h': Heap, id: Bytes, gs: seq<Group>, lates: seq<Late>)
    requires FileInv(st, h, id, gs, lates) && Appended(st, h, st', h')
    ensures FileInv(st', h', id, gs, lates)
  {
    AppendedInv(st, h, st', h');
    HeadKept(st, h, st', h', id, NextDG(gs, 0));
    NewGroupsKept(h, h', gs);
    hide HeadWrittenAs, GroupAt, NewGroups, Appended;
    forall i | 0 <= i < |gs|
      ensures GroupAt(h', gs[i], NextDG(gs, i + 1), lates[i])
    {
      GroupAtExt(h, h', gs[i], NextDG(gs, i + 1), lates[i]);
    }
  }

  lemma AppendedBytes(st: Store, h: Heap, b: Bytes)
    requires StoreInv(st, h)
    ensures Appended(st, h, st.Append(b), h)
  {
    AppendKeeps(st, h, b);
  }

  /** Same image, same end: applying patches or flushing the buffer. */
  lemma FileSameImage(st: Store, st': Store, h: Heap, id: Bytes, gs: seq<Group>, lates: seq<Late>)
    requires FileInv(st, h, id, gs, lates) && StoreInv(st', h) && st'.Image() == st.Image()
    ensures FileInv(st', h, id, gs, lates)
  {
    hide StoreInv, GroupAt, NewGroups;
  }

  lemma FileStoreInv(st: Store, h: Heap, id: Bytes, gs: seq<Group>, lates: seq<Late>)
    requires FileInv(st, h, id, gs, lates)
    ensures StoreInv(st, h)
  {
  }

  lemma FileGroup(st: Store, h: Heap, id: Bytes, gs: seq<Group>, lates: seq<Late>, i: nat)
    requires FileInv(st, h, id, gs, lates) && i < |gs|
    ensures |lates| == |gs| && GroupAt(h, gs[i], NextDG(gs, i + 1), lates[i]) && NewGroup(map[], h, gs[i])
  {
    hide GroupAt, NewGroup, HeadWrittenAs, Separate;
  }

  lemma FileParts(st: Store, h: Heap, id: Bytes, gs: seq<Group>, lates: seq<Late>)
    requires FileInv(st, h, id, gs, lates)
    ensures HeadWrittenAs(st, h, id, NextDG(gs, 0)) && NewGroups(h, gs, 0) && |lates| == |gs|
  {
  }

  lemma FileOf(st: Store, h: Heap, id: Bytes, gs: seq<Group>, lates: seq<Late>)
    requires HeadWrittenAs(st, h, id, NextDG(gs, 0)) && NewGroups(h, gs, 0) && |lates| == |gs|
    requires forall i :: 0 <= i < |gs| ==> GroupAt(h, gs[i], NextDG(gs, i + 1), lates[i])
    ensures FileInv(st, h, id, gs, lates)
  {
  }

  lemma HeaderKept(st: Store, h: Heap, st': Store, h': Heap, off: nat, v: nat, id: Bytes, dgFirst: nat,
                   changed: set<nat>)
    requires HeadWrittenAs(st, h, id, dgFirst) && |id| == ID_SIZE && StoreInv(st', h') && st' == st.AddPatch(off, v)
    requires ID_SIZE <= off && off + 8 <= st.End()
    requires KeptBut(h, h', changed) && ID_SIZE !in changed
    ensures HeadWrittenAs(st', h', id, dgFirst)
  {
    IDKept(st, off, v, id) by { InRangeOf(st, h); }
    hide StoreInv;
  }

  /** One block of group i changed, by a patch: all other groups and the header are as before. */
  lemma FilePatched(st: Store, h: Heap, st': Store, h': Heap, off: nat, v: nat, a: nat, id: Bytes,
                    gs: seq<Group>, lates: seq<Late>, i: nat, late: Late)
    requires FileInv(st, h, id, gs, lates) && |id| == ID_SIZE && i < |gs| && a in Keys(gs[i]) && a in h
    requires st' == st.AddPatch(off, v) && StoreInv(st', h') && ID_SIZE <= off && off + 8 <= st.End()
    requires KeptBut(h, h', {a}) && a in h' && Linking(h[a].id) && h[a].id != ID_HD
    requires GroupAt(h', gs[i], NextDG(gs, i + 1), late)
    ensures FileInv(st', h', id, gs, lates[i := late])
  {
    hide StoreInv, HeadWrittenAs, GroupAt, NextDG, FileInv, NewGroups, Keys, NewGroup;
    FileParts(st, h, id, gs, lates);
    HeadInv(st, h, id, NextDG(gs, 0));
    HeaderKept(st, h, st', h', off, v, id, NextDG(gs, 0), {a});
    NewGroupsKept(h, h', gs);
    forall j | 0 <= j < |gs|
      ensures GroupAt(h', gs[j], NextDG(gs, j + 1), lates[i := late][j])
    {
      if j != i {
        OtherKept(st, h, h', id, gs, lates, i, j, a);
      }
    }
    FileOf(st', h', id, gs, lates[i := late]);
  }

  lemma OtherKept(st: Store, h: Heap, h': Heap, id: Bytes, gs: seq<Group>, lates: seq<Late>, i: nat, j: nat, a: nat)
    requires FileInv(st, h, id, gs, lates) && i < |gs| && j < |gs| && i != j && a in Keys(gs[i]) && a in h
    requires KeptBut(h, h', {a}) && Linking(h[a].id)
    ensures |lates| == |gs| && GroupAt(h', gs[j], NextDG(gs, j + 1), lates[j])
  {
    hide StoreInv, HeadWrittenAs, GroupAt, NextDG, FileInv, NewGroups, Keys, NewGroup, KeptBut;
    FileParts(st, h, id, gs, lates);
    FileGroup(st, h, id, gs, lates, i);
    FileGroup(st, h, id, gs, lates, j);
    OnlyOneOwner(h, gs, i, j, lates, a);
    GroupKept(h, h', {a}, gs[j], NextDG(gs, j + 1), lates[j]);
  }

  /** A patchable block of group i is not one of group j: by its kind, and because groups are separate. */
  lemma OnlyOneOwner(h: Heap, gs: seq<Group>, i: nat, j: nat, lates: seq<Late>, a: nat)
    requires i < |gs| && j < |gs| && i != j && |lates| == |gs|
    requires NewGroups(h, gs, 0) && a in Keys(gs[i])
    requires GroupAt(h, gs[i], NextDG(gs, i + 1), lates[i]) && GroupAt(h, gs[j], NextDG(gs, j + 1), lates[j])
    ensures a !in Keys(gs[j])
  {
    hide GroupAt, NewGroup, NewGroups, Separate, Keys, NextDG;
    KeyKinds(h, gs[i], NextDG(gs, i + 1), lates[i]);
    KeyKinds(h, gs[j], NextDG(gs, j + 1), lates[j]);
    SeparatePair(h, gs, i, j);
    SeparateKeys(h, gs[i], gs[j]);
  }

  lemma SeparateKeys(h: Heap, a: Group, b: Group)
    requires Separate(a, b)
    requires a.dgAddr in h && h[a.dgAddr].id == ID_DG && a.cgAddr in h && h[a.cgAddr].id == ID_CG
    requires b.dgAddr in h && h[b.dgAddr].id == ID_DG && b.cgAddr in h && h[b.cgAddr].id == ID_CG
    requires forall i :: 0 <= i < |a.chans| ==> a.chans[i].cnAddr in h && h[a.chans[i].cnAddr].id == ID_CN
    requires forall i :: 0 <= i < |b.chans| ==> b.chans[i].cnAddr in h && h[b.chans[i].cnAddr].id == ID_CN
    requires ID_DG != ID_CG && ID_DG != ID_CN && ID_CG != ID_CN
    ensures Keys(a) !! Keys(b)
  {
  }

  lemma SeparatePair(h: Heap, gs: seq<Group>, i: nat, j: nat)
    requires NewGroups(h, gs, 0) && i < |gs| && j < |gs| && i != j
    ensures Separate(gs[i], gs[j])
  {
    hide NewGroup;
    assert if i < j then Separate(gs[i], gs[j]) else Separate(gs[j], gs[i]);
  }

  lemma KeyKinds(h: Heap, g: Group, next: nat, late: Late)
    requires GroupAt(h, g, next, late)
    ensures g.dgAddr in h && h[g.dgAddr].id == ID_DG && g.cgAddr in h && h[g.cgAddr].id == ID_CG
    ensures forall i :: 0 <= i < |g.chans| ==> g.chans[i].cnAddr in h && h[g.chans[i].cnAddr].id == ID_CN
    ensures ID_DG != ID_CG && ID_DG != ID_CN && ID_CG != ID_CN && ID_HD != ID_DG && ID_HD != ID_CG && ID_HD != ID_CN
  {
    assert ID_DG[2] != ID_CG[2] && ID_DG[2] != ID_CN[2] && ID_CG[3] != ID_CN[3];
    assert ID_HD[2] != ID_DG[2] && ID_HD[2] != ID_CG[2] && ID_HD[2] != ID_CN[2];
    forall i | 0 <= i < |g.chans|
      ensures g.chans[i].cnAddr in h && h[g.chans[i].cnAddr].id == ID_CN
    {
      assert ChanAt(h, g.chans[i].cnAddr, g.chans[i].def, NextCN(g.chans, i + 1), late.signals[i]);
    }
  }

  lemma BlockInside(st: Store, h: Heap, a: nat)
    requires StoreInv(st, h) && a in h
    ensures ID_SIZE <= a && a + Size(h[a]) <= st.End()
  {
    ImageLength(st);
    assert BlockAt(st.Image(), a, h[a]);
  }

  /** The same addresses hold blocks of the same sizes. */
  ghost predicate SameSizes(h: Heap, h': Heap) {
    h'.Keys == h.Keys && forall a :: a in h ==> Size(h'[a]) == Size(h[a])
  }

  /** The data link of group i. */
  lemma PatchDataLink(st: Store, h: Heap, id: Bytes, gs: seq<Group>, lates: seq<Late>, i: nat, data: nat)
    returns (h': Heap)
    requires FileInv(st, h, id, gs, lates) && |id| == ID_SIZE && i < |gs| && data <= st.End()
    ensures FileInv(st.AddPatch(gs[i].dgAddr + 24 + 16, data), h', id, gs, lates[i := lates[i].(data := data)])
    ensures KeptBut(h, h', {gs[i].dgAddr}) && SameSizes(h, h') && gs[i].dgAddr in h && h[gs[i].dgAddr].id == ID_DG
  {
    hide StoreInv, FileInv, GroupAt, NewGroup, Keys, Linking, DGBlock;
    var g, a := gs[i], gs[i].dgAddr;
    FileGroup(st, h, id, gs, lates, i);
    DGIsKey(g);
    FileStoreInv(st, h, id, gs, lates);
    KeyKinds(h, g, NextDG(gs, i + 1), lates[i]);
    assert |h[a].links| == 4 by { DGLinks(h, g, NextDG(gs, i + 1), lates[i]); }
    BlockInside(st, h, a);
    PatchLinkKeeps(st, h, a, 2, data);
    h' := h[a := h[a].(links := h[a].links[2 := data])];
    DGChanged(h, g, NextDG(gs, i + 1), lates[i], data);
    FilePatched(st, h, st.AddPatch(a + 24 + 16, data), h', a + 24 + 16, data, a, id, gs, lates, i,
                lates[i].(data := data));
  }

  lemma DGIsKey(g: Group)
    ensures g.dgAddr in Keys(g) && g.cgAddr in Keys(g)
    ensures forall k :: 0 <= k < |g.chans| ==> g.chans[k].cnAddr in Keys(g)
    ensures Linking(ID_DG) && Linking(ID_CG) && Linking(ID_CN)
  {
  }

  lemma DGLinks(h: Heap, g: Group, next: nat, late: Late)
    requires GroupAt(h, g, next, late)
    ensures |h[g.dgAddr].links| == 4 && |h[g.cgAddr].links| == 6 && |h[g.cgAddr].data| == 32
  {
  }

  lemma DGChanged(h: Heap, g: Group, next: nat, late: Late, data: nat)
    requires GroupAt(h, g, next, late)
    ensures |h[g.dgAddr].links| == 4
    ensures GroupAt(h[g.dgAddr := h[g.dgAddr].(links := h[g.dgAddr].links[2 := data])], g, next, late.(data := data))
  {
    hide ChansAt, CGAt, KeptBut, Patchable, Linking;
    KeyKinds(h, g, next, late);
    var b := h[g.dgAddr].(links := h[g.dgAddr].links[2 := data]);
    var h' := h[g.dgAddr := b];
    OneChanged(h, g.dgAddr, b);
    ChansKept(h, h', {g.dgAddr}, g.chans, late.signals);
    CGKept(h, h', {g.dgAddr}, g, late.count);
    assert b == DGBlock(next, g.cgAddr, data);
  }

  lemma OneChanged(h: Heap, a: nat, b: Block)
    requires a in h
    ensures KeptBut(h, h[a := b], {a})
    ensures Linking(h[a].id) ==> Patchable(h, {a})
    ensures Linking(ID_DG) && Linking(ID_CG) && Linking(ID_CN) && Linking(ID_DT)
  {
  }

  /** The cycle count of group i. */
  lemma PatchCount(st: Store, h: Heap, id: Bytes, gs: seq<Group>, lates: seq<Late>, i: nat, count: nat)
    returns (h': Heap)
    requires FileInv(st, h, id, gs, lates) && |id| == ID_SIZE && i < |gs|
    ensures FileInv(st.AddPatch(gs[i].cgAddr + 24 + 6 * 8 + 8, count), h', id, gs,
                    lates[i := lates[i].(count := count)])
    ensures KeptBut(h, h', {gs[i].cgAddr}) && SameSizes(h, h') && gs[i].cgAddr in h && h[gs[i].cgAddr].id == ID_CG
  {
    hide LE, WriteAt, StoreInv, FileInv, GroupAt, NewGroup, Keys, Linking;
    var g, a := gs[i], gs[i].cgAddr;
    FileGroup(st, h, id, gs, lates, i);
    DGIsKey(g);
    FileStoreInv(st, h, id, gs, lates);
    KeyKinds(h, g, NextDG(gs, i + 1), lates[i]);
    DGLinks(h, g, NextDG(gs, i + 1), lates[i]);
    BlockInside(st, h, a);
    PatchDataKeeps(st, h, a, 8, count);
    h' := h[a := h[a].(data := WriteAt(h[a].data, 8, LE(count, 8)))];
    CGChanged(h, g, NextDG(gs, i + 1), lates[i], count);
    FilePatched(st, h, st.AddPatch(a + 24 + 8 * 6 + 8, count), h', a + 24 + 8 * 6 + 8, count, a, id, gs, lates, i,
                lates[i].(count := count));
  }

  lemma CGDataCounted(was: nat, recSize: nat, count: nat)
    ensures WriteAt(CGData(was, recSize), 8, LE(count, 8)) == CGData(count, recSize)
  {
    hide LE;
    WriteAtInside(CGData(was, recSize), 8, LE(count, 8));
    assert CGData(was, recSize)[..8] == Zeros(8);
    assert CGData(was, recSize)[16..] == Zeros(8) + LE(recSize, 4) + Zeros(4);
  }

  lemma OnePatchable(h: Heap, a: nat)
    requires a in h && Linking(h[a].id)
    ensures Patchable(h, {a})
  {
  }

  lemma CGChanged(h: Heap, g: Group, next: nat, late: Late, count: nat)
    requires GroupAt(h, g, next, late)
    ensures |h[g.cgAddr].data| == 32
    ensures GroupAt(h[g.cgAddr := h[g.cgAddr].(data := WriteAt(h[g.cgAddr].data, 8, LE(count, 8)))], g, next,
                    late.(count := count))
  {
    hide LE, GroupAt, ChansAt, TextAt, CGData, WriteAt, DGBlock, Patchable;
    KeyKinds(h, g, next, late);
    GroupParts(h, g, next, late);
    CGDataCounted(late.count, g.recSize, count);
    var h' := h[g.cgAddr := h[g.cgAddr].(data := WriteAt(h[g.cgAddr].data, 8, LE(count, 8)))];
    OnePatchable(h, g.cgAddr);
    ChansKept(h, h', {g.cgAddr}, g.chans, late.signals);
    TextKept(h, h', {g.cgAddr}, h[g.cgAddr].links[2], g.name);
    assert CGAt(h', g, count);
    GroupOf(h', g, next, late.(count := count));
  }

  /** The signal data link of channel k of group i. */
  lemma PatchSignalLink(st: Store, h: Heap, id: Bytes, gs: seq<Group>, lates: seq<Late>, i: nat, k: nat, data: nat)
    returns (h': Heap)
    requires FileInv(st, h, id, gs, lates) && |id| == ID_SIZE && i < |gs| && k < |gs[i].chans| && data <= st.End()
    ensures |lates[i].signals| == |gs[i].chans|
    ensures FileInv(st.AddPatch(gs[i].chans[k].cnAddr + 24 + 40, data), h', id, gs,
                    lates[i := lates[i].(signals := lates[i].signals[k := data])])
    ensures var a := gs[i].chans[k].cnAddr; KeptBut(h, h', {a}) && SameSizes(h, h') && a in h && h[a].id == ID_CN
  {
    hide StoreInv, FileInv, GroupAt, Keys, Linking, CNBlock, NewChans;
    var g, a := gs[i], gs[i].chans[k].cnAddr;
    FileGroup(st, h, id, gs, lates, i);
    DGIsKey(g);
    FileStoreInv(st, h, id, gs, lates);
    KeyKinds(h, g, NextDG(gs, i + 1), lates[i]);
    CNLinks(h, g, NextDG(gs, i + 1), lates[i], k);
    BlockInside(st, h, a);
    PatchLinkKeeps(st, h, a, 5, data);
    h' := h[a := h[a].(links := h[a].links[5 := data])];
    CNChanged(h, g, NextDG(gs, i + 1), lates[i], k, data);
    FilePatched(st, h, st.AddPatch(a + 24 + 8 * 5, data), h', a + 24 + 8 * 5, data, a, id, gs, lates, i,
                lates[i].(signals := lates[i].signals[k := data]));
  }

  lemma CNLinks(h: Heap, g: Group, next: nat, late: Late, k: nat)
    requires GroupAt(h, g, next, late) && k < |g.chans|
    ensures |late.signals| == |g.chans| && g.chans[k].cnAddr in h && |h[g.chans[k].cnAddr].links| == 8
  {
    assert ChanAt(h, g.chans[k].cnAddr, g.chans[k].def, NextCN(g.chans, k + 1), late.signals[k]);
  }

  lemma CNChanged(h: Heap, g: Group, next: nat, late: Late, k: nat, data: nat)
    requires GroupAt(h, g, next, late) && k < |g.chans| && NewChans(map[], h, g.chans, 0)
    ensures |late.signals| == |g.chans| && g.chans[k].cnAddr in h && |h[g.chans[k].cnAddr].links| == 8
    ensures var a := g.chans[k].cnAddr;
            GroupAt(h[a := h[a].(links := h[a].links[5 := data])], g, next, late.(signals := late.signals[k := data]))
  {
    hide GroupAt, ChansAt, CGAt, DGBlock;
    KeyKinds(h, g, next, late);
    CNLinks(h, g, next, late, k);
    GroupParts(h, g, next, late);
    var a := g.chans[k].cnAddr;
    var h' := h[a := h[a].(links := h[a].links[5 := data])];
    CGKept(h, h', {a}, g, late.count);
    ChansChanged(h, g.chans, late.signals, k, data);
    GroupOf(h', g, next, late.(signals := late.signals[k := data]));
  }

  lemma GroupParts(h: Heap, g: Group, next: nat, late: Late)
    requires GroupAt(h, g, next, late)
    ensures g.dgAddr in h && h[g.dgAddr] == DGBlock(next, g.cgAddr, late.data)
    ensures CGAt(h, g, late.count) && ChansAt(h, g.chans, 0, late.signals) && g.cgAddr in h
  {
    hide TextAt, ChanAt, CGBlock;
  }

  lemma GroupOf(h: Heap, g: Group, next: nat, late: Late)
    requires g.dgAddr in h && h[g.dgAddr] == DGBlock(next, g.cgAddr, late.data)
    requires CGAt(h, g, late.count) && ChansAt(h, g.chans, 0, late.signals)
    ensures GroupAt(h, g, next, late)
  {
    hide CGAt, ChansAt;
  }

  lemma CGKept(h: Heap, h': Heap, changed: set<nat>, g: Group, count: nat)
    requires CGAt(h, g, count) && KeptBut(h, h', changed) && Patchable(h, changed) && g.cgAddr !in changed
    ensures CGAt(h', g, count)
  {
    hide TextAt, Patchable;
    TextKept(h, h', changed, h[g.cgAddr].links[2], g.name);
  }

  lemma ChansChanged(h: Heap, chans: seq<Chan>, signals: seq<nat>, k: nat, data: nat)
    requires k < |chans| && ChansAt(h, chans, 0, signals) && NewChans(map[], h, chans, 0)
    requires h[chans[k].cnAddr].id == ID_CN && |h[chans[k].cnAddr].links| == 8
    ensures var a := chans[k].cnAddr;
            ChansAt(h[a := h[a].(links := h[a].links[5 := data])], chans, 0, signals[k := data])
  {
    hide ChanAt;
    var a := chans[k].cnAddr;
    var h' := h[a := h[a].(links := h[a].links[5 := data])];
    forall i | 0 <= i < |chans|
      ensures ChanAt(h', chans[i].cnAddr, chans[i].def, NextCN(chans, i + 1), signals[k := data][i])
    {
      var d, next := chans[i].def, NextCN(chans, i + 1);
      assert ChanAt(h, chans[i].cnAddr, d, next, signals[i]);
      if i == k {
        OneChanChanged(h, a, d, next, signals[i], data);
      } else {
        assert chans[i].cnAddr != a;
        ChanKept(h, h', {a}, chans[i].cnAddr, d, next, signals[i]);
      }
    }
  }

  lemma OneChanChanged(h: Heap, a: nat, d: ChanDef, next: nat, was: nat, data: nat)
    requires ChanAt(h, a, d, next, was)
    ensures ChanAt(h[a := h[a].(links := h[a].links[5 := data])], a, d, next, data)
  {
    var h' := h[a := h[a].(links := h[a].links[5 := data])];
    var l := h[a].links;
    assert ID_CN[3] != ID_CC[3] && ID_CN[2] != ID_TX[2];
    TextKept(h, h', {a}, l[2], d.name);
    ConvKept(h, h', {a}, l[4], d.conv);
    OptionalKept(h, h', {a}, l[6], d.unit);
    OptionalKept(h, h', {a}, l[7], d.comment);
    hide TextAt, ConvAt, OptionalAt, Patchable, KeptBut;
    assert h'[a] == CNBlock(next, l[2], l[4], data, l[6], l[7], d.field);
  }

  // ---- begin ----

  /** Nothing is linked to the groups yet but the open data block of the growing layout. */
  function OpenLates(gs: seq<Group>, data: nat): (r: seq<Late>)
    ensures |r| == |gs|
  {
    seq(|gs|, i requires 0 <= i < |gs| => OpenLate(gs[i], data))
  }

  function LatesAfterBegin(s: State): seq<Late> {
    OpenLates(s.groups, if s.growing then s.growAddr else 0)
  }

  function OpenID(s: State): Bytes {
    IDBytes(s.cfg.program, VERSION, VERSION_STRING, UnfinFlags(s.growing))
  }

  /** The growing layout: one data block, still empty, last in the file. */
  ghost predicate GrowStart(s: State, h: Heap) {
    && |s.groups| == 1 && s.growBytes == 0
    && s.growAddr in h && h[s.growAddr] == Block(ID_DT, [], [])
    && s.store.End() == s.growAddr + 24
  }

  /** The tree before begin applies its patches. */
  lemma TreeOpen(s: State) returns (h: Heap)
    ensures var (st, gs) := WriteTree(s);
            FileInv(st, h, IDBytes(s.cfg.program, VERSION, VERSION_STRING, UnfinFlags(Growing(s))), gs,
                    OpenLates(gs, 0))
  {
    hide WriteTree, GroupAt, NewGroups, HeadWrittenAs, IDBytes, OpenLate;
    h := TreeWritten(s);
  }

  /** The patches applied and nothing left in the write buffer. */
  lemma TreeApplied(st: Store, h: Heap, id: Bytes, gs: seq<Group>, lates: seq<Late>)
    requires FileInv(st, h, id, gs, lates)
    ensures FileInv(st.Applied(), h, id, gs, lates)
    ensures st.Applied().buf == [] && st.Applied().patches == [] && st.Applied().End() == st.End()
  {
    hide FileInv, StoreInv;
    FileStoreInv(st, h, id, gs, lates);
    ApplyKeeps(st, h);
    FileSameImage(st, st.Applied(), h, id, gs, lates);
  }

  /** The growing layout puts one more block behind the tree, its data block, and links the only group to it. */
  lemma TreeGrowing(st: Store, h0: Heap, id: Bytes, gs: seq<Group>) returns (h: Heap)
    requires FileInv(st, h0, id, gs, OpenLates(gs, 0)) && |id| == ID_SIZE && |gs| == 1
    ensures var (st1, grow) := st.Put(Block(ID_DT, [], []));
            && FileInv(st1.AddPatch(NextDG(gs, 0) + 24 + 16, grow), h, id, gs, OpenLates(gs, grow))
            && grow in h && h[grow] == Block(ID_DT, [], []) && st1.End() == grow + 24
  {
    hide FileInv, StoreInv, Appended, OpenLate, Ext;
    var dt, lates := Block(ID_DT, [], []), OpenLates(gs, 0);
    FileStoreInv(st, h0, id, gs, lates);
    var (st1, grow) := st.Put(dt);
    PutAppends(st, h0, dt);
    var h1 := h0[grow := dt];
    FileAppended(st, h0, st1, h1, id, gs, lates);
    h := PatchDataLink(st1, h1, id, gs, lates, 0, grow);
    OpenedWith(gs, lates, grow);
    assert OpenLates(gs, grow) == [OpenLate(gs[0], grow)];
    assert h[grow] == dt by {
      assert ID_DT != ID_DG by { assert ID_DT[3] != ID_DG[3]; }
    }
  }

  /** begin leaves a complete, applied metadata tree; only counters and data links are open. */
  lemma BeginWritten(s: State) returns (h: Heap)
    requires CanBegin(s)
    ensures var b := Begin(s);
            && FileInv(b.store, h, OpenID(b), b.groups, LatesAfterBegin(b))
            && b.store.buf == [] && b.store.patches == []
            && (b.growing ==> GrowStart(b, h))
  {
    hide WriteTree, FileInv, IDBytes, OpenLates;
    var (st, gs) := WriteTree(s);
    TreeShape(s);
    h := TreeOpen(s);
    var id := IDBytes(s.cfg.program, VERSION, VERSION_STRING, UnfinFlags(Growing(s)));
    if Growing(s) {
      h := TreeGrowing(st, h, id, gs);
      var (st1, grow) := st.Put(Block(ID_DT, [], []));
      TreeApplied(st1.AddPatch(NextDG(gs, 0) + 24 + 16, grow), h, id, gs, OpenLates(gs, grow));
    } else {
      TreeApplied(st, h, id, gs, OpenLates(gs, 0));
    }
  }

  lemma OpenedWith(gs: seq<Group>, open: seq<Late>, grow: nat)
    requires |gs| == 1 && |open| == 1 && open[0] == OpenLate(gs[0], 0)
    ensures open[0 := open[0].(data := grow)] == [OpenLate(gs[0], grow)]
  {
  }
}
