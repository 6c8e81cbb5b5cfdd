/** The file as the writer sees it: bytes handed to the operating system, bytes still in the write buffer, and
    8-byte patches not yet applied. Proofs follow it through a heap of the blocks written so far. */
module Store {
  import opened Wire
  import opened Blocks

  datatype Patch = Patch(off: nat, val: nat)

  datatype Store = Store(disk: Bytes, buf: Bytes, patches: seq<Patch>) {
    function End(): nat { |disk| + |buf| }

    /** write: append at the end of the file. */
    function Append(b: Bytes): Store {
      this.(buf := buf + b)
    }

    function Pad(): nat { (8 - End() % 8) % 8 }

    function Align(): Store { Append(Zeros(Pad())) }

    /** writeBlock: append at the next multiple of 8; returns the address. */
    function Put(b: Block): (Store, nat)
      requires |b.id| == 4
    {
      (Align().Append(Encode(b)), Align().End())
    }

    function AddPatch(off: nat, val: nat): Store {
      this.(patches := patches + [Patch(off, val)])
    }

    function Flushed(): Store {
      Store(disk + buf, [], patches)
    }

    /** applyPatches: flush, then write each patch in place. */
    function Applied(): Store {
      Store(Patched(disk + buf, patches), [], [])
    }

    /** The file once everything pending has reached it. */
    function Image(): Bytes {
      Patched(disk + buf, patches)
    }
  }

  /** The next multiple of 8. */
  function AlignUp(n: nat): nat { n + (8 - n % 8) % 8 }

  function Patched(f: Bytes, ps: seq<Patch>): Bytes {
    if ps == [] then f
    else
      var last := ps[|ps| - 1];
      WriteAt(Patched(f, ps[..|ps| - 1]), last.off, LE(last.val, 8))
  }

  ghost predicate InRange(n: nat, ps: seq<Patch>) {
    forall i :: 0 <= i < |ps| ==> ps[i].off + 8 <= n
  }

  lemma {:induction false} PatchedLength(f: Bytes, ps: seq<Patch>)
    requires InRange(|f|, ps)
    ensures |Patched(f, ps)| == |f|
  {
    if ps != [] {
      PatchedLength(f, ps[..|ps| - 1]);
    }
  }

  /** Patches of what is written commute with appending more. */
  lemma {:induction false} PatchedAppend(f: Bytes, g: Bytes, ps: seq<Patch>)
    requires InRange(|f|, ps)
    ensures Patched(f + g, ps) == Patched(f, ps) + g
  {
    if ps != [] {
      var init, last := ps[..|ps| - 1], ps[|ps| - 1];
      PatchedAppend(f, g, init);
      PatchedLength(f, init);
      WriteAtAppend(Patched(f, init), g, last.off, LE(last.val, 8));
    }
  }

  lemma PatchedSnoc(f: Bytes, ps: seq<Patch>, p: Patch)
    ensures Patched(f, ps + [p]) == WriteAt(Patched(f, ps), p.off, LE(p.val, 8))
  {
    assert (ps + [p])[..|ps|] == ps;
  }

  // ---- the heap of written blocks ----

  type Heap = map<nat, Block>

  /** The block b stands at address a of f, past the identification block. */
  ghost predicate BlockAt(f: Bytes, a: nat, b: Block) {
    a >= ID_SIZE && ValidId(b.id) && At(f, a, Encode(b))
  }

  ghost predicate LinksBelow(b: Block, n: nat) {
    forall i :: 0 <= i < |b.links| ==> b.links[i] <= n
  }

  /** The image consists of the heap's blocks, side by side, with links into the file. */
  ghost predicate StoreInv(st: Store, h: Heap) {
    && st.End() >= ID_SIZE
    && InRange(st.End(), st.patches)
    && (forall a :: a in h ==> BlockAt(st.Image(), a, h[a]) && LinksBelow(h[a], st.End()))
    && (forall a, b :: a in h && b in h && a < b ==> a + Size(h[a]) <= b)
  }

  lemma ImageLength(st: Store)
    requires InRange(st.End(), st.patches)
    ensures |st.Image()| == st.End()
  {
    PatchedLength(st.disk + st.buf, st.patches);
  }

  lemma AppendImage(st: Store, b: Bytes)
    requires InRange(st.End(), st.patches)
    ensures st.Append(b).Image() == st.Image() + b
    ensures st.Append(b).End() == st.End() + |b|
  {
    assert st.disk + (st.buf + b) == (st.disk + st.buf) + b;
    PatchedAppend(st.disk + st.buf, b, st.patches);
  }

  lemma AppendKeeps(st: Store, h: Heap, b: Bytes)
    requires StoreInv(st, h)
    ensures StoreInv(st.Append(b), h)
    ensures st.Append(b).Image() == st.Image() + b
  {
    AppendImage(st, b);
    ImageLength(st);
    var img := st.Image();
    forall a | a in h
      ensures BlockAt(img + b, a, h[a])
    {
      AtAppend(img, b, a, Encode(h[a]));
    }
  }

  /** A new block goes past everything written, leaving every older block alone. */
  lemma PutKeeps(st: Store, h: Heap, b: Block)
    requires StoreInv(st, h) && ValidId(b.id) && LinksBelow(b, st.End())
    ensures var (st', a) := st.Put(b);
            && StoreInv(st', h[a := b]) && a !in h && a >= st.End() && a % 8 == 0 && a < st.End() + 8
            && st'.End() == a + Size(b) && st'.disk == st.disk && st'.patches == st.patches
            && st.Image() <= st'.Image()
            && st'.buf == st.buf + Zeros(st.Pad()) + Encode(b)
  {
    var al := st.Align();
    AppendKeeps(st, h, Zeros(st.Pad()));
    AppendKeeps(al, h, Encode(b));
    ImageLength(al);
    var (st', a) := st.Put(b);
    PadAligns(st.End());
    forall k | k in h
      ensures k + Size(h[k]) <= a
    {
      assert BlockAt(al.Image(), k, h[k]);
    }
    assert At(st'.Image(), a, Encode(b)) by {
      assert st'.Image() == al.Image() + Encode(b);
    }
    var h' := h[a := b];
    forall k | k in h'
      ensures BlockAt(st'.Image(), k, h'[k]) && LinksBelow(h'[k], st'.End())
    {
      if k != a {
        assert LinksBelow(h[k], st.End());
      }
    }
  }

  lemma PadAligns(n: nat)
    ensures (n + (8 - n % 8) % 8) % 8 == 0
  {
  }

  lemma StoreIds(st: Store, h: Heap, a: nat)
    requires StoreInv(st, h) && a in h
    ensures ValidId(h[a].id) && LinksBelow(h[a], st.End())
  {
    assert BlockAt(st.Image(), a, h[a]);
  }

  /** Patching link i of a block changes that link and nothing else. */
  lemma PatchLinkKeeps(st: Store, h: Heap, a: nat, i: nat, v: nat)
    requires StoreInv(st, h) && a in h && i < |h[a].links| && v <= st.End()
    ensures StoreInv(st.AddPatch(a + 24 + 8 * i, v), h[a := h[a].(links := h[a].links[i := v])])
  {
    hide LE, LinkBytes, Encode, StoreInv;
    var b := h[a];
    StoreIds(st, h, a);
    EncodeSetLink(b, i, v);
    PatchBlock(st, h, a, 24 + 8 * i, v, b.(links := b.links[i := v]));
  }

  /** Patching 8 data bytes of a block changes those bytes and nothing else. */
  lemma PatchDataKeeps(st: Store, h: Heap, a: nat, k: nat, v: nat)
    requires StoreInv(st, h) && a in h && k + 8 <= |h[a].data|
    ensures StoreInv(st.AddPatch(a + 24 + 8 * |h[a].links| + k, v),
                     h[a := h[a].(data := WriteAt(h[a].data, k, LE(v, 8)))])
  {
    hide LE, LinkBytes, Encode, StoreInv;
    var b := h[a];
    StoreIds(st, h, a);
    EncodeSetData(b, k, LE(v, 8));
    var b' := b.(data := WriteAt(b.data, k, LE(v, 8)));
    assert |b'.data| == |b.data|;
    PatchBlock(st, h, a, 24 + 8 * |b.links| + k, v, b');
  }

  lemma PatchBlock(st: Store, h: Heap, a: nat, off: nat, v: nat, b': Block)
    requires StoreInv(st, h) && a in h && off + 8 <= Size(h[a])
    requires b'.id == h[a].id && Encode(b') == WriteAt(Encode(h[a]), off, LE(v, 8)) && LinksBelow(b', st.End())
    ensures StoreInv(st.AddPatch(a + off, v), h[a := b'])
  {
    hide LE, LinkBytes, FromLE, Encode, WriteAt, LinksBelow;
    var img := st.Image();
    ImageLength(st);
    assert BlockAt(img, a, h[a]);
    PatchedSnoc(st.disk + st.buf, st.patches, Patch(a + off, v));
    var st' := st.AddPatch(a + off, v);
    var img' := st'.Image();
    assert img' == WriteAt(img, a + off, LE(v, 8));
    AtInside(img, a, Encode(h[a]), a + off, LE(v, 8));
    assert Size(b') == Size(h[a]);
    forall k | k in h && k != a
      ensures BlockAt(img', k, h[k])
    {
      assert BlockAt(img, k, h[k]);
      AtFrame(img, k, Encode(h[k]), a + off, LE(v, 8));
    }
    BlockReplaced(st, st', h, a, b');
  }

  /** A block of the same size in place of another, the others where they were. */
  lemma BlockReplaced(st: Store, st': Store, h: Heap, a: nat, b': Block)
    requires StoreInv(st, h) && a in h && st'.End() == st.End() && InRange(st'.End(), st'.patches)
    requires forall k :: k in h && k != a ==> BlockAt(st'.Image(), k, h[k])
    requires BlockAt(st'.Image(), a, b') && LinksBelow(b', st.End()) && Size(b') == Size(h[a])
    ensures StoreInv(st', h[a := b'])
  {
    hide BlockAt, LinksBelow, InRange, Size;
  }

  lemma ApplyKeeps(st: Store, h: Heap)
    requires StoreInv(st, h)
    ensures StoreInv(st.Applied(), h) && st.Applied().Image() == st.Image() && st.Applied().End() == st.End()
  {
    ImageLength(st);
    assert st.Applied().disk + [] == st.Image();
  }

  lemma FlushKeeps(st: Store, h: Heap)
    requires StoreInv(st, h)
    ensures StoreInv(st.Flushed(), h) && st.Flushed().Image() == st.Image() && st.Flushed().End() == st.End()
  {
    assert st.disk + st.buf + [] == st.disk + st.buf;
  }

  /** In a file below 2^63 bytes every block of the heap decodes. */
  lemma BlocksValid(st: Store, h: Heap, a: nat)
    requires StoreInv(st, h) && a in h && st.End() < TWO_63
    ensures ValidBlock(h[a]) && At(st.Image(), a, Encode(h[a])) && 0 < a < TWO_63
  {
    ImageLength(st);
    assert BlockAt(st.Image(), a, h[a]);
    assert LinksBelow(h[a], st.End());
  }
}
