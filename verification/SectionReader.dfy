/** The random-access reader of one data section. */
module SectionReader {
  import opened Wire
  import opened Blocks
  import opened Zip
  import opened Sections
  import opened Lru
  import T = Transpose

  /** Zipped segments carry nothing but what their block says, so equal addresses decompress equally. */
  ghost predicate FromFile(f: Bytes, segs: seq<Segment>) {
    forall i :: 0 <= i < |segs| ==> SegFromFile(f, segs[i])
  }

  ghost predicate SegFromFile(f: Bytes, s: Segment) {
    && (IsZipped(s.kind) ==> AddZipped(f, s.addr - 48, s.logical) == Ok(s))
    && (s.kind == Zero ==> s.addr == 0)
  }

  lemma SameAddressSameContent(f: Bytes, z: Zlib, s: Segment, t: Segment)
    requires SegFromFile(f, s) && SegFromFile(f, t) && IsZipped(s.kind) && IsZipped(t.kind) && s.addr == t.addr
    ensures Decompress(f, z, s) == Decompress(f, z, t)
  {
  }

  lemma LeafFromFile(f: Bytes, addr: int, logical: int, clamp: bool)
    ensures var r := Leaf(f, addr, logical, clamp); r.Ok? ==> SegFromFile(f, r.value)
  {
    hide AddZipped, AddStored;
  }

  lemma {:induction false} EntriesFromFile(f: Bytes, dl: DL, n: nat, before: nat, clamp: bool)
    requires ValidDL(dl) && n <= |dl.data|
    ensures var r := Entries(f, dl, n, before, clamp); r.Ok? ==> FromFile(f, r.value)
  {
    hide Leaf, SegFromFile;
    if n > 0 {
      EntriesFromFile(f, dl, n - 1, before, clamp);
      var prev := Entries(f, dl, n - 1, before, clamp);
      if prev.Ok? && dl.data[n - 1] != 0 {
        LeafFromFile(f, dl.data[n - 1], EntryLogical(dl, n - 1, before + |prev.value|), clamp);
      }
    }
  }

  lemma {:induction false} ChainFromFile(f: Bytes, addr: int, acc: seq<Segment>, clamp: bool, fuel: nat)
    requires FromFile(f, acc)
    ensures var r := Chain(f, addr, acc, clamp, fuel); r.Ok? ==> FromFile(f, r.value)
    decreases fuel
  {
    hide DecodeDL, Entries, SegFromFile;
    if addr != 0 && fuel != 0 {
      var dl := DecodeDL(f, addr);
      if dl.Ok? {
        var es := Entries(f, dl.value, |dl.value.data|, |acc|, clamp);
        if es.Ok? {
          EntriesFromFile(f, dl.value, |dl.value.data|, |acc|, clamp);
          ChainFromFile(f, dl.value.next, acc + es.value, clamp, fuel - 1);
        }
      }
    }
  }

  lemma RawFromFile(f: Bytes, addr: int, clamp: bool)
    ensures var r := ResolveRaw(f, addr, clamp); r.Ok? ==> FromFile(f, r.value)
  {
    hide AddZipped, AddStored, Chain, DecodeHL, PeekID, IsStoredId;
    ChainFromFile(f, addr, [], clamp, |f|);
    var first := DecodeHL(f, addr);
    if first.Ok? {
      ChainFromFile(f, first.value, [], clamp, |f|);
    }
  }

  lemma SortedFromFile(f: Bytes, segs: seq<Segment>)
    requires FromFile(f, segs)
    ensures FromFile(f, Sorted(segs))
  {
    hide SegFromFile;
    SortedSorts(segs);
    var r := Sorted(segs);
    forall i | 0 <= i < |r|
      ensures SegFromFile(f, r[i])
    {
      assert r[i] in multiset(r);
      assert r[i] in segs;
    }
  }

  /** What ReadAt must deliver: n bytes of the section from off, the rest of the buffer as it was. */
  ghost predicate Delivered(f: Bytes, z: Zlib, segs: seq<Segment>, before: Bytes, after: Bytes, off: int, n: nat) {
    && |after| == |before| && n <= |before|
    && (forall k :: 0 <= k < n ==> ByteAt(f, z, segs, off + k) == Some(after[k]))
    && (forall k :: n <= k < |before| ==> after[k] == before[k])
  }

  ghost predicate Covers(segs: seq<Segment>, i: int, q: int) {
    0 <= i < |segs| && segs[i].logical <= q < segs[i].End()
  }

  ghost predicate IsGap(segs: seq<Segment>, q: int) {
    forall i :: !Covers(segs, i, q)
  }

  /** Segment i, as far as it belongs to a request of len bytes from off, starts n bytes into the request and has a byte
      that cannot be read. */
  ghost predicate BadPiece(f: Bytes, z: Zlib, segs: seq<Segment>, off: int, len: nat, n: nat, i: int) {
    && Covers(segs, i, off + n) && (n == 0 || segs[i].logical == off + n)
    && exists q :: off + n <= q < off + len && q < segs[i].End() && ByteAt(f, z, segs, q) == None
  }

  /** Where a read ends: with the request, with the section, at a gap, or before the first bad piece. */
  ghost predicate StopsAt(f: Bytes, z: Zlib, segs: seq<Segment>, off: int, len: nat, n: nat) {
    || n == len || off + n == SizeOf(segs)
    || IsGap(segs, off + n)
    || (exists i :: BadPiece(f, z, segs, off, len, n, i))
  }

  /** What a read returns: an offset outside the section fails at once and touches nothing; otherwise the bytes
      up to the stopping point arrive, and the read succeeds exactly when that is the whole request. */
  ghost predicate ReadOutcome(f: Bytes, z: Zlib, segs: seq<Segment>, before: Bytes, after: Bytes,
                              off: int, n: nat, failed: bool) {
    var size := SizeOf(segs);
    if off < 0 || off > size then n == 0 && failed && after == before
    else
      && off + n <= size && Delivered(f, z, segs, before, after, off, n)
      && StopsAt(f, z, segs, off, |before|, n)
      && (failed <==> n < |before|)
  }

  lemma CoveredIndex(segs: seq<Segment>, i: int, q: int)
    requires Disjoint(segs) && Covers(segs, i, q)
    ensures SegIndex(segs, q) == i
  {
    forall j | i < j < |segs|
      ensures segs[j].logical > q
    {
    }
  }

  lemma UncoveredByte(f: Bytes, z: Zlib, segs: seq<Segment>, q: int)
    requires Disjoint(segs) && IsGap(segs, q)
    ensures ByteAt(f, z, segs, q) == None
  {
    var i := SegIndex(segs, q);
    assert !Covers(segs, i, q);
  }

  /** A read that stops early stops before a byte that cannot be read. */
  lemma StopMeans(f: Bytes, z: Zlib, segs: seq<Segment>, off: int, len: nat, n: nat)
    requires Disjoint(segs) && n <= len && off + n <= SizeOf(segs) && StopsAt(f, z, segs, off, len, n)
    ensures || n == len || off + n == SizeOf(segs)
            || exists q :: off + n <= q < off + len && q < SizeOf(segs) && ByteAt(f, z, segs, q) == None
  {
    hide ByteAt, SegIndex;
    if n < len && off + n < SizeOf(segs) {
      if IsGap(segs, off + n) {
        UncoveredByte(f, z, segs, off + n);
      }
    }
  }

  /** The stopping point is determined by file, segments and request. */
  lemma StopOnce(f: Bytes, z: Zlib, segs: seq<Segment>, off: int, len: nat, a: nat, b: nat)
    requires Disjoint(segs) && a <= len && b <= len && off + b <= SizeOf(segs)
    requires StopsAt(f, z, segs, off, len, a) && StopsAt(f, z, segs, off, len, b)
    requires forall q :: off <= q < off + b ==> ByteAt(f, z, segs, q) != None
    ensures a >= b
  {
    hide ByteAt, SegIndex;
    if a < b {
      assert ByteAt(f, z, segs, off + a) != None;
      if IsGap(segs, off + a) {
        UncoveredByte(f, z, segs, off + a);
      } else {
        var i :| BadPiece(f, z, segs, off, len, a, i);
        var q :| off + a <= q < off + len && q < segs[i].End() && ByteAt(f, z, segs, q) == None;
        assert Covers(segs, i, off + b) && off + b < SizeOf(segs);
        CoveredIndex(segs, i, off + b);
        if j :| BadPiece(f, z, segs, off, len, b, j) {
          CoveredIndex(segs, j, off + b);
        }
      }
    }
  }

  lemma DeliveredBytes(f: Bytes, z: Zlib, segs: seq<Segment>, before: Bytes, after: Bytes, off: int, n: nat)
    requires Delivered(f, z, segs, before, after, off, n)
    ensures forall q :: off <= q < off + n ==> ByteAt(f, z, segs, q) != None
  {
    hide ByteAt;
    forall q | off <= q < off + n
      ensures ByteAt(f, z, segs, q) != None
    {
      assert ByteAt(f, z, segs, off + (q - off)) == Some(after[q - off]);
    }
  }

  /** Two reads of the same request have the same outcome, whatever the caches behind them hold. */
  lemma OutcomeUnique(f: Bytes, z: Zlib, segs: seq<Segment>, before: Bytes, off: int,
                      x: Bytes, m: nat, failed: bool, y: Bytes, n: nat, missed: bool)
    requires Disjoint(segs) && ReadOutcome(f, z, segs, before, x, off, m, failed)
    requires ReadOutcome(f, z, segs, before, y, off, n, missed)
    ensures x == y && m == n && failed == missed
  {
    hide ByteAt, StopsAt, Disjoint, SizeOf;
    if 0 <= off <= SizeOf(segs) {
      DeliveredBytes(f, z, segs, before, x, off, m);
      DeliveredBytes(f, z, segs, before, y, off, n);
      StopOnce(f, z, segs, off, |before|, m, n);
      StopOnce(f, z, segs, off, |before|, n, m);
      forall k | 0 <= k < |before|
        ensures x[k] == y[k]
      {
        if k < m {
          assert ByteAt(f, z, segs, off + k) == Some(x[k]) && ByteAt(f, z, segs, off + k) == Some(y[k]);
        }
      }
    }
  }

  lemma DisjointAscends(segs: seq<Segment>)
    requires Disjoint(segs)
    ensures Ascending(segs)
  {
    forall i, j | 0 <= i < j < |segs|
      ensures segs[i].logical <= segs[j].logical
    {
      assert segs[i].End() <= segs[j].logical;
    }
  }

  /** Inside a segment the section's bytes are the segment's bytes. */
  lemma BytesOfSegment(f: Bytes, z: Zlib, segs: seq<Segment>, i: nat)
    requires Disjoint(segs) && i < |segs|
    ensures forall q :: segs[i].logical <= q < segs[i].End() ==>
              ByteAt(f, z, segs, q) == SegByte(f, z, segs[i], q - segs[i].logical)
  {
    hide SegByte;
    forall q | segs[i].logical <= q < segs[i].End()
      ensures ByteAt(f, z, segs, q) == SegByte(f, z, segs[i], q - segs[i].logical)
    {
      var j := SegIndex(segs, q);
      assert j >= i;
    }
  }

  lemma DeliveredNothing(f: Bytes, z: Zlib, segs: seq<Segment>, before: Bytes, off: int)
    ensures Delivered(f, z, segs, before, before, off, 0)
  {
  }

  /** `want` bytes of s from delta stand at place n, the rest of the buffer is as before. */
  ghost predicate Filled(f: Bytes, z: Zlib, s: Segment, delta: int, want: nat, before: Bytes, after: Bytes, n: nat) {
    && 0 <= delta && delta + want <= s.length
    && |after| == |before| && n + want <= |after|
    && after[..n] == before[..n] && after[n + want..] == before[n + want..]
    && forall d :: delta <= d < delta + want ==> SegByte(f, z, s, d) == Some(after[n + (d - delta)])
  }

  lemma FilledBy(f: Bytes, z: Zlib, s: Segment, delta: int, before: Bytes, b: Bytes, n: nat)
    requires 0 <= delta && delta + |b| <= s.length && n + |b| <= |before|
    requires forall k :: 0 <= k < |b| ==> SegByte(f, z, s, delta + k) == Some(b[k])
    ensures Filled(f, z, s, delta, |b|, before, before[..n] + b + before[n + |b|..], n)
  {
    hide SegByte;
    forall d | delta <= d < delta + |b|
      ensures SegByte(f, z, s, d) == Some(b[d - delta])
    {
      assert SegByte(f, z, s, delta + (d - delta)) == Some(b[d - delta]);
    }
  }

  lemma DeliveredMore(f: Bytes, z: Zlib, segs: seq<Segment>, was: Bytes, mid: Bytes, now: Bytes,
                      off: int, n: nat, i: nat, want: nat)
    requires Disjoint(segs) && i < |segs| && Delivered(f, z, segs, was, mid, off, n)
    requires Filled(f, z, segs[i], off + n - segs[i].logical, want, mid, now, n)
    ensures Delivered(f, z, segs, was, now, off, n + want)
  {
    hide SegByte, ByteAt;
    BytesOfSegment(f, z, segs, i);
    forall k | 0 <= k < n + want
      ensures ByteAt(f, z, segs, off + k) == Some(now[k])
    {
      if k < n {
        assert now[..n][k] == mid[..n][k];
      } else {
        var d := off + k - segs[i].logical;
        assert SegByte(f, z, segs[i], d) == Some(now[k]);
      }
    }
    forall k | n + want <= k < |was|
      ensures now[k] == was[k]
    {
      assert now[n + want..][k - (n + want)] == mid[n + want..][k - (n + want)];
    }
  }

  lemma DeliveredFlat(f: Bytes, z: Zlib, segs: seq<Segment>, was: Bytes, now: Bytes, off: nat, n: nat)
    requires Contiguous(segs) && Readable(f, z, segs) && Delivered(f, z, segs, was, now, off, n)
    ensures forall q: nat :: q < |Flat(f, z, segs)| ==> ByteAt(f, z, segs, q) != None
    ensures off + n <= |Flat(f, z, segs)| ==> now == Flat(f, z, segs)[off..off + n] + was[n..]
  {
    hide Contiguous, Readable, Flat, ByteAt;
    var flat := Flat(f, z, segs);
    forall q: nat
      ensures ByteAt(f, z, segs, q) == if q < |flat| then Some(flat[q]) else None
    {
      FlatByte(f, z, segs, q);
    }
    if off + n <= |flat| {
      forall k | 0 <= k < n
        ensures now[k] == flat[off..off + n][k]
      {
        assert ByteAt(f, z, segs, off + k) == Some(now[k]);
      }
    }
  }

  method CopyAt(p: array<Byte>, n: nat, b: Bytes)
    requires n + |b| <= p.Length
    modifies p
    ensures p[..] == old(p[..n]) + b + old(p[n + |b|..])
  {
    for i := 0 to |b|
      invariant p[..n] == old(p[..n]) && p[n..n + i] == b[..i] && p[n + i..] == old(p[n + i..])
    {
      p[n + i] := b[i];
    }
    assert p[..] == p[..n] + p[n..n + |b|] + p[n + |b|..];
  }

  class Reader {
    const src: Bytes
    const z: Zlib
    const cache: LruCache
    const clamp: bool
    const lookahead: nat

    var segs: seq<Segment>
    var size: int

    /** Cached payloads are what decompressing the file gives; nothing else is assumed of the cache. */
    ghost predicate Valid()
      reads this, cache
    {
      && cache.Valid()
      && FromFile(src, segs)
      && size == SizeOf(segs)
      && Coherent()
    }

    ghost predicate Coherent()
      reads this, cache
    {
      forall i :: 0 <= i < |segs| && IsZipped(segs[i].kind) && segs[i].addr in cache.entries ==>
        Decompress(src, z, segs[i]) == Ok(cache.entries[segs[i].addr])
    }

    constructor (src: Bytes, z: Zlib, cacheBytes: int, clamp: bool, lookahead: nat)
      ensures Valid() && segs == [] && size == 0
      ensures this.src == src && this.z == z && this.clamp == clamp && this.lookahead == lookahead
      ensures fresh(cache) && cache.State() == Empty(cacheBytes)
    {
      this.src, this.z, this.clamp, this.lookahead := src, z, clamp, lookahead;
      segs, size := [], 0;
      cache := new LruCache(cacheBytes);
    }

    /** Resolves the section at addr; segments are collected while lists are walked, then sorted. */
    static method New(src: Bytes, z: Zlib, addr: int, cacheBytes: int, clamp: bool, lookahead: nat)
      returns (r: Result<Reader>)
      ensures r.Ok? <==> Resolve(src, addr, clamp).Ok?
      ensures r.Ok? ==> && fresh(r.value) && fresh(r.value.cache) && r.value.Valid()
                        && r.value.segs == Resolve(src, addr, clamp).value
                        && r.value.src == src && r.value.z == z
    {
      var reader := new Reader(src, z, cacheBytes, clamp, lookahead);
      if addr == 0 {
        return Ok(reader);
      }
      var err := reader.ResolveAt(addr);
      if err.Some? {
        return Err(err.value);
      }
      RawFromFile(src, addr, clamp);
      SortedFromFile(src, reader.segs);
      reader.segs := Sorted(reader.segs);
      reader.ComputeSize();
      return Ok(reader);
    }

    method ComputeSize()
      modifies this`size
      ensures size == SizeOf(segs)
    {
      size := 0;
      for i := 0 to |segs|
        invariant size == SizeOf(segs[..i])
      {
        assert segs[..i + 1][..i] == segs[..i];
        if segs[i].End() > size {
          size := segs[i].End();
        }
      }
      assert segs[..|segs|] == segs;
    }

    method ResolveAt(addr: int) returns (err: Option<Error>)
      requires segs == []
      modifies this`segs
      ensures err.None? <==> ResolveRaw(src, addr, clamp).Ok?
      ensures err.None? ==> segs == ResolveRaw(src, addr, clamp).value
    {
      var id := PeekID(src, addr);
      if id.Err? {
        return Some(id.error);
      }
      if IsStoredId(id.value) {
        err := Append(AddStored(src, addr, 0, clamp));
      } else if id.value == ID_DZ {
        err := Append(AddZipped(src, addr, 0));
      } else if id.value == ID_HL {
        var first := DecodeHL(src, addr);
        if first.Err? {
          return Some(first.error);
        }
        err := ResolveChain(first.value);
      } else if id.value == ID_DL {
        err := ResolveChain(addr);
      } else if id.value == ID_LD {
        err := Some(ColumnStorage);
      } else {
        err := Some(InvalidBlock);
      }
    }

    method Append(s: Result<Segment>) returns (err: Option<Error>)
      modifies this`segs
      ensures err.None? <==> s.Ok?
      ensures segs == old(segs) + if s.Ok? then [s.value] else []
    {
      match s {
        case Ok(seg) =>
          segs := segs + [seg];
          err := None;
        case Err(e) =>
          err := Some(e);
      }
    }

    method ResolveChain(first: int) returns (err: Option<Error>)
      requires segs == []
      modifies this`segs
      ensures err.None? <==> Chain(src, first, [], clamp, |src|).Ok?
      ensures err.None? ==> segs == Chain(src, first, [], clamp, |src|).value
    {
      hide DecodeDL, Entries;
      var addr := first;
      var fuel: nat := |src|;
      while addr != 0
        invariant Chain(src, first, [], clamp, |src|) == Chain(src, addr, segs, clamp, fuel)
        decreases fuel
      {
        if fuel == 0 {
          return Some(CyclicChain);
        }
        var dl := DecodeDL(src, addr);
        if dl.Err? {
          return Some(dl.error);
        }
        ghost var before := segs;
        err := ResolveEntries(dl.value);
        if err.Some? {
          return;
        }
        addr, fuel := dl.value.next, fuel - 1;
      }
      err := None;
    }

    /** The block index runs over the whole chain and counts the blocks added so far. */
    method ResolveEntries(dl: DL) returns (err: Option<Error>)
      requires ValidDL(dl)
      modifies this`segs
      ensures err.None? <==> Entries(src, dl, |dl.data|, |old(segs)|, clamp).Ok?
      ensures err.None? ==> segs == old(segs) + Entries(src, dl, |dl.data|, |old(segs)|, clamp).value
    {
      hide Leaf;
      ghost var before := segs;
      for i := 0 to |dl.data|
        invariant Entries(src, dl, i, |before|, clamp).Ok?
        invariant segs == before + Entries(src, dl, i, |before|, clamp).value
      {
        if dl.data[i] != 0 {
          var leaf := Leaf(src, dl.data[i], EntryLogical(dl, i, |segs|), clamp);
          err := Append(leaf);
          if err.Some? {
            EntriesFail(src, dl, i + 1, |dl.data|, |before|, clamp);
            return;
          }
        }
      }
      err := None;
    }

    /** sort.Search: the first segment that starts after off. */
    method SearchAfter(off: int) returns (i: nat)
      requires Ascending(segs)
      ensures i == SegIndex(segs, off) + 1
    {
      i := 0;
      var j := |segs|;
      while i < j
        invariant i <= j <= |segs|
        invariant forall k :: 0 <= k < i ==> segs[k].logical <= off
        invariant forall k :: j <= k < |segs| ==> segs[k].logical > off
      {
        var h := (i + j) / 2;
        if segs[h].logical <= off {
          i := h + 1;
        } else {
          j := h;
        }
      }
      ghost var at := SegIndex(segs, off);
      assert at >= 0 ==> segs[at].logical <= off;
      assert i > 0 ==> segs[i - 1].logical <= off;
    }

    /** The full content of a zipped segment, through the cache. The cache is consulted and filled in two
        separate steps, as other readers may use it in between. */
    method Decompressed(seg: Segment) returns (r: Result<Bytes>)
      requires Valid() && seg in segs && seg.kind != Stored
      modifies cache
      ensures Valid()
      ensures IsZipped(seg.kind) ==> r == Decompress(src, z, seg) || (r.Err? && Decompress(src, z, seg).Err?)
    {
      hide AddZipped, Inflate, T.Untransposed, CacheInv, RecencyOrder, FromFile, SizeOf;
      var hit := cache.Lookup(seg.addr);
      if hit.Some? {
        return Ok(hit.value);
      }
      var comp := Slice(src, seg.addr, seg.compLen);
      if comp.Err? {
        return Err(comp.error);
      }
      if seg.length < 0 {
        return Err(InflateFailed);
      }
      var inflated := Inflate(z, comp.value, seg.length);
      if inflated.Err? {
        return Err(inflated.error);
      }
      var buf := inflated.value;
      if seg.kind == TransposeDeflate {
        buf := T.Untranspose(buf, seg.zipParam);
      }
      PayloadCached(seg, buf);
      cache.Insert(seg.addr, buf);
      r := Ok(buf);
    }

    /** Decompresses, ahead of a read, the zipped segments of the range that are not cached yet. The workers
        that share this work run the same two cache steps in some interleaving. */
    method Prefetch(off: int, n: int)
      requires Valid() && Ascending(segs)
      modifies cache
      ensures Valid()
    {
      hide FromFile, SizeOf, CacheInv, RecencyOrder, Decompress;
      var after := SearchAfter(off);
      var missing: seq<Segment> := [];
      var i := if after > 0 then after - 1 else 0;
      while i < |segs| && |missing| < lookahead
        invariant Valid()
        invariant forall k :: 0 <= k < |missing| ==> missing[k] in segs && missing[k].kind != Stored
        decreases |segs| - i
      {
        var seg := segs[i];
        if seg.kind != Stored {
          if seg.logical >= off + n && missing == [] {
            break;
          }
          var hit := cache.Lookup(seg.addr);
          if hit.None? {
            missing := missing + [seg];
          }
        }
        i := i + 1;
      }
      if |missing| < 2 {
        return;
      }
      for w := 0 to |missing|
        invariant Valid()
      {
        var r := Decompressed(missing[w]);
      }
    }

    /** Copies `want` bytes from byte delta of a segment to place n of the buffer. */
    method Fill(p: array<Byte>, n: nat, seg: Segment, delta: int, want: nat)
      returns (err: Option<Error>, ghost bad: int)
      requires Valid() && seg in segs && 0 <= delta && 0 < want && delta + want <= seg.length
      requires n + want <= p.Length
      modifies p, cache
      ensures Valid()
      ensures err.None? ==> Filled(src, z, seg, delta, want, old(p[..]), p[..], n)
      ensures err.Some? ==>
                p[..] == old(p[..]) && delta <= bad < delta + want && SegByte(src, z, seg, bad) == None
    {
      hide FromFile, SizeOf, CacheInv, RecencyOrder, Decompress, Coherent, SegFromFile, Filled;
      var bytes: Bytes;
      match seg.kind {
        case Stored =>
          var b := Slice(src, seg.addr + delta, want);
          if b.Err? {
            return Some(b.error), if seg.addr + delta < 0 then delta else delta + want - 1;
          }
          bytes := b.value;
        case Zero =>
          bytes := Zeros(want);
        case _ =>
          var buf := Decompressed(seg);
          if buf.Err? {
            return Some(buf.error), delta;
          }
          bytes := buf.value[delta..delta + want];
      }
      FilledBy(src, z, seg, delta, p[..], bytes, n);
      CopyAt(p, n, bytes);
      err, bad := None, 0;
    }

    /** One round of ReadAt: everything segment i can contribute from offset off + n on. */
    method ReadSegment(p: array<Byte>, off: int, n: nat, i: nat, ghost was: Bytes)
      returns (want: nat, err: Option<Error>, ghost bad: int)
      requires Valid() && Disjoint(segs) && n < p.Length && i < |segs|
      requires segs[i].logical <= off + n < segs[i].End()
      requires Delivered(src, z, segs, was, p[..], off, n)
      modifies p, cache
      ensures Valid() && n + want <= p.Length && off + n + want <= segs[i].End()
      ensures err.None? ==> n + want == p.Length || off + n + want == segs[i].End()
      ensures Delivered(src, z, segs, was, p[..], off, n + want)
      ensures if err.None? then want > 0
              else want == 0 && off + n <= bad < off + p.Length && bad < segs[i].End()
                   && ByteAt(src, z, segs, bad) == None
    {
      BytesOfSegment(src, z, segs, i);
      hide FromFile, CacheInv, RecencyOrder, Decompress, ByteAt, SegByte, Delivered, SizeOf, SegIndex, Disjoint, Filled;
      hide Coherent;
      var seg := segs[i];
      var delta := off + n - seg.logical;
      want := p.Length - n;
      if want > seg.length - delta {
        want := seg.length - delta;
      }
      ghost var mid := p[..];
      err, bad := Fill(p, n, seg, delta, want);
      if err.Some? {
        return 0, err, seg.logical + bad;
      }
      DeliveredMore(src, z, segs, was, mid, p[..], off, n, i, want);
    }

    /** The next round: the segment at off + n, unless there is none. */
    method ReadNext(p: array<Byte>, off: int, n: nat, ghost last: int, ghost was: Bytes)
      returns (want: nat, err: Option<Error>, ghost now: int)
      requires Valid() && Disjoint(segs) && n < p.Length && off + n < size
               && Delivered(src, z, segs, was, p[..], off, n)
      requires n == 0 || Behind(segs, last, off + n)
      modifies p, cache
      ensures Valid() && n + want <= p.Length && off + n + want <= size
      ensures Delivered(src, z, segs, was, p[..], off, n + want)
      ensures err.None? ==> want > 0 && (n + want == p.Length || Behind(segs, now, off + n + want))
      ensures err.Some? ==> want == 0 && StopsAt(src, z, segs, off, p.Length, n)
    {
      hide FromFile, CacheInv, RecencyOrder, Decompress, ByteAt, Delivered, Disjoint, Coherent, SegIndex, Ascending;
      hide StopsAt, Covers, Behind, SizeOf;
      DisjointAscends(segs);
      var after := SearchAfter(off + n);
      if after == 0 || off + n >= segs[after - 1].End() {
        GapStops(src, z, segs, off, p.Length, n);
        return 0, Some(Gap), last;
      }
      FoundCovers(segs, after - 1, off + n);
      ghost var bad;
      want, err, bad := ReadSegment(p, off, n, after - 1, was);
      now := after - 1;
      EndInside(segs, now);
      if err.Some? {
        BadStops(src, z, segs, off, p.Length, n, now, last, bad);
        return;
      }
      NowBehind(segs, now, off + n, off + n + want);
    }

    /** The loop of ReadAt: segment after segment until the buffer is full or the section ends. */
    method ReadOn(p: array<Byte>, off: int) returns (n: nat, err: Option<Error>)
      requires Valid() && Disjoint(segs) && 0 <= off <= size
      modifies p, cache
      ensures Valid()
      ensures ReadOutcome(src, z, segs, old(p[..]), p[..], off, n, err.Some?)
    {
      hide FromFile, SizeOf, CacheInv, RecencyOrder, Delivered, Disjoint, Coherent, StopsAt, Behind;
      n := 0;
      var pos := off;
      ghost var last: int := -1;
      DeliveredNothing(src, z, segs, p[..], off);
      while n < p.Length && pos < size
        invariant n <= p.Length && pos == off + n && pos <= size
        invariant Valid()
        invariant Delivered(src, z, segs, old(p[..]), p[..], off, n)
        invariant n == 0 || n == p.Length || Behind(segs, last, pos)
      {
        var want;
        want, err, last := ReadNext(p, off, n, last, old(p[..]));
        if err.Some? {
          return;
        }
        n := n + want;
        pos := pos + want;
      }
      EndStops(src, z, segs, off, p.Length, n);
      err := if n < p.Length then Some(OutOfBounds) else None;
    }

    /** Fills p from logical offset off. What is delivered, and whether it succeeds, depends on the file alone:
        not on what the cache holds, its budget, or what was prefetched. */
    method ReadAt(p: array<Byte>, off: int) returns (n: nat, err: Option<Error>)
      requires Valid() && Disjoint(segs)
      modifies p, cache
      ensures Valid()
      ensures ReadOutcome(src, z, segs, old(p[..]), p[..], off, n, err.Some?)
    {
      if off < 0 || off > size {
        return 0, Some(OutOfBounds);
      }
      DisjointAscends(segs);
      Prefetch(off, p.Length);
      n, err := ReadOn(p, off);
    }

    /** Over contiguous readable segments ReadAt is slicing of one flat byte string: it fails exactly when the
        request passes the end of the section, after delivering all that is left. */
    method ReadFlat(p: array<Byte>, off: nat) returns (n: nat, err: Option<Error>)
      requires Valid() && Contiguous(segs) && Readable(src, z, segs)
      requires off <= size
      modifies p, cache
      ensures Valid()
      ensures var flat := Flat(src, z, segs);
              && size == |flat|
              && n == (if off + p.Length <= |flat| then p.Length else |flat| - off)
              && p[..] == flat[off..off + n] + old(p[n..])
              && (err.None? <==> off + p.Length <= |flat|)
    {
      ContiguousLayout(src, z, segs);
      n, err := ReadAt(p, off);
      StopMeans(src, z, segs, off, p.Length, n);
      DeliveredFlat(src, z, segs, old(p[..]), p[..], off, n);
    }

    /** Caching the decoding of a segment at its key leaves every cached payload a decoding. */
    lemma PayloadCached(seg: Segment, buf: Bytes)
      requires Valid() && seg in segs && seg.kind != Stored
      requires Decompress(src, z, seg) == Ok(buf)
      ensures var c := Put(cache.State(), seg.addr, buf);
              forall i :: 0 <= i < |segs| && IsZipped(segs[i].kind) && segs[i].addr in c.entries ==>
                Decompress(src, z, segs[i]) == Ok(c.entries[segs[i].addr])
    {
      PutKeeps(cache.State(), seg.addr, buf, cache.history);
      hide Decompress, AddZipped, Put, SizeOf, CacheInv, RecencyOrder;
      var c := Put(cache.State(), seg.addr, buf);
      forall i | 0 <= i < |segs| && IsZipped(segs[i].kind) && segs[i].addr in c.entries
        ensures Decompress(src, z, segs[i]) == Ok(c.entries[segs[i].addr])
      {
        assert SegFromFile(src, segs[i]) && SegFromFile(src, seg);
        if segs[i].addr == seg.addr && seg.addr !in cache.entries {
          SameAddressSameContent(src, z, segs[i], seg);
        }
      }
    }
  }

  /** Segment i ends here, and does not only start here. */
  ghost predicate Behind(segs: seq<Segment>, i: int, q: int) {
    0 <= i < |segs| && segs[i].logical < q == segs[i].End()
  }

  lemma FoundCovers(segs: seq<Segment>, i: nat, q: int)
    requires Disjoint(segs) && i < |segs| && SegIndex(segs, q) == i && q < segs[i].End()
    ensures segs[i].logical <= q && Covers(segs, i, q)
  {
  }

  lemma NowBehind(segs: seq<Segment>, i: nat, q: int, end: int)
    requires i < |segs| && segs[i].logical <= q < end
    ensures end == segs[i].End() ==> Behind(segs, i, end)
  {
  }

  lemma EndInside(segs: seq<Segment>, i: nat)
    requires i < |segs|
    ensures segs[i].End() <= SizeOf(segs)
  {
  }

  lemma GapStops(f: Bytes, z: Zlib, segs: seq<Segment>, off: int, len: nat, n: nat)
    requires Disjoint(segs) && (SegIndex(segs, off + n) < 0 || off + n >= segs[SegIndex(segs, off + n)].End())
    ensures StopsAt(f, z, segs, off, len, n)
  {
    hide ByteAt, SegIndex;
    NothingCovers(segs, off + n);
  }

  lemma NothingCovers(segs: seq<Segment>, q: int)
    requires Disjoint(segs) && (SegIndex(segs, q) < 0 || q >= segs[SegIndex(segs, q)].End())
    ensures IsGap(segs, q)
  {
    forall i
      ensures !Covers(segs, i, q)
    {
      if Covers(segs, i, q) {
        CoveredIndex(segs, i, q);
      }
    }
  }

  lemma EndStops(f: Bytes, z: Zlib, segs: seq<Segment>, off: int, len: nat, n: nat)
    requires n <= len && off + n <= SizeOf(segs) && (n == len || off + n >= SizeOf(segs))
    ensures StopsAt(f, z, segs, off, len, n)
  {
    hide ByteAt;
  }

  lemma BadStops(f: Bytes, z: Zlib, segs: seq<Segment>, off: int, len: nat, n: nat, i: nat, last: int, bad: int)
    requires Disjoint(segs) && Covers(segs, i, off + n) && n < len && (n == 0 || Behind(segs, last, off + n))
    requires off + n <= bad < off + len && bad < segs[i].End() && ByteAt(f, z, segs, bad) == None
    ensures StopsAt(f, z, segs, off, len, n)
  {
    hide ByteAt;
    if n > 0 {
      assert last < i;
    }
    assert BadPiece(f, z, segs, off, len, n, i);
  }

  lemma {:induction false} EntriesFail(f: Bytes, dl: DL, m: nat, n: nat, before: nat, clamp: bool)
    requires ValidDL(dl) && m <= n <= |dl.data| && Entries(f, dl, m, before, clamp).Err?
    ensures Entries(f, dl, n, before, clamp).Err?
    decreases n
  {
    hide Leaf, EntryLogical, ValidDL;
    if m < n {
      EntriesFail(f, dl, m, n - 1, before, clamp);
    }
  }
}
