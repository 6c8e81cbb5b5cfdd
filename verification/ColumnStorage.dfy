/** Column storage: lists of sample blocks with separate invalidation blocks, resolved into two aligned streams. */
module ColumnStorage {
  import opened Wire
  import opened Blocks
  import opened Zip
  import opened Sections

  datatype LD = LD(next: int, data: seq<int>, hasInval: bool, inval: seq<int>, equal: bool, equalCount: nat,
                   offsets: seq<nat>)

  ghost predicate ValidLD(ld: LD) {
    !ld.equal ==> |ld.offsets| == |ld.data|
  }

  function DecodeLD(f: Bytes, addr: int): (r: Result<LD>)
    ensures r.Ok? ==> ValidLD(r.value)
  {
    var r :- DecodeRaw(f, addr, ID_LD, 1, 8);
    var d := r.data;
    var flags, n := FromLE(d[0..4]), FromLE(d[4..8]);
    var hasInval := flags >= 0x8000_0000;
    if 1 + n > |r.links| then Err(InvalidBlock)
    else if hasInval && 1 + 2 * n > |r.links| then Err(InvalidBlock)
    else
      var inval := if hasInval then r.links[1 + n..1 + 2 * n] else [];
      if flags % 2 != 0 then
        if |d| < 16 then Err(InvalidBlock)
        else Ok(LD(r.Link(0), r.links[1..1 + n], hasInval, inval, true, FromLE(d[8..16]), []))
      else if |d| < 8 + 8 * n then Err(InvalidBlock)
      else
        Ok(LD(r.Link(0), r.links[1..1 + n], hasInval, inval, false, 0,
              seq(n, i requires 0 <= i < n => FromLE(d[8 + 8 * i..16 + 8 * i]))))
  }

  /** One sample or invalidation block; the concrete stored type may differ. */
  function AddColumnBlock(f: Bytes, addr: int, logical: int, want: Bytes, clamp: bool): Result<Segment> {
    var id :- PeekID(f, addr);
    if id == want || id == ID_DT || id == ID_SD then AddStored(f, addr, logical, clamp)
    else if id == ID_DZ then AddZipped(f, addr, logical)
    else Err(InvalidBlock)
  }

  // ---- the two streams while the lists are walked ----

  /** Segments so far, and the number of sample blocks; there is no invalidation stream before a list announces it. */
  datatype Streams = Streams(data: seq<Segment>, inval: Option<seq<Segment>>, count: nat)

  function SampleOf(ld: LD, i: nat, count: nat): int
    requires ValidLD(ld) && i < |ld.data|
  {
    if ld.equal then AsInt64(ld.equalCount * count) else AsInt64(ld.offsets[i])
  }

  /** An omitted invalidation block leaves a placeholder whose length is settled at the end. */
  function Omitted(logical: int): Segment { Segment(logical, -1, 0, 0, 0, Zero) }

  function InvalLink(ld: LD, i: nat): int {
    if i < |ld.inval| then ld.inval[i] else 0
  }

  function AddInval(f: Bytes, ld: LD, i: nat, logical: int, iv: seq<Segment>, clamp: bool): Result<seq<Segment>> {
    if InvalLink(ld, i) == 0 then Ok(iv + [Omitted(logical)])
    else
      var s :- AddColumnBlock(f, InvalLink(ld, i), logical, ID_DI, clamp);
      Ok(iv + [s])
  }

  function AddEntry(f: Bytes, ld: LD, i: nat, s: Streams, recSize: nat, invalSize: nat, clamp: bool): Result<Streams>
    requires ValidLD(ld) && i < |ld.data|
  {
    var sample := SampleOf(ld, i, s.count);
    var d :- AddColumnBlock(f, ld.data[i], sample * recSize, ID_DV, clamp);
    match s.inval
    case None => Ok(Streams(s.data + [d], None, s.count + 1))
    case Some(iv) =>
      var more :- AddInval(f, ld, i, sample * invalSize, iv, clamp);
      Ok(Streams(s.data + [d], Some(more), s.count + 1))
  }

  function AddEntries(f: Bytes, ld: LD, n: nat, s: Streams, recSize: nat, invalSize: nat, clamp: bool): Result<Streams>
    requires ValidLD(ld) && n <= |ld.data|
  {
    if n == 0 then Ok(s)
    else
      var before :- AddEntries(f, ld, n - 1, s, recSize, invalSize, clamp);
      AddEntry(f, ld, n - 1, before, recSize, invalSize, clamp)
  }

  /** The first list with invalidation data opens the second stream. */
  function Opened(ld: LD, s: Streams, invalSize: nat): Streams {
    if ld.hasInval && invalSize > 0 && s.inval.None? then s.(inval := Some([])) else s
  }

  /** A chain longer than the file has bytes revisits a list. */
  function Lists(f: Bytes, addr: int, s: Streams, recSize: nat, invalSize: nat, clamp: bool, fuel: nat): Result<Streams>
    decreases fuel
  {
    if addr == 0 then Ok(s)
    else if fuel == 0 then Err(CyclicChain)
    else
      var ld :- DecodeLD(f, addr);
      var more :- AddEntries(f, ld, |ld.data|, Opened(ld, s, invalSize), recSize, invalSize, clamp);
      Lists(f, ld.next, more, recSize, invalSize, clamp, fuel - 1)
  }

  /** Bytes of an omitted invalidation block: the span of the data block that starts at the same sample. */
  function ZeroLength(data: seq<Segment>, logical: int, recSize: nat, invalSize: nat): int
    requires recSize > 0 && invalSize > 0
  {
    if data == [] then 0
    else if data[0].logical == logical / invalSize * recSize then data[0].length / recSize * invalSize
    else ZeroLength(data[1..], logical, recSize, invalSize)
  }

  function Settled(data: seq<Segment>, s: Segment, recSize: nat, invalSize: nat): Segment
    requires recSize > 0 && invalSize > 0
  {
    if s.kind == Zero && s.length < 0 then s.(length := ZeroLength(data, s.logical, recSize, invalSize)) else s
  }

  function SettledAll(data: seq<Segment>, iv: seq<Segment>, recSize: nat, invalSize: nat): (r: seq<Segment>)
    requires recSize > 0 && invalSize > 0
    ensures |r| == |iv| && forall i :: 0 <= i < |iv| ==> r[i] == Settled(data, iv[i], recSize, invalSize)
  {
    seq(|iv|, i requires 0 <= i < |iv| => Settled(data, iv[i], recSize, invalSize))
  }

  datatype Storage = Storage(data: seq<Segment>, inval: Option<seq<Segment>>)

  function Finished(s: Streams, recSize: nat, invalSize: nat): Storage
    requires recSize > 0
  {
    var data := Sorted(s.data);
    Storage(data,
            if s.inval.Some? && invalSize > 0 then Some(Sorted(SettledAll(data, s.inval.value, recSize, invalSize)))
            else None)
  }

  function Resolved(f: Bytes, addr: int, recSize: nat, invalSize: nat, clamp: bool): Result<Storage> {
    if recSize == 0 then Err(BadArgument)
    else
      var s :- Lists(f, addr, Streams([], None, 0), recSize, invalSize, clamp, |f|);
      Ok(Finished(s, recSize, invalSize))
  }

  // ---- well-formed column storage ----

  /** Samples before block i. */
  function Start(counts: seq<nat>, i: nat): nat
    requires i <= |counts|
  {
    if i == 0 then 0 else Start(counts, i - 1) + counts[i - 1]
  }

  /** Bytes of n samples. */
  function Span(n: nat, unit: nat): nat {
    SpanNat(n, unit);
    n * unit
  }

  lemma SpanNat(n: nat, unit: nat)
    ensures n * unit >= 0
  {
  }

  /** Whole records, consecutive sample offsets, and one invalidation block of the right size or none per block. */
  ghost predicate Columnar(s: Streams, counts: seq<nat>, recSize: nat, invalSize: nat) {
    && LaidOut(s.data, counts, recSize)
    && s.inval.Some? && |s.inval.value| == |counts|
    && forall i :: 0 <= i < |counts| ==>
         && s.inval.value[i].logical == Span(Start(counts, i), invalSize)
         && (s.inval.value[i] == Omitted(Span(Start(counts, i), invalSize))
             || s.inval.value[i].length == Span(counts[i], invalSize))
  }

  /** Blocks of equal sample count start at multiples of it, whatever the last one holds. */
  lemma {:induction false} EqualStarts(counts: seq<nat>, c: nat, i: nat)
    requires i <= |counts| && forall j :: 0 <= j < |counts| - 1 ==> counts[j] == c
    requires i < |counts| || i == 0
    ensures Start(counts, i) == c * i
  {
    if i > 0 {
      EqualStarts(counts, c, i - 1);
      assert c * i == c * (i - 1) + c;
    }
  }

  /** Segments with the layout of the counts, in units of `unit` bytes. */
  ghost predicate LaidOut(segs: seq<Segment>, counts: seq<nat>, unit: nat) {
    && |segs| == |counts|
    && forall i :: 0 <= i < |counts| ==>
         counts[i] > 0 && segs[i].logical == Span(Start(counts, i), unit) && segs[i].length == Span(counts[i], unit)
  }

  lemma SpanAdds(a: nat, b: nat, unit: nat)
    ensures Span(a + b, unit) == Span(a, unit) + Span(b, unit)
    ensures b > 0 && unit > 0 ==> Span(b, unit) > 0
  {
    assert (a + b) * unit == a * unit + b * unit;
    if b > 0 {
      MulAtLeast(b, unit);
    }
  }

  /** Block i ends where block i + 1 starts. */
  lemma NextStart(counts: seq<nat>, i: nat, unit: nat)
    requires i < |counts|
    ensures Span(Start(counts, i + 1), unit) == Span(Start(counts, i), unit) + Span(counts[i], unit)
    ensures counts[i] > 0 && unit > 0 ==> Span(counts[i], unit) > 0
  {
    hide Span;
    SpanAdds(Start(counts, i), counts[i], unit);
  }

  lemma {:induction false} StartsGrow(counts: seq<nat>, i: nat, j: nat, unit: nat)
    requires i <= j <= |counts|
    ensures Span(Start(counts, i), unit) <= Span(Start(counts, j), unit)
    decreases j
  {
    hide Span;
    if i < j {
      StartsGrow(counts, i, j - 1, unit);
      NextStart(counts, j - 1, unit);
    }
  }

  lemma SpanZero(unit: nat)
    ensures Span(0, unit) == 0
  {
  }

  /** Such segments are contiguous and hold one unit per sample. */
  lemma LaidOutContiguous(segs: seq<Segment>, counts: seq<nat>, unit: nat)
    requires LaidOut(segs, counts, unit) && unit > 0
    ensures Contiguous(segs) && SizeOf(segs) == Span(Start(counts, |counts|), unit) && Sorted(segs) == segs
  {
    hide Span, SizeOf, Sorted, Start, Ascending, Contiguous;
    LaidOutJoined(segs, counts, unit);
    LaidOutAscends(segs, counts, unit);
    SortedOfAscending(segs);
    LaidOutSize(segs, counts, unit, |segs|);
    assert segs[..|segs|] == segs;
  }

  lemma LaidOutJoined(segs: seq<Segment>, counts: seq<nat>, unit: nat)
    requires LaidOut(segs, counts, unit) && unit > 0
    ensures Contiguous(segs)
  {
    hide Span;
    SpanZero(unit);
    forall i | 0 <= i < |segs|
      ensures segs[i].End() == Span(Start(counts, i + 1), unit) && segs[i].length > 0
    {
      NextStart(counts, i, unit);
    }
  }

  lemma LaidOutAscends(segs: seq<Segment>, counts: seq<nat>, unit: nat)
    requires LaidOut(segs, counts, unit)
    ensures Ascending(segs)
  {
    hide Span, Start;
    forall i, j | 0 <= i < j < |segs|
      ensures segs[i].logical <= segs[j].logical
    {
      StartsGrow(counts, i, j, unit);
    }
  }

  lemma {:induction false} LaidOutSize(segs: seq<Segment>, counts: seq<nat>, unit: nat, n: nat)
    requires LaidOut(segs, counts, unit) && unit > 0 && n <= |segs|
    ensures SizeOf(segs[..n]) == Span(Start(counts, n), unit)
  {
    hide Span, SizeOf, Start;
    SpanZero(unit);
    if n == 0 {
      NoSize();
      NoStart(counts);
    } else {
      LaidOutSize(segs, counts, unit, n - 1);
      OneSizeMore(segs, n - 1);
      NextStart(counts, n - 1, unit);
    }
  }

  lemma NoSize()
    ensures SizeOf([]) == 0
  {
  }

  lemma NoStart(counts: seq<nat>)
    ensures Start(counts, 0) == 0
  {
  }

  lemma OneSizeMore(segs: seq<Segment>, n: nat)
    requires n < |segs|
    ensures SizeOf(segs[..n + 1]) == if segs[n].End() > SizeOf(segs[..n]) then segs[n].End() else SizeOf(segs[..n])
  {
    var part := segs[..n + 1];
    assert part[..|part| - 1] == segs[..n];
  }

  /** The search finds the data block of the same sample, and no other. */
  lemma {:induction false} ZeroLengthIs(data: seq<Segment>, counts: seq<nat>, recSize: nat, invalSize: nat, i: nat,
                                        n: nat)
    requires LaidOut(data, counts, recSize) && recSize > 0 && invalSize > 0 && n <= i < |data|
    ensures ZeroLength(data[n..], Span(Start(counts, i), invalSize), recSize, invalSize) == Span(counts[i], invalSize)
    decreases i - n
  {
    SpanUnits(Start(counts, i), invalSize);
    SpanUnits(counts[i], recSize);
    var at, start := Span(Start(counts, i), invalSize), Start(counts, i);
    assert at / invalSize * recSize == Span(start, recSize);
    if n < i {
      NextStart(counts, n, recSize);
      StartsGrow(counts, n + 1, i, recSize);
      ZeroLengthIs(data, counts, recSize, invalSize, i, n + 1);
      assert data[n..][1..] == data[n + 1..];
    }
  }

  lemma SpanUnits(n: nat, unit: nat)
    requires unit > 0
    ensures Span(n, unit) / unit == n && Span(n, unit) == n * unit
  {
    ModUnique(n * unit, unit, n, 0);
  }

  /** Both streams are gap-free and aligned: recSize and invalSize bytes per sample, and omitted invalidation blocks
      have become runs of zeros of exactly their samples. */
  lemma StreamsAligned(s: Streams, counts: seq<nat>, recSize: nat, invalSize: nat)
    requires Columnar(s, counts, recSize, invalSize) && recSize > 0 && invalSize > 0
    ensures var r, n := Finished(s, recSize, invalSize), Start(counts, |counts|);
            && Contiguous(r.data) && SizeOf(r.data) == Span(n, recSize)
            && r.inval.Some? && Contiguous(r.inval.value) && SizeOf(r.inval.value) == Span(n, invalSize)
            && LaidOut(r.inval.value, counts, invalSize)
            && forall i :: 0 <= i < |counts| && s.inval.value[i] == Omitted(Span(Start(counts, i), invalSize)) ==>
                 r.inval.value[i].kind == Zero
  {
    hide Contiguous, Sorted, SizeOf, Span;
    LaidOutContiguous(s.data, counts, recSize);
    var settled := SettledAll(s.data, s.inval.value, recSize, invalSize);
    forall i | 0 <= i < |counts|
      ensures settled[i].logical == Span(Start(counts, i), invalSize) && settled[i].length == Span(counts[i], invalSize)
      ensures s.inval.value[i] == Omitted(Span(Start(counts, i), invalSize)) ==> settled[i].kind == Zero
    {
      ZeroLengthIs(s.data, counts, recSize, invalSize, i, 0);
      assert s.data[0..] == s.data;
    }
    LaidOutContiguous(settled, counts, invalSize);
  }

  /** Every invalidation byte of a sample whose block was omitted reads as zero. */
  lemma OmittedReadsZero(f: Bytes, z: Zlib, s: Streams, counts: seq<nat>, recSize: nat, invalSize: nat, i: nat, k: nat)
    requires Columnar(s, counts, recSize, invalSize) && recSize > 0 && invalSize > 0 && i < |counts|
    requires s.inval.value[i] == Omitted(Span(Start(counts, i), invalSize))
    requires Span(Start(counts, i), invalSize) <= k < Span(Start(counts, i + 1), invalSize)
    ensures ByteAt(f, z, Finished(s, recSize, invalSize).inval.value, k) == Some(0)
  {
    hide Sorted, SizeOf, Finished, Span, Contiguous, Columnar, SegIndex;
    StreamsAligned(s, counts, recSize, invalSize);
    var segs := Finished(s, recSize, invalSize).inval.value;
    IndexOfSample(segs, counts, invalSize, i, k);
    OmittedHere(s, counts, recSize, invalSize, i);
    NextStart(counts, i, invalSize);
  }

  lemma OmittedHere(s: Streams, counts: seq<nat>, recSize: nat, invalSize: nat, i: nat)
    requires Columnar(s, counts, recSize, invalSize) && i < |counts|
    ensures |counts| == |s.inval.value|
  {
  }

  /** The segment of a byte is the one its sample belongs to. */
  lemma IndexOfSample(segs: seq<Segment>, counts: seq<nat>, unit: nat, i: nat, k: nat)
    requires LaidOut(segs, counts, unit) && i < |counts|
    requires Span(Start(counts, i), unit) <= k < Span(Start(counts, i + 1), unit)
    ensures SegIndex(segs, k) == i
  {
    hide Span, Start, SegIndex;
    forall j | i < j < |segs|
      ensures segs[j].logical > k
    {
      StartsGrow(counts, i + 1, j, unit);
    }
    SegIndexIs(segs, k, i);
  }

  lemma SegIndexIs(segs: seq<Segment>, off: int, i: nat)
    requires i < |segs| && segs[i].logical <= off && forall j :: i < j < |segs| ==> segs[j].logical > off
    ensures SegIndex(segs, off) == i
  {
  }

  // ---- the resolution ----

  /** One list block, entry by entry. */
  method ResolveList(f: Bytes, ld: LD, s: Streams, recSize: nat, invalSize: nat, clamp: bool)
    returns (r: Result<Streams>)
    requires ValidLD(ld)
    ensures r == AddEntries(f, ld, |ld.data|, s, recSize, invalSize, clamp)
  {
    hide AddColumnBlock, SampleOf;
    var data, inval, count := s.data, s.inval, s.count;
    for i := 0 to |ld.data|
      invariant AddEntries(f, ld, i, s, recSize, invalSize, clamp) == Ok(Streams(data, inval, count))
    {
      var sample := SampleOf(ld, i, count);
      var d := AddColumnBlock(f, ld.data[i], sample * recSize, ID_DV, clamp);
      if d.Err? {
        EntryFails(f, ld, i + 1, |ld.data|, s, recSize, invalSize, clamp);
        return Err(d.error);
      }
      if inval.Some? {
        if InvalLink(ld, i) == 0 {
          inval := Some(inval.value + [Omitted(sample * invalSize)]);
        } else {
          var iv := AddColumnBlock(f, InvalLink(ld, i), sample * invalSize, ID_DI, clamp);
          if iv.Err? {
            EntryFails(f, ld, i + 1, |ld.data|, s, recSize, invalSize, clamp);
            return Err(iv.error);
          }
          inval := Some(inval.value + [iv.value]);
        }
      }
      data, count := data + [d.value], count + 1;
    }
    r := Ok(Streams(data, inval, count));
  }

  /** The first entry that fails decides. */
  lemma {:induction false} EntryFails(f: Bytes, ld: LD, i: nat, n: nat, s: Streams, recSize: nat, invalSize: nat,
                                      clamp: bool)
    requires ValidLD(ld) && i <= n <= |ld.data| && AddEntries(f, ld, i, s, recSize, invalSize, clamp).Err?
    ensures AddEntries(f, ld, n, s, recSize, invalSize, clamp) == AddEntries(f, ld, i, s, recSize, invalSize, clamp)
  {
    hide AddEntry;
    if i < n {
      EntryFails(f, ld, i, n - 1, s, recSize, invalSize, clamp);
    }
  }

  /** The length of an omitted invalidation block, searched among the data segments. */
  method FindZeroLength(data: seq<Segment>, logical: int, recSize: nat, invalSize: nat) returns (n: int)
    requires recSize > 0 && invalSize > 0
    ensures n == ZeroLength(data, logical, recSize, invalSize)
  {
    var startSample := logical / invalSize;
    assert data[0..] == data;
    for i := 0 to |data|
      invariant ZeroLength(data, logical, recSize, invalSize) == ZeroLength(data[i..], logical, recSize, invalSize)
    {
      if data[i].logical == startSample * recSize {
        return data[i].length / recSize * invalSize;
      }
      assert data[i..][1..] == data[i + 1..];
    }
    assert data[|data|..] == [];
    n := 0;
  }

  /** NewColumnStorage: walks the lists, then settles the omitted invalidation blocks and sorts both streams. */
  method Resolve(f: Bytes, first: int, recSize: nat, invalSize: nat, clamp: bool) returns (r: Result<Storage>)
    ensures r == Resolved(f, first, recSize, invalSize, clamp)
  {
    hide AddEntries, DecodeLD, Sorted, ZeroLength;
    if recSize == 0 {
      return Err(BadArgument);
    }
    var addr, fuel: nat := first, |f|;
    var s := Streams([], None, 0);
    while addr != 0
      invariant Lists(f, first, Streams([], None, 0), recSize, invalSize, clamp, |f|)
                == Lists(f, addr, s, recSize, invalSize, clamp, fuel)
      decreases fuel
    {
      if fuel == 0 {
        return Err(CyclicChain);
      }
      var ld := DecodeLD(f, addr);
      if ld.Err? {
        return Err(ld.error);
      }
      if ld.value.hasInval && invalSize > 0 && s.inval.None? {
        s := s.(inval := Some([]));
      }
      var more := ResolveList(f, ld.value, s, recSize, invalSize, clamp);
      if more.Err? {
        return Err(more.error);
      }
      s, addr, fuel := more.value, ld.value.next, fuel - 1;
    }
    var data := Sorted(s.data);
    if s.inval.None? || invalSize == 0 {
      return Ok(Storage(data, None));
    }
    var iv := s.inval.value;
    for i := 0 to |iv|
      invariant |iv| == |s.inval.value|
      invariant forall k :: 0 <= k < i ==> iv[k] == Settled(data, s.inval.value[k], recSize, invalSize)
      invariant forall k :: i <= k < |iv| ==> iv[k] == s.inval.value[k]
    {
      if iv[i].kind == Zero && iv[i].length < 0 {
        var n := FindZeroLength(data, iv[i].logical, recSize, invalSize);
        iv := iv[i := iv[i].(length := n)];
      }
    }
    assert iv == SettledAll(data, s.inval.value, recSize, invalSize);
    r := Ok(Storage(data, Some(Sorted(iv))));
  }
}
