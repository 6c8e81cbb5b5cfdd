/** From the decoded list blocks of column storage to two aligned streams: consecutive sample offsets or equal counts,
    whole-record blocks and one invalidation flag for all lists are enough. */
module ColumnChains {
  import opened Wire
  import opened Blocks
  import opened Zip
  import opened Sections
  import opened Tree
  import opened ColumnStorage
  import W = Windows

  /** The list blocks behind addr, in order. */
  function ChainOf(f: Bytes, addr: int, fuel: nat): Result<seq<LD>>
    decreases fuel
  {
    if addr == 0 then Ok([])
    else if fuel == 0 then Err(CyclicChain)
    else
      var ld :- DecodeLD(f, addr);
      var rest :- ChainOf(f, ld.next, fuel - 1);
      Ok([ld] + rest)
  }

  /** All links to sample blocks, list after list. */
  function DataLinks(lds: seq<LD>): seq<int> {
    if lds == [] then [] else lds[0].data + DataLinks(lds[1..])
  }

  /** Content length of the block behind a link. */
  function BlockLength(f: Bytes, addr: int, want: Bytes, clamp: bool): Option<int> {
    match AddColumnBlock(f, addr, 0, want, clamp)
    case Ok(s) => Some(s.length)
    case Err(_) => None
  }

  /** The block holds whole records, at least one. */
  ghost predicate WholeBlock(f: Bytes, addr: int, recSize: nat, clamp: bool)
    requires recSize > 0
  {
    && BlockLength(f, addr, ID_DV, clamp).Some?
    && BlockLength(f, addr, ID_DV, clamp).value > 0 && BlockLength(f, addr, ID_DV, clamp).value % recSize == 0
  }

  /** Records in each block. */
  ghost function Counts(f: Bytes, links: seq<int>, recSize: nat, clamp: bool): (r: seq<nat>)
    requires recSize > 0 && forall k :: 0 <= k < |links| ==> WholeBlock(f, links[k], recSize, clamp)
    ensures |r| == |links|
    ensures forall k :: 0 <= k < |links| ==>
              r[k] > 0 && BlockLength(f, links[k], ID_DV, clamp) == Some(Span(r[k], recSize))
  {
    seq(|links|, k requires 0 <= k < |links| => CountOf(f, links[k], recSize, clamp))
  }

  ghost function CountOf(f: Bytes, addr: int, recSize: nat, clamp: bool): (n: nat)
    requires recSize > 0 && WholeBlock(f, addr, recSize, clamp)
    ensures n > 0 && BlockLength(f, addr, ID_DV, clamp) == Some(Span(n, recSize))
  {
    WholeCount(BlockLength(f, addr, ID_DV, clamp).value, recSize);
    BlockLength(f, addr, ID_DV, clamp).value / recSize
  }

  lemma WholeCount(n: int, recSize: nat)
    requires recSize > 0 && n > 0 && n % recSize == 0
    ensures n / recSize > 0 && Span(n / recSize, recSize) == n
  {
    assert n == n / recSize * recSize;
  }

  /** A list whose first block is block number base: its offsets are the samples before each block, or all blocks of the
      chain but the last one have its equal count. */
  ghost predicate ListConsecutive(ld: LD, base: nat, counts: seq<nat>) {
    && base + |ld.data| <= |counts|
    && if ld.equal then forall k :: 0 <= k < |counts| - 1 ==> counts[k] == ld.equalCount
       else |ld.offsets| == |ld.data| && forall i :: 0 <= i < |ld.data| ==> ld.offsets[i] == Start(counts, base + i)
  }

  ghost predicate Consecutive(lds: seq<LD>, base: nat, counts: seq<nat>)
    decreases |lds|
  {
    lds == [] || (ListConsecutive(lds[0], base, counts) && Consecutive(lds[1..], base + |lds[0].data|, counts))
  }

  /** Every invalidation block is omitted or has one entry per sample of its data block. */
  ghost predicate ListInval(f: Bytes, ld: LD, base: nat, counts: seq<nat>, invalSize: nat, clamp: bool) {
    && base + |ld.data| <= |counts|
    && forall i :: 0 <= i < |ld.data| ==>
         InvalLink(ld, i) == 0
             || BlockLength(f, InvalLink(ld, i), ID_DI, clamp) == Some(Span(counts[base + i], invalSize))
  }

  ghost predicate InvalFits(f: Bytes, lds: seq<LD>, base: nat, counts: seq<nat>, invalSize: nat, clamp: bool)
    decreases |lds|
  {
    lds == []
    || (ListInval(f, lds[0], base, counts, invalSize, clamp)
        && InvalFits(f, lds[1..], base + |lds[0].data|, counts, invalSize, clamp))
  }

  /** All links to invalidation blocks, NIL where one is omitted. */
  function InvalLinks(lds: seq<LD>): seq<int> {
    if lds == [] then []
    else seq(|lds[0].data|, i requires 0 <= i < |lds[0].data| => InvalLink(lds[0], i)) + InvalLinks(lds[1..])
  }

  lemma {:induction false} LinkCounts(lds: seq<LD>)
    ensures |InvalLinks(lds)| == |DataLinks(lds)|
  {
    if lds != [] {
      LinkCounts(lds[1..]);
    }
  }

  /** Well-formed column storage, on the fields of the decoded lists and the lengths of the blocks. */
  ghost predicate WellFormed(f: Bytes, lds: seq<LD>, recSize: nat, invalSize: nat, clamp: bool, flag: bool)
    requires recSize > 0
  {
    && (forall l :: 0 <= l < |lds| ==> ValidLD(lds[l]) && lds[l].hasInval == flag)
    && (forall k :: 0 <= k < |DataLinks(lds)| ==> WholeBlock(f, DataLinks(lds)[k], recSize, clamp))
    && var counts := Counts(f, DataLinks(lds), recSize, clamp);
       && Start(counts, |counts|) < TWO_63 && Consecutive(lds, 0, counts)
       && (flag && invalSize > 0 ==> InvalFits(f, lds, 0, counts, invalSize, clamp))
  }

  // ---- one block ----

  /** Where a block stands does not change how long it is. */
  lemma LengthStays(f: Bytes, addr: int, logical: int, want: Bytes, clamp: bool)
    ensures var r := AddColumnBlock(f, addr, logical, want, clamp);
            && r.Ok? == BlockLength(f, addr, want, clamp).Some?
            && (r.Ok? ==> r.value.length == BlockLength(f, addr, want, clamp).value && r.value.logical == logical)
  {
    hide DecodeHeader, PeekID, DecodeDZ, ClampedHeader, StoredLength;
  }

  lemma {:induction false} StartMore(counts: seq<nat>, i: nat, j: nat)
    requires i <= j <= |counts|
    ensures Start(counts, i) <= Start(counts, j)
    decreases j
  {
    if i < j {
      StartMore(counts, i, j - 1);
    }
  }

  lemma SampleStarts(ld: LD, base: nat, counts: seq<nat>, i: nat)
    requires ListConsecutive(ld, base, counts) && ValidLD(ld) && i < |ld.data| && Start(counts, |counts|) < TWO_63
    ensures SampleOf(ld, i, base + i) == Start(counts, base + i)
  {
    StartMore(counts, base + i, |counts|);
    if ld.equal {
      EqualStarts(counts, ld.equalCount, base + i);
      assert ld.equalCount * (base + i) == Start(counts, base + i);
    }
  }

  // ---- the walk ----

  /** The invalidation segment of block k is as it should be. */
  ghost predicate InvalOne(e: Segment, link: int, counts: seq<nat>, invalSize: nat, k: nat)
    requires k < |counts|
  {
    && e.logical == Span(Start(counts, k), invalSize)
    && if link == 0 then e == Omitted(Span(Start(counts, k), invalSize)) else e.length == Span(counts[k], invalSize)
  }

  ghost predicate DataOne(d: Segment, counts: seq<nat>, recSize: nat, k: nat)
    requires k < |counts|
  {
    d.logical == Span(Start(counts, k), recSize) && d.length == Span(counts[k], recSize)
  }

  /** The streams after n blocks. */
  ghost predicate Walked(s: Streams, links: seq<int>, counts: seq<nat>, n: nat, recSize: nat, invalSize: nat,
                         want: bool)
  {
    && s.count == n == |s.data| && n <= |counts| == |links|
    && (forall k :: 0 <= k < n ==> DataOne(s.data[k], counts, recSize, k))
    && if want then
         && s.inval.Some? && |s.inval.value| == n
         && forall k :: 0 <= k < n ==> InvalOne(s.inval.value[k], links[k], counts, invalSize, k)
       else s.inval.None?
  }

  lemma WalkedMore(s: Streams, links: seq<int>, counts: seq<nat>, n: nat, recSize: nat, invalSize: nat, want: bool,
                   d: Segment, e: Segment)
    requires Walked(s, links, counts, n, recSize, invalSize, want) && n < |counts| && DataOne(d, counts, recSize, n)
    requires want ==> InvalOne(e, links[n], counts, invalSize, n)
    ensures var t := Streams(s.data + [d], if want then Some(s.inval.value + [e]) else None, n + 1);
            Walked(t, links, counts, n + 1, recSize, invalSize, want)
  {
    hide DataOne, InvalOne;
  }

  lemma EntryWalked(f: Bytes, ld: LD, base: nat, i: nat, s: Streams, links: seq<int>, counts: seq<nat>, recSize: nat,
                    invalSize: nat, clamp: bool, want: bool)
    requires ValidLD(ld) && i < |ld.data| && recSize > 0 && Start(counts, |counts|) < TWO_63
    requires ListConsecutive(ld, base, counts)
             && (want ==> invalSize > 0 && ListInval(f, ld, base, counts, invalSize, clamp))
    requires Walked(s, links, counts, base + i, recSize, invalSize, want) && links[base + i] == InvalLink(ld, i)
    requires BlockLength(f, ld.data[i], ID_DV, clamp) == Some(Span(counts[base + i], recSize))
    ensures var r := AddEntry(f, ld, i, s, recSize, invalSize, clamp);
            r.Ok? && Walked(r.value, links, counts, base + i + 1, recSize, invalSize, want)
  {
    SampleStarts(ld, base, counts, i);
    hide AddColumnBlock, BlockLength, Start, Span, Walked, SampleOf, ListConsecutive;
    WalkedState(s, links, counts, base + i, recSize, invalSize, want);
    var k, start := base + i, Start(counts, base + i);
    SpanUnits(start, recSize);
    LengthStays(f, ld.data[i], start * recSize, ID_DV, clamp);
    var d := AddColumnBlock(f, ld.data[i], start * recSize, ID_DV, clamp).value;
    var e := Omitted(start * invalSize);
    if want {
      SpanUnits(start, invalSize);
      if InvalLink(ld, i) != 0 {
        LengthStays(f, InvalLink(ld, i), start * invalSize, ID_DI, clamp);
        e := AddColumnBlock(f, InvalLink(ld, i), start * invalSize, ID_DI, clamp).value;
      }
    }
    WalkedMore(s, links, counts, k, recSize, invalSize, want, d, e);
  }

  lemma WalkedState(s: Streams, links: seq<int>, counts: seq<nat>, n: nat, recSize: nat, invalSize: nat, want: bool)
    requires Walked(s, links, counts, n, recSize, invalSize, want)
    ensures s.count == n <= |counts| && s.inval.Some? == want
  {
    hide DataOne, InvalOne;
  }

  lemma {:induction false} ListWalked(f: Bytes, ld: LD, base: nat, n: nat, s: Streams, links: seq<int>,
                                      counts: seq<nat>,
                                      recSize: nat, invalSize: nat, clamp: bool, want: bool)
    requires ValidLD(ld) && n <= |ld.data| && recSize > 0 && Start(counts, |counts|) < TWO_63
    requires ListConsecutive(ld, base, counts)
             && (want ==> invalSize > 0 && ListInval(f, ld, base, counts, invalSize, clamp))
    requires |links| == |counts| && Walked(s, links, counts, base, recSize, invalSize, want)
    requires forall i :: 0 <= i < |ld.data| ==>
               links[base + i] == InvalLink(ld, i)
               && BlockLength(f, ld.data[i], ID_DV, clamp) == Some(Span(counts[base + i], recSize))
    ensures var r := AddEntries(f, ld, n, s, recSize, invalSize, clamp);
            r.Ok? && Walked(r.value, links, counts, base + n, recSize, invalSize, want)
    decreases n
  {
    hide AddEntry, Walked, BlockLength, Span, ListConsecutive, ListInval;
    if n > 0 {
      ListWalked(f, ld, base, n - 1, s, links, counts, recSize, invalSize, clamp, want);
      var before := AddEntries(f, ld, n - 1, s, recSize, invalSize, clamp).value;
      EntryWalked(f, ld, base, n - 1, before, links, counts, recSize, invalSize, clamp, want);
    }
  }

  // ---- the chain ----

  /** The streams before the next list: none of invalidation bytes before the first one. */
  ghost predicate Between(s: Streams, links: seq<int>, counts: seq<nat>, n: nat, recSize: nat, invalSize: nat,
                          want: bool)
  {
    || Walked(s, links, counts, n, recSize, invalSize, want)
    || (n == 0 && s == Streams([], None, 0) && |links| == |counts|)
  }

  lemma OpenedWalked(ld: LD, s: Streams, links: seq<int>, counts: seq<nat>, n: nat, recSize: nat, invalSize: nat)
    requires Between(s, links, counts, n, recSize, invalSize, ld.hasInval && invalSize > 0)
    ensures Walked(Opened(ld, s, invalSize), links, counts, n, recSize, invalSize, ld.hasInval && invalSize > 0)
  {
    hide DataOne, InvalOne;
  }

  /** The part of the links and counts that belongs to the lists from here on. */
  ghost predicate Agree(f: Bytes, lds: seq<LD>, base: nat, links: seq<int>, counts: seq<nat>, recSize: nat, clamp: bool)
  {
    && base + |DataLinks(lds)| == |counts| == |links| && |InvalLinks(lds)| == |DataLinks(lds)|
    && (forall k :: 0 <= k < |DataLinks(lds)| ==>
          && links[base + k] == InvalLinks(lds)[k]
          && BlockLength(f, DataLinks(lds)[k], ID_DV, clamp) == Some(Span(counts[base + k], recSize)))
  }

  lemma AgreeFirst(f: Bytes, lds: seq<LD>, base: nat, links: seq<int>, counts: seq<nat>, recSize: nat, clamp: bool)
    requires lds != [] && Agree(f, lds, base, links, counts, recSize, clamp)
    ensures base + |lds[0].data| <= |counts|
    ensures forall i :: 0 <= i < |lds[0].data| ==>
              && links[base + i] == InvalLink(lds[0], i)
              && BlockLength(f, lds[0].data[i], ID_DV, clamp) == Some(Span(counts[base + i], recSize))
    ensures Agree(f, lds[1..], base + |lds[0].data|, links, counts, recSize, clamp)
  {
    hide BlockLength, Span, InvalLink;
    var m := |lds[0].data|;
    LinkCounts(lds[1..]);
    forall i | 0 <= i < m
      ensures DataLinks(lds)[i] == lds[0].data[i] && InvalLinks(lds)[i] == InvalLink(lds[0], i)
    {
    }
    forall k | 0 <= k < |DataLinks(lds[1..])|
      ensures links[base + m + k] == InvalLinks(lds[1..])[k]
      ensures BlockLength(f, DataLinks(lds[1..])[k], ID_DV, clamp) == Some(Span(counts[base + m + k], recSize))
    {
      var x := m + k;
      assert DataLinks(lds)[x] == DataLinks(lds[1..])[k] && InvalLinks(lds)[x] == InvalLinks(lds[1..])[k];
      assert links[base + x] == InvalLinks(lds)[x];
    }
  }

  lemma {:induction false} ListsWalked(f: Bytes, addr: int, lds: seq<LD>, base: nat, s: Streams, links: seq<int>,
                                       counts: seq<nat>, recSize: nat, invalSize: nat, clamp: bool, flag: bool,
                                       fuel: nat)
    requires ChainOf(f, addr, fuel) == Ok(lds) && recSize > 0 && Start(counts, |counts|) < TWO_63
    requires forall l :: 0 <= l < |lds| ==> ValidLD(lds[l]) && lds[l].hasInval == flag
    requires Agree(f, lds, base, links, counts, recSize, clamp) && Consecutive(lds, base, counts)
    requires flag && invalSize > 0 ==> InvalFits(f, lds, base, counts, invalSize, clamp)
    requires Between(s, links, counts, base, recSize, invalSize, flag && invalSize > 0)
    ensures var r := Lists(f, addr, s, recSize, invalSize, clamp, fuel);
            && r.Ok?
            && if lds == [] then r.value == s
               else Walked(r.value, links, counts, |counts|, recSize, invalSize, flag && invalSize > 0)
    decreases fuel
  {
    hide AddEntries, Walked, BlockLength, Span, ListConsecutive, ListInval, DecodeLD, Opened, Start;
    if lds != [] {
      var ld, rest := lds[0], lds[1..];
      var want := flag && invalSize > 0;
      assert DecodeLD(f, addr) == Ok(ld) && ChainOf(f, ld.next, fuel - 1) == Ok(rest);
      hide Agree, Between;
      AgreeFirst(f, lds, base, links, counts, recSize, clamp);
      AgreeSizes(f, lds, base, links, counts, recSize, clamp);
      OpenedWalked(ld, s, links, counts, base, recSize, invalSize);
      ListWalked(f, ld, base, |ld.data|, Opened(ld, s, invalSize), links, counts, recSize, invalSize, clamp, want);
      var more := AddEntries(f, ld, |ld.data|, Opened(ld, s, invalSize), recSize, invalSize, clamp).value;
      WalkedBetween(more, links, counts, base + |ld.data|, recSize, invalSize, want);
      ListsWalked(f, ld.next, rest, base + |ld.data|, more, links, counts, recSize, invalSize, clamp, flag, fuel - 1);
      if rest == [] {
        AgreeEnd(f, base + |ld.data|, links, counts, recSize, clamp);
      }
    }
  }

  lemma AgreeSizes(f: Bytes, lds: seq<LD>, base: nat, links: seq<int>, counts: seq<nat>, recSize: nat, clamp: bool)
    requires Agree(f, lds, base, links, counts, recSize, clamp)
    ensures |links| == |counts|
  {
  }

  lemma AgreeEnd(f: Bytes, base: nat, links: seq<int>, counts: seq<nat>, recSize: nat, clamp: bool)
    requires Agree(f, [], base, links, counts, recSize, clamp)
    ensures base == |counts|
  {
  }

  lemma WalkedBetween(s: Streams, links: seq<int>, counts: seq<nat>, n: nat, recSize: nat, invalSize: nat, want: bool)
    requires Walked(s, links, counts, n, recSize, invalSize, want)
    ensures Between(s, links, counts, n, recSize, invalSize, want)
  {
  }

  /** Walking well-formed lists gives streams laid out by sample, with invalidation data exactly when the lists say
      so. */
  lemma ChainWalked(f: Bytes, addr: int, lds: seq<LD>, recSize: nat, invalSize: nat, clamp: bool, flag: bool)
    requires recSize > 0 && ChainOf(f, addr, |f|) == Ok(lds) && WellFormed(f, lds, recSize, invalSize, clamp, flag)
    ensures var counts := Counts(f, DataLinks(lds), recSize, clamp);
            var r := Lists(f, addr, Streams([], None, 0), recSize, invalSize, clamp, |f|);
            && r.Ok? && LaidOut(r.value.data, counts, recSize)
            && (lds != [] && flag && invalSize > 0 ==> Columnar(r.value, counts, recSize, invalSize))
            && (lds == [] || !flag || invalSize == 0 ==> r.value.inval == None)
            && (lds != [] && flag && invalSize > 0 ==>
                  |InvalLinks(lds)| == |counts|
                  && forall k :: 0 <= k < |counts| && InvalLinks(lds)[k] == 0 ==>
                       r.value.inval.value[k] == Omitted(Span(Start(counts, k), invalSize)))
  {
    hide BlockLength, Span, Start, WholeBlock, ListInval, ListConsecutive, Lists, ChainOf;
    var counts, links := Counts(f, DataLinks(lds), recSize, clamp), InvalLinks(lds);
    LinkCounts(lds);
    assert Agree(f, lds, 0, links, counts, recSize, clamp);
    ListsWalked(f, addr, lds, 0, Streams([], None, 0), links, counts, recSize, invalSize, clamp, flag, |f|);
    if lds == [] {
      assert DataLinks(lds) == [];
    }
  }

  // ---- the result ----

  /** Well-formed column storage resolves into a gap-free stream of recSize bytes per sample and, when its lists
      carry invalidation data, a gap-free stream of invalSize bytes per sample; without such data there is no second
      stream. */
  lemma ChainAligned(f: Bytes, addr: int, lds: seq<LD>, recSize: nat, invalSize: nat, clamp: bool, flag: bool)
    requires recSize > 0 && ChainOf(f, addr, |f|) == Ok(lds) && WellFormed(f, lds, recSize, invalSize, clamp, flag)
    ensures var counts := Counts(f, DataLinks(lds), recSize, clamp);
            var n, r := Start(counts, |counts|), Resolved(f, addr, recSize, invalSize, clamp);
            && r.Ok? && Contiguous(r.value.data) && SizeOf(r.value.data) == Span(n, recSize)
            && (r.value.inval.Some? <==> lds != [] && flag && invalSize > 0)
            && (r.value.inval.Some? ==>
                  Contiguous(r.value.inval.value) && SizeOf(r.value.inval.value) == Span(n, invalSize))
  {
    hide BlockLength, Span, Start, Counts, Lists, ChainOf, Contiguous, SizeOf, Sorted, LaidOut, InvalLinks, WholeBlock;
    hide Consecutive, InvalFits, DataLinks;
    ChainWalked(f, addr, lds, recSize, invalSize, clamp, flag);
    var counts := Counts(f, DataLinks(lds), recSize, clamp);
    var s := Lists(f, addr, Streams([], None, 0), recSize, invalSize, clamp, |f|).value;
    LaidOutContiguous(s.data, counts, recSize);
    if s.inval.Some? {
      StreamsAligned(s, counts, recSize, invalSize);
    }
  }

  /** Every sample of a block whose invalidation block is omitted reads as valid, whatever bit its channel uses. */
  lemma OmittedAreValid(f: Bytes, z: Zlib, addr: int, lds: seq<LD>, recSize: nat, invalSize: nat, clamp: bool,
                        content: Bytes, k: nat, sample: nat, bitPos: nat)
    requires recSize > 0 && invalSize > 0 && lds != [] && ChainOf(f, addr, |f|) == Ok(lds)
    requires WellFormed(f, lds, recSize, invalSize, clamp, true)
    requires Resolved(f, addr, recSize, invalSize, clamp).Ok?
             && Resolved(f, addr, recSize, invalSize, clamp).value.inval.Some?
    requires SectionHolds(f, z, Resolved(f, addr, recSize, invalSize, clamp).value.inval.value, content)
    requires k < |InvalLinks(lds)| == |DataLinks(lds)| && InvalLinks(lds)[k] == 0
    requires var counts := Counts(f, DataLinks(lds), recSize, clamp); Start(counts, k) <= sample < Start(counts, k + 1)
    ensures sample < W.Held(content, invalSize) && !W.EntryFlag(W.AllRecords(content, invalSize)[sample], bitPos)
  {
    hide BlockLength, Span, Start, Counts, Lists, ChainOf, SectionHolds, Columnar, LaidOut, InvalLinks, W.EntryFlag;
    hide WholeBlock, Consecutive, InvalFits, DataLinks;
    hide W.AllRecords, W.Held, Sorted;
    ChainWalked(f, addr, lds, recSize, invalSize, clamp, true);
    var counts := Counts(f, DataLinks(lds), recSize, clamp);
    var s := Lists(f, addr, Streams([], None, 0), recSize, invalSize, clamp, |f|).value;
    W.OmittedIsValid(f, z, s, counts, recSize, invalSize, content, k, sample, bitPos);
  }
}
