/** Windowed reading: columns in chunks of any size, and invalidation flags from their own stream. */
module Windows {
  import opened Wire
  import opened Bits
  import opened Bitsets
  import opened Sections
  import opened Tree
  import opened SectionReader
  import R = Records
  import V = Vlsd
  import C = ColumnStorage
  import opened Zip

  /** A requested range cut to what there is; a negative count asks for the rest. */
  function ResolveRange(from: int, count: int, total: nat): Result<(nat, nat)> {
    if from < 0 || from > total then Err(BadArgument)
    else Ok((from, if count < 0 || from + count > total then total - from else count))
  }

  /** Whole records in a stream. */
  function Held(content: Bytes, recSize: nat): (n: nat)
    requires recSize > 0
    ensures n * recSize <= |content|
  {
    Whole(|content|, recSize);
    |content| / recSize
  }

  lemma Whole(n: nat, m: nat)
    requires m > 0
    ensures n / m >= 0 && n / m * m <= n
  {
    assert n == n / m * m + n % m;
  }

  /** All records of a stream. */
  function AllRecords(content: Bytes, recSize: nat): seq<Bytes>
    requires recSize > 0
  {
    R.Split(content, recSize, Held(content, recSize))
  }

  lemma Distributes(a: nat, b: nat, m: nat)
    ensures (a + b) * m == a * m + b * m
  {
  }

  /** The records of a piece are the records of the stream from where the piece starts. */
  lemma PieceRecords(content: Bytes, recSize: nat, at: nat, n: nat, total: nat)
    requires at + n <= total && total * recSize <= |content|
    requires 0 <= at * recSize && at * recSize + n * recSize <= |content|
    ensures var piece := content[at * recSize..at * recSize + n * recSize];
            n * recSize <= |piece| && R.Split(piece, recSize, n) == R.Split(content, recSize, total)[at..at + n]
  {
    var base := at * recSize;
    var piece := content[base..base + n * recSize];
    forall i | 0 <= i < n
      ensures R.Piece(piece, recSize, n, i) == R.Piece(content, recSize, total, at + i)
    {
      R.PieceInside(recSize, n, i);
      R.PieceInside(recSize, total, at + i);
      Distributes(at, i, recSize);
      var o := i * recSize;
      SubSlice(content, base, base + n * recSize, o, o + recSize);
    }
  }

  ghost predicate Sized(recs: seq<Bytes>, recSize: nat) {
    forall i :: 0 <= i < |recs| ==> |recs[i]| == recSize
  }

  /** A column holds the samples and flags of exactly these records. */
  ghost predicate Gathered(s: R.Spec, recSize: nat, recs: seq<Bytes>, column: seq<R.Value>, flags: seq<bool>) {
    && Sized(recs, recSize)
    && (recs == [] ==> column == [] && flags == [])
    && (recs != [] ==> R.Extractable(s, recSize) && column == R.Values(s, recs)
                       && flags == if R.FlagsKept(s, recSize) then R.Flags(s, recs) else [])
  }

  lemma GatheredMore(s: R.Spec, recSize: nat, recs: seq<Bytes>, column: seq<R.Value>, flags: seq<bool>,
                     more: seq<Bytes>)
    requires Gathered(s, recSize, recs, column, flags) && Sized(more, recSize) && R.Extractable(s, recSize)
    ensures Gathered(s, recSize, recs + more, column + R.Values(s, more),
                     flags + if R.FlagsKept(s, recSize) then R.Flags(s, more) else [])
  {
    hide R.Sample, R.Flagged;
    if recs != [] {
      assert R.Values(s, recs + more) == R.Values(s, recs) + R.Values(s, more);
      assert R.Flags(s, recs + more) == R.Flags(s, recs) + R.Flags(s, more);
    } else {
      assert recs + more == more;
    }
  }

  /** n records from the stream, from record `at` on. */
  ghost function Window(content: Bytes, recSize: nat, at: nat, n: nat): (r: seq<Bytes>)
    requires recSize > 0 && at + n <= Held(content, recSize)
    ensures |r| == n && Sized(r, recSize)
  {
    AllRecords(content, recSize)[at..at + n]
  }

  lemma WindowGrows(content: Bytes, recSize: nat, at: nat, n: nat, k: nat)
    requires recSize > 0 && at + n + k <= Held(content, recSize)
    ensures Window(content, recSize, at, n) + Window(content, recSize, at + n, k) == Window(content, recSize, at, n + k)
  {
  }

  /** A piece as long as n records can be read exactly when the stream holds those records; it holds their window. */
  method ReadWindow(sd: Reader, recSize: nat, at: nat, n: nat, ghost content: Bytes) returns (r: Result<Bytes>)
    requires V.Backed(sd, content) && recSize > 0 && n > 0
    modifies sd.cache
    ensures V.Backed(sd, content)
    ensures r.Ok? <==> at + n <= Held(content, recSize)
    ensures r.Ok? ==> n * recSize <= |r.value| && R.Split(r.value, recSize, n) == Window(content, recSize, at, n)
  {
    hide SectionHolds;
    PieceSize(recSize, at, n, |content|);
    r := V.ReadPiece(sd, at * recSize, n * recSize, content);
    if at + n <= Held(content, recSize) {
      PieceRecords(content, recSize, at, n, Held(content, recSize));
    }
  }

  lemma PieceSize(recSize: nat, at: nat, n: nat, size: nat)
    requires recSize > 0
    ensures 0 <= at * recSize && 0 <= n * recSize
    ensures at * recSize + n * recSize <= size <==> at + n <= size / recSize
  {
    MulOrder(0, at, recSize);
    MulOrder(0, n, recSize);
    assert (at + n) * recSize == at * recSize + n * recSize;
    Whole(size, recSize);
    if at + n <= size / recSize {
      MulOrder(at + n, size / recSize, recSize);
    } else {
      MulOrder(size / recSize + 1, at + n, recSize);
      assert (size / recSize + 1) * recSize == size / recSize * recSize + recSize;
      assert size == size / recSize * recSize + size % recSize;
    }
  }

  /** Records from `from` on, chunk by chunk; the result does not depend on the chunk size. */
  method ExtractColumn(sd: Reader, s: R.Spec, recSize: nat, from: nat, count: nat, chunkSamples: int, invalid: Bitset,
                       ghost content: Bytes) returns (r: Result<seq<R.Value>>)
    requires V.Backed(sd, content) && invalid.Valid() && invalid.flags == []
    modifies sd.cache, invalid
    ensures V.Backed(sd, content) && invalid.Valid()
    ensures r.Ok? <==> s.dataType <= R.BYTES_LAST
                       && (count == 0 || (recSize > 0 && from + count <= Held(content, recSize)
                                          && R.Extractable(s, recSize)))
    ensures r.Ok? && count == 0 ==> r.value == [] && invalid.flags == []
    ensures r.Ok? && count > 0 ==> Gathered(s, recSize, Window(content, recSize, from, count), r.value, invalid.flags)
  {
    hide R.Extractable, R.Values, R.Flags, R.FlagsKept, SectionHolds, Gathered, Window, Held, V.Backed;
    if s.dataType > R.BYTES_LAST {
      return Err(Unsupported);
    }
    if count == 0 {
      return Ok([]);
    }
    if recSize == 0 {
      return Err(BadArgument);
    }
    var total := Records(sd, recSize, content);
    if from + count > total {
      return Err(OutOfBounds);
    }
    var chunk := ChunkSize(chunkSamples, recSize);
    var column: seq<R.Value> := [];
    var done: nat := 0;
    NothingGathered(s, content, recSize, from);
    while done < count
      invariant 0 <= done <= count && V.Backed(sd, content) && invalid.Valid()
      invariant done > 0 ==> R.Extractable(s, recSize)
      invariant Gathered(s, recSize, Window(content, recSize, from, done), column, invalid.flags)
      decreases count - done
    {
      var n := if done + chunk > count then count - done else chunk;
      var piece := ReadWindow(sd, recSize, from + done, n, content);
      ghost var flags := invalid.flags;
      var more := R.Extract(s, piece.value, recSize, n, column, invalid);
      if more.Err? {
        return more;
      }
      GatheredMore(s, recSize, Window(content, recSize, from, done), column, flags,
                   Window(content, recSize, from + done, n));
      WindowGrows(content, recSize, from, done, n);
      column := more.value;
      done := done + n;
    }
    r := Ok(column);
  }

  method Records(sd: Reader, recSize: nat, ghost content: Bytes) returns (n: nat)
    requires V.Backed(sd, content) && recSize > 0
    ensures n == Held(content, recSize)
  {
    hide SectionHolds;
    Whole(sd.size, recSize);
    n := sd.size / recSize;
  }

  lemma NothingGathered(s: R.Spec, content: Bytes, recSize: nat, from: nat)
    requires recSize > 0 && from <= Held(content, recSize)
    ensures Gathered(s, recSize, Window(content, recSize, from, 0), [], [])
  {
  }

  // ---- invalidation flags in their own stream ----

  /** Bit bitPos of the entry of a sample. */
  function EntryFlag(entry: Bytes, bitPos: nat): bool {
    bitPos / 8 < |entry| && BitOf(entry[bitPos / 8], bitPos % 8) == 1
  }

  function EntryFlags(entries: seq<Bytes>, bitPos: nat): (r: seq<bool>)
    ensures |r| == |entries| && forall i :: 0 <= i < |entries| ==> r[i] == EntryFlag(entries[i], bitPos)
  {
    seq(|entries|, i requires 0 <= i < |entries| => EntryFlag(entries[i], bitPos))
  }

  /** ExtractInvalidBits: one flag per entry, unless the bit lies outside the entries. */
  method ExtractInvalidBits(invalid: Bitset, buf: Bytes, stride: nat, count: nat, bitPos: nat)
    requires invalid.Valid() && count * stride <= |buf|
    modifies invalid
    ensures invalid.Valid()
    ensures invalid.flags == old(invalid.flags)
                             + if bitPos / 8 < stride then EntryFlags(R.Split(buf, stride, count), bitPos) else []
  {
    hide BitOf, And;
    var byteIdx, bit := bitPos / 8, bitPos % 8;
    if byteIdx >= stride {
      return;
    }
    ghost var entries := R.Split(buf, stride, count);
    for i := 0 to count
      invariant invalid.Valid() && invalid.flags == old(invalid.flags) + EntryFlags(entries[..i], bitPos)
    {
      R.PieceInside(stride, count, i);
      var b := buf[i * stride + byteIdx];
      assert b == entries[i][byteIdx];
      AndBit(b, bit);
      invalid.Append(And(b, Pow2(bit)) != 0);
      assert entries[..i + 1] == entries[..i] + [entries[i]];
    }
    assert entries[..count] == entries;
  }

  /** readSeparateInvalid: the flags of the same samples, read in chunks of whole entries. */
  method ReadSeparateInvalid(sd: Reader, stride: nat, bitPos: nat, from: nat, count: nat, ghost content: Bytes)
    returns (invalid: Bitset, ok: bool)
    requires V.Backed(sd, content) && stride > 0
    modifies sd.cache
    ensures V.Backed(sd, content) && invalid.Valid() && fresh(invalid)
    ensures ok <==> count == 0 || from + count <= Held(content, stride)
    ensures ok && count > 0 ==>
              invalid.flags == if bitPos / 8 < stride then EntryFlags(Window(content, stride, from, count), bitPos)
                  else []
    ensures ok && count == 0 ==> invalid.flags == []
  {
    hide SectionHolds, Window, EntryFlags, V.Backed, Held;
    invalid := new Bitset();
    Whole(0x4_0000, stride);
    var chunk := 0x4_0000 / stride + 1;
    var done: nat := 0;
    NoFlagsYet(content, stride, from, bitPos);
    while done < count
      invariant done <= count && V.Backed(sd, content) && invalid.Valid() && fresh(invalid)
      invariant done > 0 ==> from + done <= Held(content, stride)
      invariant done == 0 ==> invalid.flags == []
      invariant from + done <= Held(content, stride) ==>
                  invalid.flags == if bitPos / 8 < stride then EntryFlags(Window(content, stride, from, done), bitPos)
                      else []
      decreases count - done
    {
      var n := if done + chunk > count then count - done else chunk;
      var piece := ReadWindow(sd, stride, from + done, n, content);
      if piece.Err? {
        return invalid, false;
      }
      ExtractInvalidBits(invalid, piece.value, stride, n, bitPos);
      WindowGrows(content, stride, from, done, n);
      FlagsJoin(Window(content, stride, from, done), Window(content, stride, from + done, n), bitPos);
      done := done + n;
    }
    ok := true;
  }

  lemma NoFlagsYet(content: Bytes, stride: nat, from: nat, bitPos: nat)
    requires stride > 0
    ensures from <= Held(content, stride) ==> EntryFlags(Window(content, stride, from, 0), bitPos) == []
  {
  }

  lemma FlagsJoin(a: seq<Bytes>, b: seq<Bytes>, bitPos: nat)
    ensures EntryFlags(a + b, bitPos) == EntryFlags(a, bitPos) + EntryFlags(b, bitPos)
  {
  }

  /** A sample whose invalidation bytes are all zero is valid, whatever bit its channel uses. */
  lemma ZeroIsValid(entry: Bytes, bitPos: nat)
    requires forall i :: 0 <= i < |entry| ==> entry[i] == 0
    ensures !EntryFlag(entry, bitPos)
  {
    ModUnique(0, Pow2(bitPos % 8), 0, 0);
  }

  /** Sample by sample: what column storage reads under an omitted invalidation block is valid. */
  lemma OmittedIsValid(f: Bytes, z: Zlib, s: C.Streams, counts: seq<nat>, recSize: nat, invalSize: nat, content: Bytes,
                       i: nat, sample: nat, bitPos: nat)
    requires C.Columnar(s, counts, recSize, invalSize) && recSize > 0 && invalSize > 0 && i < |counts|
    requires s.inval.value[i] == C.Omitted(C.Span(C.Start(counts, i), invalSize))
    requires C.Start(counts, i) <= sample < C.Start(counts, i + 1)
    requires C.Finished(s, recSize, invalSize).inval.Some?
    requires SectionHolds(f, z, C.Finished(s, recSize, invalSize).inval.value, content)
    ensures sample < Held(content, invalSize) && !EntryFlag(AllRecords(content, invalSize)[sample], bitPos)
  {
    hide C.Columnar, C.Finished, C.Start, ByteAt, SizeOf, Disjoint, EntryFlag;
    var first := C.Start(counts, i);
    MulOrder(first, sample, invalSize);
    MulOrder(sample + 1, C.Start(counts, i + 1), invalSize);
    Distributes(sample, 1, invalSize);
    ReadsInside(f, z, s, counts, recSize, invalSize, content, i);
    PieceSize(invalSize, sample, 1, |content|);
    var entry := AllRecords(content, invalSize)[sample];
    forall b | 0 <= b < invalSize
      ensures entry[b] == 0
    {
      C.OmittedReadsZero(f, z, s, counts, recSize, invalSize, i, sample * invalSize + b);
      assert entry[b] == content[sample * invalSize + b];
    }
    ZeroIsValid(entry, bitPos);
  }

  lemma ReadsInside(f: Bytes, z: Zlib, s: C.Streams, counts: seq<nat>, recSize: nat, invalSize: nat, content: Bytes,
                    i: nat)
    requires C.Columnar(s, counts, recSize, invalSize) && recSize > 0 && invalSize > 0 && i < |counts|
    requires C.Finished(s, recSize, invalSize).inval.Some?
    requires SectionHolds(f, z, C.Finished(s, recSize, invalSize).inval.value, content)
    ensures C.Span(C.Start(counts, i + 1), invalSize) <= |content|
  {
    hide C.Columnar, C.Finished, C.Start, C.Span, ByteAt, SizeOf, Disjoint;
    C.StreamsAligned(s, counts, recSize, invalSize);
    C.StartsGrow(counts, i + 1, |counts|, invalSize);
  }

  /** The given number of samples, or as many as fit in 2^20 bytes, but at least one. */
  method ChunkSize(chunkSamples: int, recSize: nat) returns (n: nat)
    requires recSize > 0
    ensures n > 0
  {
    if chunkSamples > 0 {
      return chunkSamples;
    }
    Whole(0x10_0000, recSize);
    n := 0x10_0000 / recSize;
    if n < 1 {
      n := 1;
    }
  }
}
