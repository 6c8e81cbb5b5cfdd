/** Variable-length values: the offsets stored in records, and their resolution in the signal data. */
module Vlsd {
  import opened Wire
  import opened Zip
  import opened Sections
  import opened WriterSpec
  import opened Runs
  import opened Tree
  import opened SectionReader

  // ---- resolution ----

  /** The value at a stored offset: 4 bytes of length, then the payload, all inside the section. The offset is an
      unsigned 64-bit value used as a signed one. */
  function ResolveOne(content: Bytes, off: nat): Result<Bytes> {
    var o := AsInt64(off);
    if o < 0 || o + 4 > |content| then Err(OutOfBounds)
    else
      var n := FromLE(content[o..o + 4]);
      if o + 4 + n > |content| then Err(OutOfBounds) else Ok(content[o + 4..o + 4 + n])
  }

  function ResolveAll(content: Bytes, offsets: seq<nat>): Result<seq<Bytes>> {
    if offsets == [] then Ok([])
    else
      var init :- ResolveAll(content, offsets[..|offsets| - 1]);
      var last :- ResolveOne(content, offsets[|offsets| - 1]);
      Ok(init + [last])
  }

  /** signalDataReader and resolveVLSD: a channel without signal data link cannot be read. */
  function ResolveColumn(link: int, content: Bytes, offsets: seq<nat>): Result<seq<Bytes>> {
    if link == 0 then Err(NoSignalData) else ResolveAll(content, offsets)
  }

  // ---- what the writer stored ----

  function Offsets(rows: seq<Row>, ci: nat): (r: seq<nat>)
    ensures |r| == |rows|
  {
    seq(|rows|, i requires 0 <= i < |rows| => |TextStream(rows[..i], ci)|)
  }

  function Texts(rows: seq<Row>, ci: nat): (r: seq<Bytes>)
    ensures |r| == |rows|
  {
    seq(|rows|, i requires 0 <= i < |rows| => Text(rows[i], ci))
  }

  /** Bytes that earlier rows take: 4 for each length and the payloads. */
  function EarlierBytes(rows: seq<Row>, ci: nat): nat {
    if rows == [] then 0 else EarlierBytes(rows[..|rows| - 1], ci) + 4 + |Text(rows[|rows| - 1], ci)|
  }

  lemma {:induction false} OffsetIsEarlierBytes(rows: seq<Row>, ci: nat)
    ensures |TextStream(rows, ci)| == EarlierBytes(rows, ci)
  {
    hide LE;
    if rows != [] {
      OffsetIsEarlierBytes(rows[..|rows| - 1], ci);
    }
  }

  lemma {:induction false} PrefixStream(rows: seq<Row>, ci: nat, i: nat)
    requires i <= |rows|
    ensures TextStream(rows[..i], ci) <= TextStream(rows, ci)
    ensures i < |rows| ==> TextStream(rows[..i], ci) + Entry(Text(rows[i], ci)) <= TextStream(rows, ci)
    decreases |rows|
  {
    hide Entry;
    if i < |rows| {
      var init := rows[..|rows| - 1];
      assert init[..i] == rows[..i];
      if i < |init| {
        PrefixStream(init, ci, i);
      } else {
        assert rows[..i] == init;
      }
    } else {
      assert rows[..i] == rows;
    }
  }

  /** Resolving the offset of row i returns the text of row i. */
  lemma EntryResolves(rows: seq<Row>, ci: nat, i: nat)
    requires i < |rows| && |TextStream(rows, ci)| < TWO_63 && |Text(rows[i], ci)| < TWO_32
    ensures ResolveOne(TextStream(rows, ci), |TextStream(rows[..i], ci)|) == Ok(Text(rows[i], ci))
  {
    hide LE, FromLE, TextStream;
    PrefixStream(rows, ci, i);
    var all, before, text := TextStream(rows, ci), TextStream(rows[..i], ci), Text(rows[i], ci);
    LE4(|text|);
    var o := |before|;
    assert all[..o + 4 + |text|] == before + LE(|text|, 4) + text;
    assert all[o..o + 4] == (before + LE(|text|, 4) + text)[o..o + 4] == LE(|text|, 4);
    assert all[o + 4..o + 4 + |text|] == (before + LE(|text|, 4) + text)[o + 4..o + 4 + |text|] == text;
  }

  /** All offsets resolve to the original values, in order. */
  lemma {:induction false} ColumnResolves(rows: seq<Row>, ci: nat, n: nat)
    requires n <= |rows| && |TextStream(rows, ci)| < TWO_63
    requires forall i :: 0 <= i < |rows| ==> |Text(rows[i], ci)| < TWO_32
    ensures ResolveAll(TextStream(rows, ci), Offsets(rows, ci)[..n]) == Ok(Texts(rows, ci)[..n])
  {
    hide TextStream, ResolveOne;
    if n > 0 {
      ColumnResolves(rows, ci, n - 1);
      EntryResolves(rows, ci, n - 1);
      assert Offsets(rows, ci)[..n][..n - 1] == Offsets(rows, ci)[..n - 1];
      assert Texts(rows, ci)[..n] == Texts(rows, ci)[..n - 1] + [Text(rows[n - 1], ci)];
    }
  }

  /** A string column reads back exactly when it has a row: without rows the channel keeps a NIL link, which the
      reader refuses. */
  lemma StringColumn(link: int, rows: seq<Row>, ci: nat)
    requires link == 0 <==> rows == []
    requires |TextStream(rows, ci)| < TWO_63 && forall i :: 0 <= i < |rows| ==> |Text(rows[i], ci)| < TWO_32
    ensures ResolveColumn(link, TextStream(rows, ci), Offsets(rows, ci)) == Ok(Texts(rows, ci)) <==> rows != []
  {
    ColumnResolves(rows, ci, |rows|);
    assert Offsets(rows, ci)[..|rows|] == Offsets(rows, ci);
    assert Texts(rows, ci)[..|rows|] == Texts(rows, ci);
  }

  // ---- the offset in the record ----

  ghost predicate FieldsApart(chans: seq<Chan>) {
    forall i, j :: 0 <= i < j < |chans| && chans[i].def.vlsd ==>
      chans[i].def.field.byteOffset + 8 <= chans[j].def.field.byteOffset
  }

  /** The field of string channel ci in the stored record is the offset of its text; stamping later channels does
      not disturb it. */
  lemma {:induction false} OffsetStored(chans: seq<Chan>, before: seq<Row>, row: Row, ci: nat, n: nat)
    requires ci < n <= |chans| && chans[ci].def.vlsd
    requires FieldsApart(chans) && FieldsInside(chans, |row.rec|)
    ensures |Stamped(chans, before, row, n)| == |row.rec|
    ensures At(Stamped(chans, before, row, n), chans[ci].def.field.byteOffset, LE(|TextStream(before, ci)|, 8))
    decreases n
  {
    hide LE, TextStream;
    StampedLength(chans, before, row, n);
    StampedLength(chans, before, row, n - 1);
    var prev := Stamped(chans, before, row, n - 1);
    var off := chans[ci].def.field.byteOffset;
    if n - 1 == ci {
      WriteAtInside(prev, off, LE(|TextStream(before, ci)|, 8));
    } else {
      OffsetStored(chans, before, row, ci, n - 1);
      var c := chans[n - 1];
      if c.def.vlsd {
        AtFrame(prev, off, LE(|TextStream(before, ci)|, 8), c.def.field.byteOffset, LE(|TextStream(before, n - 1)|, 8));
      }
    }
  }

  /** Bytes outside the string fields are the caller's. */
  lemma {:induction false} OthersUntouched(chans: seq<Chan>, before: seq<Row>, row: Row, n: nat, a: nat, x: Bytes)
    requires n <= |chans| && FieldsInside(chans, |row.rec|) && At(row.rec, a, x)
    requires forall i :: 0 <= i < |chans| && chans[i].def.vlsd ==>
               chans[i].def.field.byteOffset + 8 <= a || a + |x| <= chans[i].def.field.byteOffset
    ensures At(Stamped(chans, before, row, n), a, x)
  {
    hide LE, TextStream;
    if n > 0 {
      OthersUntouched(chans, before, row, n - 1, a, x);
      StampedLength(chans, before, row, n - 1);
      var c := chans[n - 1];
      if c.def.vlsd {
        AtFrame(Stamped(chans, before, row, n - 1), a, x, c.def.field.byteOffset, LE(|TextStream(before, n - 1)|, 8));
      }
    }
  }

  // ---- the reader's loop ----

  lemma ReadOfSection(f: Bytes, z: Zlib, segs: seq<Segment>, content: Bytes, before: Bytes, after: Bytes,
                      off: int, n: nat, failed: bool)
    requires SectionHolds(f, z, segs, content) && ReadOutcome(f, z, segs, before, after, off, n, failed)
    ensures failed <==> off < 0 || off + |before| > |content| || off > |content|
    ensures !failed ==> after == content[off..off + |before|]
  {
    hide StopsAt;
    if 0 <= off <= |content| {
      StopMeans(f, z, segs, off, |before|, n);
      forall q | off <= q < off + |before| && q < |content|
        ensures ByteAt(f, z, segs, q) != None
      {
        var k: nat := q;
        assert ByteAt(f, z, segs, k) == Some(content[k]);
      }
      if !failed {
        forall k | 0 <= k < |before|
          ensures after[k] == content[off + k]
        {
          assert ByteAt(f, z, segs, off + k) == Some(after[k]);
          var q: nat := off + k;
          assert ByteAt(f, z, segs, q) == Some(content[q]);
        }
      }
    }
  }

  lemma Int64Range(v: nat)
    ensures 0 <= AsInt64(v) + TWO_63 < TWO_64
  {
  }

  /** Signed 64-bit addition. */
  lemma Int64Wraps(x: int)
    requires 0 <= x + TWO_63 && x < TWO_64
    ensures AsInt64(x % TWO_64) == if x < TWO_63 then x else x - TWO_64
  {
    if x < 0 {
      ModUnique(x, TWO_64, -1, x + TWO_64);
    } else {
      ModUnique(x, TWO_64, 0, x);
    }
  }

  /** A section that can be read completely. */
  ghost predicate Backed(sd: Reader, content: Bytes)
    reads sd, sd.cache
  {
    sd.Valid() && sd.size == |content| && SectionHolds(sd.src, sd.z, sd.segs, content)
  }

  /** n bytes of the section at o, which may lie outside it. */
  method ReadPiece(sd: Reader, o: int, n: nat, ghost content: Bytes) returns (r: Result<Bytes>)
    requires sd.Valid() && SectionHolds(sd.src, sd.z, sd.segs, content)
    modifies sd.cache
    ensures sd.Valid()
    ensures r.Ok? <==> 0 <= o <= |content| && o + n <= |content|
    ensures r.Ok? ==> r.value == content[o..o + n]
  {
    hide SectionHolds, ReadOutcome, SizeOf, Disjoint;
    SectionFacts(sd.src, sd.z, sd.segs, content);
    var p := new Byte[n](_ => 0);
    ghost var was := p[..];
    var k, err := sd.ReadAt(p, o);
    ReadOfSection(sd.src, sd.z, sd.segs, content, was, p[..], o, k, err.Some?);
    r := if err.Some? then Err(err.value) else Ok(p[..]);
  }

  /** One value, read in two steps through the section reader. */
  method ReadValue(sd: Reader, off: nat, ghost content: Bytes) returns (r: Result<Bytes>)
    requires sd.Valid() && SectionHolds(sd.src, sd.z, sd.segs, content) && off < TWO_64 && |content| < TWO_63
    modifies sd.cache
    ensures sd.Valid()
    ensures r == ResolveOne(content, off) || (r.Err? && ResolveOne(content, off).Err?)
  {
    hide FromLE, SectionHolds, AsInt64, SizeOf, Disjoint;
    SectionFacts(sd.src, sd.z, sd.segs, content);
    var size := sd.size;
    var o := AsInt64(off);
    Int64Range(off);
    Int64Wraps(o + 4);
    if AsInt64((o + 4) % TWO_64) > size {
      return Err(OutOfBounds);
    }
    var lenBuf := ReadPiece(sd, o, 4, content);
    if lenBuf.Err? {
      return lenBuf;
    }
    var len := FromLE(lenBuf.value);
    FromLEBound(lenBuf.value);
    Pow256Widths();
    Int64Wraps(o + 4 + len);
    if AsInt64((o + 4 + len) % TWO_64) > size {
      return Err(OutOfBounds);
    }
    if len == 0 {
      assert content[o + 4..o + 4 + len] == [];
      return Ok([]);
    }
    r := ReadPiece(sd, o + 4, len, content);
  }

  lemma SectionFacts(f: Bytes, z: Zlib, segs: seq<Segment>, content: Bytes)
    requires SectionHolds(f, z, segs, content)
    ensures Disjoint(segs) && SizeOf(segs) == |content|
  {
  }

  /** resolveVLSD: value after value, stopping at the first that cannot be read. */
  method ResolveVLSD(sd: Reader, offsets: seq<nat>, ghost content: Bytes) returns (r: Result<seq<Bytes>>)
    requires sd.Valid() && SectionHolds(sd.src, sd.z, sd.segs, content) && |content| < TWO_63
    requires forall i :: 0 <= i < |offsets| ==> offsets[i] < TWO_64
    modifies sd.cache
    ensures sd.Valid()
    ensures r == ResolveAll(content, offsets) || (r.Err? && ResolveAll(content, offsets).Err?)
  {
    hide ResolveOne, SectionHolds;
    var out: seq<Bytes> := [];
    for i := 0 to |offsets|
      invariant sd.Valid()
      invariant ResolveAll(content, offsets[..i]) == Ok(out)
    {
      assert offsets[..i + 1][..i] == offsets[..i];
      var v := ReadValue(sd, offsets[i], content);
      if v.Err? {
        ResolveFails(content, offsets, i + 1);
        return Err(v.error);
      }
      out := out + [v.value];
    }
    assert offsets[..|offsets|] == offsets;
    r := Ok(out);
  }

  lemma {:induction false} ResolveFails(content: Bytes, offsets: seq<nat>, i: nat)
    requires i <= |offsets| && ResolveAll(content, offsets[..i]).Err?
    ensures ResolveAll(content, offsets).Err?
    decreases |offsets|
  {
    hide ResolveOne;
    if i < |offsets| {
      var init := offsets[..|offsets| - 1];
      assert init[..i] == offsets[..i];
      ResolveFails(content, init, i);
    } else {
      assert offsets[..i] == offsets;
    }
  }
}
