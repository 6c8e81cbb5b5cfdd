/** Unsorted data groups: one section of tagged records, split into one stream per record ID. */
module Deinterleave {
  import opened Wire
  import opened Zip
  import opened Sections
  import opened Tree
  import opened SectionReader
  import V = Vlsd

  /** How the records of one ID are laid out. */
  datatype Kind = Fixed(size: nat) | Vlsd

  datatype Tagged = Tagged(id: nat, body: Bytes)

  datatype GroupInfo = GroupInfo(id: nat, kind: Kind)

  /** IDs of the channel groups, a later group replacing an earlier one, and derived IDs where no group has them. */
  function Kinds(groups: seq<GroupInfo>, derived: map<nat, nat>): map<nat, Kind> {
    if groups == [] then map id | id in derived :: Fixed(derived[id])
    else
      var last := groups[|groups| - 1];
      Kinds(groups[..|groups| - 1], derived)[last.id := last.kind]
  }

  predicate IdSize(n: nat) { n == 1 || n == 2 || n == 4 || n == 8 }

  // ---- the section as a sequence of records ----

  /** Length of the record body at the start of s, when it is complete. */
  function BodyLength(kind: Kind, s: Bytes): (r: Option<nat>)
    ensures r.Some? ==> r.value <= |s|
  {
    match kind
    case Fixed(n) => if n <= |s| then Some(n) else None
    case Vlsd =>
      if |s| < 4 then None
      else
        var n := FromLE(s[..4]);
        if 4 + n <= |s| then Some(4 + n) else None
  }

  /** The whole section as records; nothing may be left over. */
  function Records(s: Bytes, idSize: nat, kinds: map<nat, Kind>): Result<seq<Tagged>>
    requires idSize > 0
    decreases |s|
  {
    if s == [] then Ok([])
    else if |s| < idSize then Err(BadRecord)
    else
      var id, rest := FromLE(s[..idSize]), s[idSize..];
      if id !in kinds then Err(BadRecord)
      else
        var n := BodyLength(kinds[id], rest);
        if n.None? then Err(BadRecord)
        else
          var more :- Records(rest[n.value..], idSize, kinds);
          Ok([Tagged(id, rest[..n.value])] + more)
  }

  /** The stream of one ID: the bodies of its records in order. */
  function StreamOf(records: seq<Tagged>, id: nat): Bytes {
    if records == [] then []
    else
      var init, last := records[..|records| - 1], records[|records| - 1];
      if last.id == id then StreamOf(init, id) + last.body else StreamOf(init, id)
  }

  // ---- the other direction: writing tagged records ----

  function Encode(records: seq<Tagged>, idSize: nat): Bytes {
    if records == [] then [] else LE(records[0].id, idSize) + records[0].body + Encode(records[1..], idSize)
  }

  ghost predicate WellTagged(t: Tagged, idSize: nat, kinds: map<nat, Kind>) {
    && t.id < Pow256(idSize) && t.id in kinds
    && (match kinds[t.id]
        case Fixed(n) => |t.body| == n
        case Vlsd => |t.body| >= 4 && FromLE(t.body[..4]) == |t.body| - 4)
  }

  lemma BodyComplete(kind: Kind, body: Bytes, rest: Bytes)
    requires match kind
             case Fixed(n) => |body| == n
             case Vlsd => |body| >= 4 && FromLE(body[..4]) == |body| - 4
    ensures BodyLength(kind, body + rest) == Some(|body|)
  {
    hide FromLE;
    if kind.Vlsd? {
      assert (body + rest)[..4] == body[..4];
    }
  }

  /** Any sequence of well-tagged records is read back from its encoding. */
  lemma {:induction false} EncodeRead(records: seq<Tagged>, idSize: nat, kinds: map<nat, Kind>)
    requires idSize > 0 && forall i :: 0 <= i < |records| ==> WellTagged(records[i], idSize, kinds)
    ensures Records(Encode(records, idSize), idSize, kinds) == Ok(records)
  {
    hide LE, WellTagged;
    if records != [] {
      hide Records;
      var t, tail := records[0], records[1..];
      EncodeRead(tail, idSize, kinds);
      OneRecordFirst(t, Encode(tail, idSize), idSize, kinds);
      assert records == [t] + tail;
    }
  }

  /** A well-tagged record in front of anything is read first. */
  lemma OneRecordFirst(t: Tagged, rest: Bytes, idSize: nat, kinds: map<nat, Kind>)
    requires idSize > 0 && WellTagged(t, idSize, kinds)
    ensures Records(LE(t.id, idSize) + t.body + rest, idSize, kinds) == Prepend([t], Records(rest, idSize, kinds))
  {
    hide LE, FromLE, BodyLength;
    var s, behind := LE(t.id, idSize) + t.body + rest, t.body + rest;
    LEFits(t.id, idSize);
    assert s[..idSize] == LE(t.id, idSize) && s[idSize..] == behind;
    BodyComplete(kinds[t.id], t.body, rest);
    assert behind[..|t.body|] == t.body && behind[|t.body|..] == rest;
  }

  /** What is read is well tagged, and its encoding is the section. */
  lemma {:induction false} ReadEncodes(s: Bytes, idSize: nat, kinds: map<nat, Kind>)
    requires idSize > 0 && Records(s, idSize, kinds).Ok?
    ensures var records := Records(s, idSize, kinds).value;
            && Encode(records, idSize) == s
            && forall i :: 0 <= i < |records| ==> WellTagged(records[i], idSize, kinds)
    decreases |s|
  {
    hide LE, FromLE, BodyLength, Encode, WellTagged;
    if s == [] {
      assert Encode([], idSize) == [] by { NothingEncoded(idSize); }
    } else {
      var id, rest := FromLE(s[..idSize]), s[idSize..];
      var n := BodyLength(kinds[id], rest).value;
      ReadEncodes(rest[n..], idSize, kinds);
      var more := Records(rest[n..], idSize, kinds).value;
      LEOfFromLE(s[..idSize]);
      FromLEBound(s[..idSize]);
      assert s == s[..idSize] + rest[..n] + rest[n..];
      EncodeCons(Tagged(id, rest[..n]), more, idSize);
      BodyWhole(kinds[id], rest);
      TaggedWell(Tagged(id, rest[..n]), idSize, kinds);
    }
  }

  lemma NothingEncoded(idSize: nat)
    ensures Encode([], idSize) == []
  {
  }

  lemma EncodeCons(t: Tagged, more: seq<Tagged>, idSize: nat)
    ensures Encode([t] + more, idSize) == LE(t.id, idSize) + t.body + Encode(more, idSize)
  {
    hide LE;
    assert ([t] + more)[1..] == more;
  }

  lemma TaggedWell(t: Tagged, idSize: nat, kinds: map<nat, Kind>)
    requires t.id < Pow256(idSize) && t.id in kinds
    requires match kinds[t.id]
             case Fixed(n) => |t.body| == n
             case Vlsd => |t.body| >= 4 && FromLE(t.body[..4]) == |t.body| - 4
    ensures WellTagged(t, idSize, kinds)
  {
  }

  lemma BodyWhole(kind: Kind, s: Bytes)
    requires BodyLength(kind, s).Some?
    ensures var body := s[..BodyLength(kind, s).value];
            match kind
            case Fixed(n) => |body| == n
            case Vlsd => |body| >= 4 && FromLE(body[..4]) == |body| - 4
  {
    hide FromLE;
    if kind.Vlsd? {
      assert s[..BodyLength(kind, s).value][..4] == s[..4];
    }
  }

  /** The pass can succeed exactly on the encodings of well-tagged records, and then yields those records. */
  lemma ParsesIffEncoded(s: Bytes, idSize: nat, kinds: map<nat, Kind>, records: seq<Tagged>)
    requires idSize > 0
    ensures Records(s, idSize, kinds) == Ok(records)
            <==> s == Encode(records, idSize) && forall i :: 0 <= i < |records| ==>
                WellTagged(records[i], idSize, kinds)
  {
    hide Records, Encode, WellTagged;
    if Records(s, idSize, kinds) == Ok(records) {
      ReadEncodes(s, idSize, kinds);
    }
    if s == Encode(records, idSize) && forall i :: 0 <= i < |records| ==> WellTagged(records[i], idSize, kinds) {
      EncodeRead(records, idSize, kinds);
    }
  }

  // ---- the partition ----

  function Total(records: seq<Tagged>, ids: seq<nat>): nat {
    if ids == [] then 0 else |StreamOf(records, ids[0])| + Total(records, ids[1..])
  }

  lemma {:induction false} TotalSnoc(records: seq<Tagged>, t: Tagged, ids: seq<nat>)
    requires forall i, j :: 0 <= i < j < |ids| ==> ids[i] != ids[j]
    ensures Total(records + [t], ids) == Total(records, ids) + if t.id in ids then |t.body| else 0
  {
    if ids != [] {
      TotalSnoc(records, t, ids[1..]);
      assert (records + [t])[..|records|] == records;
      assert ids == [ids[0]] + ids[1..];
    }
  }

  function BodiesLength(records: seq<Tagged>): nat {
    if records == [] then 0 else BodiesLength(records[..|records| - 1]) + |records[|records| - 1].body|
  }

  lemma {:induction false} TotalIsBodies(records: seq<Tagged>, ids: seq<nat>)
    requires forall i, j :: 0 <= i < j < |ids| ==> ids[i] != ids[j]
    requires forall i :: 0 <= i < |records| ==> records[i].id in ids
    ensures Total(records, ids) == BodiesLength(records)
  {
    if records == [] {
      NothingTotal(ids);
    } else {
      var init, last := records[..|records| - 1], records[|records| - 1];
      TotalIsBodies(init, ids);
      TotalSnoc(init, last, ids);
      assert records == init + [last];
    }
  }

  lemma {:induction false} NothingTotal(ids: seq<nat>)
    ensures Total([], ids) == 0
  {
    if ids != [] {
      NothingTotal(ids[1..]);
    }
  }

  lemma OneMore(k: nat, n: nat)
    requires n > 0
    ensures k * n == k * (n - 1) + k
  {
  }

  lemma {:induction false} EncodedLength(records: seq<Tagged>, idSize: nat)
    ensures |Encode(records, idSize)| == idSize * |records| + BodiesLength(records)
  {
    if records == [] {
      assert idSize * 0 == 0;
    } else {
      hide BodiesLength;
      EncodedLength(records[1..], idSize);
      BodiesCons(records);
      OneMore(idSize, |records|);
    }
  }

  lemma {:induction false} BodiesCons(records: seq<Tagged>)
    requires records != []
    ensures BodiesLength(records) == |records[0].body| + BodiesLength(records[1..])
  {
    if |records| > 1 {
      var init := records[..|records| - 1];
      BodiesCons(init);
      assert records[1..][..|records| - 2] == init[1..];
    }
  }

  /** No byte is lost or duplicated: the streams and the IDs make up the section. */
  lemma StreamsConserve(s: Bytes, idSize: nat, kinds: map<nat, Kind>, ids: seq<nat>)
    requires idSize > 0 && Records(s, idSize, kinds).Ok?
    requires forall i, j :: 0 <= i < j < |ids| ==> ids[i] != ids[j]
    requires forall id :: id in kinds ==> id in ids
    ensures var records := Records(s, idSize, kinds).value;
            Total(records, ids) + idSize * |records| == |s|
  {
    hide Records;
    var records := Records(s, idSize, kinds).value;
    ReadEncodes(s, idSize, kinds);
    EncodedLength(records, idSize);
    forall i | 0 <= i < |records|
      ensures records[i].id in ids
    {
      assert WellTagged(records[i], idSize, kinds);
    }
    TotalIsBodies(records, ids);
  }

  /** Stability: records of one ID keep their order, whatever stands between them. */
  lemma {:induction false} StreamOfAppend(a: seq<Tagged>, b: seq<Tagged>, id: nat)
    ensures StreamOf(a + b, id) == StreamOf(a, id) + StreamOf(b, id)
  {
    if b == [] {
      assert a + b == a;
    } else {
      var init, last := b[..|b| - 1], b[|b| - 1];
      StreamOfAppend(a, init, id);
      assert (a + b)[..|a + b| - 1] == a + init && (a + b)[|a + b| - 1] == last;
    }
  }

  lemma Around(records: seq<Tagged>, i: nat)
    requires i < |records|
    ensures records == records[..i] + [records[i]] + records[i + 1..]
  {
  }

  lemma StreamAround(records: seq<Tagged>, i: nat)
    requires i < |records|
    ensures var id := records[i].id;
            StreamOf(records, id) == StreamOf(records[..i], id) + records[i].body + StreamOf(records[i + 1..], id)
  {
    hide StreamOf;
    var t, before, after := records[i], records[..i], records[i + 1..];
    StreamSnoc(before, t, t.id);
    StreamOfAppend(before + [t], after, t.id);
    Around(records, i);
  }

  lemma ValueInside(before: Bytes, body: Bytes, after: Bytes)
    requires |body| >= 4 && FromLE(body[..4]) == |body| - 4 && |before| < TWO_63
    ensures V.ResolveOne(before + body + after, |before|) == Ok(body[4..])
  {
    hide FromLE;
    var all, o := before + body + after, |before|;
    assert all[o..o + 4] == body[..4];
    assert all[o + 4..o + |body|] == body[4..];
  }

  /** The stream of a VLSD ID is signal data: the value of its i-th record is found at the length of the stream
      before. */
  lemma ValueAtOffset(records: seq<Tagged>, idSize: nat, kinds: map<nat, Kind>, i: nat)
    requires i < |records| && WellTagged(records[i], idSize, kinds) && kinds[records[i].id].Vlsd?
    requires |StreamOf(records, records[i].id)| < TWO_63
    ensures var id := records[i].id;
            |records[i].body| >= 4
            && V.ResolveOne(StreamOf(records, id), |StreamOf(records[..i], id)|) == Ok(records[i].body[4..])
  {
    hide FromLE, StreamOf, V.ResolveOne;
    StreamAround(records, i);
    ValueInside(StreamOf(records[..i], records[i].id), records[i].body, StreamOf(records[i + 1..], records[i].id));
  }

  // ---- the sequential reader ----

  lemma PartialRead(f: Bytes, z: Zlib, segs: seq<Segment>, content: Bytes, before: Bytes, after: Bytes,
                    off: nat, n: nat, failed: bool)
    requires SectionHolds(f, z, segs, content) && ReadOutcome(f, z, segs, before, after, off, n, failed)
    requires off <= |content|
    ensures n == if off + |before| <= |content| then |before| else |content| - off
    ensures |after| == |before| && after[..n] == content[off..off + n]
  {
    hide StopsAt;
    StopMeans(f, z, segs, off, |before|, n);
    forall q | off <= q < |content|
      ensures ByteAt(f, z, segs, q) == Some(content[q])
    {
      var k: nat := q;
      assert ByteAt(f, z, segs, k) == Some(content[k]);
    }
    forall k | 0 <= k < n
      ensures after[k] == content[off + k]
    {
      assert ByteAt(f, z, segs, off + k) == Some(after[k]);
    }
  }

  lemma Facts(f: Bytes, z: Zlib, segs: seq<Segment>, content: Bytes)
    requires SectionHolds(f, z, segs, content)
    ensures Disjoint(segs) && SizeOf(segs) == |content|
  {
  }

  lemma SizeIs(sd: Reader, content: Bytes)
    requires V.Backed(sd, content)
    ensures sd.size == |content|
  {
  }

  /** One read of the section at off: the buffer is filled unless the section ends before. */
  method ReadSome(sd: Reader, p: array<Byte>, off: nat, ghost content: Bytes) returns (k: nat)
    requires V.Backed(sd, content) && off <= |content|
    modifies p, sd.cache
    ensures V.Backed(sd, content)
    ensures k == if off + p.Length <= |content| then p.Length else |content| - off
    ensures p[..k] == content[off..off + k]
  {
    hide SectionHolds, ReadOutcome, FromFile, Disjoint;
    ghost var was := p[..];
    Facts(sd.src, sd.z, sd.segs, content);
    var err;
    k, err := sd.ReadAt(p, off);
    PartialRead(sd.src, sd.z, sd.segs, content, was, p[..], off, k, err.Some?);
    assert p[..k] == p[..][..k];
  }

  method Copy(p: array<Byte>, at: nat, src: array<Byte>, from: nat, n: nat)
    requires at + n <= p.Length && from + n <= src.Length && p != src
    modifies p
    ensures p[..] == old(p[..at]) + src[from..from + n] + old(p[at + n..])
  {
    for i := 0 to n
      invariant p[..at] == old(p[..at]) && p[at..at + i] == src[from..from + i] && p[at + i..] == old(p[at + i..])
    {
      p[at + i] := src[from + i];
    }
    assert p[..] == p[..at] + p[at..at + n] + p[at + n..];
  }

  /** k more bytes of the content behind the n that stand at the front of p. */
  lemma Extended(had: Bytes, now: Bytes, content: Bytes, from: nat, n: nat, k: nat)
    requires |now| == |had| && n + k <= |had| && from + n + k <= |content|
    requires had[..n] == content[from..from + n]
    requires now == had[..n] + content[from + n..from + n + k] + had[n + k..]
    ensures now[..n + k] == content[from..from + n + k]
  {
    assert now[..n + k] == had[..n] + content[from + n..from + n + k];
  }

  /** Reads a section front to back through one buffer. It must not be used again after a failed read: the buffer's
      bounds have been widened by then. */
  class BufferedReader {
    const sd: Reader
    const buf: array<Byte>
    ghost const content: Bytes
    /** Next byte to fetch from the section, bytes of the buffer in use, and bytes of those already delivered. */
    var off: nat
    var filled: nat
    var pos: nat

    ghost predicate Valid()
      reads this, buf, sd, sd.cache
    {
      && V.Backed(sd, content) && buf.Length > 0
      && pos <= filled <= buf.Length && filled <= off <= |content|
      && buf[..filled] == content[off - filled..off]
    }

    /** Bytes delivered so far. */
    ghost function Cursor(): int
      reads this
    {
      off - filled + pos
    }

    constructor (sd: Reader, capacity: nat, ghost content: Bytes)
      requires capacity > 0 && V.Backed(sd, content)
      ensures Valid() && Cursor() == 0 && this.content == content && this.sd == sd && fresh(buf)
    {
      hide V.Backed;
      this.sd, this.content := sd, content;
      buf := new Byte[capacity](_ => 0);
      off, filled, pos := 0, 0, 0;
    }

    /** The next piece of the section, as much as the buffer holds. At the end the buffer's bounds stay widened. */
    method Refill() returns (ok: bool)
      requires Valid() && pos == filled
      modifies this`off, this`filled, this`pos, buf, sd.cache
      ensures V.Backed(sd, content)
      ensures ok <==> old(Cursor()) < |content|
      ensures ok ==> Valid() && pos < filled && Cursor() == old(Cursor())
    {
      hide V.Backed;
      SizeIs(sd, content);
      if off >= sd.size {
        filled := buf.Length;
        return false;
      }
      var k := ReadSome(sd, buf, off, content);
      off, filled, pos := off + k, k, 0;
      ok := true;
    }

    /** The next bytes of the buffer are the next bytes of the section. */
    lemma HeldIs(n: nat)
      requires Valid() && n <= filled - pos
      ensures 0 <= Cursor() && Cursor() + n <= |content| && buf[pos..pos + n] == content[Cursor()..Cursor() + n]
    {
      hide V.Backed;
      SubSlice(buf[..], 0, filled, pos, pos + n);
      SubSlice(content, off - filled, off, pos, pos + n);
    }

    lemma CursorInside()
      requires Valid()
      ensures 0 <= Cursor() <= |content|
    {
      hide V.Backed;
    }

    /** Hands out the next n bytes of the buffer. */
    method Deliver(p: array<Byte>, at: nat, n: nat)
      requires Valid() && n <= filled - pos && at + n <= p.Length && p != buf
      modifies this`pos, p
      ensures Valid() && Cursor() == old(Cursor()) + n && 0 <= old(Cursor())
      ensures p[..] == old(p[..at]) + content[old(Cursor())..Cursor()] + old(p[at + n..])
    {
      hide V.Backed;
      HeldIs(n);
      Copy(p, at, buf, pos, n);
      pos := pos + n;
    }

    /** Refills an exhausted buffer, then copies what fits into p from position at. */
    method Read(p: array<Byte>, at: nat) returns (n: nat, ok: bool)
      requires Valid() && at < p.Length && p != buf
      modifies this`off, this`filled, this`pos, buf, sd.cache, p
      ensures V.Backed(sd, content)
      ensures ok ==> Valid() && n > 0 && Cursor() == old(Cursor()) + n && at + n <= p.Length
                     && p[..] == old(p[..at]) + content[old(Cursor())..Cursor()] + old(p[at + n..])
      ensures !ok ==> n == 0 && p[..] == old(p[..]) && old(Cursor()) == |content|
    {
      hide SectionHolds, V.Backed;
      if pos >= filled {
        var more := Refill();
        if !more {
          return 0, false;
        }
      }
      n := if p.Length - at <= filled - pos then p.Length - at else filled - pos;
      Deliver(p, at, n);
      ok := true;
    }

    /** io.ReadFull: exactly p.Length bytes, or failure when the section ends before. */
    method ReadFull(p: array<Byte>) returns (ok: bool)
      requires Valid() && p != buf
      modifies this`off, this`filled, this`pos, buf, sd.cache, p
      ensures V.Backed(sd, content)
      ensures ok <==> old(Cursor()) + p.Length <= |content|
      ensures ok ==> Valid() && Cursor() == old(Cursor()) + p.Length && p[..] == content[old(Cursor())..Cursor()]
    {
      hide SectionHolds, V.Backed;
      CursorInside();
      ghost var from: nat := Cursor();
      var n := 0;
      while n < p.Length
        invariant Valid() && n <= p.Length && Cursor() == from + n <= |content|
        invariant p[..n] == content[from..from + n]
      {
        ghost var had := p[..];
        var k, more := Read(p, n);
        if !more {
          return false;
        }
        CursorInside();
        Extended(had, p[..], content, from, n, k);
        n := n + k;
      }
      assert p[..p.Length] == p[..];
      ok := true;
    }
  }

  // ---- the pass ----

  function Prepend(records: seq<Tagged>, r: Result<seq<Tagged>>): Result<seq<Tagged>> {
    if r.Err? then r else Ok(records + r.value)
  }

  /** The record that starts at pos, when it is complete and its ID is known. */
  function NextRecord(content: Bytes, pos: nat, idSize: nat, kinds: map<nat, Kind>): Option<Tagged>
    requires pos <= |content|
  {
    if pos + idSize > |content| then None
    else
      var id, at := FromLE(content[pos..pos + idSize]), pos + idSize;
      if id !in kinds then None
      else
        var n := BodyLength(kinds[id], content[at..]);
        if n.None? then None else Some(Tagged(id, content[at..at + n.value]))
  }

  /** One more record in front of the rest. */
  lemma Steps(content: Bytes, pos: nat, idSize: nat, kinds: map<nat, Kind>, done: seq<Tagged>, t: Tagged)
    requires idSize > 0 && pos <= |content| && NextRecord(content, pos, idSize, kinds) == Some(t)
    ensures t.id in kinds && pos + idSize + |t.body| <= |content|
    ensures Prepend(done, Records(content[pos..], idSize, kinds))
            == Prepend(done + [t], Records(content[pos + idSize + |t.body|..], idSize, kinds))
  {
    hide FromLE, BodyLength;
    var s := content[pos..];
    assert s[..idSize] == content[pos..pos + idSize] && s[idSize..] == content[pos + idSize..];
    var rest, n := s[idSize..], |t.body|;
    assert rest[n..] == content[pos + idSize + n..];
    SubSlice(content, pos + idSize, |content|, 0, n);
    assert rest == content[pos + idSize..|content|] && rest[..n] == rest[0..n] == t.body;
    var r := Records(rest[n..], idSize, kinds);
    assert Records(s, idSize, kinds) == Prepend([t], r);
    hide Records;
    PrependTwice(done, t, r);
  }

  lemma PrependTwice(done: seq<Tagged>, t: Tagged, r: Result<seq<Tagged>>)
    ensures Prepend(done, Prepend([t], r)) == Prepend(done + [t], r)
  {
    if r.Ok? {
      assert done + ([t] + r.value) == done + [t] + r.value;
    }
  }

  /** The rest of the section does not parse. */
  lemma Stuck(content: Bytes, pos: nat, idSize: nat, kinds: map<nat, Kind>, done: seq<Tagged>)
    requires idSize > 0 && pos < |content| && NextRecord(content, pos, idSize, kinds) == None
    ensures Prepend(done, Records(content[pos..], idSize, kinds)).Err?
  {
    hide FromLE, BodyLength;
    var s := content[pos..];
    if pos + idSize <= |content| {
      assert s[..idSize] == content[pos..pos + idSize] && s[idSize..] == content[pos + idSize..];
    }
  }

  lemma StreamSnoc(records: seq<Tagged>, t: Tagged, id: nat)
    ensures StreamOf(records + [t], id) == if t.id == id then StreamOf(records, id) + t.body else StreamOf(records, id)
  {
    assert (records + [t])[..|records|] == records;
  }

  /** The body of a record as far as its kind tells before it is read. */
  lemma BodyAt(kind: Kind, content: Bytes, pos: nat)
    requires pos <= |content|
    ensures kind.Fixed? ==> BodyLength(kind, content[pos..])
                            == if pos + kind.size <= |content| then Some(kind.size) else None
    ensures kind.Vlsd? && pos + 4 > |content| ==> BodyLength(kind, content[pos..]) == None
    ensures kind.Vlsd? && pos + 4 <= |content| ==>
              var n := FromLE(content[pos..pos + 4]);
              BodyLength(kind, content[pos..]) == if pos + 4 + n <= |content| then Some(4 + n) else None
  {
    hide FromLE;
    if kind.Vlsd? && pos + 4 <= |content| {
      assert content[pos..][..4] == content[pos..pos + 4];
    }
  }

  /** Every group starts with an empty buffer. */
  function Buffers(kinds: map<nat, Kind>, records: seq<Tagged>): map<nat, Bytes> {
    map id | id in kinds :: StreamOf(records, id)
  }

  /** A group's own layout wins over a derived one. */
  lemma {:induction false} KindsMerge(groups: seq<GroupInfo>, derived: map<nat, nat>)
    ensures var own := Kinds(groups, map[]);
            Kinds(groups, derived) == Merged(own, derived, derived.Keys)
  {
    if groups != [] {
      KindsMerge(groups[..|groups| - 1], derived);
    }
  }

  method OwnKinds(groups: seq<GroupInfo>) returns (kinds: map<nat, Kind>)
    ensures kinds == Kinds(groups, map[])
  {
    kinds := map[];
    for i := 0 to |groups|
      invariant kinds == Kinds(groups[..i], map[])
    {
      assert groups[..i + 1][..i] == groups[..i];
      kinds := kinds[groups[i].id := groups[i].kind];
    }
    assert groups[..|groups|] == groups;
  }

  /** Derived IDs in no particular order, where no group has them. */
  method AddDerived(own: map<nat, Kind>, derived: map<nat, nat>) returns (kinds: map<nat, Kind>)
    ensures kinds == Merged(own, derived, derived.Keys)
  {
    hide Merged;
    kinds := own;
    ghost var seen: set<nat> := {};
    var rest := derived.Keys;
    NothingMerged(own, derived);
    while rest != {}
      invariant seen + rest == derived.Keys && seen !! rest
      invariant kinds == Merged(own, derived, seen)
      decreases |rest|
    {
      var id :| id in rest;
      MergeStep(own, derived, seen, id);
      seen, rest := seen + {id}, rest - {id};
      if id !in kinds {
        kinds := kinds[id := Fixed(derived[id])];
      }
    }
    assert seen == derived.Keys;
  }

  method BuildKinds(groups: seq<GroupInfo>, derived: map<nat, nat>) returns (kinds: map<nat, Kind>)
    ensures kinds == Kinds(groups, derived)
  {
    hide Merged, Kinds;
    kinds := OwnKinds(groups);
    kinds := AddDerived(kinds, derived);
    KindsMerge(groups, derived);
  }

  /** The groups' own layouts, completed by the derived ones of these IDs. */
  function Merged(own: map<nat, Kind>, derived: map<nat, nat>, ids: set<nat>): map<nat, Kind>
    requires ids <= derived.Keys
  {
    map id | id in own.Keys + ids :: if id in own then own[id] else Fixed(derived[id])
  }

  lemma NothingMerged(own: map<nat, Kind>, derived: map<nat, nat>)
    ensures derived.Keys - derived.Keys == {} && Merged(own, derived, {}) == own
  {
  }

  lemma MergeStep(own: map<nat, Kind>, derived: map<nat, nat>, ids: set<nat>, id: nat)
    requires ids <= derived.Keys && id in derived.Keys && id !in ids
    ensures var m := Merged(own, derived, ids);
            Merged(own, derived, ids + {id}) == if id in m then m else m[id := Fixed(derived[id])]
  {
  }

  lemma NothingRead(content: Bytes, idSize: nat, kinds: map<nat, Kind>)
    requires idSize > 0
    ensures Records(content, idSize, kinds) == Prepend([], Records(content[0..], idSize, kinds))
    ensures Buffers(kinds, []) == map id | id in kinds :: []
  {
    hide Records;
    assert content[0..] == content;
    var r := Records(content, idSize, kinds);
    if r.Ok? {
      assert [] + r.value == r.value;
    }
  }

  lemma BufferKeys(kinds: map<nat, Kind>, records: seq<Tagged>)
    ensures Buffers(kinds, records).Keys == kinds.Keys
  {
  }

  lemma AllRead(content: Bytes, idSize: nat, kinds: map<nat, Kind>, records: seq<Tagged>)
    requires idSize > 0
    requires Records(content, idSize, kinds) == Prepend(records, Records(content[|content|..], idSize, kinds))
    ensures Records(content, idSize, kinds) == Ok(records)
  {
    assert content[|content|..] == [];
    assert records + [] == records;
  }

  /** One more record changes the stream of its ID and no other. */
  lemma BufferStep(kinds: map<nat, Kind>, records: seq<Tagged>, t: Tagged)
    requires t.id in kinds
    ensures Buffers(kinds, records + [t]) == Buffers(kinds, records)[t.id := Buffers(kinds, records)[t.id] + t.body]
  {
    forall id | id in kinds
      ensures StreamOf(records + [t], id) == if t.id == id then StreamOf(records, id) + t.body
              else StreamOf(records, id)
    {
      StreamSnoc(records, t, id);
    }
  }

  lemma SliceJoin(s: Bytes, a: nat, b: nat, c: nat)
    requires a <= b <= c <= |s|
    ensures s[a..b] + s[b..c] == s[a..c]
  {
  }

  /** The body of one record: a fixed number of bytes, or a length and as many bytes as it says. */
  method ReadBody(br: BufferedReader, kind: Kind) returns (body: Option<Bytes>)
    requires br.Valid()
    modifies br`off, br`filled, br`pos, br.buf, br.sd.cache
    ensures V.Backed(br.sd, br.content)
    ensures 0 <= old(br.Cursor()) <= |br.content|
    ensures var n := BodyLength(kind, br.content[old(br.Cursor())..]);
            && (body.Some? <==> n.Some?)
            && (body.Some? ==> br.Valid() && br.Cursor() == old(br.Cursor()) + n.value
                               && body.value == br.content[old(br.Cursor())..br.Cursor()])
  {
    hide SectionHolds, FromLE, BodyLength, V.Backed, BufferedReader.Valid, BufferedReader.Cursor;
    br.CursorInside();
    ghost var start: nat := br.Cursor();
    BodyAt(kind, br.content, start);
    var head: Bytes := [];
    var n: nat;
    match kind {
      case Fixed(size) => n := size;
      case Vlsd =>
        var lenBuf := new Byte[4](_ => 0);
        var ok := br.ReadFull(lenBuf);
        if !ok {
          return None;
        }
        head, n := lenBuf[..], FromLE(lenBuf[..]);
    }
    var rest := new Byte[n](_ => 0);
    var ok := br.ReadFull(rest);
    if !ok {
      return None;
    }
    br.CursorInside();
    SliceJoin(br.content, start, start + |head|, br.Cursor());
    body := Some(head + rest[..]);
  }

  /** A record with its ID, which must be one of the data group's. */
  method ReadRecord(br: BufferedReader, idBuf: array<Byte>, kinds: map<nat, Kind>) returns (t: Option<Tagged>)
    requires br.Valid() && idBuf != br.buf
    modifies br`off, br`filled, br`pos, br.buf, br.sd.cache, idBuf
    ensures V.Backed(br.sd, br.content)
    ensures 0 <= old(br.Cursor()) <= |br.content|
    ensures t == NextRecord(br.content, old(br.Cursor()), idBuf.Length, kinds)
    ensures t.Some? ==> br.Valid() && br.Cursor() == old(br.Cursor()) + idBuf.Length + |t.value.body|
  {
    hide SectionHolds, FromLE, BodyLength, V.Backed, BufferedReader.Valid, BufferedReader.Cursor;
    br.CursorInside();
    var ok := br.ReadFull(idBuf);
    if !ok {
      return None;
    }
    var id := FromLE(idBuf[..]);
    if id !in kinds {
      return None;
    }
    var body := ReadBody(br, kinds[id]);
    t := if body.Some? then Some(Tagged(id, body.value)) else None;
  }

  /** One pass over the section: each record's body joins the buffer of its ID. */
  method Deinterleave(sd: Reader, recIdSize: nat, groups: seq<GroupInfo>, derived: map<nat, nat>, capacity: nat,
                      ghost content: Bytes) returns (r: Result<map<nat, Bytes>>)
    requires capacity > 0 && V.Backed(sd, content)
    modifies sd.cache
    ensures r.Ok? <==> IdSize(recIdSize) && Records(content, recIdSize, Kinds(groups, derived)).Ok?
    ensures r.Ok? ==>
            r.value
            == Buffers(Kinds(groups, derived), Records(content, recIdSize, Kinds(groups, derived)).value)
  {
    hide SectionHolds, Records, FromLE, NextRecord, Kinds, StreamOf, V.Backed, Prepend, Buffers, BufferedReader.Valid;
    hide BufferedReader.Cursor;
    if !IdSize(recIdSize) {
      return Err(BadArgument);
    }
    var kinds := BuildKinds(groups, derived);
    SizeIs(sd, content);
    var size := sd.size;
    var br: BufferedReader := new BufferedReader(sd, capacity, content);
    var bufs: map<nat, Bytes> := map id | id in kinds :: [];
    ghost var records: seq<Tagged> := [];
    NothingRead(content, recIdSize, kinds);
    var idBuf := new Byte[recIdSize](_ => 0);
    var pos := 0;
    while pos < size
      modifies br`off, br`filled, br`pos, br.buf, sd.cache, idBuf
      invariant br.Valid() && br.Cursor() == pos <= |content|
      invariant bufs == Buffers(kinds, records)
      invariant Records(content, recIdSize, kinds) == Prepend(records, Records(content[pos..], recIdSize, kinds))
      decreases size - pos
    {
      var next := ReadRecord(br, idBuf, kinds);
      if next.None? {
        Stuck(content, pos, recIdSize, kinds, records);
        return Err(BadRecord);
      }
      var t := next.value;
      Steps(content, pos, recIdSize, kinds, records, t);
      BufferKeys(kinds, records);
      BufferStep(kinds, records, t);
      bufs := bufs[t.id := bufs[t.id] + t.body];
      records := records + [t];
      pos := pos + recIdSize + |t.body|;
    }
    AllRead(content, recIdSize, kinds, records);
    r := Ok(bufs);
  }
}
