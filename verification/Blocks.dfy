/** The common MDF block shape: 24-byte header, link section, data section. */
module Blocks {
  import opened Wire

  const HEADER_SIZE: nat := 24
  const LINK_SIZE: nat := 8
  const ID_SIZE: nat := 64

  const ID_HD: Bytes := [0x23, 0x23, 0x48, 0x44]
  const ID_FH: Bytes := [0x23, 0x23, 0x46, 0x48]
  const ID_MD: Bytes := [0x23, 0x23, 0x4D, 0x44]
  const ID_TX: Bytes := [0x23, 0x23, 0x54, 0x58]
  const ID_DG: Bytes := [0x23, 0x23, 0x44, 0x47]
  const ID_CG: Bytes := [0x23, 0x23, 0x43, 0x47]
  const ID_CN: Bytes := [0x23, 0x23, 0x43, 0x4E]
  const ID_CC: Bytes := [0x23, 0x23, 0x43, 0x43]
  const ID_DT: Bytes := [0x23, 0x23, 0x44, 0x54]
  const ID_DV: Bytes := [0x23, 0x23, 0x44, 0x56]
  const ID_SD: Bytes := [0x23, 0x23, 0x53, 0x44]
  const ID_RD: Bytes := [0x23, 0x23, 0x52, 0x44]
  const ID_DZ: Bytes := [0x23, 0x23, 0x44, 0x5A]
  const ID_DL: Bytes := [0x23, 0x23, 0x44, 0x4C]
  const ID_HL: Bytes := [0x23, 0x23, 0x48, 0x4C]
  const ID_LD: Bytes := [0x23, 0x23, 0x4C, 0x44]
  const ID_DI: Bytes := [0x23, 0x23, 0x44, 0x49]

  datatype Block = Block(id: Bytes, links: seq<nat>, data: Bytes)

  ghost predicate ValidId(id: Bytes) {
    |id| == 4 && id[0] == 0x23 && id[1] == 0x23
  }

  /** Blocks whose links are int64 file offsets. */
  ghost predicate ValidBlock(b: Block) {
    && ValidId(b.id)
    && (forall i :: 0 <= i < |b.links| ==> b.links[i] < TWO_63)
    && Size(b) < TWO_63
  }

  function Size(b: Block): nat {
    HEADER_SIZE + LINK_SIZE * |b.links| + |b.data|
  }

  function LinkBytes(links: seq<nat>): (r: Bytes)
    ensures |r| == 8 * |links|
  {
    if links == [] then [] else LE(links[0], 8) + LinkBytes(links[1..])
  }

  function HeadBytes(id: Bytes, length: nat, linkCount: nat): (r: Bytes)
    requires |id| == 4
    ensures |r| == HEADER_SIZE
  {
    id + Zeros(4) + LE(length, 8) + LE(linkCount, 8)
  }

  /** The bytes of one complete block. */
  function Encode(b: Block): (r: Bytes)
    requires |b.id| == 4
    ensures |r| == Size(b)
  {
    HeadBytes(b.id, Size(b), |b.links|) + LinkBytes(b.links) + b.data
  }

  /** The block composer, appending link after link to the output buffer. */
  method Build(id: Bytes, links: seq<nat>, data: Bytes) returns (out: Bytes)
    requires |id| == 4
    ensures out == Encode(Block(id, links, data))
  {
    var n := HEADER_SIZE + |links| * LINK_SIZE + |data|;
    out := id + Zeros(4) + LE(n, 8) + LE(|links|, 8);
    ghost var head := out;
    for i := 0 to |links|
      invariant out == head + LinkBytes(links[..i])
    {
      LinkBytesAppend(links[..i], [links[i]]);
      assert links[..i + 1] == links[..i] + [links[i]];
      assert LinkBytes([links[i]]) == LE(links[i], 8);
      out := out + LE(links[i], 8);
    }
    assert links[..|links|] == links;
    out := out + data;
  }

  lemma {:induction false} LinkBytesAppend(a: seq<nat>, b: seq<nat>)
    ensures LinkBytes(a + b) == LinkBytes(a) + LinkBytes(b)
  {
    if a == [] {
      assert a + b == b;
    } else {
      assert (a + b)[1..] == a[1..] + b;
      LinkBytesAppend(a[1..], b);
    }
  }

  lemma {:induction false} LinkBytesAt(links: seq<nat>, i: nat)
    requires i < |links|
    ensures LinkBytes(links)[8 * i..8 * i + 8] == LE(links[i], 8)
  {
    if i > 0 {
      LinkBytesAt(links[1..], i - 1);
      assert LinkBytes(links)[8 * i..8 * i + 8] == LinkBytes(links[1..])[8 * (i - 1)..8 * (i - 1) + 8];
    }
  }

  lemma LinkBytesUpdate(links: seq<nat>, i: nat, v: nat)
    requires i < |links|
    ensures LinkBytes(links[i := v]) == WriteAt(LinkBytes(links), 8 * i, LE(v, 8))
  {
    var a, c := links[..i], links[i + 1..];
    assert links == a + [links[i]] + c && links[i := v] == a + [v] + c;
    LinkBytesAppend(a + [links[i]], c);
    LinkBytesAppend(a, [links[i]]);
    LinkBytesAppend(a + [v], c);
    LinkBytesAppend(a, [v]);
    assert LinkBytes([v]) == LE(v, 8);
    var x := LinkBytes(links);
    WriteAtInside(x, 8 * i, LE(v, 8));
    assert x[..8 * i] == LinkBytes(a);
    assert x[8 * i + 8..] == LinkBytes(c);
  }

  /** Overwriting link i of an encoded block encodes the block with that link changed. */
  lemma EncodeSetLink(b: Block, i: nat, v: nat)
    requires |b.id| == 4 && i < |b.links|
    ensures WriteAt(Encode(b), 24 + 8 * i, LE(v, 8)) == Encode(b.(links := b.links[i := v]))
  {
    hide LE, LinkBytes;
    var head, l := HeadBytes(b.id, Size(b), |b.links|), LinkBytes(b.links);
    LinkBytesUpdate(b.links, i, v);
    WriteAtInside(l, 8 * i, LE(v, 8));
    WriteAtInside(Encode(b), 24 + 8 * i, LE(v, 8));
    assert Encode(b)[..24 + 8 * i] == head + l[..8 * i];
    assert Encode(b)[24 + 8 * i + 8..] == l[8 * i + 8..] + b.data;
  }

  /** Overwriting data bytes of an encoded block encodes the block with those bytes changed. */
  lemma EncodeSetData(b: Block, k: nat, v: Bytes)
    requires |b.id| == 4 && k + |v| <= |b.data|
    ensures WriteAt(Encode(b), 24 + 8 * |b.links| + k, v) == Encode(b.(data := WriteAt(b.data, k, v)))
  {
    hide LE, LinkBytes, HeadBytes, WriteAt;
    var head := HeadBytes(b.id, Size(b), |b.links|) + LinkBytes(b.links);
    var off := 24 + 8 * |b.links| + k;
    WriteAtInside(b.data, k, v);
    WriteAtInside(Encode(b), off, v);
    assert Encode(b)[..off] == head + b.data[..k];
    assert Encode(b)[off + |v|..] == b.data[k + |v|..];
  }

  // ---- decoding ----

  datatype Header = Header(id: Bytes, length: nat, linkCount: nat) {
    /** uint64 arithmetic, as the length of the data section is computed. */
    function DataLen(): nat {
      (length - HEADER_SIZE - linkCount * LINK_SIZE) % TWO_64
    }
  }

  datatype Raw = Raw(header: Header, links: seq<int>, data: Bytes) {
    function Link(i: int): int {
      if i < 0 || i >= |links| then 0 else links[i]
    }
  }

  function DecodeHeader(f: Bytes, addr: int, want: Bytes): (r: Result<Header>)
    ensures r.Ok? ==> 0 <= addr && addr + 24 <= |f| && |r.value.id| == 4 && r.value.length <= |f| - addr
  {
    var buf :- Slice(f, addr, HEADER_SIZE);
    var h := Header(buf[0..4], FromLE(buf[8..16]), FromLE(buf[16..24]));
    if h.id[0] != 0x23 || h.id[1] != 0x23 then Err(InvalidBlock)
    else if want != [] && h.id != want then Err(InvalidBlock)
    else if h.length < (HEADER_SIZE + h.linkCount * LINK_SIZE) % TWO_64
            || h.linkCount > (h.length - HEADER_SIZE) % TWO_64 / LINK_SIZE then Err(InvalidBlock)
    else if |f| - addr < h.length then Err(InvalidBlock)
    else Ok(h)
  }

  function PeekID(f: Bytes, addr: int): Result<Bytes> {
    Slice(f, addr, 4)
  }

  function LinksOf(body: Bytes, n: nat): (r: seq<int>)
    requires n * 8 <= |body|
    ensures |r| == n
  {
    seq(n, i requires 0 <= i < n => AsInt64(FromLE(body[i * 8..i * 8 + 8])))
  }

  function DecodeRaw(f: Bytes, addr: int, want: Bytes, minLinks: nat, minData: nat): (r: Result<Raw>)
    ensures r.Ok? ==> |r.value.links| >= minLinks && |r.value.data| >= minData
    ensures r.Ok? ==> 0 <= addr && |r.value.data| <= |f|
  {
    var h :- DecodeHeader(f, addr, want);
    if h.linkCount < minLinks then Err(InvalidBlock)
    else if h.DataLen() < minData then Err(InvalidBlock)
    else
      var body :- Slice(f, addr + HEADER_SIZE, h.length - HEADER_SIZE);
      Ok(Raw(h, LinksOf(body, h.linkCount), body[h.linkCount * LINK_SIZE..]))
  }

  /** The link section is decoded into a slice link by link. */
  method DecodeLinks(body: Bytes, n: nat) returns (links: seq<int>)
    requires n * 8 <= |body|
    ensures links == LinksOf(body, n)
  {
    links := [];
    for i := 0 to n
      invariant links == LinksOf(body, i)
    {
      links := links + [AsInt64(FromLE(body[i * 8..i * 8 + 8]))];
    }
  }

  lemma HeaderOfHead(f: Bytes, a: nat, id: Bytes, length: nat, linkCount: nat)
    requires ValidId(id) && length < TWO_64 && linkCount < TWO_64
    requires At(f, a, HeadBytes(id, length, linkCount))
    ensures f[a..a + 4] == id
    ensures PeekID(f, a) == Ok(id)
    ensures FromLE(f[a + 8..a + 16]) == length
    ensures FromLE(f[a + 16..a + 24]) == linkCount
  {
    var x := HeadBytes(id, length, linkCount);
    AtSub(f, a, x, 0, 4);
    AtSub(f, a, x, 8, 16);
    AtSub(f, a, x, 16, 24);
    assert x[0..4] == id;
    assert x[8..16] == LE(length, 8);
    assert x[16..24] == LE(linkCount, 8);
    LE8(length);
    LE8(linkCount);
  }

  lemma EncodeParts(b: Block)
    requires ValidId(b.id)
    ensures Encode(b) == HeadBytes(b.id, Size(b), |b.links|) + (LinkBytes(b.links) + b.data)
  {
    hide LE, LinkBytes, HeadBytes;
  }

  lemma HeaderBuilt(f: Bytes, a: nat, b: Block, want: Bytes)
    requires ValidBlock(b) && At(f, a, Encode(b)) && (want == [] || want == b.id)
    ensures DecodeHeader(f, a, want) == Ok(Header(b.id, Size(b), |b.links|))
    ensures Header(b.id, Size(b), |b.links|).DataLen() == |b.data|
    ensures PeekID(f, a) == Ok(b.id)
  {
    hide LE, FromLE, LinkBytes, Encode, HeadBytes;
    EncodeParts(b);
    var head := HeadBytes(b.id, Size(b), |b.links|);
    AtConcat(f, a, head, LinkBytes(b.links) + b.data);
    HeaderOfHead(f, a, b.id, Size(b), |b.links|);
    var buf := f[a..a + 24];
    assert buf[0..4] == f[a..a + 4] && buf[8..16] == f[a + 8..a + 16] && buf[16..24] == f[a + 16..a + 24];
  }

  /** Decoding what Build wrote returns the same links and the same data. */
  lemma RawBuilt(f: Bytes, a: nat, b: Block, minLinks: nat, minData: nat)
    requires ValidBlock(b) && At(f, a, Encode(b))
    requires minLinks <= |b.links| && minData <= |b.data|
    ensures DecodeRaw(f, a, b.id, minLinks, minData) == Ok(Raw(Header(b.id, Size(b), |b.links|), b.links, b.data))
  {
    hide LE, FromLE, LinkBytes, Encode, HeadBytes, DecodeHeader;
    HeaderBuilt(f, a, b, b.id);
    var head := HeadBytes(b.id, Size(b), |b.links|);
    var body := LinkBytes(b.links) + b.data;
    EncodeParts(b);
    AtConcat(f, a, head, body);
    assert f[a + 24..a + Size(b)] == body;
    assert body[|b.links| * 8..] == b.data;
    forall i | 0 <= i < |b.links|
      ensures LinksOf(body, |b.links|)[i] == b.links[i]
    {
      LinkBytesAt(b.links, i);
      assert body[i * 8..i * 8 + 8] == LinkBytes(b.links)[8 * i..8 * i + 8];
      LE8(b.links[i]);
    }
    assert LinksOf(body, |b.links|) == b.links;
  }

  // ---- text blocks ----

  /** Bytes needed after the NUL terminator to reach a multiple of 8. */
  function TextPad(n: nat): (p: nat)
    ensures p < 8 && (n + 1 + p) % 8 == 0
  {
    7 - n % 8
  }

  /** NUL-terminated and padded to a multiple of 8. */
  function TextData(s: Bytes): (r: Bytes)
    ensures |r| % 8 == 0 && |s| < |r| <= |s| + 8
  {
    s + [0] + Zeros(TextPad(|s|))
  }

  function TextBlock(s: Bytes): Block { Block(ID_TX, [], TextData(s)) }

  lemma ZerosGrow(n: nat)
    ensures Zeros(0) == [] && Zeros(n) + [0] == Zeros(n + 1)
  {
  }

  /** Text padded zero by zero, as the text block composer does. */
  method BuildTX(s: Bytes) returns (out: Bytes)
    ensures out == Encode(TextBlock(s))
  {
    hide Encode, Zeros;
    var data: Bytes := s + [0];
    ghost var pad: nat := 0;
    ZerosGrow(0);
    while |data| % 8 != 0
      invariant pad <= TextPad(|s|)
      invariant data == s + [0] + Zeros(pad)
      decreases TextPad(|s|) - pad
    {
      ZerosGrow(pad);
      assert s + [0] + Zeros(pad) + [0] == s + [0] + (Zeros(pad) + [0]);
      pad := pad + 1;
      data := data + [0];
    }
    out := Build(ID_TX, [], data);
  }

  function CutNul(s: Bytes): Bytes {
    if s == [] || s[0] == 0 then [] else [s[0]] + CutNul(s[1..])
  }

  function DecodeText(f: Bytes, addr: int): Result<Bytes> {
    if addr == 0 then Ok([])
    else
      var h :- DecodeHeader(f, addr, []);
      if h.id != ID_TX && h.id != ID_MD then Err(InvalidBlock)
      else if h.linkCount != 0 then Err(InvalidBlock)
      else
        var data :- Slice(f, addr + HEADER_SIZE, h.DataLen());
        Ok(CutNul(data))
  }

  lemma {:induction false} CutNulStops(s: Bytes, t: Bytes)
    ensures CutNul(s + [0] + t) == s <==> 0 !in s
  {
    if s == [] {
      assert (s + [0] + t)[0] == 0;
    } else {
      assert (s + [0] + t)[1..] == s[1..] + [0] + t;
      CutNulStops(s[1..], t);
      assert s == [s[0]] + s[1..];
      if s[0] != 0 {
        assert CutNul(s + [0] + t) == [s[0]] + CutNul(s[1..] + [0] + t);
        if CutNul(s + [0] + t) == s {
          assert ([s[0]] + CutNul(s[1..] + [0] + t))[1..] == s[1..];
        }
      }
    }
  }

  /** A text block reads back exactly when the text has no NUL byte. */
  lemma TextRoundTrip(f: Bytes, a: nat, s: Bytes)
    requires a != 0 && ValidBlock(TextBlock(s)) && At(f, a, Encode(TextBlock(s)))
    ensures DecodeText(f, a).Ok?
    ensures DecodeText(f, a) == Ok(s) <==> 0 !in s
  {
    var b := TextBlock(s);
    HeaderBuilt(f, a, b, []);
    var head := HeadBytes(b.id, Size(b), 0);
    assert Encode(b) == head + b.data;
    AtConcat(f, a, head, b.data);
    CutNulStops(s, Zeros(TextPad(|s|)));
  }
}
