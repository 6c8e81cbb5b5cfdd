/** Any history of appends and flushes: what is on file for every group and every string channel. */
module Runs {
  import opened Wire
  import opened Blocks
  import opened Zip
  import opened Store
  import opened WriterSpec
  import opened Written
  import opened Streams

  /** One appended record as the caller gave it. */
  datatype Row = Row(rec: Bytes, strings: seq<Bytes>)

  function Text(row: Row, ci: nat): Bytes {
    if ci < |row.strings| then row.strings[ci] else []
  }

  /** A variable-length value as stored: its length in 4 bytes, then its bytes. */
  function Entry(s: Bytes): Bytes { LE(|s|, 4) + s }

  /** The signal data of channel ci: one entry per row. */
  function TextStream(rows: seq<Row>, ci: nat): Bytes {
    if rows == [] then [] else TextStream(rows[..|rows| - 1], ci) + Entry(Text(rows[|rows| - 1], ci))
  }

  /** The record of `row` after rows `before`: string fields hold the length of their signal data so far. */
  function Stamped(chans: seq<Chan>, before: seq<Row>, row: Row, n: nat): Bytes
    requires n <= |chans|
  {
    if n == 0 then row.rec
    else
      var rec := Stamped(chans, before, row, n - 1);
      var c := chans[n - 1];
      if c.def.vlsd then WriteAt(rec, c.def.field.byteOffset, LE(|TextStream(before, n - 1)|, 8)) else rec
  }

  function StoredRow(chans: seq<Chan>, before: seq<Row>, row: Row): Bytes {
    Stamped(chans, before, row, |chans|)
  }

  function StoredRows(chans: seq<Chan>, rows: seq<Row>): (r: seq<Bytes>)
    ensures |r| == |rows|
  {
    if rows == [] then []
    else
      var before := rows[..|rows| - 1];
      StoredRows(chans, before) + [StoredRow(chans, before, rows[|rows| - 1])]
  }

  /** The records of a group, one behind the other. */
  function DataStream(chans: seq<Chan>, rows: seq<Row>): Bytes {
    Concat(StoredRows(chans, rows))
  }

  lemma TextSnoc(rows: seq<Row>, row: Row, ci: nat)
    ensures TextStream(rows + [row], ci) == TextStream(rows, ci) + LE(|Text(row, ci)|, 4) + Text(row, ci)
  {
    assert (rows + [row])[..|rows|] == rows;
  }

  lemma DataSnoc(chans: seq<Chan>, rows: seq<Row>, row: Row)
    ensures DataStream(chans, rows + [row]) == DataStream(chans, rows) + StoredRow(chans, rows, row)
  {
    hide StoredRow;
    assert (rows + [row])[..|rows|] == rows;
    ConcatSnoc(StoredRows(chans, rows), StoredRow(chans, rows, row));
  }

  // ---- record layout ----

  ghost predicate FieldsInside(chans: seq<Chan>, recSize: nat) {
    forall i :: 0 <= i < |chans| && chans[i].def.vlsd ==> chans[i].def.field.byteOffset + 8 <= recSize
  }

  lemma {:induction false} TiledInside(chans: seq<Chan>, recSize: nat)
    requires Tiled(chans, recSize)
    ensures forall i :: 0 <= i < |chans| ==>
              chans[i].def.field.byteOffset + chans[i].def.field.bitCount / 8 <= recSize
    ensures forall i, j :: 0 <= i < j < |chans| ==>
              chans[i].def.field.byteOffset + chans[i].def.field.bitCount / 8 <= chans[j].def.field.byteOffset
  {
    if chans != [] {
      var init, last := chans[..|chans| - 1], chans[|chans| - 1].def.field;
      TiledInside(init, last.byteOffset);
      assert forall i :: 0 <= i < |init| ==> init[i] == chans[i];
    }
  }

  lemma {:induction false} StampedLength(chans: seq<Chan>, before: seq<Row>, row: Row, n: nat)
    requires n <= |chans| && FieldsInside(chans, |row.rec|)
    ensures |Stamped(chans, before, row, n)| == |row.rec|
  {
    hide LE;
    if n > 0 {
      StampedLength(chans, before, row, n - 1);
    }
  }

  ghost predicate RowsFit(rows: seq<Row>, recSize: nat, chans: nat) {
    forall i :: 0 <= i < |rows| ==> |rows[i].rec| == recSize && |rows[i].strings| == chans
  }

  lemma {:induction false} StoredLengths(chans: seq<Chan>, rows: seq<Row>, recSize: nat)
    requires FieldsInside(chans, recSize) && RowsFit(rows, recSize, |chans|)
    ensures forall i :: 0 <= i < |rows| ==> |StoredRows(chans, rows)[i]| == recSize
    ensures |DataStream(chans, rows)| == |rows| * recSize
  {
    hide Stamped;
    if rows != [] {
      var before, row := rows[..|rows| - 1], rows[|rows| - 1];
      StoredLengths(chans, before, recSize);
      StampedLength(chans, before, row, |chans|);
    }
    ConcatUniform(StoredRows(chans, rows), recSize);
  }

  // ---- invariant while recording ----

  ghost predicate SignalIs(h: Heap, z: Zlib, chunkSize: nat, c: Chan, ci: nat, rows: seq<Row>) {
    && c.sd.id == ID_SD && c.sd.recSize == 0
    && if c.def.vlsd then StreamIs(h, z, c.sd, chunkSize, TextStream(rows, ci)) else c.sd == NewStream(ID_SD, 0)
  }

  ghost predicate SameChans(cs: seq<Chan>, cs0: seq<Chan>) {
    |cs| == |cs0| && forall i :: 0 <= i < |cs| ==> cs[i].def == cs0[i].def && cs[i].cnAddr == cs0[i].cnAddr
  }

  ghost predicate SameMeta(g: Group, g0: Group) {
    && g.name == g0.name && g.recSize == g0.recSize && g.cgAddr == g0.cgAddr && g.dgAddr == g0.dgAddr
    && SameChans(g.chans, g0.chans)
  }

  ghost predicate SignalsAre(h: Heap, z: Zlib, chunkSize: nat, chans: seq<Chan>, rows: seq<Row>) {
    forall ci :: 0 <= ci < |chans| ==> SignalIs(h, z, chunkSize, chans[ci], ci, rows)
  }

  /** A group's streams hold exactly its rows. */
  ghost predicate GroupIs(h: Heap, z: Zlib, cfg: Config, growing: bool, g: Group, g0: Group, rows: seq<Row>) {
    && SameMeta(g, g0) && g.count == |rows|
    && RowsFit(rows, g0.recSize, |g0.chans|) && FieldsInside(g0.chans, g0.recSize)
    && SignalsAre(h, z, cfg.chunkSize, g.chans, rows)
    && g.data.id == ID_DT && g.data.recSize == g0.recSize
    && (if growing then g.data == NewStream(ID_DT, g0.recSize)
        else StreamIs(h, z, g.data, cfg.chunkSize, DataStream(g0.chans, rows)))
  }

  /** No string channel has written a signal data block yet. */
  ghost predicate SignalsBuffered(chans: seq<Chan>) {
    forall ci :: 0 <= ci < |chans| ==> chans[ci].sd.segs == []
  }

  /** Where record k should follow the first k, padding and another block stand. */
  ghost predicate Stops(h: Heap, growAddr: nat, chans: seq<Chan>, rows: seq<Row>, k: nat) {
    k < |rows| && DataAt(h, AlignUp(growAddr + 24 + |DataStream(chans, rows[..k])|))
  }

  /** The growing layout: records follow the open data block without anything between them, exactly as long as
      no signal data block was written behind it; the first such block stands in the place of a record. */
  ghost predicate GrowIs(s: State, h: Heap, g0: Group, rows: seq<Row>) {
    && |s.groups| == 1 && s.growAddr in h && h[s.growAddr] == Block(ID_DT, [], [])
    && s.growBytes == |DataStream(g0.chans, rows)|
    && if SignalsBuffered(s.groups[0].chans) then
         && s.store.End() == s.growAddr + 24 + s.growBytes
         && At(s.store.Image(), s.growAddr + 24, DataStream(g0.chans, rows))
         && (forall a :: a in h ==> a + Size(h[a]) <= s.growAddr + 24)
       else
         && s.store.End() > s.growAddr + 24 + s.growBytes
         && exists k: nat :: Stops(h, s.growAddr, g0.chans, rows, k)
  }

  ghost predicate Running(z: Zlib, s: State, h: Heap, gs0: seq<Group>, hist: seq<seq<Row>>) {
    && s.started && s.cfg.chunkSize > 0 && |gs0| == |s.groups| == |hist| && s.store.patches == []
    && FileInv(s.store, h, OpenID(s), gs0, OpenLates(gs0, if s.growing then s.growAddr else 0))
    && (forall i :: 0 <= i < |gs0| ==> GroupIs(h, z, s.cfg, s.growing, s.groups[i], gs0[i], hist[i]))
    && (s.growing ==> |gs0| == 1 && GrowIs(s, h, gs0[0], hist[0]))
  }

  // ---- appending strings ----

  lemma SignalKept(h: Heap, h': Heap, z: Zlib, chunkSize: nat, c: Chan, ci: nat, rows: seq<Row>)
    requires SignalIs(h, z, chunkSize, c, ci, rows) && DataKept(h, h')
    ensures SignalIs(h', z, chunkSize, c, ci, rows)
  {
    hide DataKept, StreamIs, TextStream;
    if c.def.vlsd {
      StreamExt(h, h', z, c.sd, chunkSize, TextStream(rows, ci));
    }
  }

  lemma SignalsKept(h: Heap, h': Heap, z: Zlib, chunkSize: nat, chans: seq<Chan>, rows: seq<Row>)
    requires SignalsAre(h, z, chunkSize, chans, rows) && DataKept(h, h')
    ensures SignalsAre(h', z, chunkSize, chans, rows)
  {
    hide SignalIs, DataKept;
    forall ci | 0 <= ci < |chans|
      ensures SignalIs(h', z, chunkSize, chans[ci], ci, rows)
    {
      SignalKept(h, h', z, chunkSize, chans[ci], ci, rows);
    }
  }

  lemma GroupIsKept(h: Heap, h': Heap, z: Zlib, cfg: Config, growing: bool, g: Group, g0: Group, rows: seq<Row>)
    requires GroupIs(h, z, cfg, growing, g, g0, rows) && DataKept(h, h')
    ensures GroupIs(h', z, cfg, growing, g, g0, rows)
  {
    hide SignalsAre, DataKept, StreamIs, SameMeta, RowsFit, FieldsInside, DataStream;
    SignalsKept(h, h', z, cfg.chunkSize, g.chans, rows);
    if !growing {
      StreamExt(h, h', z, g.data, cfg.chunkSize, DataStream(g0.chans, rows));
    }
  }

  /** One string: its length and bytes join the channel's signal data. */
  lemma StringWritten(z: Zlib, cfg: Config, st: Store, h: Heap, c: Chan, ci: nat, rows: seq<Row>, row: Row)
    returns (h': Heap)
    requires StoreInv(st, h) && cfg.chunkSize > 0 && c.def.vlsd
    requires SignalIs(h, z, cfg.chunkSize, c, ci, rows)
    ensures var s := Text(row, ci);
            var (st1, sd1) := AppendStream(z, cfg, st, c.sd, LE(|s|, 4));
            var (st2, sd2) := AppendStream(z, cfg, st1, sd1, s);
            && Appended(st, h, st2, h') && SignalIs(h', z, cfg.chunkSize, c.(sd := sd2), ci, rows + [row])
            && c.sd.total == |TextStream(rows, ci)|
            && (st2 == st <==> sd2.segs == c.sd.segs)
            && (sd2.segs != c.sd.segs ==> st2.End() > st.End() && sd2.segs != [])
            && (st2 != st ==> DataAt(h', AlignUp(st.End())))
  {
    hide StoreInv, Appended, StreamIs, AppendStream, TextStream, LE, Ext, AlignUp, DataAt;
    var s := Text(row, ci);
    var all := TextStream(rows, ci);
    StreamTotal(h, z, c.sd, cfg.chunkSize, all);
    var h1 := AppendWritten(z, cfg, st, h, c.sd, LE(|s|, 4), all);
    var (st1, sd1) := AppendStream(z, cfg, st, c.sd, LE(|s|, 4));
    AppendedInv(st, h, st1, h1);
    h' := AppendWritten(z, cfg, st1, h1, sd1, s, all + LE(|s|, 4));
    var (st2, sd2) := AppendStream(z, cfg, st1, sd1, s);
    AppendedTrans(st, h, st1, h1, st2, h');
    AddressesKept(st1, h1, st2, h');
    TextSnoc(rows, row, ci);
    AppendGrowth(z, cfg, st, c.sd, LE(|s|, 4));
    AppendGrowth(z, cfg, st1, sd1, s);
  }

  lemma AddressesKept(st: Store, h: Heap, st': Store, h': Heap)
    requires Appended(st, h, st', h')
    ensures forall a :: DataAt(h, a) ==> DataAt(h', a)
  {
  }

  lemma StreamTotal(h: Heap, z: Zlib, cs: Stream, chunkSize: nat, all: Bytes)
    requires StreamIs(h, z, cs, chunkSize, all)
    ensures cs.total == |all| && |cs.id| == 4 && RecordId(cs.id)
    ensures cs.segs == [] <==> |all| < chunkSize
  {
  }

  /** A stream writes a block exactly when its list of segments grows, and then the file grows. */
  lemma AppendGrowth(z: Zlib, cfg: Config, st: Store, cs: Stream, b: Bytes)
    requires |cs.id| == 4
    ensures var (st', cs') := AppendStream(z, cfg, st, cs, b);
            && cs.segs <= cs'.segs
            && (st' == st <==> cs'.segs == cs.segs)
            && (cs'.segs != cs.segs ==> st'.End() > st.End() && |cs'.segs| > 0)
            && st'.End() >= st.End()
  {
    hide ChunkBlock, LE, LinkBytes;
  }

  ghost predicate SignalsUpTo(h: Heap, z: Zlib, chunkSize: nat, chans: seq<Chan>, rows: seq<Row>, row: Row, n: nat) {
    forall ci :: 0 <= ci < |chans| ==>
      SignalIs(h, z, chunkSize, chans[ci], ci, if ci < n && chans[ci].def.vlsd then rows + [row] else rows)
  }

  lemma SignalsUpToKept(h: Heap, h': Heap, z: Zlib, chunkSize: nat, chans: seq<Chan>, rows: seq<Row>, row: Row, n: nat)
    requires SignalsUpTo(h, z, chunkSize, chans, rows, row, n) && DataKept(h, h')
    ensures SignalsUpTo(h', z, chunkSize, chans, rows, row, n)
  {
    hide SignalIs, DataKept;
    forall ci | 0 <= ci < |chans|
      ensures SignalIs(h', z, chunkSize, chans[ci], ci, if ci < n && chans[ci].def.vlsd then rows + [row] else rows)
    {
      SignalKept(h, h', z, chunkSize, chans[ci], ci, if ci < n && chans[ci].def.vlsd then rows + [row] else rows);
    }
  }

  /** What the strings of the first n channels leave behind. */
  ghost predicate StringsDone(z: Zlib, chunkSize: nat, st: Store, h: Heap, chans: seq<Chan>, st': Store, h': Heap,
                              cs: seq<Chan>, cs0: seq<Chan>, rows: seq<Row>, row: Row, rec: Bytes, n: nat)
    requires n <= |cs0|
  {
    && Appended(st, h, st', h') && SameChans(cs, cs0)
    && SignalsUpTo(h', z, chunkSize, cs, rows, row, n)
    && rec == Stamped(cs0, rows, row, n)
    && (SignalsBuffered(cs) ==> st' == st && SignalsBuffered(chans))
    && (!SignalsBuffered(cs) && SignalsBuffered(chans) ==> st'.End() > st.End())
    && (!SignalsBuffered(chans) ==> !SignalsBuffered(cs))
    && (st' != st ==> DataAt(h', AlignUp(st.End())))
  }

  /** The strings of a record, channel by channel: streams are extended, offsets stamped into the record. */
  lemma {:induction false} StringsWritten(z: Zlib, cfg: Config, st: Store, h: Heap, chans: seq<Chan>, cs0: seq<Chan>,
                                          rows: seq<Row>, row: Row, n: nat) returns (h': Heap)
    requires StoreInv(st, h) && cfg.chunkSize > 0 && SameChans(chans, cs0) && n <= |chans| == |row.strings|
    requires SignalsAre(h, z, cfg.chunkSize, chans, rows)
    requires forall i :: 0 <= i < |chans| ==> |chans[i].sd.id| == 4
    ensures var (st', cs, rec) := AppendStrings(z, cfg, st, chans, row.rec, row.strings, n);
            n <= |cs0| && StringsDone(z, cfg.chunkSize, st, h, chans, st', h', cs, cs0, rows, row, rec, n)
  {
    hide StoreInv, Appended, SignalIs, StreamIs, AppendStream, TextStream, LE, Ext, WriteAt, AlignUp, DataAt;
    if n == 0 {
      AppendedSelf(st, h);
      h' := h;
      return;
    }
    hide StringsDone;
    var h1 := StringsWritten(z, cfg, st, h, chans, cs0, rows, row, n - 1);
    var (st1, cs, rec1) := AppendStrings(z, cfg, st, chans, row.rec, row.strings, n - 1);
    if cs[n - 1].def.vlsd {
      h' := StringsStep(z, cfg, st, h, chans, st1, h1, cs, cs0, rows, row, rec1, n);
    } else {
      FixedStep(z, cfg.chunkSize, st, h, chans, st1, h1, cs, cs0, rows, row, rec1, n);
      h' := h1;
    }
  }

  lemma FixedStep(z: Zlib, chunkSize: nat, st: Store, h: Heap, chans: seq<Chan>, st1: Store, h1: Heap, cs: seq<Chan>,
                  cs0: seq<Chan>, rows: seq<Row>, row: Row, rec1: Bytes, n: nat)
    requires 0 < n <= |cs0| == |cs| && !cs[n - 1].def.vlsd
    requires StringsDone(z, chunkSize, st, h, chans, st1, h1, cs, cs0, rows, row, rec1, n - 1)
    ensures StringsDone(z, chunkSize, st, h, chans, st1, h1, cs, cs0, rows, row, rec1, n)
  {
    hide Appended, SignalIs, SignalsBuffered, WriteAt, TextStream, AlignUp, DataAt;
  }

  lemma StringsStep(z: Zlib, cfg: Config, st: Store, h: Heap, chans: seq<Chan>, st1: Store, h1: Heap, cs: seq<Chan>,
                    cs0: seq<Chan>, rows: seq<Row>, row: Row, rec1: Bytes, n: nat) returns (h': Heap)
    requires StoreInv(st, h) && cfg.chunkSize > 0 && 0 < n <= |cs0| == |cs| == |row.strings| && cs[n - 1].def.vlsd
    requires StringsDone(z, cfg.chunkSize, st, h, chans, st1, h1, cs, cs0, rows, row, rec1, n - 1)
    requires |cs[n - 1].sd.id| == 4
    ensures var c, s := cs[n - 1], row.strings[n - 1];
            var rec2 := WriteAt(rec1, c.def.field.byteOffset, LE(c.sd.total, 8));
            var (st2, sd2) := AppendStream(z, cfg, st1, c.sd, LE(|s|, 4));
            var (st3, sd3) := AppendStream(z, cfg, st2, sd2, s);
            StringsDone(z, cfg.chunkSize, st, h, chans, st3, h', cs[n - 1 := c.(sd := sd3)], cs0, rows, row, rec2, n)
  {
    hide StoreInv, Appended, SignalIs, StreamIs, AppendStream, TextStream, LE, Ext, WriteAt, AlignUp, DataAt;
    hide SignalsBuffered, DataKept;
    var c := cs[n - 1];
    AppendedInv(st, h, st1, h1);
    assert SignalIs(h1, z, cfg.chunkSize, c, n - 1, rows);
    hide SignalsUpTo;
    h' := StringWritten(z, cfg, st1, h1, c, n - 1, rows, row);
    var (st2, sd2) := AppendStream(z, cfg, st1, c.sd, LE(|row.strings[n - 1]|, 4));
    StreamShape(z, cfg, st1, c.sd, LE(|row.strings[n - 1]|, 4));
    var (st3, sd3) := AppendStream(z, cfg, st2, sd2, row.strings[n - 1]);
    AppendedTrans(st, h, st1, h1, st3, h');
    AddressesKept(st1, h1, st3, h');
    AppendedInv(st1, h1, st3, h');
    ExtKeepsData(h1, h');
    SignalsUpToKept(h1, h', z, cfg.chunkSize, cs, rows, row, n - 1);
    OneMoreSignal(h', z, cfg.chunkSize, cs, rows, row, n, sd3);
    BufferedStep(cs, n - 1, sd3);
    if SignalsBuffered(cs) {
      BufferedOne(cs, n - 1);
    }
  }

  lemma BufferedOne(cs: seq<Chan>, k: nat)
    requires SignalsBuffered(cs) && k < |cs|
    ensures cs[k].sd.segs == []
  {
  }

  lemma OneMoreSignal(h: Heap, z: Zlib, chunkSize: nat, cs: seq<Chan>, rows: seq<Row>, row: Row, n: nat, sd: Stream)
    requires 0 < n <= |cs| && cs[n - 1].def.vlsd
    requires SignalsUpTo(h, z, chunkSize, cs, rows, row, n - 1)
    requires SignalIs(h, z, chunkSize, cs[n - 1].(sd := sd), n - 1, rows + [row])
    ensures SignalsUpTo(h, z, chunkSize, cs[n - 1 := cs[n - 1].(sd := sd)], rows, row, n)
  {
    hide SignalIs;
  }

  lemma BufferedStep(cs: seq<Chan>, k: nat, sd: Stream)
    requires k < |cs| && (sd.segs == cs[k].sd.segs || |sd.segs| > 0)
    ensures var cs' := cs[k := cs[k].(sd := sd)];
            && (SignalsBuffered(cs') ==> SignalsBuffered(cs) || (cs[k].sd.segs != [] && sd.segs == []))
            && (sd.segs == cs[k].sd.segs ==> (SignalsBuffered(cs') <==> SignalsBuffered(cs)))
            && (sd.segs != [] ==> !SignalsBuffered(cs'))
  {
    var cs' := cs[k := cs[k].(sd := sd)];
    if SignalsBuffered(cs') && sd.segs == cs[k].sd.segs {
      forall i | 0 <= i < |cs| ensures cs[i].sd.segs == [] {
        assert cs'[i].sd.segs == [];
      }
    }
    if sd.segs != [] {
      assert cs'[k].sd.segs != [];
    }
  }

  // ---- one record ----

  lemma UpToAll(h: Heap, z: Zlib, chunkSize: nat, cs: seq<Chan>, rows: seq<Row>, row: Row)
    requires SignalsUpTo(h, z, chunkSize, cs, rows, row, |cs|)
    ensures SignalsAre(h, z, chunkSize, cs, rows + [row])
  {
    hide StreamIs;
    forall ci | 0 <= ci < |cs|
      ensures SignalIs(h, z, chunkSize, cs[ci], ci, rows + [row])
    {
      assert SignalIs(h, z, chunkSize, cs[ci], ci, if ci < |cs| && cs[ci].def.vlsd then rows + [row] else rows);
    }
  }

  ghost predicate RowFits(row: Row, g0: Group) {
    |row.rec| == g0.recSize && |row.strings| == |g0.chans|
  }

  /** Appending a record in the chunked layout. */
  lemma ChunkedRecord(z: Zlib, cfg: Config, st: Store, h: Heap, g: Group, g0: Group, rows: seq<Row>, row: Row)
    returns (h': Heap)
    requires StoreInv(st, h) && cfg.chunkSize > 0 && GroupIs(h, z, cfg, false, g, g0, rows) && RowFits(row, g0)
    requires TypedGroup(g) && g0.recSize > 0
    ensures var (st1, chans, rec) := AppendStrings(z, cfg, st, g.chans, row.rec, row.strings, |g.chans|);
            var (st2, data) := AppendStream(z, cfg, st1, g.data, rec);
            && Appended(st, h, st2, h')
            && GroupIs(h', z, cfg, false, g.(chans := chans, count := g.count + 1, data := data), g0, rows + [row])
  {
    hide StoreInv, Appended, StreamIs, SignalsAre, SignalsUpTo, AppendStrings, AppendStream, DataStream, Ext, DataKept;
    hide FieldsInside, StoredRow;
    var h1 := StringsWritten(z, cfg, st, h, g.chans, g0.chans, rows, row, |g.chans|);
    var (st1, chans, rec) := AppendStrings(z, cfg, st, g.chans, row.rec, row.strings, |g.chans|);
    AppendedInv(st, h, st1, h1);
    ExtKeepsData(h, h1);
    StreamExt(h, h1, z, g.data, cfg.chunkSize, DataStream(g0.chans, rows));
    StampedLength(g0.chans, rows, row, |g0.chans|);
    h' := AppendWritten(z, cfg, st1, h1, g.data, rec, DataStream(g0.chans, rows));
    var (st2, data) := AppendStream(z, cfg, st1, g.data, rec);
    AppendedInv(st1, h1, st2, h');
    ExtKeepsData(h1, h');
    AppendedTrans(st, h, st1, h1, st2, h');
    UpToAll(h1, z, cfg.chunkSize, chans, rows, row);
    SignalsKept(h1, h', z, cfg.chunkSize, chans, rows + [row]);
    DataSnoc(g0.chans, rows, row);
    assert StoredRow(g0.chans, rows, row) == Stamped(g0.chans, rows, row, |g0.chans|) by {
      StoredRowIs(g0.chans, rows, row);
    }
  }

  lemma StoredRowIs(chans: seq<Chan>, rows: seq<Row>, row: Row)
    ensures StoredRow(chans, rows, row) == Stamped(chans, rows, row, |chans|)
  {
  }

  /** Appending a record in the growing layout: it goes straight to the end of the file. */
  lemma GrowingRecord(z: Zlib, s: State, h: Heap, g0: Group, rows: seq<Row>, row: Row) returns (h': Heap)
    requires StoreInv(s.store, h) && s.cfg.chunkSize > 0 && |s.groups| == 1
    requires GroupIs(h, z, s.cfg, true, s.groups[0], g0, rows) && RowFits(row, g0) && TypedGroup(s.groups[0])
    requires GrowIs(s, h, g0, rows)
    ensures var g := s.groups[0];
            var (st1, chans, rec) := AppendStrings(z, s.cfg, s.store, g.chans, row.rec, row.strings, |g.chans|);
            var st2 := st1.Append(rec);
            var g' := g.(chans := chans, count := g.count + 1);
            && Appended(s.store, h, st2, h')
            && GroupIs(h', z, s.cfg, true, g', g0, rows + [row])
            && GrowIs(s.(store := st2, groups := [g'], growBytes := s.growBytes + |rec|), h', g0, rows + [row])
  {
    hide StoreInv, Appended, StreamIs, SignalsAre, SignalsUpTo, AppendStrings, AppendStream, DataStream, DataKept;
    hide FieldsInside, StoredRow, GrowIs, SignalsBuffered, Ext;
    var g := s.groups[0];
    var h1 := StringsWritten(z, s.cfg, s.store, h, g.chans, g0.chans, rows, row, |g.chans|);
    var (st1, chans, rec) := AppendStrings(z, s.cfg, s.store, g.chans, row.rec, row.strings, |g.chans|);
    AppendedInv(s.store, h, st1, h1);
    StampedLength(g0.chans, rows, row, |g0.chans|);
    AppendedBytes(st1, h1, rec);
    h' := h1;
    var st2 := st1.Append(rec);
    AppendedTrans(s.store, h, st1, h1, st2, h');
    UpToAll(h1, z, s.cfg.chunkSize, chans, rows, row);
    DataSnoc(g0.chans, rows, row);
    StoredRowIs(g0.chans, rows, row);
    GrowStep(s, h, st1, h1, g0, rows, row, chans, rec);
  }

  lemma GrowStep(s: State, h: Heap, st1: Store, h1: Heap, g0: Group, rows: seq<Row>, row: Row, chans: seq<Chan>,
                 rec: Bytes)
    requires GrowIs(s, h, g0, rows) && Appended(s.store, h, st1, h1) && StoreInv(s.store, h)
    requires DataStream(g0.chans, rows + [row]) == DataStream(g0.chans, rows) + rec
    requires SignalsBuffered(chans) ==> st1 == s.store && SignalsBuffered(s.groups[0].chans)
    requires !SignalsBuffered(chans) && SignalsBuffered(s.groups[0].chans) ==> st1.End() > s.store.End()
    requires !SignalsBuffered(s.groups[0].chans) ==> !SignalsBuffered(chans)
    requires st1 != s.store ==> DataAt(h1, AlignUp(s.store.End()))
    ensures var g' := s.groups[0].(chans := chans, count := s.groups[0].count + 1);
            GrowIs(s.(store := st1.Append(rec), groups := [g'], growBytes := s.growBytes + |rec|), h1, g0, rows + [row])
  {
    hide SignalsBuffered, DataStream, Encode, StoreInv;
    var data := DataStream(g0.chans, rows);
    if SignalsBuffered(chans) {
      InRangeOf(st1, h1);
      AppendImage(st1, rec);
      ImageLength(st1);
      AtAppend(st1.Image(), rec, s.growAddr + 24, data);
      AtConcat(st1.Append(rec).Image(), s.growAddr + 24, data, rec);
      assert st1.Append(rec).Image()[s.growAddr + 24 + |data|..] == rec;
      forall a | a in h1
        ensures a + Size(h1[a]) <= s.growAddr + 24
      {
        if a !in h {
          assert a >= s.store.End();
          HeapInside(st1, h1, a);
        }
      }
    } else if SignalsBuffered(s.groups[0].chans) {
      assert (rows + [row])[..|rows|] == rows;
      assert Stops(h1, s.growAddr, g0.chans, rows + [row], |rows|);
    } else {
      var k: nat :| Stops(h, s.growAddr, g0.chans, rows, k);
      AddressesKept(s.store, h, st1, h1);
      assert (rows + [row])[..k] == rows[..k];
      assert Stops(h1, s.growAddr, g0.chans, rows + [row], k);
    }
  }

  lemma HeapInside(st: Store, h: Heap, a: nat)
    requires StoreInv(st, h) && a in h
    ensures a + 24 <= st.End()
  {
    BlockInside(st, h, a);
  }
}
