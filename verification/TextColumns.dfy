/** String channels all the way: from the texts of any history, through Close and Open, back to the texts. */
module TextColumns {
  import opened Wire
  import opened Zip
  import opened WriterSpec
  import opened Runs
  import opened History
  import opened TreeProof
  import opened Tree
  import opened RoundTrip
  import opened Limits
  import R = Records
  import RO = RecordObject
  import V = Vlsd
  import W = Windows

  /** How the reader extracts a string channel: the offset in the record, as an unsigned number. */
  function OffsetSpec(c: ChannelView): R.Spec {
    R.Spec(R.UINT_LE, c.field.byteOffset, c.bitOffset, c.field.bitCount, None, 0)
  }

  function Numbers(offsets: seq<nat>): (r: seq<R.Value>)
    ensures |r| == |offsets| && forall i :: 0 <= i < |offsets| ==> r[i] == R.Unsigned(offsets[i])
  {
    seq(|offsets|, i requires 0 <= i < |offsets| => R.Unsigned(offsets[i]))
  }

  /** Reading a string channel of an opened file: extract the offsets from all records of the data section, resolve them
      in the section of signal data. */
  ghost predicate TextColumnReads(f: Bytes, z: Zlib, v: GroupView, ci: nat, texts: seq<Bytes>) {
    && ci < |v.channels| && v.recordSize > 0 && R.Extractable(OffsetSpec(v.channels[ci]), v.recordSize)
    && exists data, text, offsets ::
         && SectionIs(f, z, v.data, false, data) && SectionIs(f, z, v.channels[ci].data, false, text)
         && W.Held(data, v.recordSize) == v.recordCount
         && R.Values(OffsetSpec(v.channels[ci]), W.AllRecords(data, v.recordSize)) == Numbers(offsets)
         && V.ResolveColumn(v.channels[ci].data, text, offsets) == Ok(texts)
  }

  // ---- records ----

  /** String fields of a defined group do not overlap what follows them. */
  lemma TextsApart(g: Group)
    requires FreshGroup(g)
    ensures V.FieldsApart(g.chans) && FieldsInside(g.chans, g.recSize)
  {
    StringsLie(g);
    TiledInside(g.chans, g.recSize);
    forall i, j | 0 <= i < j < |g.chans| && g.chans[i].def.vlsd
      ensures g.chans[i].def.field.byteOffset + 8 <= g.chans[j].def.field.byteOffset
    {
      assert FreshChan(g.chans[i]);
    }
  }

  lemma {:induction false} StoredRowAt(chans: seq<Chan>, rows: seq<Row>, i: nat)
    requires i < |rows|
    ensures StoredRows(chans, rows)[i] == StoredRow(chans, rows[..i], rows[i])
  {
    hide StoredRow;
    var init := rows[..|rows| - 1];
    if i < |init| {
      StoredRowAt(chans, init, i);
      assert init[..i] == rows[..i];
    }
  }

  /** The records of the data section are the stored rows. */
  lemma RecordsAreRows(chans: seq<Chan>, rows: seq<Row>, recSize: nat)
    requires recSize > 0 && FieldsInside(chans, recSize) && RowsFit(rows, recSize, |chans|)
    ensures W.Held(DataStream(chans, rows), recSize) == |rows|
    ensures W.AllRecords(DataStream(chans, rows), recSize) == StoredRows(chans, rows)
  {
    StoredLengths(chans, rows, recSize);
    hide StoredRows, DataStream;
    var data := DataStream(chans, rows);
    ModUnique(|data|, recSize, |rows|, 0);
    forall i | 0 <= i < |rows|
      ensures W.AllRecords(data, recSize)[i] == StoredRows(chans, rows)[i]
    {
      PieceIs(chans, rows, recSize, i);
    }
  }

  lemma PieceIs(chans: seq<Chan>, rows: seq<Row>, recSize: nat, i: nat)
    requires FieldsInside(chans, recSize) && RowsFit(rows, recSize, |chans|) && i < |rows|
    ensures |rows| * recSize <= |DataStream(chans, rows)|
    ensures R.Piece(DataStream(chans, rows), recSize, |rows|, i) == StoredRows(chans, rows)[i]
  {
    StoredLengths(chans, rows, recSize);
    ConcatUniform(StoredRows(chans, rows), recSize);
    R.PieceInside(recSize, |rows|, i);
  }

  /** The sample of a string channel is the length of its signal data before the row. */
  lemma OffsetSample(chans: seq<Chan>, rows: seq<Row>, c: ChannelView, ci: nat, i: nat)
    requires ci < |chans| && i < |rows| && chans[ci].def.vlsd && V.FieldsApart(chans)
    requires FieldsInside(chans, |rows[i].rec|)
    requires c.field == chans[ci].def.field && c.bitOffset == 0 && c.field.bitCount == 64
    requires |TextStream(rows[..i], ci)| < TWO_64
    ensures |StoredRow(chans, rows[..i], rows[i])| == |rows[i].rec|
    ensures var rec := StoredRow(chans, rows[..i], rows[i]);
            R.Extractable(OffsetSpec(c), |rec|)
                && R.Sample(OffsetSpec(c), rec) == R.Unsigned(|TextStream(rows[..i], ci)|)
  {
    hide LE, FromLE, TextStream, Stamped, R.Sample, R.Extractable;
    V.OffsetStored(chans, rows[..i], rows[i], ci, |chans|);
    var n := |TextStream(rows[..i], ci)|;
    var d := chans[ci].def.(field := chans[ci].def.field.(dataType := DT_UINT));
    RO.FieldSample(d, StoredRow(chans, rows[..i], rows[i]), LE(n, 8));
    LE8(n);
  }

  lemma OffsetsExtracted(g: Group, rows: seq<Row>, c: ChannelView, ci: nat)
    requires FreshGroup(g) && ci < |g.chans| && g.chans[ci].def.vlsd && RowsFit(rows, g.recSize, |g.chans|)
    requires c.field == g.chans[ci].def.field && c.bitOffset == 0 && |TextStream(rows, ci)| < TWO_63
    ensures R.Extractable(OffsetSpec(c), g.recSize) && W.Held(DataStream(g.chans, rows), g.recSize) == |rows|
    ensures R.Values(OffsetSpec(c), W.AllRecords(DataStream(g.chans, rows), g.recSize)) == Numbers(V.Offsets(rows, ci))
  {
    hide TextStream, DataStream, StoredRow, R.Sample, W.AllRecords, W.Held;
    TextsApart(g);
    assert FreshChan(g.chans[ci]);
    RecordsAreRows(g.chans, rows, g.recSize);
    OffsetSpecFits(g, c, ci);
    var recs := StoredRows(g.chans, rows);
    forall i | 0 <= i < |rows|
      ensures R.Extractable(OffsetSpec(c), |recs[i]|)
              && R.Sample(OffsetSpec(c), recs[i]) == R.Unsigned(V.Offsets(rows, ci)[i])
    {
      StoredRowAt(g.chans, rows, i);
      V.PrefixStream(rows, ci, i);
      OffsetSample(g.chans, rows, c, ci, i);
    }
  }

  lemma OffsetSpecFits(g: Group, c: ChannelView, ci: nat)
    requires FieldsInside(g.chans, g.recSize) && ci < |g.chans| && g.chans[ci].def.vlsd
    requires c.field == g.chans[ci].def.field && c.bitOffset == 0 && c.field.bitCount == 64
    ensures R.Extractable(OffsetSpec(c), g.recSize)
  {
  }

  // ---- the round trip ----

  lemma ColumnReads(f: Bytes, z: Zlib, v: GroupView, g: Group, rows: seq<Row>, ci: nat)
    requires GroupReads(f, z, v, g, rows) && FreshGroup(g) && ci < |g.chans| && g.chans[ci].def.vlsd
    requires RowsFit(rows, g.recSize, |g.chans|) && |TextStream(rows, ci)| < TWO_63
    requires forall i :: 0 <= i < |rows| ==> |Text(rows[i], ci)| < TWO_32
    ensures TextColumnReads(f, z, v, ci, V.Texts(rows, ci)) <==> rows != []
  {
    hide TextStream, DataStream, SectionIs, W.Held, R.Values, R.Extractable, V.Offsets, V.Texts;
    var c, data, text, offsets := v.channels[ci], DataStream(g.chans, rows), TextStream(rows, ci), V.Offsets(rows, ci);
    OffsetsExtracted(g, rows, c, ci);
    V.StringColumn(c.data, rows, ci);
    if rows != [] {
      assert SectionIs(f, z, v.data, false, data) && SectionIs(f, z, c.data, false, text)
             && W.Held(data, v.recordSize) == v.recordCount
             && R.Values(OffsetSpec(c), W.AllRecords(data, v.recordSize)) == Numbers(offsets)
             && V.ResolveColumn(c.data, text, offsets) == Ok(V.Texts(rows, ci));
    }
  }

  /** For every history and every string channel: after Close, the reader gets exactly the texts that were appended, in
      order, if and only if there is a row. */
  lemma TextsRoundTrip(env: Env, s0: State, ops: seq<Op>, gi: nat, ci: nat)
    requires Defined(s0) && WellTyped(s0) && LegalOps(s0, ops) && CanBegin(s0) && Lossless(env.z)
    requires forall i :: 0 <= i < |s0.groups| ==> LegibleGroup(s0.groups[i])
    requires Expressible(env.z, s0, ops) && ShortTexts(s0, ops)
    requires gi < |s0.groups| && ci < |s0.groups[gi].chans| && s0.groups[gi].chans[ci].def.vlsd
    requires forall i :: 0 <= i < |RowsOf(ops, gi)| ==> |Text(RowsOf(ops, gi)[i], ci)| < TWO_32
    ensures var r := Open(env, Close(env.z, Run(env.z, s0, ops)).store.disk);
            && r.Ok? && |r.value.groups| == |s0.groups|
            && (TextColumnReads(Close(env.z, Run(env.z, s0, ops)).store.disk, env.z, r.value.groups[gi], ci,
                                V.Texts(RowsOf(ops, gi), ci))
                <==> RowsOf(ops, gi) != [])
  {
    hide Begin, CanBegin, LegibleGroup, Lossless, Run, Close, Open, GroupReads, TextColumnReads, TextStream, DataStream;
    hide RowsOf, ShortTexts, Recorded, FreshGroup, LegalOps, WellTyped, V.Texts;
    CloseThenOpen(env, s0, ops);
    RowsLegal(s0, ops, gi);
    var f := Close(env.z, Run(env.z, s0, ops)).store.disk;
    ColumnReads(f, env.z, Open(env, f).value.groups[gi], s0.groups[gi], RowsOf(ops, gi), ci);
  }

  // ---- the first row ----

  ghost predicate TextInFront(chans: seq<Chan>) {
    chans != [] && chans[0].def.vlsd && chans[0].def.field.byteOffset == 0
  }

  /** With a string channel in front and one row, whatever its bytes, the growing file reads back if and only if no text
      fills a chunk. */
  lemma FirstTextBreaks(env: Env, s0: State, ops: seq<Op>)
    requires |s0.groups| == 1 && TextInFront(s0.groups[0].chans) && |RowsOf(ops, 0)| == 1 && Recordable(env, s0, ops)
    ensures ClosedReads(env, s0, ops) <==> ShortTexts(s0, ops)
  {
    hide Defined, CanBegin, LegibleGroup, Lossless, Expressible, ShortTexts, ClosedReads, Markless, WellTyped, RowsOf;
    FirstMarkless(s0, ops);
    MarklessReadsIff(env, s0, ops);
  }

  lemma FirstMarkless(s0: State, ops: seq<Op>)
    requires Defined(s0) && LegalOps(s0, ops) && |s0.groups| == 1 && |RowsOf(ops, 0)| == 1
    requires TextInFront(s0.groups[0].chans)
    ensures Markless(s0.groups[0].chans, RowsOf(ops, 0))
  {
    hide LE, Stamped, RowsOf;
    var g, rows := s0.groups[0], RowsOf(ops, 0);
    assert FreshGroup(g);
    TextsApart(g);
    RowsLegal(s0, ops, 0);
    assert rows[..0] == [] && TextStream([], 0) == [];
    V.OffsetStored(g.chans, [], rows[0], 0, |g.chans|);
    ZeroBytes();
    var rec := StoredRow(g.chans, rows[..0], rows[0]);
    forall b | 0 <= b < 8 && b < |rec|
      ensures rec[b] != 0x23
    {
      assert rec[0..8][b] == LE(0, 8)[b];
    }
  }

  lemma ZeroBytes()
    ensures forall b :: 0 <= b < 8 ==> LE(0, 8)[b] == 0
  {
  }
}
