/** Appending whole columns: one record object, reused for every row, gives the history of single appends. */
module Batch {
  import opened Wire
  import opened Zip
  import opened WriterSpec
  import opened RowStamps
  import opened WriterObject
  import RO = RecordObject

  /** The values of one channel. A float carries its double and its single precision pattern. */
  datatype Column =
    | Floats(ch: nat, f: seq<(nat, nat)>)
    | Ints(ch: nat, i: seq<int>)
    | Uints(ch: nat, u: seq<nat>)
    | Texts(ch: nat, s: seq<Bytes>)
  {
    function Count(): nat {
      match this
      case Floats(_, f) => |f|
      case Ints(_, i) => |i|
      case Uints(_, u) => |u|
      case Texts(_, s) => |s|
    }
  }

  /** The channel takes values of this kind. */
  predicate Accepts(d: ChanDef, col: Column) {
    match col
    case Floats(_, _) => d.field.dataType == DT_FLOAT && (d.field.bitCount == 64 || d.field.bitCount == 32)
    case Ints(_, _) => d.field.dataType == DT_INT
    case Uints(_, _) => d.field.dataType == DT_UINT
    case Texts(_, _) => d.vlsd
  }

  /** Bytes of the record that a row of the column sets. */
  function CellWidth(d: ChanDef, col: Column): nat {
    if !Accepts(d, col) || col.Texts? then 0
    else if col.Floats? then d.field.bitCount / 8
    else RO.PutWidth(d.field.bitCount)
  }

  function CellBytes(d: ChanDef, col: Column, row: nat): (r: Bytes)
    requires row < col.Count()
    ensures |r| == CellWidth(d, col)
  {
    if !Accepts(d, col) then []
    else
      match col
      case Floats(_, f) => if d.field.bitCount == 64 then LE(f[row].0, 8) else LE(f[row].1, 4)
      case Ints(_, i) => LE(i[row] % TWO_64, RO.PutWidth(d.field.bitCount))
      case Uints(_, u) => LE(u[row], RO.PutWidth(d.field.bitCount))
      case Texts(_, _) => []
  }

  /** What a record object holds: its bytes, its texts, and whether a value had the wrong type. */
  datatype Row = Row(buf: Bytes, strings: seq<Bytes>, failed: bool)

  function SetCell(defs: seq<ChanDef>, r: Row, col: Column, row: nat): Row
    requires col.ch < |defs| == |r.strings| && row < col.Count()
  {
    var d := defs[col.ch];
    if !Accepts(d, col) then r.(failed := true)
    else if col.Texts? then r.(strings := r.strings[col.ch := col.s[row]])
    else r.(buf := WriteAt(r.buf, d.field.byteOffset, CellBytes(d, col, row)))
  }

  /** The columns name channels, and every set field lies inside the record. */
  ghost predicate Fit(defs: seq<ChanDef>, size: nat, cols: seq<Column>, rows: nat) {
    && OffsetsInside(defs, size)
    && (forall c :: 0 <= c < |cols| ==>
          && cols[c].ch < |defs| && rows <= cols[c].Count()
          && RO.Settable(defs[cols[c].ch], size))
  }

  lemma WidthInside(d: ChanDef, col: Column, size: nat)
    requires RO.Settable(d, size) && (d.vlsd ==> d.field.byteOffset + 8 <= size)
    ensures d.field.byteOffset + CellWidth(d, col) <= size
  {
  }

  function SetCells(defs: seq<ChanDef>, r: Row, cols: seq<Column>, n: nat, row: nat): (out: Row)
    requires n <= |cols| && |r.strings| == |defs|
    requires forall c :: 0 <= c < |cols| ==> cols[c].ch < |defs| && row < cols[c].Count()
    ensures |out.strings| == |defs|
  {
    if n == 0 then r else SetCell(defs, SetCells(defs, r, cols, n - 1, row), cols[n - 1], row)
  }

  function BlankRow(defs: seq<ChanDef>, size: nat): (r: Row)
    ensures |r.buf| == size && |r.strings| == |defs|
  {
    Row(Zeros(size), seq(|defs|, _ => []), false)
  }

  /** One row of the columns; what they do not provide is zero or empty. */
  function RowOf(defs: seq<ChanDef>, size: nat, cols: seq<Column>, row: nat): (r: Row)
    requires forall c :: 0 <= c < |cols| ==> cols[c].ch < |defs| && row < cols[c].Count()
    ensures |r.strings| == |defs|
  {
    SetCells(defs, BlankRow(defs, size), cols, |cols|, row)
  }

  /** The single appends a batch stands for. */
  function RowOps(gi: nat, defs: seq<ChanDef>, size: nat, cols: seq<Column>, rows: nat): (ops: seq<Op>)
    requires forall c :: 0 <= c < |cols| ==> cols[c].ch < |defs| && rows <= cols[c].Count()
    ensures |ops| == rows
    ensures forall k :: 0 <= k < rows ==>
              ops[k] == Op.Append(gi, RowOf(defs, size, cols, k).buf, RowOf(defs, size, cols, k).strings)
  {
    seq(rows, k requires 0 <= k < rows =>
      Op.Append(gi, RowOf(defs, size, cols, k).buf, RowOf(defs, size, cols, k).strings))
  }

  ghost predicate Mistyped(defs: seq<ChanDef>, cols: seq<Column>, n: nat)
    requires n <= |cols| && forall c :: 0 <= c < |cols| ==> cols[c].ch < |defs|
  {
    exists c :: 0 <= c < n && !Accepts(defs[cols[c].ch], cols[c])
  }

  // ---- a used record and a blank one ----

  /** Byte k is set by a column from n on. */
  ghost predicate Reset(defs: seq<ChanDef>, cols: seq<Column>, n: nat, k: int)
    requires forall c :: 0 <= c < |cols| ==> cols[c].ch < |defs|
  {
    exists c :: n <= c < |cols|
                && defs[cols[c].ch].field.byteOffset <= k
                   < defs[cols[c].ch].field.byteOffset + CellWidth(defs[cols[c].ch], cols[c])
  }

  ghost predicate TextReset(cols: seq<Column>, n: nat, i: int) {
    exists c :: n <= c < |cols| && cols[c].Texts? && cols[c].ch == i
  }

  /** Two record objects that differ at most in string offsets and in what the columns from n on will set. */
  ghost predicate Alike(defs: seq<ChanDef>, cols: seq<Column>, n: nat, a: Row, b: Row)
    requires forall c :: 0 <= c < |cols| ==> cols[c].ch < |defs|
  {
    && |a.buf| == |b.buf| && |a.strings| == |b.strings| == |defs|
    && (forall k :: 0 <= k < |a.buf| && !InString(defs, 0, k) && !Reset(defs, cols, n, k) ==> a.buf[k] == b.buf[k])
    && (forall i :: 0 <= i < |defs| && !TextReset(cols, n, i) ==> a.strings[i] == b.strings[i])
  }

  lemma AlikeStep(defs: seq<ChanDef>, cols: seq<Column>, n: nat, a: Row, b: Row, row: nat)
    requires n < |cols| && Fit(defs, |a.buf|, cols, row + 1) && Alike(defs, cols, n, a, b)
    requires Accepts(defs[cols[n].ch], cols[n])
    ensures Alike(defs, cols, n + 1, SetCell(defs, a, cols[n], row), SetCell(defs, b, cols[n], row))
    ensures |SetCell(defs, a, cols[n], row).buf| == |a.buf|
  {
    hide WriteAt, InString, CellWidth, CellBytes, RO.Settable;
    var d, col := defs[cols[n].ch], cols[n];
    var a', b' := SetCell(defs, a, col, row), SetCell(defs, b, col, row);
    var x, off := CellBytes(d, col, row), d.field.byteOffset;
    WidthInside(d, col, |a.buf|);
    if col.Texts? {
      NoWidth(d, col);
    }
    forall k | 0 <= k < |a.buf|
      ensures |a'.buf| == |a.buf| == |b'.buf|
      ensures !InString(defs, 0, k) && !Reset(defs, cols, n + 1, k) ==> a'.buf[k] == b'.buf[k]
    {
      WriteAtByte(a.buf, off, x, k);
      WriteAtByte(b.buf, off, x, k);
      ResetSkips(defs, cols, n, k);
    }
    Lengths8(a.buf, off, x);
    Lengths8(b.buf, off, x);
    forall i | 0 <= i < |defs| && !TextReset(cols, n + 1, i)
      ensures a'.strings[i] == b'.strings[i]
    {
      if !(col.Texts? && col.ch == i) {
        assert !TextReset(cols, n, i);
      }
    }
  }

  lemma Lengths8(f: Bytes, off: nat, x: Bytes)
    requires off + |x| <= |f|
    ensures |WriteAt(f, off, x)| == |f|
  {
    hide WriteAt;
  }

  lemma NoWidth(d: ChanDef, col: Column)
    requires col.Texts?
    ensures CellWidth(d, col) == 0
  {
  }

  lemma ResetSkips(defs: seq<ChanDef>, cols: seq<Column>, n: nat, k: int)
    requires n < |cols| && forall c :: 0 <= c < |cols| ==> cols[c].ch < |defs|
    ensures var d := defs[cols[n].ch];
            !Reset(defs, cols, n + 1, k) && !(d.field.byteOffset <= k < d.field.byteOffset + CellWidth(d, cols[n]))
            ==> !Reset(defs, cols, n, k)
  {
    hide CellWidth;
  }

  /** Setting a row in a used record gives what setting it in a blank one gives, up to string offsets. */
  lemma {:induction false} AlikeRows(defs: seq<ChanDef>, cols: seq<Column>, n: nat, a: Row, b: Row, row: nat)
    requires n <= |cols| && Fit(defs, |a.buf|, cols, row + 1) && Alike(defs, cols, 0, a, b)
             && !Mistyped(defs, cols, |cols|)
    ensures var ra, rb := SetCells(defs, a, cols, n, row), SetCells(defs, b, cols, n, row);
            |ra.buf| == |a.buf| && Alike(defs, cols, n, ra, rb)
  {
    hide Fit, Alike, SetCell;
    FitFacts(defs, |a.buf|, cols, row + 1);
    AlikeLengths(defs, cols, 0, a, b);
    if n > 0 {
      AlikeRows(defs, cols, n - 1, a, b, row);
      AlikeStep(defs, cols, n - 1, SetCells(defs, a, cols, n - 1, row), SetCells(defs, b, cols, n - 1, row), row);
    }
  }

  lemma FitFacts(defs: seq<ChanDef>, size: nat, cols: seq<Column>, rows: nat)
    requires Fit(defs, size, cols, rows)
    ensures OffsetsInside(defs, size)
    ensures forall c :: 0 <= c < |cols| ==> cols[c].ch < |defs| && rows <= cols[c].Count()
  {
  }

  lemma AlikeLengths(defs: seq<ChanDef>, cols: seq<Column>, n: nat, a: Row, b: Row)
    requires (forall c :: 0 <= c < |cols| ==> cols[c].ch < |defs|) && Alike(defs, cols, n, a, b)
    ensures |a.buf| == |b.buf| && |a.strings| == |b.strings| == |defs|
  {
  }

  /** Setting a row keeps a used record alike to a blank one. */
  lemma {:induction false} StaysAlike(defs: seq<ChanDef>, cols: seq<Column>, n: nat, a: Row, b: Row, row: nat)
    requires n <= |cols| && Fit(defs, |a.buf|, cols, row + 1) && Alike(defs, cols, 0, a, b)
    ensures var r := SetCells(defs, a, cols, n, row); |r.buf| == |a.buf| && Alike(defs, cols, 0, r, b)
  {
    hide WriteAt, InString, CellWidth, CellBytes, RO.Settable;
    if n > 0 {
      StaysAlike(defs, cols, n - 1, a, b, row);
      var r, col := SetCells(defs, a, cols, n - 1, row), cols[n - 1];
      var d := defs[col.ch];
      var x := CellBytes(d, col, row);
      WidthInside(d, col, |a.buf|);
      Lengths8(r.buf, d.field.byteOffset, x);
      forall k | 0 <= k < |a.buf| && !Reset(defs, cols, 0, k)
        ensures WriteAt(r.buf, d.field.byteOffset, x)[k] == r.buf[k]
      {
        WriteAtByte(r.buf, d.field.byteOffset, x, k);
      }
    }
  }

  /** What an append stamps into the record keeps it alike. */
  lemma AlikeStamped(defs: seq<ChanDef>, cols: seq<Column>, a: Row, b: Row, stamped: Bytes)
    requires (forall c :: 0 <= c < |cols| ==> cols[c].ch < |defs|) && Alike(defs, cols, 0, a, b)
             && Differ(defs, 0, stamped, a.buf)
    ensures Alike(defs, cols, 0, a.(buf := stamped), b)
  {
    hide InString, Reset, TextReset;
  }

  lemma AlikeDone(defs: seq<ChanDef>, cols: seq<Column>, a: Row, b: Row)
    requires (forall c :: 0 <= c < |cols| ==> cols[c].ch < |defs|) && Alike(defs, cols, |cols|, a, b)
    ensures Differ(defs, 0, a.buf, b.buf) && a.strings == b.strings
  {
    hide InString;
  }

  lemma {:induction false} FailedIff(defs: seq<ChanDef>, r: Row, cols: seq<Column>, n: nat, row: nat)
    requires n <= |cols| && |r.strings| == |defs|
    requires forall c :: 0 <= c < |cols| ==> cols[c].ch < |defs| && row < cols[c].Count()
    ensures SetCells(defs, r, cols, n, row).failed == (r.failed || Mistyped(defs, cols, n))
  {
    hide Accepts, WriteAt, CellBytes;
    if n > 0 {
      FailedIff(defs, r, cols, n - 1, row);
    }
  }

  // ---- the batch ----

  lemma StepDefs(z: Zlib, s: State, op: Op, gi: nat)
    requires WellTyped(s) && LegalOp(s, op) && gi < |s.groups|
    ensures |Step(z, s, op).groups| == |s.groups|
    ensures DefsOf(Step(z, s, op).groups[gi].chans) == DefsOf(s.groups[gi].chans)
  {
    hide Begin, CanBegin, AppendStrings, AppendStream;
    StepShape(z, s, op);
    BegunDefs(s, gi);
    if op.Append? && (s.started || CanBegin(s)) {
      BeginTyped(s);
      var b := if s.started then s else Begin(s);
      TypedAt(b, op.g);
      AppendedDefs(z, b.cfg, b.store, b.groups[op.g].chans, op.rec, op.strings, |op.strings|);
    }
  }

  lemma RowOpsLegal(s: State, gi: nat, cols: seq<Column>, rows: nat)
    requires gi < |s.groups| && Fit(DefsOf(s.groups[gi].chans), s.groups[gi].recSize, cols, rows)
    ensures LegalOps(s, RowOps(gi, DefsOf(s.groups[gi].chans), s.groups[gi].recSize, cols, rows))
  {
    hide Fit, SetCells, Alike;
    var defs, size := DefsOf(s.groups[gi].chans), s.groups[gi].recSize;
    FitFacts(defs, size, cols, rows);
    forall k | 0 <= k < rows
      ensures |RowOf(defs, size, cols, k).buf| == size
    {
      FitLess(defs, size, cols, rows, k + 1);
      BlankAlike(defs, size, cols);
      StaysAlike(defs, cols, |cols|, BlankRow(defs, size), BlankRow(defs, size), k);
    }
  }

  lemma FitLess(defs: seq<ChanDef>, size: nat, cols: seq<Column>, rows: nat, k: nat)
    requires Fit(defs, size, cols, rows) && k <= rows
    ensures Fit(defs, size, cols, k)
  {
  }

  lemma BlankAlike(defs: seq<ChanDef>, size: nat, cols: seq<Column>)
    requires forall c :: 0 <= c < |cols| ==> cols[c].ch < |defs|
    ensures Alike(defs, cols, 0, BlankRow(defs, size), BlankRow(defs, size))
  {
  }

  function View(rec: RO.Record): Row
    reads rec, rec.buf
  {
    Row(rec.buf[..], rec.strings, rec.failed.Some?)
  }

  /** The setters of one row, column after column. */
  method SetColumns(rec: RO.Record, cols: seq<Column>, row: nat)
    requires |rec.strings| == |rec.chans| && Fit(rec.chans, rec.buf.Length, cols, row + 1)
    modifies rec`failed, rec`strings, rec.buf
    ensures View(rec) == SetCells(rec.chans, old(View(rec)), cols, |cols|, row)
  {
    hide WriteAt, LE, OffsetsInside;
    for c := 0 to |cols|
      invariant |rec.strings| == |rec.chans|
      invariant View(rec) == SetCells(rec.chans, old(View(rec)), cols, c, row)
    {
      match cols[c] {
        case Floats(ch, f) => var _ := rec.SetFloat64(ch, f[row].0, f[row].1);
        case Ints(ch, i) => var _ := rec.SetInt(ch, i[row]);
        case Uints(ch, u) => var _ := rec.SetUint(ch, u[row]);
        case Texts(ch, s) => rec.SetString(ch, s[row]);
      }
    }
  }

  predicate Enough(cols: seq<Column>, n: nat) {
    forall c :: 0 <= c < |cols| ==> n <= cols[c].Count()
  }

  lemma FitMore(defs: seq<ChanDef>, size: nat, cols: seq<Column>, n: nat)
    requires Fit(defs, size, cols, 0) && Enough(cols, n)
    ensures Fit(defs, size, cols, n)
  {
  }

  lemma StartsBlank(rec: RO.Record, defs: seq<ChanDef>, size: nat, cols: seq<Column>)
    requires rec.buf[..] == Zeros(size) && |rec.strings| == |defs| && rec.failed.None?
    requires forall i :: 0 <= i < |defs| ==> rec.strings[i] == []
    requires forall c :: 0 <= c < |cols| ==> cols[c].ch < |defs|
    ensures Alike(defs, cols, 0, View(rec), BlankRow(defs, size))
  {
    assert rec.strings == BlankRow(defs, size).strings;
    BlankAlike(defs, size, cols);
  }

  /** Appending the used record, filled with a row, is appending the row. */
  lemma RowReady(z: Zlib, s: State, gi: nat, defs: seq<ChanDef>, size: nat, cols: seq<Column>, used: Row, filled: Row,
                 row: nat)
    requires WellTyped(s) && gi < |s.groups| && DefsOf(s.groups[gi].chans) == defs
             && s.groups[gi].recSize == size == |used.buf|
    requires Fit(defs, size, cols, row + 1) && Alike(defs, cols, 0, used, BlankRow(defs, size))
             && !Mistyped(defs, cols, |cols|)
    requires |used.strings| == |defs| && forall c :: 0 <= c < |cols| ==> cols[c].ch < |defs| && row < cols[c].Count()
    requires filled == SetCells(defs, used, cols, |cols|, row)
    ensures |filled.buf| == size && |filled.strings| == |defs| && Alike(defs, cols, 0, filled, BlankRow(defs, size))
    ensures var clean := RowOf(defs, size, cols, row);
            && LegalOp(s, Op.Append(gi, filled.buf, filled.strings))
               && LegalOp(s, Op.Append(gi, clean.buf, clean.strings))
            && Step(z, s, Op.Append(gi, filled.buf, filled.strings))
               == Step(z, s, Op.Append(gi, clean.buf, clean.strings))
  {
    hide Fit, Alike, SetCells, Mistyped, Step, Differ, WellTyped;
    FitFacts(defs, size, cols, row + 1);
    var blank, clean := BlankRow(defs, size), RowOf(defs, size, cols, row);
    StaysAlike(defs, cols, |cols|, used, blank, row);
    AlikeRows(defs, cols, |cols|, used, blank, row);
    AlikeLengths(defs, cols, |cols|, filled, clean);
    AlikeDone(defs, cols, filled, clean);
    StepSame(z, s, gi, filled.buf, clean.buf, clean.strings);
  }

  lemma OpsSnoc(z: Zlib, s0: State, ops: seq<Op>, row: nat)
    requires WellTyped(s0) && LegalOps(s0, ops) && row < |ops|
    ensures LegalOps(s0, ops[..row + 1]) && LegalOp(Run(z, s0, ops[..row]), ops[row])
    ensures Run(z, s0, ops[..row + 1]) == Step(z, Run(z, s0, ops[..row]), ops[row])
  {
    hide Step, WellTyped;
    assert ops[..row + 1][..row] == ops[..row];
    assert LegalOp(s0, ops[row]);
  }

  lemma NoRows(z: Zlib, s: State, ops: seq<Op>)
    requires WellTyped(s)
    ensures LegalOps(s, ops[..0]) && Run(z, s, ops[..0]) == s
  {
  }

  lemma AfterRow(z: Zlib, s0: State, ops: seq<Op>, row: nat, s: State, gi: nat)
    requires WellTyped(s0) && LegalOps(s0, ops) && row < |ops| && s == Run(z, s0, ops[..row]) && gi < |s.groups|
    ensures LegalOps(s0, ops[..row + 1]) && WellTyped(s) && LegalOp(s, ops[row])
    ensures var t := Step(z, s, ops[row]);
            && t == Run(z, s0, ops[..row + 1]) && |t.groups| == |s.groups|
            && DefsOf(t.groups[gi].chans) == DefsOf(s.groups[gi].chans)
            && t.groups[gi].recSize == s.groups[gi].recSize
  {
    hide Step, WellTyped, LegalOps, Run, LegalOp;
    OpsSnoc(z, s0, ops, row);
    StepDefs(z, s, ops[row], gi);
    StepShape(z, s, ops[row]);
  }

  /** What a batch of n rows makes of a writer: it succeeds exactly when every column has a value for every
      row and, when
      there are rows, every column has the type of its channel and rows can be appended at all. Then its rows were
      appended one by one. Too few values or a column of the wrong type leave the writer untouched. */
  ghost predicate Batched(z: Zlib, s: State, gi: nat, n: nat, cols: seq<Column>, ok: bool, t: State)
    requires WellTyped(s) && gi < |s.groups| && Fit(DefsOf(s.groups[gi].chans), s.groups[gi].recSize, cols, 0)
  {
    var defs, size := DefsOf(s.groups[gi].chans), s.groups[gi].recSize;
    && (ok <==> Enough(cols, n)
                && (n == 0 || (!Mistyped(defs, cols, |cols|) && (s.started || CanBegin(s)) && !s.closed)))
    && (!Enough(cols, n) || (n > 0 && Mistyped(defs, cols, |cols|)) ==> t == s)
    && (ok ==> LegalOps(s, RowOps(gi, defs, size, cols, n))
               && t == Run(z, s, RowOps(gi, defs, size, cols, n)))
  }

  /** AppendColumns: the state afterwards is the one after the single appends of blank records set row by row, although
      one record is reused and every append stamps string offsets into it. Too few values or a column of the wrong type
      leave the writer untouched. */
  method AppendColumns(w: Writer, gi: nat, n: nat, cols: seq<Column>) returns (ok: bool)
    requires w.Valid() && gi < |w.groups|
    requires Fit(DefsOf(w.groups[gi].chans), w.groups[gi].recSize, cols, 0)
    modifies w
    ensures w.Valid() && Batched(w.z, old(w.State()), gi, n, cols, ok, w.State())
  {
    hide Fit, Begin, CanBegin, Step, WellTyped, StringsInside, Alike, SetCells, Mistyped, RowOps, Differ, Run, LegalOps;
    ghost var s0, size := w.State(), w.groups[gi].recSize;
    var defs := DefsOf(w.groups[gi].chans);
    for c := 0 to |cols|
      invariant forall j :: 0 <= j < c ==> n <= cols[j].Count()
    {
      if cols[c].Count() < n {
        return false;
      }
    }
    FitMore(defs, size, cols, n);
    FitFacts(defs, size, cols, n);
    RowOpsLegal(s0, gi, cols, n);
    ghost var ops := RowOps(gi, defs, size, cols, n);
    var rec := new RO.Record(defs, w.groups[gi].recSize);
    StartsBlank(rec, defs, size, cols);
    NoRows(w.z, s0, ops);
    for row := 0 to n
      invariant w.Valid() && |w.groups| == |s0.groups| && DefsOf(w.groups[gi].chans) == defs
                && w.groups[gi].recSize == size
      invariant LegalOps(s0, ops[..row]) && w.State() == Run(w.z, s0, ops[..row])
      invariant rec.buf.Length == size && |rec.strings| == |defs| && rec.failed.None?
      invariant Alike(defs, cols, 0, View(rec), BlankRow(defs, size))
      invariant row > 0 ==>
                w.started && !w.closed && !Mistyped(defs, cols, |cols|) && (s0.started || CanBegin(s0)) && !s0.closed
    {
      ghost var before, used := w.State(), View(rec);
      FitLess(defs, size, cols, n, row + 1);
      SetColumns(rec, cols, row);
      FailedIff(defs, used, cols, |cols|, row);
      if rec.failed.Some? {
        return false;
      }
      ghost var filled := View(rec);
      RowReady(w.z, before, gi, defs, size, cols, used, filled, row);
      ok := w.Append(gi, rec.buf, rec.strings);
      if !ok {
        return;
      }
      AfterRow(w.z, s0, ops, row, before, gi);
      AlikeStamped(defs, cols, filled, BlankRow(defs, size), rec.buf[..]);
    }
    assert ops[..n] == ops;
    ok := true;
  }
}
