/** From extracted samples to the column a caller gets: widening, conversion in place, virtual channels and the
    master. */
module Signals {
  import opened Wire
  import opened Numbers
  import opened Conversions
  import R = Records
  import W = Windows

  /** Floating-point bits, integers and texts as the language reads them. */
  datatype Platform = Platform(lib: Library, float: (nat, nat) -> Number, whole: int -> Number,
                               text: (nat, Bytes) -> string)

  /** A virtual channel has no record data: its samples are record numbers. */
  datatype Channel = Stored(spec: R.Spec, conv: Option<Rule>) | Virtual(conv: Option<Rule>)

  datatype Column = Floats(floats: seq<Number>) | Texts(texts: seq<string>) | Values(values: seq<R.Value>)

  // ---- columns ----

  function Widened(pf: Platform, v: R.Value): Number {
    match v
    case Unsigned(u) => pf.whole(u)
    case Signed(x) => pf.whole(x)
    case Float(width, bits) => pf.float(width, bits)
    case Chars(_) => NaN
  }

  function TextOf(pf: Platform, dataType: nat, v: R.Value): string {
    if v.Chars? then pf.text(dataType, v.bytes) else ""
  }

  /** A conversion with numbers on its input side takes numeric samples as floating-point values. */
  predicate AsFloat(raw: bool, dataType: nat, conv: Option<Rule>) {
    !raw && dataType <= R.FLOAT_BE && conv.Some? && (Textual(conv.value) || !TextInput(conv.value))
  }

  function Each<S, T>(f: S -> T, xs: seq<S>): (r: seq<T>)
    ensures |r| == |xs| && forall i :: 0 <= i < |xs| ==> r[i] == f(xs[i])
  {
    seq(|xs|, i requires 0 <= i < |xs| => f(xs[i]))
  }

  lemma EachJoin<S, T>(f: S -> T, a: seq<S>, b: seq<S>)
    ensures Each(f, a + b) == Each(f, a) + Each(f, b)
  {
  }

  /** The column as it is extracted. */
  function Extracted(pf: Platform, raw: bool, dataType: nat, conv: Option<Rule>, values: seq<R.Value>): Column {
    if R.FLOAT_LE <= dataType <= R.FLOAT_BE
       || AsFloat(raw, dataType, conv) then Floats(Each(v => Widened(pf, v), values))
    else if R.STRING_FIRST <= dataType <= R.STRING_LAST then Texts(Each(v => TextOf(pf, dataType, v), values))
    else Values(values)
  }

  function FloatColumn(r: Option<seq<Number>>): Option<Column> {
    if r.Some? then Some(Floats(r.value)) else None
  }

  function TextColumn(r: Option<seq<string>>): Option<Column> {
    if r.Some? then Some(Texts(r.value)) else None
  }

  /** The column after its conversion; none when the rule fails on a sample or has no operation for such columns. */
  function Applied(pf: Platform, raw: bool, conv: Option<Rule>, col: Column): Option<Column> {
    if raw || conv.None? then Some(col)
    else
      var c := conv.value;
      if Textual(c) && col.Floats? then TextColumn(TextsOf(pf.lib, c, col.floats))
      else if Textual(c) && col.Texts? then
        if c.TextText? then Some(Texts(ReplacedAll(c, col.texts))) else None
      else if c.FromText? && col.Texts? then Some(Floats(ValuesOf(c, col.texts)))
      else if col.Floats? then FloatColumn(Converted(conv, col.floats))
      else Some(col)
  }

  /** One column behind another of the same kind. */
  function Behind(a: Column, b: Column): Column {
    match (a, b)
    case (Floats(x), Floats(y)) => Floats(x + y)
    case (Texts(x), Texts(y)) => Texts(x + y)
    case (Values(x), Values(y)) => Values(x + y)
    case _ => a
  }

  predicate SameKind(a: Column, b: Column) {
    a.Floats? == b.Floats? && a.Texts? == b.Texts?
  }

  ghost predicate Splits(whole: Option<Column>, a: Option<Column>, b: Option<Column>) {
    && (a.Some? && b.Some? ==> SameKind(a.value, b.value))
    && whole == if a.Some? && b.Some? then Some(Behind(a.value, b.value)) else None
  }

  lemma ExtractedJoin(pf: Platform, raw: bool, dataType: nat, conv: Option<Rule>, a: seq<R.Value>, b: seq<R.Value>)
    ensures var x, y := Extracted(pf, raw, dataType, conv, a), Extracted(pf, raw, dataType, conv, b);
            SameKind(x, y) && Extracted(pf, raw, dataType, conv, a + b) == Behind(x, y)
  {
    hide Widened, TextOf;
  }

  /** Converting two columns one behind the other is converting each of them. */
  lemma AppliedJoin(pf: Platform, raw: bool, conv: Option<Rule>, a: Column, b: Column)
    requires SameKind(a, b)
    ensures Splits(Applied(pf, raw, conv, Behind(a, b)), Applied(pf, raw, conv, a), Applied(pf, raw, conv, b))
  {
    hide One, Text, Collected;
    if raw || conv.None? {
      return;
    }
    var c := conv.value;
    if a.Floats? && Textual(c) {
      TextsJoin(pf, c, a.floats, b.floats);
    } else if a.Floats? {
      ConvertedJoin(conv, a.floats, b.floats);
    } else if a.Texts? && c.TextText? {
      assert ReplacedAll(c, a.texts + b.texts) == ReplacedAll(c, a.texts) + ReplacedAll(c, b.texts);
    } else if a.Texts? && c.FromText? {
      assert ValuesOf(c, a.texts + b.texts) == ValuesOf(c, a.texts) + ValuesOf(c, b.texts);
    }
  }

  lemma TextsJoin(pf: Platform, c: Rule, a: seq<Number>, b: seq<Number>)
    ensures TextsOf(pf.lib, c, a + b) == Both(TextsOf(pf.lib, c, a), TextsOf(pf.lib, c, b))
  {
    hide Text;
    assert TextResults(pf.lib, c, a + b) == TextResults(pf.lib, c, a) + TextResults(pf.lib, c, b);
    CollectedJoin(TextResults(pf.lib, c, a), TextResults(pf.lib, c, b));
  }

  lemma ConvertedJoin(conv: Option<Rule>, a: seq<Number>, b: seq<Number>)
    ensures Converted(conv, a + b) == Both(Converted(conv, a), Converted(conv, b))
  {
    hide One;
    assert Results(conv, a + b) == Results(conv, a) + Results(conv, b);
    CollectedJoin(Results(conv, a), Results(conv, b));
  }

  // ---- one channel over n records ----

  function Indices(pf: Platform, from: nat, n: nat): (r: seq<Number>)
    ensures |r| == n && forall i :: 0 <= i < n ==> r[i] == pf.whole(from + i)
  {
    seq(n, i => pf.whole(from + i))
  }

  /** The samples of n records are there and can be extracted. */
  ghost predicate Extracts(s: R.Spec, recSize: nat, content: Bytes, at: nat, n: nat) {
    && s.dataType <= R.BYTES_LAST
    && (n == 0 || (recSize > 0 && at + n <= W.Held(content, recSize) && R.Extractable(s, recSize)))
  }

  ghost function Samples(s: R.Spec, recSize: nat, content: Bytes, at: nat, n: nat): seq<R.Value>
    requires Extracts(s, recSize, content, at, n)
  {
    if n == 0 then [] else R.Values(s, W.Window(content, recSize, at, n))
  }

  /** The column one read of n records from record `at` on gives. */
  ghost function Reading(pf: Platform, raw: bool, ch: Channel, recSize: nat, content: Bytes, at: nat,
                         n: nat): Option<Column>
  {
    match ch
    case Virtual(conv) => FloatColumn(Converted(if raw then None else conv, Indices(pf, at, n)))
    case Stored(s, conv) =>
      if Extracts(s, recSize, content, at, n) then
        Applied(pf, raw, conv, Extracted(pf, raw, s.dataType, conv, Samples(s, recSize, content, at, n)))
      else None
  }

  lemma SamplesJoin(s: R.Spec, recSize: nat, content: Bytes, at: nat, n: nat, k: nat)
    ensures Extracts(s, recSize, content, at, n + k)
            <==> Extracts(s, recSize, content, at, n) && Extracts(s, recSize, content, at + n, k)
    ensures Extracts(s, recSize, content, at, n + k) ==>
              Samples(s, recSize, content, at, n + k)
                  == Samples(s, recSize, content, at, n) + Samples(s, recSize, content, at + n, k)
  {
    hide R.Extractable, R.Sample, W.Window, W.Held;
    if Extracts(s, recSize, content, at, n + k) && n > 0 && k > 0 {
      W.WindowGrows(content, recSize, at, n, k);
    }
  }

  /** Two reads over consecutive records give the samples of one read over all of them. */
  lemma ReadingJoin(pf: Platform, raw: bool, ch: Channel, recSize: nat, content: Bytes, at: nat, n: nat, k: nat)
    ensures Splits(Reading(pf, raw, ch, recSize, content, at, n + k), Reading(pf, raw, ch, recSize, content, at, n),
                   Reading(pf, raw, ch, recSize, content, at + n, k))
  {
    hide Applied, Extracted, Converted, Extracts, Samples, SameKind, Behind;
    match ch
    case Virtual(conv) =>
      VirtualJoin(pf, raw, conv, at, n, k);
    case Stored(s, conv) =>
      SamplesJoin(s, recSize, content, at, n, k);
      if Extracts(s, recSize, content, at, n + k) {
        var a, b := Samples(s, recSize, content, at, n), Samples(s, recSize, content, at + n, k);
        ExtractedJoin(pf, raw, s.dataType, conv, a, b);
        AppliedJoin(pf, raw, conv, Extracted(pf, raw, s.dataType, conv, a), Extracted(pf, raw, s.dataType, conv, b));
      }
  }

  lemma VirtualJoin(pf: Platform, raw: bool, conv: Option<Rule>, at: nat, n: nat, k: nat)
    ensures var c := if raw then None else conv;
            Splits(FloatColumn(Converted(c, Indices(pf, at, n + k))), FloatColumn(Converted(c, Indices(pf, at, n))),
                   FloatColumn(Converted(c, Indices(pf, at + n, k))))
  {
    hide Converted;
    assert Indices(pf, at, n + k) == Indices(pf, at, n) + Indices(pf, at + n, k);
    ConvertedJoin(if raw then None else conv, Indices(pf, at, n), Indices(pf, at + n, k));
  }

  // ---- the signals of a group ----

  /** Which channels of a group are read, which one is its master, and how. */
  datatype Plan = Plan(pf: Platform, raw: bool, members: seq<Channel>, chans: seq<nat>, master: Option<nat>,
                       recSize: nat)

  predicate Sound(p: Plan) {
    (forall i :: 0 <= i < |p.chans| ==> p.chans[i] < |p.members|) && (p.master.Some? ==> p.master.value < |p.members|)
  }

  /** A column as time values; texts and bytes give none. */
  function TimeValues(pf: Platform, ch: Channel, col: Column): Option<seq<Number>> {
    match col
    case Floats(f) => Some(f)
    case Texts(_) => None
    case Values(values) =>
      if ch.Stored? && ch.spec.dataType <= R.INT_BE then Some(Each(v => Widened(pf, v), values)) else None
  }

  /** The samples of a channel, the master's values for the same records, and the number of the first record. */
  datatype Signal = Signal(column: Column, time: Option<seq<Number>>, offset: nat)

  /** The master of n records, always converted. */
  ghost function MasterReading(p: Plan, content: Bytes, at: nat, n: nat): Option<Column>
    requires Sound(p) && p.master.Some?
  {
    Reading(p.pf, false, p.members[p.master.value], p.recSize, content, at, n)
  }

  ghost function ChannelReading(p: Plan, content: Bytes, at: nat, n: nat, i: nat): Option<Column>
    requires Sound(p) && i < |p.chans|
  {
    Reading(p.pf, p.raw, p.members[p.chans[i]], p.recSize, content, at, n)
  }

  /** The master and every requested channel can be read over these records. */
  ghost predicate CanRead(p: Plan, content: Bytes, at: nat, n: nat)
    requires Sound(p)
  {
    && (p.master.Some? ==> MasterReading(p, content, at, n).Some?)
    && forall i :: 0 <= i < |p.chans| ==> ChannelReading(p, content, at, n, i).Some?
  }

  function SignalTime(p: Plan, chan: nat, col: Column, master: Option<Column>): Option<seq<Number>>
    requires Sound(p)
  {
    if p.master.None? || master.None? then None
    else if p.master.value == chan && col.Floats? then Some(col.floats)
    else TimeValues(p.pf, p.members[p.master.value], master.value)
  }

  /** The signal one read over n records from record `at` on gives. */
  ghost function SignalOf(p: Plan, content: Bytes, at: nat, n: nat, i: nat): Signal
    requires Sound(p) && i < |p.chans| && CanRead(p, content, at, n)
  {
    var col := ChannelReading(p, content, at, n, i).value;
    var master := if p.master.Some? then MasterReading(p, content, at, n) else None;
    Signal(col, SignalTime(p, p.chans[i], col, master), at)
  }

  function JoinTimes(a: Option<seq<Number>>, b: Option<seq<Number>>): Option<seq<Number>> {
    if a.Some? && b.Some? then Some(a.value + b.value) else None
  }

  function JoinSignals(a: Signal, b: Signal): Signal {
    Signal(Behind(a.column, b.column), JoinTimes(a.time, b.time), a.offset)
  }

  /** Windows of the same channels, one behind the other. */
  lemma CanReadJoin(p: Plan, content: Bytes, at: nat, n: nat, k: nat)
    requires Sound(p)
    ensures CanRead(p, content, at, n + k) <==> CanRead(p, content, at, n) && CanRead(p, content, at + n, k)
  {
    hide Reading, SameKind, Behind;
    var whole, next := n + k, at + n;
    if p.master.Some? {
      ReadingJoin(p.pf, false, p.members[p.master.value], p.recSize, content, at, n, k);
    }
    forall i | 0 <= i < |p.chans|
      ensures ChannelReading(p, content, at, whole, i).Some?
              <==> ChannelReading(p, content, at, n, i).Some? && ChannelReading(p, content, next, k, i).Some?
    {
      ReadingJoin(p.pf, p.raw, p.members[p.chans[i]], p.recSize, content, at, n, k);
    }
    assert CanRead(p, content, at, whole) <==> CanRead(p, content, at, n) && CanRead(p, content, next, k);
  }

  /** The signals of two consecutive windows joined are the signals of one read: samples, times and offset. */
  lemma SignalsJoin(p: Plan, content: Bytes, at: nat, n: nat, k: nat, i: nat)
    requires Sound(p) && i < |p.chans| && CanRead(p, content, at, n) && CanRead(p, content, at + n, k)
    requires CanRead(p, content, at, n + k)
    ensures SignalOf(p, content, at, n + k, i)
            == JoinSignals(SignalOf(p, content, at, n, i), SignalOf(p, content, at + n, k, i))
  {
    hide Reading;
    ReadingJoin(p.pf, p.raw, p.members[p.chans[i]], p.recSize, content, at, n, k);
    if p.master.Some? {
      ReadingJoin(p.pf, false, p.members[p.master.value], p.recSize, content, at, n, k);
      TimeValuesJoin(p.pf, p.members[p.master.value], MasterReading(p, content, at, n).value,
                     MasterReading(p, content, at + n, k).value);
    }
  }

  lemma TimeValuesJoin(pf: Platform, ch: Channel, a: Column, b: Column)
    requires SameKind(a, b)
    ensures TimeValues(pf, ch, Behind(a, b)) == JoinTimes(TimeValues(pf, ch, a), TimeValues(pf, ch, b))
  {
    hide Widened;
    if a.Values? {
      EachJoin(v => Widened(pf, v), a.values, b.values);
      if ch.Stored? && ch.spec.dataType <= R.INT_BE {
        assert TimeValues(pf, ch, Behind(a, b)).value == TimeValues(pf, ch, a).value + TimeValues(pf, ch, b).value;
      }
    }
  }

  // ---- alignment ----

  function Length(col: Column): nat {
    match col
    case Floats(f) => |f|
    case Texts(t) => |t|
    case Values(v) => |v|
  }

  /** A read over n records gives n samples. */
  lemma ReadingLength(pf: Platform, raw: bool, ch: Channel, recSize: nat, content: Bytes, at: nat, n: nat)
    requires Reading(pf, raw, ch, recSize, content, at, n).Some?
    ensures Length(Reading(pf, raw, ch, recSize, content, at, n).value) == n
  {
    hide Widened, TextOf, One, Text, W.Held, R.Extractable, R.Sample, AsFloat;
  }

  /** Samples and times of a signal are aligned one to one. */
  lemma SignalAligned(p: Plan, content: Bytes, at: nat, n: nat, i: nat)
    requires Sound(p) && i < |p.chans| && CanRead(p, content, at, n)
    ensures var s := SignalOf(p, content, at, n, i);
            Length(s.column) == n && s.offset == at && (s.time.Some? ==> |s.time.value| == n)
  {
    hide Reading;
    assert ChannelReading(p, content, at, n, i).Some?;
    ReadingLength(p.pf, p.raw, p.members[p.chans[i]], p.recSize, content, at, n);
    if p.master.Some? {
      ReadingLength(p.pf, false, p.members[p.master.value], p.recSize, content, at, n);
    }
  }

  // ---- invalidation flags ----

  /** The flags that come with a read; virtual channels have none. */
  ghost function ChannelFlags(ch: Channel, recSize: nat, content: Bytes, at: nat, n: nat): seq<bool>
    requires ch.Stored? ==> Extracts(ch.spec, recSize, content, at, n)
  {
    if ch.Virtual? || n == 0 || !R.FlagsKept(ch.spec, recSize) then []
    else R.Flags(ch.spec, W.Window(content, recSize, at, n))
  }

  lemma FlagsJoin(ch: Channel, recSize: nat, content: Bytes, at: nat, n: nat, k: nat)
    requires ch.Stored? ==> Extracts(ch.spec, recSize, content, at, n) && Extracts(ch.spec, recSize, content, at + n, k)
    requires ch.Stored? ==> Extracts(ch.spec, recSize, content, at, n + k)
    ensures ChannelFlags(ch, recSize, content, at, n + k)
            == ChannelFlags(ch, recSize, content, at, n) + ChannelFlags(ch, recSize, content, at + n, k)
  {
    hide R.Extractable, R.Flagged, R.FlagsKept, W.Window, W.Held;
    if ch.Stored? && n > 0 && k > 0 && R.FlagsKept(ch.spec, recSize) {
      W.WindowGrows(content, recSize, at, n, k);
    }
  }

  // ---- the operations ----

  /** applyConversion: numbers are converted within their own array. */
  method ApplyConversion(pf: Platform, raw: bool, conv: Option<Rule>, col: Column) returns (r: Option<Column>)
    ensures r == Applied(pf, raw, conv, col)
  {
    hide Converted, TextsOf;
    if raw || conv.None? {
      return Some(col);
    }
    var c := conv.value;
    if Textual(c) && col.Floats? {
      var texts := ToTexts(pf.lib, c, col.floats);
      return TextColumn(texts);
    }
    if Textual(c) && col.Texts? {
      if !c.TextText? {
        return None;
      }
      var texts := ReplaceTexts(c, col.texts);
      return Some(Texts(texts));
    }
    if TextInput(c) && col.Texts? {
      var floats := FromTexts(c, col.texts);
      return Some(Floats(floats));
    }
    if col.Floats? {
      var floats := ConvertInPlace(conv, col.floats);
      return FloatColumn(floats);
    }
    r := Some(col);
  }

  method ConvertInPlace(conv: Option<Rule>, xs: seq<Number>) returns (r: Option<seq<Number>>)
    ensures r == Converted(conv, xs)
  {
    hide Converted;
    var column := new Number[|xs|](i requires 0 <= i < |xs| => xs[i]);
    assert column[..] == xs;
    var ok := Convert(conv, column, column);
    assert column[..column.Length] == column[..];
    r := if ok then Some(column[..]) else None;
  }

  /** readVirtual: the record numbers, converted unless they are wanted raw. */
  method ReadVirtual(pf: Platform, raw: bool, conv: Option<Rule>, from: nat, count: nat) returns (r: Option<Column>)
    ensures r == FloatColumn(Converted(if raw then None else conv, Indices(pf, from, count)))
  {
    hide Converted;
    var vals: seq<Number> := [];
    for i := 0 to count
      invariant vals == Indices(pf, from, i)
    {
      vals := vals + [pf.whole(from + i)];
    }
    if raw {
      Untouched(vals);
      return Some(Floats(vals));
    }
    var floats := ConvertInPlace(conv, vals);
    r := FloatColumn(floats);
  }

  lemma Untouched(xs: seq<Number>)
    ensures Converted(None, xs) == Some(xs)
  {
    assert Collected(Results(None, xs)).value == xs;
  }
}
