/** Decoding a bus log: frames are matched to database messages, and every signal gathers its samples. */
module Bus {
  import opened Wire
  import D = Dbc

  /** A signal definition; muxValue is negative when the signal is not multiplexed. */
  datatype SigDef = SigDef(name: string, bits: D.Signal, isMultiplexer: bool, muxValue: int,
                           table: Option<map<int, string>>) {
    predicate Multiplexed() { muxValue >= 0 }
  }

  datatype Message = Message(name: string, signals: seq<SigDef>)

  /** Messages of one database by identifier and extended flag. */
  type Database = map<(nat, bool), Message>

  datatype Key = Key(bus: int, id: nat, ext: bool)

  datatype Frame = Frame(key: Key, payload: Bytes, time: int)

  /** A standard identifier also matches an extended message. */
  function FindMessage(db: Database, id: nat, ext: bool): Option<Message> {
    if (id, ext) in db then Some(db[(id, ext)])
    else if !ext && (id, true) in db then Some(db[(id, true)])
    else None
  }

  /** The first database that knows the identifier decides. */
  function FirstMatch(dbs: seq<Database>, id: nat, ext: bool): Option<Message> {
    if dbs == [] then None
    else
      var m := FindMessage(dbs[0], id, ext);
      if m.Some? then m else FirstMatch(dbs[1..], id, ext)
  }

  /** The switch signal of a message is its first multiplexer. */
  function Switch(signals: seq<SigDef>): Option<D.Signal> {
    if signals == [] then None
    else if signals[0].isMultiplexer then Some(signals[0].bits)
    else Switch(signals[1..])
  }

  /** Signals that are decoded: all but multiplexers that are themselves multiplexed. */
  function Decoded(signals: seq<SigDef>): seq<SigDef> {
    if signals == [] then []
    else
      var init, last := signals[..|signals| - 1], signals[|signals| - 1];
      if last.isMultiplexer && last.Multiplexed() then Decoded(init) else Decoded(init) + [last]
  }

  // ---- one signal ----

  /** The raw value a frame holds for a signal: the switch must select it and the payload must be long enough. */
  function RawOf(m: Message, d: SigDef, payload: Bytes): Option<nat> {
    if d.Multiplexed() && D.MuxValueOf(Switch(m.signals), payload) != Some(d.muxValue) then None
    else D.Raw(d.bits, payload)
  }

  datatype Sample = Sample(time: int, raw: nat)

  /** The samples of a signal are the frames of its key that hold a value for it, in order. */
  function Selected(m: Message, d: SigDef, k: Key, frames: seq<Frame>): seq<Sample> {
    if frames == [] then []
    else
      var init, last := frames[..|frames| - 1], frames[|frames| - 1];
      var r := RawOf(m, d, last.payload);
      if last.key == k && r.Some? then Selected(m, d, k, init) + [Sample(last.time, r.value)]
      else Selected(m, d, k, init)
  }

  function SignedValue(d: SigDef, raw: nat): int {
    if 0 < d.bits.length <= 64 then D.SignedRaw(d.bits, raw) else AsInt64(raw)
  }

  /** Text of a raw value; a value outside the table has the empty one. */
  function TextOf(d: SigDef, raw: nat): string {
    if d.table.Some? && SignedValue(d, raw) in d.table.value then d.table.value[SignedValue(d, raw)] else ""
  }

  function Times(s: seq<Sample>): (r: seq<int>)
    ensures |r| == |s| && forall i :: 0 <= i < |s| ==> r[i] == s[i].time
  {
    seq(|s|, i requires 0 <= i < |s| => s[i].time)
  }

  function Raws(s: seq<Sample>): (r: seq<nat>)
    ensures |r| == |s| && forall i :: 0 <= i < |s| ==> r[i] == s[i].raw
  {
    seq(|s|, i requires 0 <= i < |s| => s[i].raw)
  }

  function Texts(d: SigDef, s: seq<Sample>): (r: seq<string>)
    ensures |r| == |s| && forall i :: 0 <= i < |s| ==> r[i] == TextOf(d, s[i].raw)
  {
    seq(|s|, i requires 0 <= i < |s| => TextOf(d, s[i].raw))
  }

  function OwnFrames(k: Key, frames: seq<Frame>): seq<Frame> {
    if frames == [] then []
    else
      var init, last := frames[..|frames| - 1], frames[|frames| - 1];
      if last.key == k then OwnFrames(k, init) + [last] else OwnFrames(k, init)
  }

  /** Frames of other keys, wherever they stand in the log, make no difference to a signal. */
  lemma {:induction false} OthersIrrelevant(m: Message, d: SigDef, k: Key, frames: seq<Frame>)
    ensures Selected(m, d, k, OwnFrames(k, frames)) == Selected(m, d, k, frames)
  {
    hide RawOf;
    if frames != [] {
      var init, last := frames[..|frames| - 1], frames[|frames| - 1];
      OthersIrrelevant(m, d, k, init);
      if last.key == k {
        assert (OwnFrames(k, init) + [last])[..|OwnFrames(k, init)|] == OwnFrames(k, init);
      }
    }
  }

  // ---- accumulated state ----

  /** Columns of one signal; texts are kept for signals with a value table only. */
  datatype Columns = Columns(times: seq<int>, raws: seq<nat>, texts: Option<seq<string>>)

  datatype BusMessage = BusMessage(msg: Message, defs: seq<SigDef>, columns: seq<Columns>)

  function ColumnsOf(d: SigDef, s: seq<Sample>): Columns {
    Columns(Times(s), Raws(s), if d.table.Some? then Some(Texts(d, s)) else None)
  }

  /** What a fresh search and a filter over all frames give for a key. */
  function Expected(dbs: seq<Database>, k: Key, frames: seq<Frame>): Option<BusMessage> {
    match FirstMatch(dbs, k.id, k.ext)
    case None => None
    case Some(m) =>
      var defs := Decoded(m.signals);
      Some(BusMessage(m, defs,
                      seq(|defs|, i requires 0 <= i < |defs| => ColumnsOf(defs[i], Selected(m, defs[i], k, frames)))))
  }

  /** All three columns of a signal have one entry per selected frame. */
  lemma ColumnsAligned(dbs: seq<Database>, k: Key, frames: seq<Frame>, i: nat)
    requires Expected(dbs, k, frames).Some? && i < |Expected(dbs, k, frames).value.defs|
    ensures var bm := Expected(dbs, k, frames).value;
            && |bm.columns| == |bm.defs|
            && |bm.columns[i].times| == |bm.columns[i].raws|
            && (bm.columns[i].texts.Some? <==> bm.defs[i].table.Some?)
            && (bm.columns[i].texts.Some? ==> |bm.columns[i].texts.value| == |bm.columns[i].times|)
  {
  }

  /** A frame of another key changes nothing. */
  lemma OtherKey(dbs: seq<Database>, k: Key, frames: seq<Frame>, f: Frame)
    requires f.key != k
    ensures Expected(dbs, k, frames + [f]) == Expected(dbs, k, frames)
  {
    assert (frames + [f])[..|frames|] == frames;
    var a, b := Expected(dbs, k, frames + [f]), Expected(dbs, k, frames);
    if a.Some? {
      assert a.value.columns == b.value.columns;
    }
  }

  /** Before the first frame of a key nothing was selected for it. */
  lemma {:induction false} NothingSelected(m: Message, d: SigDef, k: Key, frames: seq<Frame>)
    requires forall i :: 0 <= i < |frames| ==> frames[i].key != k
    ensures Selected(m, d, k, frames) == []
  {
    if frames != [] {
      NothingSelected(m, d, k, frames[..|frames| - 1]);
    }
  }

  /** One more frame of the signal's own key. */
  function Extended(m: Message, d: SigDef, c: Columns, payload: Bytes, time: int): Columns {
    match RawOf(m, d, payload)
    case None => c
    case Some(raw) =>
      Columns(c.times + [time], c.raws + [raw], if c.texts.Some? then Some(c.texts.value + [TextOf(d, raw)]) else None)
  }

  lemma ExtendedIs(m: Message, d: SigDef, k: Key, frames: seq<Frame>, f: Frame)
    requires f.key == k
    ensures ColumnsOf(d, Selected(m, d, k, frames + [f]))
            == Extended(m, d, ColumnsOf(d, Selected(m, d, k, frames)), f.payload, f.time)
  {
    hide RawOf, TextOf;
    assert (frames + [f])[..|frames|] == frames;
    var s := Selected(m, d, k, frames);
    var r := RawOf(m, d, f.payload);
    if r.Some? {
      var t := s + [Sample(f.time, r.value)];
      assert Times(t) == Times(s) + [f.time] && Raws(t) == Raws(s) + [r.value];
      assert Texts(d, t) == Texts(d, s) + [TextOf(d, r.value)];
    }
  }

  /** Every key that occurred has an entry, which is what a fresh search and a filter give. */
  ghost predicate Accumulated(dbs: seq<Database>, msgs: map<Key, Option<BusMessage>>, frames: seq<Frame>) {
    && (forall i :: 0 <= i < |frames| ==> frames[i].key in msgs)
    && (forall k :: k in msgs ==> msgs[k] == Expected(dbs, k, frames))
  }

  class Accumulator {
    const dbs: seq<Database>
    /** Decoder state by key; None remembers that no database knows the identifier. */
    var msgs: map<Key, Option<BusMessage>>
    ghost var frames: seq<Frame>

    ghost predicate Valid()
      reads this
    {
      Accumulated(dbs, msgs, frames)
    }

    constructor (dbs: seq<Database>)
      ensures Valid() && this.dbs == dbs && frames == []
    {
      this.dbs, msgs, frames := dbs, map[], [];
    }

    /** The entry of a key: the cached one, or a fresh search in database order, which is cached either way. */
    method Lookup(k: Key) returns (bm: Option<BusMessage>)
      requires Valid()
      modifies this`msgs
      ensures Valid() && k in msgs && bm == msgs[k] == Expected(dbs, k, frames)
    {
      hide Selected;
      if k in msgs {
        return msgs[k];
      }
      var found: Option<Message> := None;
      var i := 0;
      while i < |dbs| && found.None?
        invariant 0 <= i <= |dbs|
        invariant FirstMatch(dbs, k.id, k.ext) == if found.Some? then found else FirstMatch(dbs[i..], k.id, k.ext)
      {
        found := FindMessage(dbs[i], k.id, k.ext);
        i := i + 1;
      }
      if found.None? {
        msgs := msgs[k := None];
        return None;
      }
      var m := found.value;
      var defs: seq<SigDef> := [];
      var columns: seq<Columns> := [];
      for j := 0 to |m.signals|
        invariant defs == Decoded(m.signals[..j]) && |columns| == |defs|
        invariant forall n :: 0 <= n < |defs| ==> columns[n] == ColumnsOf(defs[n], [])
      {
        assert m.signals[..j + 1][..j] == m.signals[..j];
        var d := m.signals[j];
        if !(d.isMultiplexer && d.Multiplexed()) {
          defs := defs + [d];
          columns := columns + [Columns([], [], if d.table.Some? then Some([]) else None)];
          assert ColumnsOf(d, []) == Columns([], [], if d.table.Some? then Some([]) else None);
        }
      }
      assert m.signals[..|m.signals|] == m.signals;
      FreshColumns(m, defs, k);
      assert columns == seq(|defs|, i requires 0 <= i < |defs| => ColumnsOf(defs[i], []));
      bm := Some(BusMessage(m, defs, columns));
      msgs := msgs[k := bm];
    }

    lemma FreshColumns(m: Message, defs: seq<SigDef>, k: Key)
      requires Valid() && k !in msgs && FirstMatch(dbs, k.id, k.ext) == Some(m) && defs == Decoded(m.signals)
      ensures Expected(dbs, k, frames).Some?
      ensures Expected(dbs, k, frames).value
              == BusMessage(m, defs, seq(|defs|, i requires 0 <= i < |defs| => ColumnsOf(defs[i], [])))
    {
      hide ColumnsOf;
      forall i | 0 <= i < |frames|
        ensures frames[i].key != k
      {
      }
      forall i | 0 <= i < |defs|
        ensures Selected(m, defs[i], k, frames) == []
      {
        NothingSelected(m, defs[i], k, frames);
      }
      assert Expected(dbs, k, frames).value.columns
             == seq(|defs|, i requires 0 <= i < |defs| => ColumnsOf(defs[i], []));
    }

    /** decode: every selected signal of the message gains one sample. */
    method Decode(bm: BusMessage, payload: Bytes, time: int) returns (columns: seq<Columns>)
      requires |bm.columns| == |bm.defs|
      ensures |columns| == |bm.defs|
      ensures forall i :: 0 <= i < |columns| ==>
              columns[i] == Extended(bm.msg, bm.defs[i], bm.columns[i], payload, time)
    {
      var mux := D.MuxValueOf(Switch(bm.msg.signals), payload);
      columns := bm.columns;
      for i := 0 to |bm.defs|
        invariant |columns| == |bm.defs|
        invariant forall j :: 0 <= j < i ==> columns[j] == Extended(bm.msg, bm.defs[j], bm.columns[j], payload, time)
        invariant forall j :: i <= j < |columns| ==> columns[j] == bm.columns[j]
      {
        var d := bm.defs[i];
        if !d.Multiplexed() || mux == Some(d.muxValue) {
          var raw := D.Extract(d.bits, payload);
          if raw.Some? {
            var c := columns[i];
            columns := columns[i := Columns(c.times + [time], c.raws + [raw.value],
                                            if c.texts.Some? then Some(c.texts.value + [TextOf(d, raw.value)])
                                               else None)];
          }
        }
      }
    }

    /** One frame of the log. */
    method AddFrame(f: Frame)
      requires Valid()
      modifies this
      ensures Valid() && frames == old(frames) + [f]
    {
      hide Expected, Extended;
      ghost var before := frames;
      var bm := Lookup(f.key);
      if bm.Some? {
        EntryShape(dbs, f.key, before);
        var columns := Decode(bm.value, f.payload, f.time);
        OwnKey(dbs, f.key, before, f, columns);
        msgs := msgs[f.key := Some(bm.value.(columns := columns))];
      } else {
        NoMessage(dbs, f.key, before, f);
      }
      frames := frames + [f];
      forall k | k in msgs
        ensures msgs[k] == Expected(dbs, k, frames)
      {
        if k != f.key {
          OtherKey(dbs, k, before, f);
        }
      }
    }

    /** One group of frames, column by column; identifier and payload decide how many there are. Missing entries of
        the other columns count as bus 0, a standard identifier, the whole payload and time 0. */
    method AddGroup(ids: seq<nat>, payloads: seq<Bytes>, lengths: seq<int>, buses: seq<int>, ides: seq<int>,
                    times: seq<int>)
      requires Valid()
      modifies this
      ensures Valid() && frames == old(frames) + FramesOf(ids, payloads, lengths, buses, ides, times)
    {
      var n := if |payloads| < |ids| then |payloads| else |ids|;
      ghost var all := FramesOf(ids, payloads, lengths, buses, ides, times);
      assert old(frames) + all[..0] == old(frames);
      for i := 0 to n
        invariant Valid() && frames == old(frames) + all[..i]
      {
        AddFrame(FrameOf(ids, payloads, lengths, buses, ides, times, i));
        assert all[..i + 1] == all[..i] + [all[i]];
      }
      assert all[..n] == all;
    }
  }

  /** The payload cut to the logged length. */
  function Cut(payload: Bytes, length: int): Bytes {
    if 0 <= length < |payload| then payload[..length] else payload
  }

  function FrameOf(ids: seq<nat>, payloads: seq<Bytes>, lengths: seq<int>, buses: seq<int>, ides: seq<int>,
                   times: seq<int>,
                   i: nat): Frame
    requires i < |ids| && i < |payloads|
  {
    Frame(Key(if i < |buses| then buses[i] else 0, ids[i], i < |ides| && ides[i] != 0),
          if i < |lengths| then Cut(payloads[i], lengths[i]) else payloads[i],
          if i < |times| then times[i] else 0)
  }

  function FramesOf(ids: seq<nat>, payloads: seq<Bytes>, lengths: seq<int>, buses: seq<int>, ides: seq<int>,
                    times: seq<int>)
    : (r: seq<Frame>)
    ensures |r| == if |payloads| < |ids| then |payloads| else |ids|
    ensures forall i :: 0 <= i < |r| ==> r[i] == FrameOf(ids, payloads, lengths, buses, ides, times, i)
  {
    seq(if |payloads| < |ids| then |payloads| else |ids|,
        i requires 0 <= i < |payloads| && i < |ids| => FrameOf(ids, payloads, lengths, buses, ides, times, i))
  }

  lemma EntryShape(dbs: seq<Database>, k: Key, frames: seq<Frame>)
    requires Expected(dbs, k, frames).Some?
    ensures |Expected(dbs, k, frames).value.columns| == |Expected(dbs, k, frames).value.defs|
  {
  }

  lemma NoMessage(dbs: seq<Database>, k: Key, frames: seq<Frame>, f: Frame)
    requires Expected(dbs, k, frames).None?
    ensures Expected(dbs, k, frames + [f]).None?
  {
  }

  lemma OwnKey(dbs: seq<Database>, k: Key, frames: seq<Frame>, f: Frame, columns: seq<Columns>)
    requires f.key == k && Expected(dbs, k, frames).Some?
    requires var bm := Expected(dbs, k, frames).value;
             && |columns| == |bm.defs| == |bm.columns|
             && forall i :: 0 <= i < |columns| ==>
                columns[i] == Extended(bm.msg, bm.defs[i], bm.columns[i], f.payload, f.time)
    ensures Expected(dbs, k, frames + [f]) == Some(Expected(dbs, k, frames).value.(columns := columns))
  {
    hide Extended, ColumnsOf, Selected;
    var bm, next := Expected(dbs, k, frames).value, Expected(dbs, k, frames + [f]).value;
    forall i | 0 <= i < |columns|
      ensures next.columns[i] == columns[i]
    {
      ExtendedIs(bm.msg, bm.defs[i], k, frames, f);
    }
    assert next.columns == columns;
  }
}
