/** The window iterator: every channel of a group over the same records, converted and aligned with the master. */
module ChunkReads {
  import opened Wire
  import opened Bitsets
  import opened SectionReader
  import opened Conversions
  import opened Signals
  import R = Records
  import V = Vlsd
  import W = Windows

  /** The windows of one channel, one behind the other. */
  function Glued(windows: seq<seq<Signal>>, i: nat): Signal
    requires windows != [] && forall w :: 0 <= w < |windows| ==> i < |windows[w]|
  {
    if |windows| == 1 then windows[0][i]
    else JoinSignals(Glued(windows[..|windows| - 1], i), windows[|windows| - 1][i])
  }

  lemma GluedMore(windows: seq<seq<Signal>>, more: seq<Signal>, i: nat)
    requires i < |more| && forall w :: 0 <= w < |windows| ==> i < |windows[w]|
    ensures Glued(windows + [more], i) == if windows == [] then more[i] else JoinSignals(Glued(windows, i), more[i])
  {
    hide JoinSignals;
    assert (windows + [more])[..|windows|] == windows;
  }

  /** Every window starts where the previous one ends. */
  ghost predicate Consecutive(windows: seq<seq<Signal>>, i: nat, from: nat)
    requires forall w :: 0 <= w < |windows| ==> i < |windows[w]|
  {
    && (windows != [] ==> windows[0][i].offset == from)
    && forall w :: 0 < w < |windows| ==>
         windows[w][i].offset == windows[w - 1][i].offset + Length(windows[w - 1][i].column)
  }

  /** The windows put together are what one read of the m records behind record `from` gives: samples, times, flags. */
  ghost predicate PutTogether(p: Plan, content: Bytes, from: nat, m: nat, windows: seq<seq<Signal>>,
                              kept: seq<seq<bool>>)
    requires Sound(p)
  {
    && |kept| == |p.chans| && (forall w :: 0 <= w < |windows| ==> |windows[w]| == |p.chans|)
    && (windows == [] <==> m == 0)
    && (windows != [] ==> CanRead(p, content, from, m))
    && forall i :: 0 <= i < |p.chans| ==> PutTogetherOne(p, content, from, m, windows, kept[i], i)
  }

  ghost predicate PutTogetherOne(p: Plan, content: Bytes, from: nat, m: nat, windows: seq<seq<Signal>>, kept: seq<bool>,
                                 i: nat)
    requires Sound(p) && i < |p.chans| && (windows != [] ==> CanRead(p, content, from, m))
    requires forall w :: 0 <= w < |windows| ==> |windows[w]| == |p.chans|
  {
    && Consecutive(windows, i, from)
    && if windows == [] then kept == []
       else
         && Glued(windows, i) == SignalOf(p, content, from, m, i) && FlagsShown(p, content, from, m, i, kept)
         && EndOf(windows[|windows| - 1][i]) == from + m
  }

  /** The record behind the last one of a window. */
  function EndOf(s: Signal): nat { s.offset + Length(s.column) }

  /** Flags of a further window behind those of the windows before. */
  function Extended(kept: seq<seq<bool>>, more: seq<seq<bool>>): (r: seq<seq<bool>>)
    requires |kept| == |more|
    ensures |r| == |kept| && forall i :: 0 <= i < |r| ==> r[i] == kept[i] + more[i]
  {
    seq(|kept|, i requires 0 <= i < |kept| => kept[i] + more[i])
  }

  lemma PutMore(p: Plan, content: Bytes, from: nat, m: nat, windows: seq<seq<Signal>>, kept: seq<seq<bool>>, n: nat,
                   more: seq<Signal>, flags: seq<seq<bool>>)
    requires Sound(p) && PutTogether(p, content, from, m, windows, kept) && n > 0 && CanRead(p, content, from + m, n)
    requires |more| == |flags| == |p.chans|
    requires forall i :: 0 <= i < |p.chans| ==>
               more[i] == SignalOf(p, content, from + m, n, i) && FlagsShown(p, content, from + m, n, i, flags[i])
    ensures PutTogether(p, content, from, m + n, windows + [more], Extended(kept, flags))
  {
    hide CanRead, SignalOf, FlagsShown, PutTogetherOne;
    if m > 0 {
      CanReadJoin(p, content, from, m, n);
    }
    forall i | 0 <= i < |p.chans|
      ensures PutTogetherOne(p, content, from, m + n, windows + [more], Extended(kept, flags)[i], i)
    {
      PutOneMore(p, content, from, m, windows, kept[i], n, more, flags[i], i);
    }
  }

  lemma PutOneMore(p: Plan, content: Bytes, from: nat, m: nat, windows: seq<seq<Signal>>, kept: seq<bool>, n: nat,
                      more: seq<Signal>, flags: seq<bool>, i: nat)
    requires Sound(p) && i < |p.chans| == |more| && n > 0 && (windows == [] <==> m == 0)
    requires (windows != [] ==> CanRead(p, content, from, m)) && CanRead(p, content, from + m, n)
    requires CanRead(p, content, from, m + n) && forall w :: 0 <= w < |windows| ==> |windows[w]| == |p.chans|
    requires PutTogetherOne(p, content, from, m, windows, kept, i)
    requires more[i] == SignalOf(p, content, from + m, n, i) && FlagsShown(p, content, from + m, n, i, flags)
    ensures PutTogetherOne(p, content, from, m + n, windows + [more], kept + flags, i)
  {
    hide CanRead, SignalOf, FlagsShown, JoinSignals, Glued;
    var all := windows + [more];
    GluedMore(windows, more, i);
    SignalAligned(p, content, from + m, n, i);
    assert forall w :: 0 <= w < |windows| ==> all[w] == windows[w];
    if windows == [] {
      assert kept + flags == flags;
    } else {
      SignalsJoin(p, content, from, m, n, i);
      FlagsMore(p, content, from, m, n, i, kept, flags);
    }
  }

  lemma FlagsMore(p: Plan, content: Bytes, from: nat, m: nat, n: nat, i: nat, a: seq<bool>, b: seq<bool>)
    requires Sound(p) && i < |p.chans| && FlagsShown(p, content, from, m, i, a)
             && FlagsShown(p, content, from + m, n, i, b)
    ensures FlagsShown(p, content, from, m + n, i, a + b)
  {
    hide Extracts, ChannelFlags;
    var ch := p.members[p.chans[i]];
    if ch.Stored? {
      SamplesJoin(ch.spec, p.recSize, content, from, m, n);
    }
    FlagsJoin(ch, p.recSize, content, from, m, n);
  }

  /** Reads channels of a group window by window. */
  class Chunks {
    const sd: Reader
    const plan: Plan
    const chunkSamples: int
    ghost const content: Bytes
    var pos: nat
    var end: nat
    var window: nat
    var signals: seq<Signal>
    var invalid: seq<Bitset>
    /** What the flag sets of the current window hold. */
    ghost var flags: seq<seq<bool>>
    var failed: bool

    ghost predicate Valid()
      reads this, sd, sd.cache
    {
      V.Backed(sd, content) && Sound(plan) && window > 0 && pos <= end
    }

    /** The requested range is cut to the records of the group; a range that starts outside it fails at once. */
    constructor (sd: Reader, plan: Plan, total: nat, from: int, count: int, chunkSamples: int, ghost content: Bytes)
      requires V.Backed(sd, content) && Sound(plan)
      ensures Valid() && this.sd == sd && this.plan == plan && this.content == content
      ensures failed == W.ResolveRange(from, count, total).Err?
      ensures !failed ==> (pos, end) == (W.ResolveRange(from, count, total).value.0,
                                         W.ResolveRange(from, count, total).value.0 + W.ResolveRange(from, count,
                                             total).value.1)
    {
      hide V.Backed;
      this.sd, this.plan, this.chunkSamples, this.content := sd, plan, chunkSamples, content;
      var r := W.ResolveRange(from, count, total);
      failed, signals, invalid, flags := r.Err?, [], [], [];
      pos := if r.Ok? then r.value.0 else 0;
      end := if r.Ok? then r.value.0 + r.value.1 else 0;
      window := 1;
      new;
      window := W.ChunkSize(chunkSamples, if plan.recSize == 0 then 1 else plan.recSize);
    }

    /** Channel.read: extraction and conversion of n records. */
    method ReadChannel(ch: Channel, raw: bool, at: nat, n: nat) returns (r: Option<Column>, bits: Bitset)
      requires Valid()
      modifies sd.cache
      ensures Valid() && bits.Valid() && fresh(bits)
      ensures r == Reading(plan.pf, raw, ch, plan.recSize, content, at, n)
      ensures r.Some? && ch.Stored? ==> Extracts(ch.spec, plan.recSize, content, at, n)
      ensures r.Some? ==> bits.flags == ChannelFlags(ch, plan.recSize, content, at, n)
    {
      hide V.Backed, Applied, Extracted, Converted, R.Values, R.Flags, R.FlagsKept, R.Extractable, W.Window, W.Held;
      bits := new Bitset();
      match ch {
        case Virtual(conv) =>
          r := ReadVirtual(plan.pf, raw, conv, at, n);
        case Stored(s, conv) =>
          var col := W.ExtractColumn(sd, s, plan.recSize, at, n, chunkSamples, bits, content);
          if col.Err? {
            return None, bits;
          }
          r := ApplyConversion(plan.pf, raw, conv, Extracted(plan.pf, raw, s.dataType, conv, col.value));
      }
    }

    /** The master over n records; no master is no failure. */
    method ReadMaster(at: nat, n: nat) returns (master: Option<Column>, ok: bool)
      requires Valid()
      modifies sd.cache
      ensures Valid() && (ok <==> (plan.master.Some? ==> MasterReading(plan, content, at, n).Some?))
      ensures master == if plan.master.Some? then MasterReading(plan, content, at, n) else None
    {
      hide V.Backed, Reading, ChannelFlags, Extracts;
      if plan.master.None? {
        return None, true;
      }
      var m, _ := ReadChannel(plan.members[plan.master.value], false, at, n);
      return m, m.Some?;
    }

    /** The signals of the requested channels over n records. */
    method ReadSignals(at: nat, n: nat, master: Option<Column>)
      returns (ok: bool, out: seq<Signal>, sets: seq<Bitset>, ghost kept: seq<seq<bool>>)
      requires Valid()
      modifies sd.cache
      ensures Valid() && (ok <==> forall i :: 0 <= i < |plan.chans| ==> ChannelReading(plan, content, at, n, i).Some?)
      ensures ok ==> |out| == |sets| == |kept| == |plan.chans|
      ensures ok ==> forall j :: 0 <= j < |sets| ==> fresh(sets[j]) && sets[j].Valid() && sets[j].flags == kept[j]
      ensures ok ==> forall j :: 0 <= j < |out| ==> ShowsOne(plan, content, at, n, j, master, out[j], kept[j])
    {
      hide V.Backed, Reading, ChannelFlags, Extracts;
      out, sets, kept := [], [], [];
      for i := 0 to |plan.chans|
        invariant Valid() && |out| == |sets| == |kept| == i
        invariant forall j :: 0 <= j < i ==> fresh(sets[j]) && sets[j].Valid() && sets[j].flags == kept[j]
        invariant forall j :: 0 <= j < i ==> ShowsOne(plan, content, at, n, j, master, out[j], kept[j])
        invariant forall j :: 0 <= j < i ==> ChannelReading(plan, content, at, n, j).Some?
      {
        var chan := plan.chans[i];
        var col, bits := ReadChannel(plan.members[chan], plan.raw, at, n);
        if col.None? {
          assert ChannelReading(plan, content, at, n, i).None?;
          ok := false;
          return;
        }
        var sig := Signal(col.value, SignalTime(plan, chan, col.value, master), at);
        out, sets, kept := out + [sig], sets + [bits], kept + [bits.flags];
      }
      ok := true;
    }

    /** The next window: the same records for every channel and the master, directly behind the previous ones. */
    method Next() returns (more: bool)
      requires Valid()
      modifies this, sd.cache
      ensures Valid() && end == old(end) && window == old(window) && old(pos) <= pos
      ensures var n := (if old(pos) + window > end then end else old(pos) + window) - old(pos);
              && (more <==> !old(failed) && old(pos) < end && CanRead(plan, content, old(pos), n))
              && pos == (if more then old(pos) + n else old(pos))
              && (failed <==> old(failed) || (old(pos) < end && !more))
              && (more ==> Shows(old(pos), n))
    {
      hide V.Backed, MasterReading, ChannelReading, ShowsOne, SignalOf, FlagsShown;
      if failed || pos >= end {
        return false;
      }
      var n := if pos + window > end then end - pos else window;
      var master, ok := ReadMaster(pos, n);
      if !ok {
        failed := true;
        return false;
      }
      var all, out, sets, kept := ReadSignals(pos, n, master);
      if !all {
        failed := true;
        return false;
      }
      AllShown(plan, content, pos, n, master, out, kept);
      signals, invalid, flags := out, sets, kept;
      pos := pos + n;
      return true;
    }

    /** All windows up to the end. Put together they are what one read of the whole range gives; a range fails exactly
        when one read of it fails. */
    method All() returns (windows: seq<seq<Signal>>, ghost kept: seq<seq<bool>>)
      requires Valid()
      modifies this, sd.cache
      ensures Valid() && end == old(end) && old(pos) <= pos && (failed || pos == end)
      ensures PutTogether(plan, content, old(pos), pos - old(pos), windows, kept)
      ensures !old(failed) && old(pos) < end ==> (failed <==> !CanRead(plan, content, old(pos), end - old(pos)))
    {
      hide V.Backed, CanRead, SignalOf, FlagsShown, PutTogether;
      ghost var from := pos;
      ghost var fine := !failed;
      windows, kept := [], seq(|plan.chans|, i => []);
      NothingCovered(plan, content, from, kept);
      while true
        invariant Valid() && end == old(end) && from <= pos
        invariant PutTogether(plan, content, from, pos - from, windows, kept)
        invariant fine ==> !failed
        decreases end - pos
      {
        ghost var at, was := pos, failed;
        var more := Next();
        if !more {
          if fine && from < end {
            Stopped(plan, content, from, at, window, end, windows, kept);
          }
          return;
        }
        ShownAll(at, pos - at);
        PutMore(plan, content, from, at - from, windows, kept, pos - at, signals, flags);
        CoveredSizes(plan, content, from, at - from, windows, kept);
        windows, kept := windows + [signals], Extended(kept, flags);
      }
    }

    lemma ShownAll(at: nat, n: nat)
      requires Sound(plan) && CanRead(plan, content, at, n) && Shows(at, n)
      ensures |signals| == |flags| == |plan.chans|
      ensures forall i :: 0 <= i < |plan.chans| ==>
                signals[i] == SignalOf(plan, content, at, n, i) && FlagsShown(plan, content, at, n, i, flags[i])
    {
    }

    /** The current window holds what one read of these records gives. */
    ghost predicate Shows(at: nat, n: nat)
      reads this, invalid
      requires Sound(plan) && CanRead(plan, content, at, n)
    {
      && |signals| == |invalid| == |flags| == |plan.chans|
      && (forall i :: 0 <= i < |plan.chans| ==> signals[i] == SignalOf(plan, content, at, n, i))
      && (forall i :: 0 <= i < |plan.chans| ==> invalid[i].Valid() && invalid[i].flags == flags[i])
      && forall i :: 0 <= i < |plan.chans| ==> FlagsShown(plan, content, at, n, i, flags[i])
    }
  }

  lemma NothingCovered(p: Plan, content: Bytes, from: nat, kept: seq<seq<bool>>)
    requires Sound(p) && |kept| == |p.chans| && forall i :: 0 <= i < |kept| ==> kept[i] == []
    ensures PutTogether(p, content, from, 0, [], kept)
  {
  }

  lemma CoveredSizes(p: Plan, content: Bytes, from: nat, m: nat, windows: seq<seq<Signal>>, kept: seq<seq<bool>>)
    requires Sound(p) && PutTogether(p, content, from, m, windows, kept)
    ensures |kept| == |p.chans|
  {
  }

  /** Where the windows stop: at the end with everything read, or at a window whose failure one read shares. */
  lemma Stopped(p: Plan, content: Bytes, from: nat, at: nat, window: nat, end: nat, windows: seq<seq<Signal>>,
                kept: seq<seq<bool>>)
    requires Sound(p) && from <= at <= end && from < end && PutTogether(p, content, from, at - from, windows, kept)
    ensures at == end ==> CanRead(p, content, from, end - from)
    ensures at < end && !CanRead(p, content, at, (if at + window > end then end else at + window) - at)
            ==> !CanRead(p, content, from, end - from)
  {
    hide CanRead, PutTogetherOne;
    if at < end {
      var n := (if at + window > end then end else at + window) - at;
      CanReadJoin(p, content, at, n, end - at - n);
      CanReadJoin(p, content, from, at - from, end - at);
    }
  }

  ghost predicate FlagsShown(p: Plan, content: Bytes, at: nat, n: nat, i: nat, flags: seq<bool>)
    requires Sound(p) && i < |p.chans|
  {
    var ch := p.members[p.chans[i]];
    && (ch.Stored? ==> Extracts(ch.spec, p.recSize, content, at, n))
    && flags == ChannelFlags(ch, p.recSize, content, at, n)
  }

  /** One signal as Next puts it together. */
  ghost predicate ShowsOne(p: Plan, content: Bytes, at: nat, n: nat, i: nat, master: Option<Column>, sig: Signal,
                           flags: seq<bool>)
    requires Sound(p) && i < |p.chans|
  {
    && ChannelReading(p, content, at, n, i) == Some(sig.column) && sig.offset == at
    && sig.time == SignalTime(p, p.chans[i], sig.column, master)
    && FlagsShown(p, content, at, n, i, flags)
  }

  lemma AllShown(p: Plan, content: Bytes, at: nat, n: nat, master: Option<Column>, out: seq<Signal>,
                 kept: seq<seq<bool>>)
    requires Sound(p) && |out| == |kept| == |p.chans|
    requires master == if p.master.Some? then MasterReading(p, content, at, n) else None
    requires p.master.Some? ==> master.Some?
    requires forall i :: 0 <= i < |out| ==> ShowsOne(p, content, at, n, i, master, out[i], kept[i])
    ensures CanRead(p, content, at, n)
    ensures forall i :: 0 <= i < |out| ==>
            out[i] == SignalOf(p, content, at, n, i) && FlagsShown(p, content, at, n, i, kept[i])
  {
    hide Reading, FlagsShown;
    forall i | 0 <= i < |p.chans|
      ensures ChannelReading(p, content, at, n, i) == Some(out[i].column)
    {
      assert ShowsOne(p, content, at, n, i, master, out[i], kept[i]);
    }
  }
}
