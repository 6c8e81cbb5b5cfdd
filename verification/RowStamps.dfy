/** What an append does to the caller's record: only the offsets of its strings are stamped in, so what stood there
    before does not matter. */
module RowStamps {
  import opened Wire
  import opened Store
  import opened Zip
  import opened WriterSpec

  function DefsOf(chans: seq<Chan>): (r: seq<ChanDef>)
    ensures |r| == |chans| && forall i :: 0 <= i < |chans| ==> r[i] == chans[i].def
  {
    seq(|chans|, i requires 0 <= i < |chans| => chans[i].def)
  }

  /** Byte k belongs to the offset of a string, from channel n on. */
  ghost predicate InString(defs: seq<ChanDef>, n: nat, k: int) {
    exists i :: n <= i < |defs| && defs[i].vlsd && defs[i].field.byteOffset <= k < defs[i].field.byteOffset + 8
  }

  /** Records that differ at most in the string offsets from channel n on. */
  ghost predicate Differ(defs: seq<ChanDef>, n: nat, a: Bytes, b: Bytes) {
    |a| == |b| && forall k :: 0 <= k < |a| && !InString(defs, n, k) ==> a[k] == b[k]
  }

  ghost predicate OffsetsInside(defs: seq<ChanDef>, size: nat) {
    forall i :: 0 <= i < |defs| && defs[i].vlsd ==> defs[i].field.byteOffset + 8 <= size
  }

  lemma NoDifference(defs: seq<ChanDef>, a: Bytes)
    ensures Differ(defs, 0, a, a)
  {
  }

  lemma WriteAtByte(f: Bytes, off: nat, x: Bytes, k: nat)
    requires off + |x| <= |f| && k < |f|
    ensures |WriteAt(f, off, x)| == |f|
    ensures WriteAt(f, off, x)[k] == if off <= k < off + |x| then x[k - off] else f[k]
  {
    WriteAtInside(f, off, x);
  }

  lemma {:induction false} AppendedDefs(z: Zlib, cfg: Config, st: Store, chans: seq<Chan>, rec: Bytes,
                                        strings: seq<Bytes>, n: nat)
    requires n <= |chans| == |strings| && forall i :: 0 <= i < |chans| ==> |chans[i].sd.id| == 4
    ensures var cs := AppendStrings(z, cfg, st, chans, rec, strings, n).1;
            forall i :: 0 <= i < |chans| ==> cs[i].def == chans[i].def
  {
    hide AppendStream, LE, WriteAt;
    if n > 0 {
      AppendedDefs(z, cfg, st, chans, rec, strings, n - 1);
    }
  }

  /** One channel more stamped into both records. */
  lemma StampBoth(defs: seq<ChanDef>, n: nat, a: Bytes, b: Bytes, x: Bytes)
    requires n < |defs| && defs[n].vlsd && |x| == 8 && OffsetsInside(defs, |a|) && Differ(defs, n, a, b)
    ensures Differ(defs, n + 1, WriteAt(a, defs[n].field.byteOffset, x), WriteAt(b, defs[n].field.byteOffset, x))
  {
    hide WriteAt;
    var off := defs[n].field.byteOffset;
    var a', b' := WriteAt(a, off, x), WriteAt(b, off, x);
    assert |a'| == |a| && |b'| == |b|;
    forall k | 0 <= k < |a| && !InString(defs, n + 1, k)
      ensures a'[k] == b'[k]
    {
      WriteAtByte(a, off, x, k);
      WriteAtByte(b, off, x, k);
      if !(off <= k < off + 8) {
        assert !InString(defs, n, k);
      }
    }
  }

  lemma StampOne(defs: seq<ChanDef>, n: nat, a: Bytes, b: Bytes, x: Bytes)
    requires n < |defs| && defs[n].vlsd && |x| == 8 && OffsetsInside(defs, |a|) && Differ(defs, 0, a, b)
    ensures Differ(defs, 0, WriteAt(a, defs[n].field.byteOffset, x), b)
  {
    hide WriteAt;
    var off := defs[n].field.byteOffset;
    assert |WriteAt(a, off, x)| == |a|;
    forall k | 0 <= k < |a| && !InString(defs, 0, k)
      ensures WriteAt(a, off, x)[k] == b[k]
    {
      WriteAtByte(a, off, x, k);
    }
  }

  /** A channel that is no string leaves no offset behind. */
  lemma DifferSkips(defs: seq<ChanDef>, n: nat, a: Bytes, b: Bytes)
    requires n < |defs| && !defs[n].vlsd && Differ(defs, n, a, b)
    ensures Differ(defs, n + 1, a, b)
  {
    forall k | 0 <= k < |a| && !InString(defs, n + 1, k)
      ensures !InString(defs, n, k)
    {
    }
  }

  /** Stale offsets in the record change nothing: the same is written, and the same record results. */
  lemma {:induction false} StampsAgree(z: Zlib, cfg: Config, st: Store, chans: seq<Chan>, a: Bytes, b: Bytes,
                                       strings: seq<Bytes>, n: nat)
    requires n <= |chans| == |strings| && forall i :: 0 <= i < |chans| ==> |chans[i].sd.id| == 4
    requires OffsetsInside(DefsOf(chans), |a|) && Differ(DefsOf(chans), 0, a, b)
    ensures var (ra, rb) := (AppendStrings(z, cfg, st, chans, a, strings, n),
                             AppendStrings(z, cfg, st, chans, b, strings, n));
            ra.0 == rb.0 && ra.1 == rb.1 && |ra.2| == |a| && Differ(DefsOf(chans), n, ra.2, rb.2)
  {
    hide AppendStream, LE, WriteAt, Differ, OffsetsInside;
    if n > 0 {
      StampsAgree(z, cfg, st, chans, a, b, strings, n - 1);
      AppendedDefs(z, cfg, st, chans, a, strings, n - 1);
      var ra, rb := AppendStrings(z, cfg, st, chans, a, strings, n - 1),
          AppendStrings(z, cfg, st, chans, b, strings, n - 1);
      var c := ra.1[n - 1];
      if c.def.vlsd {
        StampBoth(DefsOf(chans), n - 1, ra.2, rb.2, LE(c.sd.total, 8));
        StampLength(DefsOf(chans), n - 1, ra.2, LE(c.sd.total, 8));
      } else {
        DifferSkips(DefsOf(chans), n - 1, ra.2, rb.2);
      }
    }
  }

  lemma StampLength(defs: seq<ChanDef>, n: nat, a: Bytes, x: Bytes)
    requires n < |defs| && defs[n].vlsd && |x| == 8 && OffsetsInside(defs, |a|)
    ensures |WriteAt(a, defs[n].field.byteOffset, x)| == |a|
  {
    hide WriteAt;
  }

  /** Nothing but string offsets is stamped. */
  lemma {:induction false} StampsOnly(z: Zlib, cfg: Config, st: Store, chans: seq<Chan>, rec: Bytes,
                                      strings: seq<Bytes>, n: nat)
    requires n <= |chans| == |strings| && forall i :: 0 <= i < |chans| ==> |chans[i].sd.id| == 4
    requires OffsetsInside(DefsOf(chans), |rec|)
    ensures Differ(DefsOf(chans), 0, AppendStrings(z, cfg, st, chans, rec, strings, n).2, rec)
  {
    hide AppendStream, LE, WriteAt, Differ, OffsetsInside;
    if n == 0 {
      NoDifference(DefsOf(chans), rec);
    } else {
      StampsOnly(z, cfg, st, chans, rec, strings, n - 1);
      AppendedDefs(z, cfg, st, chans, rec, strings, n - 1);
      var r := AppendStrings(z, cfg, st, chans, rec, strings, n - 1);
      DifferLength(DefsOf(chans), r.2, rec);
      var c := r.1[n - 1];
      if c.def.vlsd {
        StampOne(DefsOf(chans), n - 1, r.2, rec, LE(c.sd.total, 8));
      }
    }
  }

  lemma DifferLength(defs: seq<ChanDef>, a: Bytes, b: Bytes)
    requires Differ(defs, 0, a, b)
    ensures |a| == |b|
  {
  }

  lemma DifferAll(defs: seq<ChanDef>, a: Bytes, b: Bytes)
    requires Differ(defs, |defs|, a, b)
    ensures a == b
  {
    assert forall k :: !InString(defs, |defs|, k);
  }

  lemma AppendSame(z: Zlib, s: State, gi: nat, a: Bytes, b: Bytes, strings: seq<Bytes>)
    requires WellTyped(s) && gi < |s.groups| && |strings| == |s.groups[gi].chans|
    requires OffsetsInside(DefsOf(s.groups[gi].chans), |a|) && Differ(DefsOf(s.groups[gi].chans), 0, a, b)
    ensures AppendRecord(z, s, gi, a, strings) == AppendRecord(z, s, gi, b, strings)
  {
    hide AppendStrings, AppendStream, Differ, OffsetsInside;
    var g := s.groups[gi];
    assert TypedGroup(g);
    StampsAgree(z, s.cfg, s.store, g.chans, a, b, strings, |g.chans|);
    DifferAll(DefsOf(g.chans), AppendStrings(z, s.cfg, s.store, g.chans, a, strings, |g.chans|).2,
              AppendStrings(z, s.cfg, s.store, g.chans, b, strings, |g.chans|).2);
  }

  lemma BegunDefs(s: State, gi: nat)
    requires WellTyped(s) && gi < |s.groups|
    ensures CanBegin(s) ==>
            |Begin(s).groups| == |s.groups| && DefsOf(Begin(s).groups[gi].chans) == DefsOf(s.groups[gi].chans)
  {
    hide Begin, CanBegin;
    BeginTyped(s);
    if CanBegin(s) {
      assert SameGroup(Begin(s).groups[gi], Restreamed(s.groups[gi]));
    }
  }

  /** An append does not depend on the string offsets that happen to stand in the record. */
  lemma StepSame(z: Zlib, s: State, gi: nat, a: Bytes, b: Bytes, strings: seq<Bytes>)
    requires WellTyped(s) && LegalOp(s, Op.Append(gi, a, strings)) && LegalOp(s, Op.Append(gi, b, strings))
    requires OffsetsInside(DefsOf(s.groups[gi].chans), |a|) && Differ(DefsOf(s.groups[gi].chans), 0, a, b)
    ensures Step(z, s, Op.Append(gi, a, strings)) == Step(z, s, Op.Append(gi, b, strings))
  {
    hide Begin, CanBegin, AppendRecord, Differ, OffsetsInside;
    BegunDefs(s, gi);
    BeginTyped(s);
    if s.started {
      AppendSame(z, s, gi, a, b, strings);
    } else if CanBegin(s) {
      assert SameGroup(Begin(s).groups[gi], Restreamed(s.groups[gi]));
      AppendSame(z, Begin(s), gi, a, b, strings);
    }
  }
}
