/** The calls that define a file before its first row: what every sequence of them leaves behind. */
module Definitions {
  import opened Wire
  import opened Blocks
  import opened Meta
  import opened Store
  import opened WriterSpec
  import opened History
  import opened TreeProof

  datatype Define =
    | NewGroup(name: Bytes, noMaster: bool)
    | MasterTime(g: nat, name: Bytes, unit: Bytes)
    | Float64(g: nat, name: Bytes, unit: Bytes)
    | Float32(g: nat, name: Bytes, unit: Bytes)
    | Int(g: nat, name: Bytes, unit: Bytes, bits: nat)
    | Uint(g: nat, name: Bytes, unit: Bytes, bits: nat)
    | String(g: nat, name: Bytes)
    | SetLinearConversion(g: nat, i: nat, conv: Linear)
    | SetComment(g: nat, i: nat, comment: Bytes)

  /** The channel a call adds. */
  function Added(d: Define): Option<ChanDef> {
    match d
    case MasterTime(_, name, unit) => Some(MasterDef(name, unit))
    case Float64(_, name, unit) => Some(ChanDef(name, unit, [], Field(CN_FIXED, 0, DT_FLOAT, 0, 64), None, false))
    case Float32(_, name, unit) => Some(ChanDef(name, unit, [], Field(CN_FIXED, 0, DT_FLOAT, 0, 32), None, false))
    case Int(_, name, unit, bits) => Some(ChanDef(name, unit, [], Field(CN_FIXED, 0, DT_INT, 0, bits), None, false))
    case Uint(_, name, unit, bits) => Some(ChanDef(name, unit, [], Field(CN_FIXED, 0, DT_UINT, 0, bits), None, false))
    case String(_, name) => Some(ChanDef(name, [], [], Field(CN_VLSD, 0, DT_UTF8, 0, 64), None, true))
    case _ => None
  }

  /** The group and the channel exist; numbers have the widths of their parameters. */
  predicate Fits(s: State, d: Define) {
    && (!d.NewGroup? ==> d.g < |s.groups|)
    && (d.SetLinearConversion? ==> d.i < |s.groups[d.g].chans| && d.conv.a < TWO_64 && d.conv.b < TWO_64)
    && (d.SetComment? ==> d.i < |s.groups[d.g].chans|)
    && (d.Int? || d.Uint? ==> d.bits < TWO_32)
  }

  function Redefined(g: Group, i: nat, def: ChanDef): Group
    requires i < |g.chans|
  {
    g.(chans := g.chans[i := g.chans[i].(def := def)])
  }

  function Changed(g: Group, d: Define): Group
    requires !d.NewGroup? && (d.SetLinearConversion? || d.SetComment? ==> d.i < |g.chans|)
  {
    if Added(d).Some? then AddChan(g, Added(d).value)
    else if d.SetLinearConversion? then Redefined(g, d.i, g.chans[d.i].def.(conv := Some(d.conv)))
    else if d.SetComment? then Redefined(g, d.i, g.chans[d.i].def.(comment := d.comment))
    else g
  }

  function Apply(s: State, d: Define): State
    requires Fits(s, d)
  {
    if d.NewGroup? then AddGroup(s, OpenGroup(d.name, d.noMaster))
    else s.(groups := s.groups[d.g := Changed(s.groups[d.g], d)])
  }

  /** All calls fit, one after the other. */
  ghost predicate Buildable(cfg: Config, ds: seq<Define>)
    decreases |ds|, 0
  {
    ds == [] || (Buildable(cfg, ds[..|ds| - 1]) && Fits(Built(cfg, ds[..|ds| - 1]), ds[|ds| - 1]))
  }

  ghost function Built(cfg: Config, ds: seq<Define>): State
    requires Buildable(cfg, ds)
    decreases |ds|, 1
  {
    if ds == [] then NewWriter(cfg) else Apply(Built(cfg, ds[..|ds| - 1]), ds[|ds| - 1])
  }

  // ---- what every sequence of calls keeps ----

  /** A group under definition; its channels are laid out as long as the record stays below 2^32 bytes. */
  ghost predicate Growable(g: Group) {
    && g.count == 0 && g.data == NewStream(ID_DT, 0)
    && (g.recSize < TWO_32 ==> Tiled(g.chans, g.recSize))
    && forall i :: 0 <= i < |g.chans| ==> FreshChan(g.chans[i])
  }

  ghost predicate Preparing(s: State) {
    && !s.started && !s.closed && !s.growing && s.store == Store([], [], [])
    && forall i :: 0 <= i < |s.groups| ==> Growable(s.groups[i])
  }

  ghost predicate SameFields(a: seq<Chan>, b: seq<Chan>) {
    |a| == |b| && forall i :: 0 <= i < |a| ==> a[i].def.field == b[i].def.field
  }

  lemma {:induction false} TiledSame(a: seq<Chan>, b: seq<Chan>, recSize: nat)
    requires SameFields(a, b) && Tiled(a, recSize)
    ensures Tiled(b, recSize)
    decreases |a|
  {
    if a != [] {
      TiledSame(a[..|a| - 1], b[..|b| - 1], a[|a| - 1].def.field.byteOffset);
    }
  }

  lemma AddedGrows(g: Group, def: ChanDef)
    requires Growable(g) && def.field.bitCount < TWO_32 && (def.vlsd ==> def.field.bitCount == 64) && def.conv == None
    ensures Growable(AddChan(g, def))
  {
    hide Tiled;
    if AddChan(g, def).recSize < TWO_32 {
      AddChanTiles(g, def);
    }
  }

  lemma ChangedGrows(g: Group, d: Define)
    requires Growable(g) && !d.NewGroup? && (d.SetLinearConversion? || d.SetComment? ==> d.i < |g.chans|)
    requires d.SetLinearConversion? ==> d.conv.a < TWO_64 && d.conv.b < TWO_64
    requires d.Int? || d.Uint? ==> d.bits < TWO_32
    ensures Growable(Changed(g, d))
  {
    hide AddChan, Tiled;
    if Added(d).Some? {
      AddedGrows(g, Added(d).value);
    } else if g.recSize < TWO_32 {
      TiledSame(g.chans, Changed(g, d).chans, g.recSize);
    }
  }

  lemma {:induction false} BuiltPrepares(cfg: Config, ds: seq<Define>)
    requires Buildable(cfg, ds)
    ensures Preparing(Built(cfg, ds)) && Built(cfg, ds).cfg == Capped(cfg)
    decreases |ds|
  {
    hide Growable, Changed, OpenGroup;
    if ds != [] {
      var init, d := ds[..|ds| - 1], ds[|ds| - 1];
      BuiltPrepares(cfg, init);
      var s := Built(cfg, init);
      if d.NewGroup? {
        OpenGrows(d.name, d.noMaster);
      } else {
        ChangedGrows(s.groups[d.g], d);
      }
    }
  }

  lemma OpenGrows(name: Bytes, noMaster: bool)
    ensures Growable(OpenGroup(name, noMaster))
  {
    hide AddChan;
    assert Growable(EmptyGroup(name));
    if !noMaster {
      AddedGrows(EmptyGroup(name), MasterDef([0x74], [0x73]));
    }
  }

  /** Any sequence of definition calls leads to a writer ready to record, exactly when it has a group and every record
      has a length from 1 to 2^32 - 1 bytes. */
  lemma CallsDefine(cfg: Config, ds: seq<Define>)
    requires Buildable(cfg, ds) && cfg.chunkSize > 0
    ensures var s := Built(cfg, ds);
            && (Defined(s) <==> s.groups != [] && forall i :: 0 <= i < |s.groups| ==> 0 < s.groups[i].recSize < TWO_32)
            && (Defined(s) ==> WellTyped(s) && CanBegin(s))
  {
    hide Tiled;
    BuiltPrepares(cfg, ds);
    var s := Built(cfg, ds);
    if Defined(s) {
      DefinedTyped(s);
    }
  }

  // ---- texts ----

  /** The texts of a call survive the file. */
  ghost predicate TextsSurvive(d: Define) {
    match d
    case NewGroup(name, _) => Plain(name)
    case SetLinearConversion(_, _, _) => true
    case SetComment(_, _, comment) => PlainComment(comment)
    case String(_, name) => Plain(name)
    case _ => Plain(d.name) && PlainComment(d.unit)
  }

  ghost predicate Survives(c: ChanDef) {
    Plain(c.name) && PlainComment(c.unit) && PlainComment(c.comment)
  }

  ghost predicate GroupSurvives(g: Group) {
    Plain(g.name) && forall i :: 0 <= i < |g.chans| ==> Survives(g.chans[i].def)
  }

  lemma {:induction false} BuiltSurvives(cfg: Config, ds: seq<Define>)
    requires Buildable(cfg, ds) && forall k :: 0 <= k < |ds| ==> TextsSurvive(ds[k])
    ensures forall i :: 0 <= i < |Built(cfg, ds).groups| ==> GroupSurvives(Built(cfg, ds).groups[i])
    decreases |ds|
  {
    if ds != [] {
      var init, d := ds[..|ds| - 1], ds[|ds| - 1];
      BuiltSurvives(cfg, init);
      hide TextsSurvive, GroupSurvives, Changed, OpenGroup;
      var s := Built(cfg, init);
      if d.NewGroup? {
        OpenSurvives(d);
      } else {
        ChangedSurvives(s.groups[d.g], d);
      }
    }
  }

  lemma OpenSurvives(d: Define)
    requires d.NewGroup? && TextsSurvive(d)
    ensures GroupSurvives(OpenGroup(d.name, d.noMaster))
  {
  }

  lemma ChangedSurvives(g: Group, d: Define)
    requires GroupSurvives(g) && TextsSurvive(d) && !d.NewGroup?
    requires d.SetLinearConversion? || d.SetComment? ==> d.i < |g.chans|
    ensures GroupSurvives(Changed(g, d))
  {
    hide Plain, PlainComment;
    assert PlainComment([]) by {
      NothingPlain();
    }
  }

  lemma NothingPlain()
    ensures PlainComment([]) && Plain([])
  {
  }

  /** Names without NUL bytes, units and comments without NUL bytes that do not start like XML: the groups are
      legible. */
  lemma CallsLegible(cfg: Config, ds: seq<Define>, i: nat)
    requires Buildable(cfg, ds) && cfg.chunkSize > 0 && Defined(Built(cfg, ds)) && i < |Built(cfg, ds).groups|
    requires forall k :: 0 <= k < |ds| ==> TextsSurvive(ds[k])
    ensures LegibleGroup(Built(cfg, ds).groups[i])
  {
    hide Plain, PlainComment, TextsSurvive;
    BuiltSurvives(cfg, ds);
    var g := Built(cfg, ds).groups[i];
    assert GroupSurvives(g) && FreshGroup(g);
    forall k | 0 <= k < |g.chans|
      ensures Legible(g.chans[k].def)
    {
      Offsets(g.chans, g.recSize, k);
      assert FreshChan(g.chans[k]) && Survives(g.chans[k].def);
    }
  }

  lemma {:induction false} Offsets(chans: seq<Chan>, recSize: nat, k: nat)
    requires Tiled(chans, recSize) && k < |chans| && recSize < TWO_32
    ensures chans[k].def.field.byteOffset < TWO_32
    decreases |chans|
  {
    var last := |chans| - 1;
    if k < last {
      Offsets(chans[..last], chans[last].def.field.byteOffset, k);
    }
  }
}
