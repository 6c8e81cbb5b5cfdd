/** Opening a file: identification, finalization decision, and the walk over data groups, channel groups
    and channels. */
module Tree {
  import opened Wire
  import opened Blocks
  import opened Meta
  import opened Sections
  import opened Zip

  /** Foreign code: zlib, and the extraction of the TX element from an XML comment. */
  datatype Env = Env(z: Zlib, xmlTX: Bytes -> Option<Bytes>)

  datatype ChannelView = ChannelView(name: Bytes, unit: Bytes, comment: Bytes, field: Field, bitOffset: Byte,
                                     flags: nat, invalBitPos: nat, composition: int, data: int, cc: Option<CC>)

  datatype GroupView = GroupView(name: Bytes, comment: Bytes, recordCount: int, recordSize: nat, recordID: nat,
                                 recIdSize: nat, data: int, channels: seq<ChannelView>)

  datatype FileView = FileView(version: nat, finalize: bool, groups: seq<GroupView>)

  function CommentText(env: Env, f: Bytes, addr: int): Result<Bytes> {
    var s :- DecodeText(f, addr);
    if s == [] || s[0] != 0x3C then Ok(s)
    else
      match env.xmlTX(s)
      case Some(t) => Ok(if t != [] then t else s)
      case None => Ok(s)
  }

  function BuildChannel(env: Env, f: Bytes, cn: CN): Result<ChannelView> {
    var name :- DecodeText(f, cn.name);
    var unit :- CommentText(env, f, cn.unit);
    var comment :- CommentText(env, f, cn.comment);
    var cc :- DecodeCC(f, cn.cc);
    var ccUnit :- if unit == [] && cc.Some? then CommentText(env, f, cc.value.unit) else Ok(unit);
    Ok(ChannelView(name, ccUnit, comment, cn.field, cn.bitOffset, cn.flags, cn.invalBitPos, cn.composition,
                   cn.data, cc))
  }

  /** The channel chain of one group. As for every chain walked here, fuel is the file's size: more blocks
      than bytes means the chain is cyclic and the program would not return. */
  function BuildChannels(env: Env, f: Bytes, addr: int, fuel: nat): Result<seq<ChannelView>>
    decreases fuel
  {
    if addr == 0 then Ok([])
    else if fuel == 0 then Err(CyclicChain)
    else
      var cn :- DecodeCN(f, addr);
      var c :- BuildChannel(env, f, cn);
      var rest :- BuildChannels(env, f, cn.next, fuel - 1);
      Ok([c] + rest)
  }

  function BuildGroup(env: Env, f: Bytes, dg: DG, cg: CG): Result<GroupView> {
    var name :- DecodeText(f, cg.name);
    var comment :- CommentText(env, f, cg.comment);
    var channels :- BuildChannels(env, f, cg.cnFirst, |f|);
    Ok(GroupView(name, comment, cg.count, cg.RecordSize(), cg.recordID, dg.recIdSize, dg.data, channels))
  }

  /** VLSD service groups hold data of other channels and are not user-facing. */
  function BuildGroups(env: Env, f: Bytes, dg: DG, addr: int, fuel: nat): Result<seq<GroupView>>
    decreases fuel
  {
    if addr == 0 then Ok([])
    else if fuel == 0 then Err(CyclicChain)
    else
      var cg :- DecodeCG(f, addr);
      if cg.IsVLSD() then BuildGroups(env, f, dg, cg.next, fuel - 1)
      else
        var g :- BuildGroup(env, f, dg, cg);
        var rest :- BuildGroups(env, f, dg, cg.next, fuel - 1);
        Ok([g] + rest)
  }

  function BuildTree(env: Env, f: Bytes, addr: int, fuel: nat): Result<seq<GroupView>>
    decreases fuel
  {
    if addr == 0 then Ok([])
    else if fuel == 0 then Err(CyclicChain)
    else
      var dg :- DecodeDG(f, addr);
      var gs :- BuildGroups(env, f, dg, dg.cgFirst, |f|);
      var rest :- BuildTree(env, f, dg.next, fuel - 1);
      Ok(gs + rest)
  }

  /** Recomputes a record count from the data actually there. */
  function FixCycleCount(f: Bytes, g: GroupView, finalize: bool): Result<GroupView> {
    if g.recordSize == 0 then Ok(g)
    else if g.recIdSize != 0 then Err(Unsupported)
    else
      var segs :- Resolve(f, g.data, finalize);
      Ok(g.(recordCount := SizeOf(segs) / g.recordSize))
  }

  function FixCycleCounts(f: Bytes, gs: seq<GroupView>, finalize: bool): Result<seq<GroupView>> {
    if gs == [] then Ok([])
    else
      var g :- FixCycleCount(f, gs[0], finalize);
      var rest :- FixCycleCounts(f, gs[1..], finalize);
      Ok([g] + rest)
  }

  /** Finalization flags this reader can honour in memory: bits 0, 1, 2, 3 and 5. */
  predicate Fixable(flags: nat) {
    flags / 64 == 0 && flags / 16 % 2 == 0
  }

  function Open(env: Env, f: Bytes): Result<FileView> {
    var id :- DecodeID(f);
    if id.version < 400 then Err(NotMDF4)
    else if id.unfinalized && (id.custom != 0 || !Fixable(id.flags)) then Err(Unfinalized)
    else
      var dgFirst :- DecodeHD(f, ID_SIZE);
      var groups :- BuildTree(env, f, dgFirst, |f|);
      var fixed :- if id.unfinalized && id.flags % 2 != 0 then FixCycleCounts(f, groups, true) else Ok(groups);
      Ok(FileView(id.version, id.unfinalized, fixed))
  }

  /** The section behind a link holds exactly these bytes. */
  ghost predicate SectionIs(f: Bytes, z: Zlib, addr: int, clamp: bool, content: Bytes) {
    var r := Resolve(f, addr, clamp);
    r.Ok? && SectionHolds(f, z, r.value, content)
  }

  ghost predicate SectionHolds(f: Bytes, z: Zlib, segs: seq<Segment>, content: Bytes) {
    && Disjoint(segs)
    && SizeOf(segs) == |content|
    && forall k: nat :: k < |content| ==> ByteAt(f, z, segs, k) == Some(content[k])
  }
}
