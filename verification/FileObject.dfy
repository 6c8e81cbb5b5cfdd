/** The file object: opening a file step by step, appending groups and channels while the block chains are walked. */
module FileObject {
  import opened Wire
  import opened Blocks
  import opened Meta
  import opened Sections
  import opened SectionReader
  import Tree

  /** What was collected so far, followed by what a walk still finds. */
  function After<T>(done: seq<T>, r: Result<seq<T>>): Result<seq<T>> {
    if r.Err? then r else Ok(done + r.value)
  }

  lemma NothingBefore<T>(r: Result<seq<T>>)
    ensures After([], r) == r
  {
    assert r.Ok? ==> [] + r.value == r.value;
  }

  class File {
    const env: Tree.Env
    const src: Bytes
    const cacheBytes: int
    const lookahead: nat
    var version: nat
    var finalize: bool
    var groups: seq<Tree.GroupView>

    constructor (env: Tree.Env, src: Bytes, cacheBytes: int, lookahead: nat)
      ensures this.env == env && this.src == src && groups == [] && !finalize
    {
      this.env, this.src, this.cacheBytes, this.lookahead := env, src, cacheBytes, lookahead;
      version, finalize, groups := 0, false, [];
    }

    /** Walks one channel chain. A chain with more blocks than the file has bytes is cyclic; the loop of the program
        would not end there. */
    method BuildChannels(first: int) returns (r: Result<seq<Tree.ChannelView>>)
      ensures r == Tree.BuildChannels(env, src, first, |src|)
    {
      hide DecodeCN, Tree.BuildChannel;
      var channels: seq<Tree.ChannelView> := [];
      var cna, fuel: nat := first, |src|;
      NothingBefore(Tree.BuildChannels(env, src, first, |src|));
      while cna != 0
        invariant After(channels, Tree.BuildChannels(env, src, cna, fuel)) == Tree.BuildChannels(env, src, first, |src|)
        decreases fuel
      {
        if fuel == 0 {
          return Err(CyclicChain);
        }
        var cn := DecodeCN(src, cna);
        if cn.Err? {
          return Err(cn.error);
        }
        var c := Tree.BuildChannel(env, src, cn.value);
        if c.Err? {
          return Err(c.error);
        }
        ghost var rest := Tree.BuildChannels(env, src, cn.value.next, fuel - 1);
        assert rest.Ok? ==> channels + ([c.value] + rest.value) == channels + [c.value] + rest.value;
        channels := channels + [c.value];
        cna, fuel := cn.value.next, fuel - 1;
      }
      assert channels + [] == channels;
      return Ok(channels);
    }

    method BuildGroup(dg: DG, cg: CG) returns (r: Result<Tree.GroupView>)
      ensures r == Tree.BuildGroup(env, src, dg, cg)
    {
      hide Tree.BuildChannels, DecodeText, Tree.CommentText;
      var name := DecodeText(src, cg.name);
      if name.Err? {
        return Err(name.error);
      }
      var comment := Tree.CommentText(env, src, cg.comment);
      if comment.Err? {
        return Err(comment.error);
      }
      var channels := BuildChannels(cg.cnFirst);
      if channels.Err? {
        return Err(channels.error);
      }
      return Ok(Tree.GroupView(name.value, comment.value, cg.count, cg.RecordSize(), cg.recordID, dg.recIdSize, dg.data,
                               channels.value));
    }

    /** Appends the channel groups of one data group; groups read before a failure stay. */
    method BuildGroups(dg: DG) returns (err: Option<Error>)
      modifies `groups
      ensures var r := Tree.BuildGroups(env, src, dg, dg.cgFirst, |src|);
              if r.Ok? then err == None && groups == old(groups) + r.value else err == Some(r.error)
    {
      hide DecodeCG, Tree.BuildGroup;
      var cga, fuel: nat := dg.cgFirst, |src|;
      while cga != 0
        invariant After(groups, Tree.BuildGroups(env, src, dg, cga, fuel))
                  == After(old(groups), Tree.BuildGroups(env, src, dg, dg.cgFirst, |src|))
        decreases fuel
      {
        if fuel == 0 {
          return Some(CyclicChain);
        }
        var cg := DecodeCG(src, cga);
        if cg.Err? {
          return Some(cg.error);
        }
        if !cg.value.IsVLSD() {
          var g := BuildGroup(dg, cg.value);
          if g.Err? {
            return Some(g.error);
          }
          ghost var rest := Tree.BuildGroups(env, src, dg, cg.value.next, fuel - 1);
          assert rest.Ok? ==> groups + ([g.value] + rest.value) == groups + [g.value] + rest.value;
          groups := groups + [g.value];
        }
        cga, fuel := cg.value.next, fuel - 1;
      }
      return None;
    }

    /** Appends the groups of every data group of the file. */
    method BuildTree(first: int) returns (err: Option<Error>)
      modifies `groups
      ensures var r := Tree.BuildTree(env, src, first, |src|);
              if r.Ok? then err == None && groups == old(groups) + r.value else err == Some(r.error)
    {
      hide DecodeDG, Tree.BuildGroups;
      var dga, fuel: nat := first, |src|;
      while dga != 0
        invariant After(groups, Tree.BuildTree(env, src, dga, fuel))
                  == After(old(groups), Tree.BuildTree(env, src, first, |src|))
        decreases fuel
      {
        if fuel == 0 {
          return Some(CyclicChain);
        }
        var dg := DecodeDG(src, dga);
        if dg.Err? {
          return Some(dg.error);
        }
        ghost var was := groups;
        err := BuildGroups(dg.value);
        if err.Some? {
          return;
        }
        ghost var gs := Tree.BuildGroups(env, src, dg.value, dg.value.cgFirst, |src|).value;
        ghost var rest := Tree.BuildTree(env, src, dg.value.next, fuel - 1);
        assert rest.Ok? ==> was + (gs + rest.value) == was + gs + rest.value;
        dga, fuel := dg.value.next, fuel - 1;
      }
      return None;
    }

    /** The record count of one group from the size of its data section. */
    method Recount(g: Tree.GroupView) returns (r: Option<Tree.GroupView>)
      ensures var want := Tree.FixCycleCount(src, g, finalize);
              (r.Some? <==> want.Ok?) && (r.Some? ==> r.value == want.value)
    {
      hide Resolve, SizeOf;
      if g.recordSize == 0 {
        return Some(g);
      }
      if g.recIdSize != 0 {
        return None;
      }
      var sd := Reader.New(src, env.z, g.data, cacheBytes, finalize, lookahead);
      if sd.Err? {
        return None;
      }
      return Some(g.(recordCount := sd.value.size / g.recordSize));
    }

    /** Overwrites every record count with what the data sections hold. */
    method FixCycleCounts() returns (ok: bool)
      modifies `groups
      ensures var r := Tree.FixCycleCounts(src, old(groups), finalize);
              (ok <==> r.Ok?) && (ok ==> groups == r.value)
    {
      hide Tree.FixCycleCount, Tree.FixCycleCounts, After;
      ghost var was := groups;
      NothingBefore(Tree.FixCycleCounts(src, was, finalize));
      assert was[0..] == was && was[..0] == [];
      for i := 0 to |groups|
        invariant |groups| == |was| && groups[i..] == was[i..]
        invariant After(groups[..i], Tree.FixCycleCounts(src, was[i..], finalize))
                  == Tree.FixCycleCounts(src, was, finalize)
      {
        assert groups[i] == groups[i..][0] == was[i];
        var g := Recount(groups[i]);
        RecountStep(src, groups[..i], was, i, finalize);
        if g.None? {
          return false;
        }
        assert groups[i..][1..] == groups[i + 1..] && was[i..][1..] == was[i + 1..];
        ghost var before := groups[..i];
        groups := groups[i := g.value];
        assert groups[..i + 1] == before + [g.value];
      }
      AllRecounted(src, groups, finalize);
      assert groups[..|was|] == groups && was[|was|..] == [];
      return true;
    }
  }

  lemma RecountStep(src: Bytes, done: seq<Tree.GroupView>, was: seq<Tree.GroupView>, i: nat, finalize: bool)
    requires i < |was|
    ensures var g, r := Tree.FixCycleCount(src, was[i], finalize),
        After(done, Tree.FixCycleCounts(src, was[i..], finalize));
            if g.Err? then r.Err?
            else r == After(done + [g.value], Tree.FixCycleCounts(src, was[i + 1..], finalize))
  {
    hide Tree.FixCycleCount;
    assert was[i..][0] == was[i] && was[i..][1..] == was[i + 1..];
    var g, rest := Tree.FixCycleCount(src, was[i], finalize), Tree.FixCycleCounts(src, was[i + 1..], finalize);
    if g.Ok? && rest.Ok? {
      assert done + ([g.value] + rest.value) == done + [g.value] + rest.value;
    }
  }

  lemma AllRecounted(src: Bytes, done: seq<Tree.GroupView>, finalize: bool)
    ensures After(done, Tree.FixCycleCounts(src, [], finalize)) == Ok(done)
  {
    assert done + [] == done;
  }

  /** newFile: identification, finalization decision, tree, recomputed counts. */
  method OpenFile(env: Tree.Env, src: Bytes, cacheBytes: int, lookahead: nat) returns (file: Option<File>)
    ensures var r := Tree.Open(env, src);
            && (file.Some? <==> r.Ok?)
            && (file.Some? ==>
                fresh(file.value)
                && r.value == Tree.FileView(file.value.version, file.value.finalize, file.value.groups))
  {
    hide DecodeID, DecodeHD, Tree.BuildTree, Tree.FixCycleCounts;
    var id := DecodeID(src);
    if id.Err? || id.value.version < 400 {
      return None;
    }
    if id.value.unfinalized && (id.value.custom != 0 || !Tree.Fixable(id.value.flags)) {
      return None;
    }
    var dgFirst := DecodeHD(src, ID_SIZE);
    if dgFirst.Err? {
      return None;
    }
    var f := new File(env, src, cacheBytes, lookahead);
    f.version, f.finalize := id.value.version, id.value.unfinalized;
    var err := f.BuildTree(dgFirst.value);
    if err.Some? {
      return None;
    }
    NothingBefore(Tree.BuildTree(env, src, dgFirst.value, |src|));
    if f.finalize && id.value.flags % 2 != 0 {
      var ok := f.FixCycleCounts();
      if !ok {
        return None;
      }
    }
    return Some(f);
  }
}
