/** The cache of decompressed payloads: its operations, what every interleaving of them keeps, and the
    object that performs them. */
module Lru {
  import opened Wire

  /** Least recently used key first in `order`. */
  datatype Cache = Cache(budget: int, size: int, entries: map<int, Bytes>, order: seq<int>)

  const DEFAULT_BUDGET: int := 0x800_0000

  function Empty(budget: int): Cache {
    Cache(if budget <= 0 then DEFAULT_BUDGET else budget, 0, map[], [])
  }

  function Without(order: seq<int>, key: int): seq<int> {
    if order == [] then []
    else if order[0] == key then order[1..]
    else [order[0]] + Without(order[1..], key)
  }

  function Touch(order: seq<int>, key: int): seq<int> {
    Without(order, key) + [key]
  }

  function Get(c: Cache, key: int): (Cache, Option<Bytes>) {
    if key in c.entries then (c.(order := Touch(c.order, key)), Some(c.entries[key])) else (c, None)
  }

  /** Drops entries from the old end until `need` more bytes fit, or nothing is left. */
  function Evict(c: Cache, need: nat): Cache
    decreases |c.order|
  {
    if c.size + need > c.budget && c.order != [] then
      var oldest := c.order[0];
      Evict(Cache(c.budget, c.size - (if oldest in c.entries then |c.entries[oldest]| else 0),
                  c.entries - {oldest}, c.order[1..]), need)
    else c
  }

  function Put(c: Cache, key: int, buf: Bytes): Cache {
    if key in c.entries then c.(order := Touch(c.order, key))
    else
      var e := Evict(c, |buf|);
      Cache(e.budget, e.size + |buf|, e.entries[key := buf], e.order + [key])
  }

  // ---- what the operations keep ----

  function TotalLength(entries: map<int, Bytes>, order: seq<int>): int {
    if order == [] then 0
    else (if order[0] in entries then |entries[order[0]]| else 0) + TotalLength(entries, order[1..])
  }

  ghost predicate Distinct(s: seq<int>) {
    forall i, j :: 0 <= i < j < |s| ==> s[i] != s[j]
  }

  ghost predicate CacheInv(c: Cache) {
    && c.budget > 0
    && Distinct(c.order)
    && (forall k :: k in c.order <==> k in c.entries)
    && c.size == TotalLength(c.entries, c.order)
    && (c.size <= c.budget || |c.order| == 1)
  }

  /** Index after the last access to key in the history, 0 when it was never accessed. */
  function LastUse(history: seq<int>, key: int): (n: nat)
    ensures n <= |history|
    ensures n > 0 <==> key in history
  {
    if history == [] then 0
    else if history[|history| - 1] == key then |history|
    else LastUse(history[..|history| - 1], key)
  }

  /** `order` lists its keys by time of last access. */
  ghost predicate RecencyOrder(order: seq<int>, history: seq<int>) {
    && (forall i :: 0 <= i < |order| ==> LastUse(history, order[i]) > 0)
    && (forall i, j :: 0 <= i < j < |order| ==> LastUse(history, order[i]) < LastUse(history, order[j]))
  }

  lemma WithoutCons(order: seq<int>, key: int)
    requires order != []
    ensures Without(order, key) == if order[0] == key then order[1..] else [order[0]] + Without(order[1..], key)
  {
  }

  lemma {:induction false} WithoutProps(order: seq<int>, key: int)
    requires Distinct(order)
    ensures Distinct(Without(order, key)) && key !in Without(order, key)
    ensures forall k :: k in Without(order, key) <==> k in order && k != key
  {
    if order != [] {
      var rest := order[1..];
      assert forall i :: 0 <= i < |rest| ==> rest[i] == order[i + 1];
      WithoutProps(rest, key);
      assert order == [order[0]] + rest;
      assert order[0] !in rest;
      assert order[0] !in Without(rest, key);
    }
  }

  lemma {:induction false} WithoutFirst(order: seq<int>, key: int, i: nat)
    requires i <= |order| && (forall k :: 0 <= k < i ==> order[k] != key) && (i < |order| ==> order[i] == key)
    ensures Without(order, key) == if i < |order| then order[..i] + order[i + 1..] else order
  {
    if i == 0 {
      assert order != [] ==> order[..0] + order[1..] == order[1..];
    } else {
      hide Without;
      var rest := order[1..];
      WithoutFirst(rest, key, i - 1);
      WithoutCons(order, key);
      Gapped(order, i);
    }
  }

  lemma Gapped(order: seq<int>, i: nat)
    requires 0 < i <= |order|
    ensures order == [order[0]] + order[1..]
    ensures i < |order| ==> order[..i] + order[i + 1..] == [order[0]] + (order[1..][..i - 1] + order[1..][i..])
  {
  }

  lemma RestRecency(order: seq<int>, h: seq<int>)
    requires order != [] && Distinct(order) && RecencyOrder(order, h)
    ensures Distinct(order[1..]) && RecencyOrder(order[1..], h) && LastUse(h, order[0]) > 0
    ensures forall k :: k in order[1..] ==> LastUse(h, order[0]) < LastUse(h, k)
  {
    hide LastUse;
  }

  lemma FirstRecency(first: int, rest: seq<int>, h: seq<int>)
    requires RecencyOrder(rest, h) && LastUse(h, first) > 0
    requires forall k :: k in rest ==> LastUse(h, first) < LastUse(h, k)
    ensures RecencyOrder([first] + rest, h)
  {
    hide LastUse;
  }

  lemma {:induction false} WithoutRecency(order: seq<int>, key: int, h: seq<int>)
    requires Distinct(order) && RecencyOrder(order, h)
    ensures RecencyOrder(Without(order, key), h)
  {
    hide RecencyOrder, Distinct, LastUse;
    if order != [] {
      RestRecency(order, h);
      WithoutCons(order, key);
      if order[0] != key {
        WithoutRecency(order[1..], key, h);
        WithoutProps(order[1..], key);
        FirstRecency(order[0], Without(order[1..], key), h);
      }
    }
  }

  lemma {:induction false} TotalWithout(entries: map<int, Bytes>, order: seq<int>, key: int)
    requires key in order && key in entries
    ensures TotalLength(entries, order) == |entries[key]| + TotalLength(entries, Without(order, key))
  {
    if order[0] != key {
      assert order == [order[0]] + order[1..];
      TotalWithout(entries, order[1..], key);
      assert Without(order, key)[1..] == Without(order[1..], key);
    }
  }

  lemma {:induction false} TotalSnoc(entries: map<int, Bytes>, order: seq<int>, key: int)
    requires key in entries
    ensures TotalLength(entries, order + [key]) == TotalLength(entries, order) + |entries[key]|
  {
    if order == [] {
      assert order + [key] == [key];
    } else {
      assert (order + [key])[1..] == order[1..] + [key];
      TotalSnoc(entries, order[1..], key);
    }
  }

  lemma {:induction false} TotalAgrees(a: map<int, Bytes>, b: map<int, Bytes>, order: seq<int>)
    requires forall k :: k in order ==> k in a && k in b && a[k] == b[k]
    ensures TotalLength(a, order) == TotalLength(b, order)
  {
    if order != [] {
      assert forall k :: k in order[1..] ==> k in order;
      var first := order[0];
      assert first in order;
      assert a[first] == b[first];
      TotalAgrees(a, b, order[1..]);
    }
  }

  lemma {:induction false} TotalNonNegative(entries: map<int, Bytes>, order: seq<int>)
    ensures TotalLength(entries, order) >= 0
  {
    if order != [] {
      TotalNonNegative(entries, order[1..]);
    }
  }

  /** Accessing a key moves it to the most recent place. */
  lemma TouchKeeps(c: Cache, key: int, history: seq<int>)
    requires CacheInv(c) && RecencyOrder(c.order, history) && key in c.entries
    ensures CacheInv(c.(order := Touch(c.order, key)))
    ensures RecencyOrder(Touch(c.order, key), history + [key])
  {
    var w := Without(c.order, key);
    WithoutProps(c.order, key);
    TotalWithout(c.entries, c.order, key);
    TotalSnoc(c.entries, w, key);
    WithoutRecency(c.order, key, history);
    RecencySnoc(w, history, key);
  }

  lemma RecencySnoc(order: seq<int>, history: seq<int>, key: int)
    requires RecencyOrder(order, history) && key !in order
    ensures RecencyOrder(order + [key], history + [key])
  {
    var h := history + [key];
    assert h[..|h| - 1] == history;
    forall i | 0 <= i < |order|
      ensures LastUse(h, order[i]) == LastUse(history, order[i])
    {
      assert order[i] in order;
    }
  }

  lemma TailRecency(order: seq<int>, history: seq<int>)
    requires order != [] && Distinct(order) && RecencyOrder(order, history)
    ensures Distinct(order[1..]) && RecencyOrder(order[1..], history)
  {
    var rest := order[1..];
    assert forall i :: 0 <= i < |rest| ==> rest[i] == order[i + 1];
  }

  lemma {:induction false} EvictKeeps(c: Cache, need: nat, history: seq<int>)
    requires c.budget > 0 && Distinct(c.order) && RecencyOrder(c.order, history)
    requires forall k :: k in c.order <==> k in c.entries
    requires c.size == TotalLength(c.entries, c.order)
    ensures var e := Evict(c, need);
            && e.budget == c.budget && Distinct(e.order) && RecencyOrder(e.order, history)
            && (forall k :: k in e.order <==> k in e.entries)
            && e.size == TotalLength(e.entries, e.order)
            && (e.size + need <= e.budget || e.order == [])
            && (forall k :: k in e.entries ==> k in c.entries && e.entries[k] == c.entries[k])
    decreases |c.order|
  {
    if c.size + need > c.budget && c.order != [] {
      var oldest, rest := c.order[0], c.order[1..];
      var d := Cache(c.budget, c.size - |c.entries[oldest]|, c.entries - {oldest}, rest);
      assert c.order == [oldest] + rest;
      assert oldest !in rest;
      TailRecency(c.order, history);
      TotalAgrees(c.entries, d.entries, rest);
      hide RecencyOrder;
      EvictKeeps(d, need, history);
    }
  }

  /** Inserting keeps the bookkeeping exact and the budget, save for one oversized payload held alone. */
  lemma PutKeeps(c: Cache, key: int, buf: Bytes, history: seq<int>)
    requires CacheInv(c) && RecencyOrder(c.order, history)
    ensures CacheInv(Put(c, key, buf)) && RecencyOrder(Put(c, key, buf).order, history + [key])
    ensures key in Put(c, key, buf).entries
    ensures Put(c, key, buf).entries[key] == if key in c.entries then c.entries[key] else buf
    ensures forall k :: k in Put(c, key, buf).entries && k != key ==>
              k in c.entries && Put(c, key, buf).entries[k] == c.entries[k]
  {
    if key in c.entries {
      TouchKeeps(c, key, history);
      WithoutProps(c.order, key);
    } else {
      EvictKeeps(c, |buf|, history);
      var e := Evict(c, |buf|);
      var p := Put(c, key, buf);
      assert key !in e.order;
      RecencySnoc(e.order, history, key);
      TotalAgrees(e.entries, p.entries, e.order);
      TotalSnoc(p.entries, e.order, key);
      TotalNonNegative(e.entries, e.order);
    }
  }

  // ---- concurrent readers ----

  /** Where one goroutine stands inside `decompressed`. */
  datatype Thread = Idle | Missed(key: int) | Returned(key: int, value: Bytes)

  datatype System = System(cache: Cache, threads: map<nat, Thread>, history: seq<int>)

  /** Each action is one critical section of the cache's mutex, or the return to idle. */
  datatype Action = BeginGet(t: nat, key: int) | FinishPut(t: nat) | Leave(t: nat)

  ghost predicate Enabled(s: System, a: Action) {
    match a
    case BeginGet(t, _) => t in s.threads && s.threads[t].Idle?
    case FinishPut(t) => t in s.threads && s.threads[t].Missed?
    case Leave(t) => t in s.threads && s.threads[t].Returned?
  }

  /** `decode` is what decompressing the segment at a key yields, None when that fails. */
  function Step(s: System, a: Action, decode: int -> Option<Bytes>): System
    requires Enabled(s, a)
  {
    match a
    case BeginGet(t, key) =>
      var (c, hit) := Get(s.cache, key);
      if hit.Some? then System(c, s.threads[t := Returned(key, hit.value)], s.history + [key])
      else System(c, s.threads[t := Missed(key)], s.history)
    case FinishPut(t) =>
      var key := s.threads[t].key;
      (match decode(key)
       case None => s.(threads := s.threads[t := Idle])
       case Some(buf) => System(Put(s.cache, key, buf), s.threads[t := Returned(key, buf)], s.history + [key]))
    case Leave(t) => s.(threads := s.threads[t := Idle])
  }

  ghost predicate SystemInv(s: System, decode: int -> Option<Bytes>) {
    && CacheInv(s.cache)
    && RecencyOrder(s.cache.order, s.history)
    && (forall k :: k in s.cache.entries ==> decode(k) == Some(s.cache.entries[k]))
    && (forall t :: t in s.threads && s.threads[t].Returned? ==> decode(s.threads[t].key) == Some(s.threads[t].value))
  }

  ghost predicate IsRun(s: System, actions: seq<Action>, decode: int -> Option<Bytes>)
    decreases |actions|
  {
    actions == [] || (Enabled(s, actions[0]) && IsRun(Step(s, actions[0], decode), actions[1..], decode))
  }

  ghost function RunOf(s: System, actions: seq<Action>, decode: int -> Option<Bytes>): System
    requires IsRun(s, actions, decode)
    decreases |actions|
  {
    if actions == [] then s else RunOf(Step(s, actions[0], decode), actions[1..], decode)
  }

  lemma StepKeepsInv(s: System, a: Action, decode: int -> Option<Bytes>)
    requires SystemInv(s, decode) && Enabled(s, a)
    ensures SystemInv(Step(s, a, decode), decode)
  {
    hide CacheInv, RecencyOrder, Put;
    match a
    case BeginGet(t, key) =>
      if key in s.cache.entries {
        TouchKeeps(s.cache, key, s.history);
      }
    case FinishPut(t) =>
      var key := s.threads[t].key;
      if decode(key).Some? {
        PutKeeps(s.cache, key, decode(key).value, s.history);
      }
    case Leave(t) =>
  }

  /** Any number of goroutines, any interleaving, also two that missed the same key: the cache stays
      consistent and within budget, and every read returns the decoding of its segment. */
  lemma {:induction false} EveryInterleavingKeepsInv(s: System, actions: seq<Action>, decode: int -> Option<Bytes>)
    requires SystemInv(s, decode) && IsRun(s, actions, decode)
    ensures SystemInv(RunOf(s, actions, decode), decode)
    decreases |actions|
  {
    if actions != [] {
      StepKeepsInv(s, actions[0], decode);
      EveryInterleavingKeepsInv(Step(s, actions[0], decode), actions[1..], decode);
    }
  }

  lemma StartsConsistent(budget: int, threads: map<nat, Thread>, decode: int -> Option<Bytes>)
    requires forall t :: t in threads ==> threads[t].Idle?
    ensures SystemInv(System(Empty(budget), threads, []), decode)
  {
  }

  /** From the empty cache on: after any interleaving of any goroutines no entry is doubled or lost track of, at most
      one entry exceeds the budget, the order is that of the last accesses, and what the cache or a goroutine holds is
      the decoding of its segment. */
  lemma EveryRunFromEmpty(budget: int, threads: map<nat, Thread>, actions: seq<Action>, decode: int -> Option<Bytes>)
    requires forall t :: t in threads ==> threads[t].Idle?
    requires IsRun(System(Empty(budget), threads, []), actions, decode)
    ensures SystemInv(RunOf(System(Empty(budget), threads, []), actions, decode), decode)
  {
    hide SystemInv, RunOf, IsRun, Empty;
    StartsConsistent(budget, threads, decode);
    EveryInterleavingKeepsInv(System(Empty(budget), threads, []), actions, decode);
  }

  // ---- the cache object ----

  lemma EvictStep(c: Cache, need: nat)
    requires c.size + need > c.budget && c.order != []
    ensures var oldest := c.order[0];
            Evict(c, need)
            == Evict(Cache(c.budget, c.size - (if oldest in c.entries then |c.entries[oldest]| else 0),
                           c.entries - {oldest}, c.order[1..]), need)
  {
  }

  lemma EvictDone(c: Cache, need: nat)
    requires c.size + need <= c.budget || c.order == []
    ensures Evict(c, need) == c
  {
  }

  class LruCache {
    var budget: int
    var size: int
    var entries: map<int, Bytes>
    var order: seq<int>
    /** Every access so far, oldest first. */
    ghost var history: seq<int>

    function State(): Cache
      reads this
    {
      Cache(budget, size, entries, order)
    }

    ghost predicate Valid()
      reads this
    {
      CacheInv(State()) && RecencyOrder(order, history)
    }

    constructor (limit: int)
      ensures Valid() && State() == Empty(limit) && history == []
    {
      budget := if limit <= 0 then DEFAULT_BUDGET else limit;
      size, entries, order := 0, map[], [];
      history := [];
    }

    method TouchKey(key: int)
      requires Valid() && key in entries
      modifies this`order, this`history
      ensures Valid() && order == Touch(old(order), key) && history == old(history) + [key]
    {
      hide CacheInv, RecencyOrder;
      TouchKeeps(State(), key, history);
      var i := 0;
      while i < |order| && order[i] != key
        invariant 0 <= i <= |order|
        invariant order == old(order)
        invariant forall k :: 0 <= k < i ==> order[k] != key
      {
        i := i + 1;
      }
      WithoutFirst(order, key, i);
      if i < |order| {
        order := order[..i] + order[i + 1..];
      }
      order := order + [key];
      history := history + [key];
    }

    method Lookup(key: int) returns (buf: Option<Bytes>)
      requires Valid()
      modifies this`order, this`history
      ensures Valid() && (State(), buf) == Get(old(State()), key)
      ensures history == old(history) + if buf.Some? then [key] else []
    {
      if key in entries {
        TouchKey(key);
        buf := Some(entries[key]);
      } else {
        buf := None;
      }
    }

    method Insert(key: int, buf: Bytes)
      requires Valid()
      modifies this
      ensures Valid() && State() == Put(old(State()), key, buf) && history == old(history) + [key]
    {
      hide CacheInv, RecencyOrder, Evict;
      PutKeeps(State(), key, buf, history);
      if key in entries {
        TouchKey(key);
        return;
      }
      while size + |buf| > budget && order != []
        invariant history == old(history)
        invariant Evict(State(), |buf|) == Evict(old(State()), |buf|)
        decreases |order|
      {
        EvictStep(State(), |buf|);
        var oldest := order[0];
        order := order[1..];
        size := size - if oldest in entries then |entries[oldest]| else 0;
        entries := entries - {oldest};
      }
      EvictDone(State(), |buf|);
      entries := entries[key := buf];
      size := size + |buf|;
      order := order + [key];
      history := history + [key];
    }
  }
}
