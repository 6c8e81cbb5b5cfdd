/** Packed flag sets: 64-bit words that stand for a sequence of booleans. */
module Bitsets {
  import opened Bits

  /** Number of ones. */
  function OnesCount(w: nat): nat {
    if w == 0 then 0 else w % 2 + OnesCount(w / 2)
  }

  function CountTrue(s: seq<bool>): nat {
    if s == [] then 0 else CountTrue(s[..|s| - 1]) + if s[|s| - 1] then 1 else 0
  }

  /** The flags of one word, lowest bit first. */
  function Word(s: seq<bool>): nat {
    if s == [] then 0 else (if s[0] then 1 else 0) + 2 * Word(s[1..])
  }

  lemma {:induction false} WordBounded(s: seq<bool>)
    ensures Word(s) < Pow2(|s|)
  {
    if s != [] {
      WordBounded(s[1..]);
    }
  }

  /** One more flag in the next free bit. */
  lemma {:induction false} WordSnoc(s: seq<bool>, v: bool)
    ensures Word(s + [v]) == Word(s) + if v then Pow2(|s|) else 0
  {
    if s == [] {
      assert [] + [v] == [v] && [v][1..] == [];
      assert Word([v]) == (if v then 1 else 0) + 2 * Word([]);
    } else {
      assert (s + [v])[1..] == s[1..] + [v];
      WordSnoc(s[1..], v);
    }
  }

  lemma {:induction false} WordOnes(s: seq<bool>)
    ensures OnesCount(Word(s)) == CountTrue(s)
  {
    if s == [] {
    } else {
      WordOnes(s[1..]);
      CountCons(s);
      assert Word(s) / 2 == Word(s[1..]) && Word(s) % 2 == if s[0] then 1 else 0;
    }
  }

  lemma {:induction false} CountCons(s: seq<bool>)
    requires s != []
    ensures CountTrue(s) == (if s[0] then 1 else 0) + CountTrue(s[1..])
  {
    if |s| > 1 {
      CountCons(s[..|s| - 1]);
      assert s[..|s| - 1][1..] == s[1..][..|s| - 2];
    }
  }

  lemma {:induction false} CountJoin(a: seq<bool>, b: seq<bool>)
    ensures CountTrue(a + b) == CountTrue(a) + CountTrue(b)
  {
    if b == [] {
      assert a + b == a;
    } else {
      CountJoin(a, b[..|b| - 1]);
      assert (a + b)[..|a + b| - 1] == a + b[..|b| - 1];
    }
  }

  lemma {:induction false} WordBit(s: seq<bool>, i: nat)
    requires i < |s|
    ensures BitOf(Word(s), i) == if s[i] then 1 else 0
    decreases i
  {
    hide BitOf;
    assert Word(s) / 2 == Word(s[1..]) && Word(s) % 2 == if s[0] then 1 else 0;
    if i == 0 {
      BitZero(Word(s));
    } else {
      WordBit(s[1..], i - 1);
      HalfBit(Word(s), i);
    }
  }

  /** And with a single one tests that bit. */
  lemma {:induction false} AndBit(w: nat, i: nat)
    ensures And(w, Pow2(i)) != 0 <==> BitOf(w, i) == 1
    decreases i
  {
    hide BitOf;
    if i == 0 {
      BitZero(w);
      assert And(w / 2, 0) == 0;
    } else {
      HalfBit(w, i);
      AndBit(w / 2, i - 1);
      assert Pow2(i) % 2 == 0 && Pow2(i) / 2 == Pow2(i - 1);
    }
  }

  /** Or with a single one above all others adds it. */
  lemma OrBit(w: nat, i: nat)
    requires w < Pow2(i)
    ensures Or(w, Pow2(i)) == w + Pow2(i)
  {
    OrCommutes(w, Pow2(i));
    OrDisjoint(1, i, w);
  }

  class Bitset {
    var words: seq<nat>
    var n: nat
    /** The flags appended so far. */
    ghost var flags: seq<bool>

    ghost predicate Valid()
      reads this
    {
      && n == |flags| && |words| == (n + 63) / 64
      && forall k :: 0 <= k < |words| ==> words[k] == Word(Chunk(flags, k))
    }

    constructor ()
      ensures Valid() && flags == []
    {
      words, n, flags := [], 0, [];
    }

    method Append(v: bool)
      requires Valid()
      modifies this
      ensures Valid() && flags == old(flags) + [v]
    {
      hide Word, Or, Pow2;
      var k, j := n / 64, n % 64;
      ghost var was := flags;
      ChunksSnoc(was, v);
      if j == 0 {
        words := words + [0];
        NoFlags();
        assert Chunk(was, k) == [];
      }
      WordBounded(Chunk(was, k));
      WordSnoc(Chunk(was, k), v);
      if v {
        OrBit(words[k], j);
        words := words[k := Or(words[k], Pow2(j))];
      }
      n, flags := n + 1, flags + [v];
    }

    method Get(i: int) returns (v: bool)
      requires Valid()
      ensures v == (0 <= i < |flags| && flags[i])
    {
      hide Word, And, Pow2;
      if i < 0 || i >= n {
        return false;
      }
      var k, j := i / 64, i % 64;
      WordBit(Chunk(flags, k), j);
      AndBit(words[k], j);
      v := And(words[k], Pow2(j)) != 0;
    }

    method Len() returns (r: nat)
      requires Valid()
      ensures r == |flags|
    {
      r := n;
    }

    method Count() returns (c: nat)
      requires Valid()
      ensures c == CountTrue(flags)
    {
      hide Word, OnesCount;
      c := 0;
      for k := 0 to |words|
        invariant c == CountTrue(flags[..if 64 * k <= n then 64 * k else n])
      {
        WordOnes(Chunk(flags, k));
        ghost var a, b := 64 * k, if 64 * (k + 1) <= n then 64 * (k + 1) else n;
        assert a < n && Chunk(flags, k) == flags[a..b];
        CountJoin(flags[..a], flags[a..b]);
        assert flags[..a] + flags[a..b] == flags[..b];
        c := c + OnesCount(words[k]);
      }
      assert flags[..n] == flags;
    }
  }

  /** The flags that word k holds. */
  function Chunk(s: seq<bool>, k: nat): seq<bool> {
    var a, b := 64 * k, 64 * (k + 1);
    if a > |s| then [] else if b > |s| then s[a..] else s[a..b]
  }

  lemma NoFlags()
    ensures Word([]) == 0
  {
  }

  lemma ChunksSnoc(s: seq<bool>, v: bool)
    ensures forall k: nat :: k != |s| / 64 ==> Chunk(s + [v], k) == Chunk(s, k)
    ensures Chunk(s + [v], |s| / 64) == Chunk(s, |s| / 64) + [v] && |Chunk(s, |s| / 64)| == |s| % 64
  {
    forall k: nat | k != |s| / 64
      ensures Chunk(s + [v], k) == Chunk(s, k)
    {
      if 64 * k > |s| {
        assert 64 * k > |s + [v]| || (s + [v])[64 * k..] == [];
      }
    }
  }
}
