/** From a conversion block to the compiled rule: what every kind of block means for a value, and the compiler. */
module Rules {
  import opened Wire
  import opened Numbers
  import opened Tables
  import opened Formula
  import opened Conversions
  import FC = FormulaCompiler

  const IDENTITY := 0
  const LINEAR := 1
  const RATIONAL := 2
  const ALGEBRAIC := 3
  const TAB_INTERP := 4
  const TAB := 5
  const RANGE_TO_VALUE := 6
  const VALUE_TO_TEXT := 7
  const RANGE_TO_TEXT := 8
  const TEXT_TO_VALUE := 9
  const TEXT_TO_TEXT := 10
  const BITFIELD_TO_TEXT := 11

  /** The parameters of a conversion block; the references are resolved apart. */
  datatype Params = Params(kind: nat, vals: seq<Number>, masks: seq<nat>)

  // ---- what a block means ----

  predicate FormulaMeans(lib: Library, text: string) {
    Parse(text).Some? && Meaningful(Alg(lib), Parse(text).value)
  }

  /** Blocks with enough values and references for their kind. */
  predicate Complete(lib: Library, p: Params, refs: seq<Ref>) {
    var n := |p.vals|;
    if p.kind == IDENTITY || p.kind == TEXT_TO_TEXT then true
    else if p.kind == LINEAR then n >= 2
    else if p.kind == RATIONAL then n >= 6
    else if p.kind == ALGEBRAIC then |refs| >= 1 && FormulaMeans(lib, refs[0].text)
    else if p.kind == TAB_INTERP || p.kind == TAB then n >= 2
    else if p.kind == RANGE_TO_VALUE then n >= 3 * (n / 3) + 1
    else if p.kind == VALUE_TO_TEXT then |refs| >= n + 1
    else if p.kind == RANGE_TO_TEXT then |refs| >= n / 2 + 1
    else if p.kind == TEXT_TO_VALUE then n >= |refs| + 1
    else p.kind == BITFIELD_TO_TEXT && |refs| >= |p.masks|
  }

  /** Every second value, from the first or the second on. */
  function Half(v: seq<Number>, o: nat): (r: seq<Number>)
    requires o < 2
    ensures |r| == |v| / 2 && forall i :: 0 <= i < |r| ==> r[i] == v[2 * i + o]
  {
    seq(|v| / 2, i requires 0 <= i < |v| / 2 => v[2 * i + o])
  }

  /** Ranges stored as pairs of bounds. */
  function PairRanges(v: seq<Number>): (r: seq<Range>)
    ensures |r| == |v| / 2 && forall i :: 0 <= i < |r| ==> r[i] == Range(v[2 * i], v[2 * i + 1])
  {
    seq(|v| / 2, i requires 0 <= i < |v| / 2 => Range(v[2 * i], v[2 * i + 1]))
  }

  /** Ranges stored as bounds and value. */
  function TripleRanges(v: seq<Number>): (r: seq<Range>)
    ensures |r| == |v| / 3 && forall i :: 0 <= i < |r| ==> r[i] == Range(v[3 * i], v[3 * i + 1])
  {
    seq(|v| / 3, i requires 0 <= i < |v| / 3 => Range(v[3 * i], v[3 * i + 1]))
  }

  function Quotient(v: seq<Number>, x: Number): Number
    requires |v| >= 6
  {
    Div(Poly(Quadratic(v[0], v[1], v[2]), x), Poly(Quadratic(v[3], v[4], v[5]), x))
  }

  predicate UnitRational(v: seq<Number>) {
    |v| >= 6 && v[0] == v[2] == v[3] == v[4] == ZERO && v[1] == v[5] == ONE
  }

  /** The rational rule skipped as an identity is one for every value that is not infinite. */
  lemma UnitQuotient(v: seq<Number>, x: Number)
    requires UnitRational(v)
    ensures Quotient(v, x) == x <==> !x.Infinite?
  {
    if x.Real? {
      UnitPolys(x.value);
      assert x.value / 1.0 == x.value;
    }
  }

  lemma UnitPolys(x: real)
    ensures Poly(Quadratic(ZERO, ONE, ZERO), Real(x)) == Real(x) && Poly(Quadratic(ZERO, ZERO, ONE), Real(x)) == ONE
  {
    assert 0.0 * x == 0.0 && 1.0 * x == x;
  }

  /** The linear rule skipped as an identity is one for every value. */
  lemma UnitLine(x: Number)
    ensures Add(Mul(ONE, x), ZERO) == x
  {
    if x.Real? {
      assert 1.0 * x.value == x.value;
    }
  }

  /** The default entry of a table of texts. */
  function Default(p: Params, refs: seq<Ref>): Ref
    requires (p.kind == VALUE_TO_TEXT && |refs| > |p.vals|) || (p.kind == RANGE_TO_TEXT && |refs| > |p.vals| / 2)
  {
    if p.kind == VALUE_TO_TEXT then refs[|p.vals|] else refs[|p.vals| / 2]
  }

  /** The entry a value selects. */
  function Entry(p: Params, refs: seq<Ref>, intIn: bool, x: Number): Ref
    requires (p.kind == VALUE_TO_TEXT && |refs| > |p.vals|) || (p.kind == RANGE_TO_TEXT && |refs| > |p.vals| / 2)
  {
    var i := if p.kind == VALUE_TO_TEXT then FirstKey(p.vals, x, 0) else FirstInside(PairRanges(p.vals), intIn, x, 0);
    if i >= 0 then refs[i] else Default(p, refs)
  }

  /** A value of the block's kind as a number. */
  function Physical(lib: Library, p: Params, refs: seq<Ref>, intIn: bool, x: Number): Option<Number>
    requires Complete(lib, p, refs)
  {
    var v := p.vals;
    if p.kind == LINEAR then Some(Add(Mul(v[1], x), v[0]))
    else if p.kind == RATIONAL then Some(if UnitRational(v) then x else Quotient(v, x))
    else if p.kind == ALGEBRAIC then Some(Eval(Alg(lib), Parse(refs[0].text).value, x))
    else if p.kind == TAB_INTERP || p.kind == TAB then TableValue(Half(v, 0), Half(v, 1), x, p.kind == TAB_INTERP)
    else if p.kind == RANGE_TO_VALUE then
      var i := FirstInside(TripleRanges(v), intIn, x, 0);
      Some(if i >= 0 then v[3 * i + 2] else v[3 * (|v| / 3)])
    else if p.kind == VALUE_TO_TEXT || p.kind == RANGE_TO_TEXT then NumberOf(Entry(p, refs, intIn, x), x)
    else Some(x)
  }

  /** The last of the first n entries with this text. */
  function LastText(texts: seq<string>, s: string, n: nat): (i: int)
    requires n <= |texts|
    ensures -1 <= i < n && (i >= 0 ==> texts[i] == s) && forall j :: i < j < n ==> texts[j] != s
  {
    if n == 0 then -1 else if texts[n - 1] == s then n - 1 else LastText(texts, s, n - 1)
  }

  function Keys(refs: seq<Ref>): (r: seq<string>)
    ensures |r| == |refs| && forall i :: 0 <= i < |refs| ==> r[i] == refs[i].text
  {
    seq(|refs|, i requires 0 <= i < |refs| => refs[i].text)
  }

  function PairKeys(refs: seq<Ref>): (r: seq<string>)
    ensures |r| == |refs| / 2 && forall i :: 0 <= i < |r| ==> r[i] == refs[2 * i].text
  {
    seq(|refs| / 2, i requires 0 <= i < |refs| / 2 => refs[2 * i].text)
  }

  function PairTexts(refs: seq<Ref>): (r: seq<string>)
    ensures |r| == |refs| / 2 && forall i :: 0 <= i < |r| ==> r[i] == refs[2 * i + 1].text
  {
    seq(|refs| / 2, i requires 0 <= i < |refs| / 2 => refs[2 * i + 1].text)
  }

  /** What the rule does, told by the block alone. */
  ghost predicate Means(lib: Library, p: Params, refs: seq<Ref>, intIn: bool, c: Option<Rule>)
    requires Complete(lib, p, refs)
  {
    if p.kind == BITFIELD_TO_TEXT then c == Some(BitText(p.masks, refs))
    else if p.kind == TEXT_TO_VALUE then
      c.Some? && c.value.FromText? && forall s: string :: Value(c.value, s) == Reading(p, refs, s)
    else if p.kind == TEXT_TO_TEXT then
      c.Some? && c.value.TextText? && Substitutes(refs, c.value)
    else if (p.kind == VALUE_TO_TEXT || p.kind == RANGE_TO_TEXT) && !NumericDominant(Default(p, refs)) then
      && c.Some? && Textual(c.value)
      && forall x :: Text(lib, c.value, x) == Rendered(lib, Entry(p, refs, intIn, x), x)
    else
      && (c.Some? ==> !Textual(c.value) && !TextInput(c.value))
      && Computes(lib, p, refs, intIn, c)
  }

  ghost predicate Substitutes(refs: seq<Ref>, c: Rule)
    requires c.TextText?
  {
    forall s: string :: Replaced(c, s) == Substitute(refs, s)
  }

  ghost predicate Computes(lib: Library, p: Params, refs: seq<Ref>, intIn: bool, c: Option<Rule>)
    requires Complete(lib, p, refs) && (c.Some? ==> !Textual(c.value) && !TextInput(c.value))
  {
    forall x :: One(c, x) == Physical(lib, p, refs, intIn, x)
  }

  /** Of equal texts the last one counts; a text that is none of them has the default value. */
  function Reading(p: Params, refs: seq<Ref>, s: string): Number
    requires |p.vals| > |refs|
  {
    var i := LastText(Keys(refs), s, |refs|);
    if i >= 0 then p.vals[i] else p.vals[|refs|]
  }

  /** A text that is not in the table stays, unless there is a default that is not empty. */
  function Substitute(refs: seq<Ref>, s: string): string {
    var n := |refs| / 2;
    var i := LastText(PairKeys(refs), s, n);
    if i >= 0 then PairTexts(refs)[i]
    else if |refs| > 2 * n && refs[2 * n].text != "" then refs[2 * n].text
    else s
  }

  /** A numeric rule fails at run time in one way only: a value that is not a number reaches a value table, its own
      or one nested in the selected entry. */
  lemma FailsIff(lib: Library, p: Params, refs: seq<Ref>, intIn: bool, c: Option<Rule>, x: Number)
    requires Complete(lib, p, refs) && Means(lib, p, refs, intIn, c)
             && (c.Some? ==> !Textual(c.value) && !TextInput(c.value))
    requires NaN !in Half(p.vals, 0)
    ensures One(c, x).None? <==>
              if p.kind == TAB_INTERP || p.kind == TAB then x == NaN
              else (p.kind == VALUE_TO_TEXT || p.kind == RANGE_TO_TEXT) && NumberOf(Entry(p, refs, intIn, x), x).None?
  {
    hide One, Text, TableValue, NumberOf, Entry, Half;
    assert One(c, x) == Physical(lib, p, refs, intIn, x);
    if p.kind == TAB_INTERP || p.kind == TAB {
      LookupFails(Half(p.vals, 0), Half(p.vals, 1), x, p.kind == TAB_INTERP);
    }
  }

  // ---- the compiler ----

  /** Compile: fails exactly for incomplete blocks; no block and identities give no rule. */
  method Compile(lib: Library, cc: Option<Params>, refs: seq<Ref>, intIn: bool) returns (r: Result<Option<Rule>>)
    ensures cc.None? ==> r == Ok(None)
    ensures cc.Some? ==> (r.Ok? <==> Complete(lib, cc.value, refs))
    ensures cc.Some? && r.Ok? ==> Means(lib, cc.value, refs, intIn, r.value)
  {
    if cc.None? {
      return Ok(None);
    }
    var p := cc.value;
    if p.kind == IDENTITY {
      r := Ok(None);
    } else if p.kind == LINEAR || p.kind == RATIONAL {
      r := CompileArithmetic(lib, p, refs, intIn);
    } else if p.kind == ALGEBRAIC {
      r := CompileFormula(lib, p, refs, intIn);
    } else if p.kind == TAB_INTERP || p.kind == TAB {
      r := CompileTable(lib, p, refs, intIn);
    } else if p.kind == RANGE_TO_VALUE {
      r := CompileRanges(lib, p, refs, intIn);
    } else if p.kind == VALUE_TO_TEXT || p.kind == RANGE_TO_TEXT {
      r := CompileEntries(lib, p, refs, intIn);
    } else if p.kind == TEXT_TO_VALUE {
      r := CompileReading(lib, p, refs, intIn);
    } else if p.kind == TEXT_TO_TEXT {
      r := CompileSubstitute(lib, p, refs, intIn);
    } else if p.kind == BITFIELD_TO_TEXT {
      r := if |refs| < |p.masks| then Err(BadArgument) else Ok(Some(BitText(p.masks, refs)));
    } else {
      r := Err(Unsupported);
    }
  }

  method CompileArithmetic(lib: Library, p: Params, refs: seq<Ref>, intIn: bool) returns (r: Result<Option<Rule>>)
    requires p.kind == LINEAR || p.kind == RATIONAL
    ensures r.Ok? <==> Complete(lib, p, refs)
    ensures r.Ok? ==> Means(lib, p, refs, intIn, r.value)
  {
    hide Add, Mul, Div, Poly;
    var v := p.vals;
    if p.kind == LINEAR {
      if |v| < 2 {
        return Err(BadArgument);
      }
      var b, a := v[0], v[1];
      if a == ONE && b == ZERO {
        forall x
          ensures Some(x) == Physical(lib, p, refs, intIn, x)
        {
          UnitLine(x);
        }
        return Ok(None);
      }
      return Ok(Some(Linear(a, b)));
    }
    if |v| < 6 {
      return Err(BadArgument);
    }
    var p2, p1, p0, q2, q1, q0 := v[0], v[1], v[2], v[3], v[4], v[5];
    if p2 == ZERO && p1 == ONE && p0 == ZERO && q2 == ZERO && q1 == ZERO && q0 == ONE {
      return Ok(None);
    }
    r := Ok(Some(Rational(Quadratic(p2, p1, p0), Quadratic(q2, q1, q0))));
  }

  method CompileFormula(lib: Library, p: Params, refs: seq<Ref>, intIn: bool) returns (r: Result<Option<Rule>>)
    requires p.kind == ALGEBRAIC
    ensures r.Ok? <==> Complete(lib, p, refs)
    ensures r.Ok? ==> Means(lib, p, refs, intIn, r.value)
  {
    hide Parse, Meaningful, Eval;
    if |refs| < 1 {
      return Err(BadArgument);
    }
    var f := FC.Compile(Alg(lib), refs[0].text);
    if f.None? {
      return Err(Syntax);
    }
    r := Ok(Some(Algebraic(f.value)));
  }

  method CompileTable(lib: Library, p: Params, refs: seq<Ref>, intIn: bool) returns (r: Result<Option<Rule>>)
    requires p.kind == TAB_INTERP || p.kind == TAB
    ensures r.Ok? <==> Complete(lib, p, refs)
    ensures r.Ok? ==> Means(lib, p, refs, intIn, r.value)
  {
    hide TableValue;
    var v := p.vals;
    var n := |v| / 2;
    if n == 0 {
      return Err(BadArgument);
    }
    var keys, vals: seq<Number> := [], [];
    for i := 0 to n
      invariant |keys| == |vals| == i
      invariant forall k :: 0 <= k < i ==> keys[k] == v[2 * k] && vals[k] == v[2 * k + 1]
    {
      keys, vals := keys + [v[2 * i]], vals + [v[2 * i + 1]];
    }
    assert keys == Half(v, 0) && vals == Half(v, 1);
    r := Ok(Some(Tabled(keys, vals, p.kind == TAB_INTERP)));
  }

  method CompileRanges(lib: Library, p: Params, refs: seq<Ref>, intIn: bool) returns (r: Result<Option<Rule>>)
    requires p.kind == RANGE_TO_VALUE
    ensures r.Ok? <==> Complete(lib, p, refs)
    ensures r.Ok? ==> Means(lib, p, refs, intIn, r.value)
  {
    var v := p.vals;
    var n := |v| / 3;
    if |v| < 3 * n + 1 {
      return Err(BadArgument);
    }
    var ranges: seq<Range>, vals: seq<Number> := [], [];
    for i := 0 to n
      invariant |ranges| == |vals| == i
      invariant forall k :: 0 <= k < i ==> ranges[k] == Range(v[3 * k], v[3 * k + 1]) && vals[k] == v[3 * k + 2]
    {
      ranges, vals := ranges + [Range(v[3 * i], v[3 * i + 1])], vals + [v[3 * i + 2]];
    }
    assert ranges == TripleRanges(v);
    r := Ok(Some(Ranged(ranges, intIn, vals, v[3 * n])));
  }

  method CompileEntries(lib: Library, p: Params, refs: seq<Ref>, intIn: bool) returns (r: Result<Option<Rule>>)
    requires p.kind == VALUE_TO_TEXT || p.kind == RANGE_TO_TEXT
    ensures r.Ok? <==> Complete(lib, p, refs)
    ensures r.Ok? ==> Means(lib, p, refs, intIn, r.value)
  {
    hide Rendered, One, Text, FirstKey, FirstInside;
    var v := p.vals;
    if p.kind == VALUE_TO_TEXT {
      var n := |v|;
      if |refs| < n + 1 {
        return Err(BadArgument);
      }
      var texts, def := refs[..n], refs[n];
      ValuedAt(lib, p, refs, intIn);
      return Ok(Some(if NumericDominant(def) then Valued(v, texts, def) else ValueText(v, texts, def)));
    }
    var n := |v| / 2;
    if |refs| < n + 1 {
      return Err(BadArgument);
    }
    var ranges: seq<Range> := [];
    for i := 0 to n
      invariant |ranges| == i && forall k :: 0 <= k < i ==> ranges[k] == Range(v[2 * k], v[2 * k + 1])
    {
      ranges := ranges + [Range(v[2 * i], v[2 * i + 1])];
    }
    assert ranges == PairRanges(v);
    var texts, def := refs[..n], refs[n];
    SpannedAt(lib, p, refs, intIn);
    r := Ok(Some(if NumericDominant(def) then Spanned(ranges, intIn, texts, def)
                 else SpanText(ranges, intIn, texts, def)));
  }

  lemma ValuedAt(lib: Library, p: Params, refs: seq<Ref>, intIn: bool)
    requires p.kind == VALUE_TO_TEXT && |refs| > |p.vals|
    ensures forall x ::
              One(Some(Valued(p.vals, refs[..|p.vals|], Default(p, refs))), x) == NumberOf(Entry(p, refs, intIn, x), x)
    ensures forall x :: Text(lib, ValueText(p.vals, refs[..|p.vals|], Default(p, refs)), x)
                        == Rendered(lib, Entry(p, refs, intIn, x), x)
  {
    hide Rendered, FirstKey;
  }

  lemma SpannedAt(lib: Library, p: Params, refs: seq<Ref>, intIn: bool)
    requires p.kind == RANGE_TO_TEXT && |refs| > |p.vals| / 2
    ensures var ranges, texts := PairRanges(p.vals), refs[..|p.vals| / 2];
            && (forall x :: One(Some(Spanned(ranges, intIn, texts, Default(p, refs))), x)
                            == NumberOf(Entry(p, refs, intIn, x), x))
            && forall x :: Text(lib, SpanText(ranges, intIn, texts, Default(p, refs)), x)
                           == Rendered(lib, Entry(p, refs, intIn, x), x)
  {
    hide Rendered, FirstInside;
  }

  method CompileReading(lib: Library, p: Params, refs: seq<Ref>, intIn: bool) returns (r: Result<Option<Rule>>)
    requires p.kind == TEXT_TO_VALUE
    ensures r.Ok? <==> Complete(lib, p, refs)
    ensures r.Ok? ==> Means(lib, p, refs, intIn, r.value)
  {
    var n := |refs|;
    if |p.vals| < n + 1 {
      return Err(BadArgument);
    }
    var values: map<string, Number> := map[];
    for i := 0 to n
      invariant forall s :: s in values <==> LastText(Keys(refs), s, i) >= 0
      invariant forall s :: s in values ==> values[s] == p.vals[LastText(Keys(refs), s, i)]
    {
      values := values[refs[i].text := p.vals[i]];
    }
    r := Ok(Some(FromText(values, p.vals[n])));
  }

  /** The table after n pairs: of equal keys the last one counts. */
  ghost predicate HoldsPairs(texts: map<string, string>, refs: seq<Ref>, n: nat)
    requires n <= |refs| / 2
  {
    && (forall s :: s in texts <==> LastText(PairKeys(refs), s, n) >= 0)
    && (forall s :: s in texts ==> texts[s] == PairTexts(refs)[LastText(PairKeys(refs), s, n)])
  }

  lemma HoldsNone(refs: seq<Ref>)
    ensures HoldsPairs(map[], refs, 0)
  {
  }

  lemma HoldsMore(texts: map<string, string>, refs: seq<Ref>, i: nat)
    requires i < |refs| / 2 && HoldsPairs(texts, refs, i)
    ensures HoldsPairs(texts[refs[2 * i].text := refs[2 * i + 1].text], refs, i + 1)
  {
  }

  method CompileSubstitute(lib: Library, p: Params, refs: seq<Ref>, intIn: bool) returns (r: Result<Option<Rule>>)
    requires p.kind == TEXT_TO_TEXT
    ensures r.Ok? <==> Complete(lib, p, refs)
    ensures r.Ok? ==> Means(lib, p, refs, intIn, r.value)
  {
    hide HoldsPairs, Means, Substitutes, Complete;
    var n := |refs| / 2;
    HoldsNone(refs);
    var texts: map<string, string> := map[];
    for i := 0 to n
      invariant HoldsPairs(texts, refs, i)
    {
      HoldsMore(texts, refs, i);
      texts := texts[refs[2 * i].text := refs[2 * i + 1].text];
    }
    var hasDefault := |refs| > 2 * n && refs[2 * n].text != "";
    var c := TextText(texts, if hasDefault then Some(refs[2 * n].text) else None);
    SubstituteMeans(refs, c);
    TextTextMeans(lib, p, refs, intIn, c);
    r := Ok(Some(c));
  }

  lemma SubstituteMeans(refs: seq<Ref>, c: Rule)
    requires c.TextText?
    requires HoldsPairs(c.texts, refs, |refs| / 2)
    requires var n := |refs| / 2;
             c.fallback == if |refs| > 2 * n && refs[2 * n].text != "" then Some(refs[2 * n].text) else None
    ensures Substitutes(refs, c)
  {
    hide LastText, PairKeys, PairTexts, Replaced, Substitute;
    forall s: string
      ensures Replaced(c, s) == Substitute(refs, s)
    {
      SubstituteAt(refs, c, s);
    }
  }

  lemma TextTextMeans(lib: Library, p: Params, refs: seq<Ref>, intIn: bool, c: Rule)
    requires p.kind == TEXT_TO_TEXT && c.TextText? && Substitutes(refs, c)
    ensures Complete(lib, p, refs) && Means(lib, p, refs, intIn, Some(c))
  {
    hide Substitutes, Computes;
  }

  lemma SubstituteAt(refs: seq<Ref>, c: Rule, s: string)
    requires c.TextText? && (s in c.texts <==> LastText(PairKeys(refs), s, |refs| / 2) >= 0)
    requires s in c.texts ==> c.texts[s] == PairTexts(refs)[LastText(PairKeys(refs), s, |refs| / 2)]
    requires var n := |refs| / 2;
             c.fallback == if |refs| > 2 * n && refs[2 * n].text != "" then Some(refs[2 * n].text) else None
    ensures Replaced(c, s) == Substitute(refs, s)
  {
    hide LastText, PairKeys, PairTexts;
  }
}
