/** Conversion rules compiled from their blocks and applied to whole columns: each value is converted on its own,
    even in place and through nested rules. */
module Conversions {
  import opened Wire
  import opened Numbers
  import opened Tables
  import opened Formula

  /** What the rules take from the language's library: parsing and rendering of numbers, elementary functions, and the
      bits of a number's integer part under a mask. */
  datatype Library = Library(number: string -> Option<Number>, pow: (Number, Number) -> Number,
                             apply: (string, Number) -> Number, show: Number -> string, masked: (Number, nat) -> Number)

  function Alg(lib: Library): Algebra<Number> {
    Algebra(lib.number, Add, Sub, Mul, Div, Numbers.Neg, lib.pow, lib.apply)
  }

  /** A compiled rule. Its first seven kinds give numbers, the next three texts; the last two take texts. */
  datatype Rule =
    | Linear(a: Number, b: Number)
    | Rational(p: Quadratic, q: Quadratic)
    | Algebraic(f: Number -> Number)
    | Tabled(keys: seq<Number>, vals: seq<Number>, interp: bool)
    | Ranged(ranges: seq<Range>, intIn: bool, vals: seq<Number>, other: Number)
    | Valued(keys: seq<Number>, refs: seq<Ref>, def: Ref)
    | Spanned(ranges: seq<Range>, intIn: bool, refs: seq<Ref>, def: Ref)
    | ValueText(keys: seq<Number>, refs: seq<Ref>, def: Ref)
    | SpanText(ranges: seq<Range>, intIn: bool, refs: seq<Ref>, def: Ref)
    | BitText(masks: seq<nat>, refs: seq<Ref>)
    | FromText(values: map<string, Number>, other: Number)
    | TextText(texts: map<string, string>, fallback: Option<string>)

  datatype Quadratic = Quadratic(two: Number, one: Number, zero: Number)

  /** A table entry: a text, or a nested rule. */
  datatype Ref = Ref(text: string, conv: Option<Rule>)

  predicate Textual(c: Rule) { c.ValueText? || c.SpanText? || c.BitText? || c.TextText? }

  predicate TextInput(c: Rule) { c.FromText? || c.TextText? }

  /** A table whose default is a numeric rule is numeric as a whole. */
  predicate NumericDominant(def: Ref) { def.conv.Some? && !Textual(def.conv.value) }

  // ---- one value ----

  function Poly(q: Quadratic, x: Number): Number {
    Add(Add(Mul(Mul(q.two, x), x), Mul(q.one, x)), q.zero)
  }

  /** The first key from number k on that equals x, -1 when none does. */
  function FirstKey(keys: seq<Number>, x: Number, k: nat): (i: int)
    requires k <= |keys|
    ensures i == -1 || (k <= i < |keys| && Same(keys[i], x))
    ensures forall j :: k <= j < (if i == -1 then |keys| else i) ==> !Same(keys[j], x)
    decreases |keys| - k
  {
    if k == |keys| then -1 else if Same(keys[k], x) then k else FirstKey(keys, x, k + 1)
  }

  /** The table entry at i, the default where there is none. */
  function Chosen(refs: seq<Ref>, def: Ref, i: int): (r: Ref)
    ensures r == def || r in refs
  {
    if 0 <= i < |refs| then refs[i] else def
  }

  /** One value as a number; no rule leaves it as it is, and what is a text becomes NaN. None: the rule fails at run
      time. */
  function One(c: Option<Rule>, x: Number): Option<Number>
    decreases c
  {
    match c
    case None => Some(x)
    case Some(Linear(a, b)) => Some(Add(Mul(a, x), b))
    case Some(Rational(p, q)) => Some(Div(Poly(p, x), Poly(q, x)))
    case Some(Algebraic(f)) => Some(f(x))
    case Some(Tabled(keys, vals, interp)) => TableValue(keys, vals, x, interp)
    case Some(Ranged(ranges, intIn, vals, other)) =>
      var i := FirstInside(ranges, intIn, x, 0);
      if i >= 0 then Item(vals, i) else Some(other)
    case Some(Valued(keys, refs, def)) =>
      var r := Chosen(refs, def, FirstKey(keys, x, 0));
      if r.conv.Some? && !Textual(r.conv.value) then One(r.conv, x) else Some(NaN)
    case Some(Spanned(ranges, intIn, refs, def)) =>
      var r := Chosen(refs, def, FirstInside(ranges, intIn, x, 0));
      if r.conv.Some? && !Textual(r.conv.value) then One(r.conv, x) else Some(NaN)
    case Some(_) => Some(x)
  }

  /** A table entry rendered as a number. */
  function NumberOf(r: Ref, x: Number): Option<Number> {
    if r.conv.Some? && !Textual(r.conv.value) then One(r.conv, x) else Some(NaN)
  }

  /** One value as a text; rules that give no text from a number have no such operation and fail. */
  function Text(lib: Library, c: Rule, x: Number): Option<string>
    decreases c, 2
  {
    match c
    case ValueText(keys, refs, def) => Rendered(lib, Chosen(refs, def, FirstKey(keys, x, 0)), x)
    case SpanText(ranges, intIn, refs, def) => Rendered(lib, Chosen(refs, def, FirstInside(ranges, intIn, x, 0)), x)
    case BitText(masks, refs) => Parts(lib, c, x, |masks|)
    case _ => None
  }

  function Rendered(lib: Library, r: Ref, x: Number): Option<string>
    decreases r, 0
  {
    match r.conv
    case None => Some(r.text)
    case Some(c) =>
      if c.ValueText? || c.SpanText? || c.BitText? then Text(lib, c, x)
      else
        match One(r.conv, x)
        case None => None
        case Some(y) => Some(lib.show(y))
  }

  /** The texts of the first n masks, those that are not empty separated by bars. */
  function Parts(lib: Library, c: Rule, x: Number, n: nat): Option<string>
    requires c.BitText? && n <= |c.masks|
    decreases c, 1, n
  {
    if n == 0 then Some("")
    else if n > |c.refs| then None
    else
      match (Parts(lib, c, x, n - 1), Rendered(lib, c.refs[n - 1], lib.masked(x, c.masks[n - 1])))
      case (Some(before), Some(part)) => Some(Joined(before, part))
      case _ => None
  }

  function Joined(before: string, part: string): string {
    if part == "" then before else if before == "" then part else before + " | " + part
  }

  function Value(c: Rule, s: string): Number
    requires c.FromText?
  {
    if s in c.values then c.values[s] else c.other
  }

  function Replaced(c: Rule, s: string): string
    requires c.TextText?
  {
    if s in c.texts then c.texts[s] else if c.fallback.Some? then c.fallback.value else s
  }

  // ---- whole columns ----

  /** All results, when there is one for every value. */
  function Collected<T>(ys: seq<Option<T>>): (r: Option<seq<T>>)
    ensures r.Some? <==> forall i :: 0 <= i < |ys| ==> ys[i].Some?
    ensures r.Some? ==> |r.value| == |ys| && forall i :: 0 <= i < |ys| ==> ys[i] == Some(r.value[i])
  {
    if ys == [] then Some([])
    else
      match (ys[0], Collected(ys[1..]))
      case (Some(y), Some(rest)) => Some([y] + rest)
      case _ => None
  }

  function Both<T>(a: Option<seq<T>>, b: Option<seq<T>>): Option<seq<T>> {
    if a.Some? && b.Some? then Some(a.value + b.value) else None
  }

  lemma CollectedJoin<T>(a: seq<Option<T>>, b: seq<Option<T>>)
    ensures Collected(a + b) == Both(Collected(a), Collected(b))
  {
    var both := Collected(a + b);
    assert (forall i :: 0 <= i < |a| ==> (a + b)[i] == a[i]) && forall i :: 0 <= i < |b| ==> (a + b)[|a| + i] == b[i];
    if both.Some? {
      assert both.value == Collected(a).value + Collected(b).value;
    }
  }

  function Mapped<S, T>(f: S -> Option<T>, xs: seq<S>): (r: seq<Option<T>>)
    ensures |r| == |xs| && forall i :: 0 <= i < |xs| ==> r[i] == f(xs[i])
  {
    seq(|xs|, i requires 0 <= i < |xs| => f(xs[i]))
  }

  function Results(c: Option<Rule>, xs: seq<Number>): seq<Option<Number>> { Mapped(x => One(c, x), xs) }

  function Converted(c: Option<Rule>, xs: seq<Number>): Option<seq<Number>> {
    Collected(Results(c, xs))
  }

  function TextResults(lib: Library, c: Rule, xs: seq<Number>): seq<Option<string>> { Mapped(x => Text(lib, c, x), xs) }

  function TextsOf(lib: Library, c: Rule, xs: seq<Number>): Option<seq<string>> {
    if c.TextText? then None else Collected(TextResults(lib, c, xs))
  }

  function ValuesOf(c: Rule, xs: seq<string>): (r: seq<Number>)
    requires c.FromText?
    ensures |r| == |xs| && forall i :: 0 <= i < |xs| ==> r[i] == Value(c, xs[i])
  {
    seq(|xs|, i requires 0 <= i < |xs| => Value(c, xs[i]))
  }

  function ReplacedAll(c: Rule, xs: seq<string>): (r: seq<string>)
    requires c.TextText?
    ensures |r| == |xs| && forall i :: 0 <= i < |xs| ==> r[i] == Replaced(c, xs[i])
  {
    seq(|xs|, i requires 0 <= i < |xs| => Replaced(c, xs[i]))
  }

  // ---- the batch operations ----

  method KeySearch(keys: seq<Number>, x: Number) returns (i: int)
    ensures i == FirstKey(keys, x, 0)
  {
    for k := 0 to |keys|
      invariant FirstKey(keys, x, k) == FirstKey(keys, x, 0)
    {
      if Same(keys[k], x) {
        return k;
      }
    }
    return -1;
  }

  /** Converts a column; destination and source may be the same array. */
  method Convert(c: Option<Rule>, dst: array<Number>, src: array<Number>) returns (ok: bool)
    requires dst.Length >= src.Length
    modifies dst
    ensures ok <==> Converted(c, old(src[..])).Some?
    ensures ok ==> dst[..src.Length] == Converted(c, old(src[..])).value
    ensures dst[src.Length..] == old(dst[src.Length..])
    decreases c, 1
  {
    hide One;
    ghost var was := src[..];
    ghost var ys := Results(c, was);
    for i := 0 to src.Length
      invariant forall k :: 0 <= k < i ==> One(c, was[k]) == Some(dst[k])
      invariant forall k :: i <= k < src.Length ==> src[k] == was[k]
      invariant dst[src.Length..] == old(dst[src.Length..])
    {
      var y := Single(c, src[i]);
      if y.None? {
        assert ys[i].None?;
        return false;
      }
      dst[i] := y.value;
    }
    assert forall k :: 0 <= k < |ys| ==> ys[k] == Some(dst[k]);
    ok := true;
  }

  /** One value of a column. */
  method Single(c: Option<Rule>, x: Number) returns (y: Option<Number>)
    ensures y == One(c, x)
    decreases c, 0
  {
    match c {
      case Some(Linear(a, b)) => y := Some(Add(Mul(a, x), b));
      case Some(Rational(p, q)) => y := Some(Div(Poly(p, x), Poly(q, x)));
      case Some(Algebraic(f)) => y := Some(f(x));
      case Some(Tabled(keys, vals, interp)) => y := TabLookup(keys, vals, x, interp);
      case Some(Ranged(ranges, intIn, vals, other)) =>
        var i := Find(ranges, intIn, x);
        y := if i >= 0 then Item(vals, i) else Some(other);
      case Some(Valued(keys, refs, def)) =>
        var i := KeySearch(keys, x);
        y := RenderNumber(Chosen(refs, def, i), x);
      case Some(Spanned(ranges, intIn, refs, def)) =>
        var i := Find(ranges, intIn, x);
        y := RenderNumber(Chosen(refs, def, i), x);
      case _ => y := Some(x);
    }
  }

  /** A table entry as a number: texts become NaN. */
  method RenderNumber(r: Ref, x: Number) returns (y: Option<Number>)
    ensures y == NumberOf(r, x)
    decreases r.conv, 3
  {
    if r.conv.Some? && !Textual(r.conv.value) {
      y := ConvertOne(r.conv, x);
    } else {
      y := Some(NaN);
    }
  }

  /** A nested rule applied to a column of one value. */
  method ConvertOne(c: Option<Rule>, x: Number) returns (y: Option<Number>)
    ensures y == One(c, x)
    decreases c, 2
  {
    hide One;
    var out := new Number[1](_ => x);
    var column := new Number[1](_ => x);
    ghost var ys := Results(c, column[..]);
    assert |ys| == 1 && ys[0] == One(c, x);
    var ok := Convert(c, out, column);
    if !ok {
      return None;
    }
    assert out[..1][0] == out[0];
    y := Some(out[0]);
  }

  /** The texts of a column of numbers. */
  method ToTexts(lib: Library, c: Rule, src: seq<Number>) returns (out: Option<seq<string>>)
    requires Textual(c)
    ensures out == TextsOf(lib, c, src)
    decreases c, 2
  {
    hide Text;
    if c.TextText? {
      return None;
    }
    ghost var ys := TextResults(lib, c, src);
    var texts: seq<string> := [];
    for i := 0 to |src|
      invariant |texts| == i && forall k :: 0 <= k < i ==> ys[k] == Some(texts[k])
    {
      var t := SingleText(lib, c, src[i]);
      if t.None? {
        assert ys[i].None?;
        return None;
      }
      texts := texts + [t.value];
    }
    assert texts == Collected(ys).value;
    out := Some(texts);
  }

  method SingleText(lib: Library, c: Rule, x: Number) returns (t: Option<string>)
    requires c.ValueText? || c.SpanText? || c.BitText?
    ensures t == Text(lib, c, x)
    decreases c, 1
  {
    match c {
      case ValueText(keys, refs, def) =>
        var i := KeySearch(keys, x);
        t := Render(lib, Chosen(refs, def, i), x);
      case SpanText(ranges, intIn, refs, def) =>
        var i := Find(ranges, intIn, x);
        t := Render(lib, Chosen(refs, def, i), x);
      case BitText(masks, refs) =>
        t := BitTexts(lib, c, x);
    }
  }

  /** The texts of all masks, those that are not empty separated by bars. */
  method BitTexts(lib: Library, c: Rule, x: Number) returns (t: Option<string>)
    requires c.BitText?
    ensures t == Parts(lib, c, x, |c.masks|)
    decreases c, 0
  {
    hide Rendered;
    var masks, refs := c.masks, c.refs;
    var text := "";
    for j := 0 to |masks|
      invariant Parts(lib, c, x, j) == Some(text)
    {
      if j >= |refs| {
        NoMoreParts(lib, c, x, j + 1, |masks|);
        return None;
      }
      var part := Render(lib, refs[j], lib.masked(x, masks[j]));
      if part.None? {
        NoMoreParts(lib, c, x, j + 1, |masks|);
        return None;
      }
      assert Parts(lib, c, x, j + 1) == Some(Joined(text, part.value));
      if part.value == "" {
        continue;
      }
      ghost var before := text;
      if text != "" {
        text := text + " | ";
      }
      text := text + part.value;
      assert text == Joined(before, part.value);
    }
    t := Some(text);
  }

  lemma {:induction false} NoMoreParts(lib: Library, c: Rule, x: Number, n: nat, m: nat)
    requires c.BitText? && n <= m <= |c.masks| && Parts(lib, c, x, n).None?
    ensures Parts(lib, c, x, m).None?
    decreases m
  {
    hide Rendered;
    if n < m {
      NoMoreParts(lib, c, x, n, m - 1);
    }
  }

  /** A table entry as a text, a nested rule through a column of one value. */
  method Render(lib: Library, r: Ref, x: Number) returns (t: Option<string>)
    ensures t == Rendered(lib, r, x)
    decreases r, 0
  {
    if r.conv.None? {
      return Some(r.text);
    }
    var c := r.conv.value;
    if c.ValueText? || c.SpanText? || c.BitText? {
      var out := ToTexts(lib, c, [x]);
      OneText(lib, c, x);
      t := if out.Some? then Some(out.value[0]) else None;
    } else {
      var y := ConvertOne(r.conv, x);
      t := if y.Some? then Some(lib.show(y.value)) else None;
    }
  }

  lemma OneText(lib: Library, c: Rule, x: Number)
    requires !c.TextText?
    ensures TextsOf(lib, c, [x]) == if Text(lib, c, x).Some? then Some([Text(lib, c, x).value]) else None
  {
    hide Text;
    var ys := TextResults(lib, c, [x]);
    assert ys == [Text(lib, c, x)];
    if ys[0].Some? {
      assert Collected(ys).value == [ys[0].value];
    }
  }

  /** The numbers of a column of texts. */
  method FromTexts(c: Rule, src: seq<string>) returns (out: seq<Number>)
    requires c.FromText?
    ensures out == ValuesOf(c, src)
  {
    out := [];
    for i := 0 to |src|
      invariant |out| == i && forall k :: 0 <= k < i ==> out[k] == Value(c, src[k])
    {
      if src[i] in c.values {
        out := out + [c.values[src[i]]];
      } else {
        out := out + [c.other];
      }
    }
  }

  /** The texts of a column of texts. */
  method ReplaceTexts(c: Rule, src: seq<string>) returns (out: seq<string>)
    requires c.TextText?
    ensures out == ReplacedAll(c, src)
  {
    out := [];
    for i := 0 to |src|
      invariant |out| == i && forall k :: 0 <= k < i ==> out[k] == Replaced(c, src[k])
    {
      if src[i] in c.texts {
        out := out + [c.texts[src[i]]];
      } else if c.fallback.Some? {
        out := out + [c.fallback.value];
      } else {
        out := out + [src[i]];
      }
    }
  }
}
