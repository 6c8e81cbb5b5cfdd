/** The formula compiler: one pass of recursive descent that builds the evaluating function. */
module FormulaCompiler {
  import opened Formula
  import opened FormulaPrint
  import opened Wire

  /** What a parsing step returns: a function exactly when the text parses here and all its numbers have values,
      and then the function computes the value of the tree. */
  ghost predicate Compiles<F(!new)>(alg: Algebra<F>, parsed: Parsed, r: Option<F -> F>, pos: nat) {
    && (r.Some? <==> parsed.Done? && Meaningful(alg, parsed.e))
    && (r.Some? ==> pos == parsed.pos && Computes(alg, parsed.e, r.value))
  }

  ghost predicate Computes<F(!new)>(alg: Algebra<F>, e: Expr, f: F -> F)
    requires Meaningful(alg, e)
  {
    forall x :: f(x) == Eval(alg, e, x)
  }

  function Operation<F>(alg: Algebra<F>, op: char): (F, F) -> F {
    if op == '+' then alg.add else if op == '-' then alg.sub else if op == '*' then alg.mul else alg.div
  }

  function Join<F>(op: (F, F) -> F, l: F -> F, r: F -> F): F -> F {
    x => op(l(x), r(x))
  }

  function Mapped<F>(f: F -> F, a: F -> F): F -> F {
    x => f(a(x))
  }

  ghost predicate Joins<F(!new)>(op: (F, F) -> F, l: F -> F, r: F -> F, join: F -> F) {
    forall x :: join(x) == op(l(x), r(x))
  }

  lemma JoinJoins<F(!new)>(op: (F, F) -> F, l: F -> F, r: F -> F)
    ensures Joins(op, l, r, Join(op, l, r))
  {
  }

  lemma JoinAt<F(!new)>(op: (F, F) -> F, l: F -> F, r: F -> F, join: F -> F, x: F)
    requires Joins(op, l, r, join)
    ensures join(x) == op(l(x), r(x))
  {
  }

  lemma ComputesAt<F(!new)>(alg: Algebra<F>, e: Expr, f: F -> F, x: F)
    requires Meaningful(alg, e) && Computes(alg, e, f)
    ensures f(x) == Eval(alg, e, x)
  {
    hide Eval;
  }

  lemma ComputesAll<F(!new)>(alg: Algebra<F>, e: Expr, f: F -> F)
    requires Meaningful(alg, e) && forall x :: f(x) == Eval(alg, e, x)
    ensures Computes(alg, e, f)
  {
    hide Eval;
  }

  lemma JoinComputes<F(!new)>(alg: Algebra<F>, op: char, e: Expr, f: Expr, l: F -> F, r: F -> F, join: F -> F)
    requires Meaningful(alg, e) && Meaningful(alg, f) && Computes(alg, e, l) && Computes(alg, f, r)
    requires Joins(Operation(alg, op), l, r, join)
    ensures Computes(alg, Bin(op, e, f), join)
  {
    hide Computes, Joins;
    forall x
      ensures join(x) == Eval(alg, Bin(op, e, f), x)
    {
      JoinAt(Operation(alg, op), l, r, join, x);
      ComputesAt(alg, e, l, x);
      ComputesAt(alg, f, r, x);
    }
    ComputesAll(alg, Bin(op, e, f), join);
  }

  lemma PowerComputes<F(!new)>(alg: Algebra<F>, name: string, e: Expr, f: Expr, l: F -> F, r: F -> F, join: F -> F)
    requires Meaningful(alg, e) && Meaningful(alg, f) && Computes(alg, e, l) && Computes(alg, f, r)
    requires Joins(alg.pow, l, r, join)
    ensures Computes(alg, Power(e, f), join) && Computes(alg, PowCall(name, e, f), join)
  {
    hide Computes, Joins;
    forall x
      ensures join(x) == alg.pow(Eval(alg, e, x), Eval(alg, f, x))
    {
      JoinAt(alg.pow, l, r, join, x);
      ComputesAt(alg, e, l, x);
      ComputesAt(alg, f, r, x);
    }
    ComputesAll(alg, Power(e, f), join);
    ComputesAll(alg, PowCall(name, e, f), join);
  }

  lemma NegComputes<F(!new)>(alg: Algebra<F>, e: Expr, a: F -> F)
    requires Meaningful(alg, e) && Computes(alg, e, a)
    ensures Computes(alg, Neg(e), Mapped(alg.neg, a))
  {
    var f := Mapped(alg.neg, a);
    forall x
      ensures f(x) == Eval(alg, Neg(e), x)
    {
      assert f(x) == alg.neg(a(x));
    }
  }

  function Applied<F>(alg: Algebra<F>, name: string, a: F -> F): F -> F {
    x => alg.apply(name, a(x))
  }

  lemma CallComputes<F(!new)>(alg: Algebra<F>, name: string, e: Expr, a: F -> F)
    requires Meaningful(alg, e) && Computes(alg, e, a)
    ensures Computes(alg, Call(name, e), Applied(alg, Lower(name), a))
  {
    var f := Applied(alg, Lower(name), a);
    forall x
      ensures f(x) == Eval(alg, Call(name, e), x)
    {
      assert f(x) == alg.apply(Lower(name), a(x));
    }
  }

  function Constant<F>(v: F): F -> F {
    _ => v
  }

  function Identity<F>(): F -> F {
    x => x
  }

  /** A tail keeps the tree it started from. */
  lemma {:induction false} ExprTailKeeps<F>(alg: Algebra<F>, src: string, left: Expr, pos: nat)
    requires pos <= |src| && ExprTail(src, left, pos).Done? && Meaningful(alg, ExprTail(src, left, pos).e)
    ensures Meaningful(alg, left)
    decreases |src| - pos
  {
    hide ParseTerm;
    var p := Skip(src, pos);
    if Peek(src, pos) == '+' || Peek(src, pos) == '-' {
      var t := ParseTerm(src, p + 1);
      ExprTailKeeps(alg, src, Bin(src[p], left, t.e), t.pos);
    }
  }

  lemma {:induction false} TermTailKeeps<F>(alg: Algebra<F>, src: string, left: Expr, pos: nat)
    requires pos <= |src| && TermTail(src, left, pos).Done? && Meaningful(alg, TermTail(src, left, pos).e)
    ensures Meaningful(alg, left)
    decreases |src| - pos
  {
    hide ParsePower;
    var p := Skip(src, pos);
    if Peek(src, pos) == '*' || Peek(src, pos) == '/' {
      var t := ParsePower(src, p + 1);
      TermTailKeeps(alg, src, Bin(src[p], left, t.e), t.pos);
    }
  }

  /** What one turn of the loop over terms has to know about the rest of the sum. */
  lemma SumStep<F(!new)>(alg: Algebra<F>, src: string, e: Expr, pos: nat)
    requires pos <= |src| && Meaningful(alg, e)
    ensures var c, tail := Formula.Peek(src, pos), ExprTail(src, e, pos);
            if c != '+' && c != '-' then tail == Done(e, Skip(src, pos))
            else
              Skip(src, pos) < |src|
              && var t := ParseTerm(src, Skip(src, pos) + 1);
                 (t.Failed? ==> tail.Failed?)
                 && (t.Done? && Meaningful(alg, t.e) ==>
                       Meaningful(alg, Bin(c, e, t.e)) && tail == ExprTail(src, Bin(c, e, t.e), t.pos))
                 && (t.Done? && !Meaningful(alg, t.e) && tail.Done? ==> !Meaningful(alg, tail.e))
  {
    hide ParseTerm;
    var c := Formula.Peek(src, pos);
    if c == '+' || c == '-' {
      var t := ParseTerm(src, Skip(src, pos) + 1);
      if t.Done? && ExprTail(src, e, pos).Done? && Meaningful(alg, ExprTail(src, e, pos).e) {
        ExprTailKeeps(alg, src, Bin(c, e, t.e), t.pos);
      }
    }
  }

  lemma ProductStep<F(!new)>(alg: Algebra<F>, src: string, e: Expr, pos: nat)
    requires pos <= |src| && Meaningful(alg, e)
    ensures var c, tail := Formula.Peek(src, pos), TermTail(src, e, pos);
            if c != '*' && c != '/' then tail == Done(e, Skip(src, pos))
            else
              Skip(src, pos) < |src|
              && var t := ParsePower(src, Skip(src, pos) + 1);
                 (t.Failed? ==> tail.Failed?)
                 && (t.Done? && Meaningful(alg, t.e) ==>
                       Meaningful(alg, Bin(c, e, t.e)) && tail == TermTail(src, Bin(c, e, t.e), t.pos))
                 && (t.Done? && !Meaningful(alg, t.e) && tail.Done? ==> !Meaningful(alg, tail.e))
  {
    hide ParsePower;
    var c := Formula.Peek(src, pos);
    if c == '*' || c == '/' {
      var t := ParsePower(src, Skip(src, pos) + 1);
      if t.Done? && TermTail(src, e, pos).Done? && Meaningful(alg, TermTail(src, e, pos).e) {
        TermTailKeeps(alg, src, Bin(c, e, t.e), t.pos);
      }
    }
  }

  lemma VariableComputes<F(!new)>(alg: Algebra<F>, name: string)
    ensures Computes(alg, Var(name), Identity())
  {
  }

  // ---- argument lists ----

  predicate AllMeaningful<F>(alg: Algebra<F>, list: seq<Expr>) {
    forall i :: 0 <= i < |list| ==> Meaningful(alg, list[i])
  }

  ghost predicate CompilesArgs<F(!new)>(alg: Algebra<F>, parsed: ParsedArgs, r: Option<seq<F -> F>>, pos: nat) {
    && (r.Some? <==> parsed.Args? && AllMeaningful(alg, parsed.list))
    && (r.Some? ==> pos == parsed.pos && |r.value| == |parsed.list|
                    && forall i :: 0 <= i < |r.value| ==> Computes(alg, parsed.list[i], r.value[i]))
  }

  /** What follows the opening parenthesis of a call. */
  function CallOf(src: string, name: string, pos: nat): Parsed
    requires pos <= |src|
  {
    match ParseArgs(src, pos)
    case NoArgs => Failed
    case Args(list, r) => if Formula.Peek(src, r) == ')' then BuildCall(name, list, Skip(src, r) + 1) else Failed
  }

  lemma BuildKeeps<F>(alg: Algebra<F>, name: string, list: seq<Expr>, pos: nat)
    requires !AllMeaningful(alg, list)
    ensures forall p: nat :: BuildCall(name, list, p).Done? ==> !Meaningful(alg, BuildCall(name, list, p).e)
  {
  }

  function Prefixed(list: seq<Expr>, r: ParsedArgs): ParsedArgs {
    if r.NoArgs? then NoArgs else Args(list + r.list, r.pos)
  }

  lemma NoPrefix(r: ParsedArgs)
    ensures Prefixed([], r) == r
  {
    if r.Args? {
      assert [] + r.list == r.list;
    }
  }

  /** One more argument: the list goes on behind a comma and ends anywhere else. */
  lemma MoreSteps(src: string, list: seq<Expr>, pos: nat)
    requires pos <= |src| && Formula.ParseExpr(src, pos).Done?
    ensures var p := Formula.ParseExpr(src, pos);
            Prefixed(list, MoreArgs(src, pos))
            == if Formula.Peek(src, p.pos) == ',' then Prefixed(list + [p.e], MoreArgs(src, Skip(src, p.pos) + 1))
               else Args(list + [p.e], Skip(src, p.pos))
  {
    hide Formula.ParseExpr;
    var p := Formula.ParseExpr(src, pos);
    if Formula.Peek(src, p.pos) == ',' {
      var r := MoreArgs(src, Skip(src, p.pos) + 1);
      if r.Args? {
        assert list + ([p.e] + r.list) == list + [p.e] + r.list;
      }
    }
  }

  /** Leading blanks of an argument list. */
  lemma ArgsSkip(src: string, pos: nat)
    requires pos <= |src|
    ensures MoreArgs(src, Skip(src, pos)) == MoreArgs(src, pos)
  {
    ExprSkip(src, pos);
    hide Formula.ParseExpr;
  }

  lemma ExprSkip(src: string, pos: nat)
    requires pos <= |src|
    ensures Formula.ParseExpr(src, Skip(src, pos)) == Formula.ParseExpr(src, pos)
  {
    SkipAgain(src, pos);
    hide Formula.ParsePrimary;
    assert Formula.ParseUnary(src, Skip(src, pos)) == Formula.ParseUnary(src, pos);
    hide Formula.ParseUnary;
    assert Formula.ParsePower(src, Skip(src, pos)) == Formula.ParsePower(src, pos);
    hide Formula.ParsePower;
    assert Formula.ParseTerm(src, Skip(src, pos)) == Formula.ParseTerm(src, pos);
  }

  lemma NotAllMeaningful<F>(alg: Algebra<F>, src: string, first: nat, trees: seq<Expr>, pos: nat)
    requires first <= |src| && pos <= |src| && MoreArgs(src, first) == Prefixed(trees, MoreArgs(src, pos))
    requires !(Formula.ParseExpr(src, pos).Done? && Meaningful(alg, Formula.ParseExpr(src, pos).e))
    ensures MoreArgs(src, first).Args? ==> !AllMeaningful(alg, MoreArgs(src, first).list)
  {
    hide Formula.ParseExpr;
    if MoreArgs(src, first).Args? {
      var e := Formula.ParseExpr(src, pos).e;
      assert MoreArgs(src, pos).list[0] == e;
      assert MoreArgs(src, first).list[|trees|] == e;
    }
  }

  class ExprParser<F(!new)> {
    const alg: Algebra<F>
    const src: string
    var pos: nat

    constructor (alg: Algebra<F>, src: string)
      ensures this.alg == alg && this.src == src && pos == 0
    {
      this.alg, this.src, pos := alg, src, 0;
    }

    method SkipSpace()
      requires pos <= |src|
      modifies this`pos
      ensures pos == Skip(src, old(pos))
    {
      while pos < |src| && IsSpace(src[pos])
        invariant pos <= |src| && Skip(src, pos) == Skip(src, old(pos))
      {
        pos := pos + 1;
      }
    }

    method Peek() returns (c: char)
      requires pos <= |src|
      modifies this`pos
      ensures pos == Skip(src, old(pos)) && c == Formula.Peek(src, old(pos))
      ensures pos <= |src| && (c != '\0' ==> pos < |src| && src[pos] == c)
      ensures Skip(src, pos) == pos && Formula.Peek(src, pos) == c
    {
      SkipSpace();
      SkipAgain(src, old(pos));
      c := if pos >= |src| then '\0' else src[pos];
    }

    /** Terms joined by plus and minus, from the left. */
    method ParseExpr() returns (r: Option<F -> F>)
      requires pos <= |src|
      modifies this`pos
      ensures pos <= |src| && Compiles(alg, Formula.ParseExpr(src, old(pos)), r, pos)
      decreases |src| - pos, 6
    {
      hide Formula.ParseTerm, Computes, Formula.Peek, Skip;
      ghost var parsed := Formula.ParseTerm(src, pos);
      r := ParseTerm();
      if parsed.Done? && ExprTail(src, parsed.e, parsed.pos).Done?
         && Meaningful(alg, ExprTail(src, parsed.e, parsed.pos).e) {
        ExprTailKeeps(alg, src, parsed.e, parsed.pos);
      }
      if r.None? {
        return;
      }
      r := ParseSum(r.value, parsed.e);
    }

    method ParseSum(first: F -> F, ghost e0: Expr) returns (r: Option<F -> F>)
      requires pos <= |src| && Meaningful(alg, e0) && Computes(alg, e0, first)
      modifies this`pos
      ensures pos <= |src| && Compiles(alg, ExprTail(src, e0, old(pos)), r, pos)
      decreases |src| - pos, 5
    {
      hide Formula.ParseTerm, ExprTail, Meaningful, Computes, Formula.Peek, Skip, Join, Joins, Operation;
      var left := first;
      ghost var e := e0;
      while true
        invariant old(pos) <= pos <= |src| && Meaningful(alg, e) && Computes(alg, e, left)
        invariant ExprTail(src, e, pos) == ExprTail(src, e0, old(pos))
        decreases |src| - pos
      {
        ghost var before := pos;
        var c := Peek();
        SumStep(alg, src, e, before);
        if c != '+' && c != '-' {
          return Some(left);
        }
        pos := pos + 1;
        ghost var parsed := Formula.ParseTerm(src, pos);
        var right := ParseTerm();
        if right.None? {
          return None;
        }
        var join := Join(Operation(alg, c), left, right.value);
        JoinJoins(Operation(alg, c), left, right.value);
        JoinComputes(alg, c, e, parsed.e, left, right.value, join);
        left := join;
        e := Bin(c, e, parsed.e);
      }
    }

    /** Powers joined by times and divide, from the left. */
    method ParseTerm() returns (r: Option<F -> F>)
      requires pos <= |src|
      modifies this`pos
      ensures pos <= |src| && Compiles(alg, Formula.ParseTerm(src, old(pos)), r, pos)
      decreases |src| - pos, 4
    {
      hide Formula.ParsePower, Computes, Formula.Peek, Skip;
      ghost var parsed := Formula.ParsePower(src, pos);
      r := ParsePower();
      if parsed.Done? && TermTail(src, parsed.e, parsed.pos).Done?
         && Meaningful(alg, TermTail(src, parsed.e, parsed.pos).e) {
        TermTailKeeps(alg, src, parsed.e, parsed.pos);
      }
      if r.None? {
        return;
      }
      r := ParseProduct(r.value, parsed.e);
    }

    method ParseProduct(first: F -> F, ghost e0: Expr) returns (r: Option<F -> F>)
      requires pos <= |src| && Meaningful(alg, e0) && Computes(alg, e0, first)
      modifies this`pos
      ensures pos <= |src| && Compiles(alg, TermTail(src, e0, old(pos)), r, pos)
      decreases |src| - pos, 3
    {
      hide Formula.ParsePower, TermTail, Meaningful, Computes, Formula.Peek, Skip, Join, Joins, Operation;
      var left := first;
      ghost var e := e0;
      while true
        invariant old(pos) <= pos <= |src| && Meaningful(alg, e) && Computes(alg, e, left)
        invariant TermTail(src, e, pos) == TermTail(src, e0, old(pos))
        decreases |src| - pos
      {
        ghost var before := pos;
        var c := Peek();
        ProductStep(alg, src, e, before);
        if c != '*' && c != '/' {
          return Some(left);
        }
        pos := pos + 1;
        ghost var parsed := Formula.ParsePower(src, pos);
        var right := ParsePower();
        if right.None? {
          return None;
        }
        var join := Join(Operation(alg, c), left, right.value);
        JoinJoins(Operation(alg, c), left, right.value);
        JoinComputes(alg, c, e, parsed.e, left, right.value, join);
        left := join;
        e := Bin(c, e, parsed.e);
      }
    }

    /** A power is right associative; its base may carry a sign. */
    method ParsePower() returns (r: Option<F -> F>)
      requires pos <= |src|
      modifies this`pos
      ensures pos <= |src| && Compiles(alg, Formula.ParsePower(src, old(pos)), r, pos)
      decreases |src| - pos, 2
    {
      hide Formula.ParseUnary, Computes, Formula.Peek, Skip, Join, Joins;
      ghost var u := Formula.ParseUnary(src, pos);
      r := ParseUnary();
      if r.None? {
        return;
      }
      var c := Peek();
      if c == '^' {
        pos := pos + 1;
        ghost var x := Formula.ParsePower(src, pos);
        var exponent := ParsePower();
        if exponent.None? {
          return None;
        }
        var join := Join(alg.pow, r.value, exponent.value);
        JoinJoins(alg.pow, r.value, exponent.value);
        PowerComputes(alg, "", u.e, x.e, r.value, exponent.value, join);
        r := Some(join);
      }
    }

    /** Signs bind tighter than powers; a plus sign leaves no trace. */
    method ParseUnary() returns (r: Option<F -> F>)
      requires pos <= |src|
      modifies this`pos
      ensures pos <= |src| && Compiles(alg, Formula.ParseUnary(src, old(pos)), r, pos)
      decreases |src| - pos, 1
    {
      hide Formula.ParsePrimary, Computes, Formula.Peek, Skip, Mapped;
      var c := Peek();
      if c == '-' {
        pos := pos + 1;
        ghost var u := Formula.ParseUnary(src, pos);
        r := ParseUnary();
        if r.Some? {
          NegComputes(alg, u.e, r.value);
          r := Some(Mapped(alg.neg, r.value));
        }
      } else if c == '+' {
        pos := pos + 1;
        r := ParseUnary();
      } else {
        r := ParsePrimary();
      }
    }

    /** A number: its extent is scanned first, its value is left to the number parser. */
    method ParseNumber() returns (r: Option<F -> F>)
      requires pos < |src| && (IsDigit(src[pos]) || src[pos] == '.')
      modifies this`pos
      ensures pos == ScanNumber(src, old(pos)) <= |src|
      ensures Compiles(alg, Done(Num(src[old(pos)..pos]), pos), r, pos)
    {
      var start := pos;
      while pos < |src|
        invariant start <= pos <= |src| && ScanNumber(src, pos) == ScanNumber(src, start)
        decreases |src| - pos
      {
        var ch := src[pos];
        if IsDigit(ch) || ch == '.' {
          pos := pos + 1;
        } else if ch == 'e' || ch == 'E' {
          var next := pos + 1;
          if next < |src| && (src[next] == '+' || src[next] == '-') {
            next := next + 1;
          }
          if next < |src| && IsDigit(src[next]) {
            pos := next;
          } else {
            break;
          }
        } else {
          break;
        }
      }
      var v := alg.number(src[start..pos]);
      r := if v.Some? then Some(Constant(v.value)) else None;
    }

    method ParseName() returns (name: string)
      requires pos < |src|
      modifies this`pos
      ensures pos == ScanName(src, old(pos)) <= |src| && name == src[old(pos)..pos]
    {
      var start := pos;
      while pos < |src| && IsNameChar(src[pos])
        invariant start <= pos <= |src| && ScanName(src, pos) == ScanName(src, start)
      {
        pos := pos + 1;
      }
      name := src[start..pos];
    }

    /** A parenthesized expression, a number, the raw value, or a function call. */
    method ParsePrimary() returns (r: Option<F -> F>)
      requires pos <= |src|
      modifies this`pos
      ensures pos <= |src| && Compiles(alg, Formula.ParsePrimary(src, old(pos)), r, pos)
      decreases |src| - pos, 0
    {
      hide Formula.ParseExpr, ParseArgs, BuildCall, Computes, ScanNumber, ScanName, Skip, Identity, IsDigit, IsLetter;
      var c := Peek();
      if pos == |src| {
        return None;
      }
      if c == '(' {
        pos := pos + 1;
        r := ParseExpr();
        if r.None? {
          return;
        }
        var close := Peek();
        if close != ')' {
          return None;
        }
        pos := pos + 1;
      } else if IsDigit(c) || c == '.' {
        r := ParseNumber();
      } else if IsLetter(c) {
        ghost var start := pos;
        var name := ParseName();
        if name == "X" || name == "x" || name == "X1" {
          VariableComputes(alg, name);
          return Some(Identity());
        }
        var open := Peek();
        if open != '(' {
          return None;
        }
        pos := pos + 1;
        r := ParseCall(name);
      } else {
        r := None;
      }
    }

    /** Arguments behind the opening parenthesis, and the function they are passed to. */
    method ParseCall(name: string) returns (r: Option<F -> F>)
      requires pos <= |src|
      modifies this`pos
      ensures pos <= |src| && Compiles(alg, CallOf(src, name, old(pos)), r, pos)
      decreases |src| - pos, 8
    {
      hide ParseArgs, Computes, Skip, Formula.Peek, Lower;
      ghost var parsed := ParseArgs(src, pos);
      var args := ParseArguments();
      if args.None? {
        if parsed.Args? {
          BuildKeeps(alg, name, parsed.list, 0);
        }
        return None;
      }
      var close := Peek();
      if close != ')' {
        return None;
      }
      pos := pos + 1;
      r := Build(name, args.value, parsed.list, pos);
    }

    method Build(name: string, args: seq<F -> F>, ghost list: seq<Expr>, ghost at: nat) returns (r: Option<F -> F>)
      requires |args| == |list| && AllMeaningful(alg, list)
      requires forall i :: 0 <= i < |args| ==> Meaningful(alg, list[i]) && Computes(alg, list[i], args[i])
      ensures Compiles(alg, BuildCall(name, list, at), r, at)
    {
      hide Computes, Lower, Join, Joins, Applied;
      var lower := Lower(name);
      if lower == "pow" && |args| == 2 {
        var join := Join(alg.pow, args[0], args[1]);
        JoinJoins(alg.pow, args[0], args[1]);
        PowerComputes(alg, name, list[0], list[1], args[0], args[1], join);
        return Some(join);
      }
      if lower in FUNCTIONS && |args| == 1 {
        CallComputes(alg, name, list[0], args[0]);
        return Some(Applied(alg, lower, args[0]));
      }
      return None;
    }

    method ParseArguments() returns (args: Option<seq<F -> F>>)
      requires pos <= |src|
      modifies this`pos
      ensures pos <= |src| && CompilesArgs(alg, ParseArgs(src, old(pos)), args, pos)
      decreases |src| - pos, 7
    {
      hide Formula.ParseExpr, Computes, Skip, MoreArgs, Meaningful, Prefixed;
      var list: seq<F -> F> := [];
      var c := Peek();
      if c == ')' {
        return Some(list);
      }
      ArgsSkip(src, old(pos));
      ghost var trees: seq<Expr> := [];
      NoPrefix(MoreArgs(src, pos));
      while true
        invariant old(pos) <= pos <= |src| && |list| == |trees| && AllMeaningful(alg, trees)
        invariant forall i :: 0 <= i < |list| ==> Meaningful(alg, trees[i]) && Computes(alg, trees[i], list[i])
        invariant MoreArgs(src, old(pos)) == Prefixed(trees, MoreArgs(src, pos))
        decreases |src| - pos
      {
        ghost var parsed := Formula.ParseExpr(src, pos);
        ghost var start := pos;
        var a := ParseExpr();
        if a.None? {
          NotAllMeaningful(alg, src, old(pos), trees, start);
          return None;
        }
        MoreSteps(src, trees, start);
        list, trees := list + [a.value], trees + [parsed.e];
        var d := Peek();
        if d != ',' {
          return Some(list);
        }
        pos := pos + 1;
      }
    }
  }

  /** compileFormula: the formula must use up the whole text, and the function computes its tree. */
  method Compile<F(!new)>(alg: Algebra<F>, formula: string) returns (r: Option<F -> F>)
    ensures r.Some? <==> Parse(formula).Some? && Meaningful(alg, Parse(formula).value)
    ensures r.Some? ==> Computes(alg, Parse(formula).value, r.value)
  {
    hide Computes, Formula.ParseExpr, Skip;
    var p := new ExprParser(alg, formula);
    r := p.ParseExpr();
    if r.Some? {
      p.SkipSpace();
      if p.pos < |formula| {
        r := None;
      }
    }
  }
}
