/** Which texts are formulas: exactly those that spell a printed tree, and the tree they mean is that one. */
module FormulaAccepts {
  import opened Formula
  import opened FormulaPrint
  import opened Wire

  /** From pos to end the text writes the tree c, which means e and needs no parentheses at this level. */
  ghost predicate Written(c: Expr, level: nat, src: string, pos: nat, end: nat, e: Expr) {
    && pos <= |src| && end <= |src| && Printable(c) && Strip(c) == e && Precedence(c) >= level
    && Spelled(Body(c), src, pos, end)
  }

  lemma WrittenPrint(c: Expr, level: nat, src: string, pos: nat, end: nat, e: Expr)
    requires Written(c, level, src, pos, end, e)
    ensures pos <= |src| && end <= |src| && forall k: nat :: k <= level ==> Print(c, k) == Body(c)
    ensures Spelled(Print(c, level), src, pos, end) && Printable(c) && Strip(c) == e
    ensures forall k: nat :: k <= level ==> Written(c, k, src, pos, end, e)
  {
    hide Spelled, Printable, Strip;
  }

  // ---- tokens ----

  lemma MarkSpelled(c: char, ts: seq<string>, src: string, pos: nat, end: nat)
    requires pos <= |src| && Skip(src, pos) < |src| && src[Skip(src, pos)] == c
    requires Spelled(ts, src, Skip(src, pos) + 1, end)
    ensures Spelled([[c]] + ts, src, pos, end)
  {
    assert ([[c]] + ts)[1..] == ts;
    assert src[Skip(src, pos)..Skip(src, pos) + 1] == [c];
  }

  lemma NothingSpelled(src: string, pos: nat)
    requires pos <= |src|
    ensures Spelled([], src, pos, pos)
  {
  }

  lemma WordSpelled(src: string, pos: nat, q: nat, ts: seq<string>, end: nat)
    requires pos <= |src| && Skip(src, pos) <= q <= |src| && Spelled(ts, src, q, end)
    ensures Spelled([src[Skip(src, pos)..q]] + ts, src, pos, end)
  {
    assert ([src[Skip(src, pos)..q]] + ts)[1..] == ts;
  }

  lemma {:induction false} NumberExtracted(src: string, p: nat, q: nat, i: nat)
    requires p + i <= q <= |src| && ScanNumber(src, p + i) == q
    ensures ScanNumber(src[p..q], i) == q - p
    decreases q - p - i
  {
    hide IsDigit, ScanNumber;
    var text, k := src[p..q], p + i;
    NumberStep(src, k);
    NumberStep(text, i);
    if k < q {
      assert text[i] == src[k];
      var next := if k + 1 < |src| && (src[k + 1] == '+' || src[k + 1] == '-') then k + 2 else k + 1;
      if IsDigit(src[k]) || src[k] == '.' {
        NumberExtracted(src, p, q, i + 1);
      } else {
        NumberStep(src, next);
        assert text[i + 1] == src[k + 1] && text[next - p] == src[next];
        NumberExtracted(src, p, q, next - p);
      }
    }
  }

  /** One step of the scan, and that it goes past a digit. */
  lemma NumberStep(src: string, pos: nat)
    requires pos <= |src|
    ensures pos < |src| && IsDigit(src[pos]) ==> ScanNumber(src, pos) > pos
    ensures ScanNumber(src, pos) ==
            if pos == |src| then pos
            else if IsDigit(src[pos]) || src[pos] == '.' then ScanNumber(src, pos + 1)
            else if src[pos] == 'e' || src[pos] == 'E' then
              var next := if pos + 1 < |src| && (src[pos + 1] == '+' || src[pos + 1] == '-') then pos + 2 else pos + 1;
              if next < |src| && IsDigit(src[next]) then ScanNumber(src, next) else pos
            else pos
  {
  }

  // ---- what each parser function has read ----

  lemma {:induction false} ExprWritten(src: string, pos: nat) returns (c: Expr, end: nat)
    requires pos <= |src| && ParseExpr(src, pos).Done?
    ensures Written(c, 0, src, pos, end, ParseExpr(src, pos).e) && Skip(src, end) == ParseExpr(src, pos).pos
    decreases |src| - pos, 5
  {
    hide Written, ParseTerm;
    c, end := TermWritten(src, pos);
    WrittenPrint(c, 1, src, pos, end, ParseTerm(src, pos).e);
    WrittenStart(c, 1, src, pos, end, ParseTerm(src, pos).e);
    TailsSkip(src, ParseTerm(src, pos).e, end);
    c, end := ExprTailWritten(src, c, ParseTerm(src, pos).e, pos, end);
  }

  lemma {:induction false} ExprTailWritten(src: string, left: Expr, e: Expr, start: nat, pos: nat)
    returns (c: Expr, end: nat)
    requires Written(left, 0, src, start, pos, e) && start <= pos <= |src| && ExprTail(src, e, pos).Done?
    ensures Written(c, 0, src, start, end, ExprTail(src, e, pos).e) && Skip(src, end) == ExprTail(src, e, pos).pos
    decreases |src| - pos, 4
  {
    hide Written, ParseTerm;
    if Peek(src, pos) == '+' || Peek(src, pos) == '-' {
      var p := Skip(src, pos);
      var right, q := TermWritten(src, p + 1);
      WrittenStart(right, 1, src, p + 1, q, ParseTerm(src, p + 1).e);
      BinWritten(0, src, left, right, e, ParseTerm(src, p + 1).e, start, pos, q);
      TailsSkip(src, Bin(src[p], e, ParseTerm(src, p + 1).e), q);
      c, end := ExprTailWritten(src, Bin(src[p], left, right), Bin(src[p], e, ParseTerm(src, p + 1).e), start, q);
    } else {
      c, end := left, pos;
    }
  }

  lemma WrittenStart(c: Expr, level: nat, src: string, pos: nat, end: nat, e: Expr)
    requires Written(c, level, src, pos, end, e)
    ensures pos <= end <= |src|
  {
    SpelledEnd(Body(c), src, pos, end);
  }

  lemma BinWritten(level: nat, src: string, left: Expr, right: Expr, e: Expr, f: Expr, start: nat, pos: nat, end: nat)
    requires level <= 1 && pos <= |src| && Skip(src, pos) < |src| && Written(left, level, src, start, pos, e)
    requires var c := Peek(src, pos); if level == 0 then c == '+' || c == '-' else c == '*' || c == '/'
    requires Written(right, level + 1, src, Skip(src, pos) + 1, end, f)
    ensures Written(Bin(Peek(src, pos), left, right), level, src, start, end, Bin(Peek(src, pos), e, f))
  {
    var op := Peek(src, pos);
    WrittenPrint(left, level, src, start, pos, e);
    WrittenPrint(right, level + 1, src, Skip(src, pos) + 1, end, f);
    BinShape(level, op, left, right);
    hide Spelled, Body, Print, Strip, Printable, Precedence;
    MarkSpelled(op, Print(right, level + 1), src, pos, end);
    SpelledJoin(Print(left, level), [[op]] + Print(right, level + 1), src, start, pos, end);
  }

  lemma BinShape(level: nat, op: char, left: Expr, right: Expr)
    requires level <= 1 && Printable(left) && Printable(right)
    requires if level == 0 then op == '+' || op == '-' else op == '*' || op == '/'
    ensures var c := Bin(op, left, right);
            && Printable(c) && Strip(c) == Bin(op, Strip(left), Strip(right)) && Precedence(c) == level
            && Body(c) == Print(left, level) + ([[op]] + Print(right, level + 1))
  {
    hide Print;
    Regroup(Print(left, level), [[op]], Print(right, level + 1));
  }

  lemma Regroup(a: seq<string>, b: seq<string>, c: seq<string>)
    ensures a + b + c == a + (b + c)
  {
  }

  lemma PowerShape(base: Expr, x: Expr)
    requires Printable(base) && Printable(x)
    ensures var c := Power(base, x);
            && Printable(c) && Strip(c) == Power(Strip(base), Strip(x)) && Precedence(c) == 2
            && Body(c) == Print(base, 3) + ([['^']] + Print(x, 2))
  {
  }

  lemma GroupShape(a: Expr)
    requires Printable(a)
    ensures Printable(Group(a)) && Strip(Group(a)) == Strip(a) && Precedence(Group(a)) == 4
    ensures Body(Group(a)) == [['(']] + (Print(a, 0) + ([[')']] + []))
  {
  }

  lemma {:induction false} TermWritten(src: string, pos: nat) returns (c: Expr, end: nat)
    requires pos <= |src| && ParseTerm(src, pos).Done?
    ensures Written(c, 1, src, pos, end, ParseTerm(src, pos).e) && Skip(src, end) == ParseTerm(src, pos).pos
    decreases |src| - pos, 4
  {
    hide Written, ParsePower;
    c, end := PowerWritten(src, pos);
    WrittenPrint(c, 2, src, pos, end, ParsePower(src, pos).e);
    TailsSkip(src, ParsePower(src, pos).e, end);
    WrittenStart(c, 2, src, pos, end, ParsePower(src, pos).e);
    c, end := TermTailWritten(src, c, ParsePower(src, pos).e, pos, end);
  }

  lemma {:induction false} TermTailWritten(src: string, left: Expr, e: Expr, start: nat, pos: nat)
    returns (c: Expr, end: nat)
    requires Written(left, 1, src, start, pos, e) && start <= pos <= |src| && TermTail(src, e, pos).Done?
    ensures Written(c, 1, src, start, end, TermTail(src, e, pos).e) && Skip(src, end) == TermTail(src, e, pos).pos
    decreases |src| - pos, 3
  {
    hide Written, ParsePower;
    if Peek(src, pos) == '*' || Peek(src, pos) == '/' {
      var p := Skip(src, pos);
      var right, q := PowerWritten(src, p + 1);
      WrittenStart(right, 2, src, p + 1, q, ParsePower(src, p + 1).e);
      BinWritten(1, src, left, right, e, ParsePower(src, p + 1).e, start, pos, q);
      TailsSkip(src, Bin(src[p], e, ParsePower(src, p + 1).e), q);
      c, end := TermTailWritten(src, Bin(src[p], left, right), Bin(src[p], e, ParsePower(src, p + 1).e), start, q);
    } else {
      c, end := left, pos;
    }
  }

  lemma {:induction false} PowerWritten(src: string, pos: nat) returns (c: Expr, end: nat)
    requires pos <= |src| && ParsePower(src, pos).Done?
    ensures Written(c, 2, src, pos, end, ParsePower(src, pos).e) && Skip(src, end) == ParsePower(src, pos).pos
    decreases |src| - pos, 2
  {
    hide Written, ParseUnary;
    var base := UnaryWritten(src, pos);
    var u := ParseUnary(src, pos);
    WrittenPrint(base, 3, src, pos, u.pos, u.e);
    if Peek(src, u.pos) == '^' {
      var x;
      x, end := PowerWritten(src, Skip(src, u.pos) + 1);
      c := Power(base, x);
      PowerIsWritten(src, base, x, u.e, ParsePower(src, Skip(src, u.pos) + 1).e, pos, u.pos, end);
    } else {
      c, end := base, u.pos;
    }
  }

  lemma PowerIsWritten(src: string, base: Expr, x: Expr, e: Expr, f: Expr, start: nat, pos: nat, end: nat)
    requires pos <= |src| && Peek(src, pos) == '^' && Skip(src, pos) < |src| && Written(base, 3, src, start, pos, e)
    requires Written(x, 2, src, Skip(src, pos) + 1, end, f)
    ensures Written(Power(base, x), 2, src, start, end, Power(e, f))
  {
    WrittenPrint(base, 3, src, start, pos, e);
    WrittenPrint(x, 2, src, Skip(src, pos) + 1, end, f);
    PowerShape(base, x);
    hide Spelled, Body, Print, Strip, Printable, Precedence;
    MarkSpelled('^', Print(x, 2), src, pos, end);
    SpelledJoin(Print(base, 3), [['^']] + Print(x, 2), src, start, pos, end);
  }

  lemma {:induction false} UnaryWritten(src: string, pos: nat) returns (c: Expr)
    requires pos <= |src| && ParseUnary(src, pos).Done?
    ensures Written(c, 3, src, pos, ParseUnary(src, pos).pos, ParseUnary(src, pos).e)
    decreases |src| - pos, 1
  {
    hide Written, ParsePrimary;
    var p := Skip(src, pos);
    if Peek(src, pos) == '-' || Peek(src, pos) == '+' {
      var a := UnaryWritten(src, p + 1);
      var u := ParseUnary(src, p + 1);
      c := if Peek(src, pos) == '-' then Neg(a) else Plus(a);
      SignWritten(src, a, u.e, pos, u.pos);
    } else {
      SkipAgain(src, pos);
      var r := ParsePrimary(src, p);
      c := PrimaryWritten(src, p);
      FromSkipped(c, 4, src, pos, r.pos, r.e);
      WrittenPrint(c, 4, src, pos, r.pos, r.e);
    }
  }

  /** Leading blanks belong to the first token. */
  lemma FromSkipped(c: Expr, level: nat, src: string, pos: nat, end: nat, e: Expr)
    requires pos <= |src| && Written(c, level, src, Skip(src, pos), end, e)
    ensures Written(c, level, src, pos, end, e)
  {
    SkipAgain(src, pos);
    FirstToken(c, 0);
    hide Body;
  }

  lemma SignWritten(src: string, a: Expr, e: Expr, pos: nat, end: nat)
    requires pos <= |src| && Skip(src, pos) < |src| && Written(a, 3, src, Skip(src, pos) + 1, end, e)
    ensures Peek(src, pos) == '-' ==> Written(Neg(a), 3, src, pos, end, Neg(e))
    ensures Peek(src, pos) == '+' ==> Written(Plus(a), 3, src, pos, end, e)
  {
    WrittenPrint(a, 3, src, Skip(src, pos) + 1, end, e);
    hide Spelled;
    MarkSpelled(Peek(src, pos), Print(a, 3), src, pos, end);
    assert Body(Neg(a)) == [['-']] + Print(a, 3);
    assert Body(Plus(a)) == [['+']] + Print(a, 3);
  }

  lemma {:induction false} PrimaryWritten(src: string, pos: nat) returns (c: Expr)
    requires pos <= |src| && ParsePrimary(src, pos).Done?
    ensures Written(c, 4, src, pos, ParsePrimary(src, pos).pos, ParsePrimary(src, pos).e)
    decreases |src| - pos, 0
  {
    hide Written, ParseExpr, ParseArgs, BuildCall, ScanNumber, ScanName;
    var p := Skip(src, pos);
    if src[p] == '(' {
      var a, mid := ExprWritten(src, p + 1);
      SkipAgain(src, mid);
      c := Group(a);
      GroupWritten(src, a, ParseExpr(src, p + 1).e, pos, mid);
    } else if IsDigit(src[p]) || src[p] == '.' {
      c := Num(src[p..ScanNumber(src, p)]);
      NumberWritten(src, pos);
    } else {
      var q := ScanName(src, p);
      if src[p..q] in VARIABLES {
        c := Var(src[p..q]);
        VariableWritten(src, pos);
      } else {
        var open := Skip(src, q);
        var args, end := ArgsWritten(src, open + 1);
        SkipAgain(src, end);
        c := CallWritten(src, args, ParseArgs(src, open + 1).list, pos, end);
      }
    }
  }

  lemma GroupWritten(src: string, a: Expr, e: Expr, pos: nat, mid: nat)
    requires pos <= |src| && Skip(src, pos) < |src| && src[Skip(src, pos)] == '('
    requires Written(a, 0, src, Skip(src, pos) + 1, mid, e)
    requires mid <= |src| && Skip(src, mid) < |src| && src[Skip(src, mid)] == ')'
    ensures Written(Group(a), 4, src, pos, Skip(src, mid) + 1, e)
  {
    hide Spelled, Body, Print, Strip, Printable, Precedence;
    WrittenPrint(a, 0, src, Skip(src, pos) + 1, mid, e);
    GroupShape(a);
    NothingSpelled(src, Skip(src, mid) + 1);
    MarkSpelled(')', [], src, mid, Skip(src, mid) + 1);
    SpelledJoin(Print(a, 0), [[')']] + [], src, Skip(src, pos) + 1, mid, Skip(src, mid) + 1);
    MarkSpelled('(', Print(a, 0) + ([[')']] + []), src, pos, Skip(src, mid) + 1);
  }

  lemma NumberWritten(src: string, pos: nat)
    requires pos <= |src| && Skip(src, pos) < |src|
    requires IsDigit(src[Skip(src, pos)]) || src[Skip(src, pos)] == '.'
    ensures var p := Skip(src, pos); var q := ScanNumber(src, p);
            Written(Num(src[p..q]), 4, src, pos, q, Num(src[p..q]))
  {
    var p := Skip(src, pos);
    var q := ScanNumber(src, p);
    NumberExtracted(src, p, q, 0);
    WordSpelled(src, pos, q, [], q);
    assert [src[p..q]] + [] == [src[p..q]];
  }

  lemma VariableWritten(src: string, pos: nat)
    requires pos <= |src| && src[Skip(src, pos)..ScanName(src, Skip(src, pos))] in VARIABLES
    ensures var p := Skip(src, pos); var q := ScanName(src, p);
            Written(Var(src[p..q]), 4, src, pos, q, Var(src[p..q]))
  {
    var p := Skip(src, pos);
    var q := ScanName(src, p);
    WordSpelled(src, pos, q, [], q);
    assert [src[p..q]] + [] == [src[p..q]];
  }

  // ---- calls ----

  function ArgTokens(args: seq<Expr>): seq<string> {
    if args == [] then []
    else if |args| == 1 then Print(args[0], 0)
    else Print(args[0], 0) + ([[',']] + ArgTokens(args[1..]))
  }

  /** The arguments, separated by commas, as written and as meant. */
  ghost predicate WrittenArgs(args: seq<Expr>, src: string, pos: nat, end: nat, list: seq<Expr>) {
    && pos <= |src| && end <= |src| && |args| == |list|
    && (forall i :: 0 <= i < |args| ==> Printable(args[i]) && Strip(args[i]) == list[i])
    && Spelled(ArgTokens(args), src, pos, end)
  }

  lemma {:induction false} ArgsWritten(src: string, pos: nat) returns (args: seq<Expr>, end: nat)
    requires pos <= |src| && ParseArgs(src, pos).Args?
    ensures WrittenArgs(args, src, pos, end, ParseArgs(src, pos).list) && Skip(src, end) == ParseArgs(src, pos).pos
    decreases |src| - pos, 7
  {
    if Peek(src, pos) == ')' {
      args, end := [], pos;
    } else {
      hide WrittenArgs;
      args, end := MoreArgsWritten(src, pos);
    }
  }

  lemma {:induction false} MoreArgsWritten(src: string, pos: nat) returns (args: seq<Expr>, end: nat)
    requires pos <= |src| && MoreArgs(src, pos).Args?
    ensures WrittenArgs(args, src, pos, end, MoreArgs(src, pos).list) && Skip(src, end) == MoreArgs(src, pos).pos
    decreases |src| - pos, 6
  {
    hide Written, ParseExpr, WrittenArgs;
    var r := ParseExpr(src, pos);
    var a, mid := ExprWritten(src, pos);
    WrittenStart(a, 0, src, pos, mid, r.e);
    SkipAgain(src, mid);
    if Peek(src, r.pos) == ',' {
      var more;
      more, end := MoreArgsWritten(src, Skip(src, mid) + 1);
      args := [a] + more;
      ArgJoined(src, a, r.e, more, MoreArgs(src, Skip(src, mid) + 1).list, pos, mid, end);
    } else {
      args, end := [a], mid;
      OneArg(src, a, r.e, pos, mid);
    }
  }

  lemma OneArg(src: string, a: Expr, e: Expr, pos: nat, mid: nat)
    requires Written(a, 0, src, pos, mid, e)
    ensures WrittenArgs([a], src, pos, mid, [e])
  {
    WrittenPrint(a, 0, src, pos, mid, e);
    hide Written, Spelled;
  }

  lemma ArgJoined(src: string, a: Expr, e: Expr, more: seq<Expr>, list: seq<Expr>, pos: nat, mid: nat, end: nat)
    requires Written(a, 0, src, pos, mid, e) && mid <= |src| && Skip(src, mid) < |src| && src[Skip(src, mid)] == ','
    requires WrittenArgs(more, src, Skip(src, mid) + 1, end, list) && list != []
    ensures WrittenArgs([a] + more, src, pos, end, [e] + list)
  {
    WrittenPrint(a, 0, src, pos, mid, e);
    hide Written, Spelled;
    MarkSpelled(',', ArgTokens(more), src, mid, end);
    SpelledJoin(Print(a, 0), [[',']] + ArgTokens(more), src, pos, mid, end);
    assert ([a] + more)[1..] == more;
    assert ArgTokens([a] + more) == Print(a, 0) + ([[',']] + ArgTokens(more));
  }

  lemma CallBuilt(name: string, args: seq<Expr>, list: seq<Expr>, last: nat) returns (c: Expr)
    requires BuildCall(name, list, last).Done? && |args| == |list|
    requires forall i :: 0 <= i < |args| ==> Printable(args[i]) && Strip(args[i]) == list[i]
    ensures 1 <= |args| <= 2 && c == if |args| == 2 then PowCall(name, args[0], args[1]) else Call(name, args[0])
    ensures Printable(c) && Strip(c) == BuildCall(name, list, last).e && Precedence(c) >= 4
    ensures BuildCall(name, list, last).pos == last
  {
    hide Lower;
    c := if |args| == 2 then PowCall(name, args[0], args[1]) else Call(name, args[0]);
  }

  /** A name, an opening parenthesis, arguments, and the closing parenthesis. */
  lemma CallWritten(src: string, args: seq<Expr>, list: seq<Expr>, pos: nat, end: nat) returns (c: Expr)
    requires pos <= |src| && end <= |src| && Skip(src, end) < |src| && src[Skip(src, end)] == ')'
    requires var q := ScanName(src, Skip(src, pos));
             && Peek(src, q) == '(' && Skip(src, q) < |src|
             && WrittenArgs(args, src, Skip(src, q) + 1, end, list)
    requires BuildCall(src[Skip(src, pos)..ScanName(src, Skip(src, pos))], list, Skip(src, end) + 1).Done?
    ensures var r := BuildCall(src[Skip(src, pos)..ScanName(src, Skip(src, pos))], list, Skip(src, end) + 1);
            Written(c, 4, src, pos, r.pos, r.e)
  {
    hide Spelled, ScanName, ArgTokens, BuildCall, Printable, Strip, Precedence, Body, Skip;
    var p := Skip(src, pos);
    var q := ScanName(src, p);
    var name, last := src[p..q], Skip(src, end) + 1;
    c := CallBuilt(name, args, list, last);
    NothingSpelled(src, last);
    CallTokensAre(name, args);
    MarkSpelled(')', [], src, end, last);
    SpelledJoin(ArgTokens(args), [[')']] + [], src, Skip(src, q) + 1, end, last);
    MarkSpelled('(', ArgTokens(args) + ([[')']] + []), src, q, last);
    WordSpelled(src, pos, q, [['(']] + (ArgTokens(args) + ([[')']] + [])), last);
  }

  lemma CallTokensAre(name: string, args: seq<Expr>)
    requires 1 <= |args| <= 2
    ensures var c := if |args| == 2 then PowCall(name, args[0], args[1]) else Call(name, args[0]);
            Body(c) == [name] + ([['(']] + (ArgTokens(args) + ([[')']] + [])))
  {
    hide Print;
    if |args| == 2 {
      assert args[1..] == [args[1]];
      var x, y := Print(args[0], 0), Print(args[1], 0);
      Parenthesised(name, x + ([[',']] + y));
      assert [name, "("] + x + [","] + y == [name, "("] + (x + ([[',']] + y));
    } else {
      Parenthesised(name, Print(args[0], 0));
    }
  }

  lemma Parenthesised(name: string, inner: seq<string>)
    ensures [name, "("] + inner + [")"] == [name] + ([['(']] + (inner + ([[')']] + [])))
  {
  }

  // ---- the language ----

  /** The whole text writes the tree c, with any blanks. */
  ghost predicate Writes(c: Expr, src: string) {
    && Printable(c)
    && exists end: nat :: end <= |src| && Spelled(Print(c, 0), src, 0, end) && Skip(src, end) == |src|
  }

  /** A text is a formula meaning e exactly when it writes a tree that means e. */
  lemma FormulasAreTexts(src: string, e: Expr)
    ensures Parse(src) == Some(e) <==> exists c :: Writes(c, src) && Strip(c) == e
  {
    hide Spelled, Print, Strip, ParseExpr;
    if Parse(src) == Some(e) {
      var c, end := ExprWritten(src, 0);
      WrittenPrint(c, 0, src, 0, end, e);
      SkipAgain(src, end);
      assert Writes(c, src);
    }
    if c :| Writes(c, src) && Strip(c) == e {
      var end: nat :| end <= |src| && Spelled(Print(c, 0), src, 0, end) && Skip(src, end) == |src|;
      SkipMoves(src, end);
      ReadExpr(c, src, 0, end);
      SkipAgain(src, end);
    }
  }
}
