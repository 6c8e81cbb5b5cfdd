/** Printing formulas with the parentheses the grammar needs, and the proof that the compiler reads them back. */
module FormulaPrint {
  import opened Formula
  import opened Wire

  // ---- the printer ----

  predicate IsOperator(c: char) { c == '+' || c == '-' || c == '*' || c == '/' }

  /** 0: sums, 1: products, 2: powers, 3: negations, 4: everything that needs no parentheses. */
  function Precedence(e: Expr): (p: nat)
    ensures p <= 4
  {
    match e
    case Bin(op, _, _) => if op == '+' || op == '-' then 0 else 1
    case Power(_, _) => 2
    case Neg(_) => 3
    case Plus(_) => 3
    case _ => 4
  }

  predicate IsNumber(text: string) {
    text != "" && (IsDigit(text[0]) || text[0] == '.') && ScanNumber(text, 0) == |text|
  }

  /** Trees that some formula has: numbers and names are spelled as such. */
  predicate Printable(e: Expr) {
    match e
    case Num(text) => IsNumber(text)
    case Var(name) => name in VARIABLES
    case Neg(a) => Printable(a)
    case Group(a) => Printable(a)
    case Plus(a) => Printable(a)
    case Bin(op, l, r) => IsOperator(op) && Printable(l) && Printable(r)
    case Power(b, x) => Printable(b) && Printable(x)
    case Call(name, a) => Lower(name) in FUNCTIONS && Printable(a)
    case PowCall(name, b, x) => Lower(name) == "pow" && Printable(b) && Printable(x)
  }

  /** Sums and products associate to the left, powers to the right; a negation binds tighter than a power. */
  function Body(e: Expr): seq<string>
    decreases e, 0
  {
    match e
    case Num(text) => [text]
    case Var(name) => [name]
    case Neg(a) => ["-"] + Print(a, 3)
    case Group(a) => ["("] + Print(a, 0) + [")"]
    case Plus(a) => ["+"] + Print(a, 3)
    case Bin(op, l, r) =>
      if op == '+' || op == '-' then Print(l, 0) + [[op]] + Print(r, 1) else Print(l, 1) + [[op]] + Print(r, 2)
    case Power(b, x) => Print(b, 3) + ["^"] + Print(x, 2)
    case Call(name, a) => [name, "("] + Print(a, 0) + [")"]
    case PowCall(name, b, x) => [name, "("] + Print(b, 0) + [","] + Print(x, 0) + [")"]
  }

  /** In a place that takes trees of at least this precedence. */
  function Print(e: Expr, level: nat): seq<string>
    decreases e, 1
  {
    if Precedence(e) < level then ["("] + Body(e) + [")"] else Body(e)
  }

  /** The tree that is meant: without redundant parentheses and plus signs. */
  function Strip(e: Expr): Expr {
    match e
    case Num(_) => e
    case Var(_) => e
    case Neg(a) => Neg(Strip(a))
    case Bin(op, l, r) => Bin(op, Strip(l), Strip(r))
    case Power(b, x) => Power(Strip(b), Strip(x))
    case Call(name, a) => Call(name, Strip(a))
    case PowCall(name, b, x) => PowCall(name, Strip(b), Strip(x))
    case Group(a) => Strip(a)
    case Plus(a) => Strip(a)
  }

  // ---- texts that spell a token sequence ----

  /** Between pos and end stand exactly these tokens, with any blanks before each. */
  predicate Spelled(ts: seq<string>, src: string, pos: nat, end: nat)
    requires pos <= |src|
  {
    if ts == [] then pos == end
    else
      var p := Skip(src, pos);
      p + |ts[0]| <= |src| && src[p..p + |ts[0]|] == ts[0] && Spelled(ts[1..], src, p + |ts[0]|, end)
  }

  lemma {:induction false} SpelledSplit(a: seq<string>, b: seq<string>, src: string, pos: nat, end: nat)
    returns (mid: nat)
    requires pos <= |src| && Spelled(a + b, src, pos, end)
    ensures pos <= mid <= |src| && Spelled(a, src, pos, mid) && Spelled(b, src, mid, end)
  {
    if a == [] {
      assert a + b == b;
      mid := pos;
    } else {
      assert (a + b)[1..] == a[1..] + b;
      mid := SpelledSplit(a[1..], b, src, Skip(src, pos) + |a[0]|, end);
    }
  }

  lemma {:induction false} SpelledJoin(a: seq<string>, b: seq<string>, src: string, pos: nat, mid: nat, end: nat)
    requires pos <= |src| && mid <= |src| && Spelled(a, src, pos, mid) && Spelled(b, src, mid, end)
    ensures Spelled(a + b, src, pos, end)
  {
    if a == [] {
      assert a + b == b;
    } else {
      assert (a + b)[1..] == a[1..] + b;
      SpelledJoin(a[1..], b, src, Skip(src, pos) + |a[0]|, mid, end);
    }
  }

  lemma {:induction false} SpelledEnd(ts: seq<string>, src: string, pos: nat, end: nat)
    requires pos <= |src| && Spelled(ts, src, pos, end)
    ensures pos <= end <= |src|
  {
    if ts != [] {
      SpelledEnd(ts[1..], src, Skip(src, pos) + |ts[0]|, end);
    }
  }

  lemma {:induction false} SkipAgain(src: string, pos: nat)
    requires pos <= |src|
    ensures Skip(src, Skip(src, pos)) == Skip(src, pos)
    ensures Skip(src, pos) < |src| ==> !IsSpace(src[Skip(src, pos)])
    decreases |src| - pos
  {
    if pos < |src| && IsSpace(src[pos]) {
      SkipAgain(src, pos + 1);
    }
  }

  predicate Delimiter(c: char) { IsOperator(c) || c == '^' || c == '(' || c == ')' || c == ',' }

  /** A number or name cannot go on here. */
  predicate Break(src: string, pos: nat)
    requires pos <= |src|
  {
    pos == |src| || IsSpace(src[pos]) || Delimiter(src[pos])
  }

  /** A one-character token: what the parser sees before and after it. */
  lemma OneChar(c: char, ts: seq<string>, src: string, pos: nat, end: nat)
    requires pos <= |src| && Spelled([[c]] + ts, src, pos, end) && !IsSpace(c) && Delimiter(c)
    ensures Peek(src, pos) == c && Break(src, pos)
    ensures Skip(src, pos) < |src| && src[Skip(src, pos)] == c && Spelled(ts, src, Skip(src, pos) + 1, end)
  {
    assert ([[c]] + ts)[1..] == ts;
    var p := Skip(src, pos);
    assert src[p..p + 1] == [c];
    assert src[p] == src[p..p + 1][0] == c;
  }

  // ---- words ----

  lemma ScanUnfold(s: string, pos: nat)
    requires pos <= |s|
    ensures ScanNumber(s, pos)
            == if pos == |s| then pos
               else if IsDigit(s[pos]) || s[pos] == '.' then ScanNumber(s, pos + 1)
               else if s[pos] == 'e' || s[pos] == 'E' then
                 var next := if pos + 1 < |s| && (s[pos + 1] == '+' || s[pos + 1] == '-') then pos + 2 else pos + 1;
                 if next < |s| && IsDigit(s[next]) then ScanNumber(s, next) else pos
               else pos
  {
  }

  lemma BreakStops(src: string, pos: nat)
    requires pos <= |src| && Break(src, pos)
    ensures pos < |src| ==> !IsDigit(src[pos]) && src[pos] != '.' && src[pos] != 'e' && src[pos] != 'E'
  {
  }

  lemma {:induction false} NumberScanned(src: string, a: nat, text: string, i: nat)
    requires a + |text| <= |src| && src[a..a + |text|] == text && i <= |text|
    requires ScanNumber(text, i) == |text| && Break(src, a + |text|)
    ensures ScanNumber(src, a + i) == a + |text|
    decreases |text| - i
  {
    hide ScanNumber, IsDigit;
    ScanUnfold(text, i);
    ScanUnfold(src, a + i);
    BreakStops(src, a + |text|);
    if i < |text| {
      forall k | 0 <= k < |text|
        ensures src[a + k] == text[k]
      {
        assert src[a..a + |text|][k] == text[k];
      }
      var next := if i + 1 < |text| && (text[i + 1] == '+' || text[i + 1] == '-') then i + 2 else i + 1;
      if IsDigit(text[i]) || text[i] == '.' {
        NumberScanned(src, a, text, i + 1);
      } else {
        NumberScanned(src, a, text, next);
      }
    }
  }

  lemma {:induction false} NameScanned(src: string, a: nat, text: string, i: nat)
    requires a + |text| <= |src| && src[a..a + |text|] == text && i <= |text|
    requires (forall k :: 0 <= k < |text| ==> IsNameChar(text[k])) && Break(src, a + |text|)
    ensures ScanName(src, a + i) == a + |text|
    decreases |text| - i
  {
    if i < |text| {
      assert src[a + i] == src[a..a + |text|][i];
      NameScanned(src, a, text, i + 1);
    }
  }

  predicate IsWord(name: string) {
    name != "" && IsLetter(name[0]) && forall k :: 0 <= k < |name| ==> IsNameChar(name[k])
  }

  lemma VariableIsWord(name: string)
    requires name in VARIABLES
    ensures IsWord(name)
  {
  }

  lemma FunctionIsWord(name: string)
    requires Lower(name) in FUNCTIONS || Lower(name) == "pow"
    ensures IsWord(name) && name !in VARIABLES
  {
    var low := Lower(name);
    assert |low| >= 2 && forall k :: 0 <= k < |low| ==> 'a' <= low[k] <= 'z';
    forall k | 0 <= k < |name|
      ensures IsLetter(name[k])
    {
      assert low[k] == LowerChar(name[k]);
    }
    assert IsLetter(name[1]) && !IsLetter("X1"[1]);
  }

  // ---- reading back ----

  lemma TailsSkip(src: string, e: Expr, pos: nat)
    requires pos <= |src|
    ensures ExprTail(src, e, Skip(src, pos)) == ExprTail(src, e, pos)
    ensures TermTail(src, e, Skip(src, pos)) == TermTail(src, e, pos)
  {
    hide ParseTerm, ParsePower, Skip;
    SkipAgain(src, pos);
  }

  /** Printed trees start with a token that no tail and no argument list takes for its own. */
  lemma {:induction false} FirstToken(e: Expr, level: nat)
    requires Printable(e)
    ensures |Print(e, level)| > 0 && |Print(e, level)[0]| > 0
    ensures var c := Print(e, level)[0][0]; c != ')' && c != ',' && !IsSpace(c)
    ensures Precedence(e) < level || Precedence(e) == 4 ==> Print(e, level)[0][0] != '-' && Print(e, level)[0][0] != '+'
    decreases e
  {
    if Precedence(e) >= level {
      match e {
        case Num(text) =>
        case Var(name) =>
        case Neg(a) =>
        case Group(a) =>
        case Plus(a) =>
        case Bin(op, l, r) => FirstToken(l, if op == '+' || op == '-' then 0 else 1);
        case Power(b, x) => FirstToken(b, 3);
        case Call(name, a) => FunctionIsWord(name);
        case PowCall(name, b, x) => FunctionIsWord(name);
      }
    }
  }

  lemma FirstChar(e: Expr, level: nat, src: string, pos: nat, end: nat)
    requires Printable(e) && pos <= |src| && Spelled(Print(e, level), src, pos, end)
    ensures Skip(src, pos) < |src| && Peek(src, pos) != ')'
    ensures Precedence(e) < level || Precedence(e) == 4 ==> Peek(src, pos) != '-' && Peek(src, pos) != '+'
  {
    FirstToken(e, level);
    var p, t := Skip(src, pos), Print(e, level)[0];
    assert src[p..p + |t|][0] == t[0];
  }

  /** What a tree may be followed by, so that the parser of this level stops behind it. */
  predicate Follows(src: string, end: nat, level: nat)
    requires end <= |src|
  {
    && Break(src, end)
    && (level <= 2 ==> Peek(src, end) != '^')
    && (level <= 1 ==> Peek(src, end) != '*' && Peek(src, end) != '/')
  }

  lemma OneToken(t: string, src: string, pos: nat, end: nat)
    requires pos <= |src| && Spelled([t], src, pos, end)
    ensures end == Skip(src, pos) + |t| <= |src| && src[Skip(src, pos)..end] == t
  {
    assert [t][1..] == [];
    assert Spelled([], src, Skip(src, pos) + |t|, end);
  }

  lemma ReadNumber(text: string, src: string, pos: nat, end: nat)
    requires IsNumber(text) && pos <= |src| && Spelled([text], src, pos, end) && end <= |src| && Break(src, end)
    ensures ParsePrimary(src, Skip(src, pos)) == Done(Num(text), end)
  {
    hide Spelled, ScanNumber;
    SkipAgain(src, pos);
    OneToken(text, src, pos, end);
    var p := Skip(src, pos);
    assert src[p] == src[p..end][0];
    NumberScanned(src, p, text, 0);
  }

  lemma ReadVariable(name: string, src: string, pos: nat, end: nat)
    requires name in VARIABLES && pos <= |src| && Spelled([name], src, pos, end) && end <= |src| && Break(src, end)
    ensures ParsePrimary(src, Skip(src, pos)) == Done(Var(name), end)
  {
    VariableIsWord(name);
    hide Spelled, ScanName;
    SkipAgain(src, pos);
    OneToken(name, src, pos, end);
    var p := Skip(src, pos);
    assert src[p] == src[p..end][0];
    NameScanned(src, p, name, 0);
  }

  lemma {:induction false} ReadPrimary(e: Expr, src: string, pos: nat, end: nat)
    requires Printable(e) && pos <= |src| && Spelled(Print(e, 4), src, pos, end) && end <= |src| && Break(src, end)
    ensures ParsePrimary(src, Skip(src, pos)) == Done(Strip(e), end)
    decreases e, if Precedence(e) < 4 then 10 else 2
  {
    SkipAgain(src, pos);
    FirstChar(e, 4, src, pos, end);
    if Precedence(e) < 4 {
      ReadParenthesized(e, e, src, pos, end);
    } else {
      match e {
        case Num(text) =>
          assert Print(e, 4) == [text];
          ReadNumber(text, src, pos, end);
        case Var(name) =>
          assert Print(e, 4) == [name];
          ReadVariable(name, src, pos, end);
        case Group(a) => ReadParenthesized(a, e, src, pos, end);
        case Call(name, a) => ReadCall(e, src, pos, end);
        case PowCall(name, b, x) => ReadPowCall(e, src, pos, end);
      }
    }
  }

  /** An expression up to a closing parenthesis or a comma. */
  lemma {:induction false} ReadInner(e: Expr, c: char, ts: seq<string>, src: string, pos: nat, end: nat)
    returns (at: nat)
    requires Printable(e) && pos <= |src| && (c == ')' || c == ',')
    requires Spelled(Print(e, 0) + ([[c]] + ts), src, pos, end)
    ensures at < |src| && ParseExpr(src, pos) == Done(Strip(e), at) && Skip(src, at) == at && Peek(src, at) == c
    ensures Spelled(ts, src, at + 1, end)
    ensures Peek(src, pos) != ')'
    decreases e, 7
  {
    hide Spelled, Print, Printable, ParseExpr, Skip;
    var mid := SpelledSplit(Print(e, 0), [[c]] + ts, src, pos, end);
    OneChar(c, ts, src, mid, end);
    ReadExpr(e, src, pos, mid);
    FirstChar(e, 0, src, pos, mid);
    SkipAgain(src, mid);
    at := Skip(src, mid);
  }

  lemma PowCallTokens(e: Expr)
    requires e.PowCall? && Printable(e)
    ensures Print(e, 4)
            == [e.name] + ([['(']] + (Print(e.base, 0) + ([[',']] + (Print(e.exponent, 0) + ([[')']] + [])))))
    ensures Printable(e.base) && Printable(e.exponent) && Lower(e.name) == "pow"
  {
  }

  lemma CallTokens(e: Expr)
    requires e.Call? && Printable(e)
    ensures Print(e, 4) == [e.name] + ([['(']] + (Print(e.arg, 0) + ([[')']] + [])))
    ensures Printable(e.arg) && Lower(e.name) in FUNCTIONS
  {
  }

  lemma ParenthesizedTokens(a: Expr, e: Expr)
    requires (a == e && Precedence(e) < 4) || e == Group(a)
    ensures Print(e, 4) == [['(']] + (Print(a, 0) + ([[')']] + []))
  {
  }

  lemma PowerTokens(e: Expr)
    requires Printable(e)
    ensures e.Power? ==> Print(e, 2) == Print(e.base, 3) + ([['^']] + Print(e.exponent, 2))
    ensures e.Power? ==>
            Printable(e.base) && Printable(e.exponent) && Strip(e) == Power(Strip(e.base), Strip(e.exponent))
    ensures !e.Power? ==> Print(e, 2) == Print(e, 3)
  {
  }

  lemma BinTokens(e: Expr, level: nat)
    requires Printable(e) && level <= 1
    ensures e.Bin? && Precedence(e) == level ==>
              Print(e, level) == Print(e.left, level) + ([[e.op]] + Print(e.right, level + 1))
    ensures e.Bin? ==> Printable(e.left) && Printable(e.right) && IsOperator(e.op)
                       && Strip(e) == Bin(e.op, Strip(e.left), Strip(e.right))
    ensures !(e.Bin? && Precedence(e) == level) ==> Print(e, level) == Print(e, level + 1)
  {
  }

  lemma NothingSpelled(src: string, pos: nat, end: nat)
    requires pos <= |src| && Spelled([], src, pos, end)
    ensures pos == end
  {
  }

  /** A parenthesized tree, whether the parentheses are needed or redundant. */
  lemma {:induction false} ReadParenthesized(a: Expr, e: Expr, src: string, pos: nat, end: nat)
    requires (a == e && Precedence(e) < 4) || e == Group(a)
    requires Printable(a) && pos <= |src| && Spelled(Print(e, 4), src, pos, end) && end <= |src|
    ensures ParsePrimary(src, Skip(src, pos)) == Done(Strip(a), end)
    decreases a, 8
  {
    hide Spelled, Print, Body, Printable, Strip;
    ParenthesizedTokens(a, e);
    SkipAgain(src, pos);
    OneChar('(', Print(a, 0) + ([[')']] + []), src, pos, end);
    var at := ReadInner(a, ')', [], src, Skip(src, pos) + 1, end);
    NothingSpelled(src, at + 1, end);
  }

  lemma FirstWord(name: string, ts: seq<string>, src: string, pos: nat, end: nat) returns (p: nat)
    requires IsWord(name) && pos <= |src| && Spelled([name] + ts, src, pos, end)
    ensures p == Skip(src, pos) && p + |name| <= |src| && src[p..p + |name|] == name && IsLetter(src[p])
    ensures Spelled(ts, src, p + |name|, end)
  {
    assert ([name] + ts)[1..] == ts;
    p := Skip(src, pos);
    assert src[p..p + |name|][0] == name[0];
  }

  /** A function name with its opening parenthesis. */
  lemma ReadName(name: string, ts: seq<string>, src: string, pos: nat, end: nat) returns (open: nat)
    requires IsWord(name) && pos <= |src| && Spelled([name] + ([['(']] + ts), src, pos, end)
    ensures Skip(src, pos) < open < |src| && IsLetter(src[Skip(src, pos)])
    ensures var q := ScanName(src, Skip(src, pos));
            src[Skip(src, pos)..q] == name && Peek(src, q) == '(' && Skip(src, q) == open
    ensures Spelled(ts, src, open + 1, end)
  {
    hide ScanName, Skip, IsLetter;
    var p := FirstWord(name, [['(']] + ts, src, pos, end);
    hide Spelled;
    OneChar('(', ts, src, p + |name|, end);
    NameScanned(src, p, name, 0);
    open := Skip(src, p + |name|);
  }

  lemma {:induction false} ReadCall(e: Expr, src: string, pos: nat, end: nat)
    requires e.Call? && Printable(e) && pos <= |src| && Spelled(Print(e, 4), src, pos, end)
    ensures ParsePrimary(src, Skip(src, pos)) == Done(Strip(e), end)
    decreases e, 1
  {
    hide Spelled, Print, Printable, Lower, ParsePrimary, ParseExpr, ScanName, Skip, IsWord;
    CallTokens(e);
    FunctionIsWord(e.name);
    var ts := Print(e.arg, 0) + ([[')']] + []);
    var open := ReadName(e.name, ts, src, pos, end);
    var at := ReadInner(e.arg, ')', [], src, open + 1, end);
    NothingSpelled(src, at + 1, end);
    assert MoreArgs(src, open + 1) == Args([Strip(e.arg)], at);
    CallBuilt(e.name, [Strip(e.arg)], src, pos, open, at);
    FunctionNames(e.name);
  }

  lemma {:induction false} ReadPowCall(e: Expr, src: string, pos: nat, end: nat)
    requires e.PowCall? && Printable(e) && pos <= |src| && Spelled(Print(e, 4), src, pos, end)
    ensures ParsePrimary(src, Skip(src, pos)) == Done(Strip(e), end)
    decreases e, 1
  {
    hide Spelled, Print, Printable, Lower, ParsePrimary, ParseArgs, ParseExpr, ScanName, Skip, Peek, IsWord;
    PowCallTokens(e);
    FunctionIsWord(e.name);
    var last := Print(e.exponent, 0) + ([[')']] + []);
    var ts := Print(e.base, 0) + ([[',']] + last);
    var open := ReadName(e.name, ts, src, pos, end);
    var comma := ReadInner(e.base, ',', last, src, open + 1, end);
    var at := ReadInner(e.exponent, ')', [], src, comma + 1, end);
    NothingSpelled(src, at + 1, end);
    TwoArgs(Strip(e.base), Strip(e.exponent), src, open + 1, comma, at);
    CallBuilt(e.name, [Strip(e.base), Strip(e.exponent)], src, pos, open, at);
  }

  lemma TwoArgs(a: Expr, b: Expr, src: string, pos: nat, comma: nat, at: nat)
    requires pos <= |src| && comma < |src| && at <= |src|
    requires ParseExpr(src, pos) == Done(a, comma) && Skip(src, comma) == comma && Peek(src, comma) == ','
    requires ParseExpr(src, comma + 1) == Done(b, at) && Skip(src, at) == at && Peek(src, at) == ')'
    requires Peek(src, pos) != ')'
    ensures ParseArgs(src, pos) == Args([a, b], at)
  {
    hide ParseExpr;
    assert MoreArgs(src, comma + 1) == Args([b], at);
    assert MoreArgs(src, pos) == Args([a] + [b], at);
  }

  /** A word, an argument list and its closing parenthesis. */
  lemma CallBuilt(name: string, args: seq<Expr>, src: string, pos: nat, open: nat, at: nat)
    requires IsWord(name) && name !in VARIABLES && pos <= |src| && Skip(src, pos) < open < |src|
    requires IsLetter(src[Skip(src, pos)])
    requires var q := ScanName(src, Skip(src, pos));
             src[Skip(src, pos)..q] == name && Peek(src, q) == '(' && Skip(src, q) == open
    requires ParseArgs(src, open + 1) == Args(args, at) && at < |src| && Skip(src, at) == at && Peek(src, at) == ')'
    ensures ParsePrimary(src, Skip(src, pos)) == BuildCall(name, args, at + 1)
  {
    hide ParseArgs, ScanName, BuildCall, ParseExpr;
    SkipAgain(src, pos);
  }

  lemma FunctionNames(name: string)
    requires Lower(name) in FUNCTIONS
    ensures Lower(name) != "pow"
  {
  }

  lemma {:induction false} ReadUnary(e: Expr, src: string, pos: nat, end: nat)
    requires Printable(e) && pos <= |src| && Spelled(Print(e, 3), src, pos, end) && end <= |src| && Break(src, end)
    ensures ParseUnary(src, pos) == Done(Strip(e), end)
    decreases e, if Precedence(e) < 3 then 11 else 3
  {
    SkipAgain(src, pos);
    FirstChar(e, 3, src, pos, end);
    if e.Neg? {
      assert Print(e, 3) == [['-']] + Print(e.arg, 3);
      OneChar('-', Print(e.arg, 3), src, pos, end);
      ReadUnary(e.arg, src, Skip(src, pos) + 1, end);
    } else if e.Plus? {
      assert Print(e, 3) == [['+']] + Print(e.arg, 3);
      OneChar('+', Print(e.arg, 3), src, pos, end);
      ReadUnary(e.arg, src, Skip(src, pos) + 1, end);
    } else {
      assert Print(e, 3) == Print(e, 4);
      ReadPrimary(e, src, pos, end);
    }
  }

  lemma {:induction false} ReadPower(e: Expr, src: string, pos: nat, end: nat)
    requires Printable(e) && pos <= |src| && Spelled(Print(e, 2), src, pos, end) && end <= |src| && Follows(src, end, 2)
    ensures ParsePower(src, pos) == Done(Strip(e), Skip(src, end))
    decreases e, if Precedence(e) < 2 then 12 else 4
  {
    hide Spelled, Print, Printable, Strip;
    PowerTokens(e);
    if e.Power? {
      var rest := [['^']] + Print(e.exponent, 2);
      var mid := SpelledSplit(Print(e.base, 3), rest, src, pos, end);
      OneChar('^', Print(e.exponent, 2), src, mid, end);
      ReadUnary(e.base, src, pos, mid);
      ReadPower(e.exponent, src, Skip(src, mid) + 1, end);
    } else {
      ReadUnary(e, src, pos, end);
    }
  }

  lemma TermSteps(src: string, left: Expr, pos: nat, right: Expr, end: nat)
    requires pos <= |src| && end <= |src|
    requires Peek(src, pos) == '*' || Peek(src, pos) == '/'
    requires ParsePower(src, Skip(src, pos) + 1) == Done(right, Skip(src, end))
    ensures TermTail(src, left, pos) == TermTail(src, Bin(Peek(src, pos), left, right), end)
  {
    hide ParsePower;
    TailsSkip(src, Bin(Peek(src, pos), left, right), end);
  }

  lemma ExprSteps(src: string, left: Expr, pos: nat, right: Expr, end: nat)
    requires pos <= |src| && end <= |src|
    requires Peek(src, pos) == '+' || Peek(src, pos) == '-'
    requires ParseTerm(src, Skip(src, pos) + 1) == Done(right, Skip(src, end))
    ensures ExprTail(src, left, pos) == ExprTail(src, Bin(Peek(src, pos), left, right), end)
  {
    hide ParseTerm;
    TailsSkip(src, Bin(Peek(src, pos), left, right), end);
  }

  lemma TermStarts(src: string, e: Expr, pos: nat, end: nat)
    requires pos <= |src| && end <= |src| && ParsePower(src, pos) == Done(e, Skip(src, end))
    ensures ParseTerm(src, pos) == TermTail(src, e, end)
  {
    hide ParsePower;
    TailsSkip(src, e, end);
  }

  lemma ExprStarts(src: string, e: Expr, pos: nat, end: nat)
    requires pos <= |src| && end <= |src| && ParseTerm(src, pos) == Done(e, Skip(src, end))
    ensures ParseExpr(src, pos) == ExprTail(src, e, end)
  {
    hide ParseTerm;
    TailsSkip(src, e, end);
  }

  /** The left operand of a product is whatever the parser has gathered so far. */
  lemma {:induction false} ReadTerm(e: Expr, src: string, pos: nat, end: nat)
    requires Printable(e) && pos <= |src| && Spelled(Print(e, 1), src, pos, end) && end <= |src| && Follows(src, end, 2)
    ensures ParseTerm(src, pos) == TermTail(src, Strip(e), end)
    decreases e, if Precedence(e) < 1 then 13 else 5
  {
    hide Spelled, Print, Printable, Strip, ParseTerm, TermTail, ParsePower, Skip;
    BinTokens(e, 1);
    if e.Bin? && Precedence(e) == 1 {
      var rest := [[e.op]] + Print(e.right, 2);
      var mid := SpelledSplit(Print(e.left, 1), rest, src, pos, end);
      OneChar(e.op, Print(e.right, 2), src, mid, end);
      ReadTerm(e.left, src, pos, mid);
      ReadPower(e.right, src, Skip(src, mid) + 1, end);
      TermSteps(src, Strip(e.left), mid, Strip(e.right), end);
    } else {
      ReadPower(e, src, pos, end);
      TermStarts(src, Strip(e), pos, end);
    }
  }

  /** The left operand of a sum is whatever the parser has gathered so far. */
  lemma {:induction false} ReadExpr(e: Expr, src: string, pos: nat, end: nat)
    requires Printable(e) && pos <= |src| && Spelled(Print(e, 0), src, pos, end) && end <= |src| && Follows(src, end, 1)
    ensures ParseExpr(src, pos) == ExprTail(src, Strip(e), end)
    decreases e, 6
  {
    hide Spelled, Print, Printable, Strip, ParseExpr, ExprTail, ParseTerm, TermTail, Skip;
    BinTokens(e, 0);
    if e.Bin? && Precedence(e) == 0 {
      var rest := [[e.op]] + Print(e.right, 1);
      var mid := SpelledSplit(Print(e.left, 0), rest, src, pos, end);
      OneChar(e.op, Print(e.right, 1), src, mid, end);
      ReadExpr(e.left, src, pos, mid);
      ReadTerm(e.right, src, Skip(src, mid) + 1, end);
      TermEnds(src, Strip(e.right), end);
      ExprSteps(src, Strip(e.left), mid, Strip(e.right), end);
    } else {
      ReadTerm(e, src, pos, end);
      TermEnds(src, Strip(e), end);
      ExprStarts(src, Strip(e), pos, end);
    }
  }

  lemma TermEnds(src: string, e: Expr, end: nat)
    requires end <= |src| && Peek(src, end) != '*' && Peek(src, end) != '/'
    ensures TermTail(src, e, end) == Done(e, Skip(src, end))
  {
  }

  // ---- the round trip ----

  predicate Blank(s: string) {
    forall i :: 0 <= i < |s| ==> IsSpace(s[i])
  }

  /** The tokens with blanks[i] in front of token i and the last blanks behind them. */
  function Layout(ts: seq<string>, blanks: seq<string>): string
    requires |blanks| == |ts| + 1
  {
    if ts == [] then blanks[0] else blanks[0] + ts[0] + Layout(ts[1..], blanks[1..])
  }

  lemma {:induction false} SkipBlanks(src: string, pos: nat, n: nat)
    requires pos + n <= |src| && Blank(src[pos..pos + n])
    requires pos + n == |src| || !IsSpace(src[pos + n])
    ensures Skip(src, pos) == pos + n
    decreases n
  {
    if n > 0 {
      assert src[pos] == src[pos..pos + n][0];
      assert src[pos + 1..pos + n] == src[pos..pos + n][1..];
      SkipBlanks(src, pos + 1, n - 1);
    }
  }

  lemma FirstLaidOut(ts: seq<string>, blanks: seq<string>, before: string)
    requires |blanks| == |ts| + 1 && Blank(blanks[0])
    requires ts != [] ==> ts[0] != "" && !IsSpace(ts[0][0])
    ensures var src, a := before + Layout(ts, blanks), |before| + |blanks[0]|;
            && a <= |src| && Skip(src, |before|) == a && (ts == [] ==> a == |src|)
            && (ts != [] ==> a + |ts[0]| <= |src| && src[a..a + |ts[0]|] == ts[0]
                             && src == (before + blanks[0] + ts[0]) + Layout(ts[1..], blanks[1..]))
  {
    var src, n := before + Layout(ts, blanks), |blanks[0]|;
    assert src[|before|..|before| + n] == blanks[0];
    if ts != [] {
      assert src == (before + blanks[0] + ts[0]) + Layout(ts[1..], blanks[1..]);
      assert src[|before| + n] == ts[0][0];
    }
    SkipBlanks(src, |before|, n);
  }

  /** Tokens that start visibly are spelled by every layout. */
  lemma {:induction false} LayoutSpells(ts: seq<string>, blanks: seq<string>, before: string) returns (end: nat)
    requires |blanks| == |ts| + 1 && forall i :: 0 <= i < |blanks| ==> Blank(blanks[i])
    requires forall i :: 0 <= i < |ts| ==> ts[i] != "" && !IsSpace(ts[i][0])
    ensures var src := before + Layout(ts, blanks);
            && Spelled(ts, src, |before|, end) && end <= |src| && Skip(src, end) == |src|
            && (end == |src| || IsSpace(src[end]))
  {
    hide Layout, Skip, IsSpace;
    var src := before + Layout(ts, blanks);
    FirstLaidOut(ts, blanks, before);
    if ts == [] {
      end := |before|;
      SkipMoves(src, end);
    } else {
      end := LayoutSpells(ts[1..], blanks[1..], before + blanks[0] + ts[0]);
    }
  }

  lemma SkipMoves(src: string, pos: nat)
    requires pos <= |src| && Skip(src, pos) == |src|
    ensures pos == |src| || IsSpace(src[pos])
  {
  }

  lemma {:induction false} TokensVisible(e: Expr, level: nat)
    requires Printable(e)
    ensures Visible(Print(e, level))
    decreases e, if Precedence(e) < level then 1 else 0
  {
    hide Visible;
    VisibleMarks();
    if Precedence(e) < level {
      TokensVisible(e, 0);
      VisibleJoin(["("], Body(e));
      VisibleJoin(["("] + Body(e), [")"]);
    } else {
      match e {
        case Num(text) => VisibleWord(text);
        case Var(name) =>
          VariableIsWord(name);
          VisibleWord(name);
        case Group(a) =>
          TokensVisible(a, 0);
          VisibleJoin(["("], Print(a, 0));
          VisibleJoin(["("] + Print(a, 0), [")"]);
        case Plus(a) =>
          TokensVisible(a, 3);
          VisibleJoin(["+"], Print(a, 3));
        case Neg(a) =>
          TokensVisible(a, 3);
          VisibleJoin(["-"], Print(a, 3));
        case Bin(op, l, r) =>
          var k := if op == '+' || op == '-' then 0 else 1;
          TokensVisible(l, k);
          TokensVisible(r, k + 1);
          VisibleWord([op]);
          VisibleJoin(Print(l, k), [[op]]);
          VisibleJoin(Print(l, k) + [[op]], Print(r, k + 1));
        case Power(b, x) =>
          TokensVisible(b, 3);
          TokensVisible(x, 2);
          VisibleJoin(Print(b, 3), ["^"]);
          VisibleJoin(Print(b, 3) + ["^"], Print(x, 2));
        case Call(name, a) =>
          VisibleHead(name);
          TokensVisible(a, 0);
          VisibleJoin([name, "("], Print(a, 0));
          VisibleJoin([name, "("] + Print(a, 0), [")"]);
        case PowCall(name, b, x) =>
          VisibleHead(name);
          TokensVisible(b, 0);
          TokensVisible(x, 0);
          VisibleJoin([name, "("], Print(b, 0));
          VisibleJoin([name, "("] + Print(b, 0), [","]);
          VisibleJoin([name, "("] + Print(b, 0) + [","], Print(x, 0));
          VisibleJoin([name, "("] + Print(b, 0) + [","] + Print(x, 0), [")"]);
      }
    }
  }

  /** No token is empty or starts with a blank. */
  predicate Visible(ts: seq<string>) {
    forall i :: 0 <= i < |ts| ==> ts[i] != "" && !IsSpace(ts[i][0])
  }

  lemma VisibleJoin(a: seq<string>, b: seq<string>)
    requires Visible(a) && Visible(b)
    ensures Visible(a + b)
  {
  }

  lemma VisibleMarks()
    ensures Visible(["("]) && Visible([")"]) && Visible([","]) && Visible(["-"]) && Visible(["+"]) && Visible(["^"])
  {
  }

  lemma VisibleWord(t: string)
    requires t != "" && !IsSpace(t[0])
    ensures Visible([t])
  {
  }

  lemma VisibleHead(name: string)
    requires Lower(name) in FUNCTIONS || Lower(name) == "pow"
    ensures Visible([name, "("])
  {
    FunctionIsWord(name);
  }

  /** Every tree, printed with the parentheses it needs, any redundant ones it carries, and any blanks between the
      tokens, is read back, using up the whole text. */
  lemma RoundTrip(e: Expr, blanks: seq<string>)
    requires Printable(e) && |blanks| == |Print(e, 0)| + 1 && forall i :: 0 <= i < |blanks| ==> Blank(blanks[i])
    ensures Parse(Layout(Print(e, 0), blanks)) == Some(Strip(e))
  {
    hide Print, Printable, Spelled, ParseExpr, Layout;
    TokensVisible(e, 0);
    var src := Layout(Print(e, 0), blanks);
    assert "" + src == src;
    var end := LayoutSpells(Print(e, 0), blanks, "");
    ReadExpr(e, src, 0, end);
    SkipAgain(src, end);
  }
}
