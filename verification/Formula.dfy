/** Algebraic conversion formulas: the grammar the compiler accepts and what its expressions mean. */
module Formula {
  import opened Wire

  /** Syntax trees. Numbers, variables and function names are kept as they were spelled. Redundant parentheses and
      unary plus signs occur in what is written, never in what the parser returns. */
  datatype Expr =
    | Num(text: string)
    | Var(name: string)
    | Neg(arg: Expr)
    | Bin(op: char, left: Expr, right: Expr)
    | Power(base: Expr, exponent: Expr)
    | Call(name: string, arg: Expr)
    | PowCall(name: string, base: Expr, exponent: Expr)
    | Group(arg: Expr)
    | Plus(arg: Expr)

  /** Floating-point arithmetic seen from outside. */
  datatype Algebra<!F> = Algebra(
    number: string -> Option<F>,
    add: (F, F) -> F, sub: (F, F) -> F, mul: (F, F) -> F, div: (F, F) -> F,
    neg: F -> F, pow: (F, F) -> F, apply: (string, F) -> F)

  const VARIABLES: set<string> := {"X", "x", "X1"}
  const FUNCTIONS: set<string> :=
    {"sqrt", "abs", "exp", "ln", "log", "sin", "cos", "tan", "asin", "acos", "atan", "sinh", "cosh", "tanh", "floor",
     "ceil"}

  // ---- characters ----

  predicate IsSpace(c: char) { c == ' ' || c == '\t' || c == '\n' || c == '\r' }

  predicate IsDigit(c: char) { '0' <= c <= '9' }

  /** Letters of Latin-1: formulas are classified byte by byte. */
  predicate IsLetter(c: char) {
    var n := c as int;
    || 'A' <= c <= 'Z' || 'a' <= c <= 'z' || n == 0xAA || n == 0xB5 || n == 0xBA
    || 0xC0 <= n <= 0xD6 || 0xD8 <= n <= 0xF6 || 0xF8 <= n <= 0xFF
  }

  predicate IsNameChar(c: char) { IsLetter(c) || IsDigit(c) || c == '_' }

  function LowerChar(c: char): char {
    if 'A' <= c <= 'Z' then c - 'A' + 'a' else c
  }

  function Lower(s: string): (r: string)
    ensures |r| == |s|
  {
    seq(|s|, i requires 0 <= i < |s| => LowerChar(s[i]))
  }

  function Skip(src: string, pos: nat): (r: nat)
    requires pos <= |src|
    ensures pos <= r <= |src|
    decreases |src| - pos
  {
    if pos < |src| && IsSpace(src[pos]) then Skip(src, pos + 1) else pos
  }

  /** The next character that is not blank, NUL at the end. */
  function Peek(src: string, pos: nat): char
    requires pos <= |src|
  {
    if Skip(src, pos) == |src| then '\0' else src[Skip(src, pos)]
  }

  /** End of the number that starts here; an exponent belongs to it only when a digit follows. */
  function ScanNumber(src: string, pos: nat): (r: nat)
    requires pos <= |src|
    ensures pos <= r <= |src|
    decreases |src| - pos
  {
    if pos == |src| then pos
    else if IsDigit(src[pos]) || src[pos] == '.' then ScanNumber(src, pos + 1)
    else if src[pos] == 'e' || src[pos] == 'E' then
      var next := if pos + 1 < |src| && (src[pos + 1] == '+' || src[pos + 1] == '-') then pos + 2 else pos + 1;
      if next < |src| && IsDigit(src[next]) then ScanNumber(src, next) else pos
    else pos
  }

  function ScanName(src: string, pos: nat): (r: nat)
    requires pos <= |src|
    ensures pos <= r <= |src|
    decreases |src| - pos
  {
    if pos < |src| && IsNameChar(src[pos]) then ScanName(src, pos + 1) else pos
  }

  // ---- the grammar, as the compiler descends into it ----

  datatype Parsed = Done(e: Expr, pos: nat) | Failed

  datatype ParsedArgs = Args(list: seq<Expr>, pos: nat) | NoArgs

  predicate Advanced(src: string, pos: nat, r: Parsed) {
    r.Done? ==> pos < r.pos <= |src|
  }

  function ParseExpr(src: string, pos: nat): (r: Parsed)
    requires pos <= |src|
    ensures Advanced(src, pos, r)
    decreases |src| - pos, 5
  {
    match ParseTerm(src, pos)
    case Failed => Failed
    case Done(e, p) => ExprTail(src, e, p)
  }

  function ExprTail(src: string, left: Expr, pos: nat): (r: Parsed)
    requires pos <= |src|
    ensures r.Done? ==> pos <= r.pos <= |src|
    decreases |src| - pos, 4
  {
    var p := Skip(src, pos);
    if Peek(src, pos) == '+' || Peek(src, pos) == '-' then
      match ParseTerm(src, p + 1)
      case Failed => Failed
      case Done(right, q) => ExprTail(src, Bin(src[p], left, right), q)
    else Done(left, p)
  }

  function ParseTerm(src: string, pos: nat): (r: Parsed)
    requires pos <= |src|
    ensures Advanced(src, pos, r)
    decreases |src| - pos, 4
  {
    match ParsePower(src, pos)
    case Failed => Failed
    case Done(e, p) => TermTail(src, e, p)
  }

  function TermTail(src: string, left: Expr, pos: nat): (r: Parsed)
    requires pos <= |src|
    ensures r.Done? ==> pos <= r.pos <= |src|
    decreases |src| - pos, 3
  {
    var p := Skip(src, pos);
    if Peek(src, pos) == '*' || Peek(src, pos) == '/' then
      match ParsePower(src, p + 1)
      case Failed => Failed
      case Done(right, q) => TermTail(src, Bin(src[p], left, right), q)
    else Done(left, p)
  }

  function ParsePower(src: string, pos: nat): (r: Parsed)
    requires pos <= |src|
    ensures Advanced(src, pos, r)
    decreases |src| - pos, 2
  {
    match ParseUnary(src, pos)
    case Failed => Failed
    case Done(base, q) =>
      var p := Skip(src, q);
      if Peek(src, q) == '^' then
        match ParsePower(src, p + 1)
        case Failed => Failed
        case Done(exponent, r) => Done(Power(base, exponent), r)
      else Done(base, p)
  }

  function ParseUnary(src: string, pos: nat): (r: Parsed)
    requires pos <= |src|
    ensures Advanced(src, pos, r)
    decreases |src| - pos, 1
  {
    var p := Skip(src, pos);
    if Peek(src, pos) == '-' then
      match ParseUnary(src, p + 1)
      case Failed => Failed
      case Done(e, q) => Done(Neg(e), q)
    else if Peek(src, pos) == '+' then ParseUnary(src, p + 1)
    else ParsePrimary(src, p)
  }

  function ParsePrimary(src: string, pos: nat): (r: Parsed)
    requires pos <= |src|
    ensures Advanced(src, pos, r)
    decreases |src| - pos, 0
  {
    var p := Skip(src, pos);
    if p == |src| then Failed
    else if src[p] == '(' then
      match ParseExpr(src, p + 1)
      case Failed => Failed
      case Done(e, q) => if Peek(src, q) == ')' then Done(e, Skip(src, q) + 1) else Failed
    else if IsDigit(src[p]) || src[p] == '.' then
      var q := ScanNumber(src, p);
      Done(Num(src[p..q]), q)
    else if IsLetter(src[p]) then
      var q := ScanName(src, p);
      var name := src[p..q];
      if name in VARIABLES then Done(Var(name), q)
      else if Peek(src, q) == '(' then
        match ParseArgs(src, Skip(src, q) + 1)
        case NoArgs => Failed
        case Args(list, r) =>
          if Peek(src, r) == ')' then BuildCall(name, list, Skip(src, r) + 1) else Failed
      else Failed
    else Failed
  }

  /** Arguments up to the closing parenthesis, which may follow at once. */
  function ParseArgs(src: string, pos: nat): (r: ParsedArgs)
    requires pos <= |src|
    ensures r.Args? ==> pos <= r.pos <= |src|
    decreases |src| - pos, 7
  {
    if Peek(src, pos) == ')' then Args([], Skip(src, pos)) else MoreArgs(src, pos)
  }

  function MoreArgs(src: string, pos: nat): (r: ParsedArgs)
    requires pos <= |src|
    ensures r.Args? ==> pos <= r.pos <= |src|
    decreases |src| - pos, 6
  {
    match ParseExpr(src, pos)
    case Failed => NoArgs
    case Done(e, q) =>
      if Peek(src, q) == ',' then
        match MoreArgs(src, Skip(src, q) + 1)
        case NoArgs => NoArgs
        case Args(list, r) => Args([e] + list, r)
      else Args([e], Skip(src, q))
  }

  function BuildCall(name: string, args: seq<Expr>, pos: nat): Parsed {
    if Lower(name) == "pow" && |args| == 2 then Done(PowCall(name, args[0], args[1]), pos)
    else if Lower(name) in FUNCTIONS && |args| == 1 then Done(Call(name, args[0]), pos)
    else Failed
  }

  /** A formula is an expression that uses up the whole text. */
  function Parse(src: string): Option<Expr> {
    match ParseExpr(src, 0)
    case Failed => None
    case Done(e, p) => if Skip(src, p) == |src| then Some(e) else None
  }

  // ---- meaning ----

  /** All numbers of the tree have a value. */
  predicate Meaningful<F>(alg: Algebra<F>, e: Expr) {
    match e
    case Num(text) => alg.number(text).Some?
    case Var(_) => true
    case Neg(a) => Meaningful(alg, a)
    case Group(a) => Meaningful(alg, a)
    case Plus(a) => Meaningful(alg, a)
    case Bin(_, l, r) => Meaningful(alg, l) && Meaningful(alg, r)
    case Power(b, x) => Meaningful(alg, b) && Meaningful(alg, x)
    case Call(_, a) => Meaningful(alg, a)
    case PowCall(_, b, x) => Meaningful(alg, b) && Meaningful(alg, x)
  }

  function Eval<F>(alg: Algebra<F>, e: Expr, x: F): F
    requires Meaningful(alg, e)
  {
    match e
    case Num(text) => alg.number(text).value
    case Var(_) => x
    case Neg(a) => alg.neg(Eval(alg, a, x))
    case Group(a) => Eval(alg, a, x)
    case Plus(a) => Eval(alg, a, x)
    case Bin(op, l, r) => BinOp(alg, op, Eval(alg, l, x), Eval(alg, r, x))
    case Power(b, y) => alg.pow(Eval(alg, b, x), Eval(alg, y, x))
    case Call(name, a) => alg.apply(Lower(name), Eval(alg, a, x))
    case PowCall(_, b, y) => alg.pow(Eval(alg, b, x), Eval(alg, y, x))
  }

  function BinOp<F>(alg: Algebra<F>, op: char, l: F, r: F): F {
    if op == '+' then alg.add(l, r)
    else if op == '-' then alg.sub(l, r)
    else if op == '*' then alg.mul(l, r)
    else alg.div(l, r)
  }
}
