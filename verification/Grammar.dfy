/** packetdrill/calc.y: tokens, trees, their yields, and the meaning of a program. */
module Grammar {
  import opened Arithmetic

  /** What `yylex` hands over: a token number together with the value it leaves in `yylval`.
      A `CHAR` is a token that is its own character code. */
  datatype Token = INTEGER(n: int32) | VARIABLE(i: Name) | CHAR(c: CharCode)

  type Name = i: int | 0 <= i < 26
  type CharCode = c: int | 1 <= c < 256 witness 1

  const PLUS := CHAR(43)
  const MINUS := CHAR(45)
  const TIMES := CHAR(42)
  const SLASH := CHAR(47)
  const NEWLINE := CHAR(10)
  const EQUALS := CHAR(61)
  const LPAREN := CHAR(40)
  const RPAREN := CHAR(41)

  function OpToken(op: Op): Token {
    match op case Add => PLUS case Sub => MINUS case Mul => TIMES case Div => SLASH
  }

  // Every derivation of `expr` is one of these trees; the grammar alone is ambiguous.
  datatype Expr = Num(n: int32) | Var(i: Name) | Bin(op: Op, l: Expr, r: Expr) | Paren(e: Expr)
  datatype Stmt = Print(e: Expr) | Assign(i: Name, e: Expr)

  function Yield(e: Expr): (ts: seq<Token>)
    ensures |ts| > 0
  {
    match e
    case Num(n) => [INTEGER(n)]
    case Var(i) => [VARIABLE(i)]
    case Bin(op, l, r) => Yield(l) + [OpToken(op)] + Yield(r)
    case Paren(e) => [LPAREN] + Yield(e) + [RPAREN]
  }

  function YieldStmt(s: Stmt): seq<Token> {
    match s
    case Print(e) => Yield(e)
    case Assign(i, e) => [VARIABLE(i), EQUALS] + Yield(e)
  }

  function YieldProgram(p: seq<Stmt>): seq<Token> {
    if p == [] then [] else YieldProgram(p[..|p| - 1]) + YieldStmt(p[|p| - 1]) + [NEWLINE]
  }

  /** A token sequence is a sentence when `program` derives it. */
  ghost predicate Sentence(ts: seq<Token>) {
    exists p :: YieldProgram(p) == ts
  }

  lemma Plain(a: seq<Token>)
    ensures a + [] == a
  {
  }

  lemma Regroup(a: seq<Token>, b: seq<Token>, c: seq<Token>)
    ensures a + b + c == a + (b + c)
  {
  }

  // ---- the trees that the %left declarations select ----

  function Level(e: Expr): int {
    match e case Bin(op, _, _) => (if op.Additive() then 0 else 1) case _ => 2
  }

  /** `*` and `/` bind tighter than `+` and `-`, and all four associate to the left. */
  predicate Canonical(e: Expr) {
    match e
    case Num(_) => true
    case Var(_) => true
    case Paren(e) => Canonical(e)
    case Bin(op, l, r) =>
      && Canonical(l) && Canonical(r)
      && Level(l) >= Level(e) && Level(r) > Level(e)
  }

  predicate CanonicalStmt(s: Stmt) { Canonical(s.e) }

  predicate CanonicalProgram(p: seq<Stmt>) { forall s | s in p :: CanonicalStmt(s) }

  // ---- meaning ----

  /** The array `sym` and everything printed so far. */
  datatype World = World(sym: seq<Value>, out: seq<Value>)

  predicate Ready(w: World) { |w.sym| == 26 }

  function Eval(e: Expr, sym: seq<Value>): Value
    requires |sym| == 26
  {
    match e
    case Num(n) => Known(n)
    case Var(i) => sym[i]
    case Bin(op, l, r) => Apply(op, Eval(l, sym), Eval(r, sym))
    case Paren(e) => Eval(e, sym)
  }

  function Exec(s: Stmt, w: World): (w': World)
    requires Ready(w)
    ensures Ready(w')
  {
    match s
    case Print(e) => w.(out := w.out + [Eval(e, w.sym)])
    case Assign(i, e) => w.(sym := w.sym[i := Eval(e, w.sym)])
  }

  function Interp(p: seq<Stmt>, w: World): (w': World)
    requires Ready(w)
    ensures Ready(w')
  {
    if p == [] then w else Exec(p[|p| - 1], Interp(p[..|p| - 1], w))
  }
}
