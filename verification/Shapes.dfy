/** The viable stacks of the automaton as a zipper over trees, and the machine that the tables encode.

    A `Frame` is what has been read of the current line up to a place where an operand is due; a `Top`
    says what has been pushed since.  `States` renders a shape as the state stack it stands for. */
module Shapes {
  import opened Arithmetic
  import opened Grammar
  import opened Engine

  datatype Frame =
    | Line                                      // nothing yet
    | Target(i: Name)                           // VARIABLE '='
    | Open(outer: Frame)                        // '('
    | Left(outer: Frame, e: Expr, op: Op)       // expr and a binary operator

  datatype Top =
    | Operand                                   // an operand is due
    | Int(n: int32)
    | Ident(i: Name)
    | Complete(e: Expr)
    | Close(e: Expr)                            // expr ')'
    | Whole(s: Stmt)                            // a reduced statement
    | Eol(s: Stmt)                              // a statement and its newline

  datatype Shape = Start | At(prog: seq<Stmt>, frame: Frame, top: Top)

  // ---- rendering ----

  function OpState(op: Op): int {
    match op case Add => 12 case Sub => 13 case Mul => 14 case Div => 15
  }

  /** The state entered when an expression is complete in frame `f`. */
  function ExprState(f: Frame): int {
    match f
    case Line => 7
    case Target(_) => 16
    case Open(_) => 10
    case Left(_, _, op) => (match op case Add => 18 case Sub => 19 case Mul => 20 case Div => 21)
  }

  function FrameStates(f: Frame): (ss: seq<int>)
    ensures |ss| >= 2
  {
    match f
    case Line => [0, 1]
    case Target(_) => [0, 1, 4, 8]
    case Open(outer) => FrameStates(outer) + [5]
    case Left(outer, _, op) => FrameStates(outer) + [ExprState(outer), OpState(op)]
  }

  function TopStates(f: Frame, t: Top): seq<int> {
    match t
    case Operand => []
    case Int(_) => [3]
    case Ident(_) => [if f.Line? then 4 else 9]
    case Complete(_) => [ExprState(f)]
    case Close(_) => [10, 17]
    case Whole(_) => [6]
    case Eol(_) => [6, 11]
  }

  function States(sh: Shape): seq<int> {
    if sh.Start? then [0] else FrameStates(sh.frame) + TopStates(sh.frame, sh.top)
  }

  // ---- well-formedness ----

  predicate Base(f: Frame) { !f.Left? }

  /** Operators wait on the stack only above operators that bind more loosely. */
  predicate FrameOk(f: Frame) {
    match f
    case Line => true
    case Target(_) => true
    case Open(outer) => FrameOk(outer)
    case Left(outer, e, op) =>
      && FrameOk(outer) && Canonical(e)
      && (if op.Additive() then Base(outer)
          else Level(e) >= 1 && (Base(outer) || outer.op.Additive()))
  }

  /** The least level an expression complete in frame `f` can have. */
  function Floor(f: Frame): int {
    if !f.Left? then 0 else if f.op.Additive() then 1 else 2
  }

  predicate TopOk(f: Frame, t: Top) {
    match t
    case Operand => true
    case Int(_) => true
    case Ident(_) => true
    case Complete(e) => Canonical(e) && Level(e) >= Floor(f)
    case Close(e) => f.Open? && Canonical(e)
    case Whole(s) => f.Line? && CanonicalStmt(s)
    case Eol(s) => f.Line? && CanonicalStmt(s)
  }

  predicate ShapeOk(sh: Shape) {
    sh.Start? || (CanonicalProgram(sh.prog) && FrameOk(sh.frame) && TopOk(sh.frame, sh.top))
  }

  predicate MulToken(t: Token) { t == TIMES || t == SLASH }

  /** The lookahead is known and is not a `*` or `/`; with `all`, it is no operator at all. */
  predicate NoOperator(l: Look, all: bool) {
    l == Eof || (l.Tok? && !MulToken(l.t) && !(all && (l.t == PLUS || l.t == MINUS)))
  }

  /** A sum or difference is complete only once the next token is known not to bind tighter,
      and a statement only once it is known not to continue the expression. */
  predicate LookOk(sh: Shape, l: Look) {
    && (sh.At? && sh.top.Complete? && Level(sh.top.e) == 0 ==> NoOperator(l, false))
    && (sh.At? && sh.top.Whole? ==> NoOperator(l, true))
  }

  // ---- values beside the states ----

  ghost predicate FrameValues(f: Frame, v: seq<Value>, sym: seq<Value>)
    requires |sym| == 26
  {
    |v| == |FrameStates(f)| &&
    match f
    case Line => true
    case Target(i) => v[2] == Known(i)
    case Open(outer) => FrameValues(outer, v[..|v| - 1], sym)
    case Left(outer, e, _) => FrameValues(outer, v[..|v| - 2], sym) && v[|v| - 2] == Eval(e, sym)
  }

  ghost predicate TopValues(f: Frame, t: Top, v: seq<Value>, sym: seq<Value>)
    requires |sym| == 26
  {
    |v| == |TopStates(f, t)| &&
    match t
    case Int(n) => v[0] == Known(n)
    case Ident(i) => v[0] == Known(i)
    case Complete(e) => v[0] == Eval(e, sym)
    case Close(e) => v[0] == Eval(e, sym)
    case _ => true
  }

  ghost predicate Values(sh: Shape, v: seq<Value>, sym: seq<Value>)
    requires |sym| == 26
  {
    if sh.Start? then |v| == 1
    else
      var n := |FrameStates(sh.frame)|;
      n <= |v| && FrameValues(sh.frame, v[..n], sym) && TopValues(sh.frame, sh.top, v[n..], sym)
  }

  /** Configuration `c` is the one that shape `sh` stands for. */
  ghost predicate Rep(c: Config, sh: Shape) {
    && Ready(c.w)
    && ShapeOk(sh)
    && LookOk(sh, c.look)
    && (c.look.Tok? ==> c.lval == Lval(c.look.t, c.lval))
    && c.ss == States(sh)
    && Values(sh, c.vs, c.w.sym)
  }

  // ---- the machine on shapes ----

  datatype Turn = Go(sh: Shape, shifted: bool) | Stop(ok: bool)

  /** Whether the next turn can be decided without a lookahead. */
  predicate Blind(sh: Shape) {
    match sh
    case Start => true
    case At(_, f, Int(_)) => true
    case At(_, f, Ident(_)) => !f.Line?
    case At(_, f, Complete(_)) => f.Left? && !f.op.Additive()
    case At(_, f, Close(_)) => true
    case At(_, f, Eol(_)) => true
    case _ => false
  }

  function OpOf(t: Token): Op
    requires t == PLUS || t == MINUS || t == TIMES || t == SLASH
  {
    if t == PLUS then Add else if t == MINUS then Sub else if t == TIMES then Mul else Div
  }

  function Turning(sh: Shape, l: Look): Turn
    requires ShapeOk(sh)
  {
    match sh
    case Start => Go(At([], Line, Operand), false)
    case At(p, f, Operand) =>
      if l.Tok? && l.t.INTEGER? then Go(At(p, f, Int(l.t.n)), true)
      else if l.Tok? && l.t.VARIABLE? then Go(At(p, f, Ident(l.t.i)), true)
      else if l.Tok? && l.t == LPAREN then Go(At(p, Open(f), Operand), true)
      else Stop(f.Line? && !l.Tok?)
    case At(p, f, Int(n)) => Go(At(p, f, Complete(Num(n))), false)
    case At(p, f, Ident(i)) =>
      if f.Line? && l.Tok? && l.t == EQUALS then Go(At(p, Target(i), Operand), true)
      else Go(At(p, f, Complete(Var(i))), false)
    case At(p, f, Complete(e)) =>
      if l.Tok? && MulToken(l.t) && (Base(f) || f.op.Additive()) then Go(At(p, Left(f, e, OpOf(l.t)), Operand), true)
      else if f.Left? then Go(At(p, f.outer, Complete(Bin(f.op, f.e, e))), false)
      else if l.Tok? && (l.t == PLUS || l.t == MINUS) then Go(At(p, Left(f, e, OpOf(l.t)), Operand), true)
      else if f.Open? then (if l.Tok? && l.t == RPAREN then Go(At(p, f, Close(e)), true) else Stop(false))
      else Go(At(p, Line, Whole(if f.Line? then Print(e) else Assign(f.i, e))), false)
    case At(p, f, Close(e)) => Go(At(p, f.outer, Complete(Paren(e))), false)
    case At(p, f, Whole(s)) =>
      if l.Tok? && l.t == NEWLINE then Go(At(p, f, Eol(s)), true) else Stop(false)
    case At(p, f, Eol(s)) => Go(At(p + [s], f, Operand), false)
  }

  /** The effect of a turn: a statement is executed when it is reduced. */
  function TurnWorld(sh: Shape, sh': Shape, w: World): World
    requires Ready(w)
  {
    if sh.At? && sh.top.Complete? && sh'.At? && sh'.top.Whole? then Exec(sh'.top.s, w) else w
  }
}
