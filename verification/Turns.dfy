/** What every turn of the machine on shapes keeps: the tokens read, the effects, the follow automaton,
    the precedence discipline, and a measure that goes down. */
module Turns {
  import opened Arithmetic
  import opened Grammar
  import opened Engine
  import opened Shapes
  import V = Viability

  // ---- tokens ----

  function FrameYield(f: Frame): seq<Token> {
    match f
    case Line => []
    case Target(i) => [VARIABLE(i), EQUALS]
    case Open(outer) => FrameYield(outer) + [LPAREN]
    case Left(outer, e, op) => FrameYield(outer) + Yield(e) + [OpToken(op)]
  }

  function TopYield(t: Top): seq<Token> {
    match t
    case Operand => []
    case Int(n) => [INTEGER(n)]
    case Ident(i) => [VARIABLE(i)]
    case Complete(e) => Yield(e)
    case Close(e) => Yield(e) + [RPAREN]
    case Whole(s) => YieldStmt(s)
    case Eol(s) => YieldStmt(s) + [NEWLINE]
  }

  function Program(sh: Shape): seq<Stmt> { if sh.Start? then [] else sh.prog }

  /** The tokens of the unfinished line. */
  function LineYield(sh: Shape): seq<Token> {
    if sh.Start? then [] else FrameYield(sh.frame) + TopYield(sh.top)
  }

  function ShapeYield(sh: Shape): seq<Token> { YieldProgram(Program(sh)) + LineYield(sh) }

  /** A turn reads nothing unless it shifts, and then exactly the lookahead. */
  lemma TurnYield(sh: Shape, l: Look)
    requires ShapeOk(sh) && Turning(sh, l).Go?
    ensures var g := Turning(sh, l);
            (g.shifted ==> l.Tok?) && ShapeYield(g.sh) == ShapeYield(sh) + if g.shifted then [l.t] else []
  {
    var g := Turning(sh, l);
    if sh.At? && sh.top.Eol? {
      EolYield(sh.prog, sh.top.s);
      Plain(ShapeYield(sh));
    } else {
      TurnLine(sh, l);
      Regroup(YieldProgram(Program(sh)), LineYield(sh), if g.shifted then [l.t] else []);
    }
  }

  lemma EolYield(p: seq<Stmt>, s: Stmt)
    ensures ShapeYield(At(p + [s], Line, Operand)) == ShapeYield(At(p, Line, Eol(s)))
  {
    YieldAppend(p, s);
    Regroup(YieldProgram(p), YieldStmt(s), [NEWLINE]);
    Plain(YieldProgram(p + [s]));
    assert LineYield(At(p, Line, Eol(s))) == YieldStmt(s) + [NEWLINE] && LineYield(At(p + [s], Line, Operand)) == [];
  }

  lemma YieldAppend(p: seq<Stmt>, s: Stmt)
    ensures YieldProgram(p + [s]) == YieldProgram(p) + YieldStmt(s) + [NEWLINE]
  {
    assert (p + [s])[..|p|] == p;
  }

  lemma TurnLine(sh: Shape, l: Look)
    requires ShapeOk(sh) && Turning(sh, l).Go? && !(sh.At? && sh.top.Eol?)
    ensures var g := Turning(sh, l);
            (g.shifted ==> l.Tok?) && Program(g.sh) == Program(sh) &&
            LineYield(g.sh) == LineYield(sh) + if g.shifted then [l.t] else []
  {
    if sh.At? && sh.top.Complete? {
      if Turning(sh, l).shifted { ShiftAfterValue(sh.prog, sh.frame, sh.top.e, l); }
      else {
        ReduceValue(sh.prog, sh.frame, sh.top.e, l);
        Plain(LineYield(sh));
      }
    }
  }

  lemma OperatorYield(f: Frame, e: Expr, op: Op)
    ensures FrameYield(Left(f, e, op)) + TopYield(Operand) == FrameYield(f) + Yield(e) + [OpToken(op)]
  {
    Plain(FrameYield(f) + Yield(e) + [OpToken(op)]);
  }

  lemma ShiftAfterValue(p: seq<Stmt>, f: Frame, e: Expr, l: Look)
    requires ShapeOk(At(p, f, Complete(e)))
    requires Turning(At(p, f, Complete(e)), l).Go? && Turning(At(p, f, Complete(e)), l).shifted
    ensures var sh := Turning(At(p, f, Complete(e)), l).sh;
            l.Tok? && Program(sh) == p && LineYield(sh) == FrameYield(f) + Yield(e) + [l.t]
  {
    var sh := Turning(At(p, f, Complete(e)), l).sh;
    if sh.top.Operand? {
      assert OpToken(OpOf(l.t)) == l.t;
      OperatorYield(f, e, OpOf(l.t));
    } else {
      Regroup(FrameYield(f), Yield(e), [l.t]);
    }
  }

  lemma ReduceValue(p: seq<Stmt>, f: Frame, e: Expr, l: Look)
    requires ShapeOk(At(p, f, Complete(e)))
    requires Turning(At(p, f, Complete(e)), l).Go? && !Turning(At(p, f, Complete(e)), l).shifted
    ensures var sh := Turning(At(p, f, Complete(e)), l).sh;
            Program(sh) == p && LineYield(sh) == FrameYield(f) + Yield(e)
  {
    if f.Left? {
      Regroup(FrameYield(f.outer), Yield(f.e), [OpToken(f.op)]);
      Regroup(FrameYield(f.outer), Yield(f.e) + [OpToken(f.op)], Yield(e));
    }
  }

  /** The precedence discipline of the stack is kept. */
  lemma TurnOk(sh: Shape, l: Look)
    requires ShapeOk(sh) && LookOk(sh, l) && (l == Empty ==> Blind(sh)) && Turning(sh, l).Go?
    ensures ShapeOk(Turning(sh, l).sh)
    ensures LookOk(Turning(sh, l).sh, if Turning(sh, l).shifted then Empty else l)
  {
  }

  // ---- effects ----

  function WorldAt(sh: Shape, w: World): (w': World)
    requires Ready(w)
    ensures Ready(w')
  {
    var w1 := Interp(Program(sh), w);
    if sh.At? && (sh.top.Whole? || sh.top.Eol?) then Exec(sh.top.s, w1) else w1
  }

  lemma TurnEffect(sh: Shape, l: Look, w: World)
    requires ShapeOk(sh) && Turning(sh, l).Go? && Ready(w)
    ensures TurnWorld(sh, Turning(sh, l).sh, WorldAt(sh, w)) == WorldAt(Turning(sh, l).sh, w)
  {
    if sh.At? && sh.top.Eol? {
      assert (sh.prog + [sh.top.s])[..|sh.prog|] == sh.prog;
    }
  }

  // ---- the follow automaton ----

  function Depth(f: Frame): nat {
    match f
    case Line => 0
    case Target(_) => 0
    case Open(outer) => Depth(outer) + 1
    case Left(outer, _, _) => Depth(outer)
  }

  function ModeOf(sh: Shape): V.Mode
    requires ShapeOk(sh)
  {
    match sh
    case Start => V.Fresh
    case At(_, f, Operand) => if f.Line? then V.Fresh else V.Due(Depth(f))
    case At(_, f, Ident(_)) => if f.Line? then V.Named else V.Had(Depth(f))
    case At(_, f, Close(_)) => V.Had(Depth(f.outer))
    case At(_, f, Eol(_)) => V.Fresh
    case At(_, f, _) => V.Had(Depth(f))
  }

  /** A name that began the line is treated as an operand only once the next token is known not to be '='. */
  predicate Tracks(m: V.Mode, sh: Shape, l: Look)
    requires ShapeOk(sh)
  {
    m == ModeOf(sh) || (m == V.Named && ModeOf(sh) == V.Had(0) && l != Empty && l != Tok(EQUALS))
  }

  /** Turn `g` with lookahead `l` is what the follow automaton does from mode `m`. */
  predicate Follows(m: V.Mode, l: Look, g: Turn) {
    match g
    case Stop(true) => m == V.Fresh && !l.Tok?
    case Stop(false) => if l.Tok? then V.Follow(m, l.t) == V.Dead else m != V.Fresh
    case Go(sh', shifted) =>
      ShapeOk(sh') && if shifted then l.Tok? && V.Follow(m, l.t) == ModeOf(sh') else Tracks(m, sh', l)
  }

  /** The machine goes on exactly where the follow automaton does. */
  lemma TurnMode(sh: Shape, m: V.Mode, l: Look)
    requires ShapeOk(sh) && Tracks(m, sh, l) && LookOk(sh, l) && (l == Empty ==> Blind(sh))
    ensures Follows(m, l, Turning(sh, l))
  {
    if Turning(sh, l).Go? { TurnOk(sh, l); }
    if sh.At? && sh.top.Complete? { ValueMode(sh.prog, sh.frame, sh.top.e, m, l); }
  }

  lemma ValueMode(p: seq<Stmt>, f: Frame, e: Expr, m: V.Mode, l: Look)
    requires ShapeOk(At(p, f, Complete(e))) && Tracks(m, At(p, f, Complete(e)), l) && LookOk(At(p, f, Complete(e)), l)
    requires l == Empty ==> Blind(At(p, f, Complete(e)))
    ensures Follows(m, l, Turning(At(p, f, Complete(e)), l))
  {
    if Turning(At(p, f, Complete(e)), l).Go? { TurnOk(At(p, f, Complete(e)), l); }
  }

  // ---- termination ----

  function FrameWeight(f: Frame): nat {
    match f
    case Line => 0
    case Target(_) => 6
    case Open(outer) => FrameWeight(outer) + 3
    case Left(outer, _, _) => FrameWeight(outer) + 5
  }

  /** Terminals weigh 3, an expression 2, a statement 1, a program nothing. */
  function Weight(sh: Shape): nat {
    match sh
    case Start => 1
    case At(_, f, t) => FrameWeight(f) + match t
      case Operand => 0
      case Int(_) => 3
      case Ident(_) => 3
      case Complete(_) => 2
      case Close(_) => 5
      case Whole(_) => 1
      case Eol(_) => 4
  }

  lemma TurnWeight(sh: Shape, l: Look)
    requires ShapeOk(sh) && Turning(sh, l).Go?
    ensures Weight(Turning(sh, l).sh) < Weight(sh) + if Turning(sh, l).shifted then 4 else 0
  {
  }

  // ---- stack depth ----

  /** How far the top of the stack can be above five times the number of open parentheses. */
  function Slack(f: Frame): nat {
    match f
    case Line => 2
    case Target(_) => 4
    case Open(_) => 4
    case Left(_, _, op) => if op.Additive() then 6 else 8
  }

  lemma {:induction false} FrameDepth(f: Frame)
    requires FrameOk(f)
    ensures |FrameStates(f)| <= 5 * Depth(f) + Slack(f)
  {
    if f.Open? || f.Left? { FrameDepth(f.outer); }
  }

  lemma StackDepth(sh: Shape)
    requires ShapeOk(sh) && sh.At?
    ensures |States(sh)| <= 5 * Depth(sh.frame) + 9
  {
    FrameDepth(sh.frame);
  }

  lemma CloseEndsLine(sh: Shape)
    requires sh.At? && sh.top.Close?
    ensures ShapeYield(sh) != [] && ShapeYield(sh)[|ShapeYield(sh)| - 1] == RPAREN
  {
  }

  /** The state-stack index stays within 5d + 8 when at most d parentheses are ever open. */
  lemma StackWithinPeak(sh: Shape, m: V.Mode, l: Look)
    requires ShapeOk(sh) && m == V.Modes(V.Fresh, ShapeYield(sh)) && Tracks(m, sh, l)
    ensures |States(sh)| - 1 <= 5 * V.Peak(ShapeYield(sh)) + 8
  {
    V.PeakAboveNesting(ShapeYield(sh));
    V.ModeCountsParens(ShapeYield(sh));
    if sh.At? {
      StackDepth(sh);
      if sh.top.Close? { CloseEndsLine(sh); }
    }
  }
}
