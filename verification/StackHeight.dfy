/** The height of the tokens read is the height of the stack. */
module StackHeight {
  import opened Arithmetic
  import opened Grammar
  import opened Engine
  import opened Shapes
  import opened Heights

  function GaugeOf(f: Frame): Gauge {
    match f
    case Line => CLEAR
    case Target(_) => CLEAR.(assign := true)
    case Open(outer) => var g := GaugeOf(outer); Gauge(g.assign, Within(g.outer, g.here), CALM)
    case Left(outer, _, op) =>
      var g := GaugeOf(outer);
      g.(here := if op.Additive() then Level(true, false) else Level(g.here.sum, true))
  }

  lemma {:induction false} FrameSize(f: Frame)
    requires FrameOk(f)
    ensures |FrameStates(f)| == Size(GaugeOf(f))
    ensures Base(f) ==> GaugeOf(f).here == CALM
    ensures f.Left? && f.op.Additive() ==> GaugeOf(f).here == Level(true, false)
  {
    match f
    case Line =>
    case Target(_) =>
    case Open(outer) => FrameSize(outer);
    case Left(outer, _, _) => FrameSize(outer);
  }

  /** Gauge `g` of the tokens read fits shape `sh`; operands that the parser has taken in early may still be
      counted in `g`, but a sum only when the next token is known not to bind tighter. */
  predicate Gauges(g: Gauge, sh: Shape, l: Look) {
    match sh
    case Start => g == CLEAR
    case At(_, f, Complete(_)) =>
      var k := GaugeOf(f);
      && k.assign == g.assign && k.outer == g.outer
      && (k.here.sum ==> g.here.sum)
      && (k.here.sum == g.here.sum || NoOperator(l, false))
    case At(_, f, Close(_)) => f.Open? && g == GaugeOf(f.outer)
    case At(_, _, Whole(_)) => g.outer == Outermost
    case At(_, _, Eol(_)) => g == CLEAR
    case At(_, f, _) => g == GaugeOf(f)
  }

  predicate CanTurn(sh: Shape, l: Look) {
    ShapeOk(sh) && LookOk(sh, l) && (l == Empty ==> Blind(sh)) && Turning(sh, l).Go?
  }

  lemma OperandGauge(p: seq<Stmt>, f: Frame, l: Look)
    requires CanTurn(At(p, f, Operand), l) && Turning(At(p, f, Operand), l).shifted
    ensures var sh, g := Turning(At(p, f, Operand), l).sh, GaugeOf(f);
            l.Tok? && Gauges(Advance(g, l.t), sh, Empty) && |States(sh)| == SizeAfter(Advance(g, l.t), l.t)
  {
    FrameSize(f);
  }

  lemma LeftGauge(p: seq<Stmt>, f: Frame, e: Expr, op: Op, g: Gauge)
    requires FrameOk(f) && if op.Additive() then Base(f) else Base(f) || f.op.Additive()
    requires var k := GaugeOf(f);
             k.assign == g.assign && k.outer == g.outer && (op.Additive() || k.here.sum == g.here.sum)
    ensures GaugeOf(Left(f, e, op)) == Advance(g, OpToken(op))
    ensures |States(At(p, Left(f, e, op), Operand))| == Size(GaugeOf(Left(f, e, op)))
  {
    FrameSize(f);
    var ss := FrameStates(Left(f, e, op));
    assert ss + [] == ss;
  }

  lemma OperatorGauge(p: seq<Stmt>, f: Frame, e: Expr, g: Gauge, l: Look)
    requires CanTurn(At(p, f, Complete(e)), l) && Gauges(g, At(p, f, Complete(e)), l)
    requires Turning(At(p, f, Complete(e)), l).shifted && l != Tok(RPAREN)
    ensures var sh := Turning(At(p, f, Complete(e)), l).sh;
            l.Tok? && Gauges(Advance(g, l.t), sh, Empty) && |States(sh)| == SizeAfter(Advance(g, l.t), l.t)
  {
    var op := OpOf(l.t);
    assert OpToken(op) == l.t;
    LeftGauge(p, f, e, op, g);
    assert Turning(At(p, f, Complete(e)), l).sh == At(p, Left(f, e, op), Operand);
  }

  lemma CloseGauge(p: seq<Stmt>, f: Frame, e: Expr, g: Gauge)
    requires CanTurn(At(p, f, Complete(e)), Tok(RPAREN)) && Gauges(g, At(p, f, Complete(e)), Tok(RPAREN))
    requires Turning(At(p, f, Complete(e)), Tok(RPAREN)).shifted
    ensures var sh := Turning(At(p, f, Complete(e)), Tok(RPAREN)).sh;
            Gauges(Advance(g, RPAREN), sh, Empty) && |States(sh)| == SizeAfter(Advance(g, RPAREN), RPAREN)
  {
    FrameSize(f.outer);
  }

  /** A shift brings the stack to the height of the tokens read. */
  lemma ShiftGauge(sh: Shape, g: Gauge, l: Look)
    requires CanTurn(sh, l) && Turning(sh, l).shifted && Gauges(g, sh, l)
    ensures l.Tok? && Gauges(Advance(g, l.t), Turning(sh, l).sh, Empty)
    ensures |States(Turning(sh, l).sh)| == SizeAfter(Advance(g, l.t), l.t)
  {
    var At(p, f, t) := sh;
    match t
    case Operand => OperandGauge(p, f, l);
    case Complete(e) => if l == Tok(RPAREN) { CloseGauge(p, f, e, g); } else { OperatorGauge(p, f, e, g, l); }
    case _ =>
  }

  /** A reduction keeps the gauge and never makes the stack higher than its two bottom states. */
  lemma ReduceGauge(sh: Shape, g: Gauge, l: Look)
    requires CanTurn(sh, l) && !Turning(sh, l).shifted && Gauges(g, sh, l)
    ensures Gauges(g, Turning(sh, l).sh, l)
    ensures |States(Turning(sh, l).sh)| <= |States(sh)| || |States(Turning(sh, l).sh)| == 2
  {
    if sh.At? {
      FrameSize(sh.frame);
      if sh.frame.Open? || sh.frame.Left? { FrameSize(sh.frame.outer); }
    }
  }
}
