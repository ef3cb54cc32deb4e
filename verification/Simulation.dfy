/** The compressed tables implement the machine on shapes. */
module Simulation {
  import opened Arithmetic
  import opened Grammar
  import opened ParserTables
  import opened Engine
  import opened Shapes

  /** The action of every state that looks ahead, written out. */
  function Automaton(s: int, t: int): Action {
    if s == 1 then
      if t == 0 then Accept
      else if t == 3 then Shift(3) else if t == 4 then Shift(4) else if t == 11 then Shift(5) else Fail
    else if s == 4 then if t == 10 then Shift(8) else Reduce(7)
    else if s == 6 then if t == 9 then Shift(11) else Fail
    else if s == 7 || s == 16 then if 5 <= t <= 8 then Shift(t + 7) else Reduce(if s == 7 then 4 else 5)
    else if s == 10 then if 5 <= t <= 8 then Shift(t + 7) else if t == 12 then Shift(17) else Fail
    else if s == 18 || s == 19 then if t == 7 || t == 8 then Shift(t + 7) else Reduce(if s == 18 then 8 else 9)
    else if t == 3 then Shift(3) else if t == 4 then Shift(9) else if t == 11 then Shift(5) else Fail
  }

  const BLIND: set<int> := {0, 2, 3, 9, 11, 17, 20, 21}

  function BlindRule(s: int): nat {
    match s case 0 => 3 case 2 => 1 case 3 => 6 case 9 => 7 case 11 => 2 case 17 => 12 case 20 => 10 case _ => 11
  }

  lemma DecodeActions(s: int, t: int)
    requires State(s) && 0 <= t < YYNTOKENS
    ensures Consistent(s) <==> s in BLIND
    ensures s in BLIND ==> Default(s) == Reduce(BlindRule(s))
    ensures s !in BLIND ==> Decide(s, t) == Automaton(s, t)
  {
    DecodeDefaults(s);
    if s !in BLIND { DecodeLooks(s, t); }
  }

  lemma DecodeDefaults(s: int)
    requires State(s)
    ensures Consistent(s) <==> s in BLIND
    ensures s in BLIND ==> Default(s) == Reduce(BlindRule(s))
  {
  }

  lemma DecodeLooks(s: int, t: int)
    requires State(s) && s !in BLIND && 0 <= t < YYNTOKENS
    ensures Decide(s, t) == Automaton(s, t)
  {
    if s in {5, 8, 12, 13, 14, 15} { DecodeOperand(s, t); }
    else if s in {7, 16, 18, 19} { DecodeValue(s, t); }
    else { DecodeLine(s, t); }
  }

  lemma DecodeOperand(s: int, t: int)
    requires s in {5, 8, 12, 13, 14, 15} && 0 <= t < YYNTOKENS
    ensures Decide(s, t) == Automaton(s, t)
  {
  }

  lemma DecodeValue(s: int, t: int)
    requires s in {7, 16, 18, 19} && 0 <= t < YYNTOKENS
    ensures Decide(s, t) == Automaton(s, t)
  {
  }

  lemma DecodeLine(s: int, t: int)
    requires s in {1, 4, 6, 10} && 0 <= t < YYNTOKENS
    ensures Decide(s, t) == Automaton(s, t)
  {
  }

  /** `Move` with the tables decoded. */
  function AutoMove(c: Config): Step
    requires |c.ss| > 0 && State(Last(c.ss))
  {
    if Last(c.ss) in BLIND then ReduceBy(c, BlindRule(Last(c.ss)))
    else Act(Fill(c), Automaton(Last(c.ss), Symbol(Fill(c).look)))
  }

  lemma MoveIsAutoMove(c: Config)
    requires |c.ss| > 0 && State(Last(c.ss))
    ensures Move(c) == AutoMove(c)
  {
    DecodeActions(Last(c.ss), Symbol(Fill(c).look));
  }

  function Last(s: seq<int>): int
    requires |s| > 0
  {
    s[|s| - 1]
  }

  lemma GotoExpr(f: Frame, rule: nat)
    requires 6 <= rule <= YYNRULES
    ensures Goto(Last(FrameStates(f)), rule) == ExprState(f)
  {
  }

  /** `st` enters the configuration of `sh'` from `d`, or finds the stack full. */
  ghost predicate Enters(d: Config, sh': Shape, look: Look, w: World, st: Step) {
    if |States(sh')| >= YYMAXDEPTH then st == Done(Verdict(2, 0, w, d.calls))
    else
      && st.Next?
      && Rep(st.c, sh')
      && st.c.w == w
      && st.c.rest == d.rest && st.c.calls == d.calls
      && st.c.look == look
  }

  /** `st` is what one turn of the machine on shapes does to `c`. */
  ghost predicate Agrees(c: Config, sh: Shape, st: Step)
    requires Rep(c, sh)
  {
    var d := if Blind(sh) then c else Fill(c);
    match Turning(sh, d.look)
    case Stop(ok) => st == Done(Verdict(if ok then 0 else 1, if ok then 0 else 1, c.w, d.calls))
    case Go(sh', shifted) => Enters(d, sh', if shifted then Empty else d.look, TurnWorld(sh, sh', c.w), st)
  }

  lemma ShiftEnters(d: Config, sh': Shape, s: int)
    requires Ready(d.w) && ShapeOk(sh') && LookOk(sh', Empty) && d.look.Tok?
    requires States(sh') == d.ss + [s]
    requires Values(sh', d.vs + [d.lval], d.w.sym)
    ensures Enters(d, sh', Empty, d.w, Act(d, Shift(s)))
  {
  }

  lemma ReduceEnters(d: Config, sh': Shape, rule: nat, n: nat, a: seq<Value>)
    requires Ready(d.w) && ShapeOk(sh') && LookOk(sh', d.look) && (d.look.Tok? ==> d.lval == Lval(d.look.t, d.lval))
    requires 2 <= rule <= YYNRULES && |d.vs| == |d.ss| == n + yyr2(rule) && n > 0 && a == d.vs[n..] && IndexOk(rule, a)
    requires States(sh') == d.ss[..n] + [Goto(d.ss[n - 1], rule)]
    requires Values(sh', d.vs[..n] + [Result(rule, a, d.w.sym)], Effect(rule, a, d.w).sym)
    ensures Enters(d, sh', d.look, Effect(rule, a, d.w), ReduceBy(d, rule))
  {
  }

  lemma SimStart(c: Config)
    requires Rep(c, Start)
    ensures Agrees(c, Start, AutoMove(c))
  {
    ReduceEnters(c, At([], Line, Operand), 3, 1, []);
  }

  /** Where an operand is due the automaton shifts exactly the tokens that can begin one. */
  lemma OperandAction(f: Frame, l: Look)
    ensures State(Last(FrameStates(f))) && Last(FrameStates(f)) !in BLIND
    ensures Automaton(Last(FrameStates(f)), Symbol(l)) ==
        if l.Tok? && l.t.INTEGER? then Shift(3)
        else if l.Tok? && l.t.VARIABLE? then Shift(if f.Line? then 4 else 9)
        else if l.Tok? && l.t == LPAREN then Shift(5)
        else if f.Line? && !l.Tok? then Accept else Fail
  {
  }

  lemma FillKeeps(c: Config, sh: Shape)
    requires Rep(c, sh)
    ensures var d := Fill(c); Rep(d, sh) && d.look != Empty && d.w == c.w
  {
  }

  /** Values can be given frame by frame. */
  lemma JoinValues(p: seq<Stmt>, f: Frame, t: Top, fv: seq<Value>, tv: seq<Value>, sym: seq<Value>)
    requires |sym| == 26 && FrameValues(f, fv, sym) && TopValues(f, t, tv, sym)
    ensures Values(At(p, f, t), fv + tv, sym)
  {
    assert (fv + tv)[..|fv|] == fv && (fv + tv)[|fv|..] == tv;
  }

  lemma AgreesShift(c: Config, sh: Shape, sh': Shape, s: int)
    requires Rep(c, sh) && !Blind(sh) && !(sh.At? && sh.top.Complete?)
    requires Turning(sh, Fill(c).look) == Go(sh', true) && Enters(Fill(c), sh', Empty, c.w, Act(Fill(c), Shift(s)))
    ensures Agrees(c, sh, Act(Fill(c), Shift(s)))
  {
  }

  lemma SimOperand(c: Config, p: seq<Stmt>, f: Frame)
    requires Rep(c, At(p, f, Operand))
    ensures |c.ss| > 0 && State(Last(c.ss)) && Agrees(c, At(p, f, Operand), AutoMove(c))
  {
    var d := Fill(c);
    FillKeeps(c, At(p, f, Operand));
    OperandAction(f, d.look);
    assert AutoMove(c) == Act(d, Automaton(Last(c.ss), Symbol(d.look)));
    if d.look.Tok? && (d.look.t.INTEGER? || d.look.t.VARIABLE? || d.look.t == LPAREN) { OperandToken(c, d, p, f); }
  }

  lemma OperandToken(c: Config, d: Config, p: seq<Stmt>, f: Frame)
    requires Rep(c, At(p, f, Operand)) && d == Fill(c) && Rep(d, At(p, f, Operand)) && d.w == c.w && d.look.Tok?
    requires d.look.t.INTEGER? || d.look.t.VARIABLE? || d.look.t == LPAREN
    ensures var s := if d.look.t.INTEGER? then 3 else if d.look.t == LPAREN then 5 else if f.Line? then 4 else 9;
            Agrees(c, At(p, f, Operand), Act(d, Shift(s)))
  {
    assert d.vs[..|d.vs|] == d.vs;
    if d.look.t == LPAREN {
      OpenEnters(d, p, f);
      AgreesShift(c, At(p, f, Operand), At(p, Open(f), Operand), 5);
    } else {
      var t := if d.look.t.INTEGER? then Int(d.look.t.n) else Ident(d.look.t.i);
      var s := if t.Int? then 3 else if f.Line? then 4 else 9;
      OperandShift(d, p, f, t, s);
      AgreesShift(c, At(p, f, Operand), At(p, f, t), s);
    }
  }

  lemma OpenEnters(d: Config, p: seq<Stmt>, f: Frame)
    requires Rep(d, At(p, f, Operand)) && d.look == Tok(LPAREN) && FrameValues(f, d.vs, d.w.sym)
    ensures Enters(d, At(p, Open(f), Operand), Empty, d.w, Act(d, Shift(5)))
  {
    var v := d.vs + [d.lval];
    assert v[..|d.vs|] == d.vs && v + [] == v;
    JoinValues(p, Open(f), Operand, v, [], d.w.sym);
    ShiftEnters(d, At(p, Open(f), Operand), 5);
  }

  lemma OperandShift(d: Config, p: seq<Stmt>, f: Frame, t: Top, s: int)
    requires Rep(d, At(p, f, Operand)) && d.look.Tok? && FrameValues(f, d.vs, d.w.sym)
    requires TopOk(f, t) && (t.Int? || t.Ident?) && TopStates(f, t) == [s] && TopValues(f, t, [d.lval], d.w.sym)
    ensures Enters(d, At(p, f, t), Empty, d.w, Act(d, Shift(s)))
  {
    JoinValues(p, f, t, d.vs, [d.lval], d.w.sym);
    ShiftEnters(d, At(p, f, t), s);
  }

  /** Every reduction to `expr`. */
  lemma ExprEnters(d: Config, p: seq<Stmt>, f: Frame, e: Expr, rule: nat, ts: seq<int>, fv: seq<Value>, a: seq<Value>)
    requires Ready(d.w) && (d.look.Tok? ==> d.lval == Lval(d.look.t, d.lval))
    requires CanonicalProgram(p) && FrameOk(f) && Canonical(e) && Level(e) >= Floor(f)
    requires LookOk(At(p, f, Complete(e)), d.look)
    requires 6 <= rule <= YYNRULES && |a| == |ts| == yyr2(rule)
    requires d.ss == FrameStates(f) + ts && d.vs == fv + a && FrameValues(f, fv, d.w.sym)
    requires IndexOk(rule, a) && Result(rule, a, d.w.sym) == Eval(e, d.w.sym)
    ensures Enters(d, At(p, f, Complete(e)), d.look, d.w, ReduceBy(d, rule))
  {
    GotoExpr(f, rule);
    var n := |FrameStates(f)|;
    assert d.ss[..n] == FrameStates(f) && d.vs[..n] == fv && d.vs[n..] == a;
    JoinValues(p, f, Complete(e), fv, [Eval(e, d.w.sym)], d.w.sym);
    ReduceEnters(d, At(p, f, Complete(e)), rule, n, a);
  }

  lemma SimInt(c: Config, p: seq<Stmt>, f: Frame, n: int32)
    requires Rep(c, At(p, f, Int(n)))
    ensures |c.ss| > 0 && State(Last(c.ss)) && Agrees(c, At(p, f, Int(n)), AutoMove(c))
  {
    var k := |FrameStates(f)|;
    ExprEnters(c, p, f, Num(n), 6, [3], c.vs[..k], c.vs[k..]);
  }

  lemma TargetEnters(d: Config, p: seq<Stmt>, i: Name)
    requires Rep(d, At(p, Line, Ident(i))) && d.look == Tok(EQUALS)
    ensures Enters(d, At(p, Target(i), Operand), Empty, d.w, Act(d, Shift(8)))
  {
    var v := d.vs + [d.lval];
    assert v[2] == d.vs[2..][0] && v + [] == v;
    JoinValues(p, Target(i), Operand, v, [], d.w.sym);
    ShiftEnters(d, At(p, Target(i), Operand), 8);
  }

  lemma SimName(c: Config, p: seq<Stmt>, f: Frame, i: Name)
    requires Rep(c, At(p, f, Ident(i))) && !f.Line?
    ensures |c.ss| > 0 && State(Last(c.ss)) && Agrees(c, At(p, f, Ident(i)), AutoMove(c))
  {
    var k := |FrameStates(f)|;
    ExprEnters(c, p, f, Var(i), 7, [9], c.vs[..k], c.vs[k..]);
  }

  lemma NameAction(l: Look)
    ensures Automaton(4, Symbol(l)) == if l == Tok(EQUALS) then Shift(8) else Reduce(7)
  {
  }

  lemma SimFirstName(c: Config, p: seq<Stmt>, i: Name)
    requires Rep(c, At(p, Line, Ident(i)))
    ensures |c.ss| > 0 && State(Last(c.ss)) && Agrees(c, At(p, Line, Ident(i)), AutoMove(c))
  {
    var d := Fill(c);
    FillKeeps(c, At(p, Line, Ident(i)));
    NameAction(d.look);
    assert AutoMove(c) == Act(d, Automaton(4, Symbol(d.look)));
    if d.look == Tok(EQUALS) {
      TargetEnters(d, p, i);
    } else {
      ExprEnters(d, p, Line, Var(i), 7, [4], d.vs[..2], d.vs[2..]);
    }
  }

  lemma ParenEnters(c: Config, p: seq<Stmt>, f: Frame, e: Expr)
    requires Rep(c, At(p, f, Close(e)))
    ensures Enters(c, At(p, f.outer, Complete(Paren(e))), c.look, c.w, ReduceBy(c, 12))
  {
    var k := |FrameStates(f)|;
    assert c.vs[..k][..k - 1] == c.vs[..k - 1] && c.vs[k - 1..][1] == c.vs[k..][0];
    assert FrameStates(f) + [10, 17] == FrameStates(f.outer) + [5, 10, 17];
    assert c.vs == c.vs[..k - 1] + c.vs[k - 1..];
    ExprEnters(c, p, f.outer, Paren(e), 12, [5, 10, 17], c.vs[..k - 1], c.vs[k - 1..]);
  }

  lemma SimClose(c: Config, p: seq<Stmt>, f: Frame, e: Expr)
    requires Rep(c, At(p, f, Close(e)))
    ensures |c.ss| > 0 && State(Last(c.ss)) && Agrees(c, At(p, f, Close(e)), AutoMove(c))
  {
    ParenEnters(c, p, f, e);
    assert AutoMove(c) == ReduceBy(c, 12);
  }

  function BinRule(op: Op): nat {
    match op case Add => 8 case Sub => 9 case Mul => 10 case Div => 11
  }

  lemma BinaryStates(f: Frame)
    requires f.Left?
    ensures FrameStates(f) + [ExprState(f)] == FrameStates(f.outer) + [ExprState(f.outer), OpState(f.op), ExprState(f)]
  {
  }

  lemma BinaryValues(f: Frame, e: Expr, v: seq<Value>, sym: seq<Value>, k: nat)
    requires f.Left? && |sym| == 26 && k == |FrameStates(f)| && |v| == k + 1
    requires FrameValues(f, v[..k], sym) && TopValues(f, Complete(e), v[k..], sym)
    ensures var a := v[k - 2..];
            v == v[..k - 2] + a && |a| == 3 && FrameValues(f.outer, v[..k - 2], sym) &&
            a[0] == Eval(f.e, sym) && a[2] == Eval(e, sym)
  {
    assert v[..k][..k - 2] == v[..k - 2] && v[..k][k - 2] == v[k - 2] && v[k..][0] == v[k];
  }

  lemma BinaryResult(op: Op, a: seq<Value>, sym: seq<Value>)
    requires |a| == 3 && |sym| == 26
    ensures yyr2(BinRule(op)) == 3 && IndexOk(BinRule(op), a) && Result(BinRule(op), a, sym) == Apply(op, a[0], a[2])
  {
  }

  lemma BinaryEnters(d: Config, p: seq<Stmt>, f: Frame, e: Expr)
    requires Rep(d, At(p, f, Complete(e))) && f.Left?
    requires f.op.Additive() ==> NoOperator(d.look, false)
    ensures Enters(d, At(p, f.outer, Complete(Bin(f.op, f.e, e))), d.look, d.w, ReduceBy(d, BinRule(f.op)))
  {
    var k, o := |FrameStates(f)|, f.outer;
    var a := d.vs[k - 2..];
    BinaryStates(f);
    BinaryValues(f, e, d.vs, d.w.sym, k);
    BinaryResult(f.op, a, d.w.sym);
    var ts := [ExprState(o), OpState(f.op), ExprState(f)];
    ExprEnters(d, p, o, Bin(f.op, f.e, e), BinRule(f.op), ts, d.vs[..k - 2], a);
  }

  lemma OperatorEnters(d: Config, p: seq<Stmt>, f: Frame, e: Expr, op: Op)
    requires Rep(d, At(p, f, Complete(e))) && d.look == Tok(OpToken(op))
    requires if op.Additive() then Base(f) else Base(f) || f.op.Additive()
    ensures Enters(d, At(p, Left(f, e, op), Operand), Empty, d.w, Act(d, Shift(OpState(op))))
  {
    var k := |FrameStates(f)|;
    var v := d.vs + [d.lval];
    assert v[..|v| - 2] == d.vs[..k] && v[|v| - 2] == d.vs[k..][0];
    JoinValues(p, Left(f, e, op), Operand, v, [], d.w.sym);
    assert v + [] == v;
    assert FrameStates(f) + [ExprState(f)] + [OpState(op)] == FrameStates(f) + [ExprState(f), OpState(op)];
    ShiftEnters(d, At(p, Left(f, e, op), Operand), OpState(op));
  }

  lemma CloseEnters(d: Config, p: seq<Stmt>, f: Frame, e: Expr)
    requires Rep(d, At(p, f, Complete(e))) && f.Open? && d.look == Tok(RPAREN)
    ensures Enters(d, At(p, f, Close(e)), Empty, d.w, Act(d, Shift(17)))
  {
    var k := |FrameStates(f)|;
    var v := d.vs[k..] + [d.lval];
    JoinValues(p, f, Close(e), d.vs[..k], v, d.w.sym);
    assert d.vs[..k] + v == d.vs + [d.lval];
    ShiftEnters(d, At(p, f, Close(e)), 17);
  }

  lemma StatementEnters(d: Config, p: seq<Stmt>, f: Frame, e: Expr)
    requires Rep(d, At(p, f, Complete(e))) && (f.Line? || f.Target?) && NoOperator(d.look, true)
    ensures var s := if f.Line? then Print(e) else Assign(f.i, e);
            Enters(d, At(p, Line, Whole(s)), d.look, Exec(s, d.w), ReduceBy(d, if f.Line? then 4 else 5))
  {
    var rule, s := if f.Line? then 4 else 5, if f.Line? then Print(e) else Assign(f.i, e);
    var a := d.vs[2..];
    var x := Result(rule, a, d.w.sym);
    JoinValues(p, Line, Whole(s), d.vs[..2], [x], Exec(s, d.w).sym);
    ReduceEnters(d, At(p, Line, Whole(s)), rule, 2, a);
  }

  lemma SimWhole(c: Config, p: seq<Stmt>, s: Stmt)
    requires Rep(c, At(p, Line, Whole(s)))
    ensures Agrees(c, At(p, Line, Whole(s)), AutoMove(c))
  {
    var d := Fill(c);
    FillKeeps(c, At(p, Line, Whole(s)));
    if d.look == Tok(NEWLINE) {
      JoinValues(p, Line, Eol(s), d.vs[..2], d.vs[2..] + [d.lval], d.w.sym);
      assert d.vs[..2] + (d.vs[2..] + [d.lval]) == d.vs + [d.lval];
      ShiftEnters(d, At(p, Line, Eol(s)), 11);
    }
  }

  lemma SimEol(c: Config, p: seq<Stmt>, s: Stmt)
    requires Rep(c, At(p, Line, Eol(s)))
    ensures Agrees(c, At(p, Line, Eol(s)), AutoMove(c))
  {
    var a := c.vs[1..];
    var v := c.vs[..1] + [a[0]];
    JoinValues(p + [s], Line, Operand, v, [], c.w.sym);
    assert v + [] == v;
    ReduceEnters(c, At(p + [s], Line, Operand), 2, 1, a);
  }

  /** After an expression: operators that bind tighter than the one below it are shifted, others reduce it. */
  lemma ValueAction(f: Frame, l: Look)
    ensures State(ExprState(f)) && (ExprState(f) in BLIND <==> f.Left? && !f.op.Additive())
    ensures ExprState(f) in BLIND ==> BlindRule(ExprState(f)) == BinRule(f.op)
    ensures ExprState(f) !in BLIND ==>
      Automaton(ExprState(f), Symbol(l)) ==
        if l.Tok? && (MulToken(l.t) || (!f.Left? && (l.t == PLUS || l.t == MINUS))) then Shift(OpState(OpOf(l.t)))
        else if f.Left? then Reduce(BinRule(f.op))
        else if f.Open? then (if l.Tok? && l.t == RPAREN then Shift(17) else Fail)
        else Reduce(if f.Line? then 4 else 5)
  {
  }

  lemma SimProduct(c: Config, p: seq<Stmt>, f: Frame, e: Expr)
    requires Rep(c, At(p, f, Complete(e))) && f.Left? && !f.op.Additive()
    ensures |c.ss| > 0 && State(Last(c.ss)) && Agrees(c, At(p, f, Complete(e)), AutoMove(c))
  {
    ValueAction(f, c.look);
    BinaryEnters(c, p, f, e);
  }

  lemma SimSum(c: Config, p: seq<Stmt>, f: Frame, e: Expr)
    requires Rep(c, At(p, f, Complete(e))) && f.Left? && f.op.Additive()
    ensures |c.ss| > 0 && State(Last(c.ss)) && Agrees(c, At(p, f, Complete(e)), AutoMove(c))
  {
    var d := Fill(c);
    FillKeeps(c, At(p, f, Complete(e)));
    ValueAction(f, d.look);
    assert AutoMove(c) == Act(d, Automaton(ExprState(f), Symbol(d.look)));
    if d.look.Tok? && MulToken(d.look.t) {
      OperatorEnters(d, p, f, e, OpOf(d.look.t));
    } else {
      BinaryEnters(d, p, f, e);
    }
  }

  lemma SimOperator(c: Config, p: seq<Stmt>, f: Frame, e: Expr)
    requires Rep(c, At(p, f, Complete(e))) && Base(f) && !NoOperator(Fill(c).look, true)
    ensures |c.ss| > 0 && State(Last(c.ss)) && Agrees(c, At(p, f, Complete(e)), AutoMove(c))
  {
    var d := Fill(c);
    FillKeeps(c, At(p, f, Complete(e)));
    ValueAction(f, d.look);
    assert AutoMove(c) == Act(d, Shift(OpState(OpOf(d.look.t))));
    OperatorEnters(d, p, f, e, OpOf(d.look.t));
  }

  lemma SimEnd(c: Config, p: seq<Stmt>, f: Frame, e: Expr)
    requires Rep(c, At(p, f, Complete(e))) && Base(f) && NoOperator(Fill(c).look, true)
    ensures |c.ss| > 0 && State(Last(c.ss)) && Agrees(c, At(p, f, Complete(e)), AutoMove(c))
  {
    var d := Fill(c);
    FillKeeps(c, At(p, f, Complete(e)));
    ValueAction(f, d.look);
    assert AutoMove(c) == Act(d, Automaton(ExprState(f), Symbol(d.look)));
    if f.Open? {
      if d.look == Tok(RPAREN) { CloseEnters(d, p, f, e); }
    } else {
      StatementEnters(d, p, f, e);
    }
  }

  lemma SimValue(c: Config, p: seq<Stmt>, f: Frame, e: Expr)
    requires Rep(c, At(p, f, Complete(e)))
    ensures |c.ss| > 0 && State(Last(c.ss)) && Agrees(c, At(p, f, Complete(e)), AutoMove(c))
  {
    if Base(f) {
      if NoOperator(Fill(c).look, true) { SimEnd(c, p, f, e); } else { SimOperator(c, p, f, e); }
    } else {
      if f.op.Additive() { SimSum(c, p, f, e); } else { SimProduct(c, p, f, e); }
    }
  }

  /** One turn of `yyparse` from any viable stack is one turn of the machine on shapes. */
  lemma TablesSimulate(c: Config, sh: Shape)
    requires Rep(c, sh)
    ensures Agrees(c, sh, Move(c))
  {
    if sh.Start? { SimStart(c); }
    else {
      var At(p, f, t) := sh;
      match t
      case Operand => SimOperand(c, p, f);
      case Int(n) => SimInt(c, p, f, n);
      case Ident(i) => if f.Line? { SimFirstName(c, p, i); } else { SimName(c, p, f, i); }
      case Complete(e) => SimValue(c, p, f, e);
      case Close(e) => SimClose(c, p, f, e);
      case Whole(s) => SimWhole(c, p, s);
      case Eol(s) => SimEol(c, p, s);
    }
    MoveIsAutoMove(c);
  }

  lemma {:induction false} FrameStatesInRange(f: Frame)
    ensures forall i | 0 <= i < |FrameStates(f)| :: State(FrameStates(f)[i])
  {
    if f.Open? || f.Left? { FrameStatesInRange(f.outer); }
  }

  lemma StatesInRange(c: Config, sh: Shape)
    requires Rep(c, sh)
    ensures forall i | 0 <= i < |c.ss| :: State(c.ss[i])
  {
    if sh.At? { FrameStatesInRange(sh.frame); }
  }
}
