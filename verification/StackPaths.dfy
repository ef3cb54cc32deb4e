/** The state stack as a path of the automaton, and what a reduction finds on such a stack. */
module StackPaths {
  import opened Arithmetic
  import opened Grammar
  import opened ParserTables
  import opened Engine
  import opened Shapes
  import opened Simulation

  /** The right-hand sides of calc.y in the symbol numbers of `yytname`: 3 INTEGER, 4 VARIABLE, 5 to 12 the characters
      + - * / newline = ( ), 14 program, 15 statement, 16 expr. */
  function Rhs(rule: nat): seq<int> {
    match rule
    case 2 => [14, 15, 9]
    case 4 => [16]
    case 5 => [4, 10, 16]
    case 6 => [3]
    case 7 => [4]
    case 8 => [16, 5, 16]
    case 9 => [16, 6, 16]
    case 10 => [16, 7, 16]
    case 11 => [16, 8, 16]
    case 12 => [11, 16, 12]
    case _ => []
  }

  /** The transitions of the automaton on nonterminals.  `Goto` is also defined where there is none. */
  const GOTOS: set<(int, int)> :=
    {(0, 1), (1, 6), (1, 7), (5, 10), (8, 16), (12, 18), (13, 19), (14, 20), (15, 21)}

  /** State `b` is entered from state `a` on the symbol that `yystos` gives it. */
  predicate Edge(a: int, b: int) {
    State(a) && State(b) &&
    if yystos(b) < YYNTOKENS then !Consistent(a) && Decide(a, yystos(b)) == Shift(b) else (a, b) in GOTOS
  }

  predicate Path(ss: seq<int>) {
    |ss| > 0 && ss[0] == 0 && forall i | 0 < i < |ss| :: Edge(ss[i - 1], ss[i])
  }

  /** State `s` has a transition on the left-hand side of `rule`, and `Goto` follows it. */
  predicate Uncovers(s: int, rule: nat)
    requires 2 <= rule <= YYNRULES
  {
    Edge(s, Goto(s, rule)) && yystos(Goto(s, rule)) == yyr1(rule)
  }

  /** On top of the stack is the right-hand side of `rule`, symbol by symbol, and below it a state that has a
      transition on the left-hand side. */
  predicate Handle(ss: seq<int>, rule: nat) {
    && 2 <= rule <= YYNRULES && |Rhs(rule)| == yyr2(rule) < |ss|
    && var n := |ss| - yyr2(rule);
    && (forall k | 0 <= k < |Rhs(rule)| :: State(ss[n + k]) && yystos(ss[n + k]) == Rhs(rule)[k])
    && Uncovers(ss[n - 1], rule)
  }

  /** What `yybackup` decides with state `s` on top and symbol `t` ahead. */
  function Chosen(s: int, t: int): Action
    requires State(s)
  {
    if Consistent(s) then Default(s) else Decide(s, t)
  }

  lemma GotosAreTransitions(a: int, b: int, rule: nat)
    requires (a, b) in GOTOS && 2 <= rule <= YYNRULES && yyr1(rule) == yystos(b)
    ensures Goto(a, rule) == b
  {
  }

  // ---- what lies below each state ----

  const OPERAND_DUE: set<int> := {1, 5, 8, 12, 13, 14, 15}

  function Below(b: int): set<int> {
    match b
    case 1 => {0}
    case 3 => OPERAND_DUE
    case 4 => {1}
    case 5 => OPERAND_DUE
    case 6 => {1}
    case 7 => {1}
    case 8 => {4}
    case 9 => OPERAND_DUE - {1}
    case 10 => {5}
    case 11 => {6}
    case 12 => {7, 10, 16}
    case 13 => {7, 10, 16}
    case 14 => {7, 10, 16, 18, 19}
    case 15 => {7, 10, 16, 18, 19}
    case 16 => {8}
    case 17 => {10}
    case 18 => {12}
    case 19 => {13}
    case 20 => {14}
    case 21 => {15}
    case _ => {}
  }

  lemma ShiftFromBelow(a: int, b: int)
    requires Edge(a, b) && yystos(b) < YYNTOKENS
    ensures a in Below(b)
  {
    DecodeActions(a, yystos(b));
  }

  lemma GotoFromBelow(a: int, b: int)
    requires (a, b) in GOTOS
    ensures a in Below(b)
  {
  }

  lemma StepBelow(ss: seq<int>, i: int)
    requires Path(ss) && 0 <= i < |ss| && ss[i] != 0
    ensures i > 0 && State(ss[i]) && ss[i - 1] in Below(ss[i])
  {
    var a, b := ss[i - 1], ss[i];
    assert Edge(a, b);
    if yystos(b) < YYNTOKENS { ShiftFromBelow(a, b); } else { GotoFromBelow(a, b); }
  }

  // ---- reductions ----

  predicate Reduces(s: int, rule: nat) {
    if s in BLIND then s != 2 && rule == BlindRule(s) else (s, rule) in {(4, 7), (7, 4), (16, 5), (18, 8), (19, 9)}
  }

  lemma ChosenReduces(s: int, t: int)
    requires State(s) && s != 2 && 0 <= t < YYNTOKENS && Chosen(s, t).Reduce?
    ensures Reduces(s, Chosen(s, t).rule) && 2 <= Chosen(s, t).rule <= YYNRULES
  {
    DecodeActions(s, t);
  }

  lemma ExprGoto(s: int, rule: nat)
    requires s in OPERAND_DUE && 6 <= rule <= YYNRULES
    ensures Uncovers(s, rule)
  {
  }

  lemma LineGoto(s: int, rule: nat)
    requires (s == 0 && 2 <= rule <= 3) || (s == 1 && 4 <= rule <= 5)
    ensures Uncovers(s, rule)
  {
  }

  lemma TopOne(s: int, rule: nat)
    requires State(s) && Reduces(s, rule) && rule in {4, 6, 7}
    ensures s != 0 && Rhs(rule) == [yystos(s)] && yyr2(rule) == 1
    ensures Below(s) <= if rule == 4 then {1} else OPERAND_DUE
  {
  }

  lemma LastNonzero(s: int, rule: nat)
    requires State(s) && Reduces(s, rule) && rule != 3
    ensures s != 0 && 0 !in Below(s)
  {
  }

  lemma TopThree(s: int, rule: nat, b: int, a: int)
    requires State(s) && Reduces(s, rule) && rule in {2, 5, 8, 9, 10, 11, 12}
    requires b in Below(s) && a in Below(b)
    ensures s != 0 && b != 0 && a != 0 && State(b) && State(a)
    ensures Rhs(rule) == [yystos(a), yystos(b), yystos(s)] && yyr2(rule) == 3
    ensures Below(a) <= if rule == 2 then {0} else if rule == 5 then {1} else OPERAND_DUE
  {
    if rule in {8, 9, 10, 11} { TopBinary(s, rule, b, a); }
  }

  lemma TopBinary(s: int, rule: nat, b: int, a: int)
    requires State(s) && Reduces(s, rule) && rule in {8, 9, 10, 11} && b in Below(s) && a in Below(b)
    ensures s == rule + 10 && b == rule + 4 && a in {7, 10, 16, 18, 19} && yystos(a) == yystos(s) == 16
    ensures Rhs(rule) == [16, yystos(b), 16] && Below(a) <= OPERAND_DUE
  {
  }

  lemma EmptyHandle(ss: seq<int>)
    requires Path(ss) && Last(ss) == 0
    ensures Handle(ss, 3)
  {
    LineGoto(0, 3);
  }

  lemma ShortHandle(ss: seq<int>, rule: nat)
    requires Path(ss) && State(Last(ss)) && Reduces(Last(ss), rule) && rule in {4, 6, 7}
    ensures Handle(ss, rule)
  {
    var n := |ss|;
    TopOne(ss[n - 1], rule);
    StepBelow(ss, n - 1);
    if rule == 4 { LineGoto(ss[n - 2], rule); } else { ExprGoto(ss[n - 2], rule); }
  }

  lemma ThreeBelow(ss: seq<int>, rule: nat)
    requires Path(ss) && State(Last(ss)) && Reduces(Last(ss), rule) && rule in {2, 5, 8, 9, 10, 11, 12}
    ensures |ss| > 3 && ss[|ss| - 2] in Below(ss[|ss| - 1]) && ss[|ss| - 3] in Below(ss[|ss| - 2])
    ensures ss[|ss| - 4] in Below(ss[|ss| - 3])
  {
    var n := |ss|;
    LastNonzero(ss[n - 1], rule);
    StepBelow(ss, n - 1);
    StepBelow(ss, n - 2);
    TopThree(ss[n - 1], rule, ss[n - 2], ss[n - 3]);
    StepBelow(ss, n - 3);
  }

  lemma LongGoto(base: int, a: int, rule: nat)
    requires base in Below(a) && rule in {2, 5, 8, 9, 10, 11, 12}
    requires Below(a) <= if rule == 2 then {0} else if rule == 5 then {1} else OPERAND_DUE
    ensures Uncovers(base, rule)
  {
    if rule == 2 || rule == 5 { LineGoto(base, rule); } else { ExprGoto(base, rule); }
  }

  lemma ThreeLabels(ss: seq<int>, rule: nat)
    requires |ss| > 3 && 2 <= rule <= YYNRULES && yyr2(rule) == 3 && Uncovers(ss[|ss| - 4], rule)
    requires State(ss[|ss| - 3]) && State(ss[|ss| - 2]) && State(ss[|ss| - 1])
    requires Rhs(rule) == [yystos(ss[|ss| - 3]), yystos(ss[|ss| - 2]), yystos(ss[|ss| - 1])]
    ensures Handle(ss, rule)
  {
  }

  lemma LongHandle(ss: seq<int>, rule: nat)
    requires Path(ss) && State(Last(ss)) && Reduces(Last(ss), rule) && rule in {2, 5, 8, 9, 10, 11, 12}
    ensures Handle(ss, rule)
  {
    var n := |ss|;
    ThreeBelow(ss, rule);
    TopThree(ss[n - 1], rule, ss[n - 2], ss[n - 3]);
    LongGoto(ss[n - 4], ss[n - 3], rule);
    ThreeLabels(ss, rule);
  }

  lemma ReduceHandle(ss: seq<int>, rule: nat)
    requires Path(ss) && State(Last(ss)) && Reduces(Last(ss), rule) && 2 <= rule <= YYNRULES
    ensures Handle(ss, rule)
  {
    if rule == 3 { EmptyHandle(ss); }
    else if rule in {4, 6, 7} { ShortHandle(ss, rule); }
    else { LongHandle(ss, rule); }
  }

  /** Whenever a stack that is a path decides to reduce, it can. */
  lemma PathReduces(ss: seq<int>, t: int)
    requires Path(ss) && 0 <= t < YYNTOKENS
    ensures State(Last(ss))
    ensures Chosen(Last(ss), t).Reduce? ==> Handle(ss, Chosen(Last(ss), t).rule)
  {
    var s := Last(ss);
    if s != 0 { StepBelow(ss, |ss| - 1); }
    if Chosen(s, t).Reduce? {
      ChosenReduces(s, t);
      ReduceHandle(ss, Chosen(s, t).rule);
    }
  }

  /** And a shift follows the transition on the token shifted. */
  lemma PathShifts(s: int, t: int)
    requires State(s) && 0 <= t < YYNTOKENS && Chosen(s, t).Shift?
    ensures Edge(s, Chosen(s, t).state) && yystos(Chosen(s, t).state) == t
  {
    DecodeActions(s, t);
    AutomatonShifts(s, t);
  }

  lemma AutomatonShifts(s: int, t: int)
    requires State(s) && s !in BLIND && 0 <= t < YYNTOKENS && Automaton(s, t).Shift?
    ensures State(Automaton(s, t).state) && yystos(Automaton(s, t).state) == t
  {
  }

  // ---- the stacks that shapes stand for ----

  lemma PathGrows(ss: seq<int>, s: int)
    requires Path(ss) && Edge(Last(ss), s)
    ensures Path(ss + [s])
  {
  }

  lemma GotoIsEdge(a: int, b: int)
    requires (a, b) in GOTOS
    ensures Edge(a, b)
  {
  }

  lemma ExprEdge(f: Frame)
    ensures Edge(Last(FrameStates(f)), ExprState(f))
  {
    assert (Last(FrameStates(f)), ExprState(f)) in GOTOS;
    GotoIsEdge(Last(FrameStates(f)), ExprState(f));
  }

  lemma OperatorEdge(f: Frame, op: Op)
    requires if op.Additive() then Base(f) else Base(f) || f.op.Additive()
    ensures Edge(ExprState(f), OpState(op))
  {
    DecodeActions(ExprState(f), Symbol(Tok(OpToken(op))));
    ValueAction(f, Tok(OpToken(op)));
  }

  lemma FrameIsDue(f: Frame)
    ensures Last(FrameStates(f)) in OPERAND_DUE && (Last(FrameStates(f)) == 1 <==> f.Line?)
  {
  }

  lemma DueEdges(s: int)
    requires s in OPERAND_DUE
    ensures Edge(s, 3) && Edge(s, 5) && Edge(s, if s == 1 then 4 else 9)
  {
    DecodeActions(s, 3);
    DecodeActions(s, 4);
    DecodeActions(s, 11);
  }

  lemma OperandEdge(f: Frame, t: Token)
    requires t.INTEGER? || t.VARIABLE? || t == LPAREN
    ensures Edge(Last(FrameStates(f)), if t.INTEGER? then 3 else if t == LPAREN then 5 else if f.Line? then 4 else 9)
  {
    FrameIsDue(f);
    DueEdges(Last(FrameStates(f)));
  }

  lemma FirstEdges()
    ensures Edge(0, 1) && Edge(4, 8) && Edge(1, 6) && Edge(6, 11) && Edge(10, 17)
  {
    DecodeActions(4, 10);
    DecodeActions(6, 9);
    DecodeActions(10, 12);
  }

  lemma FirstPaths()
    ensures Path([0, 1]) && Path([0, 1, 4, 8])
  {
    FirstEdges();
    OperandEdge(Line, VARIABLE(0));
  }

  lemma {:induction false} FramePath(f: Frame)
    requires FrameOk(f)
    ensures Path(FrameStates(f))
  {
    match f
    case Line => FirstPaths();
    case Target(_) => FirstPaths();
    case Open(outer) =>
      FramePath(outer);
      OperandEdge(outer, LPAREN);
      PathGrows(FrameStates(outer), 5);
    case Left(outer, _, op) =>
      FramePath(outer);
      ExprEdge(outer);
      OperatorEdge(outer, op);
      PathGrowsTwice(FrameStates(outer), ExprState(outer), OpState(op));
  }

  lemma PathGrowsTwice(ss: seq<int>, s: int, s': int)
    requires Path(ss) && Edge(Last(ss), s) && Edge(s, s')
    ensures Path(ss + [s, s'])
  {
    PathGrows(ss, s);
    PathGrows(ss + [s], s');
    assert ss + [s] + [s'] == ss + [s, s'];
  }

  lemma TopPath(f: Frame, t: Top)
    requires Path(FrameStates(f)) && TopOk(f, t)
    ensures Path(FrameStates(f) + TopStates(f, t))
  {
    var ss := FrameStates(f);
    match t
    case Operand => assert ss + [] == ss;
    case Int(n) => OperandEdge(f, INTEGER(n)); PathGrows(ss, 3);
    case Ident(i) => OperandEdge(f, VARIABLE(i)); PathGrows(ss, if f.Line? then 4 else 9);
    case Complete(_) => ExprEdge(f); PathGrows(ss, ExprState(f));
    case Close(_) => ExprEdge(f); FirstEdges(); PathGrowsTwice(ss, 10, 17);
    case Whole(_) => FirstEdges(); PathGrows(ss, 6);
    case Eol(_) => FirstEdges(); PathGrowsTwice(ss, 6, 11);
  }

  /** The stack of every shape is a path. */
  lemma ShapePath(sh: Shape)
    requires ShapeOk(sh)
    ensures Path(States(sh))
  {
    if sh.At? {
      FramePath(sh.frame);
      TopPath(sh.frame, sh.top);
    }
  }
}
