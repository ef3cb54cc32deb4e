/** Which token can follow which: a small automaton, independent of the parser tables, that decides
    whether a token sequence is a sentence and where it stops being the beginning of one. */
module Viability {
  import opened Arithmetic
  import opened Grammar

  datatype Mode =
    | Fresh              // at the start of a line
    | Named              // after a VARIABLE that began the line
    | Due(d: nat)        // an operand is due, inside d open parentheses
    | Had(d: nat)        // just after an operand
    | Dead               // no sentence begins like this

  predicate IsOperator(t: Token) { t == PLUS || t == MINUS || t == TIMES || t == SLASH }

  function Operand(t: Token, d: nat): Mode {
    if t.INTEGER? || t.VARIABLE? then Had(d) else if t == LPAREN then Due(d + 1) else Dead
  }

  function Follow(m: Mode, t: Token): Mode {
    match m
    case Fresh => if t.VARIABLE? then Named else Operand(t, 0)
    case Named => if t == EQUALS || IsOperator(t) then Due(0) else if t == NEWLINE then Fresh else Dead
    case Due(d) => Operand(t, d)
    case Had(d) =>
      if IsOperator(t) then Due(d)
      else if t == RPAREN && d > 0 then Had(d - 1)
      else if t == NEWLINE && d == 0 then Fresh else Dead
    case Dead => Dead
  }

  function Modes(m: Mode, ts: seq<Token>): Mode {
    if ts == [] then m else Follow(Modes(m, ts[..|ts| - 1]), ts[|ts| - 1])
  }

  lemma {:induction false} ModesConcat(m: Mode, a: seq<Token>, b: seq<Token>)
    ensures Modes(m, a + b) == Modes(Modes(m, a), b)
    decreases |b|
  {
    if b == [] { assert a + b == a; }
    else {
      var b' := b[..|b| - 1];
      assert (a + b)[..|a + b| - 1] == a + b';
      ModesConcat(m, a, b');
    }
  }

  lemma ModesStep(m: Mode, a: seq<Token>, t: Token)
    ensures Modes(m, a + [t]) == Follow(Modes(m, a), t)
  {
    assert (a + [t])[..|a|] == a;
  }

  lemma {:induction false} DeadStaysDead(ts: seq<Token>)
    ensures Modes(Dead, ts) == Dead
    decreases |ts|
  {
    if ts != [] { DeadStaysDead(ts[..|ts| - 1]); }
  }

  lemma ModesThree(m: Mode, a: seq<Token>, t: Token, b: seq<Token>)
    ensures Modes(m, a + [t] + b) == Modes(Follow(Modes(m, a), t), b)
  {
    ModesConcat(m, a + [t], b);
    ModesStep(m, a, t);
  }

  lemma ModesOne(m: Mode, t: Token)
    ensures Modes(m, [t]) == Follow(m, t)
  {
    ModesStep(m, [], t);
    assert [] + [t] == [t];
  }

  lemma ParenModes(m: Mode, d: nat, ts: seq<Token>)
    requires Follow(m, LPAREN) == Due(d + 1) && Modes(Due(d + 1), ts) == Had(d + 1)
    ensures Modes(m, [LPAREN] + ts + [RPAREN]) == Had(d)
  {
    ModesOne(m, LPAREN);
    ModesConcat(m, [LPAREN], ts);
    ModesStep(m, [LPAREN] + ts, RPAREN);
  }

  lemma BinaryModes(m: Mode, had: Mode, d: nat, a: seq<Token>, op: Op, b: seq<Token>)
    requires Modes(m, a) == had && (had == Had(d) || (had == Named && d == 0)) && Modes(Due(d), b) == Had(d)
    ensures Modes(m, a + [OpToken(op)] + b) == Had(d)
  {
    ModesThree(m, a, OpToken(op), b);
  }

  // ---- every sentence is accepted ----

  lemma {:induction false} ExprModes(e: Expr, d: nat)
    ensures Modes(Due(d), Yield(e)) == Had(d)
  {
    match e
    case Num(n) => ModesOne(Due(d), INTEGER(n));
    case Var(i) => ModesOne(Due(d), VARIABLE(i));
    case Bin(op, l, r) =>
      ExprModes(l, d); ExprModes(r, d);
      BinaryModes(Due(d), Had(d), d, Yield(l), op, Yield(r));
    case Paren(e') =>
      ExprModes(e', d + 1);
      ParenModes(Due(d), d, Yield(e'));
  }

  lemma {:induction false} LineModes(e: Expr)
    ensures Modes(Fresh, Yield(e)) == if e.Var? then Named else Had(0)
  {
    match e
    case Num(n) => ModesOne(Fresh, INTEGER(n));
    case Var(i) => ModesOne(Fresh, VARIABLE(i));
    case Bin(op, l, r) =>
      LineModes(l); ExprModes(r, 0);
      BinaryModes(Fresh, if l.Var? then Named else Had(0), 0, Yield(l), op, Yield(r));
    case Paren(e') =>
      ExprModes(e', 1);
      ParenModes(Fresh, 0, Yield(e'));
  }

  lemma StmtModes(s: Stmt)
    ensures Modes(Fresh, YieldStmt(s)) in {Named, Had(0)}
  {
    match s
    case Print(e) => LineModes(e);
    case Assign(i, e) =>
      ExprModes(e, 0);
      ModesThree(Fresh, [VARIABLE(i)], EQUALS, Yield(e));
      ModesOne(Fresh, VARIABLE(i));
      assert [VARIABLE(i)] + [EQUALS] == [VARIABLE(i), EQUALS];
  }

  lemma {:induction false} ProgramModes(p: seq<Stmt>)
    ensures Modes(Fresh, YieldProgram(p)) == Fresh
    decreases |p|
  {
    if p != [] {
      var q, s := p[..|p| - 1], p[|p| - 1];
      ProgramModes(q);
      StmtModes(s);
      ModesConcat(Fresh, YieldProgram(q), YieldStmt(s));
      ModesStep(Fresh, YieldProgram(q) + YieldStmt(s), NEWLINE);
    }
  }

  // ---- the beginnings of sentences ----

  ghost predicate Viable(ts: seq<Token>) {
    exists k :: Sentence(ts + k)
  }

  lemma ViablePrefix(a: seq<Token>, b: seq<Token>)
    requires Viable(a + b)
    ensures Viable(a)
  {
    var k :| Sentence(a + b + k);
    Regroup(a, b, k);
    assert Sentence(a + (b + k));
  }

  /** What is not viable does not become so by going on. */
  lemma PastTheError(a: seq<Token>, t: Token, rest: seq<Token>)
    requires !Viable(a + [t])
    ensures !Viable(a + [t] + rest)
  {
    if Viable(a + [t] + rest) { ViablePrefix(a + [t], rest); }
  }

  lemma DeadIsNotViable(ts: seq<Token>)
    requires Modes(Fresh, ts) == Dead
    ensures !Viable(ts)
  {
    forall k, p | YieldProgram(p) == ts + k ensures false {
      ProgramModes(p);
      ModesConcat(Fresh, ts, k);
      DeadStaysDead(k);
    }
  }

  lemma UnfinishedIsNotSentence(ts: seq<Token>)
    requires Modes(Fresh, ts) != Fresh
    ensures !Sentence(ts)
  {
    forall p | YieldProgram(p) == ts ensures false { ProgramModes(p); }
  }

  // ---- parentheses ----

  function Nesting(ts: seq<Token>): int {
    if ts == [] then 0
    else Nesting(ts[..|ts| - 1]) + (if ts[|ts| - 1] == LPAREN then 1 else if ts[|ts| - 1] == RPAREN then -1 else 0)
  }

  /** The greatest number of parentheses open at once. */
  function Peak(ts: seq<Token>): int {
    if ts == [] then 0
    else if Peak(ts[..|ts| - 1]) < Nesting(ts) then Nesting(ts) else Peak(ts[..|ts| - 1])
  }

  lemma {:induction false} PeakIsMaximum(ts: seq<Token>)
    ensures forall k | 0 <= k <= |ts| :: Nesting(ts[..k]) <= Peak(ts)
    ensures exists k | 0 <= k <= |ts| :: Nesting(ts[..k]) == Peak(ts)
    decreases |ts|
  {
    if ts == [] { assert ts[..0] == []; }
    else {
      var t := ts[..|ts| - 1];
      PeakIsMaximum(t);
      assert ts[..|ts|] == ts;
      assert forall k | 0 <= k <= |t| :: t[..k] == ts[..k];
    }
  }

  lemma PeakAboveNesting(ts: seq<Token>)
    ensures Nesting(ts) <= Peak(ts)
    ensures ts != [] && ts[|ts| - 1] == RPAREN ==> Nesting(ts) + 1 <= Peak(ts)
  {
    if ts != [] {
      var t := ts[..|ts| - 1];
      assert t != [] ==> Nesting(t) <= Peak(t);
    }
  }

  lemma {:induction false} PeakGrows(a: seq<Token>, b: seq<Token>)
    ensures Peak(a) <= Peak(a + b)
    decreases |b|
  {
    if b == [] { assert a + b == a; }
    else {
      assert (a + b)[..|a + b| - 1] == a + b[..|b| - 1];
      PeakGrows(a, b[..|b| - 1]);
    }
  }

  function ModeDepth(m: Mode): nat { if m.Due? || m.Had? then m.d else 0 }

  lemma {:induction false} ModeCountsParens(ts: seq<Token>)
    ensures Modes(Fresh, ts) != Dead ==> ModeDepth(Modes(Fresh, ts)) == Nesting(ts)
    decreases |ts|
  {
    if ts != [] { ModeCountsParens(ts[..|ts| - 1]); }
  }
}
