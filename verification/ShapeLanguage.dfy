/** Shapes and the language: what a viable stack has read begins a sentence, and every beginning of a sentence is
    read by some viable stack. */
module ShapeLanguage {
  import opened Arithmetic
  import opened Grammar
  import opened Engine
  import opened Shapes
  import opened Turns
  import opened Unambiguous
  import V = Viability

  lemma {:induction false} NoNewlineInFrame(f: Frame)
    ensures NEWLINE !in FrameYield(f)
  {
    match f
    case Line => case Target(_) =>
    case Open(outer) => NoNewlineInFrame(outer);
    case Left(outer, e, op) => NoNewlineInFrame(outer); NoEqualsOrNewline(e); assert OpToken(op) != NEWLINE;
  }

  lemma NoNewlineInLine(sh: Shape)
    requires !(sh.At? && sh.top.Eol?)
    ensures NEWLINE !in LineYield(sh)
  {
    if sh.At? {
      NoNewlineInFrame(sh.frame);
      match sh.top
      case Complete(e) => NoEqualsOrNewline(e);
      case Close(e) => NoEqualsOrNewline(e);
      case Whole(s) => NoEqualsOrNewline(s.e);
      case _ =>
    }
  }

  /** An expression in any frame can be completed to a statement. */
  lemma {:induction false} CloseUp(f: Frame, e: Expr) returns (s: Stmt, k: seq<Token>)
    ensures FrameYield(f) + Yield(e) + k == YieldStmt(s)
  {
    match f
    case Line => s, k := Print(e), [];
    case Target(i) => s, k := Assign(i, e), [];
    case Open(outer) =>
      s, k := CloseUp(outer, Paren(e));
      ParenRegroup(FrameYield(outer), Yield(e), k);
      k := [RPAREN] + k;
    case Left(outer, l, op) =>
      s, k := CloseUp(outer, Bin(op, l, e));
      Regroup(FrameYield(outer), Yield(l), [OpToken(op)]);
      Regroup(FrameYield(outer), Yield(l) + [OpToken(op)], Yield(e));
  }

  lemma ParenRegroup(a: seq<Token>, y: seq<Token>, k: seq<Token>)
    ensures a + [LPAREN] + y + ([RPAREN] + k) == a + ([LPAREN] + y + [RPAREN]) + k
    ensures a + [LPAREN] + (y + [RPAREN]) == a + ([LPAREN] + y + [RPAREN])
  {
  }

  lemma StatementEndsSentence(p: seq<Stmt>, s: Stmt)
    ensures Sentence(YieldProgram(p) + YieldStmt(s) + [NEWLINE])
  {
    YieldAppend(p, s);
  }

  lemma ExtendsToSentence(p: seq<Stmt>, line: seq<Token>, k: seq<Token>, s: Stmt)
    requires line + k == YieldStmt(s)
    ensures V.Viable(YieldProgram(p) + line)
  {
    StatementEndsSentence(p, s);
    var a := YieldProgram(p);
    Regroup(a, line, k);
    Regroup(a + line, k, [NEWLINE]);
  }

  /** What is on the stack for the current line is the beginning of a statement. */
  lemma LineCloses(f: Frame, t: Top) returns (s: Stmt, k: seq<Token>)
    requires TopOk(f, t) && !t.Eol?
    ensures FrameYield(f) + TopYield(t) + k == YieldStmt(s)
  {
    match t
    case Operand =>
      s, k := CloseUp(f, Num(0));
      Plain(FrameYield(f));
      Regroup(FrameYield(f), Yield(Num(0)), k);
      k := Yield(Num(0)) + k;
    case Int(n) => s, k := CloseUp(f, Num(n));
    case Ident(i) => s, k := CloseUp(f, Var(i));
    case Complete(e) => s, k := CloseUp(f, e);
    case Close(e) =>
      s, k := CloseUp(f.outer, Paren(e));
      ParenRegroup(FrameYield(f.outer), Yield(e), k);
    case Whole(s') =>
      s, k := s', [];
      Plain(YieldStmt(s'));
  }

  lemma SentenceIsViable(ts: seq<Token>)
    requires Sentence(ts)
    ensures V.Viable(ts)
  {
    Plain(ts);
  }

  /** Every stack of the automaton has read the beginning of some sentence. */
  lemma StackIsViable(sh: Shape)
    requires ShapeOk(sh)
    ensures V.Viable(ShapeYield(sh))
  {
    if sh.Start? {
      var s, k := LineCloses(Line, Operand);
      ExtendsToSentence([], [], k, s);
    } else if sh.top.Eol? {
      var s := sh.top.s;
      StatementEndsSentence(sh.prog, s);
      Regroup(YieldProgram(sh.prog), YieldStmt(s), [NEWLINE]);
      assert LineYield(sh) == YieldStmt(s) + [NEWLINE];
      SentenceIsViable(ShapeYield(sh));
    } else {
      var s, k := LineCloses(sh.frame, sh.top);
      ExtendsToSentence(sh.prog, LineYield(sh), k, s);
    }
  }

  lemma UnfinishedMode(f: Frame, t: Top)
    requires FrameOk(f) && TopOk(f, t) && (t.Operand? || (t.Complete? && f.Open?))
    ensures V.Modes(V.Fresh, FrameYield(f) + TopYield(t)) !in {V.Named, V.Had(0)}
  {
    if t.Operand? {
      Plain(FrameYield(f));
      FrameMode(f);
    } else {
      FrameMode(f);
      V.ModesConcat(V.Fresh, FrameYield(f), Yield(t.e));
      V.ExprModes(t.e, Depth(f));
    }
  }

  lemma OperatorMode(f: Frame, e: Expr, op: Op)
    requires V.Modes(V.Fresh, FrameYield(f)) == if f.Line? then V.Fresh else V.Due(Depth(f))
    ensures V.Modes(V.Fresh, FrameYield(f) + Yield(e) + [OpToken(op)]) == V.Due(Depth(f))
  {
    V.ModesConcat(V.Fresh, FrameYield(f), Yield(e));
    V.ModesStep(V.Fresh, FrameYield(f) + Yield(e), OpToken(op));
    if f.Line? { V.LineModes(e); } else { V.ExprModes(e, Depth(f)); }
  }

  lemma TargetMode(i: Name)
    ensures V.Modes(V.Fresh, [VARIABLE(i), EQUALS]) == V.Due(0)
  {
    V.ModesStep(V.Fresh, [VARIABLE(i)], EQUALS);
    V.ModesOne(V.Fresh, VARIABLE(i));
    assert [VARIABLE(i)] + [EQUALS] == [VARIABLE(i), EQUALS];
  }

  lemma OpenMode(f: Frame)
    requires V.Modes(V.Fresh, FrameYield(f)) == if f.Line? then V.Fresh else V.Due(Depth(f))
    ensures V.Modes(V.Fresh, FrameYield(f) + [LPAREN]) == V.Due(Depth(f) + 1)
  {
    V.ModesStep(V.Fresh, FrameYield(f), LPAREN);
  }

  lemma {:induction false} FrameMode(f: Frame)
    ensures V.Modes(V.Fresh, FrameYield(f)) == if f.Line? then V.Fresh else V.Due(Depth(f))
  {
    match f
    case Line =>
    case Target(i) => TargetMode(i);
    case Open(outer) =>
      FrameMode(outer);
      OpenMode(outer);
    case Left(outer, e, op) =>
      FrameMode(outer);
      OperatorMode(outer, e, op);
  }

  // ---- the follow automaton decides the language ----

  /** A shape entered by a shift, or the first one: nothing in it depends on the next token. */
  predicate JustShifted(sh: Shape) {
    sh.Start? || !(sh.top.Complete? || sh.top.Whole?)
  }

  /** Turns that reduce lead to the one that shifts `t`, wherever the follow automaton goes on. */
  lemma {:induction false} NextShift(sh: Shape, m: V.Mode, t: Token) returns (sh': Shape)
    requires ShapeOk(sh) && LookOk(sh, Tok(t)) && Tracks(m, sh, Tok(t)) && V.Follow(m, t) != V.Dead
    ensures ShapeOk(sh') && JustShifted(sh') && ModeOf(sh') == V.Follow(m, t) && ShapeYield(sh') == ShapeYield(sh) + [t]
    decreases Weight(sh)
  {
    TurnMode(sh, m, Tok(t));
    var g := Turning(sh, Tok(t));
    TurnYield(sh, Tok(t));
    if g.shifted {
      sh' := g.sh;
    } else {
      TurnWeight(sh, Tok(t));
      TurnOk(sh, Tok(t));
      Plain(ShapeYield(sh));
      sh' := NextShift(g.sh, m, t);
    }
  }

  /** Whatever the follow automaton lets through has been read by some viable stack. */
  lemma {:induction false} ShapeExists(ts: seq<Token>) returns (sh: Shape)
    requires V.Modes(V.Fresh, ts) != V.Dead
    ensures ShapeOk(sh) && JustShifted(sh) && ModeOf(sh) == V.Modes(V.Fresh, ts) && ShapeYield(sh) == ts
    decreases |ts|
  {
    if ts == [] {
      sh := Start;
    } else {
      var ts', t := ts[..|ts| - 1], ts[|ts| - 1];
      assert ts == ts' + [t];
      var sh0 := ShapeExists(ts');
      sh := NextShift(sh0, V.Modes(V.Fresh, ts'), t);
    }
  }

  /** A token sequence begins a sentence exactly when the follow automaton survives it. */
  lemma FollowDecidesViability(ts: seq<Token>)
    ensures V.Viable(ts) <==> V.Modes(V.Fresh, ts) != V.Dead
  {
    if V.Modes(V.Fresh, ts) == V.Dead {
      V.DeadIsNotViable(ts);
    } else {
      var sh := ShapeExists(ts);
      StackIsViable(sh);
    }
  }

  /** It is one exactly when the automaton is back at the start of a line. */
  lemma FollowDecidesSentences(ts: seq<Token>)
    ensures Sentence(ts) <==> V.Modes(V.Fresh, ts) == V.Fresh
  {
    if V.Modes(V.Fresh, ts) != V.Fresh {
      V.UnfinishedIsNotSentence(ts);
    } else {
      var sh := ShapeExists(ts);
      if sh.Start? {
        assert YieldProgram([]) == ts;
      } else {
        FreshShape(sh);
      }
    }
  }

  lemma FreshShape(sh: Shape)
    requires ShapeOk(sh) && sh.At? && ModeOf(sh) == V.Fresh
    ensures Sentence(ShapeYield(sh))
  {
    if sh.top.Eol? {
      var s := sh.top.s;
      StatementEndsSentence(sh.prog, s);
      Regroup(YieldProgram(sh.prog), YieldStmt(s), [NEWLINE]);
      assert LineYield(sh) == YieldStmt(s) + [NEWLINE];
    } else {
      assert LineYield(sh) == [];
      Plain(YieldProgram(sh.prog));
    }
  }
}
