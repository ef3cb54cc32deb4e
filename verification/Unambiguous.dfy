/** The precedence declarations leave exactly one tree for every sentence. */
module Unambiguous {
  import opened Grammar
  import opened Viability

  function Strength(t: Token): int {
    if t == PLUS || t == MINUS then 0 else if t == TIMES || t == SLASH then 1 else 2
  }

  lemma {:induction false} NestingConcat(a: seq<Token>, b: seq<Token>)
    ensures Nesting(a + b) == Nesting(a) + Nesting(b)
    decreases |b|
  {
    if b == [] { assert a + b == a; }
    else {
      assert (a + b)[..|a + b| - 1] == a + b[..|b| - 1];
      NestingConcat(a, b[..|b| - 1]);
    }
  }

  lemma NestingOne(t: Token)
    ensures Nesting([t]) == if t == LPAREN then 1 else if t == RPAREN then -1 else 0
  {
    assert [t][..0] == [];
  }

  /** Parentheses in an expression are balanced. */
  lemma {:induction false} Balanced(e: Expr)
    ensures Nesting(Yield(e)) == 0
  {
    match e
    case Num(n) => NestingOne(INTEGER(n));
    case Var(i) => NestingOne(VARIABLE(i));
    case Bin(op, l, r) =>
      Balanced(l); Balanced(r);
      NestingOne(OpToken(op));
      NestingConcat(Yield(l), [OpToken(op)]);
      NestingConcat(Yield(l) + [OpToken(op)], Yield(r));
    case Paren(e') =>
      Balanced(e');
      NestingOne(LPAREN); NestingOne(RPAREN);
      NestingConcat([LPAREN], Yield(e'));
      NestingConcat([LPAREN] + Yield(e'), [RPAREN]);
  }

  /** The nesting before position `k` of `a + b`, for a balanced or otherwise known `a`. */
  lemma NestingInside(a: seq<Token>, b: seq<Token>, k: nat)
    requires |a| <= k <= |a| + |b|
    ensures Nesting((a + b)[..k]) == Nesting(a) + Nesting(b[..k - |a|])
  {
    assert (a + b)[..k] == a + b[..k - |a|];
    NestingConcat(a, b[..k - |a|]);
  }

  lemma InsideLeft(e: Expr, k: nat)
    requires e.Bin? && k <= |Yield(e.l)|
    ensures k < |Yield(e)| && Yield(e)[..k] == Yield(e.l)[..k] && (k < |Yield(e.l)| ==> Yield(e)[k] == Yield(e.l)[k])
  {
  }

  lemma InsideRight(e: Expr, k: nat)
    requires e.Bin? && |Yield(e.l)| < k <= |Yield(e)|
    ensures var i := k - |Yield(e.l)| - 1;
            Nesting(Yield(e)[..k]) == Nesting(Yield(e.r)[..i]) && (k < |Yield(e)| ==> Yield(e)[k] == Yield(e.r)[i])
  {
    var a := Yield(e.l) + [OpToken(e.op)];
    Balanced(e.l); NestingOne(OpToken(e.op)); NestingConcat(Yield(e.l), [OpToken(e.op)]);
    NestingInside(a, Yield(e.r), k);
  }

  /** Inside an expression the nesting is never negative. */
  lemma {:induction false} NeverNegative(e: Expr, k: nat)
    requires k <= |Yield(e)|
    ensures Nesting(Yield(e)[..k]) >= 0
  {
    var y := Yield(e);
    if k == 0 { assert y[..0] == []; }
    else if k == |y| { assert y[..k] == y; Balanced(e); }
    else if e.Bin? {
      if k <= |Yield(e.l)| {
        InsideLeft(e, k);
        NeverNegative(e.l, k);
      } else {
        InsideRight(e, k);
        NeverNegative(e.r, k - |Yield(e.l)| - 1);
      }
    } else {
      InsideParens(e.e, k);
      NeverNegative(e.e, k - 1);
    }
  }

  lemma InsideParens(e: Expr, k: nat)
    requires 1 <= k <= |Yield(e)| + 1
    ensures Nesting(Yield(Paren(e))[..k]) == 1 + Nesting(Yield(e)[..k - 1])
  {
    assert Yield(Paren(e))[..k] == ([LPAREN] + Yield(e))[..k];
    NestingInside([LPAREN], Yield(e), k);
    NestingOne(LPAREN);
  }

  /** Outside parentheses a canonical expression has no operator weaker than its own level. */
  lemma {:induction false} NoWeakerOperator(e: Expr, k: nat)
    requires Canonical(e) && k < |Yield(e)| && Nesting(Yield(e)[..k]) == 0
    ensures Strength(Yield(e)[k]) >= Level(e)
  {
    var y := Yield(e);
    if e.Bin? {
      if k < |Yield(e.l)| {
        InsideLeft(e, k);
        NoWeakerOperator(e.l, k);
      } else if k > |Yield(e.l)| {
        InsideRight(e, k);
        NoWeakerOperator(e.r, k - |Yield(e.l)| - 1);
      }
    } else if e.Paren? && 0 < k < |y| - 1 {
      InsideParens(e.e, k);
      NeverNegative(e.e, k - 1);
    }
  }

  lemma OperatorPosition(e: Expr)
    requires e.Bin?
    ensures var k := |Yield(e.l)|;
            k < |Yield(e)| && Yield(e)[k] == OpToken(e.op) && Nesting(Yield(e)[..k]) == 0
    ensures Yield(e)[..|Yield(e.l)|] == Yield(e.l) && Yield(e)[|Yield(e.l)| + 1..] == Yield(e.r)
  {
    assert Yield(e)[..|Yield(e.l)|] == Yield(e.l);
    Balanced(e.l);
  }

  lemma LevelsAgree(e: Expr, f: Expr)
    requires Canonical(e) && Canonical(f) && Yield(e) == Yield(f)
    ensures Level(e) >= Level(f)
  {
    if e.Bin? {
      OperatorPosition(e);
      NoWeakerOperator(f, |Yield(e.l)|);
    }
  }

  /** To the right of its top operator an expression has no operator as weak outside parentheses. */
  lemma RightOfOperator(e: Expr, k: nat)
    requires Canonical(e) && e.Bin? && |Yield(e.l)| < k < |Yield(e)| && Nesting(Yield(e)[..k]) == 0
    ensures Strength(Yield(e)[k]) > Level(e)
  {
    InsideRight(e, k);
    NoWeakerOperator(e.r, k - |Yield(e.l)| - 1);
  }

  lemma SplitsAgree(e: Expr, f: Expr)
    requires Canonical(e) && Canonical(f) && Yield(e) == Yield(f) && e.Bin? && f.Bin? && Level(e) == Level(f)
    ensures |Yield(f.l)| <= |Yield(e.l)|
  {
    OperatorPosition(f);
    if |Yield(e.l)| < |Yield(f.l)| { RightOfOperator(e, |Yield(f.l)|); }
  }

  /** One canonical tree per token sequence. */
  lemma {:induction false} UniqueExpr(e: Expr, f: Expr)
    requires Canonical(e) && Canonical(f) && Yield(e) == Yield(f)
    ensures e == f
  {
    LevelsAgree(e, f);
    LevelsAgree(f, e);
    if e.Bin? {
      SplitsAgree(e, f);
      SplitsAgree(f, e);
      OperatorPosition(e);
      OperatorPosition(f);
      UniqueExpr(e.l, f.l);
      UniqueExpr(e.r, f.r);
    } else if e.Paren? {
      assert Yield(e)[0] == LPAREN;
      assert f.Paren?;
      assert Yield(e.e) == Yield(e)[1..|Yield(e)| - 1] == Yield(f.e);
      UniqueExpr(e.e, f.e);
    } else {
      assert |Yield(e)| == 1;
      assert f.Paren? ==> |Yield(f)| >= 2;
      assert Yield(e)[0] == Yield(f)[0];
    }
  }

  lemma {:induction false} NoEqualsOrNewline(e: Expr)
    ensures EQUALS !in Yield(e) && NEWLINE !in Yield(e)
  {
    match e
    case Num(_) => case Var(_) =>
    case Bin(op, l, r) => NoEqualsOrNewline(l); NoEqualsOrNewline(r); assert OpToken(op) !in {EQUALS, NEWLINE};
    case Paren(e') => NoEqualsOrNewline(e');
  }

  lemma UniqueStmt(s: Stmt, t: Stmt)
    requires CanonicalStmt(s) && CanonicalStmt(t) && YieldStmt(s) == YieldStmt(t)
    ensures s == t
  {
    NoEqualsOrNewline(s.e);
    NoEqualsOrNewline(t.e);
    if s.Assign? { assert YieldStmt(s)[1] == EQUALS; }
    if t.Assign? { assert YieldStmt(t)[1] == EQUALS; }
    if s.Assign? && t.Assign? {
      assert YieldStmt(s)[0] == VARIABLE(s.i) && YieldStmt(t)[0] == VARIABLE(t.i);
      assert Yield(s.e) == YieldStmt(s)[2..] == YieldStmt(t)[2..] == Yield(t.e);
    }
    UniqueExpr(s.e, t.e);
  }

  lemma LinesAgree(p: seq<Stmt>, q: seq<Stmt>)
    requires p != [] && q != [] && YieldProgram(p) == YieldProgram(q)
    ensures |YieldStmt(p[|p| - 1])| >= |YieldStmt(q[|q| - 1])|
  {
    EndsWithNewline(p[..|p| - 1]);
    NoEqualsOrNewline(q[|q| - 1].e);
    LongerPiece(YieldProgram(p[..|p| - 1]), YieldStmt(p[|p| - 1]), YieldProgram(q[..|q| - 1]), YieldStmt(q[|q| - 1]));
  }

  lemma LongerPiece(x: seq<Token>, s: seq<Token>, y: seq<Token>, t: seq<Token>)
    requires x + s + [NEWLINE] == y + t + [NEWLINE] && (x != [] ==> x[|x| - 1] == NEWLINE)
    ensures |s| < |t| ==> NEWLINE in t
  {
    if |s| < |t| {
      assert (x + s + [NEWLINE])[|x| - 1] == NEWLINE;
      assert (y + t + [NEWLINE])[|x| - 1] == t[|x| - 1 - |y|];
    }
  }

  lemma EndsWithNewline(p: seq<Stmt>)
    ensures YieldProgram(p) != [] ==> YieldProgram(p)[|YieldProgram(p)| - 1] == NEWLINE
  {
  }

  lemma SamePieces(x: seq<Token>, s: seq<Token>, y: seq<Token>, t: seq<Token>)
    requires x + s + [NEWLINE] == y + t + [NEWLINE] && |s| == |t|
    ensures x == y && s == t
  {
    var z := x + s + [NEWLINE];
    assert x == z[..|x|] == y && s == z[|x|..|x| + |s|] == t;
  }

  lemma FrontAndLast(p: seq<Stmt>)
    requires p != []
    ensures p == p[..|p| - 1] + [p[|p| - 1]]
  {
  }

  /** One canonical program per sentence. */
  lemma {:induction false} UniqueProgram(p: seq<Stmt>, q: seq<Stmt>)
    requires CanonicalProgram(p) && CanonicalProgram(q) && YieldProgram(p) == YieldProgram(q)
    ensures p == q
    decreases |p|
  {
    if p != [] && q != [] {
      LinesAgree(p, q);
      LinesAgree(q, p);
      SamePieces(YieldProgram(p[..|p| - 1]), YieldStmt(p[|p| - 1]), YieldProgram(q[..|q| - 1]), YieldStmt(q[|q| - 1]));
      UniqueStmt(p[|p| - 1], q[|q| - 1]);
      UniqueProgram(p[..|p| - 1], q[..|q| - 1]);
      FrontAndLast(p);
      FrontAndLast(q);
    }
  }
}
