/** Programs, the texts that spell them, and what the calculator does with these. */
module Programs {
  import opened Arithmetic
  import opened Grammar
  import opened LexRules
  import opened Engine
  import opened Parsing
  import opened ParserTheorems
  import opened Interpreter
  import opened Spelling
  import opened Calculator
  import V = Viability

  /** The text of a program runs as the program. */
  lemma WrittenProgram(p: seq<Stmt>, overflow: Overflow)
    requires CanonicalProgram(p) && (forall t | t in YieldProgram(p) :: Spellable(t)) && !Overflows(YieldProgram(p))
    ensures Parsed(SpellAll(YieldProgram(p)), overflow) == Verdict(0, 0, Interp(p, Fresh()), |YieldProgram(p)| + 1)
  {
    ReadBack(YieldProgram(p), overflow);
    ParseMeaning(p, Known(0), Fresh());
  }

  function Operation(op: Op, x: int32, y: int32): seq<Token> {
    [INTEGER(x)] + ([OpToken(op)] + [INTEGER(y), NEWLINE])
  }

  function OperationTree(op: Op, x: int32, y: int32): Expr { Bin(op, Num(x), Num(y)) }

  lemma TreeYield(op: Op, x: int32, y: int32)
    ensures Canonical(OperationTree(op, x, y))
    ensures Yield(OperationTree(op, x, y)) + [NEWLINE] == Operation(op, x, y)
  {
    assert Canonical(Num(x)) && Canonical(Num(y)) && Yield(Num(x)) == [INTEGER(x)] && Yield(Num(y)) == [INTEGER(y)];
  }

  lemma OperationYield(op: Op, x: int32, y: int32)
    ensures var p := [Print(OperationTree(op, x, y))]; YieldProgram(p) == Operation(op, x, y) && CanonicalProgram(p)
  {
    var s := Print(OperationTree(op, x, y));
    TreeYield(op, x, y);
    assert [s][..0] == [];
    assert YieldProgram([s]) == YieldStmt(s) + [NEWLINE];
  }

  /** Without parentheses there is no nesting. */
  lemma {:induction false} Flat(ts: seq<Token>)
    requires forall i | 0 <= i < |ts| :: ts[i] != LPAREN && ts[i] != RPAREN
    ensures V.Nesting(ts) == V.Peak(ts) == 0
    decreases |ts|
  {
    if ts != [] { Flat(ts[..|ts| - 1]); }
  }

  lemma OperationRuns(op: Op, x: int32, y: int32)
    ensures Parse(Operation(op, x, y), Known(0), Fresh()) ==
            Verdict(0, 0, Interp([Print(OperationTree(op, x, y))], Fresh()), |Operation(op, x, y)| + 1)
  {
    OperationYield(op, x, y);
    assert OpToken(op) != LPAREN && OpToken(op) != RPAREN;
    Flat(Operation(op, x, y));
    AcceptsExactlySentences(Operation(op, x, y), Known(0), Fresh());
    ParseMeaning([Print(OperationTree(op, x, y))], Known(0), Fresh());
  }

  /** A line with one operation prints one value, the number that the operation should give if there is one. */
  lemma OperationPrints(op: Op, x: int32, y: int32, overflow: Overflow)
    requires x >= 0 && y >= 0
    ensures var v := Parsed(Numeral(x) + ([OpByte(op)] + (Numeral(y) + [10])), overflow);
      v.code == 0 && |v.w.out| == 1 && forall n: int32 :: v.w.out[0] == Known(n) <==> Computes(op, x, y, n)
  {
    var p := [Print(OperationTree(op, x, y))];
    OperationRead(op, x, y, overflow);
    OperationRuns(op, x, y);
    OutputGrows(p, Fresh());
    PrintedInOrder(p, Fresh(), 0);
    forall n: int32 ensures Apply(op, Known(x), Known(y)) == Known(n) <==> Computes(op, x, y, n) {
      ApplyMeaning(op, x, y, n);
    }
  }

  lemma NameYield(i: Name)
    ensures var p := [Print(Var(i))]; YieldProgram(p) == [VARIABLE(i), NEWLINE] && CanonicalProgram(p)
  {
    var s := Print(Var(i));
    assert [s][..0] == [] && YieldStmt(s) == [VARIABLE(i)];
    assert YieldProgram([s]) == YieldStmt(s) + [NEWLINE];
  }

  lemma NameRuns(i: Name)
    ensures Parse([VARIABLE(i), NEWLINE], Known(0), Fresh()) == Verdict(0, 0, Interp([Print(Var(i))], Fresh()), 3)
  {
    NameYield(i);
    Flat([VARIABLE(i), NEWLINE]);
    AcceptsExactlySentences([VARIABLE(i), NEWLINE], Known(0), Fresh());
    ParseMeaning([Print(Var(i))], Known(0), Fresh());
  }

  /** A variable that has not been assigned to is 0. */
  lemma NewVariablePrints(i: Name, overflow: Overflow)
    ensures var v := Parsed([97 + i] + [10], overflow); v.code == 0 && v.w.out == [Known(0)]
  {
    LineOfOne(0, i, overflow);
    NameRuns(i);
    OutputGrows([Print(Var(i))], Fresh());
    PrintedInOrder([Print(Var(i))], Fresh(), 0);
  }
}
