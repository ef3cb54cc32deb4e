/** The bound on parentheses is sharp: a sentence with 1999 of them open at once is refused for want of stack. */
module StackLimit {
  import opened Arithmetic
  import opened Grammar
  import opened Heights
  import opened Parsing
  import V = Viability

  const ONE := INTEGER(1)

  /** `1 + 1 * (`, which leaves five more states on the stack. */
  const BLOCK := [ONE, PLUS, ONE, TIMES, LPAREN]

  function Blocks(n: nat): seq<Token> { if n == 0 then [] else Blocks(n - 1) + BLOCK }

  function Closes(n: nat): seq<Token> { if n == 0 then [] else Closes(n - 1) + [RPAREN] }

  /** `1 + 1 * (1 + 1 * ( ... 1 ... ))`, with `n` parentheses. */
  function Nested(n: nat): Expr {
    if n == 0 then Num(1) else Bin(Add, Num(1), Bin(Mul, Num(1), Paren(Nested(n - 1))))
  }

  /** One line, which assigns it to a variable. */
  function Deep(n: nat): seq<Token> { YieldProgram([Assign(0, Nested(n))]) }

  /** Its beginning, up to the innermost operand. */
  function Descent(n: nat): seq<Token> { [VARIABLE(0), EQUALS] + Blocks(n) + [ONE] }

  // ---- the yield ----

  lemma {:induction false} BlocksFront(n: nat)
    requires n > 0
    ensures Blocks(n) == BLOCK + Blocks(n - 1)
  {
    if n == 1 {
      assert Blocks(1) == Blocks(0) + BLOCK;
      assert Blocks(0) == [];
    } else {
      BlocksFront(n - 1);
      Regroup(BLOCK, Blocks(n - 2), BLOCK);
    }
  }

  lemma BlockYield(y: seq<Token>, b: seq<Token>, k: seq<Token>)
    requires y == b + [ONE] + k
    ensures [ONE] + [PLUS] + ([ONE] + [TIMES] + ([LPAREN] + y + [RPAREN])) == BLOCK + b + [ONE] + (k + [RPAREN])
  {
  }

  lemma NestedUnfolds(n: nat)
    requires n > 0
    ensures Yield(Nested(n)) == [ONE] + [PLUS] + ([ONE] + [TIMES] + ([LPAREN] + Yield(Nested(n - 1)) + [RPAREN]))
  {
    var inner := Paren(Nested(n - 1));
    assert Yield(Num(1)) == [ONE];
    assert Yield(Bin(Mul, Num(1), inner)) == [ONE] + [TIMES] + Yield(inner);
  }

  lemma {:induction false} NestedYield(n: nat)
    ensures Yield(Nested(n)) == Blocks(n) + [ONE] + Closes(n)
  {
    if n > 0 {
      NestedYield(n - 1);
      NestedUnfolds(n);
      BlockYield(Yield(Nested(n - 1)), Blocks(n - 1), Closes(n - 1));
      BlocksFront(n);
    }
  }

  lemma DeepSplits(n: nat)
    ensures Deep(n) == Descent(n) + Closes(n) + [NEWLINE] && Sentence(Deep(n))
  {
    var s := Assign(0, Nested(n));
    NestedYield(n);
    assert [s][..0] == [];
    assert YieldProgram([s]) == YieldStmt(s) + [NEWLINE];
  }

  // ---- the height ----

  lemma GaugedOperand(a: seq<Token>, t: Token)
    ensures Gauged(a + [ONE] + [t]) == Advance(Gauged(a), t)
  {
    var b := a + [ONE];
    GaugedStep(a, ONE);
    GaugedStep(b, t);
  }

  lemma BlockSplits(a: seq<Token>)
    ensures a + BLOCK == a + [ONE] + [PLUS] + [ONE] + [TIMES] + [LPAREN]
  {
  }

  lemma AdvanceBlock(g: Gauge)
    requires g.here == CALM
    ensures Advance(Advance(Advance(g, PLUS), TIMES), LPAREN) ==
            Gauge(g.assign, Within(g.outer, Level(true, true)), CALM)
  {
  }

  lemma GaugedBlock(a: seq<Token>)
    requires Gauged(a).here == CALM
    ensures Gauged(a + BLOCK) == Gauge(Gauged(a).assign, Within(Gauged(a).outer, Level(true, true)), CALM)
  {
    GaugedOperand(a, PLUS);
    GaugedOperand(a + [ONE] + [PLUS], TIMES);
    GaugedStep(a + [ONE] + [PLUS] + [ONE] + [TIMES], LPAREN);
    BlockSplits(a);
    AdvanceBlock(Gauged(a));
  }

  lemma {:induction false} GaugedBlocks(a: seq<Token>, n: nat)
    requires Gauged(a) == Gauge(true, Outermost, CALM)
    ensures var g := Gauged(a + Blocks(n)); g.assign && g.here == CALM && OuterSize(g.outer) == 5 * n
    decreases n
  {
    if n == 0 {
      Plain(a);
    } else {
      GaugedBlocks(a, n - 1);
      GaugedBlock(a + Blocks(n - 1));
      Regroup(a, Blocks(n - 1), BLOCK);
    }
  }

  lemma GaugedTarget()
    ensures Gauged([VARIABLE(0), EQUALS]) == Gauge(true, Outermost, CALM)
  {
    GaugedStep([], VARIABLE(0));
    GaugedStep([VARIABLE(0)], EQUALS);
    assert [] + [VARIABLE(0)] == [VARIABLE(0)] && [VARIABLE(0)] + [EQUALS] == [VARIABLE(0), EQUALS];
  }

  lemma OperandHeight(a: seq<Token>)
    ensures Height(a + [ONE]) == Size(Gauged(a)) + 1
  {
    GaugedStep(a, ONE);
  }

  lemma DescentHeight(n: nat)
    ensures Height(Descent(n)) == 5 * n + 5
  {
    var a := [VARIABLE(0), EQUALS];
    GaugedTarget();
    GaugedBlocks(a, n);
    OperandHeight(a + Blocks(n));
  }

  // ---- how deep the parentheses are ----

  lemma PeakStep(a: seq<Token>, t: Token)
    ensures V.Nesting(a + [t]) == V.Nesting(a) + (if t == LPAREN then 1 else if t == RPAREN then -1 else 0)
    ensures V.Peak(a + [t]) == if V.Peak(a) < V.Nesting(a + [t]) then V.Nesting(a + [t]) else V.Peak(a)
  {
    assert (a + [t])[..|a|] == a;
  }

  lemma PeakOfBlock(a: seq<Token>)
    requires V.Nesting(a) == V.Peak(a)
    ensures V.Nesting(a + BLOCK) == V.Peak(a + BLOCK) == V.Peak(a) + 1
  {
    var sum := a + [ONE] + [PLUS];
    var prod := sum + [ONE] + [TIMES];
    PeakStep(a, ONE); PeakStep(a + [ONE], PLUS);
    PeakStep(sum, ONE); PeakStep(sum + [ONE], TIMES);
    PeakStep(prod, LPAREN);
    BlockSplits(a);
  }

  lemma {:induction false} PeakOfBlocks(a: seq<Token>, n: nat)
    requires V.Nesting(a) == V.Peak(a)
    ensures V.Nesting(a + Blocks(n)) == V.Peak(a + Blocks(n)) == V.Peak(a) + n
    decreases n
  {
    if n == 0 {
      Plain(a);
    } else {
      PeakOfBlocks(a, n - 1);
      PeakOfBlock(a + Blocks(n - 1));
      Regroup(a, Blocks(n - 1), BLOCK);
    }
  }

  lemma {:induction false} PeakOfCloses(a: seq<Token>, n: nat)
    requires V.Nesting(a) <= V.Peak(a)
    ensures V.Nesting(a + Closes(n)) <= V.Peak(a + Closes(n)) == V.Peak(a)
    decreases n
  {
    if n == 0 {
      Plain(a);
    } else {
      PeakOfCloses(a, n - 1);
      PeakStep(a + Closes(n - 1), RPAREN);
      Regroup(a, Closes(n - 1), [RPAREN]);
    }
  }

  lemma DescentPeak(n: nat)
    ensures V.Nesting(Descent(n)) == V.Peak(Descent(n)) == n
  {
    var a := [VARIABLE(0), EQUALS];
    PeakStep([], VARIABLE(0)); PeakStep([VARIABLE(0)], EQUALS);
    assert [] + [VARIABLE(0)] == [VARIABLE(0)] && [VARIABLE(0)] + [EQUALS] == a;
    PeakOfBlocks(a, n);
    PeakStep(a + Blocks(n), ONE);
  }

  lemma DeepPeak(n: nat)
    ensures V.Peak(Deep(n)) == n
  {
    DeepSplits(n);
    DescentPeak(n);
    PeakOfCloses(Descent(n), n);
    PeakStep(Descent(n) + Closes(n), NEWLINE);
  }

  // ---- a sentence that does not parse ----

  lemma DeepOverflows(n: nat)
    requires n >= 1999
    ensures Overflows(Deep(n))
  {
    DeepSplits(n);
    DescentHeight(n);
    var a, k := Descent(n), Closes(n) + [NEWLINE];
    Regroup(a, Closes(n), [NEWLINE]);
    assert V.Viable(a);
    assert Deep(n)[..|a|] == a;
  }

  /** A sentence with 1999 parentheses open at once can be too much for the stack; with 1998 none is. */
  lemma LimitIsSharp(n: nat, lval: Value, w: World)
    requires Ready(w) && n >= 1999
    ensures Sentence(Deep(n)) && V.Peak(Deep(n)) == n && Parse(Deep(n), lval, w).code == 2
  {
    DeepSplits(n);
    DeepPeak(n);
    DeepOverflows(n);
    AcceptsExactlySentences(Deep(n), lval, w);
  }
}
