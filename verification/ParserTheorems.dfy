/** What calc.tab.c promises, stated against calc.y. */
module ParserTheorems {
  import opened Arithmetic
  import opened Grammar
  import opened ParserTables
  import opened Engine
  import opened Shapes
  import opened Simulation
  import opened Turns
  import opened Parsing
  import opened Unambiguous
  import opened StackPaths
  import H = Heights
  import V = Viability

  /** The printed values and the variables after a sentence are those of interpreting its one canonical tree. */
  lemma ParseMeaning(p: seq<Stmt>, lval: Value, w: World)
    requires Ready(w) && CanonicalProgram(p)
    ensures var v := Parse(YieldProgram(p), lval, w);
            if Overflows(YieldProgram(p)) then v.code == 2 else v == Verdict(0, 0, Interp(p, w), |YieldProgram(p)| + 1)
  {
    var v := Parse(YieldProgram(p), lval, w);
    ParseOutcome(YieldProgram(p), lval, w);
    AcceptsExactlySentences(YieldProgram(p), lval, w);
    if v.code == 0 {
      var q :| Accepted(YieldProgram(p), w, v.w, q);
      UniqueProgram(p, q);
    }
  }

  // ---- the error is where the grammar puts it ----

  lemma RejectedPrefix(ts: seq<Token>, w0: World, w: World, p: seq<Stmt>, line: seq<Token>, tail: seq<Token>, n: nat)
    requires Ready(w0) && Rejected(ts, w0, w, p, line, tail) && |YieldProgram(p) + line| < n <= |ts|
    ensures !V.Viable(ts[..n])
  {
    var a := YieldProgram(p) + line;
    V.PastTheError(a, tail[0], tail[1..n - |a|]);
    Take(a, tail, n);
  }

  lemma Take(a: seq<Token>, b: seq<Token>, n: nat)
    requires |a| < n <= |a| + |b|
    ensures (a + b)[..n] == a + [b[0]] + b[1..n - |a|]
  {
  }

  /** What precedes the current line is settled by the last newline. */
  lemma LongerLine(p: seq<Stmt>, a: seq<Token>, q: seq<Stmt>, b: seq<Token>)
    requires YieldProgram(p) + a == YieldProgram(q) + b && |a| > |b|
    ensures NEWLINE in a
  {
    var x, y := YieldProgram(p), YieldProgram(q);
    EndsWithNewline(q);
    assert (y + b)[|y| - 1] == NEWLINE;
    assert (x + a)[|y| - 1] == a[|y| - 1 - |x|];
  }

  lemma SameLines(p1: seq<Stmt>, line1: seq<Token>, p2: seq<Stmt>, line2: seq<Token>)
    requires CanonicalProgram(p1) && CanonicalProgram(p2) && NEWLINE !in line1 && NEWLINE !in line2
    requires YieldProgram(p1) + line1 == YieldProgram(p2) + line2
    ensures p1 == p2 && line1 == line2
  {
    if |line1| > |line2| { LongerLine(p1, line1, p2, line2); }
    if |line2| > |line1| { LongerLine(p2, line2, p1, line1); }
    var a, n := YieldProgram(p1) + line1, |YieldProgram(p1)|;
    assert YieldProgram(p1) == a[..n] == YieldProgram(p2);
    assert line1 == a[n..] == line2;
    UniqueProgram(p1, p2);
  }

  lemma LineEffectUnique(line: seq<Token>, w: World, w1: World, w2: World)
    requires Ready(w) && LineEffect(line, w, w1) && LineEffect(line, w, w2)
    ensures w1 == w2
  {
    if s, t :| && CanonicalStmt(s) && YieldStmt(s) == line && w1 == Exec(s, w)
               && CanonicalStmt(t) && YieldStmt(t) == line && w2 == Exec(t, w) {
      UniqueStmt(s, t);
    }
  }

  /** An input is rejected at one place only: after its longest beginning that begins a sentence; the lines before it,
      the failing line and its effect are determined. */
  lemma RejectionUnique(ts: seq<Token>, w0: World,
                        w1: World, p1: seq<Stmt>, line1: seq<Token>, tail1: seq<Token>,
                        w2: World, p2: seq<Stmt>, line2: seq<Token>, tail2: seq<Token>)
    requires Ready(w0) && Rejected(ts, w0, w1, p1, line1, tail1) && Rejected(ts, w0, w2, p2, line2, tail2)
    ensures p1 == p2 && line1 == line2 && tail1 == tail2 && w1 == w2
  {
    var a, b := YieldProgram(p1) + line1, YieldProgram(p2) + line2;
    assert ts[..|a|] == a && ts[..|b|] == b;
    if |a| < |b| { RejectedPrefix(ts, w0, w1, p1, line1, tail1, |b|); }
    if |b| < |a| { RejectedPrefix(ts, w0, w2, p2, line2, tail2, |a|); }
    assert tail1 == ts[|a|..] == tail2;
    SameLines(p1, line1, p2, line2);
    LineEffectUnique(line1, Interp(p1, w0), w1, w2);
  }

  // ---- and so is the place where the stack runs out ----

  lemma LowPrefix(a: seq<Token>, b: seq<Token>)
    requires AllLow(b) && a <= b
    ensures H.Height(a) < YYMAXDEPTH
  {
    assert b[..|a|] == a;
  }

  lemma ExhaustedLength(ts: seq<Token>, w0: World,
                        w1: World, p1: seq<Stmt>, line1: seq<Token>, tail1: seq<Token>,
                        w2: World, p2: seq<Stmt>, line2: seq<Token>, tail2: seq<Token>)
    requires Ready(w0) && Exhausted(ts, w0, w1, p1, line1, tail1) && Exhausted(ts, w0, w2, p2, line2, tail2)
    ensures |YieldProgram(p1) + line1| >= |YieldProgram(p2) + line2|
  {
    var a, b := YieldProgram(p1) + line1, YieldProgram(p2) + line2;
    var b' := YieldProgram(p2) + line2[..|line2| - 1];
    assert ts[..|a|] == a && ts[..|b'|] == b';
    assert |a| <= |b'| ==> a <= b';
    if a <= b' { LowPrefix(a, b'); }
  }

  /** The stack runs out at one place only, and what has been executed by then is determined. */
  lemma ExhaustionUnique(ts: seq<Token>, w0: World,
                         w1: World, p1: seq<Stmt>, line1: seq<Token>, tail1: seq<Token>,
                         w2: World, p2: seq<Stmt>, line2: seq<Token>, tail2: seq<Token>)
    requires Ready(w0) && Exhausted(ts, w0, w1, p1, line1, tail1) && Exhausted(ts, w0, w2, p2, line2, tail2)
    ensures p1 == p2 && line1 == line2 && tail1 == tail2 && w1 == w2
  {
    ExhaustedLength(ts, w0, w1, p1, line1, tail1, w2, p2, line2, tail2);
    ExhaustedLength(ts, w0, w2, p2, line2, tail2, w1, p1, line1, tail1);
    var a, b := YieldProgram(p1) + line1, YieldProgram(p2) + line2;
    assert a == ts[..|a|] == b && tail1 == ts[|a|..] == tail2;
    SameLines(p1, line1, p2, line2);
  }

  // ---- every reachable configuration ----

  /** The configuration after `n` turns, or how the run ended before. */
  function Iterate(c: Config, n: nat): Step {
    if n == 0 then Next(c)
    else match Iterate(c, n - 1) case Next(d) => Move(d) case s => s
  }

  ghost predicate Reachable(c: Config, ts: seq<Token>, lval: Value, w: World) {
    exists n :: Iterate(Initial(ts, lval, w), n) == Next(c)
  }

  lemma {:induction false} IterateTracked(ts: seq<Token>, lval: Value, w: World, n: nat) returns (sh: Shape)
    requires Ready(w)
    ensures Iterate(Initial(ts, lval, w), n) != Stuck
    ensures Iterate(Initial(ts, lval, w), n).Next? ==> Tracked(Iterate(Initial(ts, lval, w), n).c, sh, ts, w)
  {
    var c0 := Initial(ts, lval, w);
    if n == 0 {
      sh := Start;
      InitialTracked(ts, lval, w);
    } else {
      sh := IterateTracked(ts, lval, w, n - 1);
      if Iterate(c0, n - 1).Next? {
        var d := Iterate(c0, n - 1).c;
        TurnKeeps(d, sh, ts, w);
        if Move(d).Next? { sh := TurnOf(d, sh).sh; }
      }
    }
  }

  lemma IterateStep(c0: Config, n: nat, c: Config)
    requires Iterate(c0, n) == Next(c)
    ensures Iterate(c0, n + 1) == Move(c)
  {
  }

  lemma {:induction false} RunReached(c0: Config, n: nat, c: Config, sh: Shape, ts: seq<Token>, w0: World)
    returns (m: nat)
    requires Tracked(c, sh, ts, w0) && Iterate(c0, n) == Next(c)
    ensures Iterate(c0, m) == Done(Run(c, sh, ts, w0))
    decreases Measure(c, sh)
  {
    RunTurns(c, sh, ts, w0);
    IterateStep(c0, n, c);
    m := n + 1;
    if Move(c).Next? { m := RunReached(c0, m, Move(c).c, TurnOf(c, sh).sh, ts, w0); }
  }

  /** The verdict is what finitely many turns from the initial configuration lead to. */
  lemma ParseTerminates(ts: seq<Token>, lval: Value, w: World)
    requires Ready(w)
    ensures exists m :: Iterate(Initial(ts, lval, w), m) == Done(Parse(ts, lval, w))
  {
    InitialTracked(ts, lval, w);
    var m := RunReached(Initial(ts, lval, w), 0, Initial(ts, lval, w), Start, ts, w);
  }

  lemma TrackedDepth(c: Config, sh: Shape, ts: seq<Token>, w: World)
    requires Tracked(c, sh, ts, w)
    ensures |c.vs| == |c.ss| && |c.ss| - 1 <= 5 * V.Peak(ts) + 8 && Move(c) != Stuck
  {
    TurnKeeps(c, sh, ts, w);
    StackWithinPeak(sh, V.Modes(V.Fresh, ShapeYield(sh)), c.look);
    V.PeakGrows(ShapeYield(sh), Pending(c));
  }

  lemma ReachableTracked(c: Config, ts: seq<Token>, lval: Value, w: World) returns (sh: Shape)
    requires Ready(w) && Reachable(c, ts, lval, w)
    ensures Tracked(c, sh, ts, w)
  {
    var n :| Iterate(Initial(ts, lval, w), n) == Next(c);
    sh := IterateTracked(ts, lval, w, n);
  }

  lemma ShapeReduces(ss: seq<int>, sh: Shape, l: Look)
    requires ShapeOk(sh) && ss == States(sh)
    ensures Path(ss) && State(Last(ss))
    ensures var a := Chosen(Last(ss), Symbol(l)); a.Reduce? ==> Handle(ss, a.rule)
  {
    ShapePath(sh);
    PathReduces(ss, Symbol(l));
  }

  /** In every reachable configuration the state stack is a path of the automaton, the value stack is exactly as deep,
      a reduction finds the symbols of its right-hand side and a transition on its left-hand side, no turn is
      stuck, and the depth is bounded by the parentheses of the input alone. */
  lemma ReachableStacks(c: Config, ts: seq<Token>, lval: Value, w: World)
    requires Ready(w) && Reachable(c, ts, lval, w)
    ensures Path(c.ss) && State(Last(c.ss))
    ensures var a := Chosen(Last(c.ss), Symbol(Fill(c).look)); a.Reduce? ==> Handle(c.ss, a.rule)
    ensures |c.vs| == |c.ss| && |c.ss| - 1 <= 5 * V.Peak(ts) + 8 && Move(c) != Stuck
  {
    var sh := ReachableTracked(c, ts, lval, w);
    ShapeReduces(c.ss, sh, Fill(c).look);
    TrackedDepth(c, sh, ts, w);
  }
}
