/** What the interpreter computes, said without it: values as a relation, prints in order, last assignments. */
module Interpreter {
  import opened Arithmetic
  import opened Grammar

  // ---- expressions ----

  /** Expression `e` denotes the number `n`, all of whose parts denote 32-bit numbers. */
  ghost predicate Denotes(e: Expr, sym: seq<Value>, n: int32)
    requires |sym| == 26
  {
    match e
    case Num(m) => n == m
    case Var(i) => sym[i] == Known(n)
    case Bin(op, l, r) => exists x: int32, y: int32 :: Denotes(l, sym, x) && Denotes(r, sym, y) && Computes(op, x, y, n)
    case Paren(e) => Denotes(e, sym, n)
  }

  lemma {:induction false} EvalMeaning(e: Expr, sym: seq<Value>, n: int32)
    requires |sym| == 26
    ensures Eval(e, sym) == Known(n) <==> Denotes(e, sym, n)
  {
    match e
    case Num(_) =>
    case Var(_) =>
    case Paren(e') => EvalMeaning(e', sym, n);
    case Bin(op, l, r) =>
      forall x: int32 ensures Eval(l, sym) == Known(x) <==> Denotes(l, sym, x) { EvalMeaning(l, sym, x); }
      forall y: int32 ensures Eval(r, sym) == Known(y) <==> Denotes(r, sym, y) { EvalMeaning(r, sym, y); }
      BinaryMeaning(op, l, r, sym, n);
  }

  lemma BinaryMeaning(op: Op, l: Expr, r: Expr, sym: seq<Value>, n: int32)
    requires |sym| == 26
    requires forall x: int32 :: Eval(l, sym) == Known(x) <==> Denotes(l, sym, x)
    requires forall y: int32 :: Eval(r, sym) == Known(y) <==> Denotes(r, sym, y)
    ensures Eval(Bin(op, l, r), sym) == Known(n) <==> Denotes(Bin(op, l, r), sym, n)
  {
    var u, v := Eval(l, sym), Eval(r, sym);
    if u.Known? && v.Known? {
      ApplyMeaning(op, u.n, v.n, n);
      assert Denotes(l, sym, u.n) && Denotes(r, sym, v.n);
    }
  }

  // ---- statements ----

  function Prints(p: seq<Stmt>): nat {
    if p == [] then 0 else Prints(p[..|p| - 1]) + if p[|p| - 1].Print? then 1 else 0
  }

  predicate Assigns(s: Stmt, i: Name) { s.Assign? && s.i == i }

  lemma Front(p: seq<Stmt>, k: nat)
    requires k < |p|
    ensures p[..k] == p[..|p| - 1][..k]
  {
  }

  /** Nothing that has been printed is changed, and every print statement adds one value. */
  lemma {:induction false} OutputGrows(p: seq<Stmt>, w: World)
    requires Ready(w)
    ensures w.out <= Interp(p, w).out && |Interp(p, w).out| == |w.out| + Prints(p)
    decreases |p|
  {
    if p != [] { OutputGrows(p[..|p| - 1], w); }
  }

  /** A print statement prints the value that its expression has at that point, in its place among the prints. */
  lemma {:induction false} PrintedInOrder(p: seq<Stmt>, w: World, k: nat)
    requires Ready(w) && k < |p| && p[k].Print?
    ensures Prints(p[..k]) < Prints(p)
    ensures |w.out| + Prints(p[..k]) < |Interp(p, w).out|
    ensures Interp(p, w).out[|w.out| + Prints(p[..k])] == Eval(p[k].e, Interp(p[..k], w).sym)
    decreases |p|
  {
    var front := p[..|p| - 1];
    OutputGrows(p, w);
    OutputGrows(front, w);
    if k < |p| - 1 {
      Front(p, k);
      PrintedInOrder(front, w, k);
    }
  }

  /** A variable keeps its value while nothing is assigned to it. */
  lemma {:induction false} Unassigned(p: seq<Stmt>, w: World, k: nat, i: Name)
    requires Ready(w) && k <= |p| && forall m | k <= m < |p| :: !Assigns(p[m], i)
    ensures Interp(p, w).sym[i] == Interp(p[..k], w).sym[i]
    decreases |p|
  {
    if k == |p| {
      assert p[..k] == p;
    } else {
      Front(p, k);
      Unassigned(p[..|p| - 1], w, k, i);
    }
  }

  /** A variable ends with the value that was last assigned to it, computed from the variables as they then were. */
  lemma LastAssigned(p: seq<Stmt>, w: World, k: nat, i: Name)
    requires Ready(w) && k < |p| && Assigns(p[k], i) && forall m | k < m < |p| :: !Assigns(p[m], i)
    ensures Interp(p, w).sym[i] == Eval(p[k].e, Interp(p[..k], w).sym)
  {
    Unassigned(p, w, k + 1, i);
    assert p[..k + 1][..k] == p[..k];
  }
}
