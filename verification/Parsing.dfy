/** Whole runs of `yyparse` over any token sequence: termination, soundness, completeness, errors, stack use. */
module Parsing {
  import opened Arithmetic
  import opened Grammar
  import opened Engine
  import opened Shapes
  import opened Simulation
  import opened Turns
  import opened StackHeight
  import opened ShapeLanguage
  import H = Heights
  import V = Viability

  // ---- what holds between turns ----

  /** Every call of `yylex` has taken one of the `all` tokens off the `rest`, except the one that found the end. */
  predicate Counted(calls: nat, l: Look, rest: nat, all: nat) { calls + rest == all + if l == Eof then 1 else 0 }

  /** `c` is reached on input `ts` from world `w0`, and `sh` is the shape of its stack. */
  ghost predicate Tracked(c: Config, sh: Shape, ts: seq<Token>, w0: World) {
    && Rep(c, sh) && Ready(w0)
    && ts == ShapeYield(sh) + Pending(c)
    && (c.look == Eof ==> c.rest == []) && Counted(c.calls, c.look, |c.rest|, |ts|)
    && c.w == WorldAt(sh, w0)
    && Tracks(V.Modes(V.Fresh, ShapeYield(sh)), sh, c.look)
  }

  function Ahead(c: Config, sh: Shape): Config { if Blind(sh) then c else Fill(c) }

  function TurnOf(c: Config, sh: Shape): Turn
    requires ShapeOk(sh)
  {
    Turning(sh, Ahead(c, sh).look)
  }

  lemma FillPending(c: Config)
    ensures Pending(Fill(c)) == Pending(c) && Fill(c).w == c.w && Fill(c).look != Empty
  {
  }

  lemma AheadKeeps(c: Config, sh: Shape, ts: seq<Token>, w0: World)
    requires Tracked(c, sh, ts, w0)
    ensures var d := Ahead(c, sh);
            Tracked(d, sh, ts, w0) && (d.look == Empty ==> Blind(sh)) && Pending(d) == Pending(c) && d.w == c.w
  {
    if !Blind(sh) {
      FillKeeps(c, sh);
      FillPending(c);
      assert c.look != Empty ==> Fill(c) == c;
      assert Tracks(V.Modes(V.Fresh, ShapeYield(sh)), sh, Fill(c).look);
    }
  }

  function Measure(c: Config, sh: Shape): nat { 4 * |Pending(c)| + Weight(sh) }

  lemma StepTokens(d: Config, sh: Shape, ts: seq<Token>, c': Config)
    requires ShapeOk(sh) && Turning(sh, d.look).Go? && ts == ShapeYield(sh) + Pending(d)
    requires c'.rest == d.rest && c'.look == if Turning(sh, d.look).shifted then Empty else d.look
    requires c'.calls == d.calls && Counted(d.calls, d.look, |d.rest|, |ts|)
    ensures Counted(c'.calls, c'.look, |c'.rest|, |ts|)
    ensures ts == ShapeYield(Turning(sh, d.look).sh) + Pending(c')
    ensures Measure(c', Turning(sh, d.look).sh) < Measure(d, sh)
  {
    TurnYield(sh, d.look);
    TurnWeight(sh, d.look);
    var g := Turning(sh, d.look);
    var a := ShapeYield(sh);
    if g.shifted {
      assert ShapeYield(g.sh) == a + [d.look.t];
      assert Pending(c') == d.rest by { assert [] + d.rest == d.rest; }
      Regroup(a, [d.look.t], d.rest);
    } else {
      Plain(a);
      assert Pending(c') == Pending(d);
    }
  }

  lemma StepModes(sh: Shape, l: Look)
    requires ShapeOk(sh) && LookOk(sh, l) && (l == Empty ==> Blind(sh)) && Turning(sh, l).Go?
    requires Tracks(V.Modes(V.Fresh, ShapeYield(sh)), sh, l)
    ensures var g := Turning(sh, l);
            ShapeOk(g.sh) && Tracks(V.Modes(V.Fresh, ShapeYield(g.sh)), g.sh, if g.shifted then Empty else l)
  {
    TurnMode(sh, V.Modes(V.Fresh, ShapeYield(sh)), l);
    TurnYield(sh, l);
    if Turning(sh, l).shifted {
      V.ModesStep(V.Fresh, ShapeYield(sh), l.t);
    } else {
      Plain(ShapeYield(sh));
    }
  }

  lemma StepKeeps(c: Config, sh: Shape, ts: seq<Token>, w0: World, c': Config)
    requires Tracked(c, sh, ts, w0) && TurnOf(c, sh).Go?
    requires Rep(c', TurnOf(c, sh).sh) && c'.w == TurnWorld(sh, TurnOf(c, sh).sh, c.w)
    requires c'.rest == Ahead(c, sh).rest && c'.calls == Ahead(c, sh).calls
    requires c'.look == if TurnOf(c, sh).shifted then Empty else Ahead(c, sh).look
    ensures Tracked(c', TurnOf(c, sh).sh, ts, w0) && Measure(c', TurnOf(c, sh).sh) < Measure(c, sh)
  {
    AheadKeeps(c, sh, ts, w0);
    StepTokens(Ahead(c, sh), sh, ts, c');
    StepModes(sh, Ahead(c, sh).look);
    TurnEffect(sh, Ahead(c, sh).look, w0);
  }

  /** Every turn keeps the invariant and lowers the measure; no turn is ever stuck. */
  lemma TurnKeeps(c: Config, sh: Shape, ts: seq<Token>, w0: World)
    requires Tracked(c, sh, ts, w0)
    ensures Move(c) != Stuck
    ensures Move(c).Next? ==>
      TurnOf(c, sh).Go? && Tracked(Move(c).c, TurnOf(c, sh).sh, ts, w0) &&
      Measure(Move(c).c, TurnOf(c, sh).sh) < Measure(c, sh)
  {
    TablesSimulate(c, sh);
    if Move(c).Next? { StepKeeps(c, sh, ts, w0, Move(c).c); }
  }

  lemma InitialTracked(ts: seq<Token>, lval: Value, w: World)
    requires Ready(w)
    ensures Tracked(Initial(ts, lval, w), Start, ts, w)
  {
  }

  // ---- runs ----

  /** The verdict reached from a configuration. */
  ghost function Run(c: Config, sh: Shape, ts: seq<Token>, w0: World): Verdict
    requires Tracked(c, sh, ts, w0)
    decreases Measure(c, sh)
  {
    TurnKeeps(c, sh, ts, w0);
    match Move(c)
    case Done(v) => v
    case Next(c') => Run(c', TurnOf(c, sh).sh, ts, w0)
  }

  lemma RunTurns(c: Config, sh: Shape, ts: seq<Token>, w0: World)
    requires Tracked(c, sh, ts, w0)
    ensures Move(c) != Stuck
    ensures Move(c).Done? ==> Run(c, sh, ts, w0) == Move(c).v
    ensures Move(c).Next? ==>
      TurnOf(c, sh).Go? && Tracked(Move(c).c, TurnOf(c, sh).sh, ts, w0) &&
      Measure(Move(c).c, TurnOf(c, sh).sh) < Measure(c, sh) &&
      Run(c, sh, ts, w0) == Run(Move(c).c, TurnOf(c, sh).sh, ts, w0)
  {
    TurnKeeps(c, sh, ts, w0);
  }

  ghost function Parse(ts: seq<Token>, lval: Value, w: World): Verdict
    requires Ready(w)
  {
    InitialTracked(ts, lval, w);
    Run(Initial(ts, lval, w), Start, ts, w)
  }

  // ---- what a verdict means ----

  ghost predicate Accepted(ts: seq<Token>, w0: World, w: World, p: seq<Stmt>)
    requires Ready(w0)
  {
    CanonicalProgram(p) && YieldProgram(p) == ts && w == Interp(p, w0)
  }

  /** Lines `p` were complete; `line` is as much of the next one as begins some sentence, and `tail` is the
      rest of the input, whose first token (or whose absence) is the error.  The failing line has an effect
      exactly when it is a complete statement. */
  ghost predicate Rejected(ts: seq<Token>, w0: World, w: World, p: seq<Stmt>, line: seq<Token>, tail: seq<Token>)
    requires Ready(w0)
  {
    && CanonicalProgram(p)
    && ts == YieldProgram(p) + line + tail
    && NEWLINE !in line
    && V.Viable(YieldProgram(p) + line)
    && (if tail == [] then !Sentence(ts) else !V.Viable(YieldProgram(p) + line + [tail[0]]))
    && LineEffect(line, Interp(p, w0), w)
  }

  ghost predicate LineEffect(line: seq<Token>, w1: World, w: World)
    requires Ready(w1)
  {
    || (exists s :: CanonicalStmt(s) && YieldStmt(s) == line && w == Exec(s, w1))
    || ((forall s :: YieldStmt(s) != line) && w == w1)
  }

  /** No beginning of `ts` makes the stack full. */
  predicate AllLow(ts: seq<Token>) { forall k | 0 <= k <= |ts| :: H.Height(ts[..k]) < YYMAXDEPTH }

  /** Some beginning of a sentence at the start of the input makes the stack full.  This is a question about tokens:
      `Height` is table-free and `FollowDecidesViability` decides viability. */
  ghost predicate Overflows(ts: seq<Token>) {
    exists k | 0 <= k <= |ts| :: V.Viable(ts[..k]) && H.Height(ts[..k]) >= YYMAXDEPTH
  }

  /** Lines `p` have had their effects and nothing else has; the last token of `line` is the first that makes the stack
      full. */
  ghost predicate Exhausted(ts: seq<Token>, w0: World, w: World, p: seq<Stmt>, line: seq<Token>, tail: seq<Token>)
    requires Ready(w0)
  {
    && CanonicalProgram(p)
    && ts == YieldProgram(p) + line + tail
    && NEWLINE !in line && line != []
    && V.Viable(YieldProgram(p) + line)
    && H.Height(YieldProgram(p) + line) >= YYMAXDEPTH && AllLow(YieldProgram(p) + line[..|line| - 1])
    && w == Interp(p, w0)
  }

  /** What a verdict means.  Up to the end or the offending token, but no further, everything has been read; when the
      stack runs out, only up to the token that fills it. */
  ghost predicate Outcome(ts: seq<Token>, w0: World, v: Verdict)
    requires Ready(w0)
  {
    || (v.code == 0 && v.nerrs == 0 && !Overflows(ts) && v.calls == |ts| + 1 && exists p :: Accepted(ts, w0, v.w, p))
    || (v.code == 1 && v.nerrs == 1 && !Overflows(ts) &&
        exists p, line, tail :: Rejected(ts, w0, v.w, p, line, tail) && v.calls == |ts| - |tail| + 1)
    || (v.code == 2 && v.nerrs == 0 && V.Peak(ts) > 1998 &&
        exists p, line, tail :: Exhausted(ts, w0, v.w, p, line, tail) && v.calls == |ts| - |tail|)
  }

  // ---- the height of the stack along a run ----

  /** The stack is not full and has not been, and its height is that of the tokens read. */
  predicate Low(sh: Shape, l: Look) {
    Gauges(H.Gauged(ShapeYield(sh)), sh, l) && |States(sh)| < YYMAXDEPTH && AllLow(ShapeYield(sh))
  }

  lemma AllLowGrows(ts: seq<Token>, t: Token)
    requires AllLow(ts) && H.Height(ts + [t]) < YYMAXDEPTH
    ensures AllLow(ts + [t])
  {
    forall k | 0 <= k <= |ts + [t]| ensures H.Height((ts + [t])[..k]) < YYMAXDEPTH {
      if k <= |ts| { assert (ts + [t])[..k] == ts[..k]; } else { assert (ts + [t])[..k] == ts + [t]; }
    }
  }

  lemma TurnLow(sh: Shape, l: Look)
    requires CanTurn(sh, l) && Low(sh, l) && |States(Turning(sh, l).sh)| < YYMAXDEPTH
    ensures Low(Turning(sh, l).sh, if Turning(sh, l).shifted then Empty else l)
  {
    var g, done := Turning(sh, l), ShapeYield(sh);
    TurnYield(sh, l);
    if g.shifted {
      ShiftGauge(sh, H.Gauged(done), l);
      H.GaugedStep(done, l.t);
      AllLowGrows(done, l.t);
    } else {
      ReduceGauge(sh, H.Gauged(done), l);
      Plain(done);
    }
  }

  lemma StartLow()
    ensures Low(Start, Empty)
  {
    assert ShapeYield(Start) == [];
  }

  lemma LowAhead(c: Config, sh: Shape)
    requires Low(sh, c.look)
    ensures Low(sh, Ahead(c, sh).look)
  {
  }

  /** A turn that goes on has found room. */
  lemma NextLow(c: Config, sh: Shape, ts: seq<Token>, w0: World)
    requires Tracked(c, sh, ts, w0) && Low(sh, c.look) && Move(c).Next?
    ensures TurnOf(c, sh).Go? && Low(TurnOf(c, sh).sh, Move(c).c.look)
  {
    TablesSimulate(c, sh);
    AheadKeeps(c, sh, ts, w0);
    LowAhead(c, sh);
    TurnLow(sh, Ahead(c, sh).look);
  }

  lemma OnlyShiftsFill(sh: Shape, l: Look)
    requires CanTurn(sh, l) && Low(sh, l) && |States(Turning(sh, l).sh)| >= YYMAXDEPTH
    ensures Turning(sh, l).shifted
  {
    if !Turning(sh, l).shifted { ReduceGauge(sh, H.Gauged(ShapeYield(sh)), l); }
  }

  lemma ShiftHeight(sh: Shape, l: Look)
    requires CanTurn(sh, l) && Turning(sh, l).shifted && Gauges(H.Gauged(ShapeYield(sh)), sh, l)
    ensures l.Tok? && H.Height(ShapeYield(sh) + [l.t]) == |States(Turning(sh, l).sh)|
  {
    ShiftGauge(sh, H.Gauged(ShapeYield(sh)), l);
    H.GaugedStep(ShapeYield(sh), l.t);
  }

  /** The shift of a newline leaves four states. */
  lemma HighIsMidLine(sh: Shape, l: Look)
    requires CanTurn(sh, l) && Turning(sh, l).shifted && |States(Turning(sh, l).sh)| > 4
    ensures sh.At? && !sh.top.Eol? && !sh.top.Whole?
    ensures var sh' := Turning(sh, l).sh; sh'.At? && !sh'.top.Eol? && !sh'.top.Whole?
  {
  }

  /** Only a shift fills the stack, and then the height of the tokens says so. */
  lemma FullTurn(sh: Shape, l: Look)
    requires CanTurn(sh, l) && Low(sh, l) && |States(Turning(sh, l).sh)| >= YYMAXDEPTH
    ensures var g := Turning(sh, l);
      && g.shifted && l.Tok? && g.sh.At? && !g.sh.top.Eol? && !g.sh.top.Whole?
      && sh.At? && !sh.top.Eol? && !sh.top.Whole?
      && H.Height(ShapeYield(sh) + [l.t]) >= YYMAXDEPTH
  {
    OnlyShiftsFill(sh, l);
    ShiftHeight(sh, l);
    HighIsMidLine(sh, l);
  }

  // ---- each way of stopping ----

  lemma StopLook(sh: Shape, l: Look)
    requires ShapeOk(sh) && Turning(sh, l).Stop? && (l == Empty ==> Blind(sh))
    ensures l != Empty && (Turning(sh, l).ok ==> l == Eof)
  {
  }

  lemma AcceptMeans(d: Config, sh: Shape, ts: seq<Token>, w0: World)
    requires Tracked(d, sh, ts, w0) && Turning(sh, d.look) == Stop(true) && d.look == Eof && d.rest == []
    ensures Accepted(ts, w0, d.w, Program(sh))
  {
    Plain(YieldProgram(sh.prog));
    assert LineYield(sh) == [] && Pending(d) == [];
  }

  lemma StoppedLine(sh: Shape, l: Look, w0: World)
    requires ShapeOk(sh) && Turning(sh, l) == Stop(false) && (l == Empty ==> Blind(sh)) && Ready(w0)
    ensures !(sh.At? && sh.top.Eol?) && LineEffect(LineYield(sh), Interp(Program(sh), w0), WorldAt(sh, w0))
  {
    var line := LineYield(sh);
    if sh.top.Whole? {
      assert line == [] + YieldStmt(sh.top.s) == YieldStmt(sh.top.s);
    } else {
      forall s ensures YieldStmt(s) != line {
        V.StmtModes(s);
        UnfinishedMode(sh.frame, sh.top);
      }
    }
  }

  lemma RejectMeans(d: Config, sh: Shape, ts: seq<Token>, w0: World)
    requires Tracked(d, sh, ts, w0) && Turning(sh, d.look) == Stop(false) && (d.look == Empty ==> Blind(sh))
    ensures Rejected(ts, w0, d.w, Program(sh), LineYield(sh), Pending(d))
  {
    StoppedLine(sh, d.look, w0);
    NoNewlineInLine(sh);
    StackIsViable(sh);
    var done := ShapeYield(sh);
    TurnMode(sh, V.Modes(V.Fresh, done), d.look);
    if d.look.Tok? {
      V.ModesStep(V.Fresh, done, d.look.t);
      V.DeadIsNotViable(done + [d.look.t]);
    } else {
      assert Pending(d) == [];
      Plain(done);
      V.UnfinishedIsNotSentence(ts);
    }
  }

  lemma FullPeak(sh: Shape, l: Look, ts: seq<Token>, rest: seq<Token>)
    requires CanTurn(sh, l) && Tracks(V.Modes(V.Fresh, ShapeYield(sh)), sh, l) && Turning(sh, l).shifted
    requires |States(Turning(sh, l).sh)| >= YYMAXDEPTH && l.Tok? && ts == ShapeYield(sh) + ([l.t] + rest)
    ensures V.Peak(ts) > 1998 && ts == ShapeYield(Turning(sh, l).sh) + rest
  {
    var g := Turning(sh, l);
    StepModes(sh, l);
    StackWithinPeak(g.sh, V.Modes(V.Fresh, ShapeYield(g.sh)), Empty);
    TurnYield(sh, l);
    Regroup(ShapeYield(sh), [l.t], rest);
    V.PeakGrows(ShapeYield(g.sh), rest);
  }

  lemma FullLine(sh: Shape, l: Look, rest: seq<Token>, ts: seq<Token>, w0: World)
    requires Ready(w0) && CanTurn(sh, l) && Low(sh, l) && |States(Turning(sh, l).sh)| >= YYMAXDEPTH
    requires l.Tok? && ts == ShapeYield(Turning(sh, l).sh) + rest
    ensures TurnWorld(sh, Turning(sh, l).sh, WorldAt(sh, w0)) == WorldAt(sh, w0)
    ensures Exhausted(ts, w0, WorldAt(sh, w0), Program(sh), LineYield(sh) + [l.t], rest)
  {
    var sh', line := Turning(sh, l).sh, LineYield(sh);
    FullTurn(sh, l);
    TurnOk(sh, l);
    TurnLine(sh, l);
    NoNewlineInLine(sh');
    StackIsViable(sh');
    Regroup(YieldProgram(Program(sh)), line, [l.t]);
    assert (line + [l.t])[..|line + [l.t]| - 1] == line;
  }

  /** A shift that fills the stack comes in the middle of a line, whose statement has had no effect. */
  lemma FullMeans(sh: Shape, l: Look, rest: seq<Token>, ts: seq<Token>, w0: World)
    requires Ready(w0) && CanTurn(sh, l) && Low(sh, l) && |States(Turning(sh, l).sh)| >= YYMAXDEPTH
    requires Tracks(V.Modes(V.Fresh, ShapeYield(sh)), sh, l)
    requires l.Tok? && ts == ShapeYield(sh) + ([l.t] + rest)
    ensures V.Peak(ts) > 1998 && TurnWorld(sh, Turning(sh, l).sh, WorldAt(sh, w0)) == WorldAt(sh, w0)
    ensures Exhausted(ts, w0, WorldAt(sh, w0), Program(sh), LineYield(sh) + [l.t], rest)
  {
    FullTurn(sh, l);
    FullPeak(sh, l, ts, rest);
    FullLine(sh, l, rest, ts, w0);
  }

  /** Where every beginning that is viable has been read, the stack has never been full. */
  lemma LowMeans(ts: seq<Token>, done: seq<Token>)
    requires AllLow(done) && done <= ts && (done == ts || !V.Viable(done + [ts[|done|]]))
    ensures !Overflows(ts)
  {
    forall k | 0 <= k <= |ts| && V.Viable(ts[..k]) ensures H.Height(ts[..k]) < YYMAXDEPTH {
      if k <= |done| {
        assert ts[..k] == done[..k];
      } else {
        assert ts[..k] == done + [ts[|done|]] + ts[|done| + 1..k];
        V.PastTheError(done, ts[|done|], ts[|done| + 1..k]);
      }
    }
  }

  lemma StopMeans(d: Config, sh: Shape, ts: seq<Token>, w0: World)
    requires Tracked(d, sh, ts, w0) && Turning(sh, d.look).Stop? && (d.look == Empty ==> Blind(sh)) && Low(sh, d.look)
    ensures !Overflows(ts)
    ensures if Turning(sh, d.look).ok then Accepted(ts, w0, d.w, Program(sh))
            else Rejected(ts, w0, d.w, Program(sh), LineYield(sh), Pending(d))
    ensures d.calls == |ts| - |Pending(d)| + 1
  {
    var done := ShapeYield(sh);
    StopLook(sh, d.look);
    if Turning(sh, d.look).ok {
      AcceptMeans(d, sh, ts, w0);
      assert Pending(d) == [];
      Plain(done);
    } else {
      RejectMeans(d, sh, ts, w0);
      if Pending(d) == [] { Plain(done); } else { assert ts[|done|] == Pending(d)[0]; }
    }
    LowMeans(ts, done);
  }

  lemma FullVerdict(sh: Shape, l: Look, rest: seq<Token>, calls: nat, ts: seq<Token>, w0: World)
    requires Ready(w0) && CanTurn(sh, l) && Low(sh, l) && |States(Turning(sh, l).sh)| >= YYMAXDEPTH
    requires Tracks(V.Modes(V.Fresh, ShapeYield(sh)), sh, l)
    requires ts == ShapeYield(sh) + ((if l.Tok? then [l.t] else []) + rest) && Counted(calls, l, |rest|, |ts|)
    ensures Outcome(ts, w0, Verdict(2, 0, TurnWorld(sh, Turning(sh, l).sh, WorldAt(sh, w0)), calls))
  {
    FullTurn(sh, l);
    FullMeans(sh, l, rest, ts, w0);
  }

  lemma StopVerdict(d: Config, sh: Shape, ts: seq<Token>, w0: World)
    requires Tracked(d, sh, ts, w0) && Turning(sh, d.look).Stop? && (d.look == Empty ==> Blind(sh)) && Low(sh, d.look)
    ensures var n := if Turning(sh, d.look).ok then 0 else 1; Outcome(ts, w0, Verdict(n, n, d.w, d.calls))
  {
    StopMeans(d, sh, ts, w0);
  }

  lemma VerdictMeans(c: Config, sh: Shape, ts: seq<Token>, w0: World, st: Step)
    requires Tracked(c, sh, ts, w0) && Low(sh, c.look) && st.Done? && Agrees(c, sh, st)
    ensures Outcome(ts, w0, st.v)
  {
    AheadKeeps(c, sh, ts, w0);
    LowAhead(c, sh);
    var d := Ahead(c, sh);
    if TurnOf(c, sh).Go? { FullVerdict(sh, d.look, d.rest, d.calls, ts, w0); } else { StopVerdict(d, sh, ts, w0); }
  }

  lemma TurnVerdict(c: Config, sh: Shape, ts: seq<Token>, w0: World)
    requires Tracked(c, sh, ts, w0) && Low(sh, c.look) && Move(c).Done?
    ensures Outcome(ts, w0, Move(c).v)
  {
    TablesSimulate(c, sh);
    VerdictMeans(c, sh, ts, w0, Move(c));
  }

  lemma {:induction false} RunOutcome(c: Config, sh: Shape, ts: seq<Token>, w0: World)
    requires Tracked(c, sh, ts, w0) && Low(sh, c.look)
    ensures Outcome(ts, w0, Run(c, sh, ts, w0))
    decreases Measure(c, sh)
  {
    TurnKeeps(c, sh, ts, w0);
    match Move(c)
    case Done(v) => TurnVerdict(c, sh, ts, w0);
    case Next(c') =>
      NextLow(c, sh, ts, w0);
      RunOutcome(c', TurnOf(c, sh).sh, ts, w0);
  }

  /** Whatever the input, the verdict of `yyparse` means what the grammar says. */
  lemma ParseOutcome(ts: seq<Token>, lval: Value, w: World)
    requires Ready(w)
    ensures Outcome(ts, w, Parse(ts, lval, w))
  {
    InitialTracked(ts, lval, w);
    StartLow();
    RunOutcome(Initial(ts, lval, w), Start, ts, w);
  }

  lemma RejectedIsNoSentence(ts: seq<Token>, w0: World, w: World, p: seq<Stmt>, line: seq<Token>, tail: seq<Token>)
    requires Ready(w0) && Rejected(ts, w0, w, p, line, tail)
    ensures !Sentence(ts)
  {
    if tail != [] { NotASentence(YieldProgram(p) + line, tail, ts); }
  }

  lemma NotASentence(a: seq<Token>, tail: seq<Token>, ts: seq<Token>)
    requires tail != [] && ts == a + tail && !V.Viable(a + [tail[0]])
    ensures !Sentence(ts)
  {
    assert tail == [tail[0]] + tail[1..];
    Regroup(a, [tail[0]], tail[1..]);
    V.PastTheError(a, tail[0], tail[1..]);
    if Sentence(ts) { SentenceIsViable(ts); }
  }

  lemma ExhaustedOverflows(ts: seq<Token>, w0: World, w: World, p: seq<Stmt>, line: seq<Token>, tail: seq<Token>)
    requires Ready(w0) && Exhausted(ts, w0, w, p, line, tail)
    ensures Overflows(ts)
  {
    assert ts[..|YieldProgram(p) + line|] == YieldProgram(p) + line;
  }

  lemma OutcomeDecides(ts: seq<Token>, w: World, v: Verdict)
    requires Ready(w) && Outcome(ts, w, v)
    ensures v.code == if Overflows(ts) then 2 else if Sentence(ts) then 0 else 1
    ensures V.Peak(ts) <= 1998 ==> !Overflows(ts)
  {
    if v.code == 1 {
      var p, line, tail :| Rejected(ts, w, v.w, p, line, tail);
      RejectedIsNoSentence(ts, w, v.w, p, line, tail);
    } else if v.code == 2 {
      var p, line, tail :| Exhausted(ts, w, v.w, p, line, tail);
      ExhaustedOverflows(ts, w, v.w, p, line, tail);
    }
  }

  /** `yyparse` returns 2 exactly when some beginning of a sentence at the start of the input is too high for the stack,
      and otherwise 0 on exactly the sentences of the grammar and 1 on everything else.  At most 1998 open
      parentheses are never too high. */
  lemma AcceptsExactlySentences(ts: seq<Token>, lval: Value, w: World)
    requires Ready(w)
    ensures Parse(ts, lval, w).code == if Overflows(ts) then 2 else if Sentence(ts) then 0 else 1
    ensures V.Peak(ts) <= 1998 ==> !Overflows(ts)
  {
    ParseOutcome(ts, lval, w);
    OutcomeDecides(ts, w, Parse(ts, lval, w));
  }
}
