/** `yyparse` of packetdrill/calc.tab.c with its stacks in arrays that move when they grow. */
module YyParse {
  import opened Arithmetic
  import opened Grammar
  import opened LexRules
  import opened ParserTables
  import opened Engine
  import opened Shapes
  import opened Simulation
  import opened Parsing
  import opened Scanner

  const YYINITDEPTH := 200
  const YYEMPTY := -2
  const YYEOF := 0

  // ---- the two stacks ----

  // Sizes in bytes of one state, one value, and the union that aligns them.
  const STATE_BYTES := 2
  const VALUE_BYTES := 4
  const UNIT := 4

  function StackBytes(n: nat): nat { n * (STATE_BYTES + VALUE_BYTES) + (UNIT - 1) }

  /** Where YYSTACK_RELOCATE puts the value stack behind a state stack of `n` elements. */
  function ValueOffset(n: nat): nat { (n * STATE_BYTES + (UNIT - 1)) / UNIT * UNIT }

  /** In one allocation of YYSTACK_BYTES(n) both relocated stacks fit, do not overlap and are aligned. */
  lemma RelocationFits(n: nat)
    ensures n * STATE_BYTES <= ValueOffset(n)
    ensures ValueOffset(n) + n * VALUE_BYTES <= StackBytes(n)
    ensures ValueOffset(n) % UNIT == 0
    ensures ValueOffset(n) < n * STATE_BYTES + UNIT && StackBytes(n) < ValueOffset(n) + n * VALUE_BYTES + UNIT
  {
    var k := n * STATE_BYTES + (UNIT - 1);
    assert k == k / UNIT * UNIT + k % UNIT;
  }

  class Stacks {
    var yyss: array<int>
    var yyvs: array<Value>
    var size: nat     // yystacksize
    var top: nat      // yyssp - yyss, which is also yyvsp - yyvs

    ghost function Repr(): set<object>
      reads this
    {
      {this, yyss, yyvs}
    }

    /** There is always room for one more element. */
    ghost predicate Valid()
      reads this
    {
      && yyss.Length == yyvs.Length == size
      && YYINITDEPTH <= size <= YYMAXDEPTH
      && top + 1 < size
    }

    ghost function States(): seq<int>
      requires Valid()
      reads this, yyss
    {
      yyss[..top + 1]
    }

    ghost function Values(): seq<Value>
      requires Valid()
      reads this, yyvs
    {
      yyvs[..top + 1]
    }

    ghost predicate InRange()
      requires Valid()
      reads this, yyss
    {
      forall i | 0 <= i < |States()| :: State(States()[i])
    }

    constructor ()
      ensures Valid() && States() == [0] && Values() == [Undefined] && size == YYINITDEPTH
      ensures fresh(Repr())
    {
      yyss := new int[YYINITDEPTH](i => 0);
      yyvs := new Value[YYINITDEPTH](i => Undefined);
      size, top := YYINITDEPTH, 0;
    }

    /** The two YYSTACK_RELOCATEs: both stacks are copied to a larger allocation. */
    method Relocate(bigger: nat)
      requires yyss.Length == yyvs.Length == size == top + 1 && size < bigger
      modifies this`yyss, this`yyvs, this`size
      ensures yyss.Length == yyvs.Length == size == bigger && fresh(yyss) && fresh(yyvs)
      ensures yyss[..top + 1] == old(yyss[..top + 1]) && yyvs[..top + 1] == old(yyvs[..top + 1])
    {
      var ss, vs, n := yyss, yyvs, top + 1;
      yyss := new int[bigger](i => 0);
      yyvs := new Value[bigger](i => Undefined);
      for i := 0 to n
        modifies yyss, yyvs
        invariant yyss[..i] == ss[..i] && yyvs[..i] == vs[..i]
      {
        yyss[i], yyvs[i] := ss[i], vs[i];
      }
      size := bigger;
    }

    /** yynewstate, after the value has been stored: push, and make room for the next push unless the
        stack is as large as it may become. */
    method Push(s: int, v: Value) returns (ok: bool)
      requires Valid()
      modifies Repr()
      ensures ok <==> old(|States()|) + 1 < YYMAXDEPTH
      ensures ok ==> Valid() && States() == old(States()) + [s] && Values() == old(Values()) + [v]
      ensures size == if old(top) + 2 < old(size) then old(size)
                      else if 2 * old(size) < YYMAXDEPTH then 2 * old(size) else YYMAXDEPTH
      ensures (yyss == old(yyss) || fresh(yyss)) && (yyvs == old(yyvs) || fresh(yyvs))
    {
      top := top + 1;
      yyvs[top] := v;
      yyss[top] := s;
      assert yyss[..top + 1] == old(yyss[..top + 1]) + [s] && yyvs[..top + 1] == old(yyvs[..top + 1]) + [v];
      if size - 1 <= top {
        if YYMAXDEPTH <= size {
          return false;
        }
        Relocate(if YYMAXDEPTH < size * 2 then YYMAXDEPTH else size * 2);
        assert top < size - 1;   // the abort after an extension is never taken
      }
      ok := true;
    }

    /** YYPOPSTACK. */
    method Pop(n: nat)
      requires Valid() && n <= top
      modifies this`top
      ensures Valid() && States() == old(States())[..old(|States()|) - n]
      ensures Values() == old(Values())[..old(|Values()|) - n]
    {
      top := top - n;
    }
  }

  /** Reading the next token of a text is filling the lookahead of a configuration. */
  lemma FillNext(c: Config, text: seq<byte>, big: Overflow, s: Scan)
    requires c.look == Empty && c.rest == Tokens(text, big) && s == NextToken(text, big)
    ensures Fill(c).(calls := c.calls) ==
            if s.End? then c.(look := Eof, rest := Tokens([], big))
            else c.(look := Tok(s.t), rest := Tokens(s.rest, big), lval := Lval(s.t, c.lval))
    ensures Fill(c).calls == c.calls + 1
  {
  }

  lemma MoveBlind(c: Config, s: int)
    requires |c.ss| > 0 && c.ss[|c.ss| - 1] == s && State(s) && Consistent(s)
    ensures Move(c) == Act(c, Default(s))
  {
  }

  lemma MoveSighted(c: Config, s: int, d: Config)
    requires |c.ss| > 0 && c.ss[|c.ss| - 1] == s && State(s) && !Consistent(s) && d == Fill(c)
    ensures Move(c) == Act(d, Decide(s, Symbol(d.look)))
  {
  }

  /** The configuration just before a reduction pushes its left-hand side. */
  function Popped(c: Config, rule: nat): Config
    requires CanReduce(c, rule)
  {
    var n := |c.ss| - yyr2(rule);
    c.(ss := c.ss[..n], vs := c.vs[..n], w := Effect(rule, c.vs[n..], c.w))
  }

  lemma ReducePushes(c: Config, rule: nat, n: nat)
    requires CanReduce(c, rule) && n == |c.ss| - yyr2(rule)
    ensures ReduceBy(c, rule) == Push(Popped(c, rule), Goto(c.ss[n - 1], rule), Result(rule, c.vs[n..], c.w.sym))
  {
  }

  /** The reads of yypact, yycheck and yytable. */
  method ReadTables(yystate: int, yytoken: int) returns (a: Action)
    requires State(yystate)
    ensures a == Decide(yystate, yytoken)
  {
    var yyn := yypact(yystate) + yytoken;
    if yyn < 0 || YYLAST < yyn || yycheck(yyn) != yytoken {
      return Default(yystate);
    }
    return Entry(yytable(yyn));
  }

  // ---- the parser ----

  datatype Exit = Running | Returned(code: int)

  class Parser {
    const lexer: Lexer
    const stacks: Stacks
    const sym: array<Value>
    var out: seq<Value>       // what has been printed
    var yychar: int
    var yynerrs: nat
    ghost var look: Look      // the token that yychar and yylval stand for
    ghost var calls: nat      // how often yylex has been called
    ghost const whole: seq<byte>

    ghost function Repr(): set<object>
      reads this, lexer, stacks
    {
      {this, sym} + stacks.Repr() + {lexer, lexer.ch_buf, lexer.source}
    }

    /** Only the stacks and the input buffer are ever replaced, and then by new allocations. */
    twostate predicate Moved()
      reads this, lexer, stacks
    {
      && (stacks.yyss == old(stacks.yyss) || fresh(stacks.yyss))
      && (stacks.yyvs == old(stacks.yyvs) || fresh(stacks.yyvs))
      && (lexer.ch_buf == old(lexer.ch_buf) || fresh(lexer.ch_buf))
    }

    twostate lemma MovedRepr()
      requires Moved()
      ensures fresh(Repr() - old(Repr()))
    {
    }

    ghost predicate Separate()
      reads lexer`ch_buf, stacks`yyss, stacks`yyvs
    {
      {this, sym} !! {stacks, stacks.yyss, stacks.yyvs} !! {lexer, lexer.ch_buf, lexer.source}
    }

    /** What the scanner has left and what it has reported are what that many calls leave and report. */
    ghost predicate Listening()
      reads this`calls, lexer, lexer.ch_buf, lexer.source
    {
      lexer.Valid() && Progress(lexer.Rest(), lexer.complaints) == Heard(whole, lexer.big, calls)
    }

    ghost predicate Valid()
      reads this`look, this`yychar, stacks, lexer, lexer.ch_buf, lexer.source
    {
      && Separate() && stacks.Valid() && lexer.Valid() && sym.Length == 26
      && yychar == (match look case Empty => YYEMPTY case Eof => YYEOF case Tok(t) => Code(t))
    }

    ghost function Observed(): World
      reads this`out, sym
    {
      World(sym[..], out)
    }

    /** The configuration that the fields stand for. */
    ghost function Conf(): Config
      requires Valid()
      reads this`look, this`yychar, this`calls, this`out, sym
      reads stacks, stacks.yyss, stacks.yyvs, lexer, lexer.ch_buf, lexer.source
    {
      Config(stacks.States(), stacks.Values(), look, Tokens(lexer.Rest(), lexer.big), lexer.yylval, Observed(), calls)
    }

    constructor (input: Source, overflow: Overflow)
      ensures Valid() && Listening() && fresh(lexer) && fresh(lexer.ch_buf)
      ensures fresh(stacks) && fresh(stacks.yyss) && fresh(stacks.yyvs) && fresh(sym)
      ensures stacks.States() == [0] && stacks.Values() == [Undefined] && look == Empty && calls == 0
      ensures lexer.source == input && yynerrs == 0 && lexer.Rest() == input.data && lexer.big == overflow
      ensures lexer.yylval == Known(0) && Observed() == World(seq(26, i => Known(0)), [])
    {
      lexer := new Lexer(input, overflow);
      stacks := new Stacks();
      sym := new Value[26](i => Known(0));
      out, yychar, yynerrs, look, calls, whole := [], YYEMPTY, 0, Empty, 0, input.data;
      new;
      HeardNothing(whole, overflow);
      assert sym[..] == seq(26, i => Known(0));
    }

    /** YYLEX */
    method CallLexer(ghost s: Scan) returns (code: int)
      requires Valid() && s == lexer.Ahead()
      modifies lexer, lexer.ch_buf, lexer.source
      ensures Separate() && stacks.Valid() && lexer.Valid() && Moved()
      ensures code == (if s.End? then YYEOF else Code(s.t)) && lexer.complaints == old(lexer.complaints) + s.errs
      ensures lexer.Rest() == if s.End? then [] else s.rest
      ensures lexer.yylval == if s.End? then old(lexer.yylval) else Lval(s.t, old(lexer.yylval))
    {
      code := lexer.Lex();
    }

    lemma NextHeard(s: Scan)
      requires Listening() && s == lexer.Ahead()
      ensures Heard(whole, lexer.big, calls + 1) ==
              Progress(if s.End? then [] else s.rest, lexer.complaints + s.errs)
    {
      HeardNext(whole, lexer.big, calls, s);
    }

    /** yychar = YYLEX */
    method Listen(ghost s: Scan, ghost p: Progress)
      requires Valid() && look == Empty && s == lexer.Ahead()
      requires p == Progress(if s.End? then [] else s.rest, lexer.complaints + s.errs)
      modifies this`yychar, this`look, this`calls, lexer, lexer.ch_buf, lexer.source
      ensures Valid() && Moved() && look == (if s.End? then Eof else Tok(s.t)) && calls == old(calls) + 1
      ensures lexer.Rest() == p.rest && lexer.complaints == p.errs
      ensures lexer.yylval == if s.End? then old(lexer.yylval) else Lval(s.t, old(lexer.yylval))
    {
      yychar := CallLexer(s);
      look := if s.End? then Eof else Tok(s.t);
      calls := calls + 1;
    }

    /** Read a token into the empty lookahead. */
    method NextLook(ghost d: Config)
      requires Valid() && Listening() && look == Empty && d == Fill(Conf())
      modifies this`yychar, this`look, this`calls, lexer, lexer.ch_buf, lexer.source
      ensures Valid() && Moved() && Listening() && Conf() == d && look != Empty
    {
      ghost var s := lexer.Ahead();
      FillNext(Conf(), lexer.Rest(), lexer.big, s);
      NextHeard(s);
      Listen(s, Heard(whole, lexer.big, calls + 1));
    }

    /** Get a lookahead token if there is none. */
    method ReadToken(ghost d: Config)
      requires Valid() && Listening() && d == Fill(Conf())
      modifies this`yychar, this`look, this`calls, lexer, lexer.ch_buf, lexer.source
      ensures Valid() && Moved() && Listening() && Conf() == d && look != Empty
    {
      if yychar == YYEMPTY {
        NextLook(d);
      }
    }

    /** The fields are where step `st` leads: on to a configuration, or out with a result. */
    ghost predicate At(st: Step, r: Exit, errors: nat)
      reads Repr()
    {
      match st
      case Next(c) => r == Running && Valid() && Conf() == c && yynerrs == errors
      case Done(v) =>
        r == Returned(v.code) && Observed() == v.w && yynerrs == errors + v.nerrs && calls == v.calls
      case Stuck => false
    }

    /** yynewstate. */
    method Enter(s: int, v: Value, ghost st: Step) returns (r: Exit)
      requires Valid() && st == Push(Conf(), s, v)
      modifies stacks.Repr()
      ensures Moved() && At(st, r, yynerrs)
    {
      var ok := stacks.Push(s, v);
      r := if ok then Running else Returned(2);
    }

    /** The semantic action of `rule` on the values of its right-hand side: `$$`, and the print or the assignment. */
    method RuleAction(rule: nat, a: seq<Value>) returns (yyval: Value)
      requires rule <= YYNRULES && |a| == yyr2(rule) && IndexOk(rule, a) && sym.Length == 26
      modifies this`out, sym
      ensures yyval == Result(rule, a, old(sym[..])) && Observed() == Effect(rule, a, old(Observed()))
    {
      yyval := if |a| == 0 then Undefined else a[0];
      match rule {
        case 4 => out := out + [a[0]];
        case 5 => sym[a[0].n] := a[2];
        case 7 => yyval := sym[a[0].n];
        case 8 => yyval := Apply(Add, a[0], a[2]);
        case 9 => yyval := Apply(Sub, a[0], a[2]);
        case 10 => yyval := Apply(Mul, a[0], a[2]);
        case 11 => yyval := Apply(Div, a[0], a[2]);
        case 12 => yyval := a[1];
        case _ =>
      }
    }

    /** The action in place: its operands are the topmost values of the stack. */
    method SemanticAction(rule: nat) returns (yyval: Value)
      requires Valid() && CanReduce(Conf(), rule)
      modifies this`out, sym
      ensures Valid()
      ensures var c := old(Conf()); var a := c.vs[|c.ss| - yyr2(rule)..];
              yyval == Result(rule, a, c.w.sym) && Conf() == c.(w := Effect(rule, a, c.w))
    {
      var n := stacks.top + 1;
      var a := stacks.yyvs[n - yyr2(rule)..n];
      ghost var c := Conf();
      assert c.vs[n - yyr2(rule)..] == a;
      yyval := RuleAction(rule, a);
    }

    /** YYPOPSTACK on both stacks. */
    method Drop(n: nat)
      requires Valid() && n <= stacks.top
      modifies stacks`top
      ensures Valid()
      ensures var c := old(Conf()); Conf() == c.(ss := c.ss[..|c.ss| - n], vs := c.vs[..|c.vs| - n])
      ensures stacks.yyss[stacks.top] == old(Conf()).ss[|old(Conf()).ss| - n - 1]
    {
      stacks.Pop(n);
      assert stacks.yyss[stacks.top] == stacks.States()[stacks.top];
    }

    /** The action, and its right-hand side off the stacks. */
    method PopRule(rule: nat) returns (yyval: Value, base: int)
      requires Valid() && CanReduce(Conf(), rule)
      modifies this`out, sym, stacks`top
      ensures Valid() && Conf() == Popped(old(Conf()), rule)
      ensures var c := old(Conf()); var n := |c.ss| - yyr2(rule);
              base == c.ss[n - 1] && yyval == Result(rule, c.vs[n..], c.w.sym)
    {
      yyval := SemanticAction(rule);
      Drop(yyr2(rule));
      base := stacks.yyss[stacks.top];
    }

    /** yyreduce. */
    method ReduceRule(rule: nat, ghost st: Step) returns (r: Exit)
      requires Valid() && CanReduce(Conf(), rule) && st == ReduceBy(Conf(), rule)
      modifies this`out, sym, stacks.Repr()
      ensures Moved() && At(st, r, old(yynerrs))
    {
      ReducePushes(Conf(), rule, |Conf().ss| - yyr2(rule));
      var yyval, base := PopRule(rule);
      r := Enter(Goto(base, rule), yyval, st);
    }

    /** yyerrlab and yyerrlab1, entered with no error pending: no state can shift the error token, so
        everything is popped and the parse is abandoned. */
    method Recover() returns (r: Exit)
      requires Valid() && stacks.InRange()
      modifies this`yynerrs, stacks`top
      ensures r == Returned(1) && yynerrs == old(yynerrs) + 1
      ensures stacks.top == 0
    {
      yynerrs := yynerrs + 1;
      while true
        modifies stacks`top
        invariant stacks.Valid() && stacks.InRange()
        decreases stacks.top
      {
        var yystate := stacks.yyss[stacks.top];
        assert yystate == stacks.States()[stacks.top];
        var yyn := yypact(yystate);
        if yyn != YYPACT_NINF {
          yyn := yyn + YYTERROR;
          assert 0 <= yyn <= YYLAST ==> yycheck(yyn) != YYTERROR;
        }
        if stacks.top == 0 {
          return Returned(1);
        }
        stacks.Pop(1);
      }
    }

    /** Forget the lookahead token unless it is the end of the input. */
    method DropToken()
      requires Valid()
      modifies this`yychar, this`look
      ensures Valid()
      ensures var c := old(Conf()); Conf() == c.(look := if c.look.Tok? then Empty else c.look)
    {
      if yychar != YYEOF {
        yychar := YYEMPTY;
        look := Empty;
      }
    }

    /** Shift the lookahead token. */
    method ShiftToken(s: int, ghost st: Step) returns (r: Exit)
      requires Valid() && st == Act(Conf(), Shift(s))
      modifies this`yychar, this`look, stacks.Repr()
      ensures Moved() && At(st, r, old(yynerrs))
    {
      DropToken();
      r := Enter(s, lexer.yylval, st);
    }

    /** The decision of yybackup, read off the tables. */
    method Choose(yystate: int) returns (a: Action)
      requires Valid() && State(yystate) && look != Empty
      ensures a == Decide(yystate, Symbol(look))
    {
      var yytoken := if yychar <= YYEOF then YYEOF else Translate(yychar);
      a := ReadTables(yystate, yytoken);
    }

    method Execute(a: Action, ghost st: Step) returns (r: Exit)
      requires Valid() && stacks.InRange() && st == Act(Conf(), a) && st != Stuck
      modifies this`out, this`yychar, this`look, this`yynerrs, sym, stacks.Repr()
      ensures Moved() && At(st, r, old(yynerrs))
    {
      match a {
        case Accept => r := Returned(0);
        case Fail => r := Recover();
        case Reduce(rule) => r := ReduceRule(rule, st);
        case Shift(s) => r := ShiftToken(s, st);
      }
    }

    /** The action with the next token in sight. */
    method LookAhead(yystate: int, ghost d: Config) returns (a: Action)
      requires Valid() && Listening() && State(yystate) && d == Fill(Conf())
      modifies this`yychar, this`look, this`calls, lexer, lexer.ch_buf, lexer.source
      ensures Valid() && Moved() && Listening() && Conf() == d && a == Decide(yystate, Symbol(d.look))
    {
      ReadToken(d);
      a := Choose(yystate);
    }

    /** yybackup: what to do next, with a lookahead only if that is needed. */
    method Backup(ghost st: Step) returns (a: Action)
      requires Valid() && Listening() && stacks.InRange() && st == Move(Conf())
      modifies this`yychar, this`look, this`calls, lexer, lexer.ch_buf, lexer.source
      ensures Valid() && Moved() && Listening() && st == Act(Conf(), a)
    {
      var yystate := stacks.yyss[stacks.top];
      ghost var c := Conf();
      assert yystate == c.ss[|c.ss| - 1];
      if Consistent(yystate) {
        MoveBlind(c, yystate);
        a := Default(yystate);
      } else {
        MoveSighted(c, yystate, Fill(c));
        a := LookAhead(yystate, Fill(c));
      }
    }

    /** One turn, from yybackup to the next yybackup or to a return. */
    method Turn(ghost st: Step) returns (r: Exit)
      requires Valid() && Listening() && stacks.InRange() && st == Move(Conf()) && st != Stuck
      modifies Repr()
      ensures Moved() && Listening() && At(st, r, old(yynerrs))
    {
      var a := Backup(st);
      r := Execute(a, st);
    }

    /** A turn seen from the run it belongs to. */
    method Advance(ghost sh: Shape, ghost ts: seq<Token>, ghost w0: World) returns (r: Exit, ghost sh': Shape)
      requires Valid() && Listening() && yynerrs == 0 && Tracked(Conf(), sh, ts, w0)
      modifies Repr()
      ensures Moved() && Listening()
      ensures r.Returned? ==>
        Verdict(r.code, yynerrs, Observed(), calls) == Run(old(Conf()), sh, ts, w0)
      ensures r == Running ==>
        Valid() && yynerrs == 0 && Tracked(Conf(), sh', ts, w0) && Measure(Conf(), sh') < Measure(old(Conf()), sh) &&
        Run(Conf(), sh', ts, w0) == Run(old(Conf()), sh, ts, w0)
    {
      ghost var c := Conf();
      RunTurns(c, sh, ts, w0);
      StatesInRange(c, sh);
      sh' := if TurnOf(c, sh).Go? then TurnOf(c, sh).sh else sh;
      r := Turn(Move(c));
    }

    /** yyparse: it always returns, and its result, its error count, what it prints, what it leaves in `sym` and how
        often it calls yylex are those of the run over the tokens of the whole input; so is what yylex complains of. */
    method ParseInput() returns (code: int)
      requires Valid() && stacks.States() == [0] && stacks.Values() == [Undefined] && look == Empty && yynerrs == 0
      requires Listening() && calls == 0
      modifies Repr()
      ensures Ready(old(Observed()))
      ensures Verdict(code, yynerrs, Observed(), calls) ==
              Parse(Tokens(old(lexer.Rest()), lexer.big), old(lexer.yylval), old(Observed()))
      ensures lexer.complaints == Heard(old(lexer.Rest()), lexer.big, calls).errs
    {
      ghost var ts, w0, sh := Conf().rest, Observed(), Start;
      InitialTracked(ts, lexer.yylval, w0);
      HeardNothing(whole, lexer.big);
      assert Conf() == Initial(ts, lexer.yylval, w0);
      ghost var v := Parse(ts, lexer.yylval, w0);
      while true
        invariant Valid() && Moved() && Listening() && yynerrs == 0
        invariant Tracked(Conf(), sh, ts, w0) && Run(Conf(), sh, ts, w0) == v
        decreases Measure(Conf(), sh)
      {
        MovedRepr();
        var r;
        r, sh := Advance(sh, ts, w0);
        if r.Returned? {
          return r.code;
        }
      }
    }
  }
}
