/** `yyparse` of packetdrill/calc.tab.c as a transition function on whole configurations. */
module Engine {
  import opened Arithmetic
  import opened Grammar
  import opened ParserTables

  const YYMAXDEPTH := 10000

  /** `yychar`: nothing read yet, end of input, or a token. */
  datatype Look = Empty | Eof | Tok(t: Token)

  datatype Config = Config(
    ss: seq<int>,        // state stack, bottom first
    vs: seq<Value>,      // value stack; its bottom element is never used
    look: Look,
    rest: seq<Token>,    // what yylex has not returned yet
    lval: Value,         // the global yylval
    w: World,
    calls: nat)          // calls of yylex so far

  /** What a finished call leaves behind: its result, `yynerrs`, the world, and how often it has called `yylex`. */
  datatype Verdict = Verdict(code: int, nerrs: nat, w: World, calls: nat)

  datatype Step = Next(c: Config) | Done(v: Verdict) | Stuck

  function Code(t: Token): int {
    match t case INTEGER(_) => 258 case VARIABLE(_) => 259 case CHAR(c) => c
  }

  /** `yylex` assigns `yylval` for integers and variables only. */
  function Lval(t: Token, before: Value): Value {
    match t case INTEGER(n) => Known(n) case VARIABLE(i) => Known(i) case CHAR(_) => before
  }

  function Symbol(l: Look): int {
    if l.Tok? then Translate(Code(l.t)) else 0
  }

  /** Read a token when there is no lookahead. */
  function Fill(c: Config): Config {
    if c.look != Empty then c
    else if c.rest == [] then c.(look := Eof, calls := c.calls + 1)
    else c.(look := Tok(c.rest[0]), rest := c.rest[1..], lval := Lval(c.rest[0], c.lval), calls := c.calls + 1)
  }

  function Pending(c: Config): seq<Token> {
    (if c.look.Tok? then [c.look.t] else []) + c.rest
  }

  /** `yynewstate`: push, and give up when the stack cannot grow any further. */
  function Push(c: Config, s: int, v: Value): Step {
    if |c.ss| + 1 >= YYMAXDEPTH then Done(Verdict(2, 0, c.w, c.calls))
    else Next(c.(ss := c.ss + [s], vs := c.vs + [v]))
  }

  /** Rules 5 and 7 index `sym` with the value of a VARIABLE; anything else would be outside the array. */
  predicate IndexOk(rule: nat, a: seq<Value>)
    requires rule <= YYNRULES && |a| == yyr2(rule)
  {
    rule == 5 || rule == 7 ==> a[0].Known? && 0 <= a[0].n < 26
  }

  /** `$$` of `rule`, given the values of its right-hand side. */
  function Result(rule: nat, a: seq<Value>, sym: seq<Value>): Value
    requires rule <= YYNRULES && |a| == yyr2(rule) && IndexOk(rule, a) && |sym| == 26
  {
    match rule
    case 7 => sym[a[0].n]
    case 8 => Apply(Add, a[0], a[2])
    case 9 => Apply(Sub, a[0], a[2])
    case 10 => Apply(Mul, a[0], a[2])
    case 11 => Apply(Div, a[0], a[2])
    case 12 => a[1]
    case _ => if |a| == 0 then Undefined else a[0]
  }

  /** The print of rule 4 and the assignment of rule 5. */
  function Effect(rule: nat, a: seq<Value>, w: World): (w': World)
    requires rule <= YYNRULES && |a| == yyr2(rule) && IndexOk(rule, a) && Ready(w)
    ensures Ready(w')
  {
    match rule
    case 4 => w.(out := w.out + [a[0]])
    case 5 => w.(sym := w.sym[a[0].n := a[2]])
    case _ => w
  }

  /** Whether a reduction finds its right-hand side on the stacks and stays inside `sym`. */
  predicate CanReduce(c: Config, rule: nat) {
    && 2 <= rule <= YYNRULES && |c.vs| == |c.ss| && |c.ss| > yyr2(rule) && Ready(c.w)
    && IndexOk(rule, c.vs[|c.ss| - yyr2(rule)..])
  }

  function ReduceBy(c: Config, rule: nat): Step {
    if !CanReduce(c, rule) then Stuck
    else
      var n := |c.ss| - yyr2(rule);
      var a := c.vs[n..];
      Push(c.(ss := c.ss[..n], vs := c.vs[..n], w := Effect(rule, a, c.w)),
           Goto(c.ss[n - 1], rule), Result(rule, a, c.w.sym))
  }

  /** From one `yybackup` to the next. */
  function Move(c: Config): Step {
    if |c.ss| == 0 || !State(c.ss[|c.ss| - 1]) then Stuck
    else
      var s := c.ss[|c.ss| - 1];
      if Consistent(s) then Act(c, Default(s))
      else var d := Fill(c); Act(d, Decide(s, Symbol(d.look)))
  }

  function Act(c: Config, a: Action): Step {
    match a
    case Accept => Done(Verdict(0, 0, c.w, c.calls))
    case Fail => Done(Verdict(1, 1, c.w, c.calls))   // the error loop pops everything and aborts
    case Reduce(rule) => ReduceBy(c, rule)
    case Shift(s) => Push(c.(look := if c.look.Tok? then Empty else c.look), s, c.lval)
  }

  function Initial(ts: seq<Token>, lval: Value, w: World): Config {
    Config([0], [Undefined], Empty, ts, lval, w, 0)
  }
}
