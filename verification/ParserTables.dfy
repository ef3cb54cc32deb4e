/** The constant tables of packetdrill/calc.tab.c and the two decisions read off them. */
module ParserTables {

  const YYFINAL := 2
  const YYLAST := 31
  const YYNTOKENS := 13
  const YYNRULES := 12
  const YYNSTATES := 22
  const YYMAXUTOK := 259
  const YYUNDEFTOK := 2
  const YYTERROR := 1
  const YYPACT_NINF := -7
  const YYTABLE_NINF := -1

  /** yytranslate, run-length decoded: every number that is not listed is the undefined token. */
  function Translate(code: int): int {
    if code < 0 || YYMAXUTOK < code then YYUNDEFTOK
    else match code
      case 0 => 0
      case 10 => 9
      case 40 => 11
      case 41 => 12
      case 42 => 7
      case 43 => 5
      case 45 => 6
      case 47 => 8
      case 61 => 10
      case 256 => 1
      case 258 => 3
      case 259 => 4
      case _ => YYUNDEFTOK
  }

  function yyr1(i: int): int
    requires 0 <= i < 13
  {
    match i
    case 0 => 0 case 1 => 13 case 2 => 14 case 3 => 14 case 4 => 15 case 5 => 15 case 6 => 16 case 7 => 16
    case 8 => 16 case 9 => 16 case 10 => 16 case 11 => 16
    case _ => 16
  }

  function yyr2(i: int): nat
    requires 0 <= i < 13
  {
    match i
    case 0 => 0 case 1 => 2 case 2 => 3 case 3 => 0 case 4 => 1 case 5 => 3 case 6 => 1 case 7 => 1 case 8 => 3
    case 9 => 3 case 10 => 3 case 11 => 3
    case _ => 3
  }

  function yydefact(i: int): nat
    requires 0 <= i < 22
  {
    match i
    case 0 => 3 case 1 => 0 case 2 => 1 case 3 => 6 case 4 => 7 case 5 => 0 case 6 => 0 case 7 => 4 case 8 => 0
    case 9 => 7 case 10 => 0 case 11 => 2 case 12 => 0 case 13 => 0 case 14 => 0 case 15 => 0 case 16 => 5
    case 17 => 12 case 18 => 8 case 19 => 9 case 20 => 10
    case _ => 11
  }

  function yydefgoto(i: int): int
    requires 0 <= i < 4
  {
    match i
    case 0 => -1 case 1 => 1 case 2 => 6
    case _ => 7
  }

  function yypact(i: int): int
    requires 0 <= i < 22
  {
    match i
    case 0 => -7 case 1 => 0 case 2 => -7 case 3 => -7 case 4 => -5 case 5 => 14 case 6 => -2 case 7 => 23
    case 8 => 14 case 9 => -7 case 10 => 15 case 11 => -7 case 12 => 14 case 13 => 14 case 14 => 14 case 15 => 14
    case 16 => 23 case 17 => -7 case 18 => -6 case 19 => -6 case 20 => -7
    case _ => -7
  }

  function yypgoto(i: int): int
    requires 0 <= i < 4
  {
    match i
    case 0 => -7 case 1 => -7 case 2 => -7
    case _ => 1
  }

  function yytable(i: int): int
    requires 0 <= i < 32
  {
    match i
    case 0 => 2 case 1 => 14 case 2 => 15 case 3 => 3 case 4 => 4 case 5 => 8 case 6 => 10 case 7 => 11 case 8 => 0
    case 9 => 16 case 10 => 0 case 11 => 5 case 12 => 0 case 13 => 18 case 14 => 19 case 15 => 20 case 16 => 21
    case 17 => 3 case 18 => 9 case 19 => 0 case 20 => 12 case 21 => 13 case 22 => 14 case 23 => 15 case 24 => 0
    case 25 => 5 case 26 => 0 case 27 => 17 case 28 => 12 case 29 => 13 case 30 => 14
    case _ => 15
  }

  function yycheck(i: int): int
    requires 0 <= i < 32
  {
    match i
    case 0 => 0 case 1 => 7 case 2 => 8 case 3 => 3 case 4 => 4 case 5 => 10 case 6 => 5 case 7 => 9 case 8 => -1
    case 9 => 8 case 10 => -1 case 11 => 11 case 12 => -1 case 13 => 12 case 14 => 13 case 15 => 14 case 16 => 15
    case 17 => 3 case 18 => 4 case 19 => -1 case 20 => 5 case 21 => 6 case 22 => 7 case 23 => 8 case 24 => -1
    case 25 => 11 case 26 => -1 case 27 => 12 case 28 => 5 case 29 => 6 case 30 => 7
    case _ => 8
  }

  function yystos(i: int): int
    requires 0 <= i < 22
  {
    match i
    case 0 => 0 case 1 => 14 case 2 => 0 case 3 => 3 case 4 => 4 case 5 => 11 case 6 => 15 case 7 => 16
    case 8 => 10 case 9 => 4 case 10 => 16 case 11 => 9 case 12 => 5 case 13 => 6 case 14 => 7 case 15 => 8
    case 16 => 16 case 17 => 12 case 18 => 16 case 19 => 16 case 20 => 16
    case _ => 16
  }

  datatype Action = Shift(state: int) | Reduce(rule: nat) | Accept | Fail

  predicate State(s: int) { 0 <= s < YYNSTATES }

  /** A state whose action does not depend on the lookahead. */
  predicate Consistent(s: int)
    requires State(s)
  {
    yypact(s) == YYPACT_NINF
  }

  function Default(s: int): Action
    requires State(s)
  {
    if yydefact(s) == 0 then Fail else Reduce(yydefact(s))
  }

  /** What an entry of `yytable` says. */
  function Entry(a: int): Action {
    if a <= 0 then (if a == 0 || a == YYTABLE_NINF then Fail else Reduce(-a))
    else if a == YYFINAL then Accept
    else Shift(a)
  }

  /** The decision of `yybackup` once the lookahead is symbol `t`. */
  function Decide(s: int, t: int): Action
    requires State(s)
  {
    var n := yypact(s) + t;
    if n < 0 || YYLAST < n || yycheck(n) != t then Default(s)
    else Entry(yytable(n))
  }

  /** The state entered after a reduction by `rule` uncovers state `s`. */
  function Goto(s: int, rule: nat): int
    requires 2 <= rule <= YYNRULES
  {
    var n := yyr1(rule) - YYNTOKENS;
    var q := yypgoto(n) + s;
    if 0 <= q <= YYLAST && yycheck(q) == s then yytable(q) else yydefgoto(n)
  }
}
