/** The compressed DFA of packetdrill/lex.yy.c. */
module LexTables {
  import opened LexRules

  const YY_END_OF_BUFFER := 7
  const YY_JAM := 11
  const YY_JAM_BASE := 9

  /** yy_ec, run-length decoded; class 0 belongs to the end-of-buffer byte alone. */
  function yy_ec(b: byte): int {
    if b == 0 then 0
    else if b == 9 || b == 32 then 2
    else if b == 10 then 3
    else if 40 <= b <= 43 || b == 45 || b == 47 || b == 61 then 4
    else if 48 <= b <= 57 then 5
    else if 97 <= b <= 122 then 6
    else 1
  }

  function yy_accept(i: int): int
    requires 0 <= i < 12
  {
    match i
    case 0 => 0 case 1 => 0 case 2 => 0 case 3 => 7 case 4 => 5 case 5 => 4 case 6 => 3 case 7 => 3 case 8 => 2
    case 9 => 1 case 10 => 2
    case _ => 0
  }

  function yy_meta(i: int): int
    requires 0 <= i < 7
  {
    match i
    case 0 => 0 case 1 => 1 case 2 => 1 case 3 => 1 case 4 => 1 case 5 => 2
    case _ => 1
  }

  function yy_base(i: int): int
    requires 0 <= i < 13
  {
    match i
    case 0 => 0 case 1 => 0 case 2 => 0 case 3 => 8 case 4 => 9 case 5 => 9 case 6 => 9 case 7 => 9 case 8 => 0
    case 9 => 9 case 10 => 0 case 11 => 9
    case _ => 5
  }

  function yy_def(i: int): int
    requires 0 <= i < 13
  {
    match i
    case 0 => 0 case 1 => 11 case 2 => 1 case 3 => 11 case 4 => 11 case 5 => 11 case 6 => 11 case 7 => 11
    case 8 => 12 case 9 => 11 case 10 => 12 case 11 => 0
    case _ => 11
  }

  function yy_nxt(i: int): int
    requires 0 <= i < 16
  {
    match i
    case 0 => 0 case 1 => 4 case 2 => 5 case 3 => 6 case 4 => 7 case 5 => 8 case 6 => 9 case 7 => 10
    case 8 => 11 case 9 => 3 case 10 => 11 case 11 => 11 case 12 => 11 case 13 => 11 case 14 => 11
    case _ => 11
  }

  function yy_chk(i: int): int
    requires 0 <= i < 16
  {
    match i
    case 0 => 0 case 1 => 1 case 2 => 1 case 3 => 1 case 4 => 1 case 5 => 1 case 6 => 1 case 7 => 12 case 8 => 3
    case 9 => 11 case 10 => 11 case 11 => 11 case 12 => 11 case 13 => 11 case 14 => 11
    case _ => 11
  }

  predicate DfaState(s: int) { 1 <= s <= 12 && s != 2 }

  predicate Class(c: int) { 0 <= c <= 6 }

  function Rank(s: int): nat { if s == 11 then 0 else if s == 8 || s == 10 then 2 else 1 }

  /** The transition that the inner loop finds by following `yy_def`. */
  function Trans(s: int, c: int): (t: int)
    requires DfaState(s) && Class(c)
    decreases Rank(s)
  {
    if yy_chk(yy_base(s) + c) == s then yy_nxt(yy_base(s) + c)
    else
      var d := yy_def(s);
      Trans(d, if d >= 12 then yy_meta(c) else c)
  }
}
