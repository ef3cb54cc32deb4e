/** How high the parser's stack is after a token, said of the tokens alone: per open parenthesis it matters only
    whether the left operand of a sum and the left operand of a product are waiting. */
module Heights {
  import opened Grammar

  /** The operands waiting at one level of parentheses. */
  datatype Level = Level(sum: bool, prod: bool)

  /** The levels around the current one, the innermost last. */
  datatype Levels = Outermost | Within(outer: Levels, l: Level)

  /** The line so far: whether it is an assignment, the levels around the current one, and the current one. */
  datatype Gauge = Gauge(assign: bool, outer: Levels, here: Level)

  const CALM := Level(false, false)
  const CLEAR := Gauge(false, Outermost, CALM)

  /** The gauge after one more token; an operator takes in the operands that bind at least as tightly. */
  function Advance(g: Gauge, t: Token): Gauge {
    if t == LPAREN then Gauge(g.assign, Within(g.outer, g.here), CALM)
    else if t == RPAREN && g.outer.Within? then Gauge(g.assign, g.outer.outer, g.outer.l)
    else if t == PLUS || t == MINUS then g.(here := Level(true, false))
    else if t == TIMES || t == SLASH then g.(here := Level(g.here.sum, true))
    else if t == EQUALS then g.(assign := true)
    else if t == NEWLINE then CLEAR
    else g
  }

  function Gauged(ts: seq<Token>): Gauge {
    if ts == [] then CLEAR else Advance(Gauged(ts[..|ts| - 1]), ts[|ts| - 1])
  }

  /** A waiting operand takes a state and so does its operator. */
  function LevelSize(l: Level): nat { (if l.sum then 2 else 0) + (if l.prod then 2 else 0) }

  function OuterSize(ls: Levels): nat {
    match ls case Outermost => 0 case Within(outer, l) => OuterSize(outer) + LevelSize(l) + 1
  }

  /** Two states at the bottom, two for an assignment, and the levels with one state per open parenthesis. */
  function Size(g: Gauge): nat { 2 + (if g.assign then 2 else 0) + OuterSize(g.outer) + LevelSize(g.here) }

  /** The number of states just after token `t` has led to gauge `g`. */
  function SizeAfter(g: Gauge, t: Token): nat {
    if t.INTEGER? || t.VARIABLE? then Size(g) + 1
    else if t == RPAREN then Size(g) + 3      // the parentheses and what they enclose
    else if t == NEWLINE then Size(g) + 2     // the statement and the newline
    else Size(g)
  }

  /** The number of states just after the last token of `ts`. */
  function Height(ts: seq<Token>): nat {
    if ts == [] then Size(CLEAR) else SizeAfter(Gauged(ts), ts[|ts| - 1])
  }

  lemma GaugedStep(ts: seq<Token>, t: Token)
    ensures Gauged(ts + [t]) == Advance(Gauged(ts), t)
    ensures Height(ts + [t]) == SizeAfter(Advance(Gauged(ts), t), t)
  {
    assert (ts + [t])[..|ts|] == ts;
  }
}
