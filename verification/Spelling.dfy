/** Tokens written out as text, and read back by the rules of packetdrill/calc.l. */
module Spelling {
  import opened Arithmetic
  import opened Grammar
  import opened LexRules

  // ---- numbers ----

  /** The decimal numeral of `n`, most significant digit first. */
  function Numeral(n: nat): seq<byte> {
    if n < 10 then [48 + n] else Numeral(n / 10) + [48 + n % 10]
  }

  function Pow10(k: nat): nat { if k == 0 then 1 else 10 * Pow10(k - 1) }

  lemma AppendDigit(a: seq<byte>, d: byte)
    requires AllDigits(a) && Digit(d)
    ensures AllDigits(a + [d]) && Decimal(a + [d]) == 10 * Decimal(a) + (d - 48)
  {
    assert (a + [d])[..|a|] == a;
  }

  lemma PlacesStep(x: nat, p: nat, y: nat, d: int)
    ensures 10 * (x * p + y) + d == x * (10 * p) + (10 * y + d)
  {
    assert x * (10 * p) == 10 * (x * p);
  }

  /** Digits count by their places. */
  lemma {:induction false} DecimalConcat(a: seq<byte>, b: seq<byte>)
    requires AllDigits(a) && AllDigits(b)
    ensures AllDigits(a + b) && Decimal(a + b) == Decimal(a) * Pow10(|b|) + Decimal(b)
    decreases |b|
  {
    if b == [] {
      assert a + b == a;
    } else {
      var b', d := b[..|b| - 1], b[|b| - 1];
      DecimalConcat(a, b');
      AppendDigit(a + b', d);
      AppendDigit(b', d);
      assert a + b == a + b' + [d] && b == b' + [d];
      PlacesStep(Decimal(a), Pow10(|b'|), Decimal(b'), d - 48);
    }
  }

  lemma {:induction false} NumeralDecimal(n: nat)
    ensures |Numeral(n)| > 0 && AllDigits(Numeral(n)) && Decimal(Numeral(n)) == n
  {
    if n >= 10 {
      NumeralDecimal(n / 10);
      AppendDigit(Numeral(n / 10), 48 + n % 10);
    } else {
      assert [48 + n][..0] == [];
    }
  }

  // ---- tokens ----

  /** The tokens that some text stands for. */
  predicate Spellable(t: Token) {
    match t
    case INTEGER(n) => n >= 0
    case VARIABLE(_) => true
    case CHAR(c) => c in {10, 40, 41, 42, 43, 45, 47, 61}
  }

  function Spell(t: Token): seq<byte>
    requires Spellable(t)
  {
    match t
    case INTEGER(n) => Numeral(n)
    case VARIABLE(i) => [97 + i]
    case CHAR(c) => [c]
  }

  /** Only two numbers in a row need a blank between them. */
  function Gap(ts: seq<Token>): seq<byte> {
    if |ts| > 1 && ts[0].INTEGER? && ts[1].INTEGER? then [32] else []
  }

  function SpellAll(ts: seq<Token>): seq<byte>
    requires forall t | t in ts :: Spellable(t)
  {
    if ts == [] then [] else Spell(ts[0]) + Gap(ts) + SpellAll(ts[1..])
  }

  lemma {:induction false} DigitRunIs(w: seq<byte>, rest: seq<byte>)
    requires AllDigits(w) && (rest == [] || !Digit(rest[0]))
    ensures DigitRun(w + rest) == |w|
    decreases |w|
  {
    if w == [] {
      assert w + rest == rest;
    } else {
      assert (w + rest)[1..] == w[1..] + rest;
      DigitRunIs(w[1..], rest);
    }
  }

  lemma TokensStep(text: seq<byte>, big: Overflow, n: nat, rule: int)
    requires text != [] && (n, rule) == Lexeme(text)
    ensures Matches(rule, text[..n])
    ensures Tokens(text, big) ==
            (if rule <= 3 then [TokenOf(rule, text[..n], big)] else []) + Tokens(text[n..], big)
  {
    FirstStep(text, big, n, rule);
    if rule > 3 { SkipTokens(text, text[n..], big, if rule == 5 then 1 else 0); }
  }

  lemma SkipTokens(text: seq<byte>, rest: seq<byte>, big: Overflow, k: nat)
    requires NextToken(text, big) == MoreErrors(NextToken(rest, big), k)
    ensures Tokens(text, big) == [] + Tokens(rest, big)
  {
  }

  lemma NumberLexeme(n: int32, rest: seq<byte>, big: Overflow)
    requires n >= 0 && (rest == [] || !Digit(rest[0]))
    ensures var w := Numeral(n); w + rest != [] && Lexeme(w + rest) == (|w|, 2)
    ensures Matches(2, Numeral(n)) && TokenOf(2, Numeral(n), big) == INTEGER(n)
  {
    NumeralDecimal(n);
    DigitRunIs(Numeral(n), rest);
    assert (Numeral(n) + rest)[0] == Numeral(n)[0];
  }

  /** A token's spelling is read as the token. */
  lemma SpelledToken(t: Token, rest: seq<byte>, big: Overflow)
    requires Spellable(t) && (t.INTEGER? && rest != [] ==> !Digit(rest[0]))
    ensures Tokens(Spell(t) + rest, big) == [t] + Tokens(rest, big)
  {
    var w := Spell(t);
    if t.INTEGER? {
      NumberLexeme(t.n, rest, big);
      assert (w + rest)[..|w|] == w && (w + rest)[|w|..] == rest;
      TokensStep(w + rest, big, |w|, 2);
    } else {
      SingleByte(t, w[0], rest, big);
    }
  }

  lemma SingleByte(t: Token, b: byte, rest: seq<byte>, big: Overflow)
    requires Spellable(t) && !t.INTEGER? && Spell(t) == [b]
    ensures Tokens([b] + rest, big) == [t] + Tokens(rest, big)
  {
    assert ([b] + rest)[..1] == [b] && ([b] + rest)[1..] == rest;
    TokensStep([b] + rest, big, 1, if t.VARIABLE? then 1 else 3);
  }

  /** A byte that is no letter, digit or operator is no token. */
  lemma SkippedByte(b: byte, rest: seq<byte>, big: Overflow)
    requires !(97 <= b <= 122) && !(48 <= b <= 57) && b !in {10, 40, 41, 42, 43, 45, 47, 61}
    ensures Tokens([b] + rest, big) == Tokens(rest, big)
  {
    assert ([b] + rest)[1..] == rest;
    TokensStep([b] + rest, big, 1, RuleOf(b));
  }

  lemma FirstByte(ts: seq<Token>)
    requires ts != [] && forall t | t in ts :: Spellable(t)
    ensures SpellAll(ts) != [] && (Digit(SpellAll(ts)[0]) <==> ts[0].INTEGER?)
  {
    assert Spellable(ts[0]);
    if ts[0].INTEGER? { NumeralDecimal(ts[0].n); }
    assert SpellAll(ts)[0] == Spell(ts[0])[0];
  }

  lemma OneMore(t: Token, gap: seq<byte>, rest: seq<byte>, big: Overflow)
    requires Spellable(t) && (gap == [] || gap == [32])
    requires t.INTEGER? && gap == [] && rest != [] ==> !Digit(rest[0])
    ensures Tokens(Spell(t) + gap + rest, big) == [t] + Tokens(rest, big)
  {
    assert Spell(t) + gap + rest == Spell(t) + (gap + rest);
    if gap == [] {
      assert gap + rest == rest;
    } else {
      SkippedByte(32, rest, big);
    }
    SpelledToken(t, gap + rest, big);
  }

  /** Whatever is written is read back: the scanner's tokens of a spelling are the tokens spelled. */
  lemma {:induction false} ReadBack(ts: seq<Token>, big: Overflow)
    requires forall t | t in ts :: Spellable(t)
    ensures Tokens(SpellAll(ts), big) == ts
    decreases |ts|
  {
    if ts != [] {
      var t, us := ts[0], ts[1..];
      ReadBack(us, big);
      NextByte(ts, us);
      OneMore(t, Gap(ts), SpellAll(us), big);
      assert [t] + us == ts;
    }
  }

  lemma NextByte(ts: seq<Token>, us: seq<Token>)
    requires ts != [] && us == ts[1..] && forall t | t in ts :: Spellable(t)
    ensures Spellable(ts[0])
    ensures ts[0].INTEGER? && Gap(ts) == [] && SpellAll(us) != [] ==> !Digit(SpellAll(us)[0])
  {
    if us != [] { FirstByte(us); }
  }

  /** Every number that fits, and every letter. */
  lemma LineOfOne(n: int32, i: Name, big: Overflow)
    requires n >= 0
    ensures Tokens(Numeral(n) + [10], big) == [INTEGER(n), NEWLINE]
    ensures Tokens([97 + i] + [10], big) == [VARIABLE(i), NEWLINE]
  {
    SpelledToken(INTEGER(n), [10], big);
    SpelledToken(VARIABLE(i), [10], big);
    SpelledToken(NEWLINE, [], big);
    assert [10] + [] == [10];
  }

  function OpByte(op: Op): byte { match op case Add => 43 case Sub => 45 case Mul => 42 case Div => 47 }

  lemma OpSpelled(op: Op, rest: seq<byte>, big: Overflow)
    ensures Tokens([OpByte(op)] + rest, big) == [OpToken(op)] + Tokens(rest, big)
  {
    SpelledToken(OpToken(op), rest, big);
  }

  lemma NumberSpelled(n: int32, rest: seq<byte>, big: Overflow)
    requires n >= 0 && (rest != [] ==> !Digit(rest[0]))
    ensures Tokens(Numeral(n) + rest, big) == [INTEGER(n)] + Tokens(rest, big)
  {
    SpelledToken(INTEGER(n), rest, big);
  }

  /** A line with one operation. */
  lemma OperationRead(op: Op, x: int32, y: int32, big: Overflow)
    requires x >= 0 && y >= 0
    ensures Tokens(Numeral(x) + ([OpByte(op)] + (Numeral(y) + [10])), big) ==
            [INTEGER(x)] + ([OpToken(op)] + [INTEGER(y), NEWLINE])
  {
    var line := Numeral(y) + [10];
    LineOfOne(y, 0, big);
    OpSpelled(op, line, big);
    NumberSpelled(x, [OpByte(op)] + line, big);
  }
}
