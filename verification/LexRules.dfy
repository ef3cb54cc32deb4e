/** packetdrill/calc.l: the five user rules, longest match first, earliest rule on ties, and the token
    sequence of a whole text. */
module LexRules {
  import opened Arithmetic
  import opened Grammar

  type byte = b: int | 0 <= b < 256

  predicate Letter(b: byte) { 97 <= b <= 122 }
  predicate Digit(b: byte) { 48 <= b <= 57 }
  predicate Punct(b: byte) { b in {45, 43, 40, 41, 61, 47, 42, 10} }
  predicate Blank(b: byte) { b == 32 || b == 9 }

  predicate AllDigits(w: seq<byte>) { forall i | 0 <= i < |w| :: Digit(w[i]) }

  /** Whether the pattern of `rule` matches exactly `w`. */
  predicate Matches(rule: int, w: seq<byte>) {
    match rule
    case 1 => |w| == 1 && Letter(w[0])
    case 2 => |w| >= 1 && AllDigits(w)
    case 3 => |w| == 1 && Punct(w[0])
    case 4 => |w| == 1 && Blank(w[0])
    case 5 => |w| == 1 && w[0] != 10
    case _ => false
  }

  /** `rule` is the earliest rule among those that match the longest prefix of `text`, which has `n` bytes. */
  ghost predicate LongestEarliest(text: seq<byte>, n: nat, rule: int) {
    && 0 < n <= |text| && 1 <= rule <= 5
    && Matches(rule, text[..n])
    && (forall m, r | n < m <= |text| && 1 <= r <= 5 :: !Matches(r, text[..m]))
    && (forall r | 1 <= r < rule :: !Matches(r, text[..n]))
  }

  // ---- the same, computed ----

  function DigitRun(text: seq<byte>): (n: nat)
    ensures n <= |text| && AllDigits(text[..n]) && (n < |text| ==> !Digit(text[n]))
  {
    if text == [] || !Digit(text[0]) then 0
    else
      var n := DigitRun(text[1..]);
      assert text[..n + 1] == [text[0]] + text[1..][..n];
      1 + n
  }

  function RuleOf(b: byte): int {
    if Letter(b) then 1 else if Digit(b) then 2 else if Punct(b) then 3 else if Blank(b) then 4 else 5
  }

  /** Length and rule of the first lexeme. */
  function Lexeme(text: seq<byte>): (r: (nat, int))
    requires text != []
    ensures 0 < r.0 <= |text| && 1 <= r.1 <= 5
  {
    (if Digit(text[0]) then DigitRun(text) else 1, RuleOf(text[0]))
  }

  lemma LexemeIsLongestEarliest(text: seq<byte>, n: nat, rule: int)
    requires text != []
    ensures LongestEarliest(text, n, rule) <==> (n, rule) == Lexeme(text)
  {
    var (k, r) := Lexeme(text);
    assert Matches(r, text[..k]);
    forall m, q | k < m <= |text| && 1 <= q <= 5 ensures !Matches(q, text[..m]) {
      if q == 2 {
        assert if Digit(text[0]) then text[..m][k] == text[k] else text[..m][0] == text[0];
      }
    }
    assert LongestEarliest(text, k, r);
    if LongestEarliest(text, n, rule) {
      assert !(n < k) && !(k < n);
      assert !(rule < r) && !(r < rule);
    }
  }

  // ---- tokens ----

  function Decimal(ds: seq<byte>): nat
    requires AllDigits(ds)
  {
    if ds == [] then 0 else 10 * Decimal(ds[..|ds| - 1]) + (ds[|ds| - 1] - 48)
  }

  /** `atoi`: the decimal value when it fits, and otherwise whatever the C library does. */
  type Overflow = seq<byte> -> int32

  function Atoi(ds: seq<byte>, big: Overflow): int32
    requires AllDigits(ds)
  {
    if Decimal(ds) < 0x8000_0000 then Decimal(ds) else big(ds)
  }

  /** The token that the action of one of the first three rules returns. */
  function TokenOf(rule: int, w: seq<byte>, big: Overflow): Token
    requires 1 <= rule <= 3 && Matches(rule, w)
  {
    match rule
    case 1 => VARIABLE(w[0] - 97)
    case 2 => INTEGER(Atoi(w, big))
    case _ => CHAR(w[0])
  }

  datatype Scan = End(errs: nat) | Found(t: Token, rest: seq<byte>, errs: nat)

  /** The next token, the text after it, and how many bytes were reported as invalid on the way. */
  function NextToken(text: seq<byte>, big: Overflow): (s: Scan)
    ensures s.Found? ==> |s.rest| < |text|
  {
    if text == [] then End(0)
    else
      var (n, rule) := Lexeme(text);
      if rule <= 3 then
        FirstMatches(text);
        Found(TokenOf(rule, text[..n], big), text[n..], 0)
      else
        var s := NextToken(text[n..], big);
        s.(errs := s.errs + if rule == 5 then 1 else 0)
  }

  lemma FirstMatches(text: seq<byte>)
    requires text != []
    ensures Matches(Lexeme(text).1, text[..Lexeme(text).0])
  {
  }

  function MoreErrors(s: Scan, k: nat): Scan { s.(errs := s.errs + k) }

  /** The first lexeme is a token or is skipped. */
  lemma {:induction false} FirstStep(text: seq<byte>, big: Overflow, n: nat, rule: int)
    requires text != [] && (n, rule) == Lexeme(text)
    ensures Matches(rule, text[..n])
    ensures NextToken(text, big) ==
        if rule <= 3 then Found(TokenOf(rule, text[..n], big), text[n..], 0)
        else MoreErrors(NextToken(text[n..], big), if rule == 5 then 1 else 0)
  {
    FirstMatches(text);
  }

  function Tokens(text: seq<byte>, big: Overflow): seq<Token>
    decreases |text|
  {
    match NextToken(text, big)
    case End(_) => []
    case Found(t, rest, _) => [t] + Tokens(rest, big)
  }

  // ---- how far the scanner gets ----

  datatype Progress = Progress(rest: seq<byte>, errs: nat)

  /** The text left after `n` calls of yylex, and how many bytes they have reported as invalid. */
  function Calls(text: seq<byte>, big: Overflow, n: nat): Progress {
    if n == 0 then Progress(text, 0) else OneCall(Calls(text, big, n - 1), big)
  }

  function OneCall(p: Progress, big: Overflow): Progress {
    match NextToken(p.rest, big)
    case End(errs) => Progress([], p.errs + errs)
    case Found(_, rest, errs) => Progress(rest, p.errs + errs)
  }

  /** The same without recursion. */
  function Heard(text: seq<byte>, big: Overflow, n: nat): Progress { Calls(text, big, n) }

  lemma HeardNothing(text: seq<byte>, big: Overflow)
    ensures Heard(text, big, 0) == Progress(text, 0)
  {
  }

  lemma HeardNext(text: seq<byte>, big: Overflow, n: nat, s: Scan)
    requires s == NextToken(Heard(text, big, n).rest, big)
    ensures Heard(text, big, n + 1) == Progress(if s.End? then [] else s.rest, Heard(text, big, n).errs + s.errs)
  {
  }

  function InvalidBytes(text: seq<byte>): nat {
    if text == [] then 0 else InvalidBytes(text[..|text| - 1]) + if RuleOf(text[|text| - 1]) == 5 then 1 else 0
  }

  lemma {:induction false} InvalidConcat(a: seq<byte>, b: seq<byte>)
    ensures InvalidBytes(a + b) == InvalidBytes(a) + InvalidBytes(b)
    decreases |b|
  {
    if b == [] {
      assert a + b == a;
    } else {
      assert (a + b)[..|a + b| - 1] == a + b[..|b| - 1];
      InvalidConcat(a, b[..|b| - 1]);
    }
  }

  lemma {:induction false} NoInvalidDigits(w: seq<byte>)
    requires AllDigits(w)
    ensures InvalidBytes(w) == 0
    decreases |w|
  {
    if w != [] { NoInvalidDigits(w[..|w| - 1]); }
  }

  lemma LexemeInvalid(text: seq<byte>)
    requires text != []
    ensures var (n, rule) := Lexeme(text); InvalidBytes(text[..n]) == if rule == 5 then 1 else 0
  {
    var (n, rule) := Lexeme(text);
    if rule == 2 {
      NoInvalidDigits(text[..n]);
    } else {
      assert text[..1] == [text[0]] && [text[0]][..0] == [];
    }
  }

  /** `rest` is what follows some beginning of `text` that has `errs` invalid bytes. */
  ghost predicate Consumed(text: seq<byte>, rest: seq<byte>, errs: nat) {
    |rest| <= |text| && text[|text| - |rest|..] == rest && errs == InvalidBytes(text[..|text| - |rest|])
  }

  lemma ConsumedMore(text: seq<byte>, mid: seq<byte>, rest: seq<byte>, e: nat, f: nat)
    requires Consumed(text, mid, e) && Consumed(mid, rest, f)
    ensures Consumed(text, rest, e + f)
  {
    var a, b := text[..|text| - |mid|], mid[..|mid| - |rest|];
    assert text == a + mid && mid == b + rest;
    assert text[..|text| - |rest|] == a + b;
    InvalidConcat(a, b);
  }

  lemma LexemeConsumed(text: seq<byte>)
    requires text != []
    ensures var (n, rule) := Lexeme(text); Consumed(text, text[n..], if rule == 5 then 1 else 0)
  {
    LexemeInvalid(text);
  }

  lemma {:induction false} NextConsumed(text: seq<byte>, big: Overflow)
    ensures var s := NextToken(text, big); Consumed(text, if s.End? then [] else s.rest, s.errs)
    decreases |text|
  {
    if text != [] {
      var (n, rule) := Lexeme(text);
      LexemeConsumed(text);
      if rule > 3 {
        NextConsumed(text[n..], big);
        var s := NextToken(text[n..], big);
        ConsumedMore(text, text[n..], if s.End? then [] else s.rest, if rule == 5 then 1 else 0, s.errs);
      }
    }
  }

  /** The reports are exactly the invalid bytes of the text that has been consumed. */
  lemma {:induction false} ReportsInvalidBytes(text: seq<byte>, big: Overflow, n: nat)
    ensures Consumed(text, Calls(text, big, n).rest, Calls(text, big, n).errs)
    decreases n
  {
    if n == 0 {
      assert text[..0] == [] && text[0..] == text;
    } else {
      var p := Calls(text, big, n - 1);
      ReportsInvalidBytes(text, big, n - 1);
      NextConsumed(p.rest, big);
      var s := NextToken(p.rest, big);
      ConsumedMore(text, p.rest, if s.End? then [] else s.rest, p.errs, s.errs);
    }
  }

  /** One call for every token and one for the end consume the whole text. */
  lemma {:induction false} AllCalls(text: seq<byte>, big: Overflow, n: nat)
    requires n <= |Tokens(text, big)|
    ensures |Tokens(Calls(text, big, n).rest, big)| == |Tokens(text, big)| - n
    decreases n
  {
    if n > 0 { AllCalls(text, big, n - 1); }
  }

  lemma LastCall(text: seq<byte>, big: Overflow, n: nat)
    requires Tokens(Calls(text, big, n).rest, big) == []
    ensures Calls(text, big, n + 1).rest == []
  {
    HeardNext(text, big, n, NextToken(Calls(text, big, n).rest, big));
  }

  lemma WholeTextConsumed(text: seq<byte>, big: Overflow, n: nat)
    requires n == |Tokens(text, big)| + 1
    ensures Heard(text, big, n) == Progress([], InvalidBytes(text))
  {
    AllCalls(text, big, n - 1);
    LastCall(text, big, n - 1);
    ReportsInvalidBytes(text, big, n);
    assert text[..|text|] == text;
  }
}
