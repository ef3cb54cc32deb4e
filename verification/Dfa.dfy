/** The compressed walk recognises the rules. */
module Dfa {
  import opened LexRules
  import opened LexTables

  /** The class of a byte of the text; a genuine NUL is an ordinary character. */
  function ClassOf(b: byte): int { if b == 0 then 1 else yy_ec(b) }

  /** The transition function, decompressed. */
  function Jump(s: int, c: int): (t: int)
    requires DfaState(s) && Class(c)
    ensures DfaState(t) && t < 12
  {
    if s == 3 then YY_JAM
    else if c == 0 then 3
    else if s == 1 then c + 3
    else if (s == 8 || s == 10) && c == 5 then 10
    else if s == 12 && c == 2 then 10
    else YY_JAM
  }

  /** What the compressed tables compute. */
  lemma TransIsJump(s: int, c: int)
    requires DfaState(s) && Class(c)
    ensures Trans(s, c) == Jump(s, c)
  {
    assert yy_chk(yy_base(11) + c) == 11;
  }

  /** The state after reading `w` from the start state: a run of `Jump`, in closed form. */
  function After(w: seq<byte>): (s: int)
    ensures DfaState(s) && s < 12
  {
    if w == [] then 1
    else if |w| == 1 then ClassOf(w[0]) + 3
    else if AllDigits(w) then 10 else YY_JAM
  }

  lemma AfterStep(w: seq<byte>, b: byte)
    ensures After(w + [b]) == Jump(After(w), ClassOf(b))
  {
    var v := w + [b];
    assert v[|w|] == b;
    assert forall i | 0 <= i < |w| :: v[i] == w[i];
  }

  /** Nothing more can be matched after `n` bytes of `text`. */
  predicate Ends(text: seq<byte>, n: nat) {
    && 0 < n <= |text|
    && After(text[..n]) != YY_JAM
    && (n < |text| ==> After(text[..n + 1]) == YY_JAM)
  }

  /** The byte after `w` jams the automaton. */
  lemma JamEnds(w: seq<byte>, b: byte, more: seq<byte>, text: seq<byte>)
    requires w != [] && After(w) != YY_JAM && Jump(After(w), ClassOf(b)) == YY_JAM && text == w + [b] + more
    ensures Ends(text, |w|)
  {
    assert text[..|w|] == w;
    assert text[..|w| + 1] == w + [b];
    AfterStep(w, b);
  }

  /** A state from which every byte jams needs no lookahead. */
  lemma SingleEnds(w: seq<byte>, more: seq<byte>, text: seq<byte>)
    requires After(w) in {4, 5, 6, 7, 9} && text == w + more
    ensures Ends(text, |w|)
  {
    assert text[..|w|] == w;
    if more != [] {
      assert more == [more[0]] + more[1..];
      assert text == w + [more[0]] + more[1..];
      JamEnds(w, more[0], more[1..], text);
    }
  }

  /** A byte on which the loop at yy_match stops ends the match before it or after it. */
  lemma StopEnds(w: seq<byte>, b: byte, more: seq<byte>, t: int)
    requires After(w) != YY_JAM && t == Jump(After(w), yy_ec(b)) && yy_base(t) == YY_JAM_BASE
    ensures b != 0
    ensures t == YY_JAM ==> w != [] && yy_accept(After(w)) in {1, 2, 3, 4, 5} && Ends(w + [b] + more, |w|)
    ensures t != YY_JAM ==> yy_accept(t) in {1, 2, 3, 4, 5} && t == After(w + [b]) && Ends(w + [b] + more, |w| + 1)
  {
    AfterStep(w, b);
    if t == YY_JAM { JamEnds(w, b, more, w + [b] + more); } else { SingleEnds(w + [b], more, w + [b] + more); }
  }

  /** The end of the text ends the match. */
  lemma TextEnds(w: seq<byte>)
    requires w != [] && After(w) != YY_JAM
    ensures Ends(w, |w|)
  {
    assert w[..|w|] == w;
  }

  lemma EndsAtLexeme(text: seq<byte>, n: nat)
    requires text != [] && Ends(text, n)
    ensures n == Lexeme(text).0
  {
    var k := DigitRun(text);
    assert k < n ==> text[..n][k] == text[k];
    assert text[..n][0] == text[0];
  }

  /** A walk that cannot go on has found the longest match, and `yy_accept` names its earliest rule. */
  lemma WalkFindsLexeme(text: seq<byte>, n: nat)
    requires text != [] && Ends(text, n)
    ensures (n, yy_accept(After(text[..n]))) == Lexeme(text)
    ensures LongestEarliest(text, n, yy_accept(After(text[..n])))
  {
    EndsAtLexeme(text, n);
    assert yy_accept(After(text[..n])) == RuleOf(text[0]);
    LexemeIsLongestEarliest(text, n, yy_accept(After(text[..n])));
  }
}
