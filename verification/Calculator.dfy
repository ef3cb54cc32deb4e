/** The calculator as a whole: scanner and parser against the reference tokens, grammar and interpreter. */
module Calculator {
  import opened Arithmetic
  import opened Grammar
  import opened LexRules
  import opened Engine
  import opened Parsing
  import opened Scanner
  import opened YyParse
  import V = Viability

  /** `sym` is static, so every variable starts at 0; nothing has been printed. */
  function Fresh(): (w: World)
    ensures Ready(w)
  {
    World(seq(26, i => Known(0)), [])
  }

  /** The verdict of the parser on the tokens of a text. */
  ghost function Parsed(text: seq<byte>, overflow: Overflow): Verdict {
    Parse(Tokens(text, overflow), Known(0), Fresh())
  }

  /** How often yylex is called on the way. */
  ghost function Reads(text: seq<byte>, overflow: Overflow): nat { Parsed(text, overflow).calls }

  lemma AllRead(ts: seq<Token>, w: World, v: Verdict)
    requires Ready(w) && Outcome(ts, w, v) && v.code == 0
    ensures v.calls == |ts| + 1
  {
  }

  /** There is one complaint for every invalid byte of the text that has been consumed. */
  lemma ComplaintsMean(text: seq<byte>, overflow: Overflow, v: Verdict)
    requires v == Parsed(text, overflow)
    ensures var p := Heard(text, overflow, v.calls);
            Consumed(text, p.rest, p.errs) && (v.code == 0 ==> p == Progress([], InvalidBytes(text)))
  {
    ReportsInvalidBytes(text, overflow, v.calls);
    if v.code == 0 {
      ParseOutcome(Tokens(text, overflow), Known(0), Fresh());
      AllRead(Tokens(text, overflow), Fresh(), v);
      WholeTextConsumed(text, overflow, v.calls);
    }
  }

  lemma VerdictMeans(text: seq<byte>, overflow: Overflow, v: Verdict)
    requires v == Parsed(text, overflow)
    ensures var ts, p := Tokens(text, overflow), Heard(text, overflow, v.calls);
      && Outcome(ts, Fresh(), v) && v.code == (if Overflows(ts) then 2 else if Sentence(ts) then 0 else 1)
      && (V.Peak(ts) <= 1998 ==> v.code != 2)
      && Consumed(text, p.rest, p.errs) && (v.code == 0 ==> p == Progress([], InvalidBytes(text)))
  {
    ComplaintsMean(text, overflow, v);
    ParseOutcome(Tokens(text, overflow), Known(0), Fresh());
    AcceptsExactlySentences(Tokens(text, overflow), Known(0), Fresh());
  }

  /** Scanner and parser on a file, whatever pieces the reads come in. */
  method RunParser(text: seq<byte>, overflow: Overflow)
    returns (code: int, nerrs: nat, printed: seq<Value>, vars: seq<Value>, complaints: nat)
    ensures Verdict(code, nerrs, World(vars, printed), Reads(text, overflow)) == Parsed(text, overflow)
    ensures complaints == Heard(text, overflow, Reads(text, overflow)).errs
  {
    var source := new Source(text);
    var parser := new Parser(source, overflow);
    code := parser.ParseInput();
    nerrs, printed, vars, complaints := parser.yynerrs, parser.out, parser.sym[..], parser.lexer.complaints;
  }

  /** Run the calculator on a file, whatever pieces the reads come in.  The result code, the error count, the printed
      values, the variables and the number of complaints are a function of the bytes of the file alone.  They
      mean what the grammar says of the file's tokens, and there is one complaint for every invalid byte of
      the text that has been consumed. */
  method Calculate(text: seq<byte>, overflow: Overflow)
    returns (code: int, nerrs: nat, printed: seq<Value>, vars: seq<Value>, complaints: nat)
    ensures Verdict(code, nerrs, World(vars, printed), Reads(text, overflow)) == Parsed(text, overflow)
    ensures Outcome(Tokens(text, overflow), Fresh(), Verdict(code, nerrs, World(vars, printed), Reads(text, overflow)))
    ensures Consumed(text, Heard(text, overflow, Reads(text, overflow)).rest, complaints)
    ensures code == 0 ==> complaints == InvalidBytes(text)
    ensures var ts := Tokens(text, overflow); code == if Overflows(ts) then 2 else if Sentence(ts) then 0 else 1
    ensures V.Peak(Tokens(text, overflow)) <= 1998 ==> code != 2
  {
    code, nerrs, printed, vars, complaints := RunParser(text, overflow);
    VerdictMeans(text, overflow, Parsed(text, overflow));
  }
}
