# Verified models of the network course's hand-run machines

The repository of the network course contains a few programs that are small but not simple: a desk
calculator whose parser is an LALR(1) automaton in compressed tables and whose scanner is a compressed
DFA over a refillable buffer (`packetdrill/`), line readers that buffer a socket in two different ways
(`intro/`), an excerpt of the kernel's ephemeral-port search (`port/`), and a toy character device with a
producer thread, pollers and readers (`live/epoll/my_poll_dev/`).  This project models them in Dafny and
proves what they are for.

## The calculator

| file | contents |
|---|---|
| `Arithmetic.dfy` | 32-bit values, one extra value for what C leaves undefined, truncating division |
| `Grammar.dfy` | tokens, trees, yields, the trees that `%left` selects, and an interpreter |
| `Viability.dfy` | which token can follow which: an automaton with a parenthesis counter, independent of the tables |
| `Unambiguous.dfy` | one canonical tree per sentence |
| `ParserTables.dfy`, `Engine.dfy` | the tables of `calc.tab.c` and one turn of `yyparse` on whole configurations |
| `Shapes.dfy` | viable stacks as a zipper over trees, and the machine on them that the tables encode |
| `Simulation.dfy` | the tables simulate that machine |
| `StackPaths.dfy` | the state stack as a path of the automaton, and what a reduction finds on it |
| `Turns.dfy` | what every turn keeps |
| `ShapeLanguage.dfy` | which token sequences the shapes read: the beginnings of sentences |
| `Heights.dfy`, `StackHeight.dfy` | how high the stack is after a token, said of the tokens alone |
| `Parsing.dfy`, `ParserTheorems.dfy` | whole runs, and what follows |
| `StackLimit.dfy` | a sentence that is refused for want of stack |
| `LexRules.dfy`, `LexTables.dfy`, `Dfa.dfy` | the rules of `calc.l`, the tables of `lex.yy.c`, and their agreement |
| `Scanner.dfy` | `yylex` with its buffer, hold character, sentinels and refills |
| `YyParse.dfy` | `yyparse` with both stacks in arrays that are relocated, on top of the scanner |
| `Calculator.dfy` | everything together |
| `Interpreter.dfy` | what the interpreter computes, said without it |
| `Spelling.dfy` | numerals and the spelling of tokens, which the scanner reads back |
| `Programs.dfy` | what the calculator does with the text of a program |

The main result is the contract of `Calculator.Calculate`: for every file and for every way its reads are cut
into pieces, the result code, the error count, the printed values and the variables are those of
`Parsing.Parse` over the tokens of the whole text, and `Parsing.Outcome` says what these mean.  Result 0 comes
with exactly the sentences of `calc.y`, and the effects are those of interpreting the one tree in which `*`
and `/` bind tighter than `+` and `-` and all four associate to the left.  Result 1 comes with the place of
the error: the tokens before it begin some sentence and together with it they do not, although the parser
reduces by default before it looks; the lines before have had their effects, and the failing line has one
exactly when it is a complete statement.  Result 2 comes exactly when some beginning of the input that begins a
sentence is 10000 states high, where the height is computed from the tokens: `Heights.Height` keeps, per open
parenthesis, whether the left operand of a sum and that of a product are waiting.  With at most 1998 open
parentheses that cannot happen; `StackLimit.LimitIsSharp` gives, for every n from 1999 on, a sentence with n of
them that is refused.  The scanner's complaints are counted, too: one for every invalid byte of the text that has
been consumed, which is the whole text when the result is 0, and otherwise ends with the offending token or with the
token that fills the stack.

What the interpreter does is pinned from outside: `ApplyMeaning` characterises each operation by its inverse, by
repeated addition or by its remainder, `EvalMeaning` lifts that to trees, and `PrintedInOrder` and `LastAssigned` say
where every print and every assignment ends up.  On the side of the bytes `ReadBack` shows that the scanner reads back
every spelling of tokens, so that `WrittenProgram` can say what the text of a program does and `OperationPrints` which
number a line such as `1+2` prints.

The proof goes through a zipper.  A `Shape` is a stack of frames (a line, an assignment target, an open
parenthesis, a left operand with its operator) and what has been pushed since; `States` renders it as the
states on the stack.  `TablesSimulate` shows that one turn of the engine over the concrete tables is one turn
of a seven-case machine on shapes; everything about the language is then proved on shapes.

An arithmetic operation that C leaves undefined (a zero divisor, a result outside 32 bits) yields the value
`Undefined`, which spreads through expressions and is printed and stored as such.  What the model says of the
C program holds up to the first such operation.  `atoi` of a number that does not fit is a parameter.

The tables are written as functions of their index, `yytranslate` and `yy_ec` in run-length form; the values
are those of the C arrays.

## The other programs

`LineReaders.dfy` has a socket that delivers any script of pieces, interruptions and errors, one splitter
`Take` that knows nothing of them, and both readers as classes whose methods refine it.  The readers differ in
what their counters count; they agree on a line exactly when a newline or an error comes before the buffer is
full and before the input ends, or when there is no input, and call after call exactly when from every place
before the first error a newline or the error comes before a buffer is full.  A length of 0 is accepted: the
server stores its terminator all the same, and the client's `--len` wraps around, so that only what it stores
bounds it.

`PortScan.dfy` has the two-parity scan.  Its comment speaks of the range [low, high], but the excerpt has no
wrap-around: `WindowWithinRange` shows that all probed ports are in the range if and only if the offset is 1
and the range has an even number of ports.  The code does return ports outside: `ScanLeavesRange` has the range
[32768, 60999] reserved, the random number 2, and the result 61001.  `ReturnsAboveRange` says exactly when.

`PortScan.Searched` states the result port by port and bucket by bucket.

`PollDevice.dfy` has the producer, pollers and readers as interleaved steps, one store each.  `wake_up` and
`poll_wait` are steps of their own; a step that is not enabled changes nothing, so every sequence of steps is
a run; `Histories.dfy` says what has happened since what in it.  `PollAnswers.dfy` says what poll answers and who is
waiting and woken.  Pollers are safe, readers are not.  The producer fills `readbuf` before it stores `readbuflen`, and `read`
copies the text that is there with the length that is there, reads the length again for its result, and clears it
without asking what it has become.  `ReadRaces.dfy` says exactly when each of the three goes wrong, as what has
happened since what in the run: `DiscardIff` when a clear discards a message of which nobody has copied anything,
`TruncatedIff` when a copy is cut short (between the fill and the publish of a power of ten, by one byte), and
`CountDiffersIff` when the count returned is not that of the bytes copied.  Each has a run in which it happens.

## Model

| member | source | states |
|---|---|---|
| `Calculator.Calculate` | packetdrill/calc.tab.c:1067-1573 | end to end: result, error count, prints, variables and complaints are a function of the file's bytes, whatever the reads; result 2 exactly when a viable beginning is too high, otherwise 0 exactly on sentences; never 2 with at most 1998 open parentheses; one complaint for every invalid byte consumed |
| `Parsing.ParseOutcome` | packetdrill/calc.tab.c:1143-1573 | every verdict on every token sequence means what the grammar says: accepted with a canonical program and its effects; rejected at the first token that no sentence continues with; or out of stack at the first token that makes a viable beginning 10000 high, with the effects of the complete lines and no other; and how many calls of yylex it took |
| `Parsing.AcceptsExactlySentences` | packetdrill/calc.y:14-30 | result 2 if and only if some viable beginning of the tokens is 10000 high; otherwise 0 if and only if some derivation of `program` yields them, and 1 on everything else |
| `ParserTheorems.ParseMeaning` | packetdrill/calc.y:1-30 | on the yield of a canonical program the verdict is that program's interpretation unless the tokens are too high, and then it is 2 |
| `Unambiguous.UniqueExpr` | packetdrill/calc.y:2-3 | precedence and associativity leave one tree per token sequence |
| `Unambiguous.UniqueProgram` | packetdrill/calc.y:14-30 | one canonical program per sentence |
| `ParserTheorems.RejectionUnique` | packetdrill/calc.tab.c:1229-1295 | the place of the error, the complete lines, the failing line and its effect are determined by the input |
| `ParserTheorems.ExhaustionUnique` | packetdrill/calc.tab.c:1151-1186 | the place where the stack runs out and what has been executed by then are determined by the input |
| `ParserTheorems.ReachableStacks` | packetdrill/calc.tab.c:1303-1385 | in every reachable configuration the states are a path of the automaton; when the turn reduces, the top of the stack is labelled with the right-hand side of the rule, symbol by symbol, and the state below has a transition on its left-hand side; both stacks are equally deep, no turn is stuck, and the index is at most 5d + 8 |
| `ParserTheorems.ParseTerminates` | packetdrill/calc.tab.c:1143-1573 | finitely many turns lead to the verdict |
| `ParserTheorems.IterateTracked` | packetdrill/calc.tab.c:1143-1385 | after any number of turns the stack has a shape that has read exactly the consumed tokens and caused exactly their effects |
| `StackPaths.ShapePath` | packetdrill/calc.tab.c:501-506 | the states of a viable stack follow the transitions of the automaton, on terminals and on nonterminals |
| `StackPaths.PathReduces` | packetdrill/calc.tab.c:1303-1385 | on every path, whatever the lookahead, a chosen reduction finds its right-hand side and a transition on its left-hand side |
| `StackPaths.PathShifts` | packetdrill/calc.tab.c:1262-1285 | a shift follows the transition on the symbol shifted |
| `StackPaths.GotosAreTransitions` | packetdrill/calc.tab.c:457-497 | on the nonterminal transitions the goto tables give their target for every rule of the nonterminal |
| `StackLimit.LimitIsSharp` | packetdrill/calc.tab.c:1181-1186 | for every n from 1999 on there is a sentence with n, and never more, parentheses open at once whose result is 2 |
| `StackHeight.ShiftGauge` | packetdrill/calc.tab.c:1143-1151 | after a shift the stack is as high as the table-free height of the tokens read |
| `StackHeight.ReduceGauge` | packetdrill/calc.tab.c:1301-1385 | a reduction keeps the gauge and never makes the stack higher than two states or than it was |
| `Simulation.TablesSimulate` | packetdrill/calc.tab.c:1223-1385 | one turn over the compressed tables is one turn of the machine on shapes, values and effects included |
| `Simulation.DecodeActions` | packetdrill/calc.tab.c:449-497 | the compressed action tables encode the written-out automaton |
| `Simulation.GotoExpr` | packetdrill/calc.tab.c:457-497 | the goto tables give the state after an expression in every frame |
| `Simulation.StatementEnters` | packetdrill/calc.tab.c:1319-1327 | reducing a statement prints or assigns once, as the interpreter does |
| `Simulation.BinaryEnters` | packetdrill/calc.tab.c:1334-1352 | reducing a binary expression leaves the value of the tree it builds |
| `Parsing.TurnKeeps` | packetdrill/calc.tab.c:1143-1385 | every turn keeps the invariant, is never stuck, and lowers the measure |
| `ShapeLanguage.StackIsViable` | packetdrill/calc.y:14-30 | every stack has read the beginning of some sentence |
| `ShapeLanguage.FollowDecidesViability` | packetdrill/calc.y:14-30 | a token sequence begins a sentence if and only if the follow automaton survives it |
| `ShapeLanguage.FollowDecidesSentences` | packetdrill/calc.y:14-30 | it is a sentence if and only if the automaton ends at the start of a line |
| `Parsing.RejectMeans` | packetdrill/calc.tab.c:1391-1509 | when the parser stops with an error the input is rejected as specified, with the effect of the failing line |
| `Parsing.FullMeans` | packetdrill/calc.tab.c:1151-1186 | a shift that fills the stack is in the middle of a line; the input is exhausted there as specified and has more than 1998 open parentheses |
| `Turns.TurnMode` | packetdrill/calc.tab.c:1223-1295 | the parser goes on exactly where the follow automaton does |
| `Turns.TurnYield` | packetdrill/calc.tab.c:1262-1285 | a turn consumes exactly the token it shifts |
| `Turns.TurnEffect` | packetdrill/calc.tab.c:1317-1360 | effects are those of the statements reduced so far |
| `Turns.TurnWeight` | packetdrill/calc.tab.c:1143-1385 | tokens and a symbol-weighted stack decrease |
| `Turns.StackWithinPeak` | packetdrill/calc.tab.c:1143-1214 | the stack index stays within 5d + 8 |
| `Viability.ProgramModes` | packetdrill/calc.y:14-30 | the follow automaton accepts every sentence |
| `Viability.DeadIsNotViable` | packetdrill/calc.y:14-30 | where it dies no sentence goes on |
| `Viability.PeakIsMaximum` | packetdrill/calc.y:29-29 | the peak is the greatest number of parentheses open at once |
| `Arithmetic.TruncDivMeaning` | packetdrill/calc.tab.c:1349-1352 | `/` is the quotient truncated toward zero, and the only one |
| `Arithmetic.ApplyMeaning` | packetdrill/calc.tab.c:1334-1352 | the value of an operation is n if and only if n - y == x, n + y == x, n is x added up y times, or n leaves a proper remainder |
| `Arithmetic.ApplyUndefined` | packetdrill/calc.tab.c:1334-1352 | it is undefined if and only if an operand is or no 32-bit number has that property |
| `Interpreter.EvalMeaning` | packetdrill/calc.y:22-30 | a tree has value n if and only if it denotes n in the relation built from these properties |
| `Interpreter.OutputGrows` | packetdrill/calc.y:18-20 | nothing printed is changed, and every print statement adds one value |
| `Interpreter.PrintedInOrder` | packetdrill/calc.y:18-20 | a print statement prints, in its place among the prints, the value its expression has at that point |
| `Interpreter.LastAssigned` | packetdrill/calc.y:18-20 | a variable ends with the value last assigned to it |
| `Interpreter.Unassigned` | packetdrill/calc.y:18-20 | and otherwise keeps the one it had |
| `Spelling.DecimalConcat` | packetdrill/calc.l:18-21 | digits count by their places |
| `Spelling.NumeralDecimal` | packetdrill/calc.l:18-21 | the number read from the numeral of n is n |
| `Spelling.LineOfOne` | packetdrill/calc.l:12-24 | for every n below 2^31 the numeral of n and a newline are INTEGER(n) and a newline; every letter is its variable |
| `Spelling.ReadBack` | packetdrill/calc.l:12-30 | the tokens of a spelling are the tokens spelled, for every sequence of spellable tokens |
| `Spelling.SkippedByte` | packetdrill/calc.l:25-30 | any other byte contributes no token |
| `Programs.WrittenProgram` | packetdrill/calc.y:14-30 | the text of a canonical program that is not too high runs as the program |
| `Programs.OperationPrints` | packetdrill/calc.y:14-30 | the text of one operation prints one value, n if and only if the operation should give n |
| `Programs.NewVariablePrints` | packetdrill/calc.y:8-24 | the text of a variable that has not been assigned to prints 0 |
| `YyParse.Parser.ParseInput` | packetdrill/calc.tab.c:1067-1573 | `yyparse` returns, with the verdict of the run over the tokens of the whole input, and the complaints are those of the calls of yylex it has made |
| `YyParse.Parser.Turn` | packetdrill/calc.tab.c:1223-1385 | one turn in place is one turn on configurations |
| `YyParse.Parser.ReadToken` | packetdrill/calc.tab.c:1235-1250 | a token is read only when there is no lookahead |
| `YyParse.Parser.Choose` | packetdrill/calc.tab.c:1240-1275 | the action read off the tables |
| `YyParse.Parser.SemanticAction` | packetdrill/calc.tab.c:1312-1363 | `$$`, the print and the assignment, from the topmost values of the array |
| `YyParse.Parser.ReduceRule` | packetdrill/calc.tab.c:1301-1385 | pop the right-hand side, push the goto state and `$$` |
| `YyParse.Parser.ShiftToken` | packetdrill/calc.tab.c:1269-1285 | push the token's state and `yylval`, and forget the token unless it is the end |
| `YyParse.Parser.Recover` | packetdrill/calc.tab.c:1391-1509 | no state takes the error token: everything is popped, the result is 1, and one error is counted |
| `YyParse.Stacks.Push` | packetdrill/calc.tab.c:1143-1214 | push with growth: contents kept, room for the next push, failure exactly at 10000 elements |
| `YyParse.Stacks.Relocate` | packetdrill/calc.tab.c:320-329 | both stacks are copied to a larger allocation |
| `YyParse.RelocationFits` | packetdrill/calc.tab.c:289-329 | the two relocated regions are aligned, disjoint and inside YYSTACK_BYTES(n) |
| `Scanner.Lexer.Lex` | packetdrill/lex.yy.c:675-902 | the next token of the unscanned input, the text after it, `yylval` and the number of complaints, whatever the reads |
| `Scanner.Lexer.Match` | packetdrill/lex.yy.c:675-720 | one lexeme: the longest match of the rest of the input |
| `Scanner.Lexer.FindMatch` | packetdrill/lex.yy.c:688-715 | yy_match with back-up finds the end of the match, or a NUL |
| `Scanner.Lexer.NextState` | packetdrill/lex.yy.c:697-703 | the compressed walk over `yy_def`, `yy_meta` and `yy_chk` is the decompressed transition |
| `Scanner.Lexer.EobAction` | packetdrill/lex.yy.c:775-893 | a genuine NUL is a character, the sentinel a refill; the match goes on where it was |
| `Scanner.Lexer.RealNul` | packetdrill/lex.yy.c:807-841 | the NUL transition made by hand |
| `Scanner.Lexer.EndOfBuffer` | packetdrill/lex.yy.c:843-893 | after a refill the interrupted state is restored |
| `Scanner.Lexer.GetNextBuffer` | packetdrill/lex.yy.c:911-1041 | no byte is lost or repeated, the text moves to the front, both sentinels are back, the size never wraps and the last extension is never needed |
| `Scanner.Lexer.Grow` | packetdrill/lex.yy.c:957-995 | doubling makes room and keeps the moved text |
| `Scanner.Lexer.GetPreviousState` | packetdrill/lex.yy.c:1045-1070 | the state is a function of the text matched so far |
| `Scanner.Lexer.TryNulTrans` | packetdrill/lex.yy.c:1077-1098 | the state after a NUL, or 0 when it jams |
| `Scanner.Lexer.BeforeAction` | packetdrill/lex.yy.c:359-364 | the overwritten byte is kept and the rest of the input is recovered from it |
| `Scanner.Lexer.Restart` | packetdrill/lex.yy.c:1216-1270 | the buffer is empty and clean after the end of the file |
| `Scanner.Lexer.Action` | packetdrill/lex.yy.c:719-771 | the actions of the rules |
| `Scanner.Lexer.constructor` | packetdrill/lex.yy.c:1278-1301 | a fresh buffer has nothing scanned |
| `Scanner.Source.Read` | packetdrill/lex.yy.c:557-585 | some bytes of the file, none only at its end |
| `LexRules.LexemeIsLongestEarliest` | packetdrill/calc.l:12-30 | the computed lexeme is the longest match with the earliest rule, and the only one |
| `LexRules.ReportsInvalidBytes` | packetdrill/calc.l:12-30 | after any number of calls of yylex the reports are the invalid bytes of the text consumed, counted byte by byte |
| `LexRules.WholeTextConsumed` | packetdrill/calc.l:12-30 | one call for every token and one for the end consume the whole text and report all its invalid bytes |
| `Dfa.WalkFindsLexeme` | packetdrill/lex.yy.c:688-717 | where the automaton cannot go on is the longest match, and `yy_accept` names its earliest rule |
| `Dfa.TransIsJump` | packetdrill/lex.yy.c:375-440 | the compressed tables decode to a nine-state automaton |
| `Dfa.AfterStep` | packetdrill/lex.yy.c:688-706 | the closed form of the state after a text follows the automaton byte by byte |
| `LineReaders.ClientReader.ReadLine` | intro/reliable_test_client.c:59-89 | for every chunking, every run of EINTRs and every length including 0, provided that what is stored fits: by where the first newline or error of the input is, the result (-1, 0, the length of the line), every byte of the buffer, and what is left |
| `LineReaders.SizeSuffices` | intro/reliable_test_client.c:66-111 | what either reader stores always fits a buffer of the length passed, unless that is 0 |
| `LineReaders.ClientReader.NextByte` | intro/reliable_test_client.c:66-81 | exactly one byte of the input, or why none; max(cnt - 1, 0) bytes stay buffered |
| `LineReaders.ServerReader.MyRead` | intro/reliable_test_server.c:52-67 | one byte of the input, end of file or an error |
| `LineReaders.ServerReader.ReadLine` | intro/reliable_test_server.c:69-89 | for every chunking and every length, provided that what is stored fits: by where the first newline or error of the input is, the result (one more than the bytes of a full buffer, the bytes before the end, the length of the line, -1), every byte of the buffer, and what is left |
| `LineReaders.TakeMeaning` | intro/reliable_test_server.c:75-88 | where a line ends decides what is stored, what is left and why it ended |
| `LineReaders.StopUnique` | intro/reliable_test_server.c:75-88 | a line ends at one place only |
| `LineReaders.ReadersAgree` | intro/reliable_test_client.c:59-111 | the two results are equal if and only if a newline or error comes in time, or there is no input |
| `LineReaders.SameReturns` | intro/reliable_test_client.c:59-111 | call after call the two readers return the same counts and store the same bytes if and only if there is room and from every place before the first error a newline or the error comes before a buffer is full |
| `LineReaders.NothingLost` | intro/reliable_test_server.c:69-89 | absent errors the calls return every byte once and in order |
| `LineReaders.EachCallWhole` | intro/reliable_test_server.c:69-89 | each call returns a line or a full buffer, except that the last may return what is left |
| `LineReaders.Socket.Recv` | intro/reliable_test_client.c:68-77 | one event of the script: its first bytes, EINTR or another error |
| `PortScan.FindOpenPort` | port/inet_connection_sock.c:5-61 | from the odd one of the offsets x and x + 1: the first free port of the odd pass, or else of the even pass, with its slot and the first bucket for it, which is not in conflict, or none because there is none; a free port at the start is the result |
| `PortScan.AcceptableIsFree` | port/inet_connection_sock.c:32-46 | a port is acceptable if and only if it is not reserved and the first bucket for it, if any, is not in conflict |
| `PortScan.ScanMeaning` | port/inet_connection_sock.c:29-60 | the first acceptable port in probe order is the result of the two passes, port by port |
| `PortScan.ScanParity` | port/inet_connection_sock.c:31-50 | one pass over ports two apart |
| `PortScan.WalkChain` | port/inet_connection_sock.c:38-45 | the first bucket of the chain for the port |
| `PortScan.ProbesCoverWindow` | port/inet_connection_sock.c:29-54 | every port of the window exactly once |
| `PortScan.ScanFailsIff` | port/inet_connection_sock.c:31-56 | NULL if and only if every port of the window is reserved or in conflict |
| `PortScan.FirstInMeaning` | port/inet_connection_sock.c:31-60 | the result is the first acceptable port of the list |
| `PortScan.WindowWithinRange` | port/inet_connection_sock.c:19-31 | the probed ports are within [low, high] if and only if the offset is 1 and the range is even |
| `PortScan.ReturnsAboveRange` | port/inet_connection_sock.c:29-60 | the port returned is above high if and only if the first pass has acceptable ports only above high, or it has none and the second pass has acceptable ports only above high |
| `PortScan.ScanLeavesRange` | port/inet_connection_sock.c:19-60 | with 32768 to 60999 reserved and the random number 2 the result is port 61001 |
| `PollDevice.NoWakeupIsLost` | live/epoll/my_poll_dev/my_poll_dev.c:25-66 | in every interleaving a poller that saw nothing and was not woken waits for data only between the store and wake_up |
| `PollDevice.SleeperIsWoken` | live/epoll/my_poll_dev/my_poll_dev.c:37-66 | three steps of the producer wake every sleeping poller, whatever else happens |
| `PollAnswers.PollIff` | live/epoll/my_poll_dev/my_poll_dev.c:37-48 | in every run a poller is back with POLLIN if and only if its last move found a length, asleep if and only if it found none and has not got up, and woken if and only if a wake_up found it on the queue and it has not left |
| `ReadRaces.UnreadIff` | live/epoll/my_poll_dev/my_poll_dev.c:25-66 | in every run the published message has been copied by nobody if and only if nobody has copied since its fill and nobody has cleared, nor filled again, since its publish |
| `ReadRaces.DiscardIff` | live/epoll/my_poll_dev/my_poll_dev.c:25-35 | a reader about to clear the length discards such a message if and only if nobody has copied since its fill and it was published during this reader's call, with no clear or fill since |
| `ReadRaces.MessageIsDiscarded` | live/epoll/my_poll_dev/my_poll_dev.c:28-33 | a run in which the second message is gone although nobody has copied it |
| `ReadRaces.CountDiffersIff` | live/epoll/my_poll_dev/my_poll_dev.c:27-31 | in every run the count returned differs from the number of bytes copied if and only if, of the stores between the copy and the second read of the length, the last was a clear or the publish of another length |
| `ReadRaces.CountIsWrong` | live/epoll/my_poll_dev/my_poll_dev.c:27-31 | a run in which nothing is copied and 8 is returned |
| `ReadRaces.TruncatedIff` | live/epoll/my_poll_dev/my_poll_dev.c:28-60 | in every run a copy is cut short, by one byte, if and only if the text has been filled and not published, a length has been published and not cleared, and the message number is a power of ten |
| `ReadRaces.CopyIsTruncated` | live/epoll/my_poll_dev/my_poll_dev.c:28-60 | for every power of ten from 10 on, a run that leads there |
| `Histories.HoldsSince` | live/epoll/my_poll_dev/my_poll_dev.c:25-66 | what one kind of step makes true and another kind false holds at the end of a run if and only if some step of the first kind has had none of the second since |

## Left out

- Debug output, verbose error messages and location tracking of the parser: compiled out in the repository.
- `yyunput`, `input`, the stack of buffers, `yy_scan_*`, the accessors and `yylex_destroy`: the calculator does not use them; `yy_fill_buffer` is always 1 and has no field.
- `malloc` and `realloc` failure, read errors of the scanner's file, and the overflow of `yy_buf_size` after more than 2^63 bytes of one token.
- `YyParse.RelocationFits`: sizes of 2 bytes for a state and 4 for a value and the union, as on the platforms the course uses.
- `yyerrstatus`: it is set only on the way out, since no state shifts the error token.
- The wrap-around of C arithmetic: an overflow is undefined in C and becomes `Undefined` here.
- `LineReaders.ClientReader.ReadLine`: an overrun of the caller's buffer, which a length of 0 or too large a length allows, is undefined in C and excluded by the precondition that what is stored fits, here and in `LineReaders.ServerReader.ReadLine`; counts beyond `INT_MAX` are not truncated.
- `PortScan.FindOpenPort`: the spin locks, `cond_resched` and the unused `attempt_half` are not modelled; the tests of reservation and conflict are predicates.
- `PollDevice.NoWakeupIsLost`: `copy_to_user` failure and the module's set-up and removal are not modelled, nor is the wrap-around of the counter; `snprintf` fills the text in one step and `copy_to_user` copies it in one step.
- `port/net_ipv4_inet_hashtables.c`, the packet scripts, the socket, epoll, select, Go, Java and Kotlin demos, and `packetdrill/wc.l`: plumbing, incomplete, or easy once the scanner is done.
