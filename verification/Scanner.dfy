/** packetdrill/lex.yy.c: the scanner over a refillable buffer. */
module Scanner {
  import opened Arithmetic
  import opened LexRules
  import opened LexTables
  import opened Dfa
  import opened Engine

  const YY_BUF_SIZE := 16384
  const YY_READ_BUF_SIZE := 8192
  const YY_EOF_ACTION := 8

  /** An input file: what is left of it, handed out in pieces of any size. */
  class Source {
    var data: seq<byte>

    constructor (bytes: seq<byte>)
      ensures data == bytes
    {
      data := bytes;
    }

    /** YY_INPUT: some bytes, at most `max`, and none only at the end of the file. */
    method Read(max: nat) returns (chunk: seq<byte>)
      requires max > 0
      modifies this
      ensures chunk + data == old(data) && |chunk| <= max
      ensures chunk == [] <==> old(data) == []
    {
      if data == [] { return []; }
      assert 1 <= max && 1 <= |data|;
      var k: nat :| 1 <= k <= max && k <= |data|;
      chunk := data[..k];
      data := data[k..];
    }
  }

  /** The first `i` bytes from `text` on have been copied to the front, and those after them are as they were. */
  predicate Shifted(was: seq<byte>, now: seq<byte>, text: nat, i: nat) {
    |now| == |was| && text + i <= |was| && now[..i] == was[text..text + i] && now[text + i..] == was[text + i..]
  }

  lemma ShiftOne(was: seq<byte>, now: seq<byte>, text: nat, i: nat)
    requires Shifted(was, now, text, i) && text + i < |was|
    ensures now[text + i] == was[text + i] && Shifted(was, now[i := was[text + i]], text, i + 1)
  {
    var b, k := was[text + i], text + i + 1;
    assert now[text + i..][0] == was[text + i..][0];
    assert now[i := b][..i + 1] == now[..i] + [b] && was[text..k] == was[text..text + i] + [b];
    assert now[i := b][k..] == now[k..] == now[text + i..][1..] && was[k..] == was[text + i..][1..];
  }

  datatype Status = New | Normal | EofPending

  datatype Refill = ContinueScan | EndOfFile | LastMatch

  /** Where the code after YY_END_OF_BUFFER jumps to: yy_match, yy_find_action, or the end-of-file action. */
  datatype Go = Rematch | FindAction | Finished

  class Lexer {
    const source: Source
    const big: Overflow

    var ch_buf: array<byte>      // yy_ch_buf, with room for the two end-of-buffer bytes
    var buf_size: nat            // yy_buf_size
    var buf_n_chars: nat         // the copy of yy_n_chars kept in the buffer
    var status: Status           // yy_buffer_status
    var n_chars: nat             // yy_n_chars
    var c_buf_p: nat             // yy_c_buf_p, as an index
    var text: nat                // yytext_ptr, as an index
    var hold: byte               // yy_hold_char
    var last_state: int          // yy_last_accepting_state
    var last_cpos: nat           // yy_last_accepting_cpos
    var yylval: Value
    var complaints: nat          // calls of yyerror("invalid input")

    // ---- invariants ----

    /** The buffer fits its allocation and is never full to the last byte. */
    ghost predicate Framed()
      reads this`ch_buf, this`buf_size, this`n_chars, this`status, this`buf_n_chars, source
    {
      && ch_buf.Length == buf_size + 2
      && n_chars < buf_size
      && (status == EofPending ==> source.data == [])
      && (status == New ==> buf_n_chars == n_chars)
    }

    /** No byte is overwritten: both sentinels are in place. */
    ghost predicate Clean()
      reads this`ch_buf, this`buf_size, this`n_chars, this`status, this`buf_n_chars, source, ch_buf
    {
      Framed() && ch_buf[n_chars] == 0 && ch_buf[n_chars + 1] == 0
    }

    /** The unscanned input from index `p` on, buffered and unread. */
    ghost function Tail(p: nat): seq<byte>
      requires Framed() && p <= n_chars
      reads this`ch_buf, this`buf_size, this`n_chars, this`status, this`buf_n_chars, source, ch_buf
    {
      ch_buf[p..n_chars] + source.data
    }

    /** Between calls the byte at `c_buf_p` is overwritten and kept in `hold`. */
    ghost predicate Valid()
      reads this`ch_buf, this`buf_size, this`n_chars, this`status, this`buf_n_chars, source, ch_buf
      reads this`text, this`c_buf_p, this`hold
    {
      && Framed() && text <= c_buf_p <= n_chars
      && ch_buf[n_chars + 1] == 0
      && (if c_buf_p == n_chars then hold == 0 else ch_buf[n_chars] == 0)
    }

    /** The input not yet turned into tokens. */
    ghost function Rest(): seq<byte>
      requires Valid()
      reads this`ch_buf, this`buf_size, this`n_chars, this`status, this`buf_n_chars, source, ch_buf
      reads this`text, this`c_buf_p, this`hold
    {
      (if c_buf_p == n_chars then [] else [hold] + ch_buf[c_buf_p + 1..n_chars]) + source.data
    }

    // ---- buffer management ----

    /** yy_create_buffer on a fresh scanner, followed by yy_load_buffer_state. */
    constructor (input: Source, overflow: Overflow)
      ensures Valid() && Rest() == input.data
      ensures source == input && big == overflow && yylval == Known(0) && complaints == 0 && fresh(ch_buf)
    {
      source, big := input, overflow;
      buf_size := YY_BUF_SIZE;
      ch_buf := new byte[YY_BUF_SIZE + 2](i => 0);
      buf_n_chars, n_chars, c_buf_p, text, hold, status := 0, 0, 0, 0, 0, New;
      last_state, last_cpos, yylval, complaints := 0, 0, Known(0), 0;
    }

    /** yyrestart: yy_flush_buffer, then yy_load_buffer_state. */
    method Restart()
      requires ch_buf.Length == buf_size + 2 && buf_size > 0
      modifies this`buf_n_chars, this`n_chars, this`c_buf_p, this`text, this`hold, this`status, ch_buf
      ensures n_chars == c_buf_p == text == 0 && hold == 0 && status == New && Clean()
    {
      buf_n_chars := 0;
      ch_buf[0] := 0;
      ch_buf[1] := 0;
      status := New;
      n_chars, text, c_buf_p := buf_n_chars, 0, 0;
      hold := ch_buf[c_buf_p];
    }

    // ---- the automaton ----

    /** The inner loop over `yy_def`. */
    method NextState(s: int, c: int) returns (t: int)
      requires DfaState(s) && Class(c)
      ensures t == Jump(s, c)
    {
      TransIsJump(s, c);
      t := s;
      var k := c;
      while yy_chk(yy_base(t) + k) != t
        invariant DfaState(t) && Class(k) && Trans(t, k) == Trans(s, c)
        decreases Rank(t)
      {
        t := yy_def(t);
        if t >= 12 { k := yy_meta(k); }
      }
      t := yy_nxt(yy_base(t) + k);
    }

    /** The bytes from `bp` to `cp` have led to `state`. */
    ghost predicate Walking(state: int, bp: nat, cp: nat)
      reads this`ch_buf, this`buf_size, this`n_chars, this`status, this`buf_n_chars, source, ch_buf
    {
      Clean() && bp <= cp <= n_chars && state == After(ch_buf[bp..cp]) && state != YY_JAM
    }

    /** The byte before `cp` is a NUL, either a sentinel or a byte of the input. */
    ghost predicate SawNul(bp: nat, cp: nat)
      reads this`ch_buf, this`buf_size, this`n_chars, this`status, this`buf_n_chars, source, ch_buf
    {
      Clean() && bp < cp <= n_chars + 1 && ch_buf[cp - 1] == 0 && After(ch_buf[bp..cp - 1]) != YY_JAM
    }

    /** The lexeme at `bp` ends at `cp`. */
    ghost predicate Matched(act: int, bp: nat, cp: nat)
      reads this`ch_buf, this`buf_size, this`n_chars, this`status, this`buf_n_chars, source, ch_buf
    {
      Clean() && bp < cp <= n_chars && Ends(Tail(bp), cp - bp) && act == yy_accept(After(ch_buf[bp..cp]))
    }

    /** Before a turn of the loop at yy_match: on the way, or just past a NUL. */
    ghost predicate Running(state: int, bp: nat, cp: nat)
      reads this`ch_buf, this`buf_size, this`n_chars, this`status, this`buf_n_chars, source, ch_buf
    {
      if state == 3 then SawNul(bp, cp) else Walking(state, bp, cp)
    }

    /** After its last turn: the automaton has jammed, and the state before that is on record, or no byte can follow. */
    ghost predicate Stopped(state: int, bp: nat, cp: nat)
      reads this`ch_buf, this`buf_size, this`n_chars, this`status, this`buf_n_chars, source, ch_buf
      reads this`last_state, this`last_cpos
    {
      if state != YY_JAM then
        DfaState(state) && state < 12 && yy_accept(state) in {1, 2, 3, 4, 5} && Matched(yy_accept(state), bp, cp)
      else if last_state == 3 then SawNul(bp, last_cpos)
      else
        && DfaState(last_state) && last_state < 12 && yy_accept(last_state) in {1, 2, 3, 4, 5}
        && Matched(yy_accept(last_state), bp, last_cpos)
    }

    /** The body of the loop at yy_match. */
    method OneStep(state0: int, bp: nat, cp: nat) returns (state: int)
      requires Running(state0, bp, cp)
      modifies this`last_state, this`last_cpos
      ensures DfaState(state) && state < 12
      ensures yy_base(state) != YY_JAM_BASE ==> Running(state, bp, cp + 1)
      ensures yy_base(state) == YY_JAM_BASE ==> Stopped(state, bp, cp + 1)
      ensures state == YY_JAM ==> last_state == state0 && last_cpos == cp
    {
      var c := yy_ec(ch_buf[cp]);
      if yy_accept(state0) != 0 {
        last_state, last_cpos := state0, cp;
      }
      state := NextState(state0, c);
      if state0 != 3 {
        if yy_base(state) == YY_JAM_BASE { StepEnds(bp, cp, state0, state); } else { StepGoes(bp, cp, state0, state); }
      }
    }

    /** yy_match: run from `state0` until the automaton jams. */
    method RunToJam(state0: int, bp: nat, cp0: nat) returns (state: int, cp: nat)
      requires Running(state0, bp, cp0) && state0 != 3
      modifies this`last_state, this`last_cpos
      ensures DfaState(state) && state < 12 && Stopped(state, bp, cp)
      ensures state == YY_JAM && last_state == 3 ==> cp0 < last_cpos
    {
      state, cp := state0, cp0;
      while true
        invariant cp0 <= cp <= n_chars + 1 && (state == 3 ==> cp0 < cp) && Running(state, bp, cp)
        decreases n_chars + 2 - cp
      {
        state := OneStep(state, bp, cp);
        cp := cp + 1;
        if yy_base(state) == YY_JAM_BASE { break; }
      }
    }

    /** yy_match and yy_find_action, which backs up if need be.  Action 7 reports a NUL at `cp - 1`. */
    method FindMatch(state0: int, bp: nat, cp0: nat) returns (act: int, cp: nat)
      requires Walking(state0, bp, cp0)
      modifies this`last_state, this`last_cpos
      ensures act == YY_END_OF_BUFFER ==> cp0 < cp && SawNul(bp, cp)
      ensures act != YY_END_OF_BUFFER ==> Matched(act, bp, cp)
    {
      var state;
      state, cp := RunToJam(state0, bp, cp0);
      act := yy_accept(state);
      if act == 0 {
        cp, state := last_cpos, last_state;
        act := yy_accept(state);
      }
    }

    /** A step that does not stop the loop: on to more digits, or past a NUL. */
    lemma StepGoes(bp: nat, cp: nat, s: int, t: int)
      requires Walking(s, bp, cp) && t == Jump(s, yy_ec(ch_buf[cp])) && yy_base(t) != YY_JAM_BASE
      ensures Running(t, bp, cp + 1)
    {
      assert ch_buf[bp..cp + 1] == ch_buf[bp..cp] + [ch_buf[cp]];
      AfterStep(ch_buf[bp..cp], ch_buf[cp]);
    }

    lemma TailSplits(bp: nat, cp: nat)
      requires Clean() && bp <= cp < n_chars
      ensures Tail(bp) == ch_buf[bp..cp] + [ch_buf[cp]] + Tail(cp + 1)
      ensures ch_buf[bp..cp + 1] == ch_buf[bp..cp] + [ch_buf[cp]]
    {
    }

    /** A step that stops the loop on a byte that is not NUL. */
    lemma StepEnds(bp: nat, cp: nat, s: int, t: int)
      requires Walking(s, bp, cp) && t == Jump(s, yy_ec(ch_buf[cp])) && yy_base(t) == YY_JAM_BASE
      ensures if t == YY_JAM then yy_accept(s) in {1, 2, 3, 4, 5} && Matched(yy_accept(s), bp, cp)
              else yy_accept(t) in {1, 2, 3, 4, 5} && Matched(yy_accept(t), bp, cp + 1)
    {
      StopEnds(ch_buf[bp..cp], ch_buf[cp], if cp < n_chars then Tail(cp + 1) else [], t);
      TailSplits(bp, cp);
    }

    /** yy_get_previous_state: run the automaton again over the text matched so far, NULs included. */
    method GetPreviousState() returns (state: int)
      requires Clean() && text <= c_buf_p <= n_chars
      modifies this`last_state, this`last_cpos
      ensures state == After(ch_buf[text..c_buf_p])
    {
      state := 1;
      var cp := text;
      assert ch_buf[text..cp] == [];
      while cp < c_buf_p
        invariant text <= cp <= c_buf_p && state == After(ch_buf[text..cp])
      {
        var c := if ch_buf[cp] != 0 then yy_ec(ch_buf[cp]) else 1;
        if yy_accept(state) != 0 {
          last_state, last_cpos := state, cp;
        }
        assert ch_buf[text..cp + 1] == ch_buf[text..cp] + [ch_buf[cp]];
        AfterStep(ch_buf[text..cp], ch_buf[cp]);
        state := NextState(state, c);
        cp := cp + 1;
      }
    }

    /** yy_try_NUL_trans: the state after a NUL, or 0 when that jams. */
    method TryNulTrans(state: int) returns (next: int)
      requires DfaState(state) && state < 12
      modifies this`last_state, this`last_cpos
      ensures next == if Jump(state, 1) == YY_JAM then 0 else Jump(state, 1)
    {
      if yy_accept(state) != 0 {
        last_state, last_cpos := state, c_buf_p;
      }
      next := NextState(state, 1);
      if next == YY_JAM { next := 0; }
    }

    // ---- refilling ----

    /** Move the text of the current token to the front of the buffer. */
    method MoveToFront(n: nat)
      requires text + n <= ch_buf.Length
      modifies ch_buf
      ensures ch_buf[..n] == old(ch_buf[text..text + n])
    {
      ghost var was := ch_buf[..];
      var i := 0;
      while i < n
        invariant 0 <= i <= n && Shifted(was, ch_buf[..], text, i)
      {
        ghost var now := ch_buf[..];
        ShiftOne(was, now, text, i);
        ch_buf[i] := ch_buf[text + i];
        assert ch_buf[..] == now[i := was[text + i]];
        i := i + 1;
      }
    }

    /** Double the buffer until there is room behind `kept` bytes; the allocation moves. */
    method Grow(kept: nat) returns (room: nat)
      requires Framed() && kept < buf_size
      modifies this`ch_buf, this`buf_size
      ensures ch_buf.Length == buf_size + 2 && buf_size >= old(buf_size)
      ensures buf_size == if kept + 1 < old(buf_size) then old(buf_size) else 2 * old(buf_size)
      ensures room == buf_size - kept - 1 && room > 0
      ensures ch_buf == old(ch_buf) || fresh(ch_buf)
      ensures ch_buf[..kept] == old(ch_buf[..kept])
    {
      room := buf_size - kept - 1;
      while room <= 0
        invariant kept < buf_size && room == buf_size - kept - 1 && buf_size >= old(buf_size)
        invariant buf_size == old(buf_size) || (buf_size == 2 * old(buf_size) && kept + 1 == old(buf_size))
        invariant ch_buf.Length == buf_size + 2 && (ch_buf == old(ch_buf) || fresh(ch_buf))
        invariant ch_buf[..kept] == old(ch_buf[..kept])
        decreases 1 - room
      {
        buf_size := buf_size * 2;
        var bigger := new byte[buf_size + 2](i => 0);
        forall i | 0 <= i < ch_buf.Length { bigger[i] := ch_buf[i]; }
        ch_buf := bigger;
        room := buf_size - kept - 1;
      }
    }

    /** Put bytes behind the first `at` bytes of the buffer. */
    method Append(at: nat, chunk: seq<byte>)
      requires at + |chunk| <= ch_buf.Length
      modifies ch_buf
      ensures ch_buf[..at + |chunk|] == old(ch_buf[..at]) + chunk
    {
      forall i | 0 <= i < |chunk| { ch_buf[at + i] := chunk[i]; }
    }

    /** Make room and read. */
    method Load(kept: nat) returns (n: nat)
      requires Framed() && kept < buf_size
      modifies this`ch_buf, this`buf_size, ch_buf, source
      ensures ch_buf.Length == buf_size + 2 && buf_size >= old(buf_size) && kept + n < buf_size
      ensures ch_buf == old(ch_buf) || fresh(ch_buf)
      ensures ch_buf[..kept + n] + source.data == old(ch_buf[..kept] + source.data)
      ensures ch_buf[..kept] == old(ch_buf[..kept])
      ensures |source.data| + n == old(|source.data|) && (n == 0 <==> old(source.data) == [])
    {
      ghost var front := ch_buf[..kept];
      var room := Grow(kept);
      var chunk := source.Read(if room > YY_READ_BUF_SIZE then YY_READ_BUF_SIZE else room);
      Append(kept, chunk);
      n := |chunk|;
      assert ch_buf[..kept] == ch_buf[..kept + n][..kept];
      assert front + chunk + source.data == front + (chunk + source.data);
    }

    /** The read of yy_get_next_buffer, behind `kept` bytes that have been moved to the front. */
    method ReadBehind(kept: nat)
      requires ch_buf.Length == buf_size + 2 && kept < buf_size && (status == EofPending ==> source.data == [])
      requires n_chars < buf_size && status != New
      modifies this`ch_buf, this`buf_size, this`buf_n_chars, this`n_chars, ch_buf, source
      ensures ch_buf.Length == buf_size + 2 && kept + n_chars < buf_size && (ch_buf == old(ch_buf) || fresh(ch_buf))
      ensures ch_buf[..kept + n_chars] + source.data == old(ch_buf[..kept] + source.data)
      ensures |source.data| + n_chars == old(|source.data|)
      ensures n_chars == 0 <==> old(source.data) == []
      ensures kept <= kept + n_chars <= ch_buf.Length && ch_buf[..kept] == old(ch_buf[..kept])
    {
      if status == EofPending {
        buf_n_chars, n_chars := 0, 0;
        assert ch_buf[..kept + 0] == ch_buf[..kept];
      } else {
        n_chars := Load(kept);
        buf_n_chars := n_chars;
      }
    }

    /** yy_get_next_buffer: nothing of the input is lost or repeated, and both sentinels are back in place. */
    method GetNextBuffer() returns (r: Refill)
      requires Clean() && text <= n_chars && c_buf_p == n_chars + 1 && status != New
      modifies this, ch_buf, source
      ensures Clean() && text == 0 && (ch_buf == old(ch_buf) || fresh(ch_buf))
      ensures Tail(0) == old(Tail(text))
      ensures yylval == old(yylval) && complaints == old(complaints)
      ensures n_chars >= old(n_chars - text) && ch_buf[..old(n_chars - text)] == old(ch_buf[text..n_chars])
      ensures match r
        case ContinueScan => |source.data| < old(|source.data|)
        case LastMatch => old(source.data) == [] && 0 < n_chars == old(n_chars - text)
        case EndOfFile => old(source.data) == [] && n_chars == 0 && c_buf_p == 0 && hold == 0
    {
      var kept := c_buf_p - text - 1;
      MoveToFront(kept);
      ReadBehind(kept);
      ghost var whole := ch_buf[..kept + n_chars];
      assert whole[..kept] == old(ch_buf[text..n_chars]);
      r := Conclude(kept);
      assert ch_buf[0..n_chars] == whole;
      assert ch_buf[..kept] == whole[..kept];
    }

    /** What a read of `n_chars` bytes behind `kept` ones means for the scan. */
    method Conclude(kept: nat) returns (r: Refill)
      requires ch_buf.Length == buf_size + 2 && kept + n_chars < buf_size && status != New
      requires (status == EofPending ==> source.data == []) && (n_chars == 0 ==> source.data == [])
      modifies this`buf_n_chars, this`n_chars, this`c_buf_p, this`text, this`hold, this`status, ch_buf
      ensures Clean() && text == 0 && n_chars == old(n_chars) + kept
      ensures ch_buf[..n_chars] == old(ch_buf[..kept + n_chars])
      ensures r == if old(n_chars) > 0 then ContinueScan else if kept > 0 then LastMatch else EndOfFile
      ensures r == EndOfFile ==> c_buf_p == 0 && hold == 0
    {
      r := ContinueScan;
      if n_chars == 0 {
        if kept == 0 {
          r := EndOfFile;
          Restart();
        } else {
          r := LastMatch;
          status := EofPending;
        }
      }
      Seal(kept);
    }

    /** The end of yy_get_next_buffer: count the kept bytes in and put both sentinels back.  Extending the
        array once more is never necessary here. */
    method Seal(kept: nat)
      requires ch_buf.Length == buf_size + 2 && kept + n_chars < buf_size
      requires (status == EofPending ==> source.data == []) && (status == New ==> kept == 0 && buf_n_chars == n_chars)
      modifies this`n_chars, this`text, ch_buf
      ensures Clean() && n_chars == old(n_chars) + kept && text == 0
      ensures ch_buf[..n_chars] == old(ch_buf[..kept + n_chars])
    {
      assert n_chars + kept <= buf_size;
      n_chars := n_chars + kept;
      ch_buf[n_chars] := 0;
      ch_buf[n_chars + 1] := 0;
      text := 0;
    }

    // ---- one lexeme ----

    /** Input `t` starts at `bp`, and the automaton has reached `state` at `cp`. */
    ghost predicate Paused(go: Go, state: int, bp: nat, cp: nat, t: seq<byte>)
      reads this`ch_buf, this`buf_size, this`n_chars, this`status, this`buf_n_chars, source, ch_buf
    {
      && Walking(state, bp, cp) && Tail(bp) == t
      && (go == Rematch || (go == FindAction && Ends(t, cp - bp)))
    }

    /** The first lexeme of input `t` has been taken and `act` is its rule, or there was no input. */
    ghost predicate Took(act: int, t: seq<byte>)
      reads this`ch_buf, this`buf_size, this`n_chars, this`status, this`buf_n_chars, source, ch_buf
      reads this`text, this`c_buf_p, this`hold
    {
      Valid() &&
      if t == [] then act == YY_EOF_ACTION && Rest() == []
      else
        && Lexeme(t) == (c_buf_p - text, act)
        && ch_buf[text..c_buf_p] == t[..c_buf_p - text] && Rest() == t[c_buf_p - text..]
    }

    /** The NUL at `c_buf_p - 1` was a byte of the input: make its transition by hand. */
    method RealNul(amount: nat, ghost t: seq<byte>) returns (go: Go, state: int, cp: nat)
      requires Clean() && text + amount + 1 == c_buf_p <= n_chars && ch_buf[c_buf_p - 1] == 0
      requires After(ch_buf[text..text + amount]) != YY_JAM && t == Tail(text)
      modifies this`c_buf_p, this`last_state, this`last_cpos
      ensures Paused(go, state, text, cp, t)
      ensures cp - text == if go == Rematch then amount + 1 else amount
    {
      c_buf_p := text + amount;
      state := GetPreviousState();
      NulStep(text, c_buf_p, state, t);
      var next := TryNulTrans(state);
      if next != 0 {
        c_buf_p := c_buf_p + 1;
        state, go := next, Rematch;
      } else {
        go := FindAction;
      }
      cp := c_buf_p;
    }

    /** A NUL of the input is either one more byte of the match or the end of it. */
    lemma NulStep(bp: nat, p: nat, s: int, t: seq<byte>)
      requires Walking(s, bp, p) && p < n_chars && ch_buf[p] == 0 && t == Tail(bp)
      ensures if Jump(s, 1) == YY_JAM then Paused(FindAction, s, bp, p, t)
              else Paused(Rematch, Jump(s, 1), bp, p + 1, t)
    {
      TailSplits(bp, p);
      AfterStep(ch_buf[bp..p], 0);
      if Jump(s, 1) == YY_JAM { JamEnds(ch_buf[bp..p], 0, Tail(p + 1), t); }
    }

    /** Take up the match after a refill that kept `amount` bytes. */
    method Resume(r: Refill, amount: nat, ghost t: seq<byte>) returns (go: Go, state: int, cp: nat)
      requires Clean() && text == 0 && amount <= n_chars && After(ch_buf[..amount]) != YY_JAM && t == Tail(0)
      requires r == LastMatch ==> source.data == [] && 0 < n_chars == amount
      requires r == EndOfFile ==> source.data == [] && n_chars == 0 && hold == 0
      modifies this`c_buf_p, this`last_state, this`last_cpos
      ensures go == match r case ContinueScan => Rematch case LastMatch => FindAction case EndOfFile => Finished
      ensures if go == Finished then Took(YY_EOF_ACTION, t) else Paused(go, state, text, cp, t) && cp == amount
    {
      if r == EndOfFile {
        c_buf_p, cp := text, text;
        state, go := 1, Finished;
      } else {
        c_buf_p := if r == ContinueScan then text + amount else n_chars;
        cp := c_buf_p;
        assert ch_buf[0..cp] == ch_buf[..amount];
        state := GetPreviousState();
        go := if r == ContinueScan then Rematch else FindAction;
        if r == LastMatch {
          assert Tail(0) == ch_buf[..amount];
          TextEnds(ch_buf[..amount]);
        }
      }
    }

    /** The NUL at `c_buf_p - 1` was the sentinel: refill, and take up the match where it was. */
    method EndOfBuffer(amount: nat, ghost t: seq<byte>) returns (go: Go, state: int, cp: nat)
      requires Clean() && text + amount + 1 == c_buf_p == n_chars + 1 && status != New
      requires After(ch_buf[text..text + amount]) != YY_JAM && t == Tail(text)
      modifies this, ch_buf, source
      ensures (ch_buf == old(ch_buf) || fresh(ch_buf)) && yylval == old(yylval) && complaints == old(complaints)
      ensures if go == Finished then Took(YY_EOF_ACTION, t) else Paused(go, state, text, cp, t) && cp - text == amount
      ensures go == Rematch ==> |source.data| < old(|source.data|)
      ensures go == FindAction ==> source.data == old(source.data)
    {
      ghost var w := ch_buf[text..text + amount];
      var r := GetNextBuffer();
      assert ch_buf[..amount] == w;
      go, state, cp := Resume(r, amount, t);
    }

    /** YY_DO_BEFORE_ACTION. */
    method BeforeAction(bp: nat, cp: nat)
      requires Clean() && bp <= cp <= n_chars + 1
      modifies this`text, this`hold, this`c_buf_p, ch_buf
      ensures text == bp && c_buf_p == cp && hold == old(ch_buf[cp]) && ch_buf[..] == old(ch_buf[..])[cp := 0]
      ensures cp <= n_chars ==> Valid() && Rest() == old(Tail(cp)) && ch_buf[text..c_buf_p] == old(ch_buf[bp..cp])
    {
      text, hold, c_buf_p := bp, ch_buf[cp], cp;
      ch_buf[cp] := 0;
    }

    /** YY_DO_BEFORE_ACTION, undone again at the start of the action YY_END_OF_BUFFER. */
    method Interrupt(bp: nat, cp: nat)
      requires Clean() && bp < cp <= n_chars + 1
      modifies this`text, this`hold, this`c_buf_p, this`n_chars, this`status, ch_buf
      ensures Clean() && text == bp && c_buf_p == cp && n_chars == old(n_chars) && status != New
      ensures ch_buf[..] == old(ch_buf[..]) && ch_buf[cp - 1] == old(ch_buf[cp - 1])
      ensures ch_buf[bp..cp - 1] == old(ch_buf[bp..cp - 1]) && ch_buf[bp..n_chars] == old(ch_buf[bp..n_chars])
    {
      BeforeAction(bp, cp);
      ch_buf[c_buf_p] := hold;
      ghost var now := ch_buf[..];
      assert now == old(ch_buf[..]);
      if status == New {
        n_chars, status := buf_n_chars, Normal;
      }
      assert ch_buf[bp..cp - 1] == now[bp..cp - 1] && ch_buf[bp..n_chars] == now[bp..n_chars];
      assert ch_buf[cp - 1] == now[cp - 1];
    }

    /** The action YY_END_OF_BUFFER. */
    method EobAction(bp: nat, cp0: nat, ghost t: seq<byte>) returns (go: Go, state: int, cp: nat)
      requires SawNul(bp, cp0) && Tail(bp) == t
      modifies this, ch_buf, source
      ensures (ch_buf == old(ch_buf) || fresh(ch_buf)) && yylval == old(yylval) && complaints == old(complaints)
      ensures if go == Finished then Took(YY_EOF_ACTION, t) else Paused(go, state, text, cp, t)
      ensures go == Rematch ==>
        |source.data| < old(|source.data|) || (source.data == old(source.data) && cp - text == cp0 - bp)
      ensures go == FindAction ==> source.data == old(source.data) && cp - text == cp0 - bp - 1
    {
      Interrupt(bp, cp0);
      assert SawNul(bp, cp0) && Tail(bp) == t;
      if c_buf_p <= n_chars {
        go, state, cp := RealNul(c_buf_p - text - 1, t);
      } else {
        go, state, cp := EndOfBuffer(c_buf_p - text - 1, t);
      }
    }

    /** yy_match when `go` says so, and yy_find_action: the lexeme at `bp`, or a NUL to look into. */
    method Settle(go: Go, state0: int, bp: nat, cp0: nat, ghost t: seq<byte>) returns (act: int, cp: nat)
      requires Paused(go, state0, bp, cp0, t)
      modifies this`last_state, this`last_cpos
      ensures act == YY_END_OF_BUFFER ==> go == Rematch && cp0 < cp && SawNul(bp, cp)
      ensures act != YY_END_OF_BUFFER ==>
        && Clean() && bp < cp <= n_chars && (cp - bp, act) == Lexeme(t)
        && t[..cp - bp] == ch_buf[bp..cp] && t[cp - bp..] == Tail(cp)
    {
      cp := cp0;
      if go == Rematch {
        act, cp := FindMatch(state0, bp, cp);
      } else {
        act := yy_accept(state0);
        assert Matched(act, bp, cp);
      }
      if go == FindAction || act != YY_END_OF_BUFFER { MatchedIsLexeme(act, bp, cp, t); }
    }

    lemma MatchedIsLexeme(act: int, bp: nat, cp: nat, t: seq<byte>)
      requires Matched(act, bp, cp) && t == Tail(bp)
      ensures act != YY_END_OF_BUFFER && (cp - bp, act) == Lexeme(t)
      ensures t[..cp - bp] == ch_buf[bp..cp] && t[cp - bp..] == Tail(cp)
    {
      assert Tail(bp)[..cp - bp] == ch_buf[bp..cp];
      WalkFindsLexeme(t, cp - bp);
    }

    method TakeLexeme(act: int, bp: nat, cp: nat, ghost t: seq<byte>)
      requires Clean() && bp < cp <= n_chars && cp - bp <= |t| && (cp - bp, act) == Lexeme(t)
      requires t[..cp - bp] == ch_buf[bp..cp] && t[cp - bp..] == Tail(cp)
      modifies this`text, this`hold, this`c_buf_p, ch_buf
      ensures Took(act, t)
    {
      BeforeAction(bp, cp);
    }

    /** yylex from `yy_match` or `yy_find_action` to an action, or back there. */
    method Round(go0: Go, state0: int, bp: nat, cp0: nat, ghost t: seq<byte>)
      returns (act: int, go: Go, state: int, cp: nat)
      requires Paused(go0, state0, bp, cp0, t)
      modifies this, ch_buf, source
      ensures ch_buf == old(ch_buf) || fresh(ch_buf)
      ensures yylval == old(yylval) && complaints == old(complaints)
      ensures if go == Finished then Took(act, t) else Paused(go, state, text, cp, t)
      ensures go != Finished ==>
        || |source.data| < old(|source.data|)
        || (source.data == old(source.data) && go0 == Rematch &&
            cp - text >= cp0 - bp && (go == FindAction || cp - text > cp0 - bp))
    {
      act, cp := Settle(go0, state0, bp, cp0, t);
      state := state0;
      if act != YY_END_OF_BUFFER {
        TakeLexeme(act, bp, cp, t);
        go := Finished;
      } else {
        go, state, cp := EobAction(bp, cp, t);
        if go == Finished { act := YY_EOF_ACTION; }
      }
    }

    lemma PausedWithin(go: Go, state: int, bp: nat, cp: nat, t: seq<byte>)
      requires Paused(go, state, bp, cp, t)
      ensures 0 <= cp - bp <= |t|
    {
    }

    /** One turn of the loop in yylex: the longest match of the rest of the input, or the end-of-file action. */
    method Match() returns (act: int)
      requires Valid()
      modifies this, ch_buf, source
      ensures ch_buf == old(ch_buf) || fresh(ch_buf)
      ensures yylval == old(yylval) && complaints == old(complaints)
      ensures Took(act, old(Rest()))
    {
      ghost var t := Rest();
      var cp, bp := c_buf_p, c_buf_p;
      ch_buf[cp] := hold;
      assert ch_buf[bp..cp] == [] && Tail(bp) == t;
      var state, go := 1, Rematch;
      while true
        invariant Paused(go, state, bp, cp, t)
        invariant ch_buf == old(ch_buf) || fresh(ch_buf)
        invariant yylval == old(yylval) && complaints == old(complaints)
        decreases |source.data|, |t| - (cp - bp), go == Rematch
      {
        PausedWithin(go, state, bp, cp, t);
        act, go, state, cp := Round(go, state, bp, cp, t);
        if go == Finished { return; }
        bp := text;
        PausedWithin(go, state, bp, cp, t);
      }
    }

    /** The action of a rule; `more` tells that it does not return. */
    method Action(act: int) returns (more: bool, code: int)
      requires text <= c_buf_p <= ch_buf.Length
      requires act == YY_EOF_ACTION || (1 <= act <= 5 && Matches(act, ch_buf[text..c_buf_p]))
      modifies this`yylval, this`complaints
      ensures more <==> act == 4 || act == 5
      ensures complaints == old(complaints) + if act == 5 then 1 else 0
      ensures act == YY_EOF_ACTION ==> code == 0
      ensures act > 3 ==> yylval == old(yylval)
      ensures act <= 3 ==>
        var t := TokenOf(act, ch_buf[text..c_buf_p], big); code == Code(t) && yylval == Lval(t, old(yylval))
    {
      ghost var w := ch_buf[text..c_buf_p];
      more, code := false, 0;
      match act {
        case 1 =>
          assert ch_buf[text] == w[0];
          yylval := Known(ch_buf[text] - 97);
          code := 259;
        case 2 =>
          yylval := Known(Atoi(ch_buf[text..c_buf_p], big));
          code := 258;
        case 3 =>
          assert ch_buf[text] == w[0];
          code := ch_buf[text];
        case 4 => more := true;
        case 5 =>
          complaints := complaints + 1;
          more := true;
        case _ =>
      }
    }

    /** What yylex leaves behind after scanning to the next token `s` of the input. */
    ghost predicate Scanned(s: Scan, code: int, lval0: Value, complaints0: nat)
      reads this, source, ch_buf
    {
      Valid() && complaints == complaints0 + s.errs &&
      match s
      case End(_) => code == 0 && Rest() == [] && yylval == lval0
      case Found(t, rest, _) => code == Code(t) && Rest() == rest && yylval == Lval(t, lval0)
    }

    /** The next token of the rest of the input. */
    ghost function Ahead(): Scan
      requires Valid()
      reads this`ch_buf, this`buf_size, this`n_chars, this`status, this`buf_n_chars, source, ch_buf
      reads this`text, this`c_buf_p, this`hold
    {
      NextToken(Rest(), big)
    }

    /** The end of the input, or a lexeme that is not empty. */
    lemma TookStep(act: int, t: seq<byte>, s: Scan)
      requires Took(act, t) && s == NextToken(t, big)
      ensures act == YY_EOF_ACTION ==> s == End(0) && Rest() == []
      ensures act != YY_EOF_ACTION ==> 1 <= act <= 5 && Matches(act, ch_buf[text..c_buf_p]) && |Rest()| < |t|
      ensures act <= 3 ==> s == Found(TokenOf(act, ch_buf[text..c_buf_p], big), Rest(), 0)
      ensures act == 4 || act == 5 ==> s == MoreErrors(Ahead(), if act == 5 then 1 else 0)
    {
      if t != [] { FirstStep(t, big, c_buf_p - text, act); }
    }

    /** The action of the lexeme taken: report a token, or go on. */
    method Report(act: int, ghost t: seq<byte>, ghost s: Scan) returns (more: bool, code: int)
      requires Took(act, t) && s == NextToken(t, big)
      modifies this`yylval, this`complaints
      ensures !more ==> Scanned(s, code, old(yylval), old(complaints))
      ensures more ==>
        && Valid() && yylval == old(yylval) && |Rest()| < |t| && complaints >= old(complaints)
        && s == MoreErrors(Ahead(), complaints - old(complaints))
    {
      TookStep(act, t, s);
      more, code := Action(act);
    }

    /** One turn of the loop in yylex: a token, or one lexeme skipped. */
    method LexOnce(ghost t: seq<byte>, ghost s: Scan) returns (more: bool, code: int)
      requires Valid() && t == Rest() && s == Ahead()
      modifies this, ch_buf, source
      ensures ch_buf == old(ch_buf) || fresh(ch_buf)
      ensures !more ==> Scanned(s, code, old(yylval), old(complaints))
      ensures more ==>
        && Valid() && yylval == old(yylval) && |Rest()| < |t| && complaints >= old(complaints)
        && s == MoreErrors(Ahead(), complaints - old(complaints))
    {
      var act := Match();
      more, code := Report(act, t, s);
    }

    /** yylex: the next token of the input, whatever the reads that bring it in. */
    method Lex() returns (code: int)
      requires Valid()
      modifies this, ch_buf, source
      ensures ch_buf == old(ch_buf) || fresh(ch_buf)
      ensures Scanned(old(Ahead()), code, old(yylval), old(complaints))
    {
      ghost var s := Ahead();
      while true
        invariant Valid() && (ch_buf == old(ch_buf) || fresh(ch_buf)) && yylval == old(yylval)
        invariant complaints >= old(complaints) && s == MoreErrors(Ahead(), complaints - old(complaints))
        decreases |Rest()|
      {
        var more;
        more, code := LexOnce(Rest(), Ahead());
        if !more { return; }
      }
    }
  }
}
