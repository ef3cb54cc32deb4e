/** The buffered line readers of intro/reliable_test_client.c and intro/reliable_test_server.c. */
module LineReaders {
  import LexRules

  type byte = LexRules.byte

  // ---- what a socket delivers ----

  /** One return of recv or read: some bytes, EINTR, or another error.  After the last event comes end of file. */
  datatype Event = Data(first: byte, more: seq<byte>) | Interrupted | Failed

  /** What is left of it when pieces and interruptions are forgotten. */
  datatype Item = Byte(b: byte) | Broken

  function Items(bs: seq<byte>): seq<Item> { seq(|bs|, i requires 0 <= i < |bs| => Byte(bs[i])) }

  function Flatten(script: seq<Event>): seq<Item> {
    if script == [] then []
    else
      (match script[0]
       case Data(b, more) => Items([b] + more)
       case Interrupted => []
       case Failed => [Broken]) + Flatten(script[1..])
  }

  function Weight(script: seq<Event>): nat {
    if script == [] then 0 else 1 + (if script[0].Data? then |script[0].more| else 0) + Weight(script[1..])
  }

  lemma ItemsConcat(a: seq<byte>, b: seq<byte>)
    ensures Items(a + b) == Items(a) + Items(b)
  {
  }

  /** The events left when only the first `n` of some bytes fit. */
  function Leftover(bytes: seq<byte>, n: nat, rest: seq<Event>): seq<Event>
    requires n <= |bytes|
  {
    if n < |bytes| then [Data(bytes[n], bytes[n + 1..])] + rest else rest
  }

  lemma LeftoverFlattens(script: seq<Event>, bytes: seq<byte>, n: nat)
    requires script != [] && script[0].Data? && bytes == [script[0].first] + script[0].more && 0 < n <= |bytes|
    ensures Flatten(script) == Items(bytes[..n]) + Flatten(Leftover(bytes, n, script[1..]))
    ensures Weight(Leftover(bytes, n, script[1..])) < Weight(script)
  {
    SplitItems(bytes, n, Flatten(script[1..]));
    if n < |bytes| {
      assert [bytes[n]] + bytes[n + 1..] == bytes[n..];
      assert Leftover(bytes, n, script[1..])[1..] == script[1..];
    }
  }

  lemma SplitItems(bytes: seq<byte>, n: nat, f: seq<Item>)
    requires n <= |bytes|
    ensures Items(bytes) + f == Items(bytes[..n]) + (Items(bytes[n..]) + f)
    ensures n == |bytes| ==> Items(bytes[n..]) + f == f
  {
    assert bytes == bytes[..n] + bytes[n..];
    ItemsConcat(bytes[..n], bytes[n..]);
  }

  datatype Got = Bytes(n: nat) | Eintr | Error

  class Socket {
    var script: seq<Event>

    constructor (events: seq<Event>)
      ensures script == events
    {
      script := events;
    }

    /** recv or read into a buffer: `Bytes(0)` at end of file. */
    method Recv(buf: array<byte>) returns (got: Got)
      requires buf.Length > 0
      modifies this, buf
      ensures got == Bytes(0) <==> old(script) == []
      ensures got == Bytes(0) ==> script == []
      ensures got != Bytes(0) ==> Weight(script) < Weight(old(script))
      ensures got.Bytes? ==> got.n <= buf.Length && Flatten(old(script)) == Items(buf[..got.n]) + Flatten(script)
      ensures got == Eintr ==> Flatten(script) == Flatten(old(script))
      ensures got == Error ==> Flatten(old(script)) == [Broken] + Flatten(script)
      ensures old(script) != [] ==>
        match old(script)[0]
        case Interrupted => got == Eintr
        case Failed => got == Error
        case Data(b, more) => got.Bytes? && 0 < got.n <= buf.Length && buf[..got.n] <= [b] + more
    {
      if script == [] { return Bytes(0); }
      var event, rest := script[0], script[1..];
      match event {
        case Interrupted => script, got := rest, Eintr;
        case Failed => script, got := rest, Error;
        case Data(b, more) =>
          var bytes := [b] + more;
          var n := if |bytes| <= buf.Length then |bytes| else buf.Length;
          forall i | 0 <= i < n { buf[i] := bytes[i]; }
          assert buf[..n] == bytes[..n];
          LeftoverFlattens(script, bytes, n);
          script, got := Leftover(bytes, n, rest), Bytes(n);
      }
    }
  }

  // ---- the line splitter that both readers refine ----

  datatype End = Newline | Full | Eof | Break

  datatype Line = Line(end: End, stored: seq<byte>, rest: seq<Item>)

  /** Take bytes one at a time: up to and including a newline, at most `room` of them. */
  function Take(s: seq<Item>, room: nat): (l: Line)
    ensures |l.stored| <= room
  {
    if room == 0 then Line(Full, [], s)
    else if s == [] then Line(Eof, [], [])
    else match s[0]
      case Broken => Line(Break, [], s[1..])
      case Byte(b) => if b == 10 then Line(Newline, [b], s[1..]) else Ahead([b], Take(s[1..], room - 1))
  }

  function Ahead(bs: seq<byte>, l: Line): Line { l.(stored := bs + l.stored) }

  /** The line that has begun with `done` and goes on with `s`. */
  function Onward(done: seq<byte>, s: seq<Item>, room: nat): Line { Ahead(done, Take(s, room)) }

  predicate Plain(i: Item) { i.Byte? && i.b != 10 }

  /** How many items come before the first newline, error, end of input or the limit. */
  predicate Stop(s: seq<Item>, room: nat, k: nat) {
    && k <= room && k <= |s|
    && (forall i | 0 <= i < k :: Plain(s[i]))
    && (k < room && k < |s| ==> !Plain(s[k]))
  }

  /** There is one such place. */
  lemma StopUnique(s: seq<Item>, room: nat, j: nat, k: nat)
    requires Stop(s, room, j) && Stop(s, room, k)
    ensures j == k
  {
  }

  /** `l` is the line of `s` that ends at `k`. */
  ghost predicate EndsAt(s: seq<Item>, room: nat, k: nat, l: Line)
    requires Stop(s, room, k)
  {
    if k == room then l.end == Full && Items(l.stored) == s[..k] && l.rest == s[k..]
    else if k == |s| then l.end == Eof && Items(l.stored) == s && l.rest == []
    else if s[k].Broken? then l.end == Break && Items(l.stored) == s[..k] && l.rest == s[k + 1..]
    else l.end == Newline && Items(l.stored) == s[..k + 1] && l.rest == s[k + 1..]
  }

  lemma EndsAtAhead(s: seq<Item>, room: nat, k: nat, l: Line)
    requires s != [] && Plain(s[0]) && room > 0 && Stop(s[1..], room - 1, k) && EndsAt(s[1..], room - 1, k, l)
    ensures Stop(s, room, k + 1) && EndsAt(s, room, k + 1, Ahead([s[0].b], l))
  {
    ItemsConcat([s[0].b], l.stored);
    assert Items([s[0].b]) == [s[0]] && s == [s[0]] + s[1..];
    assert forall i | 0 < i < k + 1 :: s[i] == s[1..][i - 1];
  }

  /** Where the line ends decides everything about it. */
  lemma {:induction false} TakeMeaning(s: seq<Item>, room: nat) returns (k: nat)
    ensures Stop(s, room, k) && EndsAt(s, room, k, Take(s, room))
  {
    if room == 0 || s == [] || !Plain(s[0]) {
      k := 0;
    } else {
      k := TakeMeaning(s[1..], room - 1);
      EndsAtAhead(s, room, k, Take(s[1..], room - 1));
      k := k + 1;
    }
  }

  lemma AheadTwice(a: seq<byte>, b: seq<byte>, l: Line)
    ensures Ahead(a, Ahead(b, l)) == Ahead(a + b, l)
  {
    assert a + (b + l.stored) == a + b + l.stored;
  }

  lemma NoRoom(l: Line, done: seq<byte>, s: seq<Item>)
    requires l == Onward(done, s, 0)
    ensures l == Line(Full, done, s)
  {
    assert done + [] == done;
  }

  lemma HeadItem(bs: seq<byte>, f: seq<Item>)
    requires bs != []
    ensures Items(bs) + f == [Byte(bs[0])] + (Items(bs[1..]) + f)
  {
  }

  lemma NoItems(f: seq<Item>)
    ensures Items([]) + f == f
  {
  }

  lemma TakeByte(s: seq<Item>, room: nat, c: byte, rest: seq<Item>)
    requires s == [Byte(c)] + rest && room > 0
    ensures Take(s, room) == if c == 10 then Line(Newline, [c], rest) else Ahead([c], Take(rest, room - 1))
  {
    assert s[1..] == rest;
  }

  lemma TakeBroken(s: seq<Item>, room: nat, rest: seq<Item>)
    requires s == [Broken] + rest && room > 0
    ensures Take(s, room) == Line(Break, [], rest)
  {
    assert s[1..] == rest;
  }

  /** One byte was taken from input `s`, or the reason why none was. */
  ghost predicate Delivers(s: seq<Item>, got: Got, c: byte, s': seq<Item>) {
    match got
    case Bytes(n) => if n == 0 then s == [] && s' == [] else s == [Byte(c)] + s'
    case Eintr => s' == s
    case Error => s == [Broken] + s'
  }

  /** What a delivery means for the line, when there is room for a byte. */
  lemma TakeDelivered(s: seq<Item>, room: nat, got: Got, c: byte, s': seq<Item>)
    requires Delivers(s, got, c, s') && room > 0
    ensures match got
      case Bytes(n) =>
        if n == 0 then Take(s, room) == Line(Eof, [], s')
        else if c == 10 then Take(s, room) == Line(Newline, [c], s')
        else Take(s, room) == Ahead([c], Take(s', room - 1))
      case Eintr => Take(s, room) == Take(s', room)
      case Error => Take(s, room) == Line(Break, [], s')
  {
    if got.Bytes? && got.n > 0 { TakeByte(s, room, c, s'); }
    if got == Error { TakeBroken(s, room, s'); }
  }

  /** The caller's buffer afterwards: the stored bytes, a NUL behind them if `nul`, and the rest as it was. */
  ghost predicate Filled(stored: seq<byte>, nul: bool, was: seq<byte>, now: seq<byte>) {
    var n := |stored| + if nul then 1 else 0;
    n <= |was| == |now| && now[..|stored|] == stored && (nul ==> now[|stored|] == 0) && now[n..] == was[n..]
  }

  /** *ptr++ = c */
  method Put(buf: array<byte>, c: byte, ghost stored: seq<byte>, ghost was: seq<byte>, n: nat)
    requires Filled(stored, false, was, buf[..]) && n == |stored| < buf.Length
    modifies buf
    ensures Filled(stored + [c], false, was, buf[..])
  {
    ghost var now := buf[..];
    buf[n] := c;
    assert buf[..] == now[n := c];
    assert now[n := c][..n + 1] == now[..n] + [c];
    assert now[n + 1..] == now[n..][1..] && was[n + 1..] == was[n..][1..];
  }

  /** *ptr = 0 */
  method Terminate(buf: array<byte>, ghost stored: seq<byte>, ghost was: seq<byte>, n: nat)
    requires Filled(stored, false, was, buf[..]) && n == |stored| < buf.Length
    modifies buf
    ensures Filled(stored, true, was, buf[..])
  {
    ghost var now := buf[..];
    buf[n] := 0;
    assert buf[..] == now[n := 0];
    assert now[n + 1..] == now[n..][1..] && was[n + 1..] == was[n..][1..];
  }

  // ---- lines and buffers, item by item ----

  /** Where the first newline or error is, or the end of the input. */
  function FirstStop(s: seq<Item>): (k: nat)
    ensures k <= |s| && (forall i | 0 <= i < k :: s[i].Byte? && s[i].b != 10)
    ensures k < |s| ==> s[k].Broken? || s[k].b == 10
  {
    if s == [] || !Plain(s[0]) then 0 else 1 + FirstStop(s[1..])
  }

  /** The first `k` items are the bytes at the start of the buffer, a NUL is behind them if `nul`, and nothing else has
      been written. */
  ghost predicate Wrote(s: seq<Item>, k: nat, nul: bool, was: seq<byte>, now: seq<byte>) {
    var n := if nul then k + 1 else k;
    && k <= |s| && n <= |now| == |was|
    && (forall i | 0 <= i < k :: s[i] == Byte(now[i]))
    && (nul ==> now[k] == 0)
    && (forall i | n <= i < |now| :: now[i] == was[i])
  }

  lemma FilledWrote(s: seq<Item>, k: nat, stored: seq<byte>, nul: bool, was: seq<byte>, now: seq<byte>)
    requires k <= |s| && Items(stored) == s[..k] && Filled(stored, nul, was, now)
    ensures Wrote(s, k, nul, was, now)
  {
    var n := if nul then k + 1 else k;
    assert |Items(stored)| == |stored| == k;
    forall i | 0 <= i < k ensures s[i] == Byte(now[i]) {
      assert Items(stored)[i] == s[..k][i] && now[..k][i] == stored[i];
    }
    forall i | n <= i < |now| ensures now[i] == was[i] { assert now[n..][i - n] == was[n..][i - n]; }
  }

  /** What the splitter does, by where the first newline or error is. */
  lemma {:induction false} TakeByPlace(s: seq<Item>, room: nat)
    ensures var k := if FirstStop(s) < room then FirstStop(s) else room;
            k <= |s| && Stop(s, room, k) && EndsAt(s, room, k, Take(s, room))
  {
    var j := FirstStop(s);
    var k := if j < room then j else room;
    var m := TakeMeaning(s, room);
    StopUnique(s, room, m, k);
  }

  // ---- the client's readline ----

  /** -1 with EMSGSIZE when the line does not fit, 0 at end of file even after part of a line. */
  function ClientResult(l: Line): int {
    match l.end
    case Newline => |l.stored|
    case Full => -1
    case Eof => 0
    case Break => -1
  }

  const SIZE_T := 0x1_0000_0000_0000_0000

  /** How many bytes the loop can store: `--len` comes first, and on a length of 0 it wraps around. */
  function ClientRoom(len0: nat): (room: nat)
    requires len0 < SIZE_T
    ensures (room + 1) % SIZE_T == len0
  {
    if len0 == 0 then SIZE_T - 1 else len0 - 1
  }

  /** What the client's call stores, with the terminator of a whole line. */
  function ClientStores(l: Line): nat { |l.stored| + if l.end == Newline then 1 else 0 }

  /** A caller that passes its buffer's size is never overrun; a length of 0 is trusted without end. */
  lemma {:induction false} SizeSuffices(s: seq<Item>, len0: nat)
    requires 1 <= len0 < SIZE_T
    ensures ClientStores(Take(s, ClientRoom(len0))) <= len0 && ServerStores(Take(s, ServerRoom(len0))) <= len0
  {
    var l := Take(s, len0 - 1);
    var k := TakeMeaning(s, len0 - 1);
    assert |Items(l.stored)| == |l.stored|;
  }

  datatype Attempt = Again | Stored | Return(r: int)

  class ClientReader {
    const b: array<byte>
    var cnt: int     // the byte last returned and the unread ones after it
    var bp: nat
    ghost var input: seq<Item>   // everything not yet returned, buffered or not

    /** Exactly max(cnt - 1, 0) bytes are buffered and unread. */
    ghost predicate Valid(fd: Socket)
      reads this, b, fd
    {
      && b.Length == 1500
      && (if cnt >= 1 then bp + cnt - 1 <= b.Length && input == Items(b[bp..bp + cnt - 1]) + Flatten(fd.script)
          else input == Flatten(fd.script))
    }

    constructor (fd: Socket)
      ensures Valid(fd) && input == Flatten(fd.script) && fresh(b)
    {
      b := new byte[1500](i => 0);
      cnt, bp, input := 0, 0, Flatten(fd.script);
    }

    /** The refill: recv into an exhausted buffer. */
    method Refill(fd: Socket) returns (got: Got)
      requires b.Length == 1500
      modifies this`cnt, this`bp, b, fd
      ensures got != Bytes(0) ==> Weight(fd.script) < Weight(old(fd.script))
      ensures match got
        case Bytes(n) => cnt == n <= 1500 && (n > 0 ==> bp == 0) &&
                         Flatten(old(fd.script)) == Items(b[..n]) + Flatten(fd.script) &&
                         (n == 0 ==> old(fd.script) == fd.script == [])
        case Eintr => cnt == -1 && Flatten(fd.script) == Flatten(old(fd.script))
        case Error => cnt == -1 && Flatten(old(fd.script)) == [Broken] + Flatten(fd.script)
    {
      got := fd.Recv(b);
      if !got.Bytes? {
        cnt := -1;
      } else {
        cnt := got.n;
        if cnt > 0 { bp := 0; }
      }
    }

    /** c = *bp++, the current byte being counted in `cnt`. */
    method Consume(fd: Socket) returns (c: byte)
      requires b.Length == 1500 && cnt >= 1 && bp + cnt <= 1500
      requires input == Items(b[bp..bp + cnt]) + Flatten(fd.script)
      modifies this`bp, this`input
      ensures Valid(fd) && old(input) == [Byte(c)] + input
    {
      ghost var bs := b[bp..bp + cnt];
      HeadItem(bs, Flatten(fd.script));
      c := b[bp];
      bp := bp + 1;
      input := Items(bs[1..]) + Flatten(fd.script);
      assert bs[1..] == b[bp..bp + cnt - 1];
    }

    /** The body of the loop up to the test of `c`. */
    method NextByte(fd: Socket) returns (got: Got, c: byte)
      requires Valid(fd)
      modifies this, b, fd
      ensures Valid(fd) && Delivers(old(input), got, c, input)
      ensures got == Eintr ==> Weight(fd.script) < Weight(old(fd.script))
    {
      c, got := 0, Bytes(1);
      cnt := cnt - 1;
      if cnt <= 0 {
        NoItems(Flatten(fd.script));
        assert cnt == 0 ==> b[bp..bp] == [];
        got := Refill(fd);
        if cnt <= 0 {
          input := Flatten(fd.script);
          return;
        }
        assert b[..cnt] == b[bp..bp + cnt];
      }
      c := Consume(fd);
    }

    /** One turn of the loop, with room for `len` bytes: try again, go on with one more byte, or return. */
    method Attempt(fd: Socket, bufptr: array<byte>, n: nat, len: nat,
                   ghost l: Line, ghost done: seq<byte>, ghost was: seq<byte>)
      returns (a: Attempt, ghost done': seq<byte>)
      requires Valid(fd) && bufptr != b && n == |done| && len > 0 && ClientStores(l) <= bufptr.Length
      requires l == Onward(done, input, len) && Filled(done, false, was, bufptr[..])
      modifies this, b, fd, bufptr
      ensures Valid(fd)
      ensures match a
        case Again => done' == done && l == Onward(done, input, len) && Filled(done, false, was, bufptr[..]) &&
                      Weight(fd.script) < Weight(old(fd.script))
        case Stored => |done'| == n + 1 && l == Onward(done', input, len - 1) && Filled(done', false, was, bufptr[..])
        case Return(r) =>
          r == ClientResult(l) && input == l.rest && Filled(l.stored, l.end == Newline, was, bufptr[..])
    {
      done' := done;
      ghost var i := input;
      var got, c := NextByte(fd);
      TakeDelivered(i, len, got, c, input);
      if got == Eintr { return Again, done; }
      if got == Error { return Return(-1), done; }
      if got == Bytes(0) { return Return(0), done; }
      Put(bufptr, c, done, was, n);
      done' := done + [c];
      if c == 10 {
        Terminate(bufptr, done', was, n + 1);
        return Return(n + 1), done';
      }
      AheadTwice(done, [c], Take(input, len - 1));
      a := Stored;
    }

    /** The loop of readline: one line of the splitter. */
    method ReadLoop(fd: Socket, bufptr: array<byte>, len0: nat) returns (r: int)
      requires Valid(fd) && bufptr != b
      requires len0 < SIZE_T && ClientStores(Take(input, ClientRoom(len0))) <= bufptr.Length
      modifies this, b, fd, bufptr
      ensures Valid(fd)
      ensures var l := Take(old(input), ClientRoom(len0));
              r == ClientResult(l) && input == l.rest && Filled(l.stored, l.end == Newline, old(bufptr[..]), bufptr[..])
    {
      var len, n := ClientRoom(len0), 0;
      ghost var l, was, done := Take(input, len), bufptr[..], [];
      while len > 0
        invariant Valid(fd) && n == |done|
        invariant l == Onward(done, input, len) && Filled(done, false, was, bufptr[..])
        decreases len, Weight(fd.script)
      {
        var a;
        a, done := Attempt(fd, bufptr, n, len, l, done, was);
        if a.Return? { return a.r; }
        if a == Stored { len, n := len - 1, n + 1; }
      }
      NoRoom(l, done, input);
      r := -1;
    }

    /** readline: by where the first newline or error of the input is, however it arrives. */
    method ReadLine(fd: Socket, bufptr: array<byte>, len0: nat) returns (r: int)
      requires Valid(fd) && bufptr != b
      requires len0 < SIZE_T && ClientStores(Take(input, ClientRoom(len0))) <= bufptr.Length
      modifies this, b, fd, bufptr
      ensures Valid(fd)
      ensures var l := Take(old(input), ClientRoom(len0));
              r == ClientResult(l) && input == l.rest && Filled(l.stored, l.end == Newline, old(bufptr[..]), bufptr[..])
      ensures ClientReturns(old(input), if len0 == 0 then 0xFFFF_FFFF_FFFF_FFFF else len0 - 1,
                            r, input, old(bufptr[..]), bufptr[..])
    {
      ghost var s, was := input, bufptr[..];
      r := ReadLoop(fd, bufptr, len0);
      ClientMeans(s, ClientRoom(len0), r, input, was, bufptr[..]);
    }
  }

  /** With at most `limit` bytes to store, and the first newline or error of `s` at place k: -1 for a line that is too
      long, 0 at the end of the input even after part of a line, the length of a whole line, -1 for an error. */
  ghost predicate ClientReturns(s: seq<Item>, limit: nat, r: int, rest: seq<Item>, was: seq<byte>, now: seq<byte>) {
    var k := FirstStop(s);
    && (k >= limit ==> r == -1 && rest == s[limit..] && Wrote(s, limit, false, was, now))
    && (k < limit && k == |s| ==> r == 0 && rest == [] && Wrote(s, k, false, was, now))
    && (k < limit && k < |s| && s[k].Byte? ==> r == k + 1 && rest == s[k + 1..] && Wrote(s, k + 1, true, was, now))
    && (k < limit && k < |s| && s[k].Broken? ==> r == -1 && rest == s[k + 1..] && Wrote(s, k, false, was, now))
  }

  lemma ClientMeans(s: seq<Item>, limit: nat, r: int, rest: seq<Item>, was: seq<byte>, now: seq<byte>)
    requires var l := Take(s, limit);
             r == ClientResult(l) && rest == l.rest && Filled(l.stored, l.end == Newline, was, now)
    ensures ClientReturns(s, limit, r, rest, was, now)
  {
    var l, k := Take(s, limit), FirstStop(s);
    TakeByPlace(s, limit);
    assert |Items(l.stored)| == |l.stored|;
    var n := if k >= limit then limit else if k < |s| && s[k].Byte? then k + 1 else k;
    assert Items(l.stored) == s[..n];
    FilledWrote(s, n, l.stored, l.end == Newline, was, now);
  }

  // ---- my_read and the readline on top of it, in the server and again in the client ----

  /** The number of stored bytes, except that a full buffer counts one more. */
  function ServerResult(l: Line): int {
    match l.end
    case Newline => |l.stored|
    case Full => |l.stored| + 1
    case Eof => |l.stored|
    case Break => -1
  }

  /** Even a length of 0 has the terminator stored. */
  function ServerRoom(maxlen: nat): nat { if maxlen == 0 then 0 else maxlen - 1 }

  /** What the server's call stores, with the terminator that only an error omits. */
  function ServerStores(l: Line): nat { |l.stored| + if l.end == Break then 0 else 1 }

  class ServerReader {
    const read_buf: array<byte>
    var read_cnt: int    // the unread bytes
    var read_ptr: nat
    ghost var input: seq<Item>

    ghost predicate Valid(fd: Socket)
      reads this, read_buf, fd
    {
      && read_buf.Length == 1024
      && (if read_cnt > 0
          then read_ptr + read_cnt <= 1024 &&
               input == Items(read_buf[read_ptr..read_ptr + read_cnt]) + Flatten(fd.script)
          else input == Flatten(fd.script))
    }

    constructor (fd: Socket)
      ensures Valid(fd) && input == Flatten(fd.script) && fresh(read_buf)
    {
      read_buf := new byte[1024](i => 0);
      read_cnt, read_ptr, input := 0, 0, Flatten(fd.script);
    }

    /** The refill of my_read: read again as long as reads are interrupted. */
    method Refill(fd: Socket) returns (got: Got)
      requires read_buf.Length == 1024
      modifies this`read_cnt, this`read_ptr, read_buf, fd
      ensures got != Eintr && (got.Bytes? ==> read_cnt == got.n <= 1024 && (got.n > 0 ==> read_ptr == 0))
      ensures got.Bytes? ==> Flatten(old(fd.script)) == Items(read_buf[..got.n]) + Flatten(fd.script)
      ensures got == Bytes(0) ==> fd.script == [] && Flatten(old(fd.script)) == []
      ensures got == Error ==> read_cnt == -1 && Flatten(old(fd.script)) == [Broken] + Flatten(fd.script)
    {
      got := Eintr;
      while got == Eintr
        invariant got == Eintr ==> Flatten(fd.script) == Flatten(old(fd.script))
        invariant got.Bytes? ==> got.n <= 1024
        invariant got.Bytes? ==> Flatten(old(fd.script)) == Items(read_buf[..got.n]) + Flatten(fd.script)
        invariant got == Bytes(0) ==> fd.script == [] && Flatten(old(fd.script)) == []
        invariant got == Error ==> Flatten(old(fd.script)) == [Broken] + Flatten(fd.script)
        decreases got == Eintr, Weight(fd.script)
      {
        got := fd.Recv(read_buf);
      }
      read_cnt := if got == Error then -1 else got.n;
      if read_cnt > 0 { read_ptr := 0; }
    }

    /** *ptr = *read_ptr++ */
    method Consume(fd: Socket) returns (c: byte)
      requires read_buf.Length == 1024 && read_cnt > 0 && read_ptr + read_cnt <= 1024
      requires input == Items(read_buf[read_ptr..read_ptr + read_cnt]) + Flatten(fd.script)
      modifies this
      ensures Valid(fd) && old(input) == [Byte(c)] + input
    {
      ghost var bs := read_buf[read_ptr..read_ptr + read_cnt];
      HeadItem(bs, Flatten(fd.script));
      read_cnt := read_cnt - 1;
      c := read_buf[read_ptr];
      read_ptr := read_ptr + 1;
      input := Items(bs[1..]) + Flatten(fd.script);
      assert bs[1..] == read_buf[read_ptr..read_ptr + read_cnt];
      NoItems(Flatten(fd.script));
    }

    /** my_read. */
    method MyRead(fd: Socket) returns (got: Got, c: byte)
      requires Valid(fd)
      modifies this, read_buf, fd
      ensures Valid(fd) && got != Eintr && Delivers(old(input), got, c, input)
    {
      c, got := 0, Bytes(1);
      if read_cnt <= 0 {
        got := Refill(fd);
        if read_cnt <= 0 {
          input := Flatten(fd.script);
          return;
        }
        assert read_buf[..read_cnt] == read_buf[read_ptr..read_ptr + read_cnt];
      }
      c := Consume(fd);
    }

    /** One turn of the loop, with `n - 1` bytes stored and room for `left` more. */
    method Attempt(fd: Socket, vptr: array<byte>, n: nat,
                   ghost left: nat, ghost l: Line, ghost done: seq<byte>, ghost was: seq<byte>)
      returns (a: Attempt, ghost done': seq<byte>)
      requires Valid(fd) && vptr != read_buf && n == |done| + 1 && 0 < left && ServerStores(l) <= vptr.Length
      requires l == Onward(done, input, left) && Filled(done, false, was, vptr[..])
      modifies this, read_buf, fd, vptr
      ensures Valid(fd) && a != Again
      ensures a == Stored ==>
        |done'| == n && l == Onward(done', input, left - 1) && Filled(done', false, was, vptr[..])
      ensures a.Return? ==> a.r == ServerResult(l) && input == l.rest && Filled(l.stored, l.end != Break, was, vptr[..])
    {
      ghost var i := input;
      var got, c := MyRead(fd);
      TakeDelivered(i, left, got, c, input);
      done' := done;
      if got == Error { return Return(-1), done; }
      if got == Bytes(0) {
        Terminate(vptr, done, was, n - 1);
        return Return(n - 1), done;
      }
      a, done' := Keep(vptr, c, n, left, l, done, was);
    }

    /** A byte has been read: store it and see whether it ends the line. */
    method Keep(vptr: array<byte>, c: byte, n: nat,
                ghost left: nat, ghost l: Line, ghost done: seq<byte>, ghost was: seq<byte>)
      returns (a: Attempt, ghost done': seq<byte>)
      requires n == |done| + 1 && 0 < left && ServerStores(l) <= vptr.Length && Filled(done, false, was, vptr[..])
      requires l == Ahead(done, if c == 10 then Line(Newline, [c], input) else Ahead([c], Take(input, left - 1)))
      modifies vptr
      ensures a != Again
      ensures a == Stored ==>
        |done'| == n && l == Onward(done', input, left - 1) && Filled(done', false, was, vptr[..])
      ensures a.Return? ==> a.r == ServerResult(l) && input == l.rest && Filled(l.stored, l.end != Break, was, vptr[..])
    {
      Put(vptr, c, done, was, n - 1);
      done' := done + [c];
      if c == 10 {
        Terminate(vptr, done', was, n);
        return Return(n), done';
      }
      AheadTwice(done, [c], Take(input, left - 1));
      a := Stored;
    }

    /** The loop of readline: one line or one full buffer of the splitter. */
    method ReadLoop(fd: Socket, vptr: array<byte>, maxlen: nat) returns (r: int)
      requires Valid(fd) && vptr != read_buf && ServerStores(Take(input, ServerRoom(maxlen))) <= vptr.Length
      modifies this, read_buf, fd, vptr
      ensures Valid(fd)
      ensures var l := Take(old(input), ServerRoom(maxlen));
              r == ServerResult(l) && input == l.rest && Filled(l.stored, l.end != Break, old(vptr[..]), vptr[..])
    {
      ghost var left, was, done := ServerRoom(maxlen), vptr[..], [];
      ghost var l := Take(input, left);
      var n := 1;
      while n < maxlen
        invariant Valid(fd) && n == |done| + 1 && left == if n < maxlen then maxlen - n else 0
        invariant l == Onward(done, input, left) && Filled(done, false, was, vptr[..])
      {
        var a;
        a, done := Attempt(fd, vptr, n, left, l, done, was);
        if a.Return? { return a.r; }
        n, left := n + 1, left - 1;
      }
      r := Finish(vptr, n, l, done, was);
    }

    /** The end of the loop with a full buffer. */
    method Finish(vptr: array<byte>, n: nat, ghost l: Line, ghost done: seq<byte>, ghost was: seq<byte>)
      returns (r: int)
      requires n == |done| + 1 && ServerStores(l) <= vptr.Length
      requires l == Onward(done, input, 0) && Filled(done, false, was, vptr[..])
      modifies vptr
      ensures r == ServerResult(l) && input == l.rest && l.end == Full && Filled(l.stored, true, was, vptr[..])
    {
      NoRoom(l, done, input);
      Terminate(vptr, done, was, n - 1);
      r := n;
    }

    /** readline (readline2 in the client): by where the first newline or error of the input is, however it arrives. */
    method ReadLine(fd: Socket, vptr: array<byte>, maxlen: nat) returns (r: int)
      requires Valid(fd) && vptr != read_buf && ServerStores(Take(input, ServerRoom(maxlen))) <= vptr.Length
      modifies this, read_buf, fd, vptr
      ensures Valid(fd)
      ensures var l := Take(old(input), ServerRoom(maxlen));
              r == ServerResult(l) && input == l.rest && Filled(l.stored, l.end != Break, old(vptr[..]), vptr[..])
      ensures ServerReturns(old(input), if maxlen == 0 then 0 else maxlen - 1,
                            r, input, old(vptr[..]), vptr[..])
    {
      ghost var s, was := input, vptr[..];
      r := ReadLoop(fd, vptr, maxlen);
      ServerMeans(s, ServerRoom(maxlen), r, input, was, vptr[..]);
    }
  }

  /** With at most `limit` bytes to store, and the first newline or error of `s` at place k: one more than the limit for
      a full buffer, the number of bytes at the end of the input, the length of a whole line, -1 for an error. */
  ghost predicate ServerReturns(s: seq<Item>, limit: nat, r: int, rest: seq<Item>, was: seq<byte>, now: seq<byte>) {
    var k := FirstStop(s);
    && (k >= limit ==> r == limit + 1 && rest == s[limit..] && Wrote(s, limit, true, was, now))
    && (k < limit && k == |s| ==> r == k && rest == [] && Wrote(s, k, true, was, now))
    && (k < limit && k < |s| && s[k].Byte? ==> r == k + 1 && rest == s[k + 1..] && Wrote(s, k + 1, true, was, now))
    && (k < limit && k < |s| && s[k].Broken? ==> r == -1 && rest == s[k + 1..] && Wrote(s, k, false, was, now))
  }

  lemma ServerMeans(s: seq<Item>, limit: nat, r: int, rest: seq<Item>, was: seq<byte>, now: seq<byte>)
    requires var l := Take(s, limit);
             r == ServerResult(l) && rest == l.rest && Filled(l.stored, l.end != Break, was, now)
    ensures ServerReturns(s, limit, r, rest, was, now)
  {
    var l, k := Take(s, limit), FirstStop(s);
    TakeByPlace(s, limit);
    assert |Items(l.stored)| == |l.stored|;
    var n := if k >= limit then limit else if k < |s| && s[k].Byte? then k + 1 else k;
    assert Items(l.stored) == s[..n];
    FilledWrote(s, n, l.stored, l.end != Break, was, now);
  }

  // ---- what the readers have in common, and where they differ ----

  predicate NoErrors(s: seq<Item>) { forall i | 0 <= i < |s| :: s[i].Byte? }

  /** Some newline or error is among the first `room` items. */
  predicate Settled(s: seq<Item>, room: nat) {
    exists i | 0 <= i < room && i < |s| :: !Plain(s[i])
  }

  /** With the same buffer size the two readers return the same count exactly when the line, or an error, comes before
      the buffer is full and before the input ends, or when there is no input at all. */
  lemma {:induction false} ReadersAgree(s: seq<Item>, room: nat)
    ensures ClientResult(Take(s, room)) == ServerResult(Take(s, room)) <==> Settled(s, room) || (s == [] && room > 0)
  {
    var k := TakeMeaning(s, room);
    if k < room && k < |s| { assert !Plain(s[k]); }
    var l := Take(s, room);
    assert |Items(l.stored)| == |l.stored|;
  }

  /** The results of calls one after the other with the bytes they store, up to the first that is not positive (or
      that makes no progress, as with no room at all). */
  function Returns(s: seq<Item>, room: nat, client: bool): seq<(int, seq<byte>)>
    decreases |s|
  {
    var l := Take(s, room);
    var r := if client then ClientResult(l) else ServerResult(l);
    [(r, l.stored)] + if r <= 0 || |l.rest| >= |s| then [] else Returns(l.rest, room, client)
  }

  /** The place of the first error, or the end of the input. */
  function FirstBroken(s: seq<Item>): (k: nat)
    ensures k <= |s| && (forall i | 0 <= i < k :: s[i].Byte?) && (k < |s| ==> s[k].Broken?)
  {
    if s == [] || s[0].Broken? then 0 else 1 + FirstBroken(s[1..])
  }

  /** From every place before the first error, a newline or the error comes before a buffer is full. */
  ghost predicate Timely(s: seq<Item>, room: nat) { forall i | 0 <= i < FirstBroken(s) :: Settled(s[i..], room) }

  lemma {:induction false} FirstBrokenAfter(s: seq<Item>, n: nat)
    requires n <= |s| && forall i | 0 <= i < n :: s[i].Byte?
    ensures FirstBroken(s) == n + FirstBroken(s[n..])
  {
    if n == 0 {
      assert s[0..] == s;
    } else {
      FirstBrokenAfter(s[1..], n - 1);
      assert s[1..][n - 1..] == s[n..];
    }
  }

  lemma SettledInLine(s: seq<Item>, room: nat, k: nat, i: nat)
    requires i <= k < room && k < |s| && !Plain(s[k])
    ensures Settled(s[i..], room)
  {
    assert s[i..][k - i] == s[k];
  }

  lemma TimelyError(s: seq<Item>, room: nat, k: nat)
    requires k < room && k < |s| && s[k].Broken?
    ensures Timely(s, room)
  {
    forall i | 0 <= i < FirstBroken(s) ensures Settled(s[i..], room) { SettledInLine(s, room, k, i); }
  }

  lemma TimelyLine(s: seq<Item>, room: nat, k: nat)
    requires k < room && k < |s| && !Plain(s[k]) && forall i | 0 <= i <= k :: s[i].Byte?
    ensures Timely(s, room) <==> Timely(s[k + 1..], room)
  {
    var rest := s[k + 1..];
    FirstBrokenAfter(s, k + 1);
    assert forall i | 0 <= i <= |rest| :: rest[i..] == s[k + 1 + i..];
    if Timely(s, room) {
      forall i | 0 <= i < FirstBroken(rest) ensures Settled(rest[i..], room) {
        assert Settled(s[k + 1 + i..], room);
      }
    }
    if Timely(rest, room) {
      forall i | 0 <= i < FirstBroken(s) ensures Settled(s[i..], room) {
        if i <= k { SettledInLine(s, room, k, i); } else { assert rest[i - k - 1..] == s[i..]; }
      }
    }
  }

  /** What the first call settles. */
  lemma {:induction false} FirstReturn(s: seq<Item>, room: nat)
    requires room > 0 && Settled(s, room)
    ensures var l := Take(s, room);
            if l.end == Newline then |l.rest| < |s| && |l.stored| > 0 && (Timely(s, room) <==> Timely(l.rest, room))
            else l.end == Break && Timely(s, room)
  {
    var k := TakeMeaning(s, room);
    var l := Take(s, room);
    assert |Items(l.stored)| == |l.stored|;
    if s[k].Broken? { TimelyError(s, room, k); } else { TimelyLine(s, room, k); }
  }

  lemma UnsettledIsLate(s: seq<Item>, room: nat)
    requires room > 0 && s != [] && !Settled(s, room)
    ensures !Timely(s, room)
  {
    assert s[0..] == s;
    assert Plain(s[0]);
  }

  /** The two readers return the same counts and store the same bytes, call after call, exactly on timely input. */
  lemma {:induction false} SameReturns(s: seq<Item>, room: nat)
    ensures Returns(s, room, true) == Returns(s, room, false) <==> room > 0 && Timely(s, room)
    decreases |s|
  {
    ReadersAgree(s, room);
    var l, c, v := Take(s, room), Returns(s, room, true), Returns(s, room, false);
    assert c[0] == (ClientResult(l), l.stored) && v[0] == (ServerResult(l), l.stored);
    if room > 0 && Settled(s, room) {
      FirstReturn(s, room);
      if l.end == Newline {
        SameReturns(l.rest, room);
        assert c[1..] == Returns(l.rest, room, true) && v[1..] == Returns(l.rest, room, false);
      }
    } else if room > 0 && s != [] {
      UnsettledIsLate(s, room);
    }
  }

  /** The successive results of the server's readline until it reports the end of the input. */
  function Calls(s: seq<Item>, room: nat): seq<Line>
    requires room > 0
    decreases |s|
  {
    var l := Take(s, room);
    TakeShrinks(s, room);
    if ServerResult(l) == 0 then [] else [l] + Calls(l.rest, room)
  }

  lemma {:induction false} TakeShrinks(s: seq<Item>, room: nat)
    requires room > 0
    ensures ServerResult(Take(s, room)) != 0 ==> |Take(s, room).rest| < |s|
  {
    var k := TakeMeaning(s, room);
    assert |Items(Take(s, room).stored)| == |Take(s, room).stored|;
  }

  function Joined(ls: seq<Line>): seq<byte> {
    if ls == [] then [] else ls[0].stored + Joined(ls[1..])
  }

  /** A line, a full buffer, or the last piece. */
  predicate Whole(l: Line, room: nat, last: bool) {
    match l.end
    case Newline => 0 < |l.stored| <= room && l.stored[|l.stored| - 1] == 10
    case Full => |l.stored| == room
    case Eof => last
    case Break => false
  }

  lemma {:induction false} TakeSplits(s: seq<Item>, room: nat)
    requires NoErrors(s)
    ensures var l := Take(s, room);
            s == Items(l.stored) + l.rest && NoErrors(l.rest) && (l.end == Eof ==> l.rest == []) && Whole(l, room, true)
  {
    var k := TakeMeaning(s, room);
    var l := Take(s, room);
    assert |Items(l.stored)| == |l.stored|;
    if l.end == Newline { assert Items(l.stored)[k] == s[k]; }
  }

  lemma CallsStep(s: seq<Item>, room: nat)
    requires room > 0
    ensures var l := Take(s, room);
            if ServerResult(l) == 0 then Calls(s, room) == []
            else |l.rest| < |s| && Calls(s, room) == [l] + Calls(l.rest, room)
  {
    TakeShrinks(s, room);
  }

  lemma JoinedStep(l: Line, ls: seq<Line>)
    ensures Items(Joined([l] + ls)) == Items(l.stored) + Items(Joined(ls))
  {
    assert ([l] + ls)[1..] == ls;
    ItemsConcat(l.stored, Joined(ls));
  }

  /** Absent read errors, the calls together return every byte once and in order. */
  lemma {:induction false} NothingLost(s: seq<Item>, room: nat)
    requires room > 0 && NoErrors(s)
    ensures Items(Joined(Calls(s, room))) == s
    decreases |s|
  {
    var l := Take(s, room);
    TakeSplits(s, room);
    CallsStep(s, room);
    if ServerResult(l) != 0 {
      NothingLost(l.rest, room);
      JoinedStep(l, Calls(l.rest, room));
    }
  }

  /** Each of them returns a line or a full buffer, except that the last may return what is left. */
  lemma {:induction false} EachCallWhole(s: seq<Item>, room: nat)
    requires room > 0 && NoErrors(s)
    ensures forall i | 0 <= i < |Calls(s, room)| :: Whole(Calls(s, room)[i], room, i == |Calls(s, room)| - 1)
    decreases |s|
  {
    var l := Take(s, room);
    TakeSplits(s, room);
    CallsStep(s, room);
    if ServerResult(l) != 0 {
      var c := Calls(l.rest, room);
      EachCallWhole(l.rest, room);
      if l.end == Eof { CallsStep([], room); }
      assert forall i | 0 < i < |[l] + c| :: ([l] + c)[i] == c[i - 1];
    }
  }
}
