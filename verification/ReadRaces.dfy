/** What can go wrong between the producer and the readers of live/epoll/my_poll_dev/my_poll_dev.c, and exactly when. */
module ReadRaces {
  import opened PollDevice
  import opened Histories

  // ---- steps ----

  predicate Fills(d: Device, s: Step) { s == Produce && d.producer == Fill }

  predicate Publishes(d: Device, s: Step) { s == Produce && d.producer == Publish }

  /** The step copies at least one byte. */
  predicate Copies(d: Device, s: Step) {
    s.Read? && s.j < |d.readers| && d.readers[s.j].Idle? && d.readbuflen != 0
  }

  predicate Clears(d: Device, s: Step) { s.Read? && s.j < |d.readers| && d.readers[s.j].Clearing? }

  predicate ClearsOrFills(d: Device, s: Step) { Clears(d, s) || Fills(d, s) }

  /** The step stores a length. */
  predicate Stores(d: Device, s: Step) { Publishes(d, s) || Clears(d, s) }

  // ---- what is in the buffer ----

  /** The message whose length is stored, if any is: the one before, while the buffer is ahead of its length. */
  function Described(d: Device): int { if d.producer == Publish then d.text - 1 else d.text }

  predicate Consistent(d: Device) {
    && (d.producer == Publish ==> d.text >= 1)
    && (forall m | m in d.seen :: 1 <= m <= d.text)
    && (d.readbuflen != 0 ==> Described(d) >= 1 && d.readbuflen == MessageLength(Described(d)))
  }

  lemma StepConsistent(d: Device, s: Step)
    requires Consistent(d)
    ensures Consistent(Next(d, s))
  {
  }

  predicate Uncopied(d: Device) { d.text != 0 && d.text !in d.seen }

  predicate OnOffer(d: Device) { d.readbuflen != 0 && d.producer != Publish }

  predicate LengthStored(d: Device) { d.readbuflen != 0 }

  predicate AheadOfLength(d: Device) { d.producer == Publish }

  lemma UncopiedSwitches()
    ensures Switches(Consistent, Uncopied, Fills, Copies)
  {
    forall d, s | Consistent(d) ensures Consistent(Next(d, s)) { StepConsistent(d, s); }
  }

  lemma OnOfferSwitches()
    ensures Switches(Consistent, OnOffer, Publishes, ClearsOrFills)
  {
    forall d, s | Consistent(d) ensures Consistent(Next(d, s)) { StepConsistent(d, s); }
  }

  lemma LengthSwitches()
    ensures Switches(Consistent, LengthStored, Publishes, Clears)
  {
    forall d, s | Consistent(d) ensures Consistent(Next(d, s)) { StepConsistent(d, s); }
  }

  lemma AheadSwitches()
    ensures Switches(Consistent, AheadOfLength, Fills, Publishes)
  {
    forall d, s | Consistent(d) ensures Consistent(Next(d, s)) { StepConsistent(d, s); }
  }

  // ---- messages that nobody gets ----

  /** The message in the buffer has its length stored and nobody has copied any of it.  Clearing the length now discards
      it: it can no longer be copied, and the next text will replace it. */
  predicate Unread(d: Device) { Uncopied(d) && OnOffer(d) }

  /** In every run: nobody has copied since the fill, and nobody has cleared, nor filled again, since the publish. */
  lemma UnreadIff(pollers: nat, readers: nat, run: seq<Step>)
    ensures var d := Initial(pollers, readers);
      Unread(After(d, run)) <==> Since(d, run, Fills, Copies) && Since(d, run, Publishes, ClearsOrFills)
  {
    var d := Initial(pollers, readers);
    UncopiedSwitches();
    OnOfferSwitches();
    HoldsSince(d, run, Consistent, Uncopied, Fills, Copies);
    HoldsSince(d, run, Consistent, OnOffer, Publishes, ClearsOrFills);
  }

  /** A publish while reader `j` is inside read. */
  function PublishesDuring(j: nat): Happening {
    (d: Device, s: Step) => Publishes(d, s) && j < |d.readers| && !d.readers[j].Idle?
  }

  lemma SinceWeaker(d: Device, run: seq<Step>, a: Happening, a': Happening, b: Happening)
    requires Since(d, run, a, b) && forall e, s | a(e, s) :: a'(e, s)
    ensures Since(d, run, a', b)
  {
    var k :| 0 <= k < |run| && LastAt(d, run, a, b, k);
    assert LastAt(d, run, a', b, k);
  }

  lemma UnreadStep(d: Device, s: Step, j: nat)
    requires Consistent(d) && Unread(Next(d, s)) && j < |Next(d, s).readers| && !Next(d, s).readers[j].Idle?
    ensures PublishesDuring(j)(d, s) ||
            (Unread(d) && !ClearsOrFills(d, s) && j < |d.readers| && !d.readers[j].Idle?)
  {
  }

  lemma {:induction false} PublishedDuringRead(d: Device, run: seq<Step>, j: nat)
    requires Consistent(d) && !Unread(d)
    ensures Consistent(After(d, run))
    ensures var e := After(d, run);
      Unread(e) && j < |e.readers| && !e.readers[j].Idle? ==> Since(d, run, PublishesDuring(j), ClearsOrFills)
    decreases |run|
  {
    if run != [] {
      var r, s := run[..|run| - 1], run[|run| - 1];
      PublishedDuringRead(d, r, j);
      StepConsistent(After(d, r), s);
      SinceStep(d, r, s, PublishesDuring(j), ClearsOrFills);
      assert run == r + [s];
      var e := After(d, run);
      if Unread(e) && j < |e.readers| && !e.readers[j].Idle? { UnreadStep(After(d, r), s, j); }
    }
  }

  /** A reader that is about to clear the length discards a message of which nobody has copied anything exactly when
      nobody has copied since it was filled, and it was published while this reader was inside read, and nobody has
      cleared, nor filled again, since. */
  lemma DiscardIff(pollers: nat, readers: nat, run: seq<Step>, j: nat)
    requires var d := After(Initial(pollers, readers), run); j < |d.readers| && d.readers[j].Clearing?
    ensures var d := Initial(pollers, readers);
      Unread(After(d, run)) <==> Since(d, run, Fills, Copies) && Since(d, run, PublishesDuring(j), ClearsOrFills)
  {
    var d := Initial(pollers, readers);
    UnreadIff(pollers, readers, run);
    if Unread(After(d, run)) { PublishedDuringRead(d, run, j); }
    if Since(d, run, PublishesDuring(j), ClearsOrFills) {
      SinceWeaker(d, run, PublishesDuring(j), Publishes, ClearsOrFills);
    }
  }

  lemma AfterStep(d: Device, run: seq<Step>, s: Step)
    ensures After(d, run + [s]) == Next(After(d, run), s)
  {
    assert (run + [s])[..|run|] == run;
  }

  lemma TwoSteps(d: Device, run: seq<Step>, s: Step, t: Step) returns (r: seq<Step>)
    ensures r == run + [s] + [t] && After(d, r) == Next(Next(After(d, run), s), t)
  {
    r := run + [s] + [t];
    AfterStep(d, run, s);
    AfterStep(d, run + [s], t);
  }

  /** It happens: message 2 is filled and published while the reader of message 1 is on its way out, and is gone. */
  lemma MessageIsDiscarded() returns (run: seq<Step>)
    ensures var d := After(Initial(0, 1), run);
      && d.readers == [Clearing(1, 8, 8)] && d.text == 2 && Unread(d)
      && Next(d, Read(0)).readbuflen == 0 && 2 !in Next(d, Read(0)).seen
  {
    var d0 := Initial(0, 1);
    var r2 := TwoSteps(d0, [], Produce, Produce);
    assert After(d0, r2) == Device(1, 8, Wake, [], [Idle], {});
    var r4 := TwoSteps(d0, r2, Read(0), Read(0));
    assert After(d0, r4) == Device(1, 8, Wake, [], [Clearing(1, 8, 8)], {1});
    var r6 := TwoSteps(d0, r4, Produce, Produce);
    run := r6 + [Produce];
    AfterStep(d0, r6, Produce);
  }

  // ---- copies that are cut short ----

  predicate PowerOfTen(n: nat) { n == 10 || (n > 10 && n % 10 == 0 && PowerOfTen(n / 10)) }

  /** The length changes only at the powers of ten from 10 on, and then by one. */
  lemma {:induction false} LengthSteps(n: nat)
    requires n >= 1
    ensures MessageLength(n) == MessageLength(n - 1) + if PowerOfTen(n) then 1 else 0
  {
    if n > 10 {
      if n % 10 == 0 {
        assert (n - 1) / 10 == n / 10 - 1;
        LengthSteps(n / 10);
      } else {
        assert (n - 1) / 10 == n / 10;
      }
    }
  }

  /** A copy now gets some of the message in the buffer, but not all of it. */
  predicate Truncates(d: Device) { 0 < d.readbuflen < MessageLength(d.text) }

  lemma TruncatesNow(d: Device)
    requires Consistent(d)
    ensures Truncates(d) <==> AheadOfLength(d) && LengthStored(d) && PowerOfTen(d.text)
    ensures Truncates(d) ==> MessageLength(d.text) == d.readbuflen + 1
    ensures 0 < d.readbuflen ==> d.readbuflen <= MessageLength(d.text)
  {
    if AheadOfLength(d) { LengthSteps(d.text); }
  }

  /** In every run: a copy is cut short, by one byte, exactly when the text has been filled and not yet published, some
      length has been published and not cleared since, and the message is the first with one more digit. */
  lemma TruncatedIff(pollers: nat, readers: nat, run: seq<Step>)
    ensures var d := Initial(pollers, readers); var e := After(d, run);
      && (Truncates(e) <==>
          Since(d, run, Fills, Publishes) && Since(d, run, Publishes, Clears) && PowerOfTen(e.text))
      && (Truncates(e) ==> MessageLength(e.text) == e.readbuflen + 1)
  {
    var d := Initial(pollers, readers);
    AheadSwitches();
    LengthSwitches();
    HoldsSince(d, run, Consistent, AheadOfLength, Fills, Publishes);
    HoldsSince(d, run, Consistent, LengthStored, Publishes, Clears);
    TruncatesNow(After(d, run));
  }

  function Rounds(n: nat): seq<Step> { if n == 0 then [] else Rounds(n - 1) + [Produce] + [Produce] + [Produce] }

  lemma AfterRound(d: Device, run: seq<Step>)
    requires After(d, run).producer == Fill
    ensures var e, e' := After(d, run), After(d, run + [Produce] + [Produce] + [Produce]);
            e'.text == e.text + 1 && e'.producer == Fill && e'.readbuflen == MessageLength(e.text + 1)
  {
    var r := TwoSteps(d, run, Produce, Produce);
    AfterStep(d, r, Produce);
    OneRound(After(d, run));
  }

  lemma OneRound(e: Device)
    requires e.producer == Fill
    ensures var e' := Next(Next(Next(e, Produce), Produce), Produce);
            e'.text == e.text + 1 && e'.producer == Fill && e'.readbuflen == MessageLength(e.text + 1)
  {
  }

  lemma {:induction false} AfterRounds(n: nat)
    ensures var d := After(Initial(0, 1), Rounds(n));
            d.text == n && d.producer == Fill && d.readbuflen == (if n == 0 then 0 else MessageLength(n))
  {
    if n > 0 {
      AfterRounds(n - 1);
      AfterRound(Initial(0, 1), Rounds(n - 1));
    }
  }

  /** It happens at every power of ten: between the fill and the publish a reader gets all but the last digit. */
  lemma CopyIsTruncated(n: nat) returns (run: seq<Step>)
    requires PowerOfTen(n)
    ensures var d := After(Initial(0, 1), run); d.text == n && Truncates(d)
  {
    AfterRounds(n - 1);
    run := Rounds(n - 1) + [Produce];
    AfterStep(Initial(0, 1), Rounds(n - 1), Produce);
    LengthSteps(n);
  }

  // ---- the count that read returns ----

  function PublishesOther(n: nat): Happening {
    (d: Device, s: Step) => Publishes(d, s) && MessageLength(d.text) != n
  }

  /** Of the stores since, the last one was a clear, or the publish of another length. */
  ghost predicate LengthChanged(d: Device, run: seq<Step>, n: nat) {
    (n != 0 && Since(d, run, Clears, Publishes)) || Since(d, run, PublishesOther(n), Stores)
  }

  lemma LengthStep(d: Device, s: Step, n: nat, changed: bool)
    requires d.readbuflen != n <==> changed
    ensures Next(d, s).readbuflen != n <==>
            (n != 0 && Clears(d, s)) || PublishesOther(n)(d, s) || (changed && !Stores(d, s))
  {
  }

  lemma {:induction false} ChangedIff(d: Device, run: seq<Step>, n: nat)
    requires d.readbuflen == n
    ensures After(d, run).readbuflen != n <==> LengthChanged(d, run, n)
    decreases |run|
  {
    if run != [] {
      var r, s := run[..|run| - 1], run[|run| - 1];
      ChangedIff(d, r, n);
      LengthStep(After(d, r), s, n, LengthChanged(d, r, n));
      SinceStep(d, r, s, Clears, Publishes);
      SinceStep(d, r, s, PublishesOther(n), Stores);
      assert run == r + [s];
    }
  }

  lemma {:induction false} SameReaders(d: Device, run: seq<Step>)
    ensures |After(d, run).readers| == |d.readers|
    decreases |run|
  {
    if run != [] { SameReaders(d, run[..|run| - 1]); }
  }

  lemma {:induction false} AfterConcat(d: Device, a: seq<Step>, b: seq<Step>)
    ensures After(d, a + b) == After(After(d, a), b)
    decreases |b|
  {
    if b == [] {
      assert a + b == a;
    } else {
      assert (a + b)[..|a + b| - 1] == a + b[..|b| - 1];
      AfterConcat(d, a, b[..|b| - 1]);
    }
  }

  /** Reader `j` made its copy at step `c` of the run and has not moved since. */
  ghost predicate CopiedAt(d: Device, run: seq<Step>, j: nat, c: nat) {
    && c < |run| && run[c] == Read(j) && Read(j) !in run[c + 1..]
    && j < |Before(d, run, c).readers| && Before(d, run, c).readers[j].Idle?
  }

  lemma CopiedGrows(d: Device, run: seq<Step>, s: Step, j: nat, c: nat)
    requires CopiedAt(d, run, j, c) && s != Read(j)
    ensures CopiedAt(d, run + [s], j, c) && Before(d, run + [s], c) == Before(d, run, c)
  {
    assert (run + [s])[..c] == run[..c] && (run + [s])[c + 1..] == run[c + 1..] + [s];
  }

  lemma {:induction false} CopyFound(d: Device, run: seq<Step>, j: nat) returns (c: nat)
    requires j < |d.readers| && d.readers[j].Idle?
    requires j < |After(d, run).readers| && After(d, run).readers[j].Copied?
    ensures CopiedAt(d, run, j, c)
    ensures var e := Before(d, run, c); After(d, run).readers[j] == Copied(e.text, e.readbuflen)
    decreases |run|
  {
    var r, s := run[..|run| - 1], run[|run| - 1];
    assert run == r + [s];
    SameReaders(d, r);
    ReaderStep(After(d, r), s, j);
    if s == Read(j) {
      c := |r|;
      assert run[..c] == r && run[c + 1..] == [];
    } else {
      c := CopyFound(d, r, j);
      CopiedGrows(d, r, s, j, c);
    }
  }

  /** Reader `j` made its copy at step `c` and read the length again at step `e`. */
  ghost predicate ReadAt(d: Device, run: seq<Step>, j: nat, c: nat, e: nat) {
    e < |run| && CopiedAt(d, run[..e], j, c) && run[e] == Read(j) && Read(j) !in run[e + 1..]
  }

  lemma {:induction false} ReadFound(d: Device, run: seq<Step>, j: nat) returns (c: nat, e: nat)
    requires j < |d.readers| && d.readers[j].Idle?
    requires j < |After(d, run).readers| && After(d, run).readers[j].Clearing?
    ensures ReadAt(d, run, j, c, e)
    ensures var x := Before(d, run[..e], c);
            After(d, run).readers[j] == Clearing(x.text, x.readbuflen, Before(d, run, e).readbuflen)
    decreases |run|
  {
    var r, s := run[..|run| - 1], run[|run| - 1];
    assert run == r + [s];
    SameReaders(d, r);
    ReaderStep(After(d, r), s, j);
    if s == Read(j) {
      e := |r|;
      assert run[..e] == r && run[e + 1..] == [];
      c := CopyFound(d, r, j);
    } else {
      c, e := ReadFound(d, r, j);
      ReadGrows(d, r, s, j, c, e);
    }
  }

  lemma ReaderStep(d: Device, s: Step, j: nat)
    requires j < |d.readers|
    ensures |Next(d, s).readers| == |d.readers|
    ensures s != Read(j) ==> Next(d, s).readers[j] == d.readers[j]
    ensures s == Read(j) && d.readers[j].Idle? ==> Next(d, s).readers[j] == Copied(d.text, d.readbuflen)
    ensures s == Read(j) && d.readers[j].Copied? ==>
      Next(d, s).readers[j] == Clearing(d.readers[j].message, d.readers[j].n, d.readbuflen)
    ensures s == Read(j) && d.readers[j].Clearing? ==> Next(d, s).readers[j] == Idle
  {
  }

  lemma ReadGrows(d: Device, run: seq<Step>, s: Step, j: nat, c: nat, e: nat)
    requires ReadAt(d, run, j, c, e) && s != Read(j)
    ensures ReadAt(d, run + [s], j, c, e) && (run + [s])[..e] == run[..e]
  {
    assert (run + [s])[..e] == run[..e] && (run + [s])[e + 1..] == run[e + 1..] + [s];
  }

  lemma AfterSplits(d: Device, run: seq<Step>, k: nat)
    requires k <= |run|
    ensures After(d, run) == After(Before(d, run, k), run[k..])
  {
    AfterConcat(d, run[..k], run[k..]);
    assert run[..k] + run[k..] == run;
  }

  lemma CopyKeepsLength(d: Device, run: seq<Step>, j: nat, c: nat)
    requires CopiedAt(d, run, j, c)
    ensures Before(d, run, c + 1).readbuflen == Before(d, run, c).readbuflen
  {
    assert run[..c + 1] == run[..c] + [run[c]];
    AfterStep(d, run[..c], run[c]);
  }

  lemma LengthBetween(d: Device, run: seq<Step>, j: nat, c: nat)
    requires CopiedAt(d, run, j, c)
    ensures var n := Before(d, run, c).readbuflen;
            After(d, run).readbuflen != n <==> LengthChanged(Before(d, run, c + 1), run[c + 1..], n)
  {
    CopyKeepsLength(d, run, j, c);
    AfterSplits(d, run, c + 1);
    ChangedIff(Before(d, run, c + 1), run[c + 1..], Before(d, run, c).readbuflen);
  }

  /** In every run: a reader about to clear returns another count than that of the bytes it copied exactly when, of the
      stores between its copy and its second read of the length, the last one was a clear or the publish of another
      length. */
  lemma CountDiffersIff(pollers: nat, readers: nat, run: seq<Step>, j: nat) returns (c: nat, e: nat)
    requires var d := After(Initial(pollers, readers), run); j < |d.readers| && d.readers[j].Clearing?
    ensures var d := Initial(pollers, readers);
      && ReadAt(d, run, j, c, e)
      && var r, x := After(d, run).readers[j], Before(d, run[..e], c);
      && r.message == x.text && r.n == x.readbuflen
      && (r.ret != r.n <==> LengthChanged(Before(d, run[..e], c + 1), run[..e][c + 1..], r.n))
  {
    var d := Initial(pollers, readers);
    SameReaders(d, run);
    c, e := ReadFound(d, run, j);
    LengthBetween(d, run[..e], j, c);
  }

  /** It happens: nothing is copied and a whole message is counted. */
  lemma CountIsWrong() returns (run: seq<Step>)
    ensures After(Initial(0, 1), run).readers == [Clearing(1, 0, 8)]
  {
    var d0 := Initial(0, 1);
    var r2 := TwoSteps(d0, [], Produce, Read(0));
    assert After(d0, r2) == Device(1, 0, Publish, [], [Copied(1, 0)], {});
    run := TwoSteps(d0, r2, Produce, Read(0));
  }
}
