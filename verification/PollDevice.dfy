/** live/epoll/my_poll_dev/my_poll_dev.c: one producer, any number of pollers and readers, one store at a time. */
module PollDevice {

  /** kthread_func: before filling the buffer, before storing its length, before wake_up. */
  datatype Producer = Fill | Publish | Wake

  /** my_dev_poll: not polling; on the wait queue but not yet past the test; back with 0; back with POLLIN.
      `woken` records that wake_up has reached the queue entry. */
  datatype Poller = Away | Queued(woken: bool) | Asleep(woken: bool) | Ready

  /** read: before copying, before reading the length again for the result, before clearing it.  The copy took `n` bytes
      of text `message`, and `ret` will be returned. */
  datatype Reader = Idle | Copied(message: nat, n: nat) | Clearing(message: nat, n: nat, ret: nat)

  datatype Device = Device(
    text: nat,             // the number of the message in readbuf, which is also the producer's counter
    readbuflen: nat,
    producer: Producer,
    pollers: seq<Poller>,
    readers: seq<Reader>,
    seen: set<nat>)        // the messages of which some reader has copied anything

  function Digits(n: nat): (k: nat)
    ensures k >= 1
  {
    if n < 10 then 1 else 1 + Digits(n / 10)
  }

  /** The length of "hello, <n>". */
  function MessageLength(n: nat): nat { 7 + Digits(n) }

  datatype Step = Produce | Poll(i: nat) | Read(j: nat)

  function Woken(p: Poller): Poller {
    match p
    case Queued(_) => Queued(true)
    case Asleep(_) => Asleep(true)
    case _ => p
  }

  function Produced(d: Device): Device {
    match d.producer
    case Fill => d.(text := d.text + 1, producer := Publish)
    case Publish => d.(readbuflen := MessageLength(d.text), producer := Wake)
    case Wake =>
      var woken := seq(|d.pollers|, k requires 0 <= k < |d.pollers| => Woken(d.pollers[k]));
      d.(pollers := woken, producer := Fill)
  }

  function Polled(d: Device, p: Poller): Poller {
    match p
    case Away => Queued(false)                                         // poll_wait
    case Queued(w) => if d.readbuflen != 0 then Ready else Asleep(w)   // the test
    case Asleep(w) => if w then Away else p                            // only a wake-up ends the wait
    case Ready => Away
  }

  function Next(d: Device, s: Step): Device {
    match s
    case Produce => Produced(d)
    case Poll(i) => if i < |d.pollers| then d.(pollers := d.pollers[i := Polled(d, d.pollers[i])]) else d
    case Read(j) =>
      if j >= |d.readers| then d
      else match d.readers[j]
        case Idle =>
          d.(readers := d.readers[j := Copied(d.text, d.readbuflen)],
             seen := if d.readbuflen == 0 then d.seen else d.seen + {d.text})
        case Copied(m, n) => d.(readers := d.readers[j := Clearing(m, n, d.readbuflen)])
        case Clearing(_, _, _) => d.(readers := d.readers[j := Idle], readbuflen := 0)
  }

  function After(d: Device, run: seq<Step>): Device {
    if run == [] then d else Next(After(d, run[..|run| - 1]), run[|run| - 1])
  }

  function Initial(pollers: nat, readers: nat): Device {
    Device(0, 0, Fill, seq(pollers, i => Away), seq(readers, j => Idle), {})
  }

  /** A poller that found nothing and has not been woken is not waiting for data that is already there, unless the
      producer has stored the data and is about to call wake_up. */
  predicate NoLostWakeup(d: Device) {
    forall i | 0 <= i < |d.pollers| :: d.pollers[i] == Asleep(false) && d.readbuflen != 0 ==> d.producer == Wake
  }

  lemma StepKeeps(d: Device, s: Step)
    requires NoLostWakeup(d)
    ensures NoLostWakeup(Next(d, s)) && |Next(d, s).pollers| == |d.pollers|
  {
  }

  /** In every interleaving, at every moment. */
  lemma {:induction false} NoWakeupIsLost(pollers: nat, readers: nat, run: seq<Step>)
    ensures NoLostWakeup(After(Initial(pollers, readers), run))
    decreases |run|
  {
    if run != [] {
      NoWakeupIsLost(pollers, readers, run[..|run| - 1]);
      StepKeeps(After(Initial(pollers, readers), run[..|run| - 1]), run[|run| - 1]);
    }
  }

  // ---- a waiting poller is woken ----

  function Turns(run: seq<Step>): nat {
    if run == [] then 0 else Turns(run[..|run| - 1]) + if run[|run| - 1] == Produce then 1 else 0
  }

  /** Steps of the producer up to and including its next wake_up. */
  function ToWake(p: Producer): nat { match p case Fill => 3 case Publish => 2 case Wake => 1 }

  lemma SleepStep(d: Device, s: Step, i: nat)
    requires i < |d.pollers| && d.pollers[i].Asleep? && s != Poll(i)
    ensures var e := Next(d, s);
      && i < |e.pollers| && e.pollers[i].Asleep?
      && (d.pollers[i] == Asleep(true) || (s == Produce && d.producer == Wake) ==> e.pollers[i] == Asleep(true))
      && (if s == Produce then ToWake(d.producer) > 1 ==> ToWake(e.producer) == ToWake(d.producer) - 1
          else e.producer == d.producer)
  {
  }

  /** Whatever else happens, three steps of the producer wake every poller that is asleep. */
  lemma {:induction false} SleeperIsWoken(d: Device, run: seq<Step>, i: nat)
    requires i < |d.pollers| && d.pollers[i].Asleep? && Poll(i) !in run
    ensures i < |After(d, run).pollers| && After(d, run).pollers[i].Asleep?
    ensures Turns(run) >= ToWake(d.producer) ==> After(d, run).pollers[i] == Asleep(true)
    ensures Turns(run) < ToWake(d.producer) ==> ToWake(After(d, run).producer) == ToWake(d.producer) - Turns(run)
    decreases |run|
  {
    if run != [] {
      var r, s := run[..|run| - 1], run[|run| - 1];
      assert s in run && forall t | t in r :: t in run;
      SleeperIsWoken(d, r, i);
      SleepStep(After(d, r), s, i);
    }
  }
}
