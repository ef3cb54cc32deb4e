/** What `my_dev_poll` of live/epoll/my_poll_dev/my_poll_dev.c answers, and who is waiting and woken. */
module PollAnswers {
  import opened PollDevice
  import opened Histories

  function Has(i: nat): Device -> bool { (d: Device) => i < |d.pollers| }

  function IsReady(i: nat): Device -> bool { (d: Device) => i < |d.pollers| && d.pollers[i] == Ready }

  function IsAsleep(i: nat): Device -> bool { (d: Device) => i < |d.pollers| && d.pollers[i].Asleep? }

  function IsWoken(i: nat): Device -> bool {
    (d: Device) => i < |d.pollers| && d.pollers[i] in {Queued(true), Asleep(true)}
  }

  /** The step is the poller's test of `readbuflen`, which finds a length or finds none. */
  function TestsFull(i: nat): Happening {
    (d: Device, s: Step) => s == Poll(i) && i < |d.pollers| && d.pollers[i].Queued? && d.readbuflen != 0
  }

  function TestsEmpty(i: nat): Happening {
    (d: Device, s: Step) => s == Poll(i) && i < |d.pollers| && d.pollers[i].Queued? && d.readbuflen == 0
  }

  function Moves(i: nat): Happening { (d: Device, s: Step) => s == Poll(i) }

  /** The step is a wake_up that finds the poller on the queue. */
  function WokenBy(i: nat): Happening {
    (d: Device, s: Step) =>
      s == Produce && d.producer == Wake && i < |d.pollers| && (d.pollers[i].Queued? || d.pollers[i].Asleep?)
  }

  /** The step ends a wait that has been woken. */
  function GetsUp(i: nat): Happening {
    (d: Device, s: Step) => s == Poll(i) && i < |d.pollers| && d.pollers[i] == Asleep(true)
  }

  /** The step takes the poller off the queue: it has found a length, or it gets up. */
  function Leaves(i: nat): Happening {
    (d: Device, s: Step) =>
      s == Poll(i) && i < |d.pollers| && (d.pollers[i] == Asleep(true) || (d.pollers[i].Queued? && d.readbuflen != 0))
  }

  lemma ReadySwitches(i: nat)
    ensures Switches(Has(i), IsReady(i), TestsFull(i), Moves(i))
  {
  }

  lemma AsleepSwitches(i: nat)
    ensures Switches(Has(i), IsAsleep(i), TestsEmpty(i), GetsUp(i))
  {
  }

  lemma WokenSwitches(i: nat)
    ensures Switches(Has(i), IsWoken(i), WokenBy(i), Leaves(i))
  {
    forall d: Device, s: Step | i < |d.pollers|
      ensures IsWoken(i)(Next(d, s)) <==> WokenBy(i)(d, s) || (IsWoken(i)(d) && !Leaves(i)(d, s))
    {
      WokenStep(d, s, i);
    }
  }

  lemma WokenStep(d: Device, s: Step, i: nat)
    requires i < |d.pollers|
    ensures i < |Next(d, s).pollers|
    ensures IsWoken(i)(Next(d, s)) <==> WokenBy(i)(d, s) || (IsWoken(i)(d) && !Leaves(i)(d, s))
  {
  }

  /** In every run: a poller is back with POLLIN exactly when its last move was a test that found a length; it is asleep
      exactly when it has found none and has not got up since; and it has been woken exactly when a wake_up has found
      it on the queue and it has not left since. */
  lemma PollIff(pollers: nat, readers: nat, run: seq<Step>, i: nat)
    requires i < pollers
    ensures var d := Initial(pollers, readers);
      && i < |After(d, run).pollers|
      && (After(d, run).pollers[i] == Ready <==> Since(d, run, TestsFull(i), Moves(i)))
      && (After(d, run).pollers[i].Asleep? <==> Since(d, run, TestsEmpty(i), GetsUp(i)))
      && (After(d, run).pollers[i] in {Queued(true), Asleep(true)} <==> Since(d, run, WokenBy(i), Leaves(i)))
  {
    var d := Initial(pollers, readers);
    ReadySwitches(i);
    AsleepSwitches(i);
    WokenSwitches(i);
    HoldsSince(d, run, Has(i), IsReady(i), TestsFull(i), Moves(i));
    HoldsSince(d, run, Has(i), IsAsleep(i), TestsEmpty(i), GetsUp(i));
    HoldsSince(d, run, Has(i), IsWoken(i), WokenBy(i), Leaves(i));
  }
}
