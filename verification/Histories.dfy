/** What has happened since what in a run of the device. */
module Histories {
  import opened PollDevice

  type Happening = (Device, Step) -> bool

  /** The device before step `k` of a run. */
  function Before(d: Device, run: seq<Step>, k: nat): Device
    requires k <= |run|
  {
    After(d, run[..k])
  }

  /** Step `k` is an `a`, and no later step of the run is a `b`. */
  ghost predicate LastAt(d: Device, run: seq<Step>, a: Happening, b: Happening, k: nat)
    requires k < |run|
  {
    a(Before(d, run, k), run[k]) && forall q | k < q < |run| :: !b(Before(d, run, q), run[q])
  }

  /** Some step of the run was an `a`, and no step since then was a `b`. */
  ghost predicate Since(d: Device, run: seq<Step>, a: Happening, b: Happening) {
    exists k | 0 <= k < |run| :: LastAt(d, run, a, b, k)
  }

  lemma LastAtGrows(d: Device, run: seq<Step>, s: Step, a: Happening, b: Happening, k: nat)
    requires k < |run|
    ensures LastAt(d, run + [s], a, b, k) <==> LastAt(d, run, a, b, k) && !b(After(d, run), s)
  {
    var r := run + [s];
    assert forall q | 0 <= q <= |run| :: r[..q] == run[..q];
    assert forall q | 0 <= q <= |run| :: Before(d, r, q) == Before(d, run, q);
    assert run[..|run|] == run && r[|run|] == s;
    assert Before(d, r, |run|) == After(d, run);
  }

  lemma LastAtEnd(d: Device, run: seq<Step>, s: Step, a: Happening, b: Happening)
    ensures LastAt(d, run + [s], a, b, |run|) <==> a(After(d, run), s)
  {
    assert (run + [s])[..|run|] == run;
  }

  lemma SinceStep(d: Device, run: seq<Step>, s: Step, a: Happening, b: Happening)
    ensures Since(d, run + [s], a, b) <==> a(After(d, run), s) || (Since(d, run, a, b) && !b(After(d, run), s))
  {
    LastAtEnd(d, run, s, a, b);
    forall k | 0 <= k < |run|
      ensures LastAt(d, run + [s], a, b, k) <==> LastAt(d, run, a, b, k) && !b(After(d, run), s)
    {
      LastAtGrows(d, run, s, a, b, k);
    }
    if Since(d, run + [s], a, b) {
      var k :| 0 <= k < |run + [s]| && LastAt(d, run + [s], a, b, k);
      assert k < |run| ==> LastAt(d, run, a, b, k);
    }
    if Since(d, run, a, b) {
      var k :| 0 <= k < |run| && LastAt(d, run, a, b, k);
      assert LastAt(d, run + [s], a, b, k) || b(After(d, run), s);
    }
  }

  /** Every step from a device with `inv` keeps `inv`; an `a` makes `p` true, another `b` makes it false, and nothing
      else changes it. */
  ghost predicate Switches(inv: Device -> bool, p: Device -> bool, a: Happening, b: Happening) {
    forall d: Device, s: Step | inv(d) ::
      inv(Next(d, s)) && (p(Next(d, s)) <==> a(d, s) || (p(d) && !b(d, s)))
  }

  /** What is switched on by `a` and off by `b` holds exactly since the last `a`. */
  lemma {:induction false} HoldsSince(d: Device, run: seq<Step>,
                                      inv: Device -> bool, p: Device -> bool, a: Happening, b: Happening)
    requires inv(d) && !p(d) && Switches(inv, p, a, b)
    ensures inv(After(d, run)) && (p(After(d, run)) <==> Since(d, run, a, b))
    decreases |run|
  {
    if run != [] {
      var r, s := run[..|run| - 1], run[|run| - 1];
      HoldsSince(d, r, inv, p, a, b);
      SinceStep(d, r, s, a, b);
      assert run == r + [s];
      assert After(d, run) == Next(After(d, r), s);
    }
  }
}
