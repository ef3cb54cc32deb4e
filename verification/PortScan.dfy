/** port/inet_connection_sock.c: the scan for a local port, odd offsets first, then even ones. */
module PortScan {

  /** A bind bucket; `id` tells apart what the conflict test sees. */
  datatype Bucket = Bucket(net: int, port: int, id: int)

  datatype Option<T> = None | Some(value: T)

  /** What the scan consults: the reserved ports, the bind hash and the conflict test. */
  datatype Host = Host(
    net: int,
    reserved: int -> bool,
    bhash: seq<seq<Bucket>>,
    bhashfn: int -> nat,
    conflict: Bucket -> bool)
  {
    ghost predicate Valid() { forall p :: bhashfn(p) < |bhash| }

    function Chain(port: int): seq<Bucket>
      requires Valid()
    {
      bhash[bhashfn(port)]
    }

    /** Every bucket is in the chain of its port. */
    ghost predicate WellFormed()
      requires Valid()
    {
      forall k, b | 0 <= k < |bhash| && b in bhash[k] && b.net == net :: k == bhashfn(b.port)
    }
  }

  /** The first bucket of the chain that belongs to the port. */
  function Lookup(net: int, chain: seq<Bucket>, port: int): Option<Bucket> {
    if chain == [] then None
    else if chain[0].net == net && chain[0].port == port then Some(chain[0])
    else Lookup(net, chain[1..], port)
  }

  predicate Acceptable(h: Host, port: int)
    requires h.Valid()
  {
    !h.reserved(port) &&
    match Lookup(h.net, h.Chain(port), port) case None => true case Some(tb) => !h.conflict(tb)
  }

  lemma {:induction false} LookupFails(net: int, chain: seq<Bucket>, port: int)
    ensures Lookup(net, chain, port) == None <==> forall b | b in chain :: !(b.net == net && b.port == port)
  {
    if chain != [] {
      LookupFails(net, chain[1..], port);
      assert forall b :: b in chain <==> b == chain[0] || b in chain[1..];
    }
  }

  // ---- the order of the probes ----

  /** `m` ports two apart. */
  function Pass(start: int, m: nat): seq<int>
    decreases m
  {
    if m == 0 then [] else [start] + Pass(start + 2, m - 1)
  }

  /** Half the range, rounded up. */
  function Half(remaining: nat): (h: nat)
    ensures remaining <= 2 * h <= remaining + 1
  {
    (remaining + 1) / 2
  }

  function ProbeOrder(low: int, offset: nat, remaining: nat): seq<int> {
    Pass(low + offset, Half(remaining)) + Pass(low + offset - 1, Half(remaining))
  }

  lemma {:induction false} PassAt(start: int, m: nat)
    ensures |Pass(start, m)| == m && forall i | 0 <= i < m :: Pass(start, m)[i] == start + 2 * i
    decreases m
  {
    if m > 0 { PassAt(start + 2, m - 1); }
  }

  /** The two passes probe every port of one window exactly once. */
  lemma ProbesCoverWindow(low: int, offset: nat, remaining: nat, p: int)
    ensures var o := ProbeOrder(low, offset, remaining); var first := low + offset - 1;
      && (p in o <==> first <= p < first + 2 * Half(remaining))
      && |o| == 2 * Half(remaining)
      && (forall i, j | 0 <= i < j < |o| :: o[i] != o[j])
  {
    var m, first, o := Half(remaining), low + offset - 1, ProbeOrder(low, offset, remaining);
    PassAt(first + 1, m);
    PassAt(first, m);
    if first <= p < first + 2 * m {
      var k := (p - first) / 2;
      if p == first + 2 * k { assert o[m + k] == p; } else { assert o[k] == p; }
    }
  }

  /** The window is the local port range [low, high] only when the offset is 1 and the range has an even number of
      ports; otherwise the scan probes ports above `high`. */
  lemma WindowWithinRange(low: int, offset: nat, remaining: nat)
    requires remaining > 0 && offset % 2 == 1
    ensures (forall p | p in ProbeOrder(low, offset, remaining) :: low <= p < low + remaining) <==>
            offset == 1 && remaining % 2 == 0
  {
    var last := low + offset - 1 + 2 * Half(remaining) - 1;
    ProbesCoverWindow(low, offset, remaining, last);
    forall p | p in ProbeOrder(low, offset, remaining) ensures low + offset - 1 <= p <= last {
      ProbesCoverWindow(low, offset, remaining, p);
    }
  }

  // ---- the scan ----

  datatype Found = Port(port: int, slot: nat, tb: Option<Bucket>) | NoPort

  /** The first acceptable port of a list, with its bucket. */
  function FirstIn(h: Host, ports: seq<int>): Found
    requires h.Valid()
  {
    if ports == [] then NoPort
    else if Acceptable(h, ports[0]) then Port(ports[0], h.bhashfn(ports[0]), Lookup(h.net, h.Chain(ports[0]), ports[0]))
    else FirstIn(h, ports[1..])
  }

  ghost predicate IsFirst(h: Host, ports: seq<int>, i: nat)
    requires h.Valid() && i < |ports|
  {
    Acceptable(h, ports[i]) && forall j | 0 <= j < i :: !Acceptable(h, ports[j])
  }

  /** FirstIn is what its name says. */
  lemma {:induction false} FirstInMeaning(h: Host, ports: seq<int>)
    requires h.Valid()
    ensures FirstIn(h, ports) == NoPort <==> forall p | p in ports :: !Acceptable(h, p)
    ensures FirstIn(h, ports).Port? ==>
      exists i | 0 <= i < |ports| ::
        IsFirst(h, ports, i) && ports[i] == FirstIn(h, ports).port
  {
    if ports != [] {
      assert forall p :: p in ports <==> p == ports[0] || p in ports[1..];
      if Acceptable(h, ports[0]) {
        assert IsFirst(h, ports, 0) && ports[0] == FirstIn(h, ports).port;
      } else {
        FirstInMeaning(h, ports[1..]);
        if FirstIn(h, ports).Port? {
          var i :| 0 <= i < |ports[1..]| && IsFirst(h, ports[1..], i) && ports[1..][i] == FirstIn(h, ports[1..]).port;
          assert ports[i + 1] == FirstIn(h, ports).port;
          forall j | 0 <= j < i + 1 ensures !Acceptable(h, ports[j]) {
            if j > 0 { assert ports[j] == ports[1..][j - 1]; }
          }
          assert IsFirst(h, ports, i + 1);
        }
      }
    }
  }

  /** The scan fails exactly when every port of its window is reserved or in conflict. */
  lemma ScanFailsIff(h: Host, low: int, offset: nat, remaining: nat)
    requires h.Valid()
    ensures FirstIn(h, ProbeOrder(low, offset, remaining)) == NoPort <==>
            forall p | low + offset - 1 <= p < low + offset - 1 + 2 * Half(remaining) :: !Acceptable(h, p)
  {
    var o := ProbeOrder(low, offset, remaining);
    FirstInMeaning(h, o);
    forall p ensures p in o <==> low + offset - 1 <= p < low + offset - 1 + 2 * Half(remaining) {
      ProbesCoverWindow(low, offset, remaining, p);
    }
  }

  // ---- results outside the range ----

  /** Of the listed ports, none below `top` is acceptable, but one from there on is. */
  ghost predicate OnlyFrom(h: Host, ports: seq<int>, top: int)
    requires h.Valid()
  {
    (forall p | p in ports && p < top :: !Acceptable(h, p)) && exists p | p in ports && p >= top :: Acceptable(h, p)
  }

  predicate ReturnsFrom(r: Found, top: int) { r.Port? && r.port >= top }

  predicate Ascending(ports: seq<int>) { forall i, j | 0 <= i < j < |ports| :: ports[i] < ports[j] }

  lemma PassAscends(start: int, m: nat)
    ensures Ascending(Pass(start, m))
  {
    PassAt(start, m);
  }

  lemma AscendingReturnsFrom(h: Host, ports: seq<int>, top: int)
    requires h.Valid() && Ascending(ports)
    ensures ReturnsFrom(FirstIn(h, ports), top) <==> OnlyFrom(h, ports, top)
  {
    FirstInMeaning(h, ports);
    if ReturnsFrom(FirstIn(h, ports), top) {
      var i :| 0 <= i < |ports| && IsFirst(h, ports, i) && ports[i] == FirstIn(h, ports).port;
      forall p | p in ports && p < top ensures !Acceptable(h, p) {
        var j :| 0 <= j < |ports| && ports[j] == p;
      }
      assert ports[i] in ports;
    }
  }

  predicate NoneOf(h: Host, ports: seq<int>)
    requires h.Valid()
  {
    forall p | p in ports :: !Acceptable(h, p)
  }

  /** The first pass is like that, or it has no acceptable port at all and the second is like that. */
  ghost predicate OnlyFromEither(h: Host, a: seq<int>, b: seq<int>, top: int)
    requires h.Valid()
  {
    OnlyFrom(h, a, top) || (NoneOf(h, a) && OnlyFrom(h, b, top))
  }

  lemma TwoPasses(h: Host, a: seq<int>, b: seq<int>, top: int)
    requires h.Valid() && Ascending(a) && Ascending(b)
    ensures ReturnsFrom(FirstIn(h, a + b), top) <==> OnlyFromEither(h, a, b, top)
  {
    AscendingReturnsFrom(h, a, top);
    AscendingReturnsFrom(h, b, top);
    FirstInMeaning(h, a);
    FirstInConcat(h, a, b);
  }

  /** The port returned is above `high` exactly when in the pass that returns it every port of the range is
      unacceptable, and so is the whole pass before it. */
  lemma ReturnsAboveRange(h: Host, low: int, offset: nat, remaining: nat)
    requires h.Valid()
    ensures var odd, even := Pass(low + offset, Half(remaining)), Pass(low + offset - 1, Half(remaining));
            ReturnsFrom(FirstIn(h, ProbeOrder(low, offset, remaining)), low + remaining) <==>
            OnlyFromEither(h, odd, even, low + remaining)
  {
    var m := Half(remaining);
    PassAscends(low + offset, m);
    PassAscends(low + offset - 1, m);
    TwoPasses(h, Pass(low + offset, m), Pass(low + offset - 1, m), low + remaining);
  }

  lemma {:induction false} LastOfPass(h: Host, start: int, m: nat)
    requires h.Valid() && h.bhash == [[]] && m > 0
    requires forall p | start <= p < start + 2 * m - 3 :: !Acceptable(h, p)
    requires Acceptable(h, start + 2 * m - 2)
    ensures FirstIn(h, Pass(start, m)) == Port(start + 2 * m - 2, 0, None)
    decreases m
  {
    assert Pass(start, m)[1..] == Pass(start + 2, m - 1);
    if m > 1 { LastOfPass(h, start + 2, m - 1); }
  }

  /** A host where every port of the range is reserved and no port is bound. */
  function ReservedRange(low: int, high: int): (h: Host)
    ensures h.Valid() && h.bhash == [[]] && forall p :: Acceptable(h, p) <==> !(low <= p <= high)
  {
    Host(0, p => low <= p <= high, [[]], p => 0, b => false)
  }

  /** On the range that the source names, the random number 2 makes it return a port that is not in the range. */
  lemma ScanLeavesRange(low: int, high: int, random: nat)
    requires low == 32768 && high == 60999 && random == 2
    ensures var remaining := high + 1 - low; var offset := SetLowBit(random % remaining);
            FirstIn(ReservedRange(low, high), ProbeOrder(low, offset, remaining)) == Port(61001, 0, None)
  {
    var h, remaining := ReservedRange(low, high), high + 1 - low;
    var m := Half(remaining);
    assert SetLowBit(random % remaining) == 3;
    LastOfPass(h, low + 3, m);
    FirstInConcat(h, Pass(low + 3, m), Pass(low + 2, m));
  }

  /** inet_bind_bucket_for_each with the test in its body. */
  method WalkChain(net: int, chain: seq<Bucket>, port: int) returns (tb: Option<Bucket>)
    ensures tb == Lookup(net, chain, port)
  {
    for i := 0 to |chain|
      invariant Lookup(net, chain, port) == Lookup(net, chain[i..], port)
    {
      if chain[i].net == net && chain[i].port == port {
        return Some(chain[i]);
      }
      assert chain[i..][1..] == chain[i + 1..];
    }
    tb := None;
  }

  /** The inner loop: one parity. */
  method ScanParity(h: Host, start: int, remaining: nat) returns (r: Found)
    requires h.Valid()
    ensures r == FirstIn(h, Pass(start, Half(remaining)))
  {
    var i, port := 0, start;
    while i < remaining
      invariant 0 <= i && i % 2 == 0 && i <= remaining + 1
      invariant FirstIn(h, Pass(start, Half(remaining))) == FirstIn(h, Pass(port, Half(remaining) - i / 2))
      decreases remaining + 1 - i
    {
      var ports := Pass(port, Half(remaining) - i / 2);
      assert ports[1..] == Pass(port + 2, Half(remaining) - i / 2 - 1);
      if !h.reserved(port) {
        var slot := h.bhashfn(port);
        var tb := WalkChain(h.net, h.bhash[slot], port);
        if tb == None || !h.conflict(tb.value) {
          return Port(port, slot, tb);
        }
      }
      i, port := i + 2, port + 2;
    }
    r := NoPort;
  }

  lemma {:induction false} FirstInConcat(h: Host, a: seq<int>, b: seq<int>)
    requires h.Valid()
    ensures FirstIn(h, a + b) == if FirstIn(h, a) == NoPort then FirstIn(h, b) else FirstIn(h, a)
  {
    if a == [] { assert a + b == b; }
    else {
      assert (a + b)[1..] == a[1..] + b;
      FirstInConcat(h, a[1..], b);
    }
  }

  /** `offset |= 1U` */
  function SetLowBit(x: nat): (y: nat)
    ensures x <= y <= x + 1 && y % 2 == 1
  {
    if x % 2 == 0 then x + 1 else x
  }

  /** The outer loop: the pass at an odd offset and, if it fails, the one just below it. */
  method ScanPasses(h: Host, low: int, offset0: nat, remaining: nat) returns (r: Found)
    requires h.Valid() && offset0 % 2 == 1
    ensures r == FirstIn(h, ProbeOrder(low, offset0, remaining))
  {
    var offset := offset0;
    ghost var odd, even := Pass(low + offset0, Half(remaining)), Pass(low + offset0 - 1, Half(remaining));
    FirstInConcat(h, odd, even);
    r := NoPort;
    while true
      invariant offset == offset0 || (offset == offset0 - 1 && FirstIn(h, odd) == NoPort)
      decreases offset
    {
      r := ScanParity(h, low + offset, remaining);
      if r != NoPort { break; }
      offset := if offset == 0 then 0xFFFF_FFFF else offset - 1;
      if offset % 2 == 1 { break; }
    }
  }

  // ---- the result, bucket by bucket and port by port ----

  /** Bucket `i` is the first of the chain for the port. */
  predicate FirstFor(net: int, chain: seq<Bucket>, port: int, i: int) {
    && 0 <= i < |chain| && chain[i].net == net && chain[i].port == port
    && forall j | 0 <= j < i :: !(chain[j].net == net && chain[j].port == port)
  }

  lemma {:induction false} LookupMeaning(net: int, chain: seq<Bucket>, port: int) returns (i: int)
    ensures match Lookup(net, chain, port)
      case Some(b) => FirstFor(net, chain, port, i) && b == chain[i]
      case None => i == |chain| && forall j | 0 <= j < |chain| :: !(chain[j].net == net && chain[j].port == port)
    decreases |chain|
  {
    if chain == [] {
      i := 0;
    } else if chain[0].net == net && chain[0].port == port {
      i := 0;
    } else {
      i := LookupMeaning(net, chain[1..], port);
      assert forall j | 0 < j < |chain| :: chain[j] == chain[1..][j - 1];
      i := i + 1;
    }
  }

  /** The port is not reserved, and if its chain has a bucket for it, the first one is not in conflict. */
  ghost predicate Free(h: Host, port: int)
    requires h.Valid()
  {
    var chain := h.bhash[h.bhashfn(port)];
    !h.reserved(port) && forall i | FirstFor(h.net, chain, port, i) :: !h.conflict(chain[i])
  }

  lemma AcceptableIsFree(h: Host, port: int)
    requires h.Valid()
    ensures Acceptable(h, port) <==> Free(h, port)
  {
    var i := LookupMeaning(h.net, h.bhash[h.bhashfn(port)], port);
  }

  /** The bucket handed back with the port: the first one for it, or none because there is none. */
  ghost predicate BucketOf(h: Host, port: int, tb: Option<Bucket>)
    requires h.Valid()
  {
    var chain := h.bhash[h.bhashfn(port)];
    match tb
    case Some(b) => !h.conflict(b) && exists i :: FirstFor(h.net, chain, port, i) && chain[i] == b
    case None => forall b | b in chain :: !(b.net == h.net && b.port == port)
  }

  /** Port `p` is probed on the pass from `start` on: every second one of `remaining` ports. */
  predicate OnPass(start: int, remaining: nat, p: int) {
    start <= p < start + remaining + remaining % 2 && (p - start) % 2 == 0
  }

  /** `r` is the result of scanning from `start` and then from the port before it. */
  ghost predicate Searched(h: Host, start: int, remaining: nat, r: Found)
    requires h.Valid()
  {
    match r
    case NoPort => forall p | OnPass(start, remaining, p) || OnPass(start - 1, remaining, p) :: !Free(h, p)
    case Port(port, slot, tb) =>
      && Free(h, port) && slot == h.bhashfn(port) && BucketOf(h, port, tb)
      && if (port - start) % 2 == 0
         then OnPass(start, remaining, port) && forall p | OnPass(start, remaining, p) && p < port :: !Free(h, p)
         else
           && OnPass(start - 1, remaining, port)
           && (forall p | OnPass(start, remaining, p) :: !Free(h, p))
           && (forall p | OnPass(start - 1, remaining, p) && p < port :: !Free(h, p))
  }

  lemma PassPorts(start: int, remaining: nat, p: int)
    ensures p in Pass(start, Half(remaining)) <==> OnPass(start, remaining, p)
  {
    var m := Half(remaining);
    PassAt(start, m);
    assert 2 * m == remaining + remaining % 2;
    if OnPass(start, remaining, p) {
      var k := (p - start) / 2;
      assert Pass(start, m)[k] == p;
    }
  }

  /** One pass, port by port. */
  ghost predicate PassResult(h: Host, start: int, remaining: nat, r: Found)
    requires h.Valid()
  {
    match r
    case NoPort => forall p | OnPass(start, remaining, p) :: !Free(h, p)
    case Port(port, slot, tb) =>
      && Free(h, port) && slot == h.bhashfn(port) && BucketOf(h, port, tb)
      && OnPass(start, remaining, port) && forall p | OnPass(start, remaining, p) && p < port :: !Free(h, p)
  }

  lemma {:induction false} FoundBucket(h: Host, ports: seq<int>)
    requires h.Valid()
    ensures var r := FirstIn(h, ports);
            r.Port? ==> Free(h, r.port) && r.slot == h.bhashfn(r.port) && BucketOf(h, r.port, r.tb)
    decreases |ports|
  {
    if ports != [] {
      if Acceptable(h, ports[0]) {
        AcceptableIsFree(h, ports[0]);
        BucketFound(h, ports[0]);
      } else {
        FoundBucket(h, ports[1..]);
      }
    }
  }

  lemma BucketFound(h: Host, port: int)
    requires h.Valid() && Acceptable(h, port)
    ensures BucketOf(h, port, Lookup(h.net, h.Chain(port), port))
  {
    var i := LookupMeaning(h.net, h.Chain(port), port);
  }

  lemma PassMeaning(h: Host, start: int, remaining: nat)
    requires h.Valid()
    ensures PassResult(h, start, remaining, FirstIn(h, Pass(start, Half(remaining))))
  {
    var ports := Pass(start, Half(remaining));
    forall p ensures p in ports <==> OnPass(start, remaining, p) { PassPorts(start, remaining, p); }
    forall p ensures Acceptable(h, p) <==> Free(h, p) { AcceptableIsFree(h, p); }
    FirstInMeaning(h, ports);
    FoundBucket(h, ports);
    PassAscends(start, Half(remaining));
    AscendingFirst(h, ports);
  }

  lemma AscendingFirst(h: Host, ports: seq<int>)
    requires h.Valid() && Ascending(ports)
    ensures var r := FirstIn(h, ports);
            r.Port? ==> r.port in ports && forall p | p in ports && p < r.port :: !Acceptable(h, p)
  {
    FirstInMeaning(h, ports);
    if FirstIn(h, ports).Port? {
      var i :| 0 <= i < |ports| && IsFirst(h, ports, i) && ports[i] == FirstIn(h, ports).port;
      forall p | p in ports && p < ports[i] ensures !Acceptable(h, p) {
        var j :| 0 <= j < |ports| && ports[j] == p;
      }
    }
  }

  lemma ScanMeaning(h: Host, low: int, offset: nat, remaining: nat)
    requires h.Valid()
    ensures Searched(h, low + offset, remaining, FirstIn(h, ProbeOrder(low, offset, remaining)))
  {
    var m := Half(remaining);
    PassMeaning(h, low + offset, remaining);
    PassMeaning(h, low + offset - 1, remaining);
    FirstInConcat(h, Pass(low + offset, m), Pass(low + offset - 1, m));
  }

  lemma FirstTried(h: Host, start: int, remaining: nat, r: Found)
    requires h.Valid() && remaining > 0 && Searched(h, start, remaining, r) && Free(h, start)
    ensures r.Port? && r.port == start
  {
    assert OnPass(start, remaining, start);
  }

  /** The scan starts at the odd one of the offsets `x` and `x + 1`, and a free port there is the result. */
  ghost predicate SearchedFrom(h: Host, low: int, remaining: nat, x: nat, r: Found)
    requires h.Valid()
  {
    forall o: nat | x <= o <= x + 1 && o % 2 == 1 ::
      Searched(h, low + o, remaining, r) && (Free(h, low + o) ==> r.Port? && r.port == low + o)
  }

  lemma FindMeaning(h: Host, low: int, remaining: nat, x: nat, r: Found)
    requires h.Valid() && remaining > 0 && r == FirstIn(h, ProbeOrder(low, SetLowBit(x), remaining))
    ensures SearchedFrom(h, low, remaining, x, r)
  {
    var o := SetLowBit(x);
    ScanMeaning(h, low, o, remaining);
    if Free(h, low + o) { FirstTried(h, low + o, remaining, r); }
    assert forall o': nat | x <= o' <= x + 1 && o' % 2 == 1 :: o' == o;
  }

  /** inet_csk_find_open_port: exactly two passes, and the first acceptable port of their probe order. */
  method FindOpenPort(h: Host, low: int, high: int, random: nat) returns (r: Found)
    requires h.Valid() && low <= high && high + 1 - low < 0x1_0000_0000
    ensures var remaining := high + 1 - low; var offset := SetLowBit(random % remaining);
            r == FirstIn(h, ProbeOrder(low, offset, remaining))
    ensures r.Port? ==> Acceptable(h, r.port) && r.slot == h.bhashfn(r.port)
    ensures SearchedFrom(h, low, high + 1 - low, random % (high + 1 - low), r)
    ensures r.Port? && h.WellFormed() ==> (r.tb == None <==> NoBucket(h, r.port))
  {
    var remaining := high + 1 - low;
    var offset := SetLowBit(random % remaining);
    r := ScanPasses(h, low, offset, remaining);
    FoundMeans(h, ProbeOrder(low, offset, remaining));
    FindMeaning(h, low, remaining, random % remaining, r);
  }

  /** No chain of the hash holds a bucket for the port. */
  ghost predicate NoBucket(h: Host, port: int) {
    forall k, b | 0 <= k < |h.bhash| && b in h.bhash[k] :: !(b.net == h.net && b.port == port)
  }

  lemma {:induction false} FoundMeans(h: Host, ports: seq<int>)
    requires h.Valid()
    ensures var r := FirstIn(h, ports);
      r.Port? ==> Acceptable(h, r.port) && r.slot == h.bhashfn(r.port) &&
                  (h.WellFormed() ==> (r.tb == None <==> NoBucket(h, r.port)))
  {
    if ports != [] {
      if Acceptable(h, ports[0]) { LookupFails(h.net, h.Chain(ports[0]), ports[0]); }
      else { FoundMeans(h, ports[1..]); }
    }
  }
}
