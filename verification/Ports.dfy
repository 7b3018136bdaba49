/** Port searches of common_util.py over a fixed set of free ports. */
module Ports {
  import opened Basics

  const NPU_PER_NODE: int := 16
  const MAX_PORT: int := 65500
  const LAST_PORT: int := 65535

  /** There is such a port; binding any other raises OverflowError. */
  predicate IsPort(port: int) {
    0 <= port <= 65535
  }

  /** `find_free_port(port)` succeeds: the port can be bound. Port 0 always can. */
  predicate Bindable(free: int -> bool, port: int) {
    port == 0 || free(port)
  }

  // ---------- A block of ports for HCCL ----------

  /** All 16 ports from `s` on can be bound. */
  ghost predicate BlockFree(free: int -> bool, s: int) {
    forall p :: s <= p < s + 16 ==> Bindable(free, p)
  }

  /** The starts that a search from `start` considers: ten thousand and one, up to the largest. */
  predicate InReach(start: int, s: int) {
    start <= s <= start + 10000 && s <= 65500
  }

  /** `s` is the least start in reach with a free block. */
  ghost predicate IsLeastBlock(free: int -> bool, start: int, s: int) {
    InReach(start, s) && BlockFree(free, s) && forall q :: start <= q < s ==> !BlockFree(free, q)
  }

  datatype HcclResult = Start(port: int) | OverflowError

  /** `find_free_port_for_hccl`, which skips past the first port it cannot bind. Up to the largest
      start port it returns the least start of a free block in the range, and 0 if and only if
      there is none (or the block at 0 is free, when asked to start there). Beyond it, it looks at
      the block at `start` only. A negative start, and a block that reaches past the last port,
      ends in the OverflowError of binding a port that does not exist, the latter if all before that
      can be bound. */
  method FindFreePortForHccl(free: int -> bool, start: int) returns (r: HcclResult)
    ensures 0 <= start <= MAX_PORT ==>
              && r.Start?
              && (r.port != 0 ==> IsLeastBlock(free, start, r.port))
              && (r.port == 0 <==> (start == 0 && BlockFree(free, 0)) ||
                                   forall q :: InReach(start, q) ==> !BlockFree(free, q))
    ensures start > MAX_PORT && start + NPU_PER_NODE - 1 <= LAST_PORT ==>
              r == Start(if BlockFree(free, start) then start else 0)
    ensures start < 0 ==> r == OverflowError
    ensures start + NPU_PER_NODE - 1 > LAST_PORT ==>
              r == if forall p :: start <= p <= LAST_PORT ==> Bindable(free, p) then OverflowError else Start(0)
  {
    var curStart := start;
    var end := start + 10000;
    if end > MAX_PORT {
      end := MAX_PORT;
    }
    var checkingPort := 0;
    while true
      invariant start <= curStart && (curStart <= end || curStart == start) && (curStart != start ==> start >= 0)
      invariant forall q :: start <= q < curStart ==> !BlockFree(free, q)
      decreases (if end > start then end else start) - curStart
    {
      var curEnd := curStart + NPU_PER_NODE;
      var port := curStart;
      while port < curEnd && IsPort(port) && Bindable(free, port)
        invariant curStart <= port <= curEnd && (port == curStart || (curStart >= 0 && port <= LAST_PORT + 1))
        invariant forall p :: curStart <= p < port ==> Bindable(free, p)
      {
        port := port + 1;
      }
      if port == curEnd {
        return Start(curStart);
      }
      if !IsPort(port) {
        return OverflowError;
      }
      checkingPort := port;
      assert forall q :: curStart <= q <= port ==> !BlockFree(free, q) by {
        forall q | curStart <= q <= port ensures !BlockFree(free, q) {
          assert q <= port < q + NPU_PER_NODE && !Bindable(free, port);
        }
      }
      if checkingPort > 0 {
        curStart := checkingPort + 1;
      } else {
        curStart := curStart + NPU_PER_NODE;
      }
      if curStart > end {
        return Start(0);
      }
    }
  }

  // ---------- One port from a range ----------

  /** What `find_free_port_in_range` comes to: the port it bound and the number the system gave it,
      the RuntimeError, the OverflowError of a port that does not exist, the ValueError of a draw from
      an empty range, or a random search that the given draws do not finish. */
  datatype RangeResult = Found(port: int, bound: int) | NoFreePort | NoSuchPort | EmptyRange | Unfinished

  ghost function Range(start: int, end: int): (s: set<int>)
    ensures forall p :: p in s <==> start <= p <= end
    decreases end - start
  {
    if start > end then {} else Range(start, end - 1) + {end}
  }

  lemma {:induction false} RangeSize(start: int, end: int)
    requires start <= end + 1
    ensures |Range(start, end)| == end - start + 1
    decreases end - start
  {
    if start <= end {
      RangeSize(start, end - 1);
      assert end !in Range(start, end - 1);
    }
  }

  /** A set of ports in the range that is as large as the range is the range. */
  lemma {:induction false} FullRange(ports: set<int>, start: int, end: int)
    requires start <= end && ports <= Range(start, end) && |ports| == end - start + 1
    ensures ports == Range(start, end)
  {
    RangeSize(start, end);
    if ports != Range(start, end) {
      var p :| p in Range(start, end) && p !in ports;
      assert ports <= Range(start, end) - {p};
      CardinalitySubset(ports, Range(start, end) - {p});
    }
  }

  lemma {:induction false} CardinalitySubset(a: set<int>, b: set<int>)
    requires a <= b
    ensures |a| <= |b|
  {
    assert b == a + (b - a);
  }

  /** `find_free_port_in_range`, for every range. `draws` are the results of randint; None is
      sequential mode. `tried` lists the ports it attempted to bind. */
  method FindFreePortInRange(free: int -> bool, ephemeral: int, start: int, end: int, draws: Option<seq<int>>)
    returns (r: RangeResult, tried: seq<int>)
    requires draws.Some? && start <= end ==> forall i :: 0 <= i < |draws.value| ==> start <= draws.value[i] <= end
    ensures start <= end ==> TriedOnce(start, end, tried)
    ensures draws.None? ==> OneByOne(start, tried)
    ensures draws.Some? ==> DrawnInOrder(draws.value, tried)
    ensures r.Unfinished? ==> draws.Some? && tried == Distinct(draws.value)
    ensures r.Found? || r.NoSuchPort? ==> FailedBeforeLast(free, tried)
    ensures r.Found? ==>
              && r.port == tried[|tried| - 1] && IsPort(r.port) && Bindable(free, r.port)
              && r.bound == (if r.port == 0 then ephemeral else r.port)
    ensures draws.None? && r.Found? ==> NoneBelow(free, start, r.port)
    ensures r.NoSuchPort? ==> !IsPort(tried[|tried| - 1])
    ensures r.NoFreePort? ==> start <= end && AllFailed(free, tried) && WholeRange(start, end, tried)
    ensures r.Unfinished? ==> start <= end && AllFailed(free, tried) && !WholeRange(start, end, tried)
    ensures r.EmptyRange? <==> draws.Some? && start > end
  {
    var bindPorts: set<int> := {};
    var i := 0;
    tried := [];
    NothingDrawn(draws);
    if draws.Some? && start > end {
      return EmptyRange, tried;
    }
    hide Range, Searching, AllFailed, TriedOnce, Distinct, DrawnInOrder, Drawn, OneByOne, FailedBeforeLast, NoneBelow,
         WholeRange;
    SearchBegins(free, start, end, draws.None?);
    while true
      invariant Searching(free, start, end, draws.None?, bindPorts, tried)
      invariant start <= end ==> |bindPorts| < end - start + 1
      invariant 0 <= i && (draws.Some? ==> i <= |draws.value| && Drawn(draws.value, i, tried))
      decreases if draws.Some? then |draws.value| - i else LAST_PORT + 1 - start - |bindPorts|
    {
      var port;
      if draws.Some? {
        if i == |draws.value| {
          SearchStops(free, start, end, draws.None?, bindPorts, tried);
          DrawsEnd(draws.value, tried);
          return Unfinished, tried;
        }
        port := draws.value[i];
        i := i + 1;
        InPortsIffTried(free, start, end, bindPorts, tried, port);
        DrawNext(draws.value, i, tried);
      } else {
        port := start + |bindPorts|;
        SequentialPortIsNew(free, start, end, bindPorts, tried);
      }
      if port in bindPorts {
        continue;
      }
      SearchTries(free, start, end, draws.None?, bindPorts, tried, port);
      tried := tried + [port];
      if !IsPort(port) {
        return NoSuchPort, tried;
      }
      if Bindable(free, port) {
        return Found(port, if port == 0 then ephemeral else port), tried;
      }
      bindPorts := bindPorts + {port};
      if |bindPorts| == end - start + 1 {
        SearchStops(free, start, end, draws.None?, bindPorts, tried);
        return NoFreePort, tried;
      }
    }
  }

  /** The elements in the order in which each occurs first. */
  function Distinct(xs: seq<int>): seq<int> {
    if xs == [] then []
    else
      var before, x := Distinct(xs[..|xs| - 1]), xs[|xs| - 1];
      if x in before then before else before + [x]
  }

  function FirstIndex(xs: seq<int>, x: int): (i: nat)
    requires x in xs
    ensures i < |xs| && xs[i] == x && x !in xs[..i]
  {
    if xs[0] == x then 0 else
      assert x in xs[1..];
      assert xs[..1 + FirstIndex(xs[1..], x)] == [xs[0]] + xs[1..][..FirstIndex(xs[1..], x)];
      1 + FirstIndex(xs[1..], x)
  }

  /** Distinct is what its name says: the same elements, each once, by first occurrence. */
  lemma {:induction false} DistinctByFirstIndex(xs: seq<int>)
    ensures forall x :: x in xs <==> x in Distinct(xs)
    ensures forall i, j :: 0 <= i < j < |Distinct(xs)| ==> FirstIndex(xs, Distinct(xs)[i]) < FirstIndex(xs, Distinct(xs)[j])
  {
    if xs != [] {
      var n := |xs| - 1;
      var before, x := xs[..n], xs[n];
      DistinctByFirstIndex(before);
      assert xs == before + [x];
      hide Distinct, FirstIndex;
      forall y | y in before ensures FirstIndex(xs, y) == FirstIndex(before, y) < n {
        FirstIndexStays(before, x, y);
      }
      DistinctLast(xs);
      if x !in Distinct(before) {
        assert FirstIndex(xs, x) == n;
      }
    }
  }

  lemma {:induction false} DistinctLast(xs: seq<int>)
    requires xs != []
    ensures var n := |xs| - 1;
            Distinct(xs) == if xs[n] in Distinct(xs[..n]) then Distinct(xs[..n]) else Distinct(xs[..n]) + [xs[n]]
  {
  }

  lemma {:induction false} FirstIndexStays(xs: seq<int>, x: int, y: int)
    requires y in xs
    ensures FirstIndex(xs + [x], y) == FirstIndex(xs, y)
  {
    var i, j := FirstIndex(xs, y), FirstIndex(xs + [x], y);
    assert (xs + [x])[i] == y && forall m :: 0 <= m < j ==> (xs + [x])[..j][m] == (xs + [x])[m];
    assert forall m :: 0 <= m < i ==> xs[..i][m] == xs[m] == (xs + [x])[m];
  }

  /** Ports tried are the draws, repeats skipped, up to some draw. */
  ghost predicate DrawnInOrder(draws: seq<int>, tried: seq<int>) {
    exists n :: 0 <= n <= |draws| && tried == Distinct(draws[..n])
  }

  ghost predicate Drawn(draws: seq<int>, n: nat, tried: seq<int>) {
    n <= |draws| && tried == Distinct(draws[..n])
  }

  lemma {:induction false} NothingDrawn(draws: Option<seq<int>>)
    ensures draws.Some? ==> Drawn(draws.value, 0, []) && DrawnInOrder(draws.value, [])
  {
    if draws.Some? {
      assert Distinct(draws.value[..0]) == [];
    }
  }

  lemma {:induction false} DrawNext(draws: seq<int>, n: nat, tried: seq<int>)
    requires 0 < n <= |draws| && Drawn(draws, n - 1, tried)
    ensures draws[n - 1] in tried ==> Drawn(draws, n, tried)
    ensures draws[n - 1] !in tried ==> Drawn(draws, n, tried + [draws[n - 1]]) && DrawnInOrder(draws, tried + [draws[n - 1]])
  {
    assert draws[..n][..n - 1] == draws[..n - 1];
  }

  lemma {:induction false} DrawsEnd(draws: seq<int>, tried: seq<int>)
    requires Drawn(draws, |draws|, tried)
    ensures tried == Distinct(draws) && DrawnInOrder(draws, tried)
  {
    assert draws[..|draws|] == draws;
  }

  lemma {:induction false} InPortsIffTried(free: int -> bool, start: int, end: int, ports: set<int>, tried: seq<int>, port: int)
    requires Searching(free, start, end, false, ports, tried)
    ensures port in ports <==> port in tried
  {
  }

  /** Every attempted port lies in the range and is attempted once. */
  predicate TriedOnce(start: int, end: int, tried: seq<int>) {
    && (forall i :: 0 <= i < |tried| ==> start <= tried[i] <= end)
    && (forall i, j :: 0 <= i < j < |tried| ==> tried[i] != tried[j])
  }

  /** From `start` upwards, leaving out none. */
  predicate OneByOne(start: int, tried: seq<int>) {
    forall i :: 0 <= i < |tried| ==> tried[i] == start + i
  }

  ghost predicate NoneBelow(free: int -> bool, start: int, port: int) {
    forall p :: start <= p < port ==> !Bindable(free, p)
  }

  ghost predicate WholeRange(start: int, end: int, tried: seq<int>) {
    forall p :: start <= p <= end ==> p in tried
  }

  /** There is a last attempt, and the attempts before it failed. */
  predicate FailedBeforeLast(free: int -> bool, tried: seq<int>)
    ensures FailedBeforeLast(free, tried) ==> tried != []
  {
    tried != [] && AllFailed(free, tried[..|tried| - 1])
  }

  predicate AllFailed(free: int -> bool, tried: seq<int>) {
    forall p :: p in tried ==> IsPort(p) && !Bindable(free, p)
  }

  /** The loop invariant: the failed ports, as the set the program keeps and in order. */
  ghost predicate Searching(free: int -> bool, start: int, end: int, sequential: bool, ports: set<int>, tried: seq<int>) {
    && (start <= end ==> TriedOnce(start, end, tried)) && AllFailed(free, tried)
    && |tried| == |ports| && (forall p :: p in ports <==> p in tried)
    && (sequential ==> OneByOne(start, tried))
  }

  lemma {:induction false} SearchBegins(free: int -> bool, start: int, end: int, sequential: bool)
    ensures Searching(free, start, end, sequential, {}, [])
  {
  }

  lemma {:induction false} SequentialPortIsNew(free: int -> bool, start: int, end: int, ports: set<int>, tried: seq<int>)
    requires Searching(free, start, end, true, ports, tried)
    ensures start + |ports| !in ports
  {
  }

  /** Attempting one more port: what holds however that ends, and if the port exists and fails. */
  lemma {:induction false} SearchTries(free: int -> bool, start: int, end: int, sequential: bool,
                                      ports: set<int>, tried: seq<int>, port: int)
    requires Searching(free, start, end, sequential, ports, tried) && port !in ports
    requires (start <= end ==> start <= port <= end) && (sequential ==> port == start + |ports|)
    ensures start <= end ==> TriedOnce(start, end, tried + [port])
    ensures FailedBeforeLast(free, tried + [port])
    ensures sequential ==> OneByOne(start, tried + [port]) && NoneBelow(free, start, port)
    ensures IsPort(port) && !Bindable(free, port) ==>
              Searching(free, start, end, sequential, ports + {port}, tried + [port])
  {
    hide AllFailed, TriedOnce;
    assert (tried + [port])[..|tried|] == tried;
    if start <= end {
      OneMoreTried(start, end, tried, port);
    }
    OneMoreFailed(free, tried, port);
    if sequential {
      forall p | start <= p < port ensures !Bindable(free, p) {
        FailedOne(free, tried, p - start);
      }
    }
  }

  lemma {:induction false} FailedOne(free: int -> bool, tried: seq<int>, i: nat)
    requires AllFailed(free, tried) && i < |tried|
    ensures !Bindable(free, tried[i])
  {
  }

  lemma {:induction false} OneMoreTried(start: int, end: int, tried: seq<int>, port: int)
    requires TriedOnce(start, end, tried) && start <= port <= end && port !in tried
    ensures TriedOnce(start, end, tried + [port])
  {
  }

  lemma {:induction false} OneMoreFailed(free: int -> bool, tried: seq<int>, port: int)
    requires AllFailed(free, tried)
    ensures IsPort(port) && !Bindable(free, port) ==> AllFailed(free, tried + [port])
  {
  }

  /** Stopping without a port: every port of the range has failed, or one is left untried. */
  lemma {:induction false} SearchStops(free: int -> bool, start: int, end: int, sequential: bool, ports: set<int>, tried: seq<int>)
    requires Searching(free, start, end, sequential, ports, tried)
    ensures (start <= end ==> TriedOnce(start, end, tried)) && AllFailed(free, tried)
    ensures sequential ==> OneByOne(start, tried)
    ensures start <= end && |ports| == end - start + 1 ==> WholeRange(start, end, tried)
    ensures |ports| < end - start + 1 ==> !WholeRange(start, end, tried)
  {
    if start <= end && |ports| == end - start + 1 {
      FullRange(ports, start, end);
    } else if |ports| < end - start + 1 {
      SomePortLeft(ports, start, end);
    }
  }

  lemma {:induction false} SomePortLeft(ports: set<int>, start: int, end: int)
    requires |ports| < end - start + 1
    ensures exists p :: start <= p <= end && p !in ports
  {
    RangeSize(start, end);
    if Range(start, end) <= ports {
      CardinalitySubset(Range(start, end), ports);
    }
  }
}
