/** Round-robin and least-connections selection over the healthy targets. */
module LoadBalancers {
  import opened Common

  datatype Target = Target(address: string, healthy: bool)

  /** The positions of the targets that may be selected, in order. */
  function Eligible(targets: seq<Target>, healthCheck: bool): (r: seq<nat>)
    ensures forall k :: 0 <= k < |r| ==> r[k] < |targets| && (healthCheck ==> targets[r[k]].healthy)
    ensures forall k, l :: 0 <= k < l < |r| ==> r[k] < r[l]
    ensures forall i :: 0 <= i < |targets| && (!healthCheck || targets[i].healthy) ==> i in r
  {
    if targets == [] then []
    else
      var last := |targets| - 1;
      Eligible(targets[..last], healthCheck) + (if !healthCheck || targets[last].healthy then [last] else [])
  }

  /** One round-robin selection: the target picked, and the counter afterwards. */
  function RoundRobin(healthy: seq<nat>, current: nat): (nat, nat)
    requires healthy != []
  {
    (healthy[current % |healthy|], (current + 1) % TWO64)
  }

  class Balancer {
    var targets: seq<Target>
    var connections: seq<int>        // the connection count of each target
    const healthCheck: bool
    var current: nat                 // an unsigned 64-bit counter

    ghost predicate Valid()
      reads this
    {
      |connections| == |targets| && current < TWO64
    }

    constructor (healthCheck: bool)
      ensures Valid() && this.healthCheck == healthCheck && targets == [] && current == 0
    {
      this.healthCheck := healthCheck;
      targets, connections, current := [], [], 0;
    }

    method GetHealthyTargets() returns (r: seq<nat>)
      ensures r == Eligible(targets, healthCheck)
    {
      r := [];
      var i := 0;
      while i < |targets|
        invariant 0 <= i <= |targets| && r == Eligible(targets[..i], healthCheck)
      {
        assert targets[..i + 1][..i] == targets[..i];
        if !healthCheck || targets[i].healthy {
          r := r + [i];
        }
        i := i + 1;
      }
      assert targets[..i] == targets;
    }

    /** Round robin: the counter is advanced by a wrapping atomic add. */
    method SelectRoundRobin() returns (r: Option<nat>)
      requires Valid()
      modifies this`current
      ensures Valid()
      ensures var healthy := Eligible(targets, healthCheck);
              if healthy == [] then r == None && current == old(current)
              else
                var (pick, next) := RoundRobin(healthy, old(current));
                r == Some(pick) && current == next
    {
      var healthy := GetHealthyTargets();
      if |healthy| == 0 {
        return None;
      }
      var index := current;
      current := (current + 1) % TWO64;
      r := Some(healthy[index % |healthy|]);
    }

    /** Least connections: the first of the least loaded, which then has one connection more. */
    method SelectLeastConnections() returns (r: Option<nat>)
      requires Valid()
      modifies this`connections
      ensures Valid()
      ensures var healthy := Eligible(targets, healthCheck);
              if healthy == [] then r == None && connections == old(connections)
              else
                var i := FirstLeast(Loads(healthy, old(connections)));
                r == Some(healthy[i]) && connections == old(connections)[healthy[i] := old(connections)[healthy[i]] + 1]
    {
      var healthy := GetHealthyTargets();
      if |healthy| == 0 {
        return None;
      }
      var selected := LeastLoaded(healthy, connections);
      FirstLeastUnique(Loads(healthy, connections), selected);
      var t := healthy[selected];
      connections := connections[t := connections[t] + 1];
      r := Some(t);
    }

    /** Gives one connection of the first target with this address back. */
    method ReleaseConnection(address: string) returns (found: bool)
      requires Valid()
      modifies this`connections
      ensures Valid()
      ensures found <==> exists i :: 0 <= i < |targets| && targets[i].address == address
      ensures if found then exists i :: FirstWith(targets, address, i)
                              && connections == old(connections)[i := old(connections)[i] - 1]
              else connections == old(connections)
      ensures forall i, j :: 0 <= j < i < |targets| && connections[i] != old(connections)[i] ==> targets[j].address != address
    {
      var i := 0;
      while i < |targets|
        invariant 0 <= i <= |targets| && connections == old(connections)
        invariant forall j :: 0 <= j < i ==> targets[j].address != address
      {
        if targets[i].address == address {
          assert FirstWith(targets, address, i);
          connections := connections[i := connections[i] - 1];
          return true;
        }
        i := i + 1;
      }
      found := false;
    }
  }

  /** The search for the least loaded of the given targets. */
  method LeastLoaded(healthy: seq<nat>, connections: seq<int>) returns (selected: nat)
    requires healthy != [] && forall k :: 0 <= k < |healthy| ==> healthy[k] < |connections|
    ensures IsFirstLeast(Loads(healthy, connections), selected)
  {
    ghost var loads := Loads(healthy, connections);
    selected := 0;
    var least := connections[healthy[0]];
    var i := 1;
    while i < |healthy|
      invariant 1 <= i <= |healthy| && 0 <= selected < i && least == loads[selected]
      invariant forall j :: 0 <= j < i ==> loads[selected] <= loads[j]
      invariant forall j :: 0 <= j < selected ==> loads[selected] < loads[j]
    {
      if connections[healthy[i]] < least {
        selected, least := i, connections[healthy[i]];
      }
      i := i + 1;
    }
  }

  /** The target selected has the fewest connections of all healthy ones, and fewer than any healthy one before it. */
  lemma LeastMeaning(targets: seq<Target>, healthCheck: bool, connections: seq<int>, t: nat)
    requires |connections| == |targets| && t in Eligible(targets, healthCheck)
    ensures var healthy := Eligible(targets, healthCheck); var pick := healthy[FirstLeast(Loads(healthy, connections))];
            connections[pick] <= connections[t] && (t < pick ==> connections[pick] < connections[t])
  {
    var healthy := Eligible(targets, healthCheck);
    var loads := Loads(healthy, connections);
    var k :| 0 <= k < |healthy| && healthy[k] == t;
    assert loads[k] == connections[t] && loads[FirstLeast(loads)] <= loads[k];
  }

  ghost predicate FirstWith(targets: seq<Target>, address: string, i: int) {
    && 0 <= i < |targets| && targets[i].address == address
    && forall j :: 0 <= j < i ==> targets[j].address != address
  }

  /** The connection counts of the targets at the given positions. */
  function Loads(positions: seq<nat>, connections: seq<int>): (r: seq<int>)
    requires forall k :: 0 <= k < |positions| ==> positions[k] < |connections|
    ensures |r| == |positions| && forall k :: 0 <= k < |r| ==> r[k] == connections[positions[k]]
  {
    seq(|positions|, k requires 0 <= k < |positions| => connections[positions[k]])
  }

  /** A selection changes the counts of the eligible targets as `Picked` says. */
  lemma SelectionIsPicked(targets: seq<Target>, healthCheck: bool, connections: seq<int>)
    requires |connections| == |targets| && Eligible(targets, healthCheck) != []
    ensures var healthy := Eligible(targets, healthCheck); var t := healthy[FirstLeast(Loads(healthy, connections))];
            Loads(healthy, connections[t := connections[t] + 1]) == Picked(Loads(healthy, connections))
  {
  }

  // --- Round robin is fair ---

  /** How many of the counter values `from`, ..., `from + m - 1` select position `i` out of `n`. */
  function Picks(from: nat, m: nat, n: nat, i: nat): nat
    requires n > 0
  {
    if m == 0 then 0 else Picks(from, m - 1, n, i) + (if (from + m - 1) % n == i then 1 else 0)
  }

  /** Any `n` consecutive values select each position exactly once. */
  lemma {:induction false} OnceAround(from: nat, n: nat, i: nat)
    requires i < n
    ensures Picks(from, n, n, i) == 1
  {
    var r := from % n;
    var d := if i >= r then i - r else i - r + n;
    PicksBefore(from, d, n, i, d);
    Offset(from, d, n);
    PicksAfter(from, d, n - 1 - d, n, i);
  }

  /** The position `k` steps on from `from`. */
  lemma Offset(from: nat, k: nat, n: nat)
    requires n > 0 && k < n
    ensures (from + k) % n == if from % n + k < n then from % n + k else from % n + k - n
  {
    var q, r := from / n, from % n;
    assert from == q * n + r;
    if r + k < n {
      ModOf(q, r + k, n);
      assert from + k == q * n + (r + k);
    } else {
      ModOf(q + 1, r + k - n, n);
      assert from + k == (q + 1) * n + (r + k - n);
    }
  }

  lemma DivStep(m: nat, n: nat)
    requires 0 < n <= m
    ensures m / n == (m - n) / n + 1 && m % n == (m - n) % n
  {
    var q, r := (m - n) / n, (m - n) % n;
    assert m == (q + 1) * n + r;
    ModOf(q + 1, r, n);
  }

  lemma {:induction false} PicksBefore(from: nat, m: nat, n: nat, i: nat, d: nat)
    requires i < n && m <= d < n && i == if from % n + d < n then from % n + d else from % n + d - n
    ensures Picks(from, m, n, i) == 0
    decreases m
  {
    if m > 0 {
      PicksBefore(from, m - 1, n, i, d);
      Offset(from, m - 1, n);
    }
  }

  lemma {:induction false} PicksAfter(from: nat, d: nat, k: nat, n: nat, i: nat)
    requires i < n && d + 1 + k <= n && i == if from % n + d < n then from % n + d else from % n + d - n
    requires Picks(from, d, n, i) == 0
    ensures Picks(from, d + 1 + k, n, i) == 1
    decreases k
  {
    Offset(from, d + k, n);
    if k > 0 {
      PicksAfter(from, d, k - 1, n, i);
    }
  }

  lemma {:induction false} PicksSplit(from: nat, a: nat, b: nat, n: nat, i: nat)
    requires n > 0
    ensures Picks(from, a + b, n, i) == Picks(from, a, n, i) + Picks(from + a, b, n, i)
    decreases b
  {
    if b > 0 {
      PicksSplit(from, a, b - 1, n, i);
    }
  }

  lemma {:induction false} PicksGrow(from: nat, a: nat, b: nat, n: nat, i: nat)
    requires n > 0 && a <= b
    ensures Picks(from, a, n, i) <= Picks(from, b, n, i)
    decreases b
  {
    if a < b {
      PicksGrow(from, a, b - 1, n, i);
    }
  }

  /** Over m selections, every one of n targets is picked floor(m/n) or ceil(m/n) times. */
  lemma {:induction false} RoundRobinFair(from: nat, m: nat, n: nat, i: nat)
    requires i < n
    ensures m / n <= Picks(from, m, n, i) <= (if m % n == 0 then m / n else m / n + 1)
    decreases m
  {
    if m < n {
      PicksGrow(from, m, n, n, i);
      OnceAround(from, n, i);
      ModOf(0, m, n);
      if m == 0 {
        assert Picks(from, 0, n, i) == 0;
      }
    } else {
      OnceAround(from, n, i);
      PicksSplit(from, n, m - n, n, i);
      RoundRobinFair(from + n, m - n, n, i);
      DivStep(m, n);
    }
  }

  /** How many of the m selections from counter value `from` on pick position `i`, with the counter wrapping. */
  function WrappedPicks(from: nat, m: nat, n: nat, i: nat): nat
    requires n > 0
  {
    if m == 0 then 0 else WrappedPicks(from, m - 1, n, i) + (if (from + m - 1) % TWO64 % n == i then 1 else 0)
  }

  lemma WrappedPosition(x: nat, n: nat)
    requires 0 < n && TWO64 % n == 0
    ensures x % TWO64 % n == x % n
  {
    var t, u := x / TWO64, TWO64 / n;
    var y := x % TWO64;
    assert x == t * TWO64 + y && TWO64 == u * n;
    var q, r := y / n, y % n;
    assert x == t * (u * n) + (q * n + r) == (t * u + q) * n + r;
    ModOf(t * u + q, r, n);
  }

  lemma {:induction false} WrapUnseen(from: nat, m: nat, n: nat, i: nat)
    requires 0 < n && (TWO64 % n == 0 || from + m <= TWO64)
    ensures WrappedPicks(from, m, n, i) == Picks(from, m, n, i)
    decreases m
  {
    if m > 0 {
      WrapUnseen(from, m - 1, n, i);
      WrapNotSeenAt(from + m - 1, n);
    }
  }

  lemma WrapNotSeenAt(x: nat, n: nat)
    requires 0 < n && (TWO64 % n == 0 || x < TWO64)
    ensures x % TWO64 % n == x % n
  {
    if x < TWO64 {
      assert x % TWO64 == x;
    } else {
      WrappedPosition(x, n);
    }
  }

  /** The targets picked by m selections in a row over the same healthy targets, and the counter after them. */
  function Rounds(healthy: seq<nat>, from: nat, m: nat): (r: (seq<nat>, nat))
    requires healthy != []
    ensures |r.0| == m
  {
    if m == 0 then ([], from)
    else
      var (picks, current) := Rounds(healthy, from, m - 1);
      var (pick, next) := RoundRobin(healthy, current);
      (picks + [pick], next)
  }

  lemma {:induction false} RoundsCounter(healthy: seq<nat>, from: nat, m: nat)
    requires healthy != [] && from < TWO64
    ensures Rounds(healthy, from, m).1 == (from + m) % TWO64
  {
    if m > 0 {
      RoundsCounter(healthy, from, m - 1);
      NextCount(from, m);
    }
  }

  /** The k-th pick is the healthy target at the counter's value then, taken round the list. */
  lemma {:induction false} PickAt(healthy: seq<nat>, from: nat, m: nat, k: nat)
    requires healthy != [] && from < TWO64 && k < m
    ensures Rounds(healthy, from, m).0[k] == healthy[(from + k) % TWO64 % |healthy|]
  {
    var j := LastPick(healthy, from, m);
    var before := Rounds(healthy, from, m - 1).0;
    if k < m - 1 {
      PickAt(healthy, from, m - 1, k);
      assert (before + [healthy[j]])[k] == before[k];
    } else {
      assert (before + [healthy[j]])[k] == healthy[j];
    }
  }

  lemma OneMorePick(picks: seq<nat>, healthy: seq<nat>, j: nat, i: nat)
    requires i < |healthy| && j < |healthy| && forall k, l :: 0 <= k < l < |healthy| ==> healthy[k] < healthy[l]
    ensures multiset(picks + [healthy[j]])[healthy[i]] == multiset(picks)[healthy[i]] + (if j == i then 1 else 0)
  {
  }

  lemma LastPick(healthy: seq<nat>, from: nat, m: nat) returns (j: nat)
    requires healthy != [] && from < TWO64 && m > 0
    ensures j < |healthy| && j == (from + m - 1) % TWO64 % |healthy|
    ensures Rounds(healthy, from, m).0 == Rounds(healthy, from, m - 1).0 + [healthy[j]]
  {
    RoundsCounter(healthy, from, m - 1);
    j := Rounds(healthy, from, m - 1).1 % |healthy|;
  }

  /** How often a target is picked is what counting the wrapping counter says. */
  lemma {:induction false} RoundsCount(healthy: seq<nat>, from: nat, m: nat, i: nat)
    requires i < |healthy| && from < TWO64 && forall k, l :: 0 <= k < l < |healthy| ==> healthy[k] < healthy[l]
    ensures multiset(Rounds(healthy, from, m).0)[healthy[i]] == WrappedPicks(from, m, |healthy|, i)
  {
    if m > 0 {
      RoundsCount(healthy, from, m - 1, i);
      var j := LastPick(healthy, from, m);
      OneMorePick(Rounds(healthy, from, m - 1).0, healthy, j, i);
    }
  }

  lemma NextCount(from: nat, m: nat)
    requires m > 0
    ensures ((from + m - 1) % TWO64 + 1) % TWO64 == (from + m) % TWO64
  {
  }

  /**
   * Over m selections every one of n healthy targets is picked floor(m/n) or ceil(m/n) times, as long as
   * the counter does not wrap on the way or n divides 2^64.
   */
  lemma SelectionsFair(targets: seq<Target>, healthCheck: bool, from: nat, m: nat, i: nat)
    requires var n := |Eligible(targets, healthCheck)|;
             i < n && from < TWO64 && (TWO64 % n == 0 || from + m <= TWO64)
    ensures var healthy := Eligible(targets, healthCheck); var n := |healthy|;
            m / n <= multiset(Rounds(healthy, from, m).0)[healthy[i]] <= (if m % n == 0 then m / n else m / n + 1)
  {
    var healthy := Eligible(targets, healthCheck);
    RoundsCount(healthy, from, m, i);
    WrapUnseen(from, m, |healthy|, i);
    RoundRobinFair(from, m, |healthy|, i);
  }

  /** From the last counter value on, the last target is skipped for a whole round unless n divides 2^64. */
  lemma {:induction false} LastSkipped(m: nat, n: nat)
    requires 0 < n && m <= n <= TWO64 && TWO64 % n != 0
    ensures WrappedPicks(TWO64 - 1, m, n, n - 1) == 0
    decreases m
  {
    if m == 1 {
      LastValue(n);
    } else if m > 1 {
      LastSkipped(m - 1, n);
      AfterWrap(m);
      ModOf(0, m - 2, n);
    }
  }

  lemma AfterWrap(m: nat)
    requires 1 < m <= TWO64
    ensures (TWO64 - 1 + m - 1) % TWO64 == m - 2
  {
  }

  lemma LastValue(n: nat)
    requires n > 0 && TWO64 % n != 0
    ensures (TWO64 - 1) % n != n - 1
  {
    var q := (TWO64 - 1) / n;
    if (TWO64 - 1) % n == n - 1 {
      assert TWO64 == (q + 1) * n + 0;
      ModOf(q + 1, 0, n);
      assert false;
    }
  }

  /** Every round of n selections, wherever it starts, visits every one of the n healthy targets once. */
  ghost predicate AlwaysFair(healthy: seq<nat>)
    requires healthy != []
  {
    forall from: nat, i: nat :: from < TWO64 && i < |healthy| ==>
      multiset(Rounds(healthy, from, |healthy|).0)[healthy[i]] == 1
  }

  lemma FairRound(healthy: seq<nat>, from: nat, i: nat)
    requires i < |healthy| && from < TWO64 && TWO64 % |healthy| == 0
    requires forall k, l :: 0 <= k < l < |healthy| ==> healthy[k] < healthy[l]
    ensures multiset(Rounds(healthy, from, |healthy|).0)[healthy[i]] == 1
  {
    RoundsCount(healthy, from, |healthy|, i);
    WrapUnseen(from, |healthy|, |healthy|, i);
    OnceAround(from, |healthy|, i);
  }

  lemma UnfairRound(healthy: seq<nat>)
    requires 0 < |healthy| <= TWO64 && TWO64 % |healthy| != 0
    requires forall k, l :: 0 <= k < l < |healthy| ==> healthy[k] < healthy[l]
    ensures multiset(Rounds(healthy, TWO64 - 1, |healthy|).0)[healthy[|healthy| - 1]] == 0
  {
    RoundsCount(healthy, TWO64 - 1, |healthy|, |healthy| - 1);
    LastSkipped(|healthy|, |healthy|);
  }

  /** Rounds are fair across the wrap-around of the counter exactly if n divides 2^64. */
  lemma FairAcrossWrap(targets: seq<Target>, healthCheck: bool)
    requires 0 < |Eligible(targets, healthCheck)| <= TWO64
    ensures AlwaysFair(Eligible(targets, healthCheck)) <==> TWO64 % |Eligible(targets, healthCheck)| == 0
  {
    var healthy := Eligible(targets, healthCheck);
    if TWO64 % |healthy| == 0 {
      forall from: nat, i: nat | from < TWO64 && i < |healthy|
        ensures multiset(Rounds(healthy, from, |healthy|).0)[healthy[i]] == 1
      {
        FairRound(healthy, from, i);
      }
    } else {
      UnfairRound(healthy);
    }
  }

  // --- Least connections stays level ---

  predicate IsFirstLeast(loads: seq<int>, i: nat) {
    && i < |loads| && (forall j :: 0 <= j < |loads| ==> loads[i] <= loads[j])
    && (forall j :: 0 <= j < i ==> loads[i] < loads[j])
  }

  ghost function FirstLeast(loads: seq<int>): (i: nat)
    requires loads != []
    ensures IsFirstLeast(loads, i)
  {
    if |loads| == 1 then 0
    else
      var i := FirstLeast(loads[..|loads| - 1]);
      if loads[|loads| - 1] < loads[i] then |loads| - 1 else i
  }

  lemma FirstLeastUnique(loads: seq<int>, i: nat)
    requires IsFirstLeast(loads, i)
    ensures FirstLeast(loads) == i
  {
    var k := FirstLeast(loads);
    assert loads[k] == loads[i];
  }

  /** The connection counts after one selection. */
  ghost function Picked(loads: seq<int>): (r: seq<int>)
    requires loads != []
    ensures |r| == |loads|
  {
    var i := FirstLeast(loads);
    loads[i := loads[i] + 1]
  }

  ghost function Selections(loads: seq<int>, m: nat): (r: seq<int>)
    requires loads != []
    ensures |r| == |loads|
  {
    if m == 0 then loads else Picked(Selections(loads, m - 1))
  }

  ghost predicate Level(loads: seq<int>) {
    forall i, j :: 0 <= i < |loads| && 0 <= j < |loads| ==> loads[i] - loads[j] <= 1
  }

  function Sum(loads: seq<int>): int {
    if loads == [] then 0 else Sum(loads[..|loads| - 1]) + loads[|loads| - 1]
  }

  lemma {:induction false} SumUpdate(loads: seq<int>, i: nat, v: int)
    requires i < |loads|
    ensures Sum(loads[i := v]) == Sum(loads) - loads[i] + v
  {
    var k := |loads| - 1;
    if i == k {
      assert loads[i := v][..k] == loads[..k];
    } else {
      assert loads[i := v][..k] == loads[..k][i := v];
      SumUpdate(loads[..k], i, v);
    }
  }

  lemma PickedStaysLevel(loads: seq<int>)
    requires loads != [] && Level(loads)
    ensures Level(Picked(loads))
  {
    var i := FirstLeast(loads);
    forall j, k | 0 <= j < |loads| && 0 <= k < |loads| ensures Picked(loads)[j] - Picked(loads)[k] <= 1 {
      assert loads[i] <= loads[k] && loads[j] - loads[k] <= 1;
    }
  }

  lemma PickedSum(loads: seq<int>)
    requires loads != []
    ensures Sum(Picked(loads)) == Sum(loads) + 1
  {
    var i := FirstLeast(loads);
    SumUpdate(loads, i, loads[i] + 1);
  }

  /** Without releases, m selections add m connections and never let two targets drift more than one apart. */
  lemma {:induction false} StaysLevel(loads: seq<int>, m: nat)
    requires loads != [] && Level(loads)
    ensures Level(Selections(loads, m)) && Sum(Selections(loads, m)) == Sum(loads) + m
  {
    if m > 0 {
      StaysLevel(loads, m - 1);
      PickedStaysLevel(Selections(loads, m - 1));
      PickedSum(Selections(loads, m - 1));
    }
  }
}
