/** Dependency graphs, cycles, and the greedy order the loader promises. */
module Graphs {
  import opened Seqs

  /** Each plugin name with the set of names it must come after. */
  type Graph = map<string, set<string>>

  ghost predicate Closed(g: Graph) {
    forall n :: n in g ==> g[n] <= g.Keys
  }

  ghost predicate Edge(g: Graph, p: seq<string>, i: int)
    requires 0 <= i < |p| - 1
  {
    p[i] in g && p[i + 1] in g[p[i]]
  }

  /** A walk along dependency edges: `p[i]` depends on `p[i + 1]`. */
  ghost predicate IsPath(g: Graph, p: seq<string>) {
    p != [] && forall i :: 0 <= i < |p| - 1 ==> Edge(g, p, i)
  }

  lemma Prepend(g: Graph, n: string, p: seq<string>)
    requires IsPath(g, p) && n in g && p[0] in g[n]
    ensures IsPath(g, [n] + p)
  {
    var q := [n] + p;
    forall i | 0 <= i < |q| - 1 ensures Edge(g, q, i) {
      if i > 0 {
        assert Edge(g, p, i - 1);
      }
    }
  }

  lemma Subpath(g: Graph, p: seq<string>, lo: nat, hi: nat)
    requires IsPath(g, p) && lo < hi <= |p|
    ensures IsPath(g, p[lo..hi])
  {
    var q := p[lo..hi];
    forall i | 0 <= i < |q| - 1 ensures Edge(g, q, i) {
      assert Edge(g, p, lo + i);
    }
  }

  ghost predicate IsCycle(g: Graph, c: seq<string>, n: string) {
    IsPath(g, c) && |c| >= 2 && c[0] == n && c[|c| - 1] == n
  }

  ghost predicate OnCycle(g: Graph, n: string) {
    exists c :: IsCycle(g, c, n)
  }

  ghost predicate Acyclic(g: Graph) {
    forall n :: !OnCycle(g, n)
  }

  ghost predicate LeadsToCycle(g: Graph, p: seq<string>, n: string) {
    IsPath(g, p) && p[0] == n && OnCycle(g, p[|p| - 1])
  }

  /** `n` is on a cycle or depends, directly or not, on a plugin that is. */
  ghost predicate DependsOnCycle(g: Graph, n: string) {
    exists p :: LeadsToCycle(g, p, n)
  }

  /** The plugins not yet placed whose dependencies all are. */
  function Ready(g: Graph, placed: set<string>): set<string> {
    set n | n in g && n !in placed && g[n] <= placed
  }

  ghost predicate FirstReady(g: Graph, rank: string -> int, placed: set<string>, n: string) {
    n in Ready(g, placed) && forall m :: m in Ready(g, placed) ==> rank(n) <= rank(m)
  }

  /** Every position holds the lowest-ranked plugin that could stand there. */
  ghost predicate GreedyPrefix(g: Graph, rank: string -> int, order: seq<string>) {
    forall i :: 0 <= i < |order| ==> FirstReady(g, rank, Elems(order[..i]), order[i])
  }

  /** A greedy order that cannot be extended any further. */
  ghost predicate Greedy(g: Graph, rank: string -> int, order: seq<string>) {
    GreedyPrefix(g, rank, order) && Ready(g, Elems(order)) == {}
  }

  ghost predicate InjectiveOn(rank: string -> int, names: set<string>) {
    forall m, n :: m in names && n in names && rank(m) == rank(n) ==> m == n
  }

  /** Every dependency of every listed plugin stands earlier in the list. */
  ghost predicate DependenciesFirst(g: Graph, order: seq<string>) {
    && NoDup(order) && Elems(order) <= g.Keys
    && forall i :: 0 <= i < |order| ==> g[order[i]] <= Elems(order[..i])
  }

  lemma GreedyIsOrdered(g: Graph, rank: string -> int, order: seq<string>)
    requires GreedyPrefix(g, rank, order)
    ensures DependenciesFirst(g, order)
  {
    forall i, j | 0 <= i < j < |order| ensures order[i] != order[j] {
      assert FirstReady(g, rank, Elems(order[..j]), order[j]);
      assert order[i] == order[..j][i];
    }
    forall i | 0 <= i < |order| ensures order[i] in g && g[order[i]] <= Elems(order[..i]) {
      assert FirstReady(g, rank, Elems(order[..i]), order[i]);
    }
  }

  lemma GreedyExtend(g: Graph, rank: string -> int, order: seq<string>, n: string)
    requires GreedyPrefix(g, rank, order) && FirstReady(g, rank, Elems(order), n)
    ensures GreedyPrefix(g, rank, order + [n])
  {
    var longer := order + [n];
    forall i | 0 <= i < |longer| ensures FirstReady(g, rank, Elems(longer[..i]), longer[i]) {
      assert longer[..i] == order[..i];
      assert order[..|order|] == order;
    }
  }

  /** With distinct ranks there is only one greedy order, whatever produced it. */
  lemma GreedyUnique(g: Graph, rank: string -> int, a: seq<string>, b: seq<string>)
    requires InjectiveOn(rank, g.Keys)
    requires Greedy(g, rank, a) && Greedy(g, rank, b)
    ensures a == b
  {
    GreedyNext(g, rank, a, b);
    GreedyNext(g, rank, b, a);
    GreedyAgree(g, rank, a, b, |a|);
    assert a[..|a|] == a && b[..|b|] == b;
  }

  /** If `b` goes on after `a` ends, the plugin it places there was still ready. */
  lemma GreedyNext(g: Graph, rank: string -> int, a: seq<string>, b: seq<string>)
    requires InjectiveOn(rank, g.Keys)
    requires GreedyPrefix(g, rank, a) && GreedyPrefix(g, rank, b)
    ensures |a| < |b| ==> b[|a|] in Ready(g, Elems(a))
  {
    if |a| < |b| {
      GreedyAgree(g, rank, a, b, |a|);
      assert a[..|a|] == a;
      assert FirstReady(g, rank, Elems(b[..|a|]), b[|a|]);
    }
  }

  lemma {:induction false} GreedyAgree(g: Graph, rank: string -> int, a: seq<string>, b: seq<string>, k: nat)
    requires InjectiveOn(rank, g.Keys)
    requires GreedyPrefix(g, rank, a) && GreedyPrefix(g, rank, b)
    requires k <= |a| && k <= |b|
    ensures a[..k] == b[..k]
  {
    if k > 0 {
      GreedyAgree(g, rank, a, b, k - 1);
      SameNext(g, rank, a, b, k - 1);
    }
  }

  lemma SameNext(g: Graph, rank: string -> int, a: seq<string>, b: seq<string>, k: nat)
    requires InjectiveOn(rank, g.Keys)
    requires GreedyPrefix(g, rank, a) && GreedyPrefix(g, rank, b)
    requires k < |a| && k < |b| && a[..k] == b[..k]
    ensures a[..k + 1] == b[..k + 1]
  {
    FirstReadyUnique(g, rank, Elems(a[..k]), a[k], b[k]);
    assert a[..k + 1] == a[..k] + [a[k]] && b[..k + 1] == b[..k] + [b[k]];
  }

  lemma FirstReadyUnique(g: Graph, rank: string -> int, placed: set<string>, x: string, y: string)
    requires InjectiveOn(rank, g.Keys)
    requires FirstReady(g, rank, placed, x) && FirstReady(g, rank, placed, y)
    ensures x == y
  {
    assert x in Ready(g, placed) && y in Ready(g, placed);
  }

  // --- Ordered plugins never depend on a cycle ---

  function IndexOf(order: seq<string>, n: string): (i: nat)
    requires n in order
    ensures i < |order| && order[i] == n
  {
    if order[0] == n then 0 else 1 + IndexOf(order[1..], n)
  }

  /** Along a path that starts in the order, positions strictly fall. */
  lemma {:induction false} PathDescends(g: Graph, order: seq<string>, p: seq<string>, k: nat)
    requires DependenciesFirst(g, order) && IsPath(g, p) && p[0] in order && k < |p|
    ensures p[k] in order && IndexOf(order, p[k]) + k <= IndexOf(order, p[0])
  {
    if k > 0 {
      PathDescends(g, order, p, k - 1);
      var i := IndexOf(order, p[k - 1]);
      assert Edge(g, p, k - 1);
      assert p[k] in Elems(order[..i]);
      var j :| 0 <= j < i && order[..i][j] == p[k];
      assert order[j] == p[k];
      assert IndexOf(order, p[k]) == j;
    }
  }

  lemma OrderedAvoidsCycles(g: Graph, order: seq<string>, n: string)
    requires DependenciesFirst(g, order) && n in order
    ensures !DependsOnCycle(g, n)
  {
    forall p | LeadsToCycle(g, p, n) ensures false {
      var last := p[|p| - 1];
      PathDescends(g, order, p, |p| - 1);
      var c :| IsCycle(g, c, last);
      PathDescends(g, order, c, |c| - 1);
    }
  }

  lemma CycleMember(g: Graph, n: string)
    requires OnCycle(g, n)
    ensures n in g && DependsOnCycle(g, n)
  {
    var c :| IsCycle(g, c, n);
    assert Edge(g, c, 0);
    assert LeadsToCycle(g, [n], n);
  }

  // --- A set in which everything depends on something in the set leads to a cycle ---

  ghost predicate Blocked(g: Graph, rest: set<string>, n: string) {
    n in g && exists d :: d in g[n] && d in rest
  }

  ghost predicate Stuck(g: Graph, rest: set<string>) {
    forall n {:trigger Blocked(g, rest, n)} :: n in rest ==> Blocked(g, rest, n)
  }

  ghost predicate WalkIn(g: Graph, rest: set<string>, p: seq<string>, n: string) {
    IsPath(g, p) && p[0] == n && Elems(p) <= rest
  }

  lemma {:induction false} LongWalk(g: Graph, rest: set<string>, n: string, len: nat) returns (p: seq<string>)
    requires Stuck(g, rest) && n in rest
    ensures WalkIn(g, rest, p, n) && |p| == len + 1
    decreases len
  {
    if len == 0 {
      p := [n];
    } else {
      assert Blocked(g, rest, n);
      var d :| d in g[n] && d in rest;
      var q := LongWalk(g, rest, d, len - 1);
      p := [n] + q;
      Prepend(g, n, q);
      assert Elems(p) == {n} + Elems(q);
    }
  }

  /** A walk longer than the set it stays in visits some plugin twice. */
  lemma Pigeonhole(p: seq<string>, rest: set<string>) returns (i: nat, j: nat)
    requires Elems(p) <= rest && |p| > |rest|
    ensures i < j < |p| && p[i] == p[j]
  {
    if NoDup(p) {
      ElemsCard(p);
      SubsetCard(Elems(p), rest);
      assert false;
    }
    i, j :| 0 <= i < j < |p| && p[i] == p[j];
  }

  lemma {:induction false} SubsetCard(a: set<string>, b: set<string>)
    requires a <= b
    ensures |a| <= |b|
  {
    if a != {} {
      var x :| x in a;
      SubsetCard(a - {x}, b - {x});
    }
  }

  lemma StuckLeadsToCycle(g: Graph, rest: set<string>, n: string)
    requires Stuck(g, rest) && n in rest
    ensures DependsOnCycle(g, n)
  {
    var p := LongWalk(g, rest, n, |rest|);
    var i, j := Pigeonhole(p, rest);
    var c := p[i..j + 1];
    assert c[0] == p[i] && c[|c| - 1] == p[j];
    Subpath(g, p, i, j + 1);
    Subpath(g, p, 0, i + 1);
    assert IsCycle(g, c, p[i]);
    assert LeadsToCycle(g, p[0..i + 1], n);
  }

  /** What a finished greedy order leaves out is exactly what depends on a cycle. */
  lemma LeftoverIsCyclic(g: Graph, rank: string -> int, order: seq<string>)
    requires Closed(g) && Greedy(g, rank, order)
    ensures Elems(order) <= g.Keys && NoDup(order)
    ensures forall n :: n in g ==> (n !in order <==> DependsOnCycle(g, n))
  {
    GreedyIsOrdered(g, rank, order);
    var rest := g.Keys - Elems(order);
    assert Stuck(g, rest) by {
      forall n | n in rest ensures Blocked(g, rest, n) {
        assert n !in Ready(g, Elems(order));
        var d :| d in g[n] && d !in Elems(order);
        assert d in rest;
      }
    }
    forall n | n in g ensures n !in order <==> DependsOnCycle(g, n) {
      if n in order {
        OrderedAvoidsCycles(g, order, n);
      } else {
        StuckLeadsToCycle(g, rest, n);
      }
    }
  }

  /** A finished greedy order is complete exactly when the graph has no cycle. */
  lemma CompleteIffAcyclic(g: Graph, rank: string -> int, order: seq<string>)
    requires Closed(g) && Greedy(g, rank, order)
    ensures |order| == |g| <==> Acyclic(g)
    ensures |order| == |g| <==> Elems(order) == g.Keys
  {
    LeftoverIsCyclic(g, rank, order);
    ElemsCard(order);
    if |order| == |g| {
      assert Elems(order) == g.Keys by {
        if n :| n in g && n !in order {
          SubsetCard(Elems(order), g.Keys - {n});
        }
      }
      forall n ensures !OnCycle(g, n) {
        if OnCycle(g, n) {
          CycleMember(g, n);
        }
      }
    } else {
      assert Elems(order) != g.Keys;
      var n :| n in g && n !in order;
      var p :| LeadsToCycle(g, p, n);
      assert OnCycle(g, p[|p| - 1]);
    }
  }

  /** Nothing off the cycles depends directly on a plugin that is on one. */
  ghost predicate CyclesUnused(g: Graph) {
    forall n, d :: n in g && d in g[n] && OnCycle(g, d) ==> OnCycle(g, n)
  }

  /** The plugins that depend on a cycle are just those on one exactly when nothing else uses a cycle. */
  lemma OnlyCycles(g: Graph)
    ensures (forall n :: DependsOnCycle(g, n) <==> OnCycle(g, n)) <==> CyclesUnused(g)
  {
    if CyclesUnused(g) {
      forall n ensures DependsOnCycle(g, n) <==> OnCycle(g, n) {
        if p :| LeadsToCycle(g, p, n) {
          WalkOnCycles(g, p, 0);
        }
        if OnCycle(g, n) {
          CycleMember(g, n);
        }
      }
    } else {
      var n, d :| n in g && d in g[n] && OnCycle(g, d) && !OnCycle(g, n);
      assert Edge(g, [n, d], 0);
      assert LeadsToCycle(g, [n, d], n);
    }
  }

  lemma {:induction false} WalkOnCycles(g: Graph, p: seq<string>, k: nat)
    requires CyclesUnused(g) && IsPath(g, p) && k < |p| && OnCycle(g, p[|p| - 1])
    ensures OnCycle(g, p[k])
    decreases |p| - k
  {
    if k < |p| - 1 {
      WalkOnCycles(g, p, k + 1);
      assert Edge(g, p, k);
    }
  }
}
