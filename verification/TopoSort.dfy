/** The loader's topological sort: Kahn's algorithm with registration order as tie-break. */
module TopoSort {
  import opened Common
  import opened Seqs
  import opened Sorting
  import opened Graphs
  import opened Plugins

  // --- Registration order ---

  /** Name to position, later entries overwriting earlier ones. */
  function Positions(names: seq<string>): map<string, int> {
    if names == [] then map[] else Positions(names[..|names| - 1])[names[|names| - 1] := |names| - 1]
  }

  /** A missing name reads as zero, as in a Go map. */
  function RankIn(positions: map<string, int>): string -> int {
    n => if n in positions then positions[n] else 0
  }

  function Rank(registered: seq<Plugin>): string -> int {
    RankIn(Positions(Names(registered)))
  }

  lemma {:induction false} PositionsExact(names: seq<string>)
    requires NoDup(names)
    ensures Positions(names).Keys == Elems(names)
    ensures forall i :: 0 <= i < |names| ==> Positions(names)[names[i]] == i
  {
    if names != [] {
      PositionsExact(names[..|names| - 1]);
      assert names == names[..|names| - 1] + [names[|names| - 1]];
    }
  }

  /** With distinct names, a plugin's rank is its position in the order of registration. */
  lemma RankIsPosition(registered: seq<Plugin>, i: nat)
    requires NoDup(Names(registered)) && i < |registered|
    ensures Rank(registered)(registered[i].name) == i
  {
    PositionsExact(Names(registered));
    assert Names(registered)[i] == registered[i].name;
  }

  /**
   * Ties go to the plugin registered first: of two plugins, if the dependencies of both stood before the
   * position of the one placed earlier, that one was registered earlier.
   */
  lemma TiesByRegistration(g: Graph, registered: seq<Plugin>, order: seq<string>, i: nat, j: nat, x: nat, y: nat)
    requires NoDup(Names(registered)) && GreedyPrefix(g, Rank(registered), order) && i < j < |order|
    requires x < |registered| && y < |registered| && registered[x].name == order[i] && registered[y].name == order[j]
    requires order[j] in g && g[order[j]] <= Elems(order[..i])
    ensures x < y
  {
    GreedyIsOrdered(g, Rank(registered), order);
    assert FirstReady(g, Rank(registered), Elems(order[..i]), order[i]);
    LaterNotPlaced(order, i, j);
    assert order[j] in Ready(g, Elems(order[..i]));
    RankIsPosition(registered, x);
    RankIsPosition(registered, y);
  }

  lemma LaterNotPlaced(order: seq<string>, i: nat, j: nat)
    requires NoDup(order) && i < j < |order|
    ensures order[j] !in Elems(order[..i]) && order[i] != order[j]
  {
  }

  lemma RankInjective(registered: seq<Plugin>)
    requires NoDup(Names(registered))
    ensures InjectiveOn(Rank(registered), Elems(Names(registered)))
  {
    var names := Names(registered);
    PositionsExact(names);
    forall m, n | m in names && n in names && Rank(registered)(m) == Rank(registered)(n) ensures m == n {
      var i :| 0 <= i < |names| && names[i] == m;
      var j :| 0 <= j < |names| && names[j] == n;
    }
  }

  // --- Edges ---

  type Edges = map<string, seq<string>>

  function Dependents(edges: Edges, d: string): seq<string> {
    if d in edges then edges[d] else []
  }

  function DependentSet(g: Graph, done: set<string>, d: string): set<string> {
    set n | n in done && n in g && d in g[n]
  }

  /** `edges` lists, once each, the plugins of `done` that depend on each name. */
  ghost predicate EdgesOf(g: Graph, done: set<string>, edges: Edges) {
    forall d :: Lists(Dependents(edges, d), DependentSet(g, done, d))
  }

  ghost predicate Degrees(g: Graph, placed: set<string>, indegree: map<string, int>) {
    indegree.Keys == g.Keys && forall n :: n in g ==> indegree[n] == |g[n] - placed|
  }

  ghost predicate HardDepsPresent(configured: map<string, Plugin>) {
    forall n, d :: n in configured && d in configured[n].depends ==> d in configured
  }

  /** Adds `name` to the dependents of each name in `deps`. */
  method AddEdges(edges: Edges, name: string, deps: seq<string>) returns (r: Edges)
    requires NoDup(deps)
    ensures forall d :: Dependents(r, d) == Dependents(edges, d) + (if d in deps then [name] else [])
  {
    r := edges;
    var i := 0;
    while i < |deps|
      invariant 0 <= i <= |deps|
      invariant forall d :: Dependents(r, d) == Dependents(edges, d) + (if d in deps[..i] then [name] else [])
    {
      r := r[deps[i] := Dependents(r, deps[i]) + [name]];
      i := i + 1;
    }
    assert deps[..i] == deps;
  }

  /** One plugin's dependency list, worked out on the slices it hands out. */
  method DepsOf(p: Plugin, present: set<string>) returns (deps: seq<string>)
    ensures NoDup(deps) && Elems(deps) == DependencySet(p, present) && |deps| == |DependencySet(p, present)|
  {
    var hard := new string[|p.depends|](i requires 0 <= i < |p.depends| => p.depends[i]);
    var soft := new string[|p.softDepends|](i requires 0 <= i < |p.softDepends| => p.softDepends[i]);
    assert hard[..] == p.depends && soft[..] == p.softDepends;
    deps := CollectDeps(hard, soft, present);
    EffectiveDepsMeaning(p, present);
    ElemsCard(deps);
  }

  /** Edge counting, once the plugins in `done` have been seen. */
  ghost predicate Counted(g: Graph, todo: set<string>, done: set<string>, indegree: map<string, int>, edges: Edges) {
    && todo !! done && todo + done == g.Keys
    && indegree.Keys == done && (forall n :: n in indegree ==> indegree[n] == |g[n]|)
    && EdgesOf(g, done, edges)
  }

  method CountEdges(configured: map<string, Plugin>) returns (indegree: map<string, int>, edges: Edges)
    ensures Counted(DependencyGraph(configured), {}, configured.Keys, indegree, edges)
  {
    ghost var g := DependencyGraph(configured);
    indegree, edges := map[], map[];
    var todo := configured.Keys;
    ghost var done: set<string> := {};
    CountedStart(g);
    while todo != {}
      invariant todo <= configured.Keys && Counted(g, todo, done, indegree, edges)
    {
      var name :| name in todo;                       // any map iteration order
      indegree, edges := CountOne(g, todo, done, name, configured[name], configured.Keys, indegree, edges);
      todo, done := todo - {name}, done + {name};
    }
    assert done == g.Keys;
  }

  lemma CountedStart(g: Graph)
    ensures Counted(g, g.Keys, {}, map[], map[])
  {
  }

  method CountOne(ghost g: Graph, ghost todo: set<string>, ghost done: set<string>, name: string, p: Plugin,
                  present: set<string>,
                  indegree: map<string, int>, edges: Edges)
    returns (indegree': map<string, int>, edges': Edges)
    requires Counted(g, todo, done, indegree, edges) && name in todo && g[name] == DependencySet(p, present)
    ensures Counted(g, todo - {name}, done + {name}, indegree', edges')
  {
    var deps := DepsOf(p, present);
    indegree' := indegree[name := |deps|];
    edges' := AddEdges(edges, name, deps);
    CountedStep(g, todo, done, name, deps, indegree, edges, edges');
  }

  lemma CountedStep(g: Graph, todo: set<string>, done: set<string>, name: string, deps: seq<string>,
                    indegree: map<string, int>, before: Edges, after: Edges)
    requires name in todo && Counted(g, todo, done, indegree, before)
    requires Elems(deps) == g[name] && |deps| == |g[name]|
    requires forall d :: Dependents(after, d) == Dependents(before, d) + (if d in deps then [name] else [])
    ensures Counted(g, todo - {name}, done + {name}, indegree[name := |deps|], after)
  {
    DegreeCounted(g, todo, done, name, indegree, |deps|);
    assert forall d :: d in deps <==> d in g[name];
    AddedEdges(g, done, name, before, after);
  }

  lemma DegreeCounted(g: Graph, todo: set<string>, done: set<string>, name: string, indegree: map<string, int>, n: int)
    requires name in todo && todo !! done && todo + done == g.Keys && n == |g[name]|
    requires indegree.Keys == done && forall m :: m in indegree ==> indegree[m] == |g[m]|
    ensures (todo - {name}) !! (done + {name}) && (todo - {name}) + (done + {name}) == g.Keys
    ensures indegree[name := n].Keys == done + {name}
    ensures forall m :: m in indegree[name := n] ==> indegree[name := n][m] == |g[m]|
  {
  }

  lemma StartingDegrees(g: Graph, indegree: map<string, int>)
    requires indegree.Keys == g.Keys && forall n :: n in g ==> indegree[n] == |g[n]|
    ensures Degrees(g, {}, indegree) && NoDegrees(g, indegree)
  {
    forall n | n in g ensures indegree[n] == |g[n] - {}| && (indegree[n] == 0 <==> g[n] <= {}) {
      NothingPlaced(g[n]);
    }
  }

  lemma NothingPlaced(deps: set<string>)
    ensures deps - {} == deps && (|deps| == 0 <==> deps <= {})
  {
  }

  lemma AddedEdges(g: Graph, done: set<string>, name: string, before: Edges, after: Edges)
    requires name in g && name !in done && EdgesOf(g, done, before)
    requires forall d :: Dependents(after, d) == Dependents(before, d) + (if d in g[name] then [name] else [])
    ensures EdgesOf(g, done + {name}, after)
  {
    forall d ensures Lists(Dependents(after, d), DependentSet(g, done + {name}, d)) {
      var was, now := DependentSet(g, done, d), DependentSet(g, done + {name}, d);
      assert Lists(Dependents(before, d), was);
      if d in g[name] {
        ListsJoin(Dependents(before, d), was, name, now);
      } else {
        assert now == was && Dependents(after, d) == Dependents(before, d);
      }
    }
  }

  // --- The queue ---

  function BySeq(rank: string -> int): (string, string) -> bool {
    (a, b) => rank(a) < rank(b)
  }

  ghost predicate QueueHolds(queue: seq<string>, rank: string -> int, names: set<string>) {
    Lists(queue, names) && SortedBy(queue, BySeq(rank))
  }

  lemma PermutationLists(a: seq<string>, b: seq<string>, names: set<string>)
    requires multiset(a) == multiset(b) && Lists(a, names)
    ensures Lists(b, names)
  {
    forall x ensures x in b <==> x in names {
      assert x in a <==> x in multiset(a);
      assert x in b <==> x in multiset(b);
    }
    forall i, j | 0 <= i < j < |b| ensures b[i] != b[j] {
      CountDistinct(a, b[i]);
      if b[i] == b[j] {
        CountRepeated(b, i, j);
      }
    }
  }

  lemma {:induction false} CountDistinct(s: seq<string>, x: string)
    requires NoDup(s)
    ensures multiset(s)[x] <= 1
  {
    if s != [] {
      CountDistinct(s[1..], x);
      assert s == [s[0]] + s[1..];
      assert s[0] !in s[1..];
    }
  }

  lemma CountRepeated(s: seq<string>, i: nat, j: nat)
    requires i < j < |s| && s[i] == s[j]
    ensures multiset(s)[s[i]] >= 2
  {
    assert s == s[..i] + [s[i]] + s[i + 1..j] + [s[j]] + s[j + 1..];
  }

  method SortQueue(queue: seq<string>, rank: string -> int, ghost names: set<string>) returns (r: seq<string>)
    requires Lists(queue, names)
    ensures QueueHolds(r, rank, names)
  {
    var a := new string[|queue|](i requires 0 <= i < |queue| => queue[i]);
    assert a[..] == queue;
    SortSliceStable(a, BySeq(rank));
    r := a[..];
    PermutationLists(queue, r, names);
  }

  /** The count is zero exactly for plugins without dependencies. */
  ghost predicate NoDegrees(g: Graph, indegree: map<string, int>) {
    indegree.Keys == g.Keys && forall n :: n in g ==> (indegree[n] == 0 <==> g[n] <= {})
  }

  /** The queue, once the names in `done` have been looked at. */
  ghost predicate Queued(g: Graph, todo: set<string>, done: set<string>, queue: seq<string>) {
    && todo !! done && todo + done == g.Keys
    && Lists(queue, ReadyAmong(g, {}, done))
  }

  method InitialQueue(ghost g: Graph, indegree: map<string, int>) returns (queue: seq<string>)
    requires NoDegrees(g, indegree)
    ensures Lists(queue, Ready(g, {}))
  {
    queue := [];
    var todo := indegree.Keys;
    ghost var done: set<string> := {};
    while todo != {}
      invariant todo <= g.Keys && Queued(g, todo, done, queue)
    {
      var name :| name in todo;                       // any map iteration order
      QueuedStep(g, todo, done, queue, name);
      if indegree[name] == 0 {
        queue := queue + [name];
      }
      todo, done := todo - {name}, done + {name};
    }
    assert done == g.Keys;
    ReadyAll(g);
  }

  lemma ReadyAll(g: Graph)
    ensures Ready(g, {}) == ReadyAmong(g, {}, g.Keys)
  {
  }

  lemma QueuedStep(g: Graph, todo: set<string>, done: set<string>, queue: seq<string>, name: string)
    requires name in todo && Queued(g, todo, done, queue)
    ensures Queued(g, todo - {name}, done + {name}, if g[name] <= {} then queue + [name] else queue)
  {
    ReadyAmongGrows(g, {}, done, name);
    assert (todo - {name}) + (done + {name}) == g.Keys;
    if g[name] <= {} {
      ListsJoin(queue, ReadyAmong(g, {}, done), name, ReadyAmong(g, {}, done + {name}));
    }
  }

  /** The names of `among` whose dependencies are all placed. */
  ghost function ReadyAmong(g: Graph, placed: set<string>, among: set<string>): set<string> {
    set n | n in among && n in g && g[n] <= placed
  }

  lemma ReadyAmongGrows(g: Graph, placed: set<string>, among: set<string>, n: string)
    requires n in g
    ensures ReadyAmong(g, placed, among + {n}) == ReadyAmong(g, placed, among) + (if g[n] <= placed then {n} else {})
  {
  }

  ghost predicate DegreesMid(g: Graph, placed: set<string>, done: set<string>, indegree: map<string, int>) {
    && indegree.Keys == g.Keys
    && forall n :: n in g ==> indegree[n] == |g[n] - placed| - (if n in done then 1 else 0)
  }

  /** What the queue holds while `name` is being placed, once the dependents in `done` have been handled. */
  ghost function QueueMid(g: Graph, placed: set<string>, name: string, done: set<string>): set<string> {
    Ready(g, placed) - {name} + ReadyAmong(g, placed + {name}, done)
  }

  /** Takes `name` off the books: every dependent loses one, and those that reach zero join the queue. */
  method Release(ghost g: Graph, ghost placed: set<string>, name: string, next: seq<string>,
                 indegree: map<string, int>, queue: seq<string>)
    returns (indegree': map<string, int>, queue': seq<string>)
    requires name in Ready(g, placed) && (forall n :: n in placed && n in g ==> g[n] <= placed)
    requires NoDup(next) && forall n :: n in next <==> n in g && name in g[n]
    requires Degrees(g, placed, indegree) && Lists(queue, Ready(g, placed) - {name})
    ensures Degrees(g, placed + {name}, indegree')
    ensures Lists(queue', Ready(g, placed + {name}))
  {
    indegree', queue' := indegree, queue;
    var i := 0;
    while i < |next|
      invariant 0 <= i <= |next|
      invariant DegreesMid(g, placed, Elems(next[..i]), indegree')
      invariant Lists(queue', QueueMid(g, placed, name, Elems(next[..i])))
    {
      var n := next[i];
      PrefixGrows(next, i);
      DegreeStep(g, placed, name, Elems(next[..i]), n, indegree');
      QueueStep(g, placed, name, Elems(next[..i]), n, queue');
      indegree' := indegree'[n := indegree'[n] - 1];
      if indegree'[n] == 0 {
        queue' := queue' + [n];
      }
      i := i + 1;
    }
    assert next[..i] == next;
    ReleasedReady(g, placed, name, next);
    ReleasedDegrees(g, placed, name, next, indegree');
  }

  lemma DegreeStep(g: Graph, placed: set<string>, name: string, done: set<string>, n: string, indegree: map<string, int>)
    requires name !in placed && n in g && name in g[n] && n !in done && DegreesMid(g, placed, done, indegree)
    ensures DegreesMid(g, placed, done + {n}, indegree[n := indegree[n] - 1])
    ensures indegree[n] - 1 == 0 <==> g[n] <= placed + {name}
  {
    OneFewer(g[n], placed, name);
  }

  lemma QueueStep(g: Graph, placed: set<string>, name: string, done: set<string>, n: string, queue: seq<string>)
    requires name !in placed && n in g && name in g[n] && n !in done
    requires Lists(queue, QueueMid(g, placed, name, done))
    ensures Lists(if g[n] <= placed + {name} then queue + [n] else queue, QueueMid(g, placed, name, done + {n}))
  {
    ReadyAmongGrows(g, placed + {name}, done, n);
    if g[n] <= placed + {name} {
      ListsJoin(queue, QueueMid(g, placed, name, done), n, QueueMid(g, placed, name, done + {n}));
    }
  }

  lemma ReleasedReady(g: Graph, placed: set<string>, name: string, next: seq<string>)
    requires name in Ready(g, placed) && (forall n :: n in placed && n in g ==> g[n] <= placed)
    requires forall n :: n in next <==> n in g && name in g[n]
    ensures Ready(g, placed + {name}) == Ready(g, placed) - {name} + ReadyAmong(g, placed + {name}, Elems(next))
  {
  }

  lemma ReleasedDegrees(g: Graph, placed: set<string>, name: string, next: seq<string>, indegree: map<string, int>)
    requires name !in placed && forall n :: n in next <==> n in g && name in g[n]
    requires DegreesMid(g, placed, Elems(next), indegree)
    ensures Degrees(g, placed + {name}, indegree)
  {
    forall n | n in g ensures indegree[n] == |g[n] - (placed + {name})| {
      if name in g[n] {
        OneFewer(g[n], placed, name);
      } else {
        assert g[n] - (placed + {name}) == g[n] - placed;
      }
    }
  }

  lemma OneFewer(deps: set<string>, placed: set<string>, name: string)
    requires name in deps && name !in placed
    ensures |deps - (placed + {name})| == |deps - placed| - 1
    ensures |deps - (placed + {name})| == 0 <==> deps <= placed + {name}
  {
    assert deps - placed == (deps - (placed + {name})) + {name};
  }

  ghost predicate Draining(g: Graph, rank: string -> int, order: seq<string>, indegree: map<string, int>,
                           queue: seq<string>) {
    && GreedyPrefix(g, rank, order)
    && Degrees(g, Elems(order), indegree)
    && QueueHolds(queue, rank, Ready(g, Elems(order)))
  }

  method Drain(ghost g: Graph, rank: string -> int, edges: Edges, indegree0: map<string, int>, queue0: seq<string>)
    returns (order: seq<string>)
    requires EdgesOf(g, g.Keys, edges)
    requires Degrees(g, {}, indegree0) && QueueHolds(queue0, rank, Ready(g, {}))
    ensures Greedy(g, rank, order)
  {
    var indegree, queue := indegree0, queue0;
    order := [];
    assert Elems(order) == {};
    while queue != []
      invariant Draining(g, rank, order, indegree, queue)
      decreases |g.Keys - Elems(order)|
    {
      indegree, queue, order := Place(g, rank, edges, indegree, queue, order);
    }
  }

  /** One round: places the head of the queue and re-sorts what has become ready. */
  method Place(ghost g: Graph, rank: string -> int, edges: Edges, indegree: map<string, int>, queue: seq<string>,
               order: seq<string>)
    returns (indegree': map<string, int>, queue': seq<string>, order': seq<string>)
    requires EdgesOf(g, g.Keys, edges) && queue != [] && Draining(g, rank, order, indegree, queue)
    ensures Draining(g, rank, order', indegree', queue')
    ensures |g.Keys - Elems(order')| < |g.Keys - Elems(order)|
  {
    var name := queue[0];
    QueueHead(g, rank, order, queue);
    ghost var placed := Elems(order);
    indegree', queue' := Release(g, placed, name, Dependents(edges, name), indegree, queue[1..]);
    order' := order + [name];
    PlacedOne(g, rank, order, name);
    queue' := SortQueue(queue', rank, Ready(g, Elems(order')));
  }

  lemma PlacedOne(g: Graph, rank: string -> int, order: seq<string>, name: string)
    requires GreedyPrefix(g, rank, order) && FirstReady(g, rank, Elems(order), name)
    ensures GreedyPrefix(g, rank, order + [name])
    ensures Elems(order + [name]) == Elems(order) + {name}
    ensures |g.Keys - Elems(order + [name])| < |g.Keys - Elems(order)|
  {
    GreedyExtend(g, rank, order, name);
    assert g.Keys - Elems(order) == (g.Keys - Elems(order + [name])) + {name};
  }

  lemma QueueHead(g: Graph, rank: string -> int, order: seq<string>, queue: seq<string>)
    requires GreedyPrefix(g, rank, order) && queue != [] && QueueHolds(queue, rank, Ready(g, Elems(order)))
    ensures FirstReady(g, rank, Elems(order), queue[0])
    ensures Lists(queue[1..], Ready(g, Elems(order)) - {queue[0]})
    ensures forall n :: n in Elems(order) && n in g ==> g[n] <= Elems(order)
  {
    forall m | m in Ready(g, Elems(order)) ensures rank(queue[0]) <= rank(m) {
      assert m in queue;
      var k :| 0 <= k < |queue| && queue[k] == m;
      assert k > 0 ==> !BySeq(rank)(queue[k], queue[0]);
    }
    assert queue == [queue[0]] + queue[1..];
    GreedyIsOrdered(g, rank, order);
    forall n | n in Elems(order) && n in g ensures g[n] <= Elems(order) {
      var i :| 0 <= i < |order| && order[i] == n;
      assert g[order[i]] <= Elems(order[..i]);
    }
  }

  /** The names left out of a failed sort, in alphabetical order. */
  method Leftover(names: set<string>, order: seq<string>) returns (r: seq<string>)
    ensures Lists(r, names - Elems(order)) && SortedBy(r, StrLess)
  {
    var rest: seq<string> := [];
    var todo := names;
    ghost var done: set<string> := {};
    while todo != {}
      invariant todo !! done && todo + done == names
      invariant Lists(rest, done - Elems(order))
    {
      var name :| name in todo;                       // any map iteration order
      if name !in order {
        ListsJoin(rest, done - Elems(order), name, done + {name} - Elems(order));
        rest := rest + [name];
      }
      todo, done := todo - {name}, done + {name};
    }
    var a := new string[|rest|](i requires 0 <= i < |rest| => rest[i]);
    assert a[..] == rest;
    StrLessIsStrictWeak();
    SortSliceStable(a, StrLess);
    r := a[..];
    PermutationLists(rest, r, names - Elems(order));
  }

  method PositionsOf(registered: seq<Plugin>) returns (positions: map<string, int>)
    ensures positions == Positions(Names(registered))
  {
    positions := map[];
    ghost var names := Names(registered);
    var i := 0;
    while i < |registered|
      invariant 0 <= i <= |registered|
      invariant positions == Positions(names[..i])
    {
      assert names[..i + 1][..i] == names[..i];
      positions := positions[registered[i].name := i];
      i := i + 1;
    }
    assert names[..i] == names;
  }

  lemma GraphClosed(configured: map<string, Plugin>)
    requires HardDepsPresent(configured)
    ensures Closed(DependencyGraph(configured))
  {
  }

  /** The order in which the algorithm places plugins, before it is checked for completeness. */
  method Order(configured: map<string, Plugin>, registered: seq<Plugin>) returns (order: seq<string>)
    ensures Greedy(DependencyGraph(configured), Rank(registered), order)
  {
    ghost var g := DependencyGraph(configured);
    var positions := PositionsOf(registered);
    var rank := RankIn(positions);
    var indegree, edges := CountEdges(configured);
    assert g.Keys == configured.Keys;
    StartingDegrees(g, indegree);
    var queue := InitialQueue(g, indegree);
    queue := SortQueue(queue, rank, Ready(g, {}));
    order := Drain(g, rank, edges, indegree, queue);
  }

  /**
   * Succeeds exactly when no configured plugin is on a dependency cycle, and then returns the greedy
   * order; otherwise reports exactly the plugins that depend on a cycle.
   */
  method Sort(configured: map<string, Plugin>, registered: seq<Plugin>) returns (r: Result<seq<string>, seq<string>>)
    requires HardDepsPresent(configured)
    ensures r.Success? <==> Acyclic(DependencyGraph(configured))
    ensures r.Success? ==> Greedy(DependencyGraph(configured), Rank(registered), r.value)
    ensures r.Success? ==> Elems(r.value) == configured.Keys
    ensures r.Failure? ==> NoDup(r.error) && SortedBy(r.error, StrLess)
    ensures r.Failure? ==> forall n :: n in r.error <==> DependsOnCycle(DependencyGraph(configured), n)
  {
    ghost var g, rank := DependencyGraph(configured), Rank(registered);
    var order := Order(configured, registered);
    GraphClosed(configured);
    CompleteIffAcyclic(g, rank, order);
    assert g.Keys == configured.Keys;
    if |order| != |configured| {
      var rest := Leftover(configured.Keys, order);
      ReportIsCyclic(g, rank, order, rest);
      r := Failure(rest);
    } else {
      r := Success(order);
    }
  }

  lemma ReportIsCyclic(g: Graph, rank: string -> int, order: seq<string>, rest: seq<string>)
    requires Closed(g) && Greedy(g, rank, order) && Lists(rest, g.Keys - Elems(order))
    ensures forall n :: n in rest <==> DependsOnCycle(g, n)
  {
    LeftoverIsCyclic(g, rank, order);
    CycleDependentsAreNodes(g);
    forall n ensures n in rest <==> DependsOnCycle(g, n) {
      assert n in rest <==> n in g && n !in order;
    }
  }

  lemma CycleDependentsAreNodes(g: Graph)
    ensures forall n :: DependsOnCycle(g, n) ==> n in g
  {
    forall n | DependsOnCycle(g, n) ensures n in g {
      var p :| LeadsToCycle(g, p, n);
      if |p| == 1 {
        CycleMember(g, n);
      } else {
        assert Edge(g, p, 0);
      }
    }
  }
}
