/** Building an application: filter, configure, check dependencies, sort. */
module Loader {
  import opened Common
  import opened Seqs
  import opened Sorting
  import opened Graphs
  import opened Plugins
  import opened TopoSort
  import Registries

  datatype BuildError =
    | ConfigureFailed(name: string)
    | MissingDependency(name: string, dep: string)
    | DependencyCycle(names: seq<string>)

  /** A plugin without a toggle is enabled. */
  predicate IsEnabled(toggles: map<string, bool>, name: string) {
    name !in toggles || toggles[name]
  }

  /** The plugins that pass both the configuration toggles and their own Configure. */
  function Configured(registered: seq<Plugin>, toggles: map<string, bool>): map<string, Plugin> {
    if registered == [] then map[]
    else
      var p := registered[|registered| - 1];
      var before := Configured(registered[..|registered| - 1], toggles);
      if IsEnabled(toggles, p.name) && p.configuration.Accepted? then before[p.name := p] else before
  }

  lemma {:induction false} ConfiguredMeaning(registered: seq<Plugin>, toggles: map<string, bool>)
    requires NoDup(Names(registered))
    ensures forall n :: n in Configured(registered, toggles) ==> n in Names(registered)
    ensures forall n :: n in Configured(registered, toggles) ==> Configured(registered, toggles)[n].name == n
    ensures forall p :: p in registered ==>
              (p.name in Configured(registered, toggles) <==> IsEnabled(toggles, p.name) && p.configuration.Accepted?)
    ensures forall p :: p in registered && p.name in Configured(registered, toggles) ==>
              Configured(registered, toggles)[p.name] == p
  {
    if registered != [] {
      var front, last := registered[..|registered| - 1], registered[|registered| - 1];
      assert Names(front) == Names(registered)[..|front|];
      ConfiguredMeaning(front, toggles);
      assert registered == front + [last];
      assert Names(registered) == Names(front) + [last.name];
      assert last.name !in Names(front);
      Registries.NamesMembers(front);
    }
  }

  predicate Blocks(p: Plugin, toggles: map<string, bool>) {
    IsEnabled(toggles, p.name) && p.configuration.Broken?
  }

  ghost predicate NoneBroken(registered: seq<Plugin>, toggles: map<string, bool>) {
    forall i :: 0 <= i < |registered| ==> !Blocks(registered[i], toggles)
  }

  ghost predicate FirstBroken(registered: seq<Plugin>, toggles: map<string, bool>, i: int) {
    && 0 <= i < |registered| && Blocks(registered[i], toggles)
    && forall k :: 0 <= k < i ==> !Blocks(registered[k], toggles)
  }

  /** The plugins of an order, looked up by name. */
  ghost predicate Assembled(configured: map<string, Plugin>, plugins: seq<Plugin>) {
    forall i :: 0 <= i < |plugins| ==> plugins[i].name in configured && plugins[i] == configured[plugins[i].name]
  }

  /** Which result a build may return. The cases exclude one another. */
  ghost predicate BuildOutcome(registered: seq<Plugin>, toggles: map<string, bool>, r: Result<seq<Plugin>, BuildError>) {
    var configured := Configured(registered, toggles);
    var g := DependencyGraph(configured);
    match r
    case Failure(ConfigureFailed(name)) =>
      exists i :: FirstBroken(registered, toggles, i) && registered[i].name == name
    case Failure(MissingDependency(name, dep)) =>
      && NoneBroken(registered, toggles)
      && name in configured && dep in configured[name].depends && dep !in configured
    case Failure(DependencyCycle(names)) =>
      && NoneBroken(registered, toggles) && HardDepsPresent(configured) && !Acyclic(g)
      && NoDup(names) && SortedBy(names, StrLess) && forall n :: n in names <==> DependsOnCycle(g, n)
    case Success(plugins) =>
      && NoneBroken(registered, toggles) && HardDepsPresent(configured) && Acyclic(g)
      && Greedy(g, Rank(registered), Names(plugins))
      && Elems(Names(plugins)) == configured.Keys && Assembled(configured, plugins)
  }

  method EnabledNames(registered: seq<Plugin>, toggles: map<string, bool>) returns (enabled: set<string>)
    ensures forall p :: p in registered ==> (p.name in enabled <==> IsEnabled(toggles, p.name))
  {
    enabled := {};
    var i := 0;
    while i < |registered|
      invariant 0 <= i <= |registered|
      invariant forall n :: n in enabled ==> IsEnabled(toggles, n)
      invariant forall k :: 0 <= k < i && IsEnabled(toggles, registered[k].name) ==> registered[k].name in enabled
    {
      if IsEnabled(toggles, registered[i].name) {
        enabled := enabled + {registered[i].name};
      }
      i := i + 1;
    }
  }

  /** Configures the enabled plugins in registration order, stopping at the first that fails. */
  method ConfigureAll(registered: seq<Plugin>, toggles: map<string, bool>)
    returns (configured: map<string, Plugin>, failed: Option<string>)
    ensures failed.None? ==> NoneBroken(registered, toggles) && configured == Configured(registered, toggles)
    ensures failed.Some? ==> exists i :: FirstBroken(registered, toggles, i) && registered[i].name == failed.value
  {
    var enabled := EnabledNames(registered, toggles);
    configured, failed := map[], None;
    var i := 0;
    while i < |registered|
      invariant 0 <= i <= |registered|
      invariant forall k :: 0 <= k < i ==> !Blocks(registered[k], toggles)
      invariant configured == Configured(registered[..i], toggles)
    {
      var p := registered[i];
      assert registered[..i + 1][..i] == registered[..i];
      if p.name in enabled {
        match p.configuration
        case Broken =>
          assert FirstBroken(registered, toggles, i);
          failed := Some(p.name);
          return;
        case OptedOut =>
        case Accepted =>
          configured := configured[p.name := p];
      }
      i := i + 1;
    }
    assert registered[..i] == registered;
  }

  /** Looks for a hard dependency that is not part of the build, in any map iteration order. */
  method FindMissing(configured: map<string, Plugin>) returns (missing: Option<(string, string)>)
    ensures missing.None? ==> HardDepsPresent(configured)
    ensures missing.Some? ==> var (name, dep) := missing.value;
              name in configured && dep in configured[name].depends && dep !in configured
  {
    var todo := configured.Keys;
    while todo != {}
      invariant todo <= configured.Keys
      invariant forall n, d :: n in configured && n !in todo && d in configured[n].depends ==> d in configured
    {
      var name :| name in todo;                       // any map iteration order
      var deps := configured[name].depends;
      var i := 0;
      while i < |deps|
        invariant 0 <= i <= |deps| && forall k :: 0 <= k < i ==> deps[k] in configured
      {
        if deps[i] !in configured {
          return Some((name, deps[i]));
        }
        i := i + 1;
      }
      todo := todo - {name};
    }
    missing := None;
  }

  method Assemble(configured: map<string, Plugin>, order: seq<string>) returns (plugins: seq<Plugin>)
    requires forall n :: n in configured ==> configured[n].name == n
    requires Elems(order) == configured.Keys
    ensures Names(plugins) == order && Assembled(configured, plugins)
  {
    plugins := [];
    var i := 0;
    while i < |order|
      invariant 0 <= i <= |order| && |plugins| == i
      invariant forall k :: 0 <= k < i ==> order[k] in configured && plugins[k] == configured[order[k]]
    {
      assert order[i] in Elems(order);
      plugins := plugins + [configured[order[i]]];
      i := i + 1;
    }
  }

  method Build(registered: seq<Plugin>, toggles: map<string, bool>) returns (r: Result<seq<Plugin>, BuildError>)
    requires NoDup(Names(registered))
    ensures BuildOutcome(registered, toggles, r)
  {
    var configured, failed := ConfigureAll(registered, toggles);
    if failed.Some? {
      return Failure(ConfigureFailed(failed.value));
    }
    ConfiguredMeaning(registered, toggles);
    var missing := FindMissing(configured);
    if missing.Some? {
      return Failure(MissingDependency(missing.value.0, missing.value.1));
    }
    var sorted := Sort(configured, registered);
    match sorted
    case Failure(names) =>
      r := Failure(DependencyCycle(names));
    case Success(order) =>
      var plugins := Assemble(configured, order);
      r := Success(plugins);
  }

  // --- What a build returns, told by the plugins and toggles alone ---

  /** Configure is fatal exactly if a plugin that is not switched off fails it; the first such is named. */
  lemma ConfigureFailedExact(registered: seq<Plugin>, toggles: map<string, bool>, r: Result<seq<Plugin>, BuildError>)
    requires BuildOutcome(registered, toggles, r)
    ensures (r.Failure? && r.error.ConfigureFailed?) <==>
            exists p :: p in registered && (p.name in toggles ==> toggles[p.name]) && p.configuration == Broken
    ensures r.Failure? && r.error.ConfigureFailed? ==>
            exists i: nat :: i < |registered| && registered[i].name == r.error.name && registered[i].configuration == Broken
              && forall k :: 0 <= k < i && registered[k].configuration == Broken ==>
                   registered[k].name in toggles && !toggles[registered[k].name]
  {
    if p :| p in registered && (p.name in toggles ==> toggles[p.name]) && p.configuration == Broken {
      var i :| 0 <= i < |registered| && registered[i] == p;
      assert Blocks(registered[i], toggles);
    }
    if r.Failure? && r.error.ConfigureFailed? {
      var i :| FirstBroken(registered, toggles, i) && registered[i].name == r.error.name;
      assert Blocks(registered[i], toggles) && registered[i] in registered;
    }
  }

  /** A plugin is configured exactly if it is not switched off and accepts; then under its own name. */
  lemma TakesPart(registered: seq<Plugin>, toggles: map<string, bool>, p: Plugin)
    requires NoDup(Names(registered)) && p in registered
    ensures p.name in Configured(registered, toggles) <==>
            (p.name in toggles ==> toggles[p.name]) && p.configuration == Accepted
    ensures p.name in Configured(registered, toggles) ==> Configured(registered, toggles)[p.name] == p
  {
    ConfiguredMeaning(registered, toggles);
  }

  /** A built application holds exactly the registered plugins that are not switched off and accept, each once. */
  lemma BuiltPlugins(registered: seq<Plugin>, toggles: map<string, bool>, plugins: seq<Plugin>, p: Plugin)
    requires NoDup(Names(registered)) && BuildOutcome(registered, toggles, Success(plugins)) && p in registered
    ensures p in plugins <==> (p.name in toggles ==> toggles[p.name]) && p.configuration == Accepted
    ensures NoDup(Names(plugins))
  {
    TakesPart(registered, toggles, p);
    GreedyIsOrdered(DependencyGraph(Configured(registered, toggles)), Rank(registered), Names(plugins));
    if p.name in Configured(registered, toggles) {
      assert p.name in Elems(Names(plugins));
      var i :| 0 <= i < |plugins| && Names(plugins)[i] == p.name;
      assert plugins[i] == p;
    }
  }

  /** `d` is one of the plugins before position `i`. */
  ghost predicate Before(plugins: seq<Plugin>, i: nat, d: string) {
    exists j :: 0 <= j < i && j < |plugins| && plugins[j].name == d
  }

  /** `d` is a dependency of `p` that counts: a hard one, or a soft one that takes part. */
  predicate Needs(plugins: seq<Plugin>, p: Plugin, d: string) {
    d in p.depends || (d in p.softDepends && exists q :: q in plugins && q.name == d)
  }

  lemma NeedsMeaning(registered: seq<Plugin>, toggles: map<string, bool>, plugins: seq<Plugin>, i: nat, d: string)
    requires BuildOutcome(registered, toggles, Success(plugins)) && i < |plugins|
    ensures var g := DependencyGraph(Configured(registered, toggles));
            plugins[i].name in g && (d in g[plugins[i].name] <==> Needs(plugins, plugins[i], d))
  {
    Registries.NamesMembers(plugins);
    var configured := Configured(registered, toggles);
    assert d in configured <==> d in Elems(Names(plugins));
  }

  lemma PlacedBefore(plugins: seq<Plugin>, i: nat, d: string)
    requires i <= |plugins|
    ensures d in Elems(Names(plugins)[..i]) <==> Before(plugins, i, d)
  {
    if d in Elems(Names(plugins)[..i]) {
      var j :| 0 <= j < i && Names(plugins)[..i][j] == d;
      assert plugins[j].name == d;
    }
    if Before(plugins, i, d) {
      var j :| 0 <= j < i && j < |plugins| && plugins[j].name == d;
      assert Names(plugins)[..i][j] == d;
    }
  }

  /** In a built application every dependency that counts stands before the plugin that has it. */
  lemma BuiltInOrder(registered: seq<Plugin>, toggles: map<string, bool>, plugins: seq<Plugin>, i: nat, d: string)
    requires BuildOutcome(registered, toggles, Success(plugins)) && i < |plugins| && Needs(plugins, plugins[i], d)
    ensures Before(plugins, i, d)
  {
    var g := DependencyGraph(Configured(registered, toggles));
    NeedsMeaning(registered, toggles, plugins, i, d);
    GreedyIsOrdered(g, Rank(registered), Names(plugins));
    assert g[Names(plugins)[i]] <= Elems(Names(plugins)[..i]);
    PlacedBefore(plugins, i, d);
  }

  /** And ties go by registration: a plugin placed before one that could have stood there was registered earlier. */
  lemma BuiltTies(registered: seq<Plugin>, toggles: map<string, bool>, plugins: seq<Plugin>, i: nat, j: nat, x: nat, y: nat)
    requires NoDup(Names(registered)) && BuildOutcome(registered, toggles, Success(plugins)) && i < j < |plugins|
    requires x < |registered| && y < |registered| && registered[x] == plugins[i] && registered[y] == plugins[j]
    requires forall d :: Needs(plugins, plugins[j], d) ==> Before(plugins, i, d)
    ensures x < y
  {
    var g := DependencyGraph(Configured(registered, toggles));
    NeedsMeaning(registered, toggles, plugins, j, "");
    forall d | d in g[plugins[j].name] ensures d in Elems(Names(plugins)[..i]) {
      NeedsMeaning(registered, toggles, plugins, j, d);
      PlacedBefore(plugins, i, d);
    }
    TiesByRegistration(g, registered, Names(plugins), i, j, x, y);
  }

  /** A missing dependency is reported exactly if nothing is broken and a plugin needs one that does not take part. */
  lemma MissingExact(registered: seq<Plugin>, toggles: map<string, bool>, r: Result<seq<Plugin>, BuildError>)
    requires NoDup(Names(registered)) && BuildOutcome(registered, toggles, r)
    requires !(r.Failure? && r.error.ConfigureFailed?)
    ensures r.Failure? && r.error.MissingDependency? <==> exists p, d :: Lacks(registered, toggles, p, d)
    ensures r.Failure? && r.error.MissingDependency? ==>
            exists p: Plugin :: p.name == r.error.name && Lacks(registered, toggles, p, r.error.dep)
  {
    if p, d :| Lacks(registered, toggles, p, d) {
      TakesPart(registered, toggles, p);
      NotConfigured(registered, toggles, d);
      assert !HardDepsPresent(Configured(registered, toggles));
    }
    if r.Failure? && r.error.MissingDependency? {
      var p := Configured(registered, toggles)[r.error.name];
      FromRegistered(registered, toggles, r.error.name);
      TakesPart(registered, toggles, p);
      NotConfigured(registered, toggles, r.error.dep);
      assert Lacks(registered, toggles, p, r.error.dep);
    }
  }

  ghost predicate Joins(registered: seq<Plugin>, toggles: map<string, bool>, p: Plugin) {
    p in registered && (p.name in toggles ==> toggles[p.name]) && p.configuration == Accepted
  }

  /** `p` takes part and has `d` as a hard dependency, but no plugin named `d` takes part. */
  ghost predicate Lacks(registered: seq<Plugin>, toggles: map<string, bool>, p: Plugin, d: string) {
    Joins(registered, toggles, p) && d in p.depends && forall q :: Joins(registered, toggles, q) ==> q.name != d
  }

  lemma FromRegistered(registered: seq<Plugin>, toggles: map<string, bool>, n: string)
    requires NoDup(Names(registered)) && n in Configured(registered, toggles)
    ensures Configured(registered, toggles)[n] in registered && Configured(registered, toggles)[n].name == n
  {
    ConfiguredMeaning(registered, toggles);
    Registries.NamesMembers(registered);
    var p :| p in registered && p.name == n;
  }

  lemma NotConfigured(registered: seq<Plugin>, toggles: map<string, bool>, d: string)
    requires NoDup(Names(registered))
    ensures d !in Configured(registered, toggles) <==> forall q :: Joins(registered, toggles, q) ==> q.name != d
  {
    if d in Configured(registered, toggles) {
      FromRegistered(registered, toggles, d);
      var q := Configured(registered, toggles)[d];
      TakesPart(registered, toggles, q);
      assert Joins(registered, toggles, q);
    }
    forall q | Joins(registered, toggles, q) ensures q.name in Configured(registered, toggles) {
      TakesPart(registered, toggles, q);
    }
  }

  /**
   * Whatever order maps are iterated in, two builds of the same input agree, except that with several
   * missing dependencies they may name different ones.
   */
  lemma BuildDeterministic(registered: seq<Plugin>, toggles: map<string, bool>,
                           a: Result<seq<Plugin>, BuildError>, b: Result<seq<Plugin>, BuildError>)
    requires NoDup(Names(registered))
    requires BuildOutcome(registered, toggles, a) && BuildOutcome(registered, toggles, b)
    ensures a == b || (a.Failure? && b.Failure? && a.error.MissingDependency? && b.error.MissingDependency?)
  {
    var configured := Configured(registered, toggles);
    var g := DependencyGraph(configured);
    ConfiguredMeaning(registered, toggles);
    if a.Success? && b.Success? {
      RankInjective(registered);
      GreedyUnique(g, Rank(registered), Names(a.value), Names(b.value));
      SameAssembly(configured, a.value, b.value);
    } else if a.Failure? && b.Failure? && a.error.DependencyCycle? && b.error.DependencyCycle? {
      SortedSetUnique(a.error.names, b.error.names);
    }
  }

  lemma SameAssembly(configured: map<string, Plugin>, a: seq<Plugin>, b: seq<Plugin>)
    requires Names(a) == Names(b) && Assembled(configured, a) && Assembled(configured, b)
    ensures a == b
  {
    forall i | 0 <= i < |a| ensures a[i] == b[i] {
      assert Names(a)[i] == a[i].name && Names(b)[i] == b[i].name;
    }
  }

  /** Two alphabetical lists of the same names are the same list. */
  lemma {:induction false} SortedSetUnique(a: seq<string>, b: seq<string>)
    requires NoDup(a) && NoDup(b) && SortedBy(a, StrLess) && SortedBy(b, StrLess)
    requires forall n :: n in a <==> n in b
    ensures a == b
  {
    BothEmpty(a, b);
    if a != [] {
      assert a[0] in a && a[0] in b;
      var i :| 0 <= i < |b| && b[i] == a[0];
      assert b[0] in b && b[0] in a;
      var j :| 0 <= j < |a| && a[j] == b[0];
      if i > 0 && j > 0 {
        StrLessTotal(a[0], b[0]);
      }
      assert a[0] == b[0];
      forall n ensures n in a[1..] <==> n in b[1..] {
        assert n in a <==> n == a[0] || n in a[1..];
        assert n in b <==> n == b[0] || n in b[1..];
      }
      SortedSetUnique(a[1..], b[1..]);
    }
  }

  lemma BothEmpty(a: seq<string>, b: seq<string>)
    requires forall n :: n in a <==> n in b
    ensures a == [] <==> b == []
  {
    if a != [] {
      assert a[0] in a;
    }
    if b != [] {
      assert b[0] in b;
    }
  }

  /** One plugin that depends on itself, and another that only uses it. */
  function LoopAndUser(loop: string, user: string): map<string, Plugin> {
    map[loop := Plugin(loop, [loop], [], Accepted), user := Plugin(user, [loop], [], Accepted)]
  }

  /** A plugin that only depends on a cycle is reported too, although it is not on one. */
  lemma ReportExceedsCycle(loop: string, user: string)
    requires loop != user
    ensures HardDepsPresent(LoopAndUser(loop, user))
    ensures var g := DependencyGraph(LoopAndUser(loop, user)); DependsOnCycle(g, user) && !OnCycle(g, user)
  {
    var g := DependencyGraph(LoopAndUser(loop, user));
    assert g.Keys == {loop, user} && g[loop] == {loop} && g[user] == {loop};
    assert Edge(g, [loop, loop], 0);
    assert IsCycle(g, [loop, loop], loop);
    assert Edge(g, [user, loop], 0);
    assert LeadsToCycle(g, [user, loop], user);
    forall c | IsPath(g, c) && |c| >= 2 ensures c[|c| - 1] == loop {
      assert Edge(g, c, |c| - 2);
    }
  }
}
