/** Starting and stopping a built application. */
module Apps {
  import opened Common
  import opened Seqs
  import opened Graphs
  import opened Plugins
  import opened TopoSort
  import Loader

  /** A call into a plugin, with what it returned. */
  datatype Event = Started(name: string) | StartFailed(name: string) | Stopped(name: string, ok: bool)

  /** The application's record of started plugins, and the calls made so far. */
  datatype State = State(started: seq<string>, trace: seq<Event>)

  /** A stop ends a plugin even if it reports an error. */
  function After(live: set<string>, e: Event): set<string> {
    if e.Started? then live + {e.name} else if e.Stopped? then live - {e.name} else live
  }

  /** The plugins running after a trace. */
  function Live(trace: seq<Event>): set<string> {
    if trace == [] then {} else After(Live(trace[..|trace| - 1]), trace[|trace| - 1])
  }

  /**
   * A plugin is started only when it is not running and its dependencies are, and stopped only when it is
   * running and no dependent is.
   */
  ghost predicate SafeEvent(g: Graph, live: set<string>, e: Event) {
    if e.Stopped? then e.name in live && forall m :: m in live && m in g ==> e.name !in g[m]
    else e.name in g && e.name !in live && g[e.name] <= live
  }

  ghost predicate Safe(g: Graph, trace: seq<Event>) {
    forall i :: 0 <= i < |trace| ==> SafeEvent(g, Live(trace[..i]), trace[i])
  }

  lemma LiveAppend(trace: seq<Event>, e: Event)
    ensures Live(trace + [e]) == After(Live(trace), e)
  {
    assert (trace + [e])[..|trace + [e]| - 1] == trace;
  }

  lemma SafeAppend(g: Graph, trace: seq<Event>, e: Event)
    ensures Safe(g, trace + [e]) <==> Safe(g, trace) && SafeEvent(g, Live(trace), e)
  {
    var longer := trace + [e];
    assert longer[..|trace|] == trace && longer[|trace|] == e;
    if Safe(g, longer) {
      forall i | 0 <= i < |trace| ensures SafeEvent(g, Live(trace[..i]), trace[i]) {
        assert longer[..i] == trace[..i] && longer[i] == trace[i];
        assert SafeEvent(g, Live(longer[..i]), longer[i]);
      }
      assert SafeEvent(g, Live(longer[..|trace|]), longer[|trace|]);
    }
    if Safe(g, trace) && SafeEvent(g, Live(trace), e) {
      forall i | 0 <= i < |longer| ensures SafeEvent(g, Live(longer[..i]), longer[i]) {
        if i < |trace| {
          assert longer[..i] == trace[..i] && longer[i] == trace[i];
        }
      }
    }
  }

  lemma {:induction false} SafePrefix(g: Graph, trace: seq<Event>, k: nat)
    requires k <= |trace| && Safe(g, trace)
    ensures Safe(g, trace[..k])
  {
    forall i | 0 <= i < k ensures SafeEvent(g, Live(trace[..k][..i]), trace[..k][i]) {
      assert trace[..k][..i] == trace[..i];
    }
  }

  // --- What Start and Stop do, as functions of the outcomes plugins return ---

  /** Stops the started plugins from the last back to the first, ignoring unknown names. */
  function StopFrom(names: seq<string>, started: seq<string>, trace: seq<Event>, stopOk: string -> bool): seq<Event> {
    if started == [] then trace
    else
      var n := started[|started| - 1];
      var trace' := if n in names then trace + [Stopped(n, stopOk(n))] else trace;
      StopFrom(names, started[..|started| - 1], trace', stopOk)
  }

  function Rollback(names: seq<string>, s: State, stopOk: string -> bool): State {
    State([], StopFrom(names, s.started, s.trace, stopOk))
  }

  function StartFrom(names: seq<string>, i: nat, s: State, startOk: string -> bool, stopOk: string -> bool): (State,
                     bool)
    requires i <= |names|
    decreases |names| - i
  {
    if i == |names| then (s, true)
    else if startOk(names[i]) then
      StartFrom(names, i + 1, State(s.started + [names[i]], s.trace + [Started(names[i])]), startOk, stopOk)
    else
      (Rollback(names, State(s.started, s.trace + [StartFailed(names[i])]), stopOk), false)
  }

  /** The plugins whose stop fails, in the order they are stopped. */
  function StopErrors(names: seq<string>, started: seq<string>, stopOk: string -> bool): seq<string> {
    if started == [] then []
    else
      var n := started[|started| - 1];
      (if n in names && !stopOk(n) then [n] else []) + StopErrors(names, started[..|started| - 1], stopOk)
  }

  class App {
    const plugins: seq<Plugin>
    var started: seq<string>
    ghost var trace: seq<Event>

    ghost function Contents(): State
      reads this
    {
      State(started, trace)
    }

    constructor (plugins: seq<Plugin>)
      ensures this.plugins == plugins && Contents() == State([], [])
    {
      this.plugins := plugins;
      started, trace := [], [];
    }

    method FindPlugin(name: string) returns (found: bool)
      ensures found <==> name in Names(plugins)
    {
      var i := 0;
      while i < |plugins|
        invariant 0 <= i <= |plugins| && name !in Names(plugins)[..i]
      {
        if plugins[i].name == name {
          assert Names(plugins)[i] == name;
          return true;
        }
        i := i + 1;
      }
      assert Names(plugins)[..i] == Names(plugins);
      found := false;
    }

    /** `startOk` and `stopOk` stand for what the plugins return during this call. */
    method Start(startOk: string -> bool, stopOk: string -> bool) returns (ok: bool)
      modifies this
      ensures (Contents(), ok) == StartFrom(Names(plugins), 0, old(Contents()), startOk, stopOk)
    {
      var i := 0;
      while i < |plugins|
        invariant 0 <= i <= |plugins|
        invariant StartFrom(Names(plugins), 0, old(Contents()), startOk, stopOk)
               == StartFrom(Names(plugins), i, Contents(), startOk, stopOk)
      {
        var name := plugins[i].name;
        if !startOk(name) {
          trace := trace + [StartFailed(name)];
          var _ := RollbackLocked(stopOk);
          return false;
        }
        trace := trace + [Started(name)];
        started := started + [name];
        i := i + 1;
      }
      ok := true;
    }

    method Stop(stopOk: string -> bool) returns (errs: seq<string>)
      modifies this
      ensures errs == StopErrors(Names(plugins), old(started), stopOk)
      ensures Contents() == Rollback(Names(plugins), old(Contents()), stopOk)
    {
      errs := RollbackLocked(stopOk);
    }

    /** Stops everything in reverse; errors are collected, never acted on. */
    method RollbackLocked(stopOk: string -> bool) returns (errs: seq<string>)
      modifies this
      ensures errs == StopErrors(Names(plugins), old(started), stopOk)
      ensures Contents() == Rollback(Names(plugins), old(Contents()), stopOk)
    {
      errs := [];
      ghost var names, all := Names(plugins), started;
      var i := |started| - 1;
      assert all[..i + 1] == all;
      while i >= 0
        invariant -1 <= i < |all| && started == all
        invariant StopFrom(names, all[..i + 1], trace, stopOk) == StopFrom(names, all, old(trace), stopOk)
        invariant errs + StopErrors(names, all[..i + 1], stopOk) == StopErrors(names, all, stopOk)
      {
        var name := started[i];
        StopOne(names, all, i, trace, errs, stopOk);
        var found := FindPlugin(name);
        if found {
          if !stopOk(name) {
            errs := errs + [name];
          }
          trace := trace + [Stopped(name, stopOk(name))];
        }
        i := i - 1;
      }
      started := [];
    }
  }

  /** Stopping the plugin at position `i`, seen from both ends of the loop. */
  lemma StopOne(names: seq<string>, started: seq<string>, i: nat, trace: seq<Event>, errs: seq<string>,
                stopOk: string -> bool)
    requires i < |started|
    ensures StopFrom(names, started[..i + 1], trace, stopOk) ==
            var n := started[i];
            StopFrom(names, started[..i], if n in names then trace + [Stopped(n, stopOk(n))] else trace, stopOk)
    ensures errs + StopErrors(names, started[..i + 1], stopOk) ==
            var n := started[i];
            (if n in names && !stopOk(n) then errs + [n] else errs) + StopErrors(names, started[..i], stopOk)
  {
    assert started[..i + 1][..i] == started[..i];
  }

  // --- Safety of whole runs ---

  datatype Call = CallStart(startOk: string -> bool, stopOk: string -> bool) | CallStop(stopOk: string -> bool)

  function Apply(names: seq<string>, s: State, c: Call): State {
    match c
    case CallStart(startOk, stopOk) => StartFrom(names, 0, s, startOk, stopOk).0
    case CallStop(stopOk) => Rollback(names, s, stopOk)
  }

  function Run(names: seq<string>, s: State, calls: seq<Call>): State
    decreases |calls|
  {
    if calls == [] then s else Run(names, Apply(names, s, calls[0]), calls[1..])
  }

  /** Every Start in the run is issued while nothing is started. */
  predicate Alternating(names: seq<string>, s: State, calls: seq<Call>)
    decreases |calls|
  {
    calls == [] ||
    ((calls[0].CallStart? ==> s.started == []) && Alternating(names, Apply(names, s, calls[0]), calls[1..]))
  }

  /** The started plugins are a prefix of the order, and they are exactly the ones running. */
  ghost predicate InStep(g: Graph, names: seq<string>, s: State) {
    && DependenciesFirst(g, names) && s.started <= names
    && Live(s.trace) == Elems(s.started) && Safe(g, s.trace)
  }

  /** What the order says about the plugin at position `i`. */
  lemma NextInOrder(g: Graph, names: seq<string>, i: nat)
    requires DependenciesFirst(g, names) && i < |names|
    ensures names[i] in g && names[i] !in Elems(names[..i]) && g[names[i]] <= Elems(names[..i])
    ensures Elems(names[..i + 1]) == Elems(names[..i]) + {names[i]}
    ensures names[..i + 1] == names[..i] + [names[i]]
  {
    PrefixGrows(names, i);
    assert names[i] in Elems(names);
  }

  lemma StartEvent(g: Graph, names: seq<string>, s: State, e: Event)
    requires InStep(g, names, s) && |s.started| < |names|
    requires e == Started(names[|s.started|]) || e == StartFailed(names[|s.started|])
    ensures Safe(g, s.trace + [e])
    ensures e.Started? ==> InStep(g, names, State(s.started + [e.name], s.trace + [e]))
    ensures e.StartFailed? ==> InStep(g, names, State(s.started, s.trace + [e]))
  {
    var i := |s.started|;
    assert s.started == names[..i];
    NextInOrder(g, names, i);
    assert SafeEvent(g, Live(s.trace), e);
    SafeAppend(g, s.trace, e);
    LiveAppend(s.trace, e);
  }

  lemma StopEvent(g: Graph, names: seq<string>, s: State, ok: bool)
    requires InStep(g, names, s) && s.started != []
    ensures var n := s.started[|s.started| - 1];
            n in names && InStep(g, names, State(s.started[..|s.started| - 1], s.trace + [Stopped(n, ok)]))
  {
    var i := |s.started| - 1;
    var n := s.started[i];
    assert s.started == names[..i + 1] && n == names[i];
    forall m | m in Elems(s.started) ensures n !in g[m] {
      var j :| 0 <= j <= i && names[j] == m;
      assert g[names[j]] <= Elems(names[..j]);
    }
    SafeAppend(g, s.trace, Stopped(n, ok));
    LiveAppend(s.trace, Stopped(n, ok));
    PrefixGrows(names, i);
    assert s.started[..i] == names[..i];
  }

  lemma {:induction false} RollbackInStep(g: Graph, names: seq<string>, s: State, stopOk: string -> bool)
    requires InStep(g, names, s)
    ensures InStep(g, names, Rollback(names, s, stopOk))
    decreases |s.started|
  {
    if s.started != [] {
      var n := s.started[|s.started| - 1];
      StopEvent(g, names, s, stopOk(n));
      var next := State(s.started[..|s.started| - 1], s.trace + [Stopped(n, stopOk(n))]);
      RollbackInStep(g, names, next, stopOk);
    } else {
      assert Rollback(names, s, stopOk) == s;
    }
  }

  lemma {:induction false} StartInStep(g: Graph, names: seq<string>, i: nat, s: State, startOk: string -> bool,
                                       stopOk: string -> bool)
    requires InStep(g, names, s) && i == |s.started|
    ensures var (s', ok) := StartFrom(names, i, s, startOk, stopOk);
            InStep(g, names, s') && (if ok then s'.started == names else s'.started == [])
    decreases |names| - i
  {
    if i == |names| {
      assert s.started == names;
    } else if startOk(names[i]) {
      StartEvent(g, names, s, Started(names[i]));
      StartInStep(g, names, i + 1, State(s.started + [names[i]], s.trace + [Started(names[i])]), startOk, stopOk);
    } else {
      StartEvent(g, names, s, StartFailed(names[i]));
      RollbackInStep(g, names, State(s.started, s.trace + [StartFailed(names[i])]), stopOk);
    }
  }

  // --- What the calls report, told by what the plugins return ---

  /** The plugin at position `i` is the first whose Start fails. */
  predicate FirstFailure(names: seq<string>, startOk: string -> bool, i: nat) {
    i < |names| && !startOk(names[i]) && forall k :: 0 <= k < i ==> startOk(names[k])
  }

  function Starts(names: seq<string>): (r: seq<Event>)
    ensures |r| == |names| && forall k :: 0 <= k < |r| ==> r[k] == Started(names[k])
  {
    seq(|names|, k requires 0 <= k < |names| => Started(names[k]))
  }

  lemma {:induction false} StartFromExact(names: seq<string>, i: nat, s: State, startOk: string -> bool, stopOk: string -> bool)
    requires i <= |names|
    ensures var (s', ok) := StartFrom(names, i, s, startOk, stopOk);
            ok <==> forall k :: i <= k < |names| ==> startOk(names[k])
    ensures var (s', ok) := StartFrom(names, i, s, startOk, stopOk);
            ok ==> s' == State(s.started + names[i..], s.trace + Starts(names[i..]))
    ensures forall f :: i <= f < |names| && !startOk(names[f]) && (forall k :: i <= k < f ==> startOk(names[k])) ==>
              StartFrom(names, i, s, startOk, stopOk).0 ==
              Rollback(names, State(s.started + names[i..f], s.trace + Starts(names[i..f]) + [StartFailed(names[f])]), stopOk)
    decreases |names| - i
  {
    if i == |names| {
      assert s.started + names[i..] == s.started && s.trace + Starts(names[i..]) == s.trace;
    } else if startOk(names[i]) {
      StartFromExact(names, i + 1, State(s.started + [names[i]], s.trace + [Started(names[i])]), startOk, stopOk);
      OneMoreStart(s, names, i, |names|);
      forall f | i < f < |names|
        ensures s.started + [names[i]] + names[i + 1..f] == s.started + names[i..f]
        ensures s.trace + [Started(names[i])] + Starts(names[i + 1..f]) == s.trace + Starts(names[i..f])
      {
        OneMoreStart(s, names, i, f);
      }
    } else {
      assert s.started + names[i..i] == s.started && s.trace + Starts(names[i..i]) == s.trace;
    }
  }

  lemma OneMoreStart(s: State, names: seq<string>, i: nat, f: nat)
    requires i < f <= |names|
    ensures s.started + [names[i]] + names[i + 1..f] == s.started + names[i..f]
    ensures s.trace + [Started(names[i])] + Starts(names[i + 1..f]) == s.trace + Starts(names[i..f])
  {
    assert names[i..f] == [names[i]] + names[i + 1..f];
  }

  lemma StartFailure(names: seq<string>, trace: seq<Event>, startOk: string -> bool, stopOk: string -> bool, i: nat)
    requires FirstFailure(names, startOk, i)
    ensures StartFrom(names, 0, State([], trace), startOk, stopOk).0 ==
            State([], trace + Starts(names[..i]) + [StartFailed(names[i])] + ReverseStops(names[..i], stopOk))
  {
    StartFromExact(names, 0, State([], trace), startOk, stopOk);
    assert names[0..i] == names[..i] && [] + names[..i] == names[..i];
    RollbackReverses(names, State(names[..i], trace + Starts(names[..i]) + [StartFailed(names[i])]), stopOk);
  }

  /**
   * Start of an application with nothing started succeeds exactly if every plugin's Start does, and has
   * then started all of them in order. Otherwise it has started those before the first failure, and
   * stops exactly them, the last first.
   */
  lemma StartExact(names: seq<string>, trace: seq<Event>, startOk: string -> bool, stopOk: string -> bool)
    ensures var (s, ok) := StartFrom(names, 0, State([], trace), startOk, stopOk);
            && (ok <==> forall k :: 0 <= k < |names| ==> startOk(names[k]))
            && (ok ==> s == State(names, trace + Starts(names)))
            && (!ok ==> exists i: nat :: FirstFailure(names, startOk, i)
                          && s == State([], trace + Starts(names[..i]) + [StartFailed(names[i])] + ReverseStops(names[..i], stopOk)))
  {
    StartFromExact(names, 0, State([], trace), startOk, stopOk);
    assert names[0..] == names && [] + names == names;
    if !StartFrom(names, 0, State([], trace), startOk, stopOk).1 {
      var i := FindFailure(names, startOk, 0);
      StartFailure(names, trace, startOk, stopOk, i);
    }
  }

  lemma FindFailure(names: seq<string>, startOk: string -> bool, from: nat) returns (i: nat)
    requires from <= |names| && (forall k :: 0 <= k < from ==> startOk(names[k]))
    requires exists k :: 0 <= k < |names| && !startOk(names[k])
    ensures FirstFailure(names, startOk, i)
    decreases |names| - from
  {
    if startOk(names[from]) {
      i := FindFailure(names, startOk, from + 1);
    } else {
      i := from;
    }
  }

  /** The plugins whose stop is recorded as failed, in order. */
  function FailedStops(trace: seq<Event>): seq<string> {
    if trace == [] then []
    else
      (if trace[0].Stopped? && !trace[0].ok then [trace[0].name] else []) + FailedStops(trace[1..])
  }

  /** A stop reports exactly the plugins whose Stop failed, in the order they were stopped, and leaves nothing started. */
  lemma {:induction false} StopExact(names: seq<string>, s: State, stopOk: string -> bool)
    requires forall n :: n in s.started ==> n in names
    ensures StopErrors(names, s.started, stopOk) == FailedStops(ReverseStops(s.started, stopOk))
    ensures Rollback(names, s, stopOk) == State([], s.trace + ReverseStops(s.started, stopOk))
    decreases |s.started|
  {
    RollbackReverses(names, s, stopOk);
    if s.started != [] {
      var front, n := s.started[..|s.started| - 1], s.started[|s.started| - 1];
      StopExact(names, State(front, s.trace), stopOk);
      var stops := ReverseStops(s.started, stopOk);
      assert stops[0] == Stopped(n, stopOk(n)) && stops[1..] == ReverseStops(front, stopOk);
    }
  }

  lemma {:induction false} StopFromExtends(names: seq<string>, started: seq<string>, trace: seq<Event>,
                                           stopOk: string -> bool)
    ensures trace <= StopFrom(names, started, trace, stopOk)
  {
    if started != [] {
      var n := started[|started| - 1];
      var trace' := if n in names then trace + [Stopped(n, stopOk(n))] else trace;
      StopFromExtends(names, started[..|started| - 1], trace', stopOk);
    }
  }

  lemma {:induction false} StartFromExtends(names: seq<string>, i: nat, s: State, startOk: string -> bool,
                                            stopOk: string -> bool)
    requires i <= |names|
    ensures s.trace <= StartFrom(names, i, s, startOk, stopOk).0.trace
    decreases |names| - i
  {
    if i < |names| {
      if startOk(names[i]) {
        StartFromExtends(names, i + 1, State(s.started + [names[i]], s.trace + [Started(names[i])]), startOk, stopOk);
      } else {
        StopFromExtends(names, s.started, s.trace + [StartFailed(names[i])], stopOk);
      }
    }
  }

  lemma {:induction false} RunExtends(names: seq<string>, s: State, calls: seq<Call>)
    ensures s.trace <= Run(names, s, calls).trace
    decreases |calls|
  {
    if calls != [] {
      match calls[0] {
        case CallStart(startOk, stopOk) => StartFromExtends(names, 0, s, startOk, stopOk);
        case CallStop(stopOk) => StopFromExtends(names, s.started, s.trace, stopOk);
      }
      RunExtends(names, Apply(names, s, calls[0]), calls[1..]);
    }
  }

  /** Starting again while something runs is unsafe in one way at least: Start is called on a running plugin. */
  lemma RestartUnsafe(g: Graph, names: seq<string>, s: State, startOk: string -> bool, stopOk: string -> bool,
                      end: seq<Event>)
    requires InStep(g, names, s) && s.started != []
    requires StartFrom(names, 0, s, startOk, stopOk).0.trace <= end
    ensures !Safe(g, end)
  {
    var n := names[0];
    assert s.started[0] == n;
    var e := if startOk(n) then Started(n) else StartFailed(n);
    if startOk(n) {
      StartFromExtends(names, 1, State(s.started + [n], s.trace + [e]), startOk, stopOk);
    } else {
      StopFromExtends(names, s.started, s.trace + [e], stopOk);
    }
    var k := |s.trace| + 1;
    assert end[..k] == s.trace + [e];
    SafeAppend(g, s.trace, e);
    if Safe(g, end) {
      SafePrefix(g, end, k);
    }
  }

  /**
   * A run is safe at every moment, in the sense of `SafeEvent`, exactly when each Start is issued with
   * nothing started; and then what the application records as started is what is running. That the
   * condition is necessary is due to the clause that a running plugin is not started.
   */
  lemma {:induction false} RunSafety(g: Graph, names: seq<string>, s: State, calls: seq<Call>)
    requires InStep(g, names, s)
    ensures Safe(g, Run(names, s, calls).trace) <==> Alternating(names, s, calls)
    ensures Alternating(names, s, calls) ==> InStep(g, names, Run(names, s, calls))
    decreases |calls|
  {
    if calls != [] {
      var next := Apply(names, s, calls[0]);
      if calls[0].CallStart? && s.started != [] {
        RunExtends(names, next, calls[1..]);
        RestartUnsafe(g, names, s, calls[0].startOk, calls[0].stopOk, Run(names, s, calls).trace);
      } else {
        match calls[0] {
          case CallStart(startOk, stopOk) => StartInStep(g, names, 0, s, startOk, stopOk);
          case CallStop(stopOk) => RollbackInStep(g, names, s, stopOk);
        }
        RunSafety(g, names, next, calls[1..]);
      }
    }
  }

  /** From any state a safe run reaches, Stop leaves nothing running. */
  lemma StopEndsAll(g: Graph, names: seq<string>, s: State, stopOk: string -> bool)
    requires InStep(g, names, s)
    ensures Live(Apply(names, s, CallStop(stopOk)).trace) == {}
  {
    RollbackInStep(g, names, s, stopOk);
  }

  /** And Start, with nothing started, leaves everything running if every plugin's Start succeeds, else nothing. */
  lemma StartBringsUpAll(g: Graph, names: seq<string>, s: State, startOk: string -> bool, stopOk: string -> bool)
    requires InStep(g, names, s) && s.started == []
    ensures Live(Apply(names, s, CallStart(startOk, stopOk)).trace) ==
            if forall n :: n in names ==> startOk(n) then Elems(names) else {}
  {
    StartInStep(g, names, 0, s, startOk, stopOk);
    StartFromExact(names, 0, s, startOk, stopOk);
    assert (forall n :: n in names ==> startOk(n)) <==> forall k :: 0 <= k < |names| ==> startOk(names[k]);
  }

  /** One stop for each started plugin, the last started first. */
  function ReverseStops(started: seq<string>, stopOk: string -> bool): seq<Event> {
    seq(|started|, i requires 0 <= i < |started| =>
      var n := started[|started| - 1 - i]; Stopped(n, stopOk(n)))
  }

  /** A rollback stops every started plugin once, in exact reverse order, whatever the stops return. */
  lemma {:induction false} RollbackReverses(names: seq<string>, s: State, stopOk: string -> bool)
    requires forall n :: n in s.started ==> n in names
    ensures Rollback(names, s, stopOk).trace == s.trace + ReverseStops(s.started, stopOk)
    decreases |s.started|
  {
    if s.started != [] {
      var front, n := s.started[..|s.started| - 1], s.started[|s.started| - 1];
      var mid := s.trace + [Stopped(n, stopOk(n))];
      RollbackReverses(names, State(front, mid), stopOk);
      assert ReverseStops(s.started, stopOk) == [Stopped(n, stopOk(n))] + ReverseStops(front, stopOk);
    }
  }

  /** Any application a build returns is safe in every run that alternates Start and Stop. */
  lemma BuiltAppsAreSafe(registered: seq<Plugin>, toggles: map<string, bool>, plugins: seq<Plugin>, calls: seq<Call>)
    requires Loader.BuildOutcome(registered, toggles, Success(plugins))
    requires Alternating(Names(plugins), State([], []), calls)
    ensures var s := Run(Names(plugins), State([], []), calls);
            Safe(DependencyGraph(Loader.Configured(registered, toggles)), s.trace) && Live(s.trace) == Elems(s.started)
  {
    var g := DependencyGraph(Loader.Configured(registered, toggles));
    GreedyIsOrdered(g, Rank(registered), Names(plugins));
    RunSafety(g, Names(plugins), State([], []), calls);
  }
}
