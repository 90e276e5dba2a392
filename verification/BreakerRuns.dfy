/** What holds of the circuit breaker in every run of overlapping requests. */
module BreakerRuns {
  import opened Common
  import opened CircuitBreakers
  import Runs

  // --- Counts as they should be: read off the log of one generation ---

  function Admits(log: seq<Entry>, g: nat): nat {
    if log == [] then 0
    else Admits(log[..|log| - 1], g) + (if log[|log| - 1].Admit? && log[|log| - 1].gen == g then 1 else 0)
  }

  function Outcomes(log: seq<Entry>, g: nat): seq<bool> {
    if log == [] then []
    else
      var last := log[|log| - 1];
      Outcomes(log[..|log| - 1], g) + (if last.Done? && last.gen == g then [last.success] else [])
  }

  function Tally(o: seq<bool>, v: bool): nat {
    if o == [] then 0 else Tally(o[..|o| - 1], v) + (if o[|o| - 1] == v then 1 else 0)
  }

  /** The length of the run of `v` at the end of `o`. */
  function Tail(o: seq<bool>, v: bool): nat {
    if o == [] || o[|o| - 1] != v then 0 else 1 + Tail(o[..|o| - 1], v)
  }

  function CountsOf(log: seq<Entry>, g: nat): Counts {
    var o := Outcomes(log, g);
    Counts(Admits(log, g) % U32, Tally(o, true) % U32, Tally(o, false) % U32, Tail(o, true) % U32, Tail(o, false) % U32)
  }

  /** The requests in flight that were admitted in generation `g`. */
  function Probes(inflight: map<nat, nat>, g: nat): set<nat> {
    set id | id in inflight && inflight[id] == g
  }

  predicate AllTrue(o: seq<bool>) {
    forall i :: 0 <= i < |o| ==> o[i]
  }

  lemma {:induction false} TallySplits(o: seq<bool>)
    ensures Tally(o, true) + Tally(o, false) == |o|
    ensures AllTrue(o) ==> Tail(o, true) == |o|
  {
    if o != [] {
      TallySplits(o[..|o| - 1]);
    }
  }

  // --- The invariant ---

  ghost predicate PastGenerations(s: System) {
    && (forall i :: 0 <= i < |s.log| && !s.log[i].Trip? ==> s.log[i].gen <= s.b.generation)
    && (forall id :: id in s.inflight ==> s.inflight[id] <= s.b.generation)
  }

  ghost predicate Counted(s: System) {
    var g := s.b.generation;
    s.b.counts == CountsOf(s.log, g) && Admits(s.log, g) == |Outcomes(s.log, g)| + |Probes(s.inflight, g)|
  }

  ghost predicate PhaseOk(cfg: Config, s: System) {
    var g := s.b.generation;
    match s.b.phase
    case Closed => s.b.expiry.Some?
    case Open => s.b.expiry.Some? && Admits(s.log, g) == 0
    case HalfOpen => s.b.expiry.None? && AllTrue(Outcomes(s.log, g)) && |Outcomes(s.log, g)| < cfg.maxRequests
                     && Admits(s.log, g) <= cfg.maxRequests
  }

  /** Every trip so far is either still being waited out or over. */
  ghost predicate TripsWaited(cfg: Config, s: System) {
    forall i :: 0 <= i < |s.log| && s.log[i].Trip? ==>
      if s.b.phase.Open? then s.b.expiry.Some? && s.log[i].at + cfg.timeout <= s.b.expiry.value
      else s.log[i].at + cfg.timeout < s.clock
  }

  /** When the breaker last tripped. */
  function LastTrip(log: seq<Entry>): Option<int> {
    if log == [] then None
    else if log[|log| - 1].Trip? then Some(log[|log| - 1].at)
    else LastTrip(log[..|log| - 1])
  }

  /** The expiry is measured from the start of the generation, which for an open breaker is its last trip. */
  ghost predicate Timed(cfg: Config, s: System) {
    match s.b.phase
    case Closed => s.b.expiry == Some(s.since + cfg.interval)
    case Open => s.b.expiry == Some(s.since + cfg.timeout) && LastTrip(s.log) == Some(s.since)
    case HalfOpen => s.b.expiry == None
  }

  lemma LastTripAppend(log: seq<Entry>, e: Entry)
    ensures LastTrip(log + [e]) == if e.Trip? then Some(e.at) else LastTrip(log)
  {
    assert (log + [e])[..|log + [e]| - 1] == log;
  }

  /** No admission follows a trip within the timeout. */
  ghost predicate GapsKept(cfg: Config, log: seq<Entry>) {
    forall i, j :: 0 <= i < j < |log| && log[i].Trip? && log[j].Admit? ==> log[i].at + cfg.timeout < log[j].at
  }

  ghost predicate Inv(cfg: Config, s: System) {
    PastGenerations(s) && Counted(s) && PhaseOk(cfg, s) && Timed(cfg, s) && TripsWaited(cfg, s) && GapsKept(cfg, s.log)
  }

  lemma {:induction false} FutureGeneration(log: seq<Entry>, g: nat)
    requires forall i :: 0 <= i < |log| && !log[i].Trip? ==> log[i].gen < g
    ensures Admits(log, g) == 0 && Outcomes(log, g) == []
  {
    if log != [] {
      FutureGeneration(log[..|log| - 1], g);
    }
  }

  lemma LogAppend(log: seq<Entry>, e: Entry, g: nat)
    ensures Admits(log + [e], g) == Admits(log, g) + (if e.Admit? && e.gen == g then 1 else 0)
    ensures Outcomes(log + [e], g) == if e.Done? && e.gen == g then Outcomes(log, g) + [e.success] else Outcomes(log, g)
  {
    assert (log + [e])[..|log + [e]| - 1] == log;
  }

  lemma OutcomeAppend(o: seq<bool>, v: bool, w: bool)
    ensures Tally(o + [v], w) == Tally(o, w) + (if v == w then 1 else 0)
    ensures Tail(o + [v], w) == if v == w then 1 + Tail(o, w) else 0
  {
    assert (o + [v])[..|o + [v]| - 1] == o;
  }

  lemma IncWraps(n: nat)
    ensures Inc(n % U32) == (n + 1) % U32
  {
  }

  /** Logging an admission or an outcome leaves the timing facts standing. */
  lemma TimingKept(cfg: Config, s: System, e: Entry)
    requires PastGenerations(s) && TripsWaited(cfg, s) && GapsKept(cfg, s.log)
    requires !e.Trip? && e.gen <= s.b.generation && (e.Admit? ==> !s.b.phase.Open? && e.at == s.clock)
    ensures var t := s.(log := s.log + [e]);
            PastGenerations(t) && TripsWaited(cfg, t) && GapsKept(cfg, t.log)
  {
  }

  function Observed(cfg: Config, s: System, now: int): System {
    var b := Observe(cfg, s.b, now);
    s.(b := b, clock := now, since := if b.generation == s.b.generation then s.since else now)
  }

  /** A new generation starts with nothing admitted, nothing finished and nothing in flight. */
  lemma Renewed(cfg: Config, s: System, b: Breaker)
    requires Usable(cfg) && PastGenerations(s) && b.generation == s.b.generation + 1 && b.counts == ZERO
    ensures PastGenerations(s.(b := b)) && Counted(s.(b := b))
    ensures Admits(s.log, b.generation) == 0 && Outcomes(s.log, b.generation) == []
  {
    FutureGeneration(s.log, b.generation);
    assert Probes(s.inflight, b.generation) == {};
  }

  lemma ObserveKeeps(cfg: Config, s: System, now: int)
    requires Usable(cfg) && Inv(cfg, s) && s.clock <= now
    ensures Inv(cfg, Observed(cfg, s, now))
  {
    var o := Observe(cfg, s.b, now);
    if o.generation != s.b.generation {
      Renewed(cfg, s, o);
    }
  }

  lemma AdmitKeeps(cfg: Config, s: System, id: nat)
    requires Usable(cfg) && Inv(cfg, s) && id !in s.inflight
    requires !s.b.phase.Open? && (s.b.phase.HalfOpen? ==> s.b.counts.requests < cfg.maxRequests)
    ensures var b := s.b.(counts := s.b.counts.(requests := Inc(s.b.counts.requests)));
            Inv(cfg, System(b, s.inflight[id := b.generation], s.clock, s.since, s.log + [Admit(b.generation, s.clock)]))
  {
    var g := s.b.generation;
    TimingKept(cfg, s, Admit(g, s.clock));
    AdmitAppend(s.log, g, s.clock);
    if s.b.phase.HalfOpen? {
      SmallAdmits(s.log, g);
    }
    assert Probes(s.inflight[id := g], g) == Probes(s.inflight, g) + {id};
  }

  lemma AdmitAppend(log: seq<Entry>, g: nat, at: int)
    ensures Admits(log + [Admit(g, at)], g) == Admits(log, g) + 1 && Outcomes(log + [Admit(g, at)], g) == Outcomes(log, g)
    ensures CountsOf(log + [Admit(g, at)], g) == CountsOf(log, g).(requests := Inc(CountsOf(log, g).requests))
  {
    LogAppend(log, Admit(g, at), g);
    IncWraps(Admits(log, g));
  }

  lemma SmallAdmits(log: seq<Entry>, g: nat)
    requires Admits(log, g) < U32
    ensures CountsOf(log, g).requests == Admits(log, g)
  {
  }

  /** The log entry of an outcome that belongs to an earlier generation changes no count. */
  lemma StaleDoneKeeps(cfg: Config, s: System, id: nat, success: bool)
    requires Usable(cfg) && Inv(cfg, s) && id in s.inflight && s.inflight[id] != s.b.generation
    ensures Inv(cfg, System(s.b, s.inflight - {id}, s.clock, s.since, s.log + [Done(s.inflight[id], success)]))
  {
    var g := s.b.generation;
    TimingKept(cfg, s, Done(s.inflight[id], success));
    LastTripAppend(s.log, Done(s.inflight[id], success));
    LogAppend(s.log, Done(s.inflight[id], success), g);
    assert Probes(s.inflight - {id}, g) == Probes(s.inflight, g);
  }

  /** The state right after an outcome of the current generation is counted, before any phase change. */
  function CountedDone(s: System, id: nat, success: bool): System
    requires id in s.inflight
  {
    var c := if success then CountSuccess(s.b.counts) else CountFailure(s.b.counts);
    System(s.b.(counts := c), s.inflight - {id}, s.clock, s.since, s.log + [Done(s.inflight[id], success)])
  }

  /** The state with the breaker as the outcome leaves it, perhaps in a new generation. */
  function Settled(d: System, b: Breaker): System {
    d.(b := b, since := if b.generation == d.b.generation then d.since else d.clock)
  }

  lemma CountsAppend(log: seq<Entry>, g: nat, success: bool)
    ensures CountsOf(log + [Done(g, success)], g) ==
            if success then CountSuccess(CountsOf(log, g)) else CountFailure(CountsOf(log, g))
  {
    var o := Outcomes(log, g);
    LogAppend(log, Done(g, success), g);
    OutcomeCount(o, success, success);
    OutcomeCount(o, success, !success);
  }

  lemma OutcomeCount(o: seq<bool>, v: bool, w: bool)
    ensures Tally(o + [v], w) % U32 == if v == w then Inc(Tally(o, w) % U32) else Tally(o, w) % U32
    ensures Tail(o + [v], w) % U32 == if v == w then Inc(Tail(o, w) % U32) else 0
  {
    OutcomeAppend(o, v, w);
    IncWraps(Tally(o, w));
    IncWraps(Tail(o, w));
  }

  lemma DoneCounts(cfg: Config, s: System, id: nat, success: bool)
    requires Usable(cfg) && Inv(cfg, s) && id in s.inflight && s.inflight[id] == s.b.generation
    ensures var d := CountedDone(s, id, success);
            PastGenerations(d) && Counted(d) && GapsKept(cfg, d.log) && TripsWaited(cfg, d)
    ensures var d := CountedDone(s, id, success); var g := s.b.generation;
            Outcomes(d.log, g) == Outcomes(s.log, g) + [success] && Admits(d.log, g) == Admits(s.log, g)
    ensures !s.b.phase.Open?
  {
    var g := s.b.generation;
    TimingKept(cfg, s, Done(g, success));
    LogAppend(s.log, Done(g, success), g);
    CountsAppend(s.log, g, success);
    assert Probes(s.inflight, g) == Probes(s.inflight - {id}, g) + {id};
  }

  lemma SuccessKeeps(cfg: Config, s: System, id: nat)
    requires Usable(cfg) && Inv(cfg, s) && id in s.inflight && s.inflight[id] == s.b.generation
    ensures Inv(cfg, Settled(CountedDone(s, id, true), Succeeded(cfg, s.b, s.clock)))
    ensures s.b.phase.HalfOpen? && Succeeded(cfg, s.b, s.clock).phase.Closed? ==>
              var log, g := CountedDone(s, id, true).log, s.b.generation;
              Admits(log, g) == cfg.maxRequests && |Outcomes(log, g)| == cfg.maxRequests && AllTrue(Outcomes(log, g))
  {
    var d, b := CountedDone(s, id, true), Succeeded(cfg, s.b, s.clock);
    DoneCounts(cfg, s, id, true);
    if s.b.phase.HalfOpen? {
      SmallRun(d.log, s.b.generation);
    }
    if b.phase != s.b.phase {
      ClosingKeeps(cfg, d, b);
    }
  }

  /** The state right after the breaker has closed in a new generation. */
  lemma ClosingKeeps(cfg: Config, d: System, b: Breaker)
    requires Usable(cfg) && PastGenerations(d) && TripsWaited(cfg, d) && GapsKept(cfg, d.log) && d.b.phase.HalfOpen?
    requires b == NewGeneration(cfg, d.b.(phase := Closed), d.clock)
    ensures Inv(cfg, Settled(d, b))
  {
    Renewed(cfg, d, b);
  }

  /** Below the wrap-around, an unbroken run of successes is counted exactly. */
  lemma SmallRun(log: seq<Entry>, g: nat)
    requires AllTrue(Outcomes(log, g)) && |Outcomes(log, g)| < U32
    ensures CountsOf(log, g).successRun == |Outcomes(log, g)|
  {
    RunLength(Outcomes(log, g));
  }

  lemma RunLength(o: seq<bool>)
    requires AllTrue(o) && |o| < U32
    ensures Tail(o, true) % U32 == |o|
  {
    TallySplits(o);
  }

  lemma FailureKeeps(cfg: Config, s: System, id: nat)
    requires Usable(cfg) && Inv(cfg, s) && id in s.inflight && s.inflight[id] == s.b.generation
    ensures var d, b := CountedDone(s, id, false), Failed(cfg, s.b, s.clock);
            Inv(cfg, Settled(d, b).(log := d.log + (if b.phase.Open? then [Trip(s.clock)] else [])))
  {
    var d, b := CountedDone(s, id, false), Failed(cfg, s.b, s.clock);
    DoneCounts(cfg, s, id, false);
    if b.phase.Open? {
      Renewed(cfg, d, b);
      TripKeeps(cfg, d, b);
    } else {
      assert d.log + [] == d.log;
    }
  }

  /** Logging the trip itself, right after the breaker has opened in a new generation. */
  lemma TripKeeps(cfg: Config, d: System, b: Breaker)
    requires Usable(cfg) && PastGenerations(d.(b := b)) && Counted(d.(b := b)) && Admits(d.log, b.generation) == 0
    requires b.phase.Open? && b.expiry.Some? && b.expiry.value == d.clock + cfg.timeout
    requires GapsKept(cfg, d.log) && TripsWaited(cfg, d) && !d.b.phase.Open?
    ensures Inv(cfg, d.(b := b, since := d.clock, log := d.log + [Trip(d.clock)]))
  {
    LogAppend(d.log, Trip(d.clock), b.generation);
    LastTripAppend(d.log, Trip(d.clock));
    TripTiming(cfg, d, b);
  }

  lemma TripTiming(cfg: Config, d: System, b: Breaker)
    requires PastGenerations(d.(b := b)) && GapsKept(cfg, d.log) && TripsWaited(cfg, d) && !d.b.phase.Open?
    requires b.phase.Open? && b.expiry.Some? && b.expiry.value == d.clock + cfg.timeout && cfg.timeout > 0
    ensures var t := d.(b := b, since := d.clock, log := d.log + [Trip(d.clock)]);
            PastGenerations(t) && GapsKept(cfg, t.log) && TripsWaited(cfg, t)
  {
  }

  lemma StepKeeps(cfg: Config, s: System, e: Event)
    requires Usable(cfg) && Inv(cfg, s) && Enabled(s, e)
    ensures Inv(cfg, Step(cfg, s, e))
  {
    ObserveKeeps(cfg, s, e.now);
    var o := Observed(cfg, s, e.now);
    match e
    case Begin(id, now) =>
      if Before(cfg, s.b, now).1.Admitted? {
        AdmitKeeps(cfg, o, id);
      }
    case End(id, now, success) =>
      EndKeeps(cfg, s, id, now, success);
  }

  lemma EndKeeps(cfg: Config, s: System, id: nat, now: int, success: bool)
    requires Usable(cfg) && Inv(cfg, s) && s.clock <= now && id in s.inflight && Inv(cfg, Observed(cfg, s, now))
    ensures Inv(cfg, Step(cfg, s, End(id, now, success)))
  {
    if Observe(cfg, s.b, now).generation != s.inflight[id] {
      StaleEnd(cfg, s, id, now, success);
      StaleDoneKeeps(cfg, Observed(cfg, s, now), id, success);
    } else {
      CurrentEnd(cfg, s, id, now, success);
      if success {
        SuccessKeeps(cfg, Observed(cfg, s, now), id);
      } else {
        FailureKeeps(cfg, Observed(cfg, s, now), id);
      }
    }
  }

  lemma StaleEnd(cfg: Config, s: System, id: nat, now: int, success: bool)
    requires s.clock <= now && id in s.inflight && Observe(cfg, s.b, now).generation != s.inflight[id]
    ensures var o := Observed(cfg, s, now);
            Step(cfg, s, End(id, now, success)) == System(o.b, o.inflight - {id}, o.clock, o.since, o.log + [Done(o.inflight[id], success)])
  {
    assert s.log + [Done(s.inflight[id], success)] + [] == s.log + [Done(s.inflight[id], success)];
  }

  lemma CurrentEnd(cfg: Config, s: System, id: nat, now: int, success: bool)
    requires Inv(cfg, s) && s.clock <= now && id in s.inflight && Observe(cfg, s.b, now).generation == s.inflight[id]
    ensures var o := Observed(cfg, s, now);
            o.b == s.b && !o.b.phase.Open? && Step(cfg, s, End(id, now, success)) ==
              if success then Settled(CountedDone(o, id, true), Succeeded(cfg, o.b, o.clock))
              else var d, b := CountedDone(o, id, false), Failed(cfg, o.b, o.clock);
                   Settled(d, b).(log := d.log + (if b.phase.Open? then [Trip(o.clock)] else []))
  {
    assert s.inflight[id] <= s.b.generation;
    NotOpen(cfg, s, id);
    assert s.log + [Done(s.inflight[id], success)] + [] == s.log + [Done(s.inflight[id], success)];
  }

  /** Nothing admitted in an open generation is in flight. */
  lemma NotOpen(cfg: Config, s: System, id: nat)
    requires Inv(cfg, s) && id in s.inflight && s.inflight[id] == s.b.generation
    ensures !s.b.phase.Open?
  {
    assert id in Probes(s.inflight, s.b.generation);
  }

  // --- Theorems about runs ---

  ghost predicate Starts(cfg: Config, s: System) {
    s == System(Initial(cfg, s.clock), map[], s.clock, s.clock, [])
  }

  ghost predicate Moves(cfg: Config, s: System, s': System) {
    exists e :: Enabled(s, e) && s' == Step(cfg, s, e)
  }

  ghost function Init(cfg: Config): System -> bool {
    s => Starts(cfg, s)
  }

  ghost function Stepping(cfg: Config): (System, System) -> bool {
    (s, s') => Moves(cfg, s, s')
  }

  ghost predicate IsRun(cfg: Config, run: seq<System>) {
    Runs.IsRun(Init(cfg), Stepping(cfg), run)
  }

  lemma RunInv(cfg: Config, run: seq<System>, k: nat)
    requires Usable(cfg) && IsRun(cfg, run) && k < |run|
    ensures Inv(cfg, run[k])
  {
    forall s | Starts(cfg, s) ensures Inv(cfg, s) {
      assert Probes(map[], 1) == {};
      assert Outcomes([], 1) == [];
    }
    forall s, s' | Inv(cfg, s) && Moves(cfg, s, s') ensures Inv(cfg, s') {
      var e :| Enabled(s, e) && s' == Step(cfg, s, e);
      StepKeeps(cfg, s, e);
    }
    Runs.InvariantHolds(Init(cfg), Stepping(cfg), s => Inv(cfg, s), run, k);
  }

  /**
   * In every interleaving the counts account for exactly the requests of the current generation that
   * are still in flight, up to the wrap-around of 32-bit counters.
   */
  lemma InFlightAccounted(cfg: Config, run: seq<System>, k: nat)
    requires Usable(cfg) && IsRun(cfg, run) && k < |run|
    ensures var s := run[k]; var c, probes := s.b.counts, |Probes(s.inflight, s.b.generation)|;
            && (c.requests - c.successes - c.failures - probes) % U32 == 0
            && (Admits(s.log, s.b.generation) < U32 ==> c.requests - c.successes - c.failures == probes)
    ensures run[k].b.counts == CountsOf(run[k].log, run[k].b.generation)
  {
    RunInv(cfg, run, k);
    var s := run[k];
    var o := Outcomes(s.log, s.b.generation);
    TallySplits(o);
    Balance(Admits(s.log, s.b.generation), Tally(o, true), Tally(o, false), |Probes(s.inflight, s.b.generation)|);
  }

  lemma Balance(a: nat, t: nat, f: nat, p: nat)
    requires a == t + f + p
    ensures (a % U32 - t % U32 - f % U32 - p) % U32 == 0
    ensures a < U32 ==> a % U32 - t % U32 - f % U32 == p
  {
    var k := a / U32 - t / U32 - f / U32;
    assert a % U32 - t % U32 - f % U32 - p == U32 * (-k);
  }

  /**
   * Which requests are let in, told by the history alone. Closed: every one. Open: exactly those later
   * than the timeout after the last trip, the first of them as a probe of a new half-open generation.
   * Half-open: exactly the first `maxRequests` of the generation.
   */
  lemma AdmissionExact(cfg: Config, run: seq<System>, k: nat, now: int)
    requires Usable(cfg) && IsRun(cfg, run) && k < |run| && run[k].clock <= now
    ensures var s := run[k]; var g := s.b.generation; var (b, v) := Before(cfg, s.b, now);
            match s.b.phase
            case Closed => b.phase.Closed? && v == Admitted(if now > s.since + cfg.interval then g + 1 else g)
            case Open =>
              var trip := LastTrip(s.log);
              && trip.Some?
              && (if now > trip.value + cfg.timeout then b.phase.HalfOpen? && v == Admitted(g + 1) else b == s.b && v == RejectedOpen)
            case HalfOpen =>
              b.phase.HalfOpen? && v == if Admits(s.log, g) < cfg.maxRequests then Admitted(g) else RejectedTooMany
  {
    RunInv(cfg, run, k);
    var s := run[k];
    if s.b.phase.HalfOpen? {
      SmallAdmits(s.log, s.b.generation);
    }
  }

  /** Whether an outcome that ends now still belongs to the current generation. */
  predicate Current(cfg: Config, s: System, gen: nat, now: int) {
    gen == s.b.generation && !(s.b.phase.Closed? && now > s.since + cfg.interval)
  }

  /**
   * What an outcome of the current generation does, told by the history alone: a half-open breaker closes
   * with the success that makes `maxRequests` of them and opens with any failure; a closed one opens
   * with a failure exactly if readyToTrip says so of the generation's counts.
   */
  lemma OutcomeExact(cfg: Config, run: seq<System>, k: nat, id: nat, now: int, success: bool)
    requires Usable(cfg) && IsRun(cfg, run) && k < |run| && run[k].clock <= now
    requires id in run[k].inflight && Current(cfg, run[k], run[k].inflight[id], now)
    ensures var s, b := run[k], Step(cfg, run[k], End(id, now, success)).b;
            var g := s.b.generation; var log := s.log + [Done(g, success)];
            && b.phase == (if s.b.phase.HalfOpen? then
                             (if !success then Open else if |Outcomes(log, g)| == cfg.maxRequests then Closed else HalfOpen)
                           else if !success && cfg.readyToTrip(CountsOf(log, g)) then Open else Closed)
            && (if b.phase == s.b.phase then b.generation == g && b.counts == CountsOf(log, g)
                else b.generation == g + 1 && b.counts == ZERO)
  {
    RunInv(cfg, run, k);
    var s := run[k];
    DoneCounts(cfg, s, id, success);
    CountsAppend(s.log, s.b.generation, success);
    if s.b.phase.HalfOpen? && success {
      SmallRun(s.log + [Done(s.b.generation, true)], s.b.generation);
    }
  }

  /** A request turned away from a half-open breaker means a probe of this generation is still running. */
  lemma NeverWedged(cfg: Config, run: seq<System>, k: nat, now: int)
    requires Usable(cfg) && IsRun(cfg, run) && k < |run| && run[k].clock <= now
    ensures Before(cfg, run[k].b, now).1.RejectedTooMany? ==>
              run[k].b.phase.HalfOpen? && Probes(run[k].inflight, run[k].b.generation) != {}
    ensures run[k].b.phase.HalfOpen? && Probes(run[k].inflight, run[k].b.generation) == {} ==>
              Before(cfg, run[k].b, now).1 == Admitted(run[k].b.generation)
  {
    RunInv(cfg, run, k);
    var s := run[k];
    if s.b.phase.HalfOpen? {
      SmallAdmits(s.log, s.b.generation);
    }
  }

  /**
   * The breaker closes again only from half-open, by a success, and only when exactly `maxRequests`
   * requests were admitted in that half-open generation and every one of them has succeeded.
   */
  lemma ClosesAfterAllProbes(cfg: Config, run: seq<System>, k: nat)
    requires Usable(cfg) && IsRun(cfg, run) && k + 1 < |run|
    requires !run[k].b.phase.Closed? && run[k + 1].b.phase.Closed?
    ensures run[k].b.phase.HalfOpen?
    ensures var log, g := run[k + 1].log, run[k].b.generation;
            Admits(log, g) == cfg.maxRequests && Outcomes(log, g) == seq(cfg.maxRequests, _ => true)
  {
    RunInv(cfg, run, k);
    var s := run[k];
    assert Runs.Follows(Stepping(cfg), run, k);
    var e :| Enabled(s, e) && run[k + 1] == Step(cfg, s, e);
    ClosingStep(cfg, s, e);
    ObserveKeeps(cfg, s, e.now);
    SuccessKeeps(cfg, Observed(cfg, s, e.now), e.id);
  }

  lemma ClosingStep(cfg: Config, s: System, e: Event)
    requires Inv(cfg, s) && Enabled(s, e) && !s.b.phase.Closed? && Step(cfg, s, e).b.phase.Closed?
    ensures s.b.phase.HalfOpen? && e.End? && e.success && s.inflight[e.id] == s.b.generation
    ensures Observe(cfg, s.b, e.now) == s.b && Step(cfg, s, e).log == s.log + [Done(s.b.generation, true)]
  {
    if e.End? && s.b.phase.HalfOpen? {
      assert s.log + [Done(s.b.generation, true)] + [] == s.log + [Done(s.b.generation, true)];
    }
  }

  /** Nothing is admitted after a trip until strictly more than the timeout has passed. */
  lemma OpenForTimeout(cfg: Config, run: seq<System>, k: nat, i: nat, j: nat)
    requires Usable(cfg) && IsRun(cfg, run) && k < |run| && i < j < |run[k].log|
    requires run[k].log[i].Trip? && run[k].log[j].Admit?
    ensures run[k].log[j].at > run[k].log[i].at + cfg.timeout
  {
    RunInv(cfg, run, k);
  }

  /**
   * Whether a request of an earlier generation succeeds or fails makes no difference to the breaker: it is
   * left as it was, or as the clock alone makes it.
   */
  lemma StaleOutcomeIgnored(cfg: Config, run: seq<System>, k: nat, id: nat, now: int, success: bool)
    requires Usable(cfg) && IsRun(cfg, run) && k < |run| && run[k].clock <= now
    requires id in run[k].inflight && !Current(cfg, run[k], run[k].inflight[id], now)
    ensures var s, b := run[k], Step(cfg, run[k], End(id, now, success)).b; var g := s.b.generation;
            match s.b.phase
            case Closed => if now > s.since + cfg.interval then b == Breaker(Closed, g + 1, ZERO, Some(now + cfg.interval)) else b == s.b
            case Open => if now > s.since + cfg.timeout then b == Breaker(HalfOpen, g + 1, ZERO, None) else b == s.b
            case HalfOpen => b == s.b
  {
    RunInv(cfg, run, k);
  }

  /** A trip needs a failure of the current generation, in a phase that lets failures trip it. */
  lemma TripsForCause(cfg: Config, run: seq<System>, k: nat)
    requires Usable(cfg) && IsRun(cfg, run) && k + 1 < |run|
    requires !run[k].b.phase.Open? && run[k + 1].b.phase.Open?
    ensures var log, g := run[k + 1].log, run[k].b.generation; var o := Outcomes(log, g);
            o != [] && !o[|o| - 1] && (run[k].b.phase.Closed? ==> cfg.readyToTrip(CountsOf(log, g)))
  {
    RunInv(cfg, run, k);
    var s := run[k];
    assert Runs.Follows(Stepping(cfg), run, k);
    var e :| Enabled(s, e) && run[k + 1] == Step(cfg, s, e);
    ObserveKeeps(cfg, s, e.now);
    TrippingStep(cfg, s, e);
    var g := s.b.generation;
    var mid := s.log + [Done(g, false)];
    LogAppend(mid, Trip(e.now), g);
    LogAppend(s.log, Done(g, false), g);
    CountsAppend(s.log, g, false);
  }

  lemma TrippingStep(cfg: Config, s: System, e: Event)
    requires Inv(cfg, s) && Enabled(s, e) && !s.b.phase.Open? && Step(cfg, s, e).b.phase.Open?
    ensures e.End? && !e.success && s.inflight[e.id] == s.b.generation
    ensures Step(cfg, s, e).log == s.log + [Done(s.b.generation, false)] + [Trip(e.now)]
    ensures s.b.phase.Closed? ==> cfg.readyToTrip(CountFailure(s.b.counts))
  {
  }
}
