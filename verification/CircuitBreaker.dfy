/** The circuit breaker: a timed three-state machine whose counts belong to a generation. */
module CircuitBreakers {
  import opened Common

  const U32: nat := 0x1_0000_0000
  const MINUTE: int := 60_000_000_000

  datatype Phase = Closed | Open | HalfOpen

  /** Unsigned 32-bit counters. */
  datatype Counts = Counts(requests: nat, successes: nat, failures: nat, successRun: nat, failureRun: nat)

  const ZERO := Counts(0, 0, 0, 0, 0)

  function Inc(n: nat): nat {
    (n + 1) % U32
  }

  datatype Config = Config(maxRequests: nat, interval: int, timeout: int, readyToTrip: Counts -> bool)

  ghost predicate Usable(cfg: Config) {
    0 < cfg.maxRequests < U32 && 0 < cfg.interval && 0 < cfg.timeout
  }

  /** The defaults a new breaker fills in. */
  function Normalize(cfg: Config): (r: Config)
    requires cfg.maxRequests < U32
    ensures Usable(r) && r.readyToTrip == cfg.readyToTrip
    ensures (cfg.interval > 0 ==> r.interval == cfg.interval) && (cfg.timeout > 0 ==> r.timeout == cfg.timeout)
    ensures (cfg.maxRequests == 0 ==> r.maxRequests == 1) && (cfg.maxRequests > 0 ==> r.maxRequests == cfg.maxRequests)
    ensures cfg.interval <= 0 ==> r.interval == 60 * 1_000_000_000
    ensures cfg.timeout <= 0 ==> r.timeout == 60 * 1_000_000_000
  {
    Config(if cfg.maxRequests == 0 then 1 else cfg.maxRequests,
           if cfg.interval <= 0 then MINUTE else cfg.interval,
           if cfg.timeout <= 0 then MINUTE else cfg.timeout,
           cfg.readyToTrip)
  }

  datatype Breaker = Breaker(phase: Phase, generation: nat, counts: Counts, expiry: Option<int>)

  datatype Verdict = Admitted(generation: nat) | RejectedOpen | RejectedTooMany

  // --- One call at a time ---

  function NewGeneration(cfg: Config, b: Breaker, now: int): Breaker {
    var expiry :=
      match b.phase
      case Closed => if cfg.interval == 0 then None else Some(now + cfg.interval)
      case Open => Some(now + cfg.timeout)
      case HalfOpen => None;
    Breaker(b.phase, b.generation + 1, ZERO, expiry)
  }

  function SetPhase(cfg: Config, b: Breaker, phase: Phase, now: int): Breaker {
    if b.phase == phase then b else NewGeneration(cfg, b.(phase := phase), now)
  }

  /** What looking at the clock does before every admission and every outcome. */
  function Observe(cfg: Config, b: Breaker, now: int): Breaker {
    match b.phase
    case Closed => if b.expiry.Some? && b.expiry.value < now then NewGeneration(cfg, b, now) else b
    case Open => if b.expiry.None? || b.expiry.value < now then SetPhase(cfg, b, HalfOpen, now) else b
    case HalfOpen => b
  }

  function Before(cfg: Config, b: Breaker, now: int): (Breaker, Verdict) {
    var o := Observe(cfg, b, now);
    if o.phase.Open? then (o, RejectedOpen)
    else if o.phase.HalfOpen? && o.counts.requests >= cfg.maxRequests then (o, RejectedTooMany)
    else (o.(counts := o.counts.(requests := Inc(o.counts.requests))), Admitted(o.generation))
  }

  function CountSuccess(c: Counts): Counts {
    c.(successes := Inc(c.successes), successRun := Inc(c.successRun), failureRun := 0)
  }

  function CountFailure(c: Counts): Counts {
    c.(failures := Inc(c.failures), failureRun := Inc(c.failureRun), successRun := 0)
  }

  function Succeeded(cfg: Config, b: Breaker, now: int): Breaker {
    var c := b.(counts := CountSuccess(b.counts));
    if b.phase.HalfOpen? && c.counts.successRun >= cfg.maxRequests then SetPhase(cfg, c, Closed, now) else c
  }

  function Failed(cfg: Config, b: Breaker, now: int): Breaker {
    var c := b.(counts := CountFailure(b.counts));
    match b.phase
    case Closed => if cfg.readyToTrip(c.counts) then SetPhase(cfg, c, Open, now) else c
    case HalfOpen => SetPhase(cfg, c, Open, now)
    case Open => c
  }

  function After(cfg: Config, b: Breaker, now: int, generation: nat, success: bool): Breaker {
    var o := Observe(cfg, b, now);
    if o.generation != generation then o
    else if success then Succeeded(cfg, o, now)
    else Failed(cfg, o, now)
  }

  class CircuitBreaker {
    const cfg: Config
    var phase: Phase
    var generation: nat
    var counts: Counts
    var expiry: Option<int>

    ghost function Contents(): Breaker
      reads this
    {
      Breaker(phase, generation, counts, expiry)
    }

    constructor (config: Config, now: int)
      requires config.maxRequests < U32
      ensures cfg == Normalize(config) && Contents() == Initial(cfg, now)
    {
      cfg := Normalize(config);
      phase, generation, counts, expiry := Closed, 0, ZERO, None;
      new;
      ToNewGeneration(now);
    }

    method BeforeRequest(now: int) returns (v: Verdict)
      modifies this
      ensures (Contents(), v) == Before(cfg, old(Contents()), now)
    {
      var state, gen := CurrentState(now);
      if state.Open? {
        return RejectedOpen;
      } else if state.HalfOpen? && counts.requests >= cfg.maxRequests {
        return RejectedTooMany;
      }
      counts := counts.(requests := Inc(counts.requests));
      return Admitted(gen);
    }

    method AfterRequest(now: int, before: nat, success: bool)
      modifies this
      ensures Contents() == After(cfg, old(Contents()), now, before, success)
    {
      var state, gen := CurrentState(now);
      if gen != before {
        return;
      }
      if success {
        OnSuccess(state, now);
      } else {
        OnFailure(state, now);
      }
    }

    method OnSuccess(state: Phase, now: int)
      requires state == phase
      modifies this
      ensures Contents() == Succeeded(cfg, old(Contents()), now)
    {
      counts := counts.(successes := Inc(counts.successes));
      counts := counts.(successRun := Inc(counts.successRun));
      counts := counts.(failureRun := 0);
      if state.HalfOpen? && counts.successRun >= cfg.maxRequests {
        SetState(Closed, now);
      }
    }

    method OnFailure(state: Phase, now: int)
      requires state == phase
      modifies this
      ensures Contents() == Failed(cfg, old(Contents()), now)
    {
      counts := counts.(failures := Inc(counts.failures));
      counts := counts.(failureRun := Inc(counts.failureRun));
      counts := counts.(successRun := 0);
      match state
      case Closed =>
        if cfg.readyToTrip(counts) {
          SetState(Open, now);
        }
      case HalfOpen =>
        SetState(Open, now);
      case Open =>
    }

    method CurrentState(now: int) returns (state: Phase, gen: nat)
      modifies this
      ensures Contents() == Observe(cfg, old(Contents()), now) && state == phase && gen == generation
    {
      match phase {
        case Closed =>
          if expiry.Some? && expiry.value < now {
            ToNewGeneration(now);
          }
        case Open =>
          if expiry.None? || expiry.value < now {
            SetState(HalfOpen, now);
          }
        case HalfOpen =>
      }
      state, gen := phase, generation;
    }

    method SetState(state: Phase, now: int)
      modifies this
      ensures Contents() == SetPhase(cfg, old(Contents()), state, now)
    {
      if phase == state {
        return;
      }
      phase := state;
      ToNewGeneration(now);
    }

    method ToNewGeneration(now: int)
      modifies this
      ensures Contents() == NewGeneration(cfg, old(Contents()), now)
    {
      generation := generation + 1;
      counts := ZERO;
      match phase
      case Closed =>
        if cfg.interval == 0 {
          expiry := None;
        } else {
          expiry := Some(now + cfg.interval);
        }
      case Open =>
        expiry := Some(now + cfg.timeout);
      case HalfOpen =>
        expiry := None;
    }
  }

  function Initial(cfg: Config, now: int): Breaker {
    NewGeneration(cfg, Breaker(Closed, 0, ZERO, None), now)
  }

  // --- Overlapping requests ---

  datatype Entry =
    | Admit(gen: nat, at: int)
    | Done(gen: nat, success: bool)
    | Trip(at: int)

  /**
   * The breaker, the requests in flight with their admission generations, when the current generation
   * began, and what has happened.
   */
  datatype System = System(b: Breaker, inflight: map<nat, nat>, clock: int, since: int, log: seq<Entry>)

  datatype Event = Begin(id: nat, now: int) | End(id: nat, now: int, success: bool)

  /** Time never runs back; a request begins once and ends at most once. */
  predicate Enabled(s: System, e: Event) {
    s.clock <= e.now && (e.Begin? <==> e.id !in s.inflight)
  }

  function Step(cfg: Config, s: System, e: Event): System
    requires Enabled(s, e)
  {
    match e
    case Begin(id, now) =>
      (var (b, v) := Before(cfg, s.b, now);
       var since := if b.generation == s.b.generation then s.since else now;
       if v.Admitted? then System(b, s.inflight[id := v.generation], now, since, s.log + [Admit(v.generation, now)])
       else System(b, s.inflight, now, since, s.log))
    case End(id, now, success) =>
      var gen := s.inflight[id];
      var b := After(cfg, s.b, now, gen, success);
      var trip := if b.phase.Open? && !s.b.phase.Open? then [Trip(now)] else [];
      var since := if b.generation == s.b.generation then s.since else now;
      System(b, s.inflight - {id}, now, since, s.log + [Done(gen, success)] + trip)
  }
}
