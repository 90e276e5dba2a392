/** How an actor's cell reacts to panicking messages, and how long it backs off. */
module Supervision {

  import opened Common

  const HALF: int := 0x4000_0000_0000_0000          // 2^62
  const DEFAULT_INITIAL: int := 100_000_000         // 100 ms, in nanoseconds
  const DEFAULT_MAX: int := 5_000_000_000           // 5 s

  datatype Strategy = RestartNever | RestartAlways | RestartBackoff

  datatype Settings = Settings(strategy: Strategy, maxRestarts: int, backoffInitial: int, backoffMax: int)

  function Initial(sv: Settings): int {
    if sv.backoffInitial <= 0 then DEFAULT_INITIAL else sv.backoffInitial
  }

  function Cap(sv: Settings): int {
    if sv.backoffMax <= 0 then DEFAULT_MAX else sv.backoffMax
  }

  // --- Backoff ---

  /** `d` doubled `steps` times in 64-bit arithmetic, stopping at `cap` as soon as a product reaches it. */
  function Doubling(d: int, cap: int, steps: nat): int
    decreases steps
  {
    if steps == 0 then d
    else if Wrap(2 * d) >= cap then cap
    else Doubling(Wrap(2 * d), cap, steps - 1)
  }

  function Backoff(sv: Settings, attempt: int): int {
    Doubling(Initial(sv), Cap(sv), if attempt <= 1 then 0 else attempt - 1)
  }

  method BackoffFor(sv: Settings, attempt: int) returns (d: int)
    requires IsInt64(sv.backoffInitial) && IsInt64(sv.backoffMax)
    ensures d == Backoff(sv, attempt)
  {
    var initial := sv.backoffInitial;
    if initial <= 0 {
      initial := DEFAULT_INITIAL;
    }
    var max := sv.backoffMax;
    if max <= 0 {
      max := DEFAULT_MAX;
    }
    d := initial;
    var i := 1;
    while i < attempt
      invariant 1 <= i && (i <= attempt || attempt < 1)
      invariant Backoff(sv, attempt) == Doubling(d, max, if attempt <= i then 0 else attempt - i)
    {
      d := Wrap(2 * d);
      if d >= max {
        return max;
      }
      i := i + 1;
    }
  }

  function Pow2(n: nat): (r: nat)
    ensures r > 0
  {
    if n == 0 then 1 else 2 * Pow2(n - 1)
  }

  function Min(a: int, b: int): int {
    if a <= b then a else b
  }

  /** The documented schedule: initial * 2^(n-1), capped. */
  function Documented(sv: Settings, attempt: nat): int
    requires attempt >= 1
  {
    Min(Initial(sv) * Pow2(attempt - 1), Cap(sv))
  }

  /** Doubling `d` reaches `cap` before it leaves the 64-bit range. */
  predicate Fits(d: int, cap: int)
    requires d > 0
    decreases TWO63 - d
  {
    2 * d < TWO63 && (2 * d >= cap || Fits(2 * d, cap))
  }

  lemma {:induction false} DoublingIsPower(d: int, cap: int, steps: nat)
    requires 0 < d && Fits(d, cap) && (steps > 0 || d <= cap)
    ensures Doubling(d, cap, steps) == Min(d * Pow2(steps), cap)
    decreases steps
  {
    if steps > 0 {
      var p := Pow2(steps - 1);
      assert d * Pow2(steps) == 2 * d * p;
      if 2 * d >= cap {
        assert 2 * d * p >= 2 * d by { Scale(2 * d, p); }
      } else {
        DoublingIsPower(2 * d, cap, steps - 1);
      }
    }
  }

  /** Otherwise some number of doublings overflows before the cap is reached. */
  lemma {:induction false} Overflows(d: int, cap: int) returns (steps: nat)
    requires 0 < d < TWO63 && cap > 0 && !Fits(d, cap)
    ensures steps > 0 && Doubling(d, cap, steps) < 0
    decreases TWO63 - d
  {
    if 2 * d >= TWO63 {
      steps := 1;
      assert Wrap(2 * d) == 2 * d - TWO64;
      assert Doubling(Wrap(2 * d), cap, 0) == Wrap(2 * d);
    } else {
      var n := Overflows(2 * d, cap);
      steps := n + 1;
    }
  }

  lemma {:induction false} SmallFits(d: int, cap: int)
    requires 0 < d < HALF && cap <= HALF
    ensures Fits(d, cap)
    decreases TWO63 - d
  {
    if 2 * d < cap {
      SmallFits(2 * d, cap);
    }
  }

  lemma Scale(x: int, p: nat)
    requires x > 0 && p > 0
    ensures x * p >= x
  {
    assert x * p == x + x * (p - 1);
  }

  /**
   * If doubling reaches the cap in range, the n-th restart waits the documented time exactly when n is
   * at least 2 or the initial delay does not exceed the cap: the first wait is never capped.
   */
  lemma BackoffSchedule(sv: Settings, attempt: nat)
    requires attempt >= 1 && Fits(Initial(sv), Cap(sv))
    ensures Backoff(sv, attempt) == Documented(sv, attempt) <==> attempt >= 2 || Initial(sv) <= Cap(sv)
    ensures attempt == 1 ==> Backoff(sv, attempt) == Initial(sv)
  {
    if attempt >= 2 || Initial(sv) <= Cap(sv) {
      DoublingIsPower(Initial(sv), Cap(sv), attempt - 1);
    } else {
      assert Initial(sv) * Pow2(0) == Initial(sv);
    }
  }

  /** The whole schedule is as documented exactly when the initial delay is within the cap and doubling fits. */
  lemma ScheduleExact(sv: Settings)
    requires IsInt64(sv.backoffInitial) && IsInt64(sv.backoffMax)
    ensures (forall n: nat :: n >= 1 ==> Backoff(sv, n) == Documented(sv, n)) <==>
            Initial(sv) <= Cap(sv) && Fits(Initial(sv), Cap(sv))
    ensures Initial(sv) <= Cap(sv) < HALF ==> Fits(Initial(sv), Cap(sv))
  {
    if Fits(Initial(sv), Cap(sv)) {
      forall n: nat | n >= 1
        ensures Backoff(sv, n) == Documented(sv, n) <==> n >= 2 || Initial(sv) <= Cap(sv)
      {
        BackoffSchedule(sv, n);
      }
      assert Initial(sv) > Cap(sv) ==> Backoff(sv, 1) != Documented(sv, 1);
    } else {
      var steps := Overflows(Initial(sv), Cap(sv));
      assert Backoff(sv, steps + 1) == Doubling(Initial(sv), Cap(sv), steps);
      assert Initial(sv) * Pow2(steps) > 0 by { Scale(Initial(sv), Pow2(steps)); }
      assert Backoff(sv, steps + 1) < 0 < Documented(sv, steps + 1);
    }
    if Initial(sv) <= Cap(sv) < HALF {
      SmallFits(Initial(sv), Cap(sv));
    }
  }

  /** The settings' own delays are used if positive, and 100 ms and 5 s otherwise. */
  lemma EffectiveDelays(sv: Settings)
    ensures Backoff(sv, 1) == if sv.backoffInitial > 0 then sv.backoffInitial else 100 * 1_000_000
    ensures Fits(Initial(sv), Cap(sv)) ==>
              forall n: nat :: n >= 2 ==> Backoff(sv, n) <= if sv.backoffMax > 0 then sv.backoffMax else 5 * 1_000_000_000
  {
    if Fits(Initial(sv), Cap(sv)) {
      forall n: nat | n >= 2 ensures Backoff(sv, n) <= Cap(sv) {
        BackoffSchedule(sv, n);
      }
    }
  }

  /** Each wait is twice the one before, up to the cap, which is the settings' own if positive and 5 s otherwise. */
  lemma WaitsDouble(sv: Settings, n: nat)
    requires n >= 1 && Fits(Initial(sv), Cap(sv)) && Initial(sv) <= Cap(sv)
    ensures Backoff(sv, n + 1) == Min(2 * Backoff(sv, n), if sv.backoffMax > 0 then sv.backoffMax else 5 * 1_000_000_000)
  {
    BackoffSchedule(sv, n);
    BackoffSchedule(sv, n + 1);
    var x := Initial(sv) * Pow2(n - 1);
    assert Initial(sv) * Pow2(n) == 2 * x;
  }

  /** A cap above 2^62 lets the doubling overflow: the wait becomes negative, which sleeps not at all. */
  lemma BackoffOverflow()
    ensures Backoff(Settings(RestartBackoff, 0, HALF, MAX_INT64), 2) == MIN_INT64
  {
    assert Wrap(2 * HALF) == MIN_INT64;
    assert Doubling(MIN_INT64, MAX_INT64, 0) == MIN_INT64;
  }

  // --- The cell's loop ---

  /** What the cell does about one message. */
  datatype Action = Fine | Logged | Restarted(wait: int) | GaveUp

  class Cell {
    const sv: Settings
    var consecutiveFailures: nat
    var stopped: bool
    ghost var actions: seq<Action>

    constructor (sv: Settings)
      ensures this.sv == sv && consecutiveFailures == 0 && !stopped && actions == []
    {
      this.sv := sv;
      consecutiveFailures, stopped, actions := 0, false, [];
    }

    /** The loop of a fresh cell over the messages it takes; `panics` says which of them panic. */
    method Loop(panics: seq<bool>)
      requires IsInt64(sv.backoffInitial) && IsInt64(sv.backoffMax)
      requires consecutiveFailures == 0 && !stopped && actions == []
      modifies this
      ensures (consecutiveFailures, actions) == Replay(sv, panics)
      ensures stopped <==> GaveUp in actions
    {
      var i := 0;
      while i < |panics|
        invariant 0 <= i <= |panics|
        invariant (consecutiveFailures, actions) == Replay(sv, panics[..i])
        invariant stopped <==> GaveUp in actions
      {
        assert panics[..i + 1][..i] == panics[..i];
        AfterMessage(panics[i]);
        i := i + 1;
      }
      assert panics[..i] == panics;
    }

    /** One round of the loop after the message has been processed. */
    method AfterMessage(panicked: bool)
      requires IsInt64(sv.backoffInitial) && IsInt64(sv.backoffMax)
      modifies this
      ensures (consecutiveFailures, stopped, actions) ==
              var (f, a) := React(sv, old(consecutiveFailures), panicked);
              (f, old(stopped) || a.GaveUp?, old(actions) + [a])
    {
      if panicked {
        HandlePanic();
      } else {
        consecutiveFailures := 0;
        actions := actions + [Fine];
      }
    }

    method HandlePanic()
      requires IsInt64(sv.backoffInitial) && IsInt64(sv.backoffMax)
      modifies this
      ensures (consecutiveFailures, stopped, actions) ==
              var (f, a) := React(sv, old(consecutiveFailures), true);
              (f, old(stopped) || a.GaveUp?, old(actions) + [a])
    {
      if sv.strategy.RestartNever? {
        actions := actions + [Logged];
        return;
      }
      consecutiveFailures := consecutiveFailures + 1;
      if sv.maxRestarts > 0 && consecutiveFailures > sv.maxRestarts {
        stopped := true;
        actions := actions + [GaveUp];
        return;
      }
      var wait := 0;
      if sv.strategy.RestartBackoff? {
        wait := BackoffFor(sv, consecutiveFailures);
      }
      actions := actions + [Restarted(wait)];
    }
  }

  function React(sv: Settings, failures: nat, panicked: bool): (nat, Action) {
    if !panicked then (0, Fine)
    else if sv.strategy.RestartNever? then (failures, Logged)
    else if sv.maxRestarts > 0 && failures + 1 > sv.maxRestarts then (failures + 1, GaveUp)
    else (failures + 1, Restarted(if sv.strategy.RestartBackoff? then Backoff(sv, failures + 1) else 0))
  }

  /** The failure count and the actions after a whole sequence of messages. */
  function Replay(sv: Settings, panics: seq<bool>): (nat, seq<Action>) {
    if panics == [] then (0, [])
    else
      var (f, actions) := Replay(sv, panics[..|panics| - 1]);
      var (f', a) := React(sv, f, panics[|panics| - 1]);
      (f', actions + [a])
  }

  /** How many panics in a row end at position `i`. */
  function PanicRun(panics: seq<bool>, i: nat): nat
    requires i < |panics|
  {
    if !panics[i] then 0 else if i == 0 then 1 else 1 + PanicRun(panics, i - 1)
  }

  /** The action due for the `n`-th panic in a row. */
  function Due(sv: Settings, n: nat): Action {
    if n == 0 then Fine
    else if sv.strategy.RestartNever? then Logged
    else if sv.maxRestarts > 0 && n > sv.maxRestarts then GaveUp
    else Restarted(if sv.strategy.RestartBackoff? then Backoff(sv, n) else 0)
  }

  lemma {:induction false} PanicRunPrefix(panics: seq<bool>, k: nat, i: nat)
    requires i < k <= |panics|
    ensures PanicRun(panics[..k], i) == PanicRun(panics, i)
  {
    if i > 0 {
      PanicRunPrefix(panics, k, i - 1);
    }
  }

  /** What the cell does about a message depends only on how many panics in a row end there. */
  lemma {:induction false} ActionsByRun(sv: Settings, panics: seq<bool>)
    ensures var (f, actions) := Replay(sv, panics);
            && |actions| == |panics|
            && (forall i :: 0 <= i < |panics| ==> actions[i] == Due(sv, PanicRun(panics, i)))
            && (!sv.strategy.RestartNever? ==> f == if panics == [] then 0 else PanicRun(panics, |panics| - 1))
  {
    if panics != [] {
      var k := |panics| - 1;
      var front := panics[..k];
      ActionsByRun(sv, front);
      forall i | 0 <= i < k ensures Due(sv, PanicRun(front, i)) == Due(sv, PanicRun(panics, i)) {
        PanicRunPrefix(panics, k, i);
      }
      if k > 0 {
        PanicRunPrefix(panics, k, k - 1);
      }
      assert Replay(sv, panics).1[..k] == Replay(sv, front).1;
    }
  }

  function Restarts(actions: seq<Action>): nat {
    if actions == [] then 0
    else Restarts(actions[..|actions| - 1]) + (if actions[|actions| - 1].Restarted? then 1 else 0)
  }

  function GiveUps(actions: seq<Action>): nat {
    if actions == [] then 0
    else GiveUps(actions[..|actions| - 1]) + (if actions[|actions| - 1].GaveUp? then 1 else 0)
  }

  /** `k` panics in a row starting at `a`, not preceded by another. */
  predicate RunOfPanics(panics: seq<bool>, a: nat, k: nat) {
    a + k <= |panics| && (a == 0 || !panics[a - 1]) && forall i :: a <= i < a + k ==> panics[i]
  }

  lemma {:induction false} RunPosition(panics: seq<bool>, a: nat, k: nat, j: nat)
    requires RunOfPanics(panics, a, k) && j < k
    ensures PanicRun(panics, a + j) == j + 1
    decreases j
  {
    if j > 0 {
      RunPosition(panics, a, k, j - 1);
    }
  }

  /**
   * Under a restart strategy with limit M > 0, a run of k panics in a row causes exactly min(k, M)
   * restarts and max(0, k - M) give-ups: each panic beyond the M-th gives the actor up anew, and it is
   * stopped exactly when k > M. With M <= 0 every panic restarts. This holds for every run of panics, also
   * for those met while draining.
   */
  lemma {:induction false} RestartsPerRun(sv: Settings, panics: seq<bool>, a: nat, k: nat)
    requires !sv.strategy.RestartNever? && RunOfPanics(panics, a, k)
    ensures |Replay(sv, panics).1| == |panics|
    ensures var run := Replay(sv, panics).1[a..a + k];
            && Restarts(run) == (if sv.maxRestarts > 0 then Min(k, sv.maxRestarts) else k)
            && GiveUps(run) == (if 0 < sv.maxRestarts < k then k - sv.maxRestarts else 0)
            && (forall j :: 0 <= j < k ==> run[j] == Due(sv, j + 1))
            && (GaveUp in run <==> 0 < sv.maxRestarts < k)
    decreases k
  {
    ActionsByRun(sv, panics);
    var run := Replay(sv, panics).1[a..a + k];
    forall j | 0 <= j < k ensures run[j] == Due(sv, j + 1) {
      RunPosition(panics, a, k, j);
    }
    if 0 < sv.maxRestarts < k {
      assert run[k - 1] == GaveUp;
    }
    CountDue(sv, run);
  }

  lemma {:induction false} CountDue(sv: Settings, run: seq<Action>)
    requires !sv.strategy.RestartNever? && forall j :: 0 <= j < |run| ==> run[j] == Due(sv, j + 1)
    ensures Restarts(run) == if sv.maxRestarts > 0 then Min(|run|, sv.maxRestarts) else |run|
    ensures GiveUps(run) == if 0 < sv.maxRestarts < |run| then |run| - sv.maxRestarts else 0
  {
    if run != [] {
      CountDue(sv, run[..|run| - 1]);
    }
  }

  /** With backoff, the n-th restart in a row waits the documented time, unless it is an uncapped first one. */
  lemma NthRestartWaits(sv: Settings, panics: seq<bool>, a: nat, n: nat)
    requires sv.strategy.RestartBackoff? && 1 <= n && (sv.maxRestarts <= 0 || n <= sv.maxRestarts)
    requires RunOfPanics(panics, a, n) && Fits(Initial(sv), Cap(sv))
    ensures a + n - 1 < |Replay(sv, panics).1| && Replay(sv, panics).1[a + n - 1].Restarted?
    ensures Replay(sv, panics).1[a + n - 1].wait == Min(Initial(sv) * Pow2(n - 1), Cap(sv))
       <==> n >= 2 || Initial(sv) <= Cap(sv)
  {
    RestartsPerRun(sv, panics, a, n);
    assert Replay(sv, panics).1[a..a + n][n - 1] == Due(sv, n);
    BackoffSchedule(sv, n);
  }

  /** Without a restart strategy panics are only logged; without backoff restarts do not wait. */
  lemma OtherStrategies(sv: Settings, panics: seq<bool>, i: nat)
    requires i < |panics| && !sv.strategy.RestartBackoff?
    ensures |Replay(sv, panics).1| == |panics|
    ensures var a := Replay(sv, panics).1[i];
            && (a == Fine <==> !panics[i])
            && (sv.strategy.RestartNever? ==> a == Fine || a == Logged)
            && (sv.strategy.RestartAlways? ==> a == Fine || a == Restarted(0) || a == GaveUp)
  {
    ActionsByRun(sv, panics);
  }

  /** With a limit of one restart, three panics in a row give the same actor up twice. */
  lemma GivesUpTwice()
    ensures Replay(Settings(RestartAlways, 1, 0, 0), [true, true, true]).1 == [Restarted(0), GaveUp, GaveUp]
  {
    var sv, panics := Settings(RestartAlways, 1, 0, 0), [true, true, true];
    RestartsPerRun(sv, panics, 0, 3);
    var run := Replay(sv, panics).1;
    assert run[0..3] == run;
    assert run[0] == Due(sv, 1) && run[1] == Due(sv, 2) && run[2] == Due(sv, 3);
  }
}
