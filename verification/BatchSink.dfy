/** The batching audit sink: writers, flushers, one insert at a time, and close. */
module BatchSinks {
  import opened Common
  import Runs

  /** The sink's fields; `flushing` is the one-slot semaphore. */
  datatype Sink<E> = Sink(buffer: seq<E>, batchSize: nat, stopped: bool, flushing: bool)

  /** What flushing under the lock does: nothing, or take the whole buffer as a batch to insert. */
  function TryFlush<E>(s: Sink<E>): (Sink<E>, Option<seq<E>>) {
    if s.buffer == [] || s.flushing then (s, None) else (s.(buffer := [], flushing := true), Some(s.buffer))
  }

  function Write<E>(s: Sink<E>, e: E): (Sink<E>, bool, Option<seq<E>>) {
    if s.stopped then (s, false, None)
    else
      var t := s.(buffer := s.buffer + [e]);
      if |t.buffer| >= t.batchSize then var (u, b) := TryFlush(t); (u, true, b) else (t, true, None)
  }

  class BatchSQLSink<E> {
    var buffer: seq<E>
    const batchSize: nat
    var stopped: bool
    var flushing: bool

    ghost function Contents(): Sink<E>
      reads this
    {
      Sink(buffer, batchSize, stopped, flushing)
    }

    constructor (batchSize: int)
      ensures Contents() == Sink([], if batchSize <= 0 then 100 else batchSize, false, false)
    {
      this.batchSize := if batchSize <= 0 then 100 else batchSize;
      buffer, stopped, flushing := [], false, false;
    }

    /** Write up to the point where the lock is released; `batch` is then inserted outside the lock. */
    method WriteLocked(e: E) returns (accepted: bool, batch: Option<seq<E>>)
      modifies this
      ensures (Contents(), accepted, batch) == Write(old(Contents()), e)
    {
      if stopped {
        return false, None;
      }
      buffer := buffer + [e];
      accepted, batch := true, None;
      if |buffer| >= batchSize {
        batch := FlushLocked();
      }
    }

    method FlushLocked() returns (batch: Option<seq<E>>)
      modifies this
      ensures (Contents(), batch) == TryFlush(old(Contents()))
    {
      if |buffer| == 0 {
        return None;
      }
      if flushing {
        return None;
      }
      flushing := true;
      batch := Some(buffer);
      buffer := [];
    }

    /** The deferred steps after the insert: take the lock again and give the slot back. */
    method FinishFlush()
      modifies this
      ensures Contents() == old(Contents()).(flushing := false)
    {
      flushing := false;
    }

    method MarkStopped()
      modifies this
      ensures Contents() == old(Contents()).(stopped := true)
    {
      stopped := true;
    }
  }

  /** Tries up to `maxRetries` times, waiting `delay`, `2 * delay`, ... between attempts. */
  method InsertWithRetry(maxRetries: nat, delay: nat, succeeds: nat -> bool) returns (ok: bool, attempts: nat,
                         slept: nat)
    ensures ok <==> exists i :: 0 <= i < maxRetries && succeeds(i)
    ensures ok ==> 1 <= attempts <= maxRetries && succeeds(attempts - 1)
    ensures forall i :: 0 <= i < (if ok then attempts - 1 else attempts) ==> !succeeds(i)
    ensures !ok ==> attempts == maxRetries
    ensures 2 * slept == delay * (attempts * (attempts - 1))
  {
    ok, attempts, slept := false, 0, 0;
    while attempts < maxRetries
      invariant 0 <= attempts <= maxRetries && !ok
      invariant forall i :: 0 <= i < attempts ==> !succeeds(i)
      invariant 2 * slept == delay * (attempts * (attempts - 1))
    {
      if attempts > 0 {
        slept := slept + delay * attempts;
      }
      NextWait(delay, attempts);
      attempts := attempts + 1;
      if succeeds(attempts - 1) {
        ok := true;
        return;
      }
    }
  }

  lemma NextWait(delay: nat, n: nat)
    ensures delay * ((n + 1) * n) == delay * (n * (n - 1)) + 2 * (delay * n)
  {
    assert (n + 1) * n == n * (n - 1) + 2 * n;
    assert delay * (n * (n - 1) + 2 * n) == delay * (n * (n - 1)) + delay * (2 * n);
  }

  // --- Interleaved steps ---

  datatype Batch<E> = Batch(events: seq<E>, inserted: bool)

  datatype Closer = NotClosed | StopSet | Flushing | Returned

  datatype World<E> = World(
    sink: Sink<E>,
    inflight: Option<seq<E>>,        // the batch being inserted outside the lock
    byClose: bool,                   // whether Close is the one inserting it
    completed: seq<Batch<E>>,        // inserted, or failed after all retries
    accepted: seq<E>,                // events whose Write was not refused
    closer: Closer)

  datatype Step<E> =
    | WriteEvent(e: E)
    | Flush                          // Flush, or the background flusher's tick
    | InsertDone(ok: bool)
    | CloseStop                      // Close sets the stopped flag
    | CloseFlush                     // Close takes the lock for its final flush

  ghost predicate Enabled<E>(w: World<E>, s: Step<E>) {
    match s
    case InsertDone(_) => w.inflight.Some?
    case CloseStop => w.closer.NotClosed?
    case CloseFlush => w.closer.StopSet?
    case _ => true
  }

  function Started<E>(w: World<E>, batch: Option<seq<E>>, byClose: bool): World<E> {
    if batch.Some? then w.(inflight := batch, byClose := byClose) else w
  }

  ghost function Next<E>(w: World<E>, s: Step<E>): World<E>
    requires Enabled(w, s)
  {
    match s
    case WriteEvent(e) =>
      (var (sink, accepted, batch) := Write(w.sink, e);
       Started(w.(sink := sink, accepted := if accepted then w.accepted + [e] else w.accepted), batch, false))
    case Flush =>
      (var (sink, batch) := TryFlush(w.sink);
       Started(w.(sink := sink), batch, false))
    case InsertDone(ok) =>
      w.(sink := w.sink.(flushing := false), inflight := None, completed := w.completed + [Batch(w.inflight.value, ok)],
         closer := if w.byClose then Returned else w.closer, byClose := false)
    case CloseStop => w.(sink := w.sink.(stopped := true), closer := StopSet)
    case CloseFlush =>
      var (sink, batch) := TryFlush(w.sink);
      Started(w.(sink := sink, closer := if batch.Some? then Flushing else Returned), batch, true)
  }

  ghost predicate Initial<E>(w: World<E>) {
    exists n: nat :: n > 0 && w == World(Sink([], n, false, false), None, false, [], [], NotClosed)
  }

  ghost predicate Moves<E(!new)>(w: World<E>, w': World<E>) {
    exists s :: Enabled(w, s) && w' == Next(w, s)
  }

  ghost predicate IsRun<E(!new)>(run: seq<World<E>>) {
    Runs.IsRun(Initial, Moves, run)
  }

  // --- Conservation ---

  function Flatten<E>(batches: seq<Batch<E>>): seq<E> {
    if batches == [] then [] else Flatten(batches[..|batches| - 1]) + batches[|batches| - 1].events
  }

  function InFlight<E>(w: World<E>): seq<E> {
    if w.inflight.Some? then w.inflight.value else []
  }

  ghost predicate Conserved<E>(w: World<E>) {
    Flatten(w.completed) + InFlight(w) + w.sink.buffer == w.accepted
  }

  ghost predicate Inv<E>(w: World<E>) {
    && Conserved(w)
    && (w.sink.flushing <==> w.inflight.Some?) && (w.inflight.Some? ==> w.inflight.value != [])
    && (w.byClose <==> w.closer.Flushing?) && (w.closer.Flushing? ==> w.inflight.Some? && w.sink.buffer == [])
    && (w.sink.stopped <==> !w.closer.NotClosed?)
  }

  lemma FlattenAppend<E>(batches: seq<Batch<E>>, b: Batch<E>)
    ensures Flatten(batches + [b]) == Flatten(batches) + b.events
  {
    assert (batches + [b])[..|batches + [b]| - 1] == batches;
  }

  /** Taking the whole buffer as a batch moves events without reordering them. */
  lemma FlushConserves<E>(w: World<E>, byClose: bool)
    requires Conserved(w) && (w.sink.flushing <==> w.inflight.Some?)
    ensures Conserved(Started(w.(sink := TryFlush(w.sink).0), TryFlush(w.sink).1, byClose))
  {
    if TryFlush(w.sink).1.Some? {
      assert Flatten(w.completed) + [] + w.sink.buffer == Flatten(w.completed) + w.sink.buffer + [];
    }
  }

  lemma WriteConserves<E(!new)>(w: World<E>, e: E)
    requires Conserved(w) && (w.sink.flushing <==> w.inflight.Some?)
    ensures Conserved(Next(w, WriteEvent(e)))
  {
    if !w.sink.stopped {
      var mid := w.(sink := w.sink.(buffer := w.sink.buffer + [e]), accepted := w.accepted + [e]);
      OneMore(Flatten(w.completed) + InFlight(w), w.sink.buffer, e);
      FlushConserves(mid, false);
    }
  }

  lemma OneMore<E>(a: seq<E>, b: seq<E>, e: E)
    ensures a + (b + [e]) == (a + b) + [e]
  {
  }

  lemma InsertConserves<E(!new)>(w: World<E>, ok: bool)
    requires Conserved(w) && w.inflight.Some?
    ensures Conserved(Next(w, InsertDone(ok)))
  {
    FlattenAppend(w.completed, Batch(w.inflight.value, ok));
    assert Flatten(w.completed) + w.inflight.value + [] == Flatten(w.completed) + w.inflight.value;
  }

  lemma ConservedStep<E(!new)>(w: World<E>, s: Step<E>)
    requires Enabled(w, s) && Conserved(w) && (w.sink.flushing <==> w.inflight.Some?)
    ensures Conserved(Next(w, s))
  {
    match s
    case WriteEvent(e) => WriteConserves(w, e);
    case Flush => FlushConserves(w, false);
    case InsertDone(ok) => InsertConserves(w, ok);
    case CloseStop =>
    case CloseFlush => FlushConserves(w.(closer := if TryFlush(w.sink).1.Some? then Flushing else Returned), true);
  }

  lemma StepKeeps<E(!new)>(w: World<E>, s: Step<E>)
    requires Enabled(w, s) && Inv(w)
    ensures Inv(Next(w, s))
  {
    ConservedStep(w, s);
  }

  lemma RunInv<E(!new)>(run: seq<World<E>>, k: nat)
    requires IsRun(run) && k < |run|
    ensures Inv(run[k])
  {
    forall w: World<E> | Initial(w) ensures Inv(w) {
      assert Flatten(w.completed) + InFlight(w) + w.sink.buffer == [];
    }
    forall w: World<E>, w' | Inv(w) && Moves(w, w') ensures Inv(w') {
      var s :| Enabled(w, s) && w' == Next(w, s);
      StepKeeps(w, s);
    }
    Runs.InvariantHolds(Initial, Moves, Inv, run, k);
  }

  /**
   * In every interleaving, the completed batches in order, then the one in flight, then the buffer are
   * exactly the accepted events in the order they were accepted.
   */
  lemma EventsConserved<E(!new)>(run: seq<World<E>>, k: nat)
    requires IsRun(run) && k < |run|
    ensures Flatten(run[k].completed) + InFlight(run[k]) + run[k].sink.buffer == run[k].accepted
  {
    RunInv(run, k);
  }

  /**
   * A write is refused exactly once Close has begun. It takes the whole buffer, with the new event last,
   * out to be inserted exactly if that fills a batch and no other insert is in flight.
   */
  lemma WriteExact<E(!new)>(run: seq<World<E>>, k: nat, e: E)
    requires IsRun(run) && k < |run|
    ensures var w, w' := run[k], Next(run[k], WriteEvent(e)); var all := w.sink.buffer + [e];
            if !w.closer.NotClosed? then w' == w
            else
              && w'.accepted == w.accepted + [e]
              && (if w.inflight.None? && |all| >= w.sink.batchSize then w'.inflight == Some(all) && w'.sink.buffer == []
                  else w'.inflight == w.inflight && w'.sink.buffer == all)
  {
    RunInv(run, k);
  }

  /** A flush takes the whole buffer out to be inserted, unless it is empty or an insert is in flight. */
  lemma FlushExact<E(!new)>(run: seq<World<E>>, k: nat)
    requires IsRun(run) && k < |run|
    ensures var w, w' := run[k], Next(run[k], Flush);
            if w.inflight.None? && w.sink.buffer != [] then w'.inflight == Some(w.sink.buffer) && w'.sink.buffer == []
            else w'.inflight == w.inflight && w'.sink.buffer == w.sink.buffer
  {
    RunInv(run, k);
  }

  // --- Close ---

  /** Nothing is buffered or in flight any more, and nothing can be accepted. */
  ghost predicate Settled<E>(w: World<E>) {
    w.closer.Returned? && w.inflight.None? && w.sink.buffer == [] && w.sink.stopped
  }

  lemma {:induction false} CleanClose<E(!new)>(run: seq<World<E>>, j: nat, k: nat)
    requires IsRun(run) && j <= k < |run| && (run[j].closer.Flushing? || Settled(run[j]))
    ensures run[k].closer.Flushing? || Settled(run[k])
    ensures run[k].accepted == run[j].accepted
    decreases k
  {
    if j < k {
      CleanClose(run, j, k - 1);
      RunInv(run, k - 1);
      assert Runs.Follows(Moves, run, k - 1);
    }
  }

  /**
   * Close leaves every accepted event in a completed batch exactly when no insert was in flight at the
   * moment it took the lock to flush. Otherwise it returns at once with events still unwritten.
   */
  lemma CloseCompletes<E(!new)>(run: seq<World<E>>, j: nat, k: nat)
    requires IsRun(run) && j + 1 <= k < |run| && run[j].closer.StopSet? && !run[j + 1].closer.StopSet?
    ensures run[j].inflight.None? && run[k].closer.Returned? ==> Flatten(run[k].completed) == run[k].accepted
    ensures run[j].inflight.Some? ==>
              run[j + 1].closer.Returned? && Flatten(run[j + 1].completed) != run[j + 1].accepted
  {
    RunInv(run, j);
    RunInv(run, j + 1);
    assert Runs.Follows(Moves, run, j);
    if run[j].inflight.None? {
      CleanClose(run, j + 1, k);
      RunInv(run, k);
      if run[k].closer.Returned? {
        assert Flatten(run[k].completed) + [] + [] == Flatten(run[k].completed);
      }
    } else {
      var w := run[j + 1];
      assert |w.accepted| == |Flatten(w.completed)| + |InFlight(w)| + |w.sink.buffer|;
    }
  }

  /** An event written while another batch is being inserted can be left in the buffer for good by Close. */
  lemma LostOnClose<E(!new)>(a: E, b: E) returns (run: seq<World<E>>)
    ensures IsRun(run)
    ensures var w := run[|run| - 1];
            w.closer.Returned? && w.inflight.None? && w.sink.buffer == [b] && w.accepted == [a, b]
  {
    run := OneInFlight(a, b);
    run := Runs.Extend(Initial, Moves, run, Next(Runs.Last(run), CloseStop));
    run := Runs.Extend(Initial, Moves, run, Next(Runs.Last(run), CloseFlush));
    run := Runs.Extend(Initial, Moves, run, Next(Runs.Last(run), InsertDone(true)));
  }

  lemma OneInFlight<E(!new)>(a: E, b: E) returns (run: seq<World<E>>)
    ensures IsRun(run)
    ensures run[|run| - 1] == World(Sink([b], 1, false, true), Some([a]), false, [], [a, b], NotClosed)
  {
    run := [World(Sink([], 1, false, false), None, false, [], [], NotClosed)];
    run := Runs.Extend(Initial, Moves, run, Next(Runs.Last(run), WriteEvent(a)));
    assert [] + [a] == [a] && [a] + [b] == [a, b];
    assert run[|run| - 1] == World(Sink([], 1, false, true), Some([a]), false, [], [a], NotClosed);
    assert [] + [b] == [b];
    run := Runs.Extend(Initial, Moves, run, Next(Runs.Last(run), WriteEvent(b)));
  }
}
