/** The table of running actors: spawning, stopping and shutting the system down. */
module ActorSystems {
  import opened Common
  import opened Seqs
  import Runs

  datatype AddError = SystemStopped | AlreadyExists

  type Pid = string

  class System {
    var actors: map<Pid, nat>        // cells are known by number
    var stopped: bool

    constructor ()
      ensures actors == map[] && !stopped
    {
      actors, stopped := map[], false;
    }

    /** Registers a cell; the check of `stopped` and the insertion happen under one lock. */
    method Add(pid: Pid, cell: nat) returns (err: Option<AddError>)
      modifies this
      ensures err == AddResult(old(actors), old(stopped), pid)
      ensures err.None? <==> !old(stopped) && pid !in old(actors)
      ensures err == Some(SystemStopped) <==> old(stopped)
      ensures actors == (if err.None? then old(actors)[pid := cell] else old(actors)) && stopped == old(stopped)
    {
      if stopped {
        return Some(SystemStopped);
      }
      if pid in actors {
        return Some(AlreadyExists);
      }
      actors := actors[pid := cell];
      return None;
    }

    /** Deletes whatever is registered under `pid`. */
    method Remove(pid: Pid)
      modifies this
      ensures actors == old(actors) - {pid} && stopped == old(stopped)
    {
      actors := actors - {pid};
    }

    method Get(pid: Pid) returns (cell: Option<nat>)
      ensures cell == if pid in actors then Some(actors[pid]) else None
    {
      cell := if pid in actors then Some(actors[pid]) else None;
    }

    /** The registered cells, in any map iteration order; none twice if no cell has two names. */
    method All() returns (cells: seq<nat>)
      ensures |cells| == |actors| && Elems(cells) == actors.Values
      ensures OneNameEach(actors) ==> NoDup(cells)
    {
      cells := [];
      var todo := actors.Keys;
      while todo != {}
        invariant todo <= actors.Keys && |cells| + |todo| == |actors.Keys|
        invariant forall c :: c in cells <==> exists p :: p in actors && p !in todo && actors[p] == c
        invariant OneNameEach(actors) ==> NoDup(cells)
      {
        var pid :| pid in todo;                       // any map iteration order
        ghost var before := cells;
        assert OneNameEach(actors) ==> actors[pid] !in before;
        cells := cells + [actors[pid]];
        todo := todo - {pid};
        forall c ensures c in cells <==> exists p :: p in actors && p !in todo && actors[p] == c {
          assert c in cells <==> c in before || c == actors[pid];
        }
      }
    }

    /** The compare-and-swap that lets one caller of Shutdown go on. */
    method SwapStopped() returns (won: bool)
      modifies this
      ensures won == !old(stopped) && stopped && actors == old(actors)
    {
      won := !stopped;
      stopped := true;
    }
  }

  ghost predicate OneNameEach(actors: map<Pid, nat>) {
    forall p, q :: p in actors && q in actors && actors[p] == actors[q] ==> p == q
  }

  function AddResult(actors: map<Pid, nat>, stopped: bool, pid: Pid): Option<AddError> {
    if stopped then Some(SystemStopped) else if pid in actors then Some(AlreadyExists) else None
  }

  // --- Interleaved steps ---

  /**
   * One actor. Its stop runs in three steps, taken by whichever caller won the swap: set the flag, remove
   * the name from the table, close the mailbox. The goroutine finishes only once its mailbox is closed.
   */
  datatype Cell = Cell(pid: Pid, registered: bool, started: bool, flagged: bool, removed: bool, closed: bool, done: bool)

  datatype Shutdown = NotCalled | FlagSet | Waiting(snapshot: set<nat>) | Returned(snapshot: set<nat>)

  /**
   * `adding` is the cell whose Spawn holds the table's lock, between the checks of add and its insertion;
   * `early` counts the calls of Shutdown that lost the swap and have returned.
   */
  datatype World = World(
    actors: map<Pid, nat>,
    stopped: bool,
    cells: map<nat, Cell>,
    adding: Option<nat>,
    shutdown: Shutdown,
    early: nat)

  datatype Step =
    | Create(c: nat, pid: Pid)       // Spawn builds a cell
    | Check(c: nat)                  // Spawn's add takes the lock and checks flag and name
    | Insert(c: nat)                 // add inserts and releases the lock
    | Launch(c: nat)                 // Spawn starts the goroutine
    | Flag(c: nat)                   // some caller of the cell's stop wins the swap
    | Unlist(c: nat)                 // that caller removes the name
    | CloseMailbox(c: nat)           // that caller stops the mailbox
    | Finish(c: nat)                 // the goroutine returns
    | SetStopped                     // Shutdown wins its swap
    | LoseSwap                       // another Shutdown finds the flag set and returns
    | TakeSnapshot
    | Return

  ghost predicate Enabled(w: World, s: Step) {
    match s
    case Create(c, _) => c !in w.cells
    case Check(c) => w.adding.None? && c in w.cells && !w.cells[c].registered
    case Insert(c) => w.adding == Some(c) && c in w.cells
    case Launch(c) => c in w.cells && w.cells[c].registered && !w.cells[c].started
    case Flag(c) => c in w.cells && w.cells[c].registered && !w.cells[c].flagged
    case Unlist(c) => w.adding.None? && c in w.cells && w.cells[c].flagged && !w.cells[c].removed
    case CloseMailbox(c) => c in w.cells && w.cells[c].removed && !w.cells[c].closed
    case Finish(c) => c in w.cells && w.cells[c].started && w.cells[c].closed && !w.cells[c].done
    case SetStopped => !w.stopped
    case LoseSwap => w.stopped
    case TakeSnapshot => w.adding.None? && w.shutdown.FlagSet?
    case Return => w.shutdown.Waiting? && forall c :: c in w.shutdown.snapshot ==> c in w.cells && w.cells[c].done
  }

  ghost function Next(w: World, s: Step): World
    requires Enabled(w, s)
  {
    match s
    case Create(c, pid) => w.(cells := w.cells[c := Cell(pid, false, false, false, false, false, false)])
    case Check(c) =>
      if AddResult(w.actors, w.stopped, w.cells[c].pid).None? then w.(adding := Some(c)) else w.(cells := w.cells - {c})
    case Insert(c) =>
      w.(adding := None, actors := w.actors[w.cells[c].pid := c], cells := w.cells[c := w.cells[c].(registered := true)])
    case Launch(c) => w.(cells := w.cells[c := w.cells[c].(started := true)])
    case Flag(c) => w.(cells := w.cells[c := w.cells[c].(flagged := true)])
    case Unlist(c) => w.(actors := w.actors - {w.cells[c].pid}, cells := w.cells[c := w.cells[c].(removed := true)])
    case CloseMailbox(c) => w.(cells := w.cells[c := w.cells[c].(closed := true)])
    case Finish(c) => w.(cells := w.cells[c := w.cells[c].(done := true)])
    case SetStopped => w.(stopped := true, shutdown := FlagSet)
    case LoseSwap => w.(early := w.early + 1)
    case TakeSnapshot => w.(shutdown := Waiting(w.actors.Values))
    case Return => w.(shutdown := Returned(w.shutdown.snapshot))
  }

  const START := World(map[], false, map[], None, NotCalled, 0)

  ghost predicate Moves(w: World, w': World) {
    exists s :: Enabled(w, s) && w' == Next(w, s)
  }

  ghost predicate IsStart(w: World) {
    w == START
  }

  ghost predicate IsRun(run: seq<World>) {
    Runs.IsRun(IsStart, Moves, run)
  }

  // --- Invariant ---

  /** A cell's life only moves forward. */
  predicate Orderly(c: Cell) {
    && (c.started ==> c.registered) && (c.flagged ==> c.registered)
    && (c.removed ==> c.flagged) && (c.closed ==> c.removed) && (c.done ==> c.closed)
  }

  /** Entry `p` of the table is a cell of that name between its registration and its removal. */
  predicate Current(w: World, p: Pid)
    requires p in w.actors
  {
    w.actors[p] in w.cells &&
    var c := w.cells[w.actors[p]]; c.pid == p && c.registered && !c.removed
  }

  /** A cell is in the table exactly from its registration to its own removal. */
  ghost predicate Listed(w: World) {
    && (forall p :: p in w.actors ==> Current(w, p))
    && (forall c :: c in w.cells && w.cells[c].registered && !w.cells[c].removed ==>
          w.cells[c].pid in w.actors && w.actors[w.cells[c].pid] == c)
  }

  /** The lock is held only for a cell not yet listed, under a free name, and before any snapshot. */
  ghost predicate LockOk(w: World) {
    w.adding.Some? ==>
      && w.adding.value in w.cells && !w.cells[w.adding.value].registered
      && w.cells[w.adding.value].pid !in w.actors && !Snapped(w)
  }

  predicate Snapped(w: World) {
    w.shutdown.Waiting? || w.shutdown.Returned?
  }

  ghost predicate SnapshotCovers(w: World) {
    && (w.shutdown.NotCalled? <==> !w.stopped)
    && (Snapped(w) ==> forall p :: p in w.actors ==> w.actors[p] in w.shutdown.snapshot)
    && (w.shutdown.Returned? ==> forall c :: c in w.shutdown.snapshot ==> c in w.cells && w.cells[c].done)
  }

  ghost predicate AllOrderly(w: World) {
    forall c :: c in w.cells ==> Orderly(w.cells[c])
  }

  ghost predicate Inv(w: World) {
    AllOrderly(w) && Listed(w) && LockOk(w) && SnapshotCovers(w)
  }

  lemma OrderlyStep(w: World, s: Step)
    requires Enabled(w, s) && AllOrderly(w) && LockOk(w)
    ensures AllOrderly(Next(w, s))
  {
  }

  lemma ListedStep(w: World, s: Step)
    requires Enabled(w, s) && Inv(w)
    ensures Listed(Next(w, s))
  {
    match s
    case Insert(c) => ListedInsert(w, c);
    case Unlist(c) => ListedUnlist(w, c);
    case _ =>
  }

  lemma ListedInsert(w: World, c: nat)
    requires Enabled(w, Insert(c)) && Listed(w) && LockOk(w) && AllOrderly(w)
    ensures Listed(Next(w, Insert(c)))
  {
  }

  lemma ListedUnlist(w: World, c: nat)
    requires Enabled(w, Unlist(c)) && Listed(w) && AllOrderly(w)
    ensures Listed(Next(w, Unlist(c)))
  {
  }

  lemma LockStep(w: World, s: Step)
    requires Enabled(w, s) && Inv(w)
    ensures LockOk(Next(w, s))
  {
  }

  lemma SnapshotStep(w: World, s: Step)
    requires Enabled(w, s) && Inv(w)
    ensures SnapshotCovers(Next(w, s))
  {
  }

  lemma StepKeeps(w: World, s: Step)
    requires Enabled(w, s) && Inv(w)
    ensures Inv(Next(w, s))
  {
    OrderlyStep(w, s);
    ListedStep(w, s);
    LockStep(w, s);
    SnapshotStep(w, s);
  }

  lemma RunInv(run: seq<World>, k: nat)
    requires IsRun(run) && k < |run|
    ensures Inv(run[k])
  {
    forall w: World, w' | Inv(w) && Moves(w, w') ensures Inv(w') {
      var s :| Enabled(w, s) && w' == Next(w, s);
      StepKeeps(w, s);
    }
    Runs.InvariantHolds(IsStart, Moves, Inv, run, k);
  }

  // --- Theorems ---

  /** Removing by name removes the cell that is stopping, never a later actor under the same name. */
  lemma StopRemovesItself(run: seq<World>, k: nat, c: nat)
    requires IsRun(run) && k < |run| && Enabled(run[k], Unlist(c))
    ensures var pid := run[k].cells[c].pid; pid in run[k].actors && run[k].actors[pid] == c
    ensures forall p :: p in run[k].actors && run[k].actors[p] != c ==>
              p in Next(run[k], Unlist(c)).actors && Next(run[k], Unlist(c)).actors[p] == run[k].actors[p]
  {
    RunInv(run, k);
  }

  /** No cell is in the table under two names, so a snapshot lists each registered cell once. */
  lemma CellsListedOnce(run: seq<World>, k: nat)
    requires IsRun(run) && k < |run|
    ensures OneNameEach(run[k].actors)
  {
    RunInv(run, k);
    forall p, q | p in run[k].actors && q in run[k].actors && run[k].actors[p] == run[k].actors[q] ensures p == q {
      assert Current(run[k], p) && Current(run[k], q);
    }
  }

  /** Spawn gets its name exactly if the system is not stopped and no live actor has it. */
  lemma SpawnExact(run: seq<World>, k: nat, c: nat)
    requires IsRun(run) && k < |run| && Enabled(run[k], Check(c))
    ensures var w := run[k]; Next(w, Check(c)).adding == Some(c) <==>
              !w.stopped && forall d :: d in w.cells && w.cells[d].registered && !w.cells[d].removed ==> w.cells[d].pid != w.cells[c].pid
    ensures var w := run[k]; Next(w, Check(c)).adding != Some(c) ==> Next(w, Check(c)) == w.(cells := w.cells - {c})
  {
    RunInv(run, k);
    var w, pid := run[k], run[k].cells[c].pid;
    if pid in w.actors {
      assert Current(w, pid);
    }
  }

  /** Shutdown's snapshot is exactly the live actors: registered and not yet removed. */
  lemma SnapshotExact(run: seq<World>, k: nat, c: nat)
    requires IsRun(run) && k < |run| && Enabled(run[k], TakeSnapshot)
    ensures var w := run[k]; var shutdown := Next(w, TakeSnapshot).shutdown;
            shutdown.Waiting? && (c in shutdown.snapshot <==> c in w.cells && w.cells[c].registered && !w.cells[c].removed)
  {
    RunInv(run, k);
    var w := run[k];
    if c in w.actors.Values {
      var p :| p in w.actors && w.actors[p] == c;
      assert Current(w, p);
    }
    if c in w.cells && w.cells[c].registered && !w.cells[c].removed {
      assert w.actors[w.cells[c].pid] == c && w.cells[c].pid in w.actors.Keys;
    }
  }

  /** At most one live actor answers to a name. */
  lemma NamesUnique(run: seq<World>, k: nat, c: nat, d: nat)
    requires IsRun(run) && k < |run| && c in run[k].cells && d in run[k].cells
    requires run[k].cells[c].registered && !run[k].cells[c].removed
    requires run[k].cells[d].registered && !run[k].cells[d].removed
    ensures run[k].cells[c].pid == run[k].cells[d].pid ==> c == d
  {
    RunInv(run, k);
  }

  /** Once Shutdown has taken its snapshot, no actor is ever registered again. */
  lemma {:induction false} TableShrinks(run: seq<World>, j: nat, k: nat)
    requires IsRun(run) && j <= k < |run| && Snapped(run[j])
    ensures Snapped(run[k]) && run[k].actors.Keys <= run[j].actors.Keys
    ensures forall p :: p in run[k].actors ==> run[k].actors[p] == run[j].actors[p]
    ensures run[j].shutdown.Returned? ==> run[k].shutdown.Returned?
    decreases k
  {
    if j < k {
      TableShrinks(run, j, k - 1);
      RunInv(run, k - 1);
      assert Runs.Follows(Moves, run, k - 1);
    }
  }

  /** When the Shutdown that won the swap has returned, the table is empty, and it stays empty. */
  lemma EmptyAfterShutdown(run: seq<World>, j: nat, k: nat)
    requires IsRun(run) && j <= k < |run| && run[j].shutdown.Returned?
    ensures run[k].actors == map[]
  {
    TableShrinks(run, j, k);
    RunInv(run, k);
    assert run[k].actors.Keys == {};
  }

  /**
   * The promise is only the winner's: a second Shutdown finds the flag set and returns at once, while
   * actors are still registered.
   */
  lemma SecondShutdownReturnsEarly(pid: Pid) returns (run: seq<World>)
    ensures IsRun(run)
    ensures var w := run[|run| - 1]; w.early == 1 && w.actors == map[pid := 0]
  {
    run := [START];
    run := Runs.Extend(IsStart, Moves, run, Next(Runs.Last(run), Create(0, pid)));
    run := Runs.Extend(IsStart, Moves, run, Next(Runs.Last(run), Check(0)));
    run := Runs.Extend(IsStart, Moves, run, Next(Runs.Last(run), Insert(0)));
    run := Runs.Extend(IsStart, Moves, run, Next(Runs.Last(run), SetStopped));
    run := Runs.Extend(IsStart, Moves, run, Next(Runs.Last(run), LoseSwap));
  }
}
