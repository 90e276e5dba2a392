/** An actor's mailbox, shared by any number of senders, stoppers and one receiving loop. */
module Mailboxes {
  import opened Common
  import Runs

  /** The buffered channel, the `closed` flag, and whether the stop channel has been closed. */
  datatype Box<M> = Box(ch: seq<M>, capacity: nat, closed: bool, stopped: bool)

  function Put<M>(b: Box<M>, m: M): Box<M> {
    b.(ch := b.ch + [m])
  }

  function Rest<M>(b: Box<M>): Box<M>
    requires b.ch != []
  {
    b.(ch := b.ch[1..])
  }

  class Mailbox<M> {
    var ch: seq<M>
    const capacity: nat
    var closed: bool
    var stopped: bool

    ghost function Contents(): Box<M>
      reads this
    {
      Box(ch, capacity, closed, stopped)
    }

    constructor (size: int)
      ensures Contents() == Box([], if size <= 0 then 64 else size, false, false) && capacity > 0
    {
      ch, closed, stopped := [], false, false;
      capacity := if size <= 0 then 64 else size;
    }

    /** The send case of push's select; it is not ready while the channel is full. */
    method TrySend(m: M) returns (sent: bool)
      modifies this
      ensures sent <==> |old(ch)| < capacity
      ensures Contents() == if sent then Put(old(Contents()), m) else old(Contents())
    {
      sent := |ch| < capacity;
      if sent {
        ch := ch + [m];
      }
    }

    /** The receive case of next's selects; it is not ready while the channel is empty. */
    method TryReceive() returns (m: Option<M>)
      modifies this
      ensures m == if old(ch) == [] then None else Some(old(ch)[0])
      ensures Contents() == if m.Some? then Rest(old(Contents())) else old(Contents())
    {
      if ch == [] {
        return None;
      }
      m := Some(ch[0]);
      ch := ch[1..];
    }

    /** The compare-and-swap that decides which caller of stop goes on to close the stop channel. */
    method SwapClosed() returns (won: bool)
      modifies this
      ensures won == !old(closed) && Contents() == old(Contents()).(closed := true)
    {
      won := !closed;
      closed := true;
    }

    method CloseStop()
      modifies this
      ensures Contents() == old(Contents()).(stopped := true)
    {
      stopped := true;
    }
  }

  // --- Interleaved steps ---

  /** Where the actor's loop is: in next's outer select, in its drain select, handling a message, or gone. */
  datatype Loop<M> = Waiting | Draining | Handling(m: M) | Exited

  /** A push past the closed check, and the number of the step at which it began. */
  datatype Pending<M> = Pending(m: M, begun: nat)

  datatype World<M> = World(
    box: Box<M>,
    loop: Loop<M>,
    pushes: map<nat, Pending<M>>,
    clock: nat,
    stopAt: Option<nat>,             // when the closed flag was set
    accepted: seq<Pending<M>>,       // messages whose push returned nil, in order
    processed: seq<M>,
    exitAt: Option<nat>)             // how many messages had been accepted when the loop exited

  datatype Step<M> =
    | BeginPush(id: nat, m: M)       // load the flag; if set the push is refused here
    | Send(id: nat)
    | SeeStop(id: nat)               // the stop case of push's select
    | Cancel(id: nat)                // the context case
    | SetClosed
    | CloseStopChannel
    | Take                           // outer select, message case
    | NoticeStop                     // outer select, stop case
    | DrainTake                      // inner select, message case
    | DrainExit                      // inner select, default case
    | Handled

  ghost predicate Enabled<M>(w: World<M>, s: Step<M>) {
    match s
    case BeginPush(id, _) => id !in w.pushes
    case Send(id) => id in w.pushes && |w.box.ch| < w.box.capacity
    case SeeStop(id) => id in w.pushes && w.box.stopped
    case Cancel(id) => id in w.pushes
    case SetClosed => !w.box.closed
    case CloseStopChannel => w.box.closed && !w.box.stopped
    case Take => w.loop.Waiting? && w.box.ch != []
    case NoticeStop => w.loop.Waiting? && w.box.stopped
    case DrainTake => w.loop.Draining? && w.box.ch != []
    case DrainExit => w.loop.Draining? && w.box.ch == []
    case Handled => w.loop.Handling?
  }

  ghost function Next<M>(w0: World<M>, s: Step<M>): World<M>
    requires Enabled(w0, s)
  {
    var w := w0.(clock := w0.clock + 1);
    match s
    case BeginPush(id, m) => if w.box.closed then w else w.(pushes := w.pushes[id := Pending(m, w0.clock)])
    case Send(id) =>
      w.(box := Put(w.box, w.pushes[id].m), accepted := w.accepted + [w.pushes[id]], pushes := w.pushes - {id})
    case SeeStop(id) => w.(pushes := w.pushes - {id})
    case Cancel(id) => w.(pushes := w.pushes - {id})
    case SetClosed => w.(box := w.box.(closed := true), stopAt := Some(w0.clock))
    case CloseStopChannel => w.(box := w.box.(stopped := true))
    case Take => w.(box := Rest(w.box), loop := Handling(w.box.ch[0]))
    case NoticeStop => w.(loop := Draining)
    case DrainTake => w.(box := Rest(w.box), loop := Handling(w.box.ch[0]))
    case DrainExit => w.(loop := Exited, exitAt := Some(|w.accepted|))
    case Handled => w.(loop := Waiting, processed := w.processed + [w.loop.m])
  }

  ghost predicate Initial<M>(w: World<M>) {
    exists size: nat :: size > 0 && w == World(Box([], size, false, false), Waiting, map[], 0, None, [], [], None)
  }

  ghost predicate Moves<M(!new)>(w: World<M>, w': World<M>) {
    exists s :: Enabled(w, s) && w' == Next(w, s)
  }

  ghost predicate IsRun<M(!new)>(run: seq<World<M>>) {
    Runs.IsRun(Initial, Moves, run)
  }

  // --- Invariant ---

  function Messages<M>(s: seq<Pending<M>>): (r: seq<M>)
    ensures |r| == |s| && forall i :: 0 <= i < |s| ==> r[i] == s[i].m
  {
    seq(|s|, i requires 0 <= i < |s| => s[i].m)
  }

  function InHand<M>(w: World<M>): seq<M> {
    if w.loop.Handling? then [w.loop.m] else []
  }

  /** Nothing is lost or reordered: what was accepted is what was processed, is in hand, or is queued. */
  ghost predicate Conserved<M>(w: World<M>) {
    Messages(w.accepted) == w.processed + InHand(w) + w.box.ch
  }

  ghost predicate Inv<M>(w: World<M>) {
    && Conserved(w)
    && |w.box.ch| <= w.box.capacity && (w.box.stopped ==> w.box.closed)
    && (w.box.closed <==> w.stopAt.Some?) && (w.stopAt.Some? ==> w.stopAt.value < w.clock)
    && (w.loop.Draining? || w.loop.Exited? ==> w.box.stopped)
    && (w.loop.Exited? <==> w.exitAt.Some?)
    && (w.exitAt.Some? ==> w.exitAt.value == |w.processed|)
    && (forall id :: id in w.pushes ==> BegunInTime(w, w.pushes[id]))
    && (forall i :: 0 <= i < |w.accepted| ==> BegunInTime(w, w.accepted[i]))
  }

  ghost predicate BegunInTime<M>(w: World<M>, p: Pending<M>) {
    p.begun < w.clock && (w.stopAt.Some? ==> p.begun < w.stopAt.value)
  }

  lemma ConservedStep<M(!new)>(w: World<M>, s: Step<M>)
    requires Enabled(w, s) && Conserved(w)
    ensures Conserved(Next(w, s))
  {
    var w' := Next(w, s);
    match s
    case Send(id) =>
      SentMessages(w.accepted, w.pushes[id]);
      Reassociate(w.processed + InHand(w), w.box.ch, [w.pushes[id].m]);
    case Take => TakeHead(w.processed, w.box.ch);
    case DrainTake => TakeHead(w.processed, w.box.ch);
    case Handled => Reassociate(w.processed, [w.loop.m], []);
    case _ =>
  }

  lemma SentMessages<M>(s: seq<Pending<M>>, p: Pending<M>)
    ensures Messages(s + [p]) == Messages(s) + [p.m]
  {
  }

  lemma Reassociate<M>(a: seq<M>, b: seq<M>, c: seq<M>)
    ensures (a + b) + c == a + (b + c)
  {
  }

  lemma TakeHead<M>(a: seq<M>, ch: seq<M>)
    requires ch != []
    ensures a + [] + ch == a + [ch[0]] + ch[1..]
  {
  }

  lemma StepKeeps<M(!new)>(w: World<M>, s: Step<M>)
    requires Enabled(w, s) && Inv(w)
    ensures Inv(Next(w, s))
  {
    ConservedStep(w, s);
    if s.DrainExit? {
      assert w.processed + [] + [] == w.processed;
    }
  }

  lemma RunInv<M(!new)>(run: seq<World<M>>, k: nat)
    requires IsRun(run) && k < |run|
    ensures Inv(run[k])
  {
    forall w: World<M>, w' | Inv(w) && Moves(w, w') ensures Inv(w') {
      var s :| Enabled(w, s) && w' == Next(w, s);
      StepKeeps(w, s);
    }
    Runs.InvariantHolds(Initial, Moves, Inv, run, k);
  }

  // --- Theorems ---

  /** While the loop runs, accepted messages are processed once each and in order; the rest are queued. */
  lemma FifoWhileRunning<M(!new)>(run: seq<World<M>>, k: nat)
    requires IsRun(run) && k < |run|
    ensures var w := run[k]; w.processed + InHand(w) + w.box.ch == Messages(w.accepted)
    ensures |run[k].box.ch| <= run[k].box.capacity
  {
    RunInv(run, k);
  }

  /**
   * Once the loop has exited, the messages processed are exactly those accepted before the exit: message
   * `i` has been processed if and only if its push was accepted before the loop exited.
   */
  lemma ProcessedIffAcceptedBeforeExit<M(!new)>(run: seq<World<M>>, k: nat)
    requires IsRun(run) && k < |run| && run[k].loop.Exited?
    ensures var w := run[k];
            && w.exitAt.Some? && w.exitAt.value <= |w.accepted|
            && w.processed == Messages(w.accepted)[..w.exitAt.value]
            && w.box.ch == Messages(w.accepted)[w.exitAt.value..]
  {
    RunInv(run, k);
  }

  lemma {:induction false} LoopStaysExited<M(!new)>(run: seq<World<M>>, j: nat, k: nat)
    requires IsRun(run) && j <= k < |run| && run[j].loop.Exited?
    ensures run[k].loop.Exited? && run[k].processed == run[j].processed && run[k].exitAt == run[j].exitAt
    decreases k
  {
    if j < k {
      LoopStaysExited(run, j, k - 1);
      assert Runs.Follows(Moves, run, k - 1);
    }
  }

  /** Every message accepted by the time the loop exits is processed, and nothing after that ever is. */
  lemma DrainedAtExit<M(!new)>(run: seq<World<M>>, j: nat, k: nat)
    requires IsRun(run) && j + 1 <= k < |run| && !run[j].loop.Exited? && run[j + 1].loop.Exited?
    ensures run[j + 1].box.ch == [] && run[k].processed == Messages(run[j].accepted)
  {
    assert Runs.Follows(Moves, run, j);
    RunInv(run, j);
    assert run[j].processed + [] + [] == run[j].processed;
    LoopStaysExited(run, j + 1, k);
  }

  lemma {:induction false} AcceptedGrows<M(!new)>(run: seq<World<M>>, j: nat, k: nat)
    requires IsRun(run) && j <= k < |run| && !run[j].box.closed
    ensures run[j].accepted <= run[k].accepted
    ensures run[k].exitAt.Some? ==> |run[j].accepted| <= run[k].exitAt.value
    decreases k
  {
    if j < k {
      AcceptedGrows(run, j, k - 1);
      assert Runs.Follows(Moves, run, k - 1);
    } else {
      RunInv(run, j);
    }
  }

  /** What a sender can rely on: a message accepted before stop sets the flag is processed by the time the loop exits. */
  lemma AcceptedBeforeStopProcessed<M(!new)>(run: seq<World<M>>, j: nat, k: nat, i: nat)
    requires IsRun(run) && j <= k < |run| && !run[j].box.closed && i < |run[j].accepted| && run[k].loop.Exited?
    ensures i < |run[k].processed| && run[k].processed[i] == run[j].accepted[i].m
  {
    AcceptedGrows(run, j, k);
    ProcessedIffAcceptedBeforeExit(run, k);
  }

  /**
   * When a push gets through: it is refused at once exactly if the flag is set, and one that is under way
   * can be accepted exactly while there is room, whatever else is going on.
   */
  lemma PushExact<M(!new)>(run: seq<World<M>>, k: nat, id: nat, m: M)
    requires IsRun(run) && k < |run| && id !in run[k].pushes
    ensures var w := run[k]; var w' := Next(w, BeginPush(id, m));
            if w.stopAt.Some? then w'.pushes == w.pushes && w'.accepted == w.accepted
            else
              && id in w'.pushes && w'.pushes[id].m == m
              && (Enabled(w', Send(id)) <==> |w.box.ch| < w.box.capacity)
              && (|w.box.ch| < w.box.capacity ==> Messages(Next(w', Send(id)).accepted) == Messages(w.accepted) + [m])
  {
    RunInv(run, k);
  }

  /** A push begun after stop set the closed flag is never accepted. */
  lemma PushAfterStopRefused<M(!new)>(run: seq<World<M>>, k: nat, i: nat)
    requires IsRun(run) && k < |run| && i < |run[k].accepted| && run[k].stopAt.Some?
    ensures run[k].accepted[i].begun < run[k].stopAt.value
  {
    RunInv(run, k);
  }

  /**
   * Acceptance alone does not mean processing: a push that passed the closed check before stop can still
   * be accepted after the loop has gone, and its message stays in the channel for good.
   */
  lemma AcceptedButLost<M(!new)>(m: M) returns (run: seq<World<M>>)
    ensures IsRun(run)
    ensures var w := run[|run| - 1]; w.loop.Exited? && w.processed == [] && Messages(w.accepted) == [m] == w.box.ch
  {
    run := [World(Box([], 1, false, false), Waiting, map[], 0, None, [], [], None)];
    run := Runs.Extend(Initial, Moves, run, Next(Runs.Last(run), BeginPush(0, m)));
    run := Runs.Extend(Initial, Moves, run, Next(Runs.Last(run), SetClosed));
    run := Runs.Extend(Initial, Moves, run, Next(Runs.Last(run), CloseStopChannel));
    run := Runs.Extend(Initial, Moves, run, Next(Runs.Last(run), NoticeStop));
    run := Runs.Extend(Initial, Moves, run, Next(Runs.Last(run), DrainExit));
    run := Runs.Extend(Initial, Moves, run, Next(Runs.Last(run), Send(0)));
  }
}
