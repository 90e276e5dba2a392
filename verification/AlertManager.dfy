/** The alert manager: a bounded buffer that drops its oldest alert, a batching loop, and close. */
module AlertManagers {
  import opened Common
  import opened Seqs
  import Runs

  const BATCH: nat := 100

  /** An enabled manager: the channel, the loop's local batch, and the alerts handed to the channels. */
  class Manager<A> {
    var buffer: seq<A>
    const capacity: nat
    var closed: bool
    var batch: seq<A>
    var flushed: seq<A>

    ghost predicate Valid()
      reads this
    {
      0 < capacity && |buffer| <= capacity && |batch| < BATCH
    }

    constructor (bufferSize: int)
      ensures Valid() && capacity == (if bufferSize <= 0 then 1000 else bufferSize)
      ensures buffer == [] && !closed && batch == [] && flushed == []
    {
      capacity := if bufferSize <= 0 then 1000 else bufferSize;
      buffer, closed, batch, flushed := [], false, [], [];
    }

    /** Queue without interference: it always enqueues, dropping the oldest alert when full. */
    method Queue(alert: A)
      requires Valid()
      modifies this`buffer
      ensures Valid()
      ensures buffer == if old(closed) then old(buffer)
                        else (if |old(buffer)| < capacity then old(buffer) else old(buffer)[1..]) + [alert]
    {
      if closed {
        return;
      }
      if |buffer| < capacity {
        buffer := buffer + [alert];
      } else if buffer != [] {
        buffer := buffer[1..];
        buffer := buffer + [alert];
      }
    }

    method Flush(alerts: seq<A>)
      modifies this`flushed
      ensures flushed == old(flushed) + alerts
    {
      var i := 0;
      while i < |alerts|
        invariant 0 <= i <= |alerts| && flushed == old(flushed) + alerts[..i]
      {
        flushed := flushed + [alerts[i]];
        i := i + 1;
      }
      assert alerts[..i] == alerts;
    }

    /** The loop's message case. */
    method Receive()
      requires Valid() && buffer != []
      modifies this`buffer, this`batch, this`flushed
      ensures Valid() && buffer == old(buffer)[1..]
      ensures flushed + batch == old(flushed) + old(batch) + [old(buffer)[0]]
    {
      batch := batch + [buffer[0]];
      buffer := buffer[1..];
      if |batch| >= BATCH {
        Flush(batch);
        batch := [];
      }
    }

    method Tick()
      requires Valid()
      modifies this`batch, this`flushed
      ensures Valid() && batch == [] && flushed == old(flushed) + old(batch)
    {
      if |batch| > 0 {
        Flush(batch);
        batch := [];
      }
    }

    /** The loop's stop case: everything buffered goes out, in order, before the loop returns. */
    method Drain()
      requires Valid()
      modifies this`buffer, this`batch, this`flushed
      ensures Valid() && buffer == [] && batch == []
      ensures flushed == old(flushed) + old(batch) + old(buffer)
    {
      while buffer != []
        invariant Valid()
        invariant flushed + batch + buffer == old(flushed) + old(batch) + old(buffer)
        decreases |buffer|
      {
        ghost var f, b, q := flushed, batch, buffer;
        Receive();
        assert flushed + batch + buffer == f + b + q by {
          assert q == [q[0]] + q[1..];
        }
      }
      Tick();
    }
  }

  // --- Interleaved steps ---

  /** An alert that reached the buffer, numbered in the order of arrival. */
  datatype Item<A> = Item(ticket: nat, alert: A)

  /** Where a caller of Queue is, inside the read lock. */
  datatype Queuer<A> =
    | Trying(alert: A)               // at the first select
    | Full(alert: A)                 // saw the buffer full, at the inner select
    | Evicted(alert: A)              // took the oldest alert out, at the blocking send

  /** Where the loop is; while sending, `back` is where it goes on once the batch is out. */
  datatype Loop = Looping | Draining | Sending(back: Loop) | Exited

  datatype World<A> = World(
    buffer: seq<Item<A>>,
    capacity: nat,
    closed: bool,
    queuers: map<nat, Queuer<A>>,
    loop: Loop,
    batch: seq<Item<A>>,
    flushed: seq<Item<A>>,
    enqueued: seq<Item<A>>,
    evicted: set<nat>)

  datatype Step<A> =
    | Enter(id: nat, alert: A)       // take the read lock, check the flag
    | SendFirst(id: nat)
    | FindFull(id: nat)
    | Evict(id: nat)
    | GiveUp(id: nat)                // the inner select's default: the buffer has been emptied meanwhile
    | SendAfterEvict(id: nat)
    | Take
    | Ticked
    | SendOne                        // one alert of the batch handed to the channels
    | SendDone
    | NoticeStop
    | DrainEnd
    | SetClosed                      // Close, under the write lock

  ghost predicate Enabled<A>(w: World<A>, s: Step<A>) {
    match s
    case Enter(id, _) => id !in w.queuers
    case SendFirst(id) => id in w.queuers && w.queuers[id].Trying? && |w.buffer| < w.capacity
    case FindFull(id) => id in w.queuers && w.queuers[id].Trying? && |w.buffer| >= w.capacity
    case Evict(id) => id in w.queuers && w.queuers[id].Full? && w.buffer != []
    case GiveUp(id) => id in w.queuers && w.queuers[id].Full? && w.buffer == []
    case SendAfterEvict(id) => id in w.queuers && w.queuers[id].Evicted? && |w.buffer| < w.capacity
    case Take => (w.loop.Looping? || w.loop.Draining?) && w.buffer != []
    case Ticked => w.loop.Looping?
    case SendOne => w.loop.Sending? && w.batch != []
    case SendDone => w.loop.Sending? && w.batch == []
    case NoticeStop => w.loop.Looping? && w.closed
    case DrainEnd => w.loop.Draining? && w.buffer == []
    case SetClosed => !w.closed && w.queuers == map[]
  }

  /** The alert of caller `id` enters the buffer. */
  ghost function Sent<A>(w: World<A>, id: nat): World<A>
    requires id in w.queuers
  {
    var item := Item(|w.enqueued|, w.queuers[id].alert);
    w.(buffer := w.buffer + [item], enqueued := w.enqueued + [item], queuers := w.queuers - {id})
  }

  ghost function Next<A>(w: World<A>, s: Step<A>): World<A>
    requires Enabled(w, s)
  {
    match s
    case Enter(id, alert) => if w.closed then w else w.(queuers := w.queuers[id := Trying(alert)])
    case SendFirst(id) => Sent(w, id)
    case FindFull(id) => w.(queuers := w.queuers[id := Full(w.queuers[id].alert)])
    case Evict(id) =>
      w.(buffer := w.buffer[1..], evicted := w.evicted + {w.buffer[0].ticket},
         queuers := w.queuers[id := Evicted(w.queuers[id].alert)])
    case GiveUp(id) => w.(queuers := w.queuers - {id})
    case SendAfterEvict(id) => Sent(w, id)
    case Take =>
      (var t := w.(buffer := w.buffer[1..], batch := w.batch + [w.buffer[0]]);
       if |t.batch| >= BATCH then t.(loop := Sending(w.loop)) else t)
    case Ticked => if |w.batch| > 0 then w.(loop := Sending(Looping)) else w
    case SendOne => w.(flushed := w.flushed + [w.batch[0]], batch := w.batch[1..])
    case SendDone => w.(loop := w.loop.back)
    case NoticeStop => w.(loop := Draining)
    case DrainEnd => w.(loop := if |w.batch| > 0 then Sending(Exited) else Exited)
    case SetClosed => w.(closed := true)
  }

  ghost predicate Initial<A>(w: World<A>) {
    exists n: nat :: n > 0 && w == World([], n, false, map[], Looping, [], [], [], {})
  }

  ghost predicate Moves<A(!new)>(w: World<A>, w': World<A>) {
    exists s :: Enabled(w, s) && w' == Next(w, s)
  }

  ghost predicate IsRun<A(!new)>(run: seq<World<A>>) {
    Runs.IsRun(Initial, Moves, run)
  }

  // --- Conservation ---

  ghost function Kept<A>(evicted: set<nat>): Item<A> -> bool {
    (i: Item<A>) => i.ticket !in evicted
  }

  /** The alerts enqueued and not evicted, in order. */
  ghost function Surviving<A>(w: World<A>): seq<Item<A>> {
    Filter(w.enqueued, Kept(w.evicted))
  }

  ghost predicate Numbered<A>(w: World<A>) {
    && (forall i :: 0 <= i < |w.enqueued| ==> w.enqueued[i].ticket == i)
    && (forall t :: t in w.evicted ==> t < |w.enqueued|)
  }

  ghost predicate Conserved<A>(w: World<A>) {
    w.flushed + w.batch + w.buffer == Surviving(w)
  }

  ghost predicate LoopOk<A>(w: World<A>) {
    && |w.buffer| <= w.capacity
    && |w.batch| <= BATCH && (w.loop.Looping? || w.loop.Draining? ==> |w.batch| < BATCH)
    && (w.loop.Sending? ==> !w.loop.back.Sending?)
    && (w.loop.Draining? || w.loop.Exited? || (w.loop.Sending? && !w.loop.back.Looping?) ==> w.closed)
    && (w.loop.Exited? ==> w.batch == [])
    && (w.loop.Exited? || (w.loop.Sending? && w.loop.back.Exited?) ==> w.buffer == [])
    && (w.closed ==> w.queuers == map[])
  }

  ghost predicate Inv<A>(w: World<A>) {
    Numbered(w) && Conserved(w) && LoopOk(w)
  }

  lemma SentConserves<A(!new)>(w: World<A>, id: nat)
    requires id in w.queuers && Numbered(w) && Conserved(w)
    ensures Numbered(Sent(w, id)) && Conserved(Sent(w, id))
  {
    var item := Item(|w.enqueued|, w.queuers[id].alert);
    FilterAppend(w.enqueued, item, Kept(w.evicted));
    assert w.flushed + w.batch + (w.buffer + [item]) == (w.flushed + w.batch + w.buffer) + [item];
  }

  /** Dropping one item from a numbered sequence drops exactly that item from the filtered one. */
  lemma FilterWithout<A(!new)>(items: seq<Item<A>>, evicted: set<nat>, before: seq<Item<A>>, x: Item<A>,
                        after: seq<Item<A>>)
    requires forall i :: 0 <= i < |items| ==> items[i].ticket == i
    requires Filter(items, Kept(evicted)) == before + [x] + after
    ensures Filter(items, Kept(evicted + {x.ticket})) == before + after
    ensures x in items
  {
    FoundIn(items, evicted, before, x, after);
    WithoutAt(items[..x.ticket], x, items[x.ticket + 1..], evicted, before, after);
  }

  lemma FoundIn<A(!new)>(items: seq<Item<A>>, evicted: set<nat>, before: seq<Item<A>>, x: Item<A>, after: seq<Item<A>>)
    requires forall i :: 0 <= i < |items| ==> items[i].ticket == i
    requires Filter(items, Kept(evicted)) == before + [x] + after
    ensures x.ticket < |items| && x in items && items == items[..x.ticket] + [x] + items[x.ticket + 1..]
  {
    FilterMembers(items, Kept(evicted));
    assert (before + [x] + after)[|before|] == x;
    assert x in before + [x] + after;
    AtTicket(items, x);
  }

  lemma AtTicket<A(!new)>(items: seq<Item<A>>, x: Item<A>)
    requires (forall i :: 0 <= i < |items| ==> items[i].ticket == i) && x in items
    ensures x.ticket < |items| && items == items[..x.ticket] + [x] + items[x.ticket + 1..]
  {
  }

  lemma WithoutAt<A(!new)>(l: seq<Item<A>>, x: Item<A>, r: seq<Item<A>>, evicted: set<nat>, before: seq<Item<A>>,
                    after: seq<Item<A>>)
    requires Rising(l + [x] + r)
    requires Filter(l + [x] + r, Kept(evicted)) == before + [x] + after
    ensures Filter(l + [x] + r, Kept(evicted + {x.ticket})) == before + after
  {
    var keep := Kept<A>(evicted);
    FilterMembers(l + [x] + r, keep);
    assert (before + [x] + after)[|before|] == x;
    assert x in before + [x] + after;
    FilterAround(l, x, r, keep);
    SplitUnique(before, x, after, Filter(l, keep), Filter(r, keep), l + [x] + r, evicted);
    Others(l, x, r);
    EvictFrom(l, x, r, evicted);
  }

  lemma Others<A(!new)>(l: seq<Item<A>>, x: Item<A>, r: seq<Item<A>>)
    requires Rising(l + [x] + r)
    ensures forall i :: i in l || i in r ==> i.ticket != x.ticket
  {
    var s := l + [x] + r;
    assert s[|l|] == x;
    forall i | i in l || i in r ensures i.ticket != x.ticket {
      if i in l {
        var k :| 0 <= k < |l| && l[k] == i;
        assert s[k] == i;
      } else {
        var k :| 0 <= k < |r| && r[k] == i;
        assert s[|l| + 1 + k] == i;
      }
    }
  }

  lemma EvictFrom<A(!new)>(l: seq<Item<A>>, x: Item<A>, r: seq<Item<A>>, evicted: set<nat>)
    requires forall i :: i in l || i in r ==> i.ticket != x.ticket
    ensures Filter(l + [x] + r, Kept(evicted + {x.ticket})) == Filter(l, Kept(evicted)) + Filter(r, Kept(evicted))
  {
    var keep, keep' := Kept<A>(evicted), Kept<A>(evicted + {x.ticket});
    FilterAround(l, x, r, keep');
    Unaffected(l, x.ticket, evicted);
    Unaffected(r, x.ticket, evicted);
    assert Filter(l, keep) + [] + Filter(r, keep) == Filter(l, keep) + Filter(r, keep);
  }

  lemma Unaffected<A(!new)>(s: seq<Item<A>>, t: nat, evicted: set<nat>)
    requires forall i :: i in s ==> i.ticket != t
    ensures Filter(s, Kept(evicted + {t})) == Filter(s, Kept(evicted))
  {
    FilterSame(s, Kept(evicted), Kept(evicted + {t}));
  }

  /** Where an item stands in a filtered numbered sequence is fixed by its ticket. */
  lemma SplitUnique<A(!new)>(before: seq<Item<A>>, x: Item<A>, after: seq<Item<A>>, l: seq<Item<A>>, r: seq<Item<A>>,
                       items: seq<Item<A>>, evicted: set<nat>)
    requires Rising(items)
    requires Filter(items, Kept(evicted)) == before + [x] + after == l + [x] + r
    ensures before == l && after == r
  {
    Ascending(items, Kept(evicted));
    var f := Filter(items, Kept(evicted));
    assert f[|before|] == x && f[|l|] == x;
    assert |before| == |l|;
    assert before == f[..|before|] && l == f[..|l|];
    assert after == f[|before| + 1..] && r == f[|l| + 1..];
  }

  ghost predicate Rising<A>(items: seq<Item<A>>) {
    forall i, j :: 0 <= i < j < |items| ==> items[i].ticket < items[j].ticket
  }

  lemma {:induction false} Ascending<A(!new)>(items: seq<Item<A>>, keep: Item<A> -> bool)
    requires Rising(items)
    ensures Rising(Filter(items, keep))
  {
    if items != [] {
      Ascending(items[1..], keep);
      FilterMembers(items[1..], keep);
      var rest := Filter(items[1..], keep);
      forall x | x in rest ensures items[0].ticket < x.ticket {
        assert x in items[1..];
        var k :| 0 <= k < |items| - 1 && items[1..][k] == x;
        assert items[k + 1] == x;
      }
      forall j | 0 <= j < |rest| ensures items[0].ticket < rest[j].ticket {
        assert rest[j] in rest;
      }
    }
  }

  lemma EvictConserves<A(!new)>(w: World<A>, id: nat)
    requires Enabled(w, Evict(id)) && Numbered(w) && Conserved(w)
    ensures Numbered(Next(w, Evict(id))) && Conserved(Next(w, Evict(id)))
  {
    var x, before := w.buffer[0], w.flushed + w.batch;
    assert before + w.buffer == before + [x] + w.buffer[1..];
    FilterWithout(w.enqueued, w.evicted, before, x, w.buffer[1..]);
  }

  lemma ConservedStep<A(!new)>(w: World<A>, s: Step<A>)
    requires Enabled(w, s) && Numbered(w) && Conserved(w)
    ensures Numbered(Next(w, s)) && Conserved(Next(w, s))
  {
    match s
    case SendFirst(id) => SentConserves(w, id);
    case SendAfterEvict(id) => SentConserves(w, id);
    case Evict(id) => EvictConserves(w, id);
    case Take =>
      assert w.flushed + (w.batch + [w.buffer[0]]) + w.buffer[1..] == w.flushed + w.batch + w.buffer;
    case SendOne =>
      assert (w.flushed + [w.batch[0]]) + w.batch[1..] + w.buffer == w.flushed + w.batch + w.buffer;
    case _ =>
  }

  lemma StepKeeps<A(!new)>(w: World<A>, s: Step<A>)
    requires Enabled(w, s) && Inv(w)
    ensures Inv(Next(w, s))
  {
    ConservedStep(w, s);
  }

  lemma RunInv<A(!new)>(run: seq<World<A>>, k: nat)
    requires IsRun(run) && k < |run|
    ensures Inv(run[k])
  {
    forall w: World<A> | Initial(w) ensures Inv(w) {
      assert Filter([], Kept<A>({})) == [];
    }
    forall w: World<A>, w' | Inv(w) && Moves(w, w') ensures Inv(w') {
      var s :| Enabled(w, s) && w' == Next(w, s);
      StepKeeps(w, s);
    }
    Runs.InvariantHolds(Initial, Moves, Inv, run, k);
  }

  /**
   * In every interleaving, what has been flushed, then the batch, then the buffer are exactly the
   * enqueued alerts in order with the evicted ones left out; between rounds the batch is below 100.
   */
  lemma AlertsConserved<A(!new)>(run: seq<World<A>>, k: nat)
    requires IsRun(run) && k < |run|
    ensures run[k].flushed + run[k].batch + run[k].buffer == Surviving(run[k])
    ensures run[k].loop.Looping? || run[k].loop.Draining? ==> |run[k].batch| < 100
  {
    RunInv(run, k);
  }

  /** Close waits for the loop to exit; then every alert enqueued and not evicted was flushed once, in order. */
  lemma AllFlushedAfterClose<A(!new)>(run: seq<World<A>>, k: nat)
    requires IsRun(run) && k < |run| && run[k].loop.Exited?
    ensures run[k].batch == [] && run[k].buffer == [] && run[k].flushed == Surviving(run[k])
  {
    RunInv(run, k);
    assert run[k].flushed + [] + [] == run[k].flushed;
  }

  /** `n` alerts of the batch handed out, one by one. */
  ghost function SentOn<A>(w: World<A>, n: nat): (r: World<A>)
    requires w.loop.Sending? && n <= |w.batch|
    ensures r.loop == w.loop && |r.batch| == |w.batch| - n
    decreases n
  {
    if n == 0 then w else SentOn(Next(w, SendOne), n - 1)
  }

  lemma {:induction false} SentOnExact<A(!new)>(w: World<A>, n: nat)
    requires w.loop.Sending? && n <= |w.batch|
    ensures SentOn(w, n) == w.(flushed := w.flushed + w.batch[..n], batch := w.batch[n..])
    decreases n
  {
    if n == 0 {
      assert w.flushed + w.batch[..0] == w.flushed;
    } else {
      var w' := Next(w, SendOne);
      SentOnExact(w', n - 1);
      assert w.flushed + [w.batch[0]] + w'.batch[..n - 1] == w.flushed + w.batch[..n];
    }
  }

  /** A tick hands the whole batch out, in order, and the loop goes on with an empty one. */
  lemma TickFlushes<A(!new)>(w: World<A>)
    requires Enabled(w, Ticked) && w.batch != []
    ensures Next(w, Ticked).loop.Sending? && Next(w, Ticked).batch == w.batch
    ensures Next(SentOn(Next(w, Ticked), |w.batch|), SendDone) == w.(flushed := w.flushed + w.batch, batch := [])
  {
    var t := Next(w, Ticked);
    SentOnExact(t, |t.batch|);
    assert t.batch[..|t.batch|] == t.batch;
  }

  /** Taking an alert moves it to the batch; the hundredth starts handing the batch out. */
  lemma TakeExact<A(!new)>(run: seq<World<A>>, k: nat)
    requires IsRun(run) && k < |run| && Enabled(run[k], Take)
    ensures var w, w' := run[k], Next(run[k], Take);
            && w'.batch == w.batch + [w.buffer[0]] && w'.buffer == w.buffer[1..]
            && (if |w'.batch| == 100 then w'.loop == Sending(w.loop) else w'.loop == w.loop)
  {
    RunInv(run, k);
  }

  /** A call enqueues at once if there is room, gives up an older alert only after it saw the buffer full. */
  lemma QueueExact<A(!new)>(run: seq<World<A>>, k: nat, id: nat)
    requires IsRun(run) && k < |run| && id in run[k].queuers
    ensures var w := run[k];
            && |w.buffer| <= w.capacity
            && (Enabled(w, SendFirst(id)) <==> w.queuers[id].Trying? && |w.buffer| < w.capacity)
            && (Enabled(w, FindFull(id)) <==> w.queuers[id].Trying? && |w.buffer| == w.capacity)
            && (Enabled(w, Evict(id)) <==> w.queuers[id].Full? && w.buffer != [])
            && (Enabled(w, GiveUp(id)) <==> w.queuers[id].Full? && w.buffer == [])
            && (Enabled(w, SendAfterEvict(id)) <==> w.queuers[id].Evicted? && |w.buffer| < w.capacity)
  {
    RunInv(run, k);
  }

  /** The alert a full buffer gives up is the oldest in it. */
  lemma EvictsOldest<A(!new)>(run: seq<World<A>>, k: nat, id: nat)
    requires IsRun(run) && k < |run| && Enabled(run[k], Evict(id))
    ensures var w, w' := run[k], Next(run[k], Evict(id));
            exists x :: x in w.buffer && w'.evicted == w.evicted + {x.ticket}
              && forall y :: y in w'.buffer <==> y in w.buffer && x.ticket < y.ticket
  {
    RunInv(run, k);
    var w := run[k];
    Ascending(w.enqueued, Kept(w.evicted));
    SuffixRises(w.flushed + w.batch, w.buffer);
    OldestFirst(w.buffer);
  }

  lemma SuffixRises<A>(a: seq<Item<A>>, b: seq<Item<A>>)
    requires Rising(a + b)
    ensures Rising(b)
  {
    forall i, j | 0 <= i < j < |b| ensures b[i].ticket < b[j].ticket {
      assert (a + b)[|a| + i] == b[i] && (a + b)[|a| + j] == b[j];
    }
  }

  lemma OldestFirst<A(!new)>(b: seq<Item<A>>)
    requires Rising(b) && b != []
    ensures b[0] in b && forall y :: y in b[1..] <==> y in b && b[0].ticket < y.ticket
  {
    assert b == [b[0]] + b[1..];
  }

  /** Once closed, nothing is enqueued or evicted any more. */
  lemma {:induction false} QuietAfterClose<A(!new)>(run: seq<World<A>>, j: nat, k: nat)
    requires IsRun(run) && j <= k < |run| && run[j].closed
    ensures run[k].closed && run[k].enqueued == run[j].enqueued && run[k].evicted == run[j].evicted
    decreases k
  {
    if j < k {
      QuietAfterClose(run, j, k - 1);
      RunInv(run, k - 1);
      assert Runs.Follows(Moves, run, k - 1);
    }
  }

  /** A call of Queue gets past the closed check exactly if the manager is not closed, and then carries its own alert. */
  lemma EnterExact<A(!new)>(w: World<A>, id: nat, alert: A)
    requires Enabled(w, Enter(id, alert))
    ensures var w' := Next(w, Enter(id, alert));
            if w.closed then w' == w else id in w'.queuers && w'.queuers[id] == Trying(alert) && w'.buffer == w.buffer
  {
  }

  /**
   * A call of Queue that got past the closed check ends without its alert entering the buffer exactly
   * when it had seen the buffer full and then found it empty.
   */
  lemma LostIffEmptied<A(!new)>(run: seq<World<A>>, k: nat, id: nat)
    requires IsRun(run) && k + 1 < |run| && id in run[k].queuers && id !in run[k + 1].queuers
    ensures run[k + 1].enqueued == run[k].enqueued <==> run[k].queuers[id].Full? && run[k].buffer == []
    ensures run[k + 1].enqueued == run[k].enqueued ||
            run[k + 1].enqueued == run[k].enqueued + [Item(|run[k].enqueued|, run[k].queuers[id].alert)]
  {
    assert Runs.Follows(Moves, run, k);
  }

  /**
   * Queue does not always drop the oldest alert: if the loop empties the buffer between the two selects,
   * it is the new alert that is lost, with room to spare.
   */
  lemma NewestLost<A(!new)>(a: A, b: A) returns (run: seq<World<A>>)
    ensures IsRun(run)
    ensures var w := run[|run| - 1];
            !w.closed && w.queuers == map[] && w.buffer == [] && w.evicted == {} && w.enqueued == [Item(0, a)]
  {
    run := [World([], 1, false, map[], Looping, [], [], [], {})];
    run := Runs.Extend(Initial, Moves, run, Next(Runs.Last(run), Enter(0, a)));
    run := Runs.Extend(Initial, Moves, run, Next(Runs.Last(run), SendFirst(0)));
    assert var w := run[|run| - 1]; w.buffer == [Item(0, a)] && w.queuers == map[] && w.enqueued == [Item(0, a)];
    run := Runs.Extend(Initial, Moves, run, Next(Runs.Last(run), Enter(1, b)));
    run := Runs.Extend(Initial, Moves, run, Next(Runs.Last(run), FindFull(1)));
    run := Runs.Extend(Initial, Moves, run, Next(Runs.Last(run), Take));
    run := Runs.Extend(Initial, Moves, run, Next(Runs.Last(run), GiveUp(1)));
  }
}
