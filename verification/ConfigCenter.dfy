/** The config center's cache in front of a provider, kept in step by a queue of change events. */
module ConfigCenters {
  import opened Common
  import Runs

  const QUEUE: nat := 16

  type Key = string

  datatype Val = Val(value: seq<int>, version: int)

  datatype Change = SetTo(key: Key, val: Val) | Deleted(key: Key, version: int)

  datatype Entry = Entry(val: Val, expires: int)

  /** One namespace of the cache. */
  class ConfigCache {
    var cache: map<Key, Entry>
    const ttl: int

    constructor (ttl: int)
      ensures cache == map[] && this.ttl == ttl
    {
      this.ttl := ttl;
      cache := map[];
    }

    method GetFromCache(key: Key, now: int) returns (r: Option<Val>)
      ensures r == CacheRead(cache, key, now)
      ensures r.Some? <==> key in cache && now <= cache[key].expires
    {
      if key !in cache || now > cache[key].expires {
        return None;
      }
      r := Some(cache[key].val);
    }

    method SetCache(key: Key, val: Val, now: int)
      modifies this
      ensures cache == old(cache)[key := Entry(val, now + ttl)]
    {
      cache := cache[key := Entry(val, now + ttl)];
    }

    method DeleteCache(key: Key)
      modifies this
      ensures cache == old(cache) - {key}
    {
      if |cache| == 0 {
        assert cache - {key} == cache;
        return;
      }
      cache := cache - {key};
    }

    /** The cache half of handling a change event. */
    method HandleChange(change: Change, now: int)
      modifies this
      ensures cache == Applied(old(cache), change, now + ttl)
    {
      if change.Deleted? {
        DeleteCache(change.key);
      } else {
        SetCache(change.key, change.val, now);
      }
    }
  }

  /** One namespace of the in-memory provider, with the channel of its watcher. */
  class MemoryProvider {
    var data: map<Key, Val>
    var version: int
    var queue: seq<Change>

    constructor ()
      ensures data == map[] && version == 0 && queue == []
    {
      data, version, queue := map[], 0, [];
    }

    method Get(key: Key) returns (r: Option<Val>)
      ensures r == if key in data then Some(data[key]) else None
    {
      r := if key in data then Some(data[key]) else None;
    }

    /** Set up to the release of the lock. */
    method SetLocked(key: Key, value: seq<int>) returns (change: Change)
      modifies this
      ensures version == old(version) + 1 && queue == old(queue)
      ensures change == SetTo(key, Val(value, version)) && data == old(data)[key := change.val]
    {
      version := version + 1;
      change := SetTo(key, Val(value, version));
      data := data[key := change.val];
    }

    /** Delete up to the release of the lock; a missing key is an error and changes nothing. */
    method DeleteLocked(key: Key) returns (change: Option<Change>)
      modifies this
      ensures version == old(version) && queue == old(queue) && data == old(data) - {key}
      ensures change == if key in old(data) then Some(Deleted(key, 0)) else None
    {
      if key in data {
        data := data - {key};
        return Some(Deleted(key, 0));
      }
      assert data - {key} == data;
      change := None;
    }

    method Notify(change: Change)
      modifies this
      ensures data == old(data) && version == old(version)
      ensures queue == Offered(old(queue), change)
    {
      if |queue| < QUEUE {
        queue := queue + [change];
      }
    }
  }

  function CacheRead(cache: map<Key, Entry>, key: Key, now: int): Option<Val> {
    if key in cache && now <= cache[key].expires then Some(cache[key].val) else None
  }

  /** A full channel drops the event. */
  function Offered(queue: seq<Change>, change: Change): seq<Change> {
    if |queue| < QUEUE then queue + [change] else queue
  }

  function Applied(cache: map<Key, Entry>, change: Change, expires: int): map<Key, Entry> {
    if change.Deleted? then cache - {change.key} else cache[change.key := Entry(change.val, expires)]
  }

  // --- Interleaved steps ---

  /** A mutation in progress: data written, event not yet sent; or event sent, cache not yet updated. */
  datatype Mutator = Wrote(change: Change, ours: bool) | Notified(change: Change)

  /** A Get that has missed the cache and read the provider, but not yet filled the cache. */
  datatype Pending = Pending(key: Key, val: Val)

  datatype World = World(
    data: map<Key, Val>,
    version: int,
    queue: seq<Change>,
    hand: Option<Change>,            // the event the watcher has taken and is applying
    cache: map<Key, Entry>,
    mutators: map<nat, Mutator>,
    fills: map<nat, Pending>,
    ttl: int,
    clock: int,
    puts: map<Key, (Val, int)>)      // what was last put into the cache for a key, and when

  datatype Step =
    | WriteSet(id: nat, key: Key, value: seq<int>, ours: bool)   // `ours`: through this center rather than past it
    | WriteDelete(id: nat, key: Key, ours: bool)
    | Notify(id: nat)
    | UpdateCache(id: nat, now: int)
    | Dequeue
    | HandleEvent(now: int)
    | ReadProvider(id: nat, key: Key)
    | FillCache(id: nat, now: int)

  ghost predicate Enabled(w: World, s: Step) {
    match s
    case WriteSet(id, _, _, _) => id !in w.mutators
    case WriteDelete(id, key, _) => id !in w.mutators && key in w.data
    case Notify(id) => id in w.mutators && w.mutators[id].Wrote?
    case UpdateCache(id, now) => w.clock <= now && id in w.mutators && w.mutators[id].Notified?
    case Dequeue => w.hand.None? && w.queue != []
    case HandleEvent(now) => w.clock <= now && w.hand.Some?
    case ReadProvider(id, key) => id !in w.fills && key in w.data
    case FillCache(id, now) => w.clock <= now && id in w.fills
  }

  /** The cache brought in line with a change, at time `now`. */
  function Put(w: World, change: Change, now: int): World {
    w.(cache := Applied(w.cache, change, now + w.ttl), clock := now,
       puts := if change.Deleted? then w.puts - {change.key} else w.puts[change.key := (change.val, now)])
  }

  ghost function Next(w: World, s: Step): World
    requires Enabled(w, s)
  {
    match s
    case WriteSet(id, key, value, ours) =>
      (var val := Val(value, w.version + 1);
       w.(data := w.data[key := val], version := w.version + 1, mutators := w.mutators[id := Wrote(SetTo(key, val), ours)]))
    case WriteDelete(id, key, ours) =>
      w.(data := w.data - {key}, mutators := w.mutators[id := Wrote(Deleted(key, 0), ours)])
    case Notify(id) =>
      w.(queue := Offered(w.queue, w.mutators[id].change),
         mutators := if w.mutators[id].ours then w.mutators[id := Notified(w.mutators[id].change)] else w.mutators - {id})
    case UpdateCache(id, now) =>
      Put(w, w.mutators[id].change, now).(mutators := w.mutators - {id})
    case Dequeue => w.(hand := Some(w.queue[0]), queue := w.queue[1..])
    case HandleEvent(now) => Put(w, w.hand.value, now).(hand := None)
    case ReadProvider(id, key) => w.(fills := w.fills[id := Pending(key, w.data[key])])
    case FillCache(id, now) =>
      Put(w, SetTo(w.fills[id].key, w.fills[id].val), now).(fills := w.fills - {id})
  }

  ghost predicate Moves(w: World, w': World) {
    exists s :: Enabled(w, s) && w' == Next(w, s)
  }

  /**
   * No event is dropped, and no key is written while another mutation of it is under way or a Get that
   * missed on it is still to fill the cache.
   */
  ghost predicate Calm(w: World, s: Step) {
    && (s.Notify? ==> |w.queue| < QUEUE)
    && (s.WriteSet? || s.WriteDelete? ==>
          && (forall id :: id in w.mutators ==> w.mutators[id].change.key != s.key)
          && (forall id :: id in w.fills ==> w.fills[id].key != s.key))
  }

  /**
   * What a step has to meet to leave every key coherent. Only three steps can do harm: an event that is
   * outdated when it is queued, or dropped while it is needed; a cache update that comes too late; and
   * a fill with a value no longer current. An event still on its way makes up for the last two.
   */
  ghost predicate Harmless(w: World, s: Step)
    requires Enabled(w, s)
  {
    match s
    case Notify(id) =>
      (var c := w.mutators[id].change;
       WritingBesides(w, id, c.key) || (if |w.queue| < QUEUE then Truthful(w.data, c) else Settled(w, c.key)))
    case UpdateCache(id, _) =>
      (var c := w.mutators[id].change;
       OnItsWay(w, c.key) || c.Deleted? || Truthful(w.data, c))
    case FillCache(id, _) =>
      (var key := w.fills[id].key;
       OnItsWay(w, key) || (key in w.data && w.data[key] == w.fills[id].val))
    case _ => true
  }

  ghost predicate HarmlessMoves(w: World, w': World) {
    exists s :: Enabled(w, s) && Harmless(w, s) && w' == Next(w, s)
  }

  ghost predicate CalmMoves(w: World, w': World) {
    exists s :: Enabled(w, s) && Calm(w, s) && w' == Next(w, s)
  }

  const START := World(map[], 0, [], None, map[], map[], map[], 0, 0, map[])

  ghost predicate IsStart(w: World) {
    w == START.(ttl := w.ttl, clock := w.clock)
  }

  ghost predicate IsRun(run: seq<World>) {
    Runs.IsRun(IsStart, Moves, run)
  }

  ghost predicate IsCalmRun(run: seq<World>) {
    Runs.IsRun(IsStart, CalmMoves, run)
  }

  ghost predicate IsHarmlessRun(run: seq<World>) {
    Runs.IsRun(IsStart, HarmlessMoves, run)
  }

  // --- Coherence ---

  /** The events sent and not yet applied, oldest first: in hand and queued. */
  function Pipe(w: World): seq<Change> {
    (if w.hand.Some? then [w.hand.value] else []) + w.queue
  }

  /** Mutation `id` has written `key` and has yet to send its event. */
  predicate Unsent(w: World, id: nat, key: Key) {
    id in w.mutators && w.mutators[id].Wrote? && w.mutators[id].change.key == key
  }

  ghost predicate Writing(w: World, key: Key) {
    exists id :: Unsent(w, id, key)
  }

  ghost predicate WritingBesides(w: World, id: nat, key: Key) {
    exists j :: j != id && Unsent(w, j, key)
  }

  ghost predicate OnItsWay(w: World, key: Key) {
    Writing(w, key) || LastFor(Pipe(w), key).Some?
  }

  /** The last event for `key`, if any. */
  function LastFor(events: seq<Change>, key: Key): Option<Change> {
    if events == [] then None
    else if events[|events| - 1].key == key then Some(events[|events| - 1])
    else LastFor(events[..|events| - 1], key)
  }

  predicate Truthful(data: map<Key, Val>, change: Change) {
    if change.Deleted? then change.key !in data else change.key in data && data[change.key] == change.val
  }

  /** What the cache holds for `key`, if anything, is what the provider holds. */
  predicate Fresh(w: World, key: Key) {
    key in w.cache ==> key in w.data && w.cache[key].val == w.data[key]
  }

  /** The last event sent for `key` tells the provider's state or, if there is none, the cache does. */
  predicate Settled(w: World, key: Key) {
    var last := LastFor(Pipe(w), key);
    if last.Some? then Truthful(w.data, last.value) else Fresh(w, key)
  }

  ghost predicate Coherent(w: World, key: Key) {
    Writing(w, key) || Settled(w, key)
  }

  ghost predicate AllCoherent(w: World) {
    forall key :: Coherent(w, key)
  }

  ghost predicate MutatorsOk(w: World) {
    && (forall id :: id in w.mutators ==> Truthful(w.data, w.mutators[id].change))
    && (forall i, j :: i in w.mutators && j in w.mutators && w.mutators[i].change.key == w.mutators[j].change.key ==> i == j)
  }

  ghost predicate FillsOk(w: World) {
    forall id :: id in w.fills ==> w.fills[id].key in w.data && w.data[w.fills[id].key] == w.fills[id].val
  }

  ghost predicate Inv(w: World) {
    AllCoherent(w) && MutatorsOk(w) && FillsOk(w)
  }

  lemma {:induction false} LastForFacts(events: seq<Change>, key: Key)
    ensures LastFor(events, key).Some? <==> exists i :: 0 <= i < |events| && events[i].key == key
    ensures LastFor(events, key).Some? ==> LastFor(events, key).value.key == key
  {
    if events != [] {
      LastForFacts(events[..|events| - 1], key);
      if LastFor(events[..|events| - 1], key).Some? {
        var i :| 0 <= i < |events| - 1 && events[..|events| - 1][i].key == key;
        assert events[i].key == key;
      }
    }
  }

  lemma LastForAppend(events: seq<Change>, c: Change, key: Key)
    ensures LastFor(events + [c], key) == if c.key == key then Some(c) else LastFor(events, key)
  {
    assert (events + [c])[..|events + [c]| - 1] == events;
  }

  /** Taking the first event away matters only if it was the only one for the key. */
  lemma {:induction false} LastForRest(c: Change, events: seq<Change>, key: Key)
    ensures LastFor([c] + events, key) ==
            if LastFor(events, key).Some? then LastFor(events, key) else if c.key == key then Some(c) else None
  {
    var all := [c] + events;
    if events == [] {
      assert all[..|all| - 1] == [];
    } else {
      assert all[..|all| - 1] == [c] + events[..|events| - 1];
      LastForRest(c, events[..|events| - 1], key);
    }
  }

  lemma StillUnsent(w: World, w': World, key: Key)
    requires forall id :: Unsent(w, id, key) ==> Unsent(w', id, key)
    ensures Writing(w, key) ==> Writing(w', key)
  {
    if id :| Unsent(w, id, key) {
      assert Unsent(w', id, key);
    }
  }

  /** A step that leaves the provider, the cache and the events of `key` alone keeps it coherent. */
  lemma Untouched(w: World, w': World, key: Key)
    requires Coherent(w, key) && LastFor(Pipe(w'), key) == LastFor(Pipe(w), key)
    requires key in w'.data <==> key in w.data
    requires key in w.data ==> w'.data[key] == w.data[key]
    requires key in w'.cache <==> key in w.cache
    requires key in w.cache ==> w'.cache[key] == w.cache[key]
    requires forall id :: Unsent(w, id, key) ==> Unsent(w', id, key)
    ensures Coherent(w', key)
  {
    StillUnsent(w, w', key);
    LastForFacts(Pipe(w), key);
  }

  lemma WriteCoherent(w: World, s: Step, key: Key)
    requires Enabled(w, s) && (s.WriteSet? || s.WriteDelete?) && Coherent(w, key)
    ensures Coherent(Next(w, s), key)
  {
    var w' := Next(w, s);
    if key == s.key {
      assert Unsent(w', s.id, key);
    } else {
      Untouched(w, w', key);
    }
  }

  lemma SamePipe(w: World)
    requires Enabled(w, Dequeue)
    ensures Pipe(Next(w, Dequeue)) == Pipe(w)
  {
    assert w.queue == [w.queue[0]] + w.queue[1..];
  }

  /** Handling an event tells the cache what the last event for the key told, or leaves a later one to do so. */
  lemma HandleCoherent(w: World, now: int, key: Key)
    requires Enabled(w, HandleEvent(now)) && Coherent(w, key)
    ensures Coherent(Next(w, HandleEvent(now)), key)
  {
    var w' := Next(w, HandleEvent(now));
    var c := w.hand.value;
    assert Pipe(w) == [c] + Pipe(w');
    StillUnsent(w, w', key);
    LastForRest(c, Pipe(w'), key);
  }

  /** Only the key of the event being sent is at stake, and it stays coherent exactly if the step is harmless. */
  lemma NotifyExact(w: World, id: nat, key: Key)
    requires Enabled(w, Notify(id)) && Coherent(w, key)
    ensures Coherent(Next(w, Notify(id)), key) <==> (key == w.mutators[id].change.key ==> Harmless(w, Notify(id)))
  {
    var w', c := Next(w, Notify(id)), w.mutators[id].change;
    SentPipe(w, id, key);
    if key != c.key {
      Untouched(w, w', key);
    } else {
      assert forall j :: Unsent(w', j, key) <==> j != id && Unsent(w, j, key);
      assert Writing(w', key) <==> WritingBesides(w, id, key);
    }
  }

  lemma SentPipe(w: World, id: nat, key: Key)
    requires Enabled(w, Notify(id))
    ensures LastFor(Pipe(Next(w, Notify(id))), key) ==
            if |w.queue| < QUEUE && w.mutators[id].change.key == key then Some(w.mutators[id].change) else LastFor(Pipe(w), key)
  {
    if |w.queue| < QUEUE {
      assert Pipe(Next(w, Notify(id))) == Pipe(w) + [w.mutators[id].change];
      LastForAppend(Pipe(w), w.mutators[id].change, key);
    }
  }

  lemma UpdateExact(w: World, id: nat, now: int, key: Key)
    requires Enabled(w, UpdateCache(id, now)) && Coherent(w, key)
    ensures Coherent(Next(w, UpdateCache(id, now)), key) <==>
            (key == w.mutators[id].change.key ==> Harmless(w, UpdateCache(id, now)))
  {
    var w' := Next(w, UpdateCache(id, now));
    assert Pipe(w') == Pipe(w);
    StillUnsent(w, w', key);
    StillUnsent(w', w, key);
    LastForFacts(Pipe(w), key);
  }

  lemma FillExact(w: World, id: nat, now: int, key: Key)
    requires Enabled(w, FillCache(id, now)) && Coherent(w, key)
    ensures Coherent(Next(w, FillCache(id, now)), key) <==>
            (key == w.fills[id].key ==> Harmless(w, FillCache(id, now)))
  {
    var w' := Next(w, FillCache(id, now));
    assert Pipe(w') == Pipe(w);
    StillUnsent(w, w', key);
    StillUnsent(w', w, key);
  }

  /** The steps that never do harm. */
  lemma OtherSteps(w: World, s: Step, key: Key)
    requires Enabled(w, s) && !s.Notify? && !s.UpdateCache? && !s.FillCache? && Coherent(w, key)
    ensures Coherent(Next(w, s), key)
  {
    match s
    case WriteSet(_, _, _, _) => WriteCoherent(w, s, key);
    case WriteDelete(_, _, _) => WriteCoherent(w, s, key);
    case Dequeue =>
      SamePipe(w);
      Untouched(w, Next(w, s), key);
    case HandleEvent(now) => HandleCoherent(w, now, key);
    case ReadProvider(_, _) => Untouched(w, Next(w, s), key);
  }

  /** The key a step can leave incoherent, and whether it does. */
  lemma StepAt(w: World, s: Step, key: Key)
    requires Enabled(w, s) && Coherent(w, key)
    ensures Harmless(w, s) ==> Coherent(Next(w, s), key)
    ensures !Harmless(w, s) && key == AtStake(w, s) ==> !Coherent(Next(w, s), key)
  {
    match s
    case Notify(id) => NotifyExact(w, id, key);
    case UpdateCache(id, now) => UpdateExact(w, id, now, key);
    case FillCache(id, now) => FillExact(w, id, now, key);
    case _ => OtherSteps(w, s, key);
  }

  /** The key whose event, cache update or fill the step carries out. */
  ghost function AtStake(w: World, s: Step): Key
    requires Enabled(w, s)
  {
    match s
    case Notify(id) => w.mutators[id].change.key
    case UpdateCache(id, _) => w.mutators[id].change.key
    case FillCache(id, _) => w.fills[id].key
    case _ => ""
  }

  /** A step leaves every key coherent exactly if it is harmless. */
  lemma StepExact(w: World, s: Step)
    requires Enabled(w, s) && AllCoherent(w)
    ensures AllCoherent(Next(w, s)) <==> Harmless(w, s)
  {
    if Harmless(w, s) {
      forall key ensures Coherent(Next(w, s), key) {
        StepAt(w, s, key);
      }
    } else {
      StepAt(w, s, AtStake(w, s));
    }
  }

  // --- Calm steps are harmless ---

  lemma CalmIsHarmless(w: World, s: Step)
    requires Enabled(w, s) && Calm(w, s) && MutatorsOk(w) && FillsOk(w)
    ensures Harmless(w, s)
  {
  }

  lemma OthersKept(w: World, s: Step)
    requires Enabled(w, s) && Calm(w, s) && MutatorsOk(w) && FillsOk(w)
    ensures MutatorsOk(Next(w, s)) && FillsOk(Next(w, s))
  {
  }

  lemma StepKeeps(w: World, s: Step)
    requires Enabled(w, s) && Calm(w, s) && Inv(w)
    ensures Inv(Next(w, s))
  {
    CalmIsHarmless(w, s);
    StepExact(w, s);
    OthersKept(w, s);
  }

  lemma StartCoherent(w: World)
    requires IsStart(w)
    ensures AllCoherent(w)
  {
    assert forall key :: Settled(w, key);
  }

  lemma RunInv(run: seq<World>, k: nat)
    requires IsCalmRun(run) && k < |run|
    ensures Inv(run[k])
  {
    forall w | IsStart(w) ensures AllCoherent(w) {
      StartCoherent(w);
    }
    forall w, w' | Inv(w) && CalmMoves(w, w') ensures Inv(w') {
      var s :| Enabled(w, s) && Calm(w, s) && w' == Next(w, s);
      StepKeeps(w, s);
    }
    Runs.InvariantHolds(IsStart, CalmMoves, Inv, run, k);
  }

  // --- Theorems ---

  /** A run is coherent at every moment exactly if every step of it is harmless. */
  lemma CoherentIffHarmless(run: seq<World>)
    requires IsRun(run)
    ensures (forall k :: 0 <= k < |run| ==> AllCoherent(run[k])) <==> IsHarmlessRun(run)
  {
    if IsHarmlessRun(run) {
      forall k | 0 <= k < |run| ensures AllCoherent(run[k]) {
        HarmlessInv(run, k);
      }
    }
    if forall k :: 0 <= k < |run| ==> AllCoherent(run[k]) {
      forall k | 0 <= k < |run| - 1 ensures Runs.Follows(HarmlessMoves, run, k) {
        assert Runs.Follows(Moves, run, k);
        var s :| Enabled(run[k], s) && run[k + 1] == Next(run[k], s);
        assert AllCoherent(run[k]) && AllCoherent(run[k + 1]);
        StepExact(run[k], s);
      }
    }
  }

  lemma HarmlessInv(run: seq<World>, k: nat)
    requires IsHarmlessRun(run) && k < |run|
    ensures AllCoherent(run[k])
  {
    forall w | IsStart(w) ensures AllCoherent(w) {
      StartCoherent(w);
    }
    forall w, w' | AllCoherent(w) && HarmlessMoves(w, w') ensures AllCoherent(w') {
      var s :| Enabled(w, s) && Harmless(w, s) && w' == Next(w, s);
      StepExact(w, s);
    }
    Runs.InvariantHolds(IsStart, HarmlessMoves, AllCoherent, run, k);
  }

  /** Calm, which a caller can arrange, is enough: every calm run is harmless. */
  lemma CalmRunsAreHarmless(run: seq<World>)
    requires IsCalmRun(run)
    ensures IsHarmlessRun(run)
  {
    forall k | 0 <= k < |run| - 1 ensures Runs.Follows(HarmlessMoves, run, k) {
      assert Runs.Follows(CalmMoves, run, k);
      RunInv(run, k);
      var s :| Enabled(run[k], s) && Calm(run[k], s) && run[k + 1] == Next(run[k], s);
      CalmIsHarmless(run[k], s);
    }
  }

  /**
   * In every harmless run a stale read of `key` means that an event for that very key is still on its
   * way: yet to be sent, or sent, and then the last one sent tells the provider's state.
   */
  lemma StaleOnlyWhilePending(run: seq<World>, k: nat, key: Key, now: int)
    requires IsHarmlessRun(run) && k < |run| && CacheRead(run[k].cache, key, now).Some?
    requires key !in run[k].data || CacheRead(run[k].cache, key, now).value != run[k].data[key]
    ensures Writing(run[k], key) ||
            var last := LastFor(Pipe(run[k]), key); last.Some? && Truthful(run[k].data, last.value)
  {
    HarmlessInv(run, k);
    assert Coherent(run[k], key);
  }

  /** In a calm run an event still to be sent tells the provider's state, too. */
  lemma CalmEventsTruthful(run: seq<World>, k: nat, id: nat)
    requires IsCalmRun(run) && k < |run| && id in run[k].mutators
    ensures Truthful(run[k].data, run[k].mutators[id].change)
  {
    RunInv(run, k);
  }

  /** A read right after a change sees exactly it, until its time is up; other keys read as before. */
  lemma ReadAfterChange(cache: map<Key, Entry>, change: Change, t: int, ttl: int, key: Key, now: int)
    ensures CacheRead(Applied(cache, change, t + ttl), key, now) ==
            if key != change.key then CacheRead(cache, key, now)
            else if change.SetTo? && now <= t + ttl then Some(change.val) else None
  {
  }

  ghost predicate Stamped(w: World) {
    && w.cache.Keys == w.puts.Keys
    && forall key :: key in w.cache ==> w.cache[key] == Entry(w.puts[key].0, w.puts[key].1 + w.ttl)
  }

  lemma StampedStep(w: World, s: Step)
    requires Enabled(w, s) && Stamped(w)
    ensures Stamped(Next(w, s))
  {
  }

  /** In every run a read is served exactly what was last put into the cache, and only within the time to live. */
  lemma ServedWithinTtl(run: seq<World>, k: nat, key: Key, now: int)
    requires IsRun(run) && k < |run|
    ensures CacheRead(run[k].cache, key, now) ==
            if key in run[k].puts && now <= run[k].puts[key].1 + run[k].ttl then Some(run[k].puts[key].0) else None
  {
    forall w, w' | Stamped(w) && Moves(w, w') ensures Stamped(w') {
      var s :| Enabled(w, s) && w' == Next(w, s);
      StampedStep(w, s);
    }
    Runs.InvariantHolds(IsStart, Moves, Stamped, run, k);
  }

  /** Once the events are sent and handled, the whole cache agrees with the provider. */
  lemma QuietMeansFresh(run: seq<World>, k: nat, key: Key)
    requires IsHarmlessRun(run) && k < |run|
    requires Pipe(run[k]) == [] && forall id :: id in run[k].mutators ==> run[k].mutators[id].Notified?
    ensures Fresh(run[k], key)
  {
    HarmlessInv(run, k);
    assert Coherent(run[k], key);
  }

  /** Nothing is under way: no mutation, no event, no fill. */
  predicate Quiet(w: World) {
    w.mutators == map[] && Pipe(w) == [] && w.fills == map[]
  }

  /**
   * Without calm the promise fails: a Get that read the provider before a Set can fill the cache after
   * the Set's event was handled, and the old value then stays with nothing on its way to correct it.
   */
  lemma StaleFill(key: Key, old': seq<int>, new': seq<int>) returns (run: seq<World>)
    requires old' != new'
    ensures IsRun(run)
    ensures var w := run[|run| - 1];
            Quiet(w) && key in w.cache && w.cache[key].val.value == old' && key in w.data && w.data[key].value == new'
  {
    run := ReadThenSet(key, old', new');
    run := Runs.Extend(IsStart, Moves, run, Next(Runs.Last(run), Dequeue));
    run := Runs.Extend(IsStart, Moves, run, Next(Runs.Last(run), HandleEvent(0)));
    run := Runs.Extend(IsStart, Moves, run, Next(Runs.Last(run), FillCache(0, 0)));
  }

  lemma ReadThenSet(key: Key, old': seq<int>, new': seq<int>) returns (run: seq<World>)
    ensures IsRun(run)
    ensures var w := run[|run| - 1];
            && w.queue == [SetTo(key, Val(new', 2))] && w.hand.None? && w.mutators == map[] && w.clock == 0
            && w.data == map[key := Val(new', 2)] && w.fills == map[0 := Pending(key, Val(old', 1))]
  {
    run := SetAndHandle(key, old');
    run := Runs.Extend(IsStart, Moves, run, Next(Runs.Last(run), ReadProvider(0, key)));
    run := Runs.Extend(IsStart, Moves, run, Next(Runs.Last(run), WriteSet(0, key, new', false)));
    run := Runs.Extend(IsStart, Moves, run, Next(Runs.Last(run), Notify(0)));
  }

  /** One set, made past this center, whose event has been handled. */
  lemma SetAndHandle(key: Key, value: seq<int>) returns (run: seq<World>)
    ensures IsRun(run)
    ensures var w := run[|run| - 1]; Quiet(w) && w.data == map[key := Val(value, 1)] && w.version == 1 && w.clock == 0
  {
    run := [START];
    run := Runs.Extend(IsStart, Moves, run, Next(Runs.Last(run), WriteSet(0, key, value, false)));
    run := Runs.Extend(IsStart, Moves, run, Next(Runs.Last(run), Notify(0)));
    run := Runs.Extend(IsStart, Moves, run, Next(Runs.Last(run), Dequeue));
    run := Runs.Extend(IsStart, Moves, run, Next(Runs.Last(run), HandleEvent(0)));
  }

  /** Nor may two writers of one key overlap: their events can be sent in the opposite order. */
  lemma CrossedEvents(key: Key, first: seq<int>, second: seq<int>) returns (run: seq<World>)
    requires first != second
    ensures IsRun(run)
    ensures var w := run[|run| - 1];
            Quiet(w) && key in w.cache && w.cache[key].val.value == first && key in w.data && w.data[key].value == second
  {
    run := CrossedQueue(key, first, second);
    run := Runs.Extend(IsStart, Moves, run, Next(Runs.Last(run), Dequeue));
    run := Runs.Extend(IsStart, Moves, run, Next(Runs.Last(run), HandleEvent(0)));
    run := Runs.Extend(IsStart, Moves, run, Next(Runs.Last(run), Dequeue));
    run := Runs.Extend(IsStart, Moves, run, Next(Runs.Last(run), HandleEvent(0)));
  }

  lemma CrossedQueue(key: Key, first: seq<int>, second: seq<int>) returns (run: seq<World>)
    ensures IsRun(run)
    ensures var w := run[|run| - 1];
            && w.mutators == map[] && w.hand.None? && w.fills == map[] && w.data == map[key := Val(second, 2)]
            && w.queue == [SetTo(key, Val(second, 2)), SetTo(key, Val(first, 1))] && w.clock == 0
  {
    run := [START];
    run := Runs.Extend(IsStart, Moves, run, Next(Runs.Last(run), WriteSet(0, key, first, false)));
    run := Runs.Extend(IsStart, Moves, run, Next(Runs.Last(run), WriteSet(1, key, second, false)));
    run := Runs.Extend(IsStart, Moves, run, Next(Runs.Last(run), Notify(1)));
    run := Runs.Extend(IsStart, Moves, run, Next(Runs.Last(run), Notify(0)));
  }

  /** Nor may a key be written before an earlier mutation of it has updated the cache: its update comes last. */
  lemma LateUpdate(key: Key, first: seq<int>, second: seq<int>) returns (run: seq<World>)
    requires first != second
    ensures IsRun(run)
    ensures var w := run[|run| - 1];
            Quiet(w) && key in w.cache && w.cache[key].val.value == first && key in w.data && w.data[key].value == second
  {
    run := BothHandled(key, first, second);
    run := Runs.Extend(IsStart, Moves, run, Next(Runs.Last(run), UpdateCache(0, 0)));
  }

  lemma BothHandled(key: Key, first: seq<int>, second: seq<int>) returns (run: seq<World>)
    ensures IsRun(run)
    ensures var w := run[|run| - 1];
            && Pipe(w) == [] && w.fills == map[] && w.mutators == map[0 := Notified(SetTo(key, Val(first, 1)))]
            && key in w.data && w.data[key] == Val(second, 2) && w.clock == 0
  {
    run := BothQueued(key, first, second);
    run := Runs.Extend(IsStart, Moves, run, Next(Runs.Last(run), Dequeue));
    run := Runs.Extend(IsStart, Moves, run, Next(Runs.Last(run), HandleEvent(0)));
    run := Runs.Extend(IsStart, Moves, run, Next(Runs.Last(run), Dequeue));
    run := Runs.Extend(IsStart, Moves, run, Next(Runs.Last(run), HandleEvent(0)));
  }

  lemma BothQueued(key: Key, first: seq<int>, second: seq<int>) returns (run: seq<World>)
    ensures IsRun(run)
    ensures var w := run[|run| - 1];
            && w.queue == [SetTo(key, Val(first, 1)), SetTo(key, Val(second, 2))] && w.hand.None? && w.fills == map[]
            && w.mutators == map[0 := Notified(SetTo(key, Val(first, 1)))] && w.data == map[key := Val(second, 2)]
            && w.clock == 0
  {
    run := [START];
    run := Runs.Extend(IsStart, Moves, run, Next(Runs.Last(run), WriteSet(0, key, first, true)));
    run := Runs.Extend(IsStart, Moves, run, Next(Runs.Last(run), Notify(0)));
    run := Runs.Extend(IsStart, Moves, run, Next(Runs.Last(run), WriteSet(1, key, second, false)));
    run := Runs.Extend(IsStart, Moves, run, Next(Runs.Last(run), Notify(1)));
  }

  /** `n` sets of one key, made past this center, before the watcher takes any event. */
  lemma SetsInARow(key: Key, n: nat) returns (run: seq<World>)
    requires n <= QUEUE
    ensures IsRun(run)
    ensures var w := run[|run| - 1]; w.mutators == map[] && w.hand.None? && w.version == n && |w.queue| == n
    ensures var w := run[|run| - 1]; n > 0 ==> w.queue[n - 1] == SetTo(key, Val([], n))
    decreases n
  {
    if n == 0 {
      run := [START];
    } else {
      run := SetsInARow(key, n - 1);
      run := Runs.Extend(IsStart, Moves, run, Next(Runs.Last(run), WriteSet(0, key, [], false)));
      run := Runs.Extend(IsStart, Moves, run, Next(Runs.Last(run), Notify(0)));
    }
  }

  /** A seventeenth event finds the channel full: the last event queued is then not the provider's state. */
  lemma DroppedEvent(key: Key) returns (run: seq<World>)
    ensures IsRun(run) && run[|run| - 1].mutators == map[] && !Coherent(run[|run| - 1], key)
  {
    run := SetsInARow(key, QUEUE);
    run := Runs.Extend(IsStart, Moves, run, Next(Runs.Last(run), WriteSet(0, key, [], false)));
    run := Runs.Extend(IsStart, Moves, run, Next(Runs.Last(run), Notify(0)));
    var w := run[|run| - 1];
    assert Pipe(w) == w.queue && Pipe(w)[QUEUE - 1] == SetTo(key, Val([], 16));
    assert w.data[key].version == 17;
  }
}
