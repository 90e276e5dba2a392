/** Single-flight loading: of all concurrent misses on a key, one caller loads and the rest wait for it. */
module SingleFlights {
  import opened Common
  import Runs

  const GROUPS: int := 32

  // --- Group of a key ---

  /** Go's remainder: the sign follows the dividend. */
  function Rem(x: int, n: int): int
    requires n > 0
  {
    if x >= 0 then x % n else -((-x) % n)
  }

  /** The polynomial hash over the key's runes, in 64-bit arithmetic. */
  function Rolled(key: seq<nat>): int {
    if key == [] then 0 else Wrap(Rolled(key[..|key| - 1]) * 31 + key[|key| - 1])
  }

  function Hash(key: seq<nat>): int {
    if Rolled(key) < 0 then Wrap(-Rolled(key)) else Rolled(key)
  }

  method SimpleHash(key: seq<nat>) returns (hash: int)
    ensures hash == Hash(key)
  {
    hash := 0;
    var i := 0;
    while i < |key|
      invariant 0 <= i <= |key| && hash == Rolled(key[..i])
    {
      assert key[..i + 1][..i] == key[..i];
      hash := Wrap(hash * 31 + key[i]);
      i := i + 1;
    }
    assert key[..i] == key;
    if hash < 0 {
      hash := Wrap(-hash);
    }
  }

  function GroupOf(key: seq<nat>): int {
    Rem(Hash(key), GROUPS)
  }

  /** Go's remainder: what is left of `x` after a multiple of `n`, with the sign of `x`. */
  lemma RemMeaning(x: int, n: int)
    requires n > 0
    ensures -n < Rem(x, n) < n && (x - Rem(x, n)) % n == 0
    ensures (x >= 0 ==> Rem(x, n) >= 0) && (x <= 0 ==> Rem(x, n) <= 0)
  {
    if x < 0 {
      var q, r := (-x) / n, (-x) % n;
      assert x - Rem(x, n) == (-q) * n;
      ModOf(-q, 0, n);
    } else {
      assert x - Rem(x, n) == (x / n) * n;
      ModOf(x / n, 0, n);
    }
  }

  /** The sum of the runes weighted with powers of 31, without wrap-around. */
  function Poly(key: seq<nat>): nat {
    if key == [] then 0 else key[0] * Pow31(|key| - 1) + Poly(key[1..])
  }

  function Pow31(n: nat): nat {
    if n == 0 then 1 else 31 * Pow31(n - 1)
  }

  lemma {:induction false} PolyAppend(key: seq<nat>, c: nat)
    ensures Poly(key + [c]) == 31 * Poly(key) + c
  {
    if key == [] {
      assert (key + [c])[1..] == [];
    } else {
      assert (key + [c])[0] == key[0] && (key + [c])[1..] == key[1..] + [c];
      PolyAppend(key[1..], c);
      assert key[0] * (31 * Pow31(|key| - 1)) == 31 * (key[0] * Pow31(|key| - 1));
    }
  }

  /** The rolling hash is the polynomial of the key in base 31, wrapped to 64 bits. */
  lemma {:induction false} HashIsPolynomial(key: seq<nat>)
    ensures Rolled(key) == Wrap(Poly(key))
    ensures Hash(key) == Rolled(key) || Hash(key) == -Rolled(key) || Hash(key) == Rolled(key) == MIN_INT64
  {
    if key != [] {
      var front, c := key[..|key| - 1], key[|key| - 1];
      HashIsPolynomial(front);
      assert key == front + [c];
      PolyAppend(front, c);
      WrapStep(Poly(front), c);
    }
  }

  lemma WrapStep(x: int, c: int)
    ensures Wrap(Wrap(x) * 31 + c) == Wrap(x * 31 + c)
  {
    var d := (Wrap(x) - x) / TWO64;
    assert Wrap(x) == x + d * TWO64;
    assert Wrap(x) * 31 + c == (x * 31 + c) + (d * 31) * TWO64;
    WrapShift(x * 31 + c, d * 31);
  }

  lemma WrapShift(x: int, k: int)
    ensures Wrap(x + k * TWO64) == Wrap(x)
  {
  }

  /** Every key falls into one of the 32 groups, even when negating its hash overflows. */
  lemma GroupInRange(key: seq<nat>)
    ensures 0 <= GroupOf(key) < 32
    ensures Hash(key) >= 0 || Hash(key) == MIN_INT64
    ensures (Hash(key) - GroupOf(key)) % 32 == 0
  {
    HashRange(key);
    RemMeaning(Hash(key), 32);
    if Hash(key) == MIN_INT64 {
      OverflowIndex(32);
    }
  }

  lemma HashRange(key: seq<nat>)
    ensures Hash(key) >= 0 || Hash(key) == MIN_INT64
  {
    var h := Rolled(key);
    if h < 0 && h != MIN_INT64 {
      assert Wrap(-h) == -h;
    }
  }

  /** The overflow is harmless only because the number of groups divides 2^63. */
  lemma OverflowIndex(n: int)
    requires n > 0
    ensures Wrap(-MIN_INT64) == MIN_INT64
    ensures Rem(MIN_INT64, n) >= 0 <==> TWO63 % n == 0
  {
  }

  type Key = seq<nat>

  /** A group once `key` has a record: the one it had, or `c`. */
  function WithRecord(m: map<Key, nat>, key: Key, c: nat): map<Key, nat> {
    if key in m then m else m[key := c]
  }

  /** One group: the records in flight, by key. */
  class SingleGroup {
    var m: map<Key, nat>

    constructor ()
      ensures m == map[]
    {
      m := map[];
    }

    /** `call` is the record to list if the key has none. */
    method LoadOrStore(key: Key, call: nat) returns (c: nat, loaded: bool)
      modifies this
      ensures loaded <==> key in old(m)
      ensures m == WithRecord(old(m), key, call) && c == m[key]
    {
      if key in m {
        return m[key], true;
      }
      m := m[key := call];
      return call, false;
    }

    method Delete(key: Key)
      modifies this
      ensures m == old(m) - {key}
    {
      m := m - {key};
    }
  }

  // --- Interleaved steps ---

  /** What a load ends with: a value, or an error. */
  datatype Loaded<V> = Hit(value: V) | Miss

  /** A call record; the result is there once its leader has stored it. */
  datatype Call<V> = Call(key: Key, result: Option<Loaded<V>>, done: bool)

  /** Where a caller of GetWithLock is after missing the cache. */
  datatype Caller<V> =
    | Leading(c: nat)                // created the record, loading
    | Stored(c: nat)                 // result stored, waiters not yet released
    | Released(c: nat)               // waiters released, record not yet deleted
    | Waiting(c: nat)
    | Returned(c: nat, result: Loaded<V>)

  /** The in-flight record of each key, in the map of the key's group. */
  type Groups = map<int, map<Key, nat>>

  datatype World<V> = World(groups: Groups, calls: map<nat, Call<V>>, callers: map<nat, Caller<V>>)

  datatype Step<V> =
    | Enter(id: nat, key: Key, c: nat)   // loadOrStore; `c` names the record if one is created
    | Store(id: nat, result: Loaded<V>)
    | Release(id: nat)
    | Delete(id: nat)
    | Wake(id: nat)

  /** The record in flight for a key, looked up in the key's group. */
  function InFlight(groups: Groups, key: Key): Option<nat> {
    if GroupOf(key) in groups && key in groups[GroupOf(key)] then Some(groups[GroupOf(key)][key]) else None
  }

  /** A key's group, created empty if it is not there yet. */
  function Group(groups: Groups, key: Key): map<Key, nat> {
    if GroupOf(key) in groups then groups[GroupOf(key)] else map[]
  }

  function List(groups: Groups, key: Key, c: nat): Groups {
    groups[GroupOf(key) := WithRecord(Group(groups, key), key, c)]
  }

  function Unlist(groups: Groups, key: Key): Groups {
    groups[GroupOf(key) := Group(groups, key) - {key}]
  }

  lemma Listing(groups: Groups, key: Key, c: nat, k: Key)
    ensures InFlight(List(groups, key, c), k) ==
            if k == key && InFlight(groups, key).None? then Some(c) else InFlight(groups, k)
    ensures InFlight(Unlist(groups, key), k) == if k == key then None else InFlight(groups, k)
  {
  }

  ghost predicate Enabled<V>(w: World<V>, s: Step<V>) {
    match s
    case Enter(id, _, c) => id !in w.callers && c !in w.calls
    case Store(id, _) => id in w.callers && w.callers[id].Leading? && w.callers[id].c in w.calls
    case Release(id) => id in w.callers && w.callers[id].Stored? && w.callers[id].c in w.calls
    case Delete(id) => id in w.callers && w.callers[id].Released? && w.callers[id].c in w.calls
    case Wake(id) => id in w.callers && w.callers[id].Waiting? && w.callers[id].c in w.calls && w.calls[w.callers[id].c].done
  }

  /** The result a finished record holds; a record whose leader stored nothing reads as a miss. */
  function ResultOf<V>(call: Call<V>): Loaded<V> {
    if call.result.Some? then call.result.value else Miss
  }

  ghost function Next<V>(w: World<V>, s: Step<V>): World<V>
    requires Enabled(w, s)
  {
    match s
    case Enter(id, key, c) =>
      if InFlight(w.groups, key).Some? then w.(callers := w.callers[id := Waiting(InFlight(w.groups, key).value)])
      else World(List(w.groups, key, c), w.calls[c := Call(key, None, false)], w.callers[id := Leading(c)])
    case Store(id, result) =>
      (var c := w.callers[id].c;
       w.(calls := w.calls[c := w.calls[c].(result := Some(result))], callers := w.callers[id := Stored(c)]))
    case Release(id) =>
      (var c := w.callers[id].c;
       w.(calls := w.calls[c := w.calls[c].(done := true)], callers := w.callers[id := Released(c)]))
    case Delete(id) =>
      (var c := w.callers[id].c;
       var key := w.calls[c].key;
       w.(groups := Unlist(w.groups, key),
          callers := w.callers[id := Returned(c, ResultOf(w.calls[c]))]))
    case Wake(id) =>
      var c := w.callers[id].c;
      w.(callers := w.callers[id := Returned(c, ResultOf(w.calls[c]))])
  }

  ghost predicate IsStart<V>(w: World<V>) {
    w == World(map[], map[], map[])
  }

  ghost predicate Moves<V(!new)>(w: World<V>, w': World<V>) {
    exists s :: Enabled(w, s) && w' == Next(w, s)
  }

  ghost predicate IsRun<V(!new)>(run: seq<World<V>>) {
    Runs.IsRun(IsStart, Moves, run)
  }

  // --- Invariant ---

  predicate Leads<V>(k: Caller<V>) {
    k.Leading? || k.Stored? || k.Released?
  }

  /** A leader's record is the one listed for its key, until the leader itself deletes it. */
  ghost predicate LeadersListed<V>(w: World<V>) {
    forall id :: id in w.callers && Leads(w.callers[id]) ==>
      w.callers[id].c in w.calls && InFlight(w.groups, w.calls[w.callers[id].c].key) == Some(w.callers[id].c)
  }

  ghost predicate OneLeader<V>(w: World<V>) {
    forall i, j :: i in w.callers && j in w.callers && SameLead(w.callers[i], w.callers[j]) ==> i == j
  }

  predicate SameLead<V>(a: Caller<V>, b: Caller<V>) {
    Leads(a) && Leads(b) && a.c == b.c
  }

  /** What a caller's position says about its record. */
  ghost predicate Placed<V>(k: Caller<V>, call: Call<V>) {
    match k
    case Leading(_) => !call.done && call.result.None?
    case Stored(_) => call.result.Some?
    case Released(_) => call.result.Some? && call.done
    case Waiting(_) => true
    case Returned(_, result) => call.done && call.result == Some(result)
  }

  ghost predicate CallersPlaced<V>(w: World<V>) {
    forall id :: id in w.callers ==> w.callers[id].c in w.calls && Placed(w.callers[id], w.calls[w.callers[id].c])
  }

  ghost predicate RecordsOk<V>(w: World<V>) {
    && (forall key :: InFlight(w.groups, key).Some? ==> InFlight(w.groups, key).value in w.calls)
    && (forall c :: c in w.calls && w.calls[c].done ==> w.calls[c].result.Some?)
  }

  ghost predicate Inv<V>(w: World<V>) {
    CallersPlaced(w) && RecordsOk(w) && LeadersListed(w) && OneLeader(w)
  }

  lemma EnterKeeps<V(!new)>(w: World<V>, id: nat, key: Key, c: nat)
    requires Enabled(w, Enter(id, key, c)) && Inv(w)
    ensures Inv(Next(w, Enter(id, key, c)))
  {
    if InFlight(w.groups, key).None? {
      forall k ensures InFlight(List(w.groups, key, c), k) == if k == key then Some(c) else InFlight(w.groups, k) {
        Listing(w.groups, key, c, k);
      }
    }
  }

  lemma StoreKeeps<V(!new)>(w: World<V>, id: nat, result: Loaded<V>)
    requires Enabled(w, Store(id, result)) && Inv(w)
    ensures Inv(Next(w, Store(id, result)))
  {
    forall i | i in w.callers && i != id && w.callers[i].c == w.callers[id].c ensures !Leads(w.callers[i]) && !w.callers[i].Returned? {
      assert !SameLead(w.callers[i], w.callers[id]);
    }
  }

  lemma ReleaseKeeps<V(!new)>(w: World<V>, id: nat)
    requires Enabled(w, Release(id)) && Inv(w)
    ensures Inv(Next(w, Release(id)))
  {
    forall i | i in w.callers && i != id && w.callers[i].c == w.callers[id].c ensures !Leads(w.callers[i]) {
      assert !SameLead(w.callers[i], w.callers[id]);
    }
  }

  lemma DeleteKeeps<V(!new)>(w: World<V>, id: nat)
    requires Enabled(w, Delete(id)) && Inv(w)
    ensures Inv(Next(w, Delete(id)))
  {
    var c := w.callers[id].c;
    var key := w.calls[c].key;
    forall k ensures InFlight(Unlist(w.groups, key), k) == if k == key then None else InFlight(w.groups, k) {
      Listing(w.groups, key, c, k);
    }
    forall i | i in w.callers && i != id && Leads(w.callers[i]) ensures w.calls[w.callers[i].c].key != key {
      assert !SameLead(w.callers[i], w.callers[id]);
    }
  }

  lemma StepKeeps<V(!new)>(w: World<V>, s: Step<V>)
    requires Enabled(w, s) && Inv(w)
    ensures Inv(Next(w, s))
  {
    match s
    case Enter(id, key, c) => EnterKeeps(w, id, key, c);
    case Store(id, result) => StoreKeeps(w, id, result);
    case Release(id) => ReleaseKeeps(w, id);
    case Delete(id) => DeleteKeeps(w, id);
    case Wake(id) =>
  }

  lemma RunInv<V(!new)>(run: seq<World<V>>, k: nat)
    requires IsRun(run) && k < |run|
    ensures Inv(run[k])
  {
    forall w: World<V>, w' | Inv(w) && Moves(w, w') ensures Inv(w') {
      var s :| Enabled(w, s) && w' == Next(w, s);
      StepKeeps(w, s);
    }
    Runs.InvariantHolds(IsStart, Moves, Inv, run, k);
  }

  // --- Theorems ---

  /** However many callers there are, at most one is loading a key. */
  lemma OneLeaderPerKey<V(!new)>(run: seq<World<V>>, k: nat, i: nat, j: nat)
    requires IsRun(run) && k < |run| && i in run[k].callers && j in run[k].callers
    requires Leads(run[k].callers[i]) && Leads(run[k].callers[j])
    ensures run[k].callers[i].c in run[k].calls && run[k].callers[j].c in run[k].calls
    ensures run[k].calls[run[k].callers[i].c].key == run[k].calls[run[k].callers[j].c].key ==> i == j
  {
    RunInv(run, k);
    var w := run[k];
    assert w.calls[w.callers[i].c].key == w.calls[w.callers[j].c].key ==> SameLead(w.callers[i], w.callers[j]);
  }

  /** A leader deletes its own record, never one created after it. */
  lemma DeletesOwnRecord<V(!new)>(run: seq<World<V>>, k: nat, id: nat)
    requires IsRun(run) && k < |run| && Enabled(run[k], Delete(id))
    ensures var w := run[k]; var c := w.callers[id].c; InFlight(w.groups, w.calls[c].key) == Some(c)
    ensures var w := run[k]; var w' := Next(w, Delete(id));
            forall key :: key != w.calls[w.callers[id].c].key ==> InFlight(w'.groups, key) == InFlight(w.groups, key)
  {
    RunInv(run, k);
    var w := run[k];
    forall key ensures key != w.calls[w.callers[id].c].key ==>
                         InFlight(Next(w, Delete(id)).groups, key) == InFlight(w.groups, key) {
      Listing(w.groups, w.calls[w.callers[id].c].key, 0, key);
    }
  }

  /** Once a record has a result it keeps it, and once its waiters are released they stay so. */
  lemma {:induction false} ResultFixed<V(!new)>(run: seq<World<V>>, j: nat, k: nat, c: nat)
    requires IsRun(run) && j <= k < |run| && c in run[j].calls && run[j].calls[c].result.Some?
    ensures c in run[k].calls && run[k].calls[c].result == run[j].calls[c].result
    ensures run[j].calls[c].done ==> run[k].calls[c].done
    decreases k
  {
    if j < k {
      ResultFixed(run, j, k - 1, c);
      RunInv(run, k - 1);
      assert Runs.Follows(Moves, run, k - 1);
      var s :| Enabled(run[k - 1], s) && run[k] == Next(run[k - 1], s);
      ResultStep(run[k - 1], s, c);
    }
  }

  lemma ResultStep<V(!new)>(w: World<V>, s: Step<V>, c: nat)
    requires Enabled(w, s) && CallersPlaced(w) && c in w.calls && w.calls[c].result.Some?
    ensures c in Next(w, s).calls && Next(w, s).calls[c].result == w.calls[c].result
    ensures w.calls[c].done ==> Next(w, s).calls[c].done
  {
    if s.Store? {
      assert Placed(w.callers[s.id], w.calls[w.callers[s.id].c]);
    }
  }

  /** A listed record has a leader that will delete it: no key is blocked for good. */
  ghost predicate Led<V>(w: World<V>) {
    forall key :: InFlight(w.groups, key).Some? ==> exists id :: LeadsFor(w, id, key)
  }

  ghost predicate LeadsFor<V>(w: World<V>, id: nat, key: Key) {
    id in w.callers && Leads(w.callers[id]) && w.callers[id].c in w.calls && w.calls[w.callers[id].c].key == key
  }

  lemma LedStep<V(!new)>(w: World<V>, s: Step<V>)
    requires Enabled(w, s) && Inv(w) && Led(w)
    ensures Led(Next(w, s))
  {
    var w' := Next(w, s);
    forall key | InFlight(w'.groups, key).Some? ensures exists id :: LeadsFor(w', id, key) {
      LedKey(w, s, key);
    }
  }

  lemma LedKey<V(!new)>(w: World<V>, s: Step<V>, key: Key)
    requires Enabled(w, s) && Inv(w) && Led(w) && InFlight(Next(w, s).groups, key).Some?
    ensures exists id :: LeadsFor(Next(w, s), id, key)
  {
    if s.Enter? && key == s.key && InFlight(w.groups, key).None? {
      assert LeadsFor(Next(w, s), s.id, key);
    } else {
      WasListed(w, s, key);
      var id :| LeadsFor(w, id, key);
      StillLeads(w, s, id, key);
    }
  }

  lemma WasListed<V(!new)>(w: World<V>, s: Step<V>, key: Key)
    requires Enabled(w, s) && InFlight(Next(w, s).groups, key).Some?
    requires !(s.Enter? && key == s.key && InFlight(w.groups, key).None?)
    ensures InFlight(w.groups, key).Some?
    ensures s.Delete? ==> key != w.calls[w.callers[s.id].c].key
  {
    match s
    case Enter(id, k, c) => Listing(w.groups, k, c, key);
    case Delete(id) => Listing(w.groups, w.calls[w.callers[id].c].key, 0, key);
    case _ =>
  }

  lemma StillLeads<V(!new)>(w: World<V>, s: Step<V>, id: nat, key: Key)
    requires Enabled(w, s) && LeadsFor(w, id, key)
    requires s.Delete? ==> key != w.calls[w.callers[s.id].c].key
    ensures LeadsFor(Next(w, s), id, key)
  {
  }

  /** A caller that misses becomes the leader exactly if no other caller is leading the key; else it waits for that one. */
  lemma EnterExact<V(!new)>(run: seq<World<V>>, k: nat, id: nat, key: Key, c: nat)
    requires IsRun(run) && k < |run| && Enabled(run[k], Enter(id, key, c))
    ensures var w' := Next(run[k], Enter(id, key, c));
            if exists leader :: LeadsFor(run[k], leader, key)
            then exists leader :: LeadsFor(run[k], leader, key) && w'.callers[id] == Waiting(run[k].callers[leader].c)
            else w'.callers[id] == Leading(c)
  {
    LedInv(run, k);
    var w := run[k];
    if leader :| LeadsFor(w, leader, key) {
      assert InFlight(w.groups, key) == Some(w.callers[leader].c);
    } else {
      assert InFlight(w.groups, key).None?;
    }
  }

  lemma LedInv<V(!new)>(run: seq<World<V>>, k: nat)
    requires IsRun(run) && k < |run|
    ensures Inv(run[k]) && Led(run[k])
  {
    forall w: World<V>, w' | Inv(w) && Led(w) && Moves(w, w') ensures Inv(w') && Led(w') {
      var s :| Enabled(w, s) && w' == Next(w, s);
      StepKeeps(w, s);
      LedStep(w, s);
    }
    Runs.InvariantHolds(IsStart, Moves, (w: World<V>) => Inv(w) && Led(w), run, k);
  }

  /** All callers that shared a record, leader and waiters, return the same value and error. */
  lemma SharedResult<V(!new)>(run: seq<World<V>>, k: nat, i: nat, j: nat)
    requires IsRun(run) && k < |run| && i in run[k].callers && j in run[k].callers
    requires run[k].callers[i].Returned? && run[k].callers[j].Returned? && run[k].callers[i].c == run[k].callers[j].c
    ensures run[k].callers[i].result == run[k].callers[j].result
  {
    RunInv(run, k);
  }

  /** Whoever returns from a record, its leader or a waiter, returns what the leader loaded. */
  lemma ReturnsWhatLeaderLoaded<V(!new)>(run: seq<World<V>>, j: nat, k: nat, leader: nat, loaded: Loaded<V>, caller: nat)
    requires IsRun(run) && j < k < |run|
    requires Enabled(run[j], Store(leader, loaded)) && run[j + 1] == Next(run[j], Store(leader, loaded))
    requires caller in run[k].callers && run[k].callers[caller].Returned?
    requires run[k].callers[caller].c == run[j].callers[leader].c
    ensures run[k].callers[caller].result == loaded
  {
    RunInv(run, k);
    ResultFixed(run, j + 1, k, run[j].callers[leader].c);
  }
}
