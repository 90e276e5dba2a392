/** Turning two snapshots of a Consul prefix into change events. */
module ConsulDiffs {
  import opened Common
  import opened ConfigCenters

  /** A stored pair; the index is an unsigned 64-bit number. */
  datatype Pair = Pair(value: seq<int>, modifyIndex: nat)

  type Snapshot = map<string, Pair>

  function ToInt64(n: nat): int {
    Wrap(n)
  }

  function ValOf(p: Pair): Val {
    Val(p.value, ToInt64(p.modifyIndex))
  }

  function TrimPrefix(s: string, prefix: string): string {
    if prefix <= s then s[|prefix|..] else s
  }

  function ExtractKey(prefix: string, full: string): string {
    TrimPrefix(TrimPrefix(full, prefix), "/")
  }

  /** Two keys under the prefix collapse exactly when they differ in one extra slash after it. */
  lemma ExtractCollides(prefix: string, a: string, b: string)
    ensures a != b ==>
              (ExtractKey(prefix, prefix + a) == ExtractKey(prefix, prefix + b) <==>
               (!("/" <= a) && b == "/" + a) || (!("/" <= b) && a == "/" + b))
  {
    assert (prefix + a)[|prefix|..] == a && (prefix + b)[|prefix|..] == b;
    assert "/" <= a ==> a == "/" + a[1..];
    assert "/" <= b ==> b == "/" + b[1..];
    assert ("/" + a)[1..] == a && ("/" + b)[1..] == b;
  }

  /** Keys as a listing of the prefix returns them, without a second slash after it. */
  predicate Plain(prefix: string, key: string) {
    prefix <= key && !("/" <= key[|prefix|..])
  }

  ghost predicate AllPlain(prefix: string, m: Snapshot) {
    forall k :: k in m ==> Plain(prefix, k)
  }

  lemma ExtractInjective(prefix: string, a: string, b: string)
    requires Plain(prefix, a) && Plain(prefix, b) && ExtractKey(prefix, a) == ExtractKey(prefix, b)
    ensures a == b
  {
    assert a == prefix + a[|prefix|..] && b == prefix + b[|prefix|..];
  }

  /** What subscribers know of a snapshot: extracted key to value and version. */
  ghost function View(prefix: string, m: Snapshot): map<Key, Val>
    requires AllPlain(prefix, m)
  {
    map e | e in (set k | k in m :: ExtractKey(prefix, k)) :: ValOf(m[FullKey(prefix, m, e)])
  }

  ghost function FullKey(prefix: string, m: Snapshot, e: Key): (k: string)
    requires exists k :: k in m && ExtractKey(prefix, k) == e
    ensures k in m && ExtractKey(prefix, k) == e
  {
    var k :| k in m && ExtractKey(prefix, k) == e;
    k
  }

  lemma ViewAt(prefix: string, m: Snapshot, k: string)
    requires AllPlain(prefix, m) && k in m
    ensures ExtractKey(prefix, k) in View(prefix, m) && View(prefix, m)[ExtractKey(prefix, k)] == ValOf(m[k])
  {
    ExtractInjective(prefix, k, FullKey(prefix, m, ExtractKey(prefix, k)));
  }

  /** The first slash after the prefix is dropped, if there is one. */
  lemma ExtractMeaning(prefix: string, a: string)
    ensures ExtractKey(prefix, prefix + a) == if a != "" && a[0] == '/' then a[1..] else a
  {
    assert (prefix + a)[|prefix|..] == a;
  }

  /** Subscribers know exactly the stored keys, without the prefix, with the stored values and indices. */
  lemma ViewMeaning(prefix: string, m: Snapshot, a: Key)
    requires AllPlain(prefix, m)
    ensures a in View(prefix, m) <==> prefix + a in m
    ensures prefix + a in m ==> View(prefix, m)[a] == Val(m[prefix + a].value, Wrap(m[prefix + a].modifyIndex))
  {
    assert (prefix + a)[|prefix|..] == a;
    ExtractMeaning(prefix, a);
    if prefix + a in m {
      assert Plain(prefix, prefix + a);
      ViewAt(prefix, m, prefix + a);
    }
    if a in View(prefix, m) {
      var k := FullKey(prefix, m, a);
      assert k == prefix + k[|prefix|..];
      ExtractMeaning(prefix, k[|prefix|..]);
    }
  }

  // --- The diff ---

  predicate Changed(old': Snapshot, new': Snapshot, k: string) {
    k in new' && (k !in old' || old'[k].modifyIndex != new'[k].modifyIndex)
  }

  predicate Gone(old': Snapshot, new': Snapshot, k: string) {
    k in old' && k !in new'
  }

  ghost predicate SetFor(prefix: string, new': Snapshot, k: string, c: Change) {
    k in new' && c == SetTo(ExtractKey(prefix, k), ValOf(new'[k]))
  }

  /** A delete event carries the index the key last had. */
  ghost predicate DeleteFor(prefix: string, old': Snapshot, k: string, c: Change) {
    k in old' && c == Deleted(ExtractKey(prefix, k), ToInt64(old'[k].modifyIndex))
  }

  ghost predicate IsChange(prefix: string, old': Snapshot, new': Snapshot, c: Change) {
    || (exists k :: Changed(old', new', k) && SetFor(prefix, new', k, c))
    || (exists k :: Gone(old', new', k) && DeleteFor(prefix, old', k, c))
  }

  /** A list of exactly the changes between two snapshots, in any order. */
  ghost predicate IsDiff(prefix: string, old': Snapshot, new': Snapshot, changes: seq<Change>) {
    forall c :: c in changes <==> IsChange(prefix, old', new', c)
  }

  function ChangedKeys(old': Snapshot, new': Snapshot): set<string> {
    set k | k in new' && Changed(old', new', k)
  }

  function GoneKeys(old': Snapshot, new': Snapshot): set<string> {
    set k | k in old' && Gone(old', new', k)
  }

  /** One event for each key that changed or went, and no other. */
  method Diff(prefix: string, old': Snapshot, new': Snapshot) returns (changes: seq<Change>)
    ensures IsDiff(prefix, old', new', changes)
    ensures |changes| == |ChangedKeys(old', new')| + |GoneKeys(old', new')|
  {
    var sets := DiffSets(prefix, old', new');
    var deletes := DiffDeletes(prefix, old', new');
    changes := sets + deletes;
    BothListed(prefix, old', new', sets, deletes);
  }

  /** One set event for each key in `picked`. */
  ghost predicate SetsFor(prefix: string, new': Snapshot, picked: set<string>, changes: seq<Change>) {
    |changes| == |picked| && forall c :: c in changes <==> exists k :: k in picked && SetFor(prefix, new', k, c)
  }

  lemma SetsForGrows(prefix: string, new': Snapshot, picked: set<string>, changes: seq<Change>, key: string)
    requires SetsFor(prefix, new', picked, changes) && key in new' && key !in picked
    ensures SetsFor(prefix, new', picked + {key}, changes + [SetTo(ExtractKey(prefix, key), ValOf(new'[key]))])
  {
    var more := changes + [SetTo(ExtractKey(prefix, key), ValOf(new'[key]))];
    forall c ensures c in more <==> exists k :: k in picked + {key} && SetFor(prefix, new', k, c) {
      if c in more && c !in changes {
        assert key in picked + {key} && SetFor(prefix, new', key, c);
      }
      if c in changes {
        var k :| k in picked && SetFor(prefix, new', k, c);
        assert k in picked + {key};
      }
    }
  }

  method DiffSets(prefix: string, old': Snapshot, new': Snapshot) returns (changes: seq<Change>)
    ensures SetsFor(prefix, new', ChangedKeys(old', new'), changes)
  {
    changes := [];
    var todo := new'.Keys;
    ghost var picked: set<string> := {};
    while todo != {}
      invariant todo <= new'.Keys && picked == ChangedKeys(old', new') - todo
      invariant SetsFor(prefix, new', picked, changes)
    {
      var key :| key in todo;                         // any map iteration order
      if key !in old' || old'[key].modifyIndex != new'[key].modifyIndex {
        SetsForGrows(prefix, new', picked, changes, key);
        changes := changes + [SetTo(ExtractKey(prefix, key), ValOf(new'[key]))];
        picked := picked + {key};
      }
      todo := todo - {key};
    }
  }

  /** One delete event for each key in `picked`. */
  ghost predicate DeletesFor(prefix: string, old': Snapshot, picked: set<string>, changes: seq<Change>) {
    |changes| == |picked| && forall c :: c in changes <==> exists k :: k in picked && DeleteFor(prefix, old', k, c)
  }

  lemma DeletesForGrows(prefix: string, old': Snapshot, picked: set<string>, changes: seq<Change>, key: string)
    requires DeletesFor(prefix, old', picked, changes) && key in old' && key !in picked
    ensures DeletesFor(prefix, old', picked + {key},
                       changes + [Deleted(ExtractKey(prefix, key), ToInt64(old'[key].modifyIndex))])
  {
    var more := changes + [Deleted(ExtractKey(prefix, key), ToInt64(old'[key].modifyIndex))];
    forall c ensures c in more <==> exists k :: k in picked + {key} && DeleteFor(prefix, old', k, c) {
      if c in more && c !in changes {
        assert key in picked + {key} && DeleteFor(prefix, old', key, c);
      }
      if c in changes {
        var k :| k in picked && DeleteFor(prefix, old', k, c);
        assert k in picked + {key};
      }
    }
  }

  method DiffDeletes(prefix: string, old': Snapshot, new': Snapshot) returns (changes: seq<Change>)
    ensures DeletesFor(prefix, old', GoneKeys(old', new'), changes)
  {
    changes := [];
    var todo := old'.Keys;
    ghost var picked: set<string> := {};
    while todo != {}
      invariant todo <= old'.Keys && picked == GoneKeys(old', new') - todo
      invariant DeletesFor(prefix, old', picked, changes)
    {
      var key :| key in todo;                         // any map iteration order
      if key !in new' {
        DeletesForGrows(prefix, old', picked, changes, key);
        changes := changes + [Deleted(ExtractKey(prefix, key), ToInt64(old'[key].modifyIndex))];
        picked := picked + {key};
      }
      todo := todo - {key};
    }
  }

  lemma BothListed(prefix: string, old': Snapshot, new': Snapshot, sets: seq<Change>, deletes: seq<Change>)
    requires SetsFor(prefix, new', ChangedKeys(old', new'), sets) 
             && DeletesFor(prefix, old', GoneKeys(old', new'), deletes)
    ensures IsDiff(prefix, old', new', sets + deletes)
  {
    forall c ensures c in sets + deletes <==> IsChange(prefix, old', new', c) {
      if k :| Changed(old', new', k) && SetFor(prefix, new', k, c) {
        assert k in ChangedKeys(old', new');
      }
      if k :| Gone(old', new', k) && DeleteFor(prefix, old', k, c) {
        assert k in GoneKeys(old', new');
      }
      if c in sets {
        var k :| k in ChangedKeys(old', new') && SetFor(prefix, new', k, c);
        assert Changed(old', new', k);
      }
      if c in deletes {
        var k :| k in GoneKeys(old', new') && DeleteFor(prefix, old', k, c);
        assert Gone(old', new', k);
      }
    }
  }

  /** The events of a diff, in the fields of the pairs themselves. */
  lemma EventsExact(prefix: string, old': Snapshot, new': Snapshot, changes: seq<Change>, a: Key)
    requires AllPlain(prefix, old') && AllPlain(prefix, new') && IsDiff(prefix, old', new', changes)
    ensures var k := prefix + a;
            if k in new' && (k !in old' || old'[k].modifyIndex != new'[k].modifyIndex)
            then forall c :: c in changes && c.key == a <==> c == SetTo(a, Val(new'[k].value, Wrap(new'[k].modifyIndex)))
            else if k in old' && k !in new' then forall c :: c in changes && c.key == a <==> c == Deleted(a, Wrap(old'[k].modifyIndex))
            else forall c :: c in changes ==> c.key != a
  {
    forall c | c in changes && c.key == a ensures EventFor(prefix, old', new', a, c) {
      OnlyEvent(prefix, old', new', a, c);
    }
    var k := prefix + a;
    if Changed(old', new', k) {
      KeyOf(prefix, new', a);
      var c := SetTo(a, Val(new'[k].value, Wrap(new'[k].modifyIndex)));
      assert SetFor(prefix, new', k, c) && IsChange(prefix, old', new', c);
    } else if Gone(old', new', k) {
      KeyOf(prefix, old', a);
      var c := Deleted(a, Wrap(old'[k].modifyIndex));
      assert DeleteFor(prefix, old', k, c) && IsChange(prefix, old', new', c);
    }
  }

  /** `c` is the event the change of `prefix + a` between the snapshots calls for. */
  predicate EventFor(prefix: string, old': Snapshot, new': Snapshot, a: Key, c: Change) {
    var k := prefix + a;
    || (k in new' && (k !in old' || old'[k].modifyIndex != new'[k].modifyIndex)
        && c == SetTo(a, Val(new'[k].value, Wrap(new'[k].modifyIndex))))
    || (k in old' && k !in new' && c == Deleted(a, Wrap(old'[k].modifyIndex)))
  }

  lemma KeyOf(prefix: string, m: Snapshot, a: Key)
    requires AllPlain(prefix, m) && prefix + a in m
    ensures ExtractKey(prefix, prefix + a) == a
  {
    assert Plain(prefix, prefix + a) && (prefix + a)[|prefix|..] == a;
    ExtractMeaning(prefix, a);
  }

  lemma OnlyEvent(prefix: string, old': Snapshot, new': Snapshot, a: Key, c: Change)
    requires AllPlain(prefix, old') && AllPlain(prefix, new') && IsChange(prefix, old', new', c) && c.key == a
    ensures EventFor(prefix, old', new', a, c)
  {
    if k :| Changed(old', new', k) && SetFor(prefix, new', k, c) {
      WholeKey(prefix, k, a);
    } else {
      var k :| Gone(old', new', k) && DeleteFor(prefix, old', k, c);
      WholeKey(prefix, k, a);
    }
  }

  lemma WholeKey(prefix: string, k: string, a: Key)
    requires Plain(prefix, k) && ExtractKey(prefix, k) == a
    ensures k == prefix + a
  {
    assert k == prefix + k[|prefix|..];
    ExtractMeaning(prefix, k[|prefix|..]);
  }

  // --- Applying changes ---

  function ApplyOne(view: map<Key, Val>, c: Change): map<Key, Val> {
    if c.Deleted? then view - {c.key} else view[c.key := c.val]
  }

  function ApplyAll(view: map<Key, Val>, changes: seq<Change>): map<Key, Val> {
    if changes == [] then view else ApplyOne(ApplyAll(view, changes[..|changes| - 1]), changes[|changes| - 1])
  }

  /** After any changes a key shows what the last change to it said, or what it showed before. */
  lemma {:induction false} ApplyAllAt(view: map<Key, Val>, changes: seq<Change>, k: Key)
    ensures var last := LastFor(changes, k);
            if last.Some? then Truthful(ApplyAll(view, changes), last.value)
            else (k in ApplyAll(view, changes) <==> k in view) && (k in view ==> ApplyAll(view, changes)[k] == view[k])
  {
    LastForFacts(changes, k);
    if changes != [] {
      ApplyAllAt(view, changes[..|changes| - 1], k);
      LastForFacts(changes[..|changes| - 1], k);
    }
  }

  lemma {:induction false} ApplyAllConcat(view: map<Key, Val>, a: seq<Change>, b: seq<Change>)
    ensures ApplyAll(view, a + b) == ApplyAll(ApplyAll(view, a), b)
  {
    if b == [] {
      assert a + b == a;
    } else {
      ApplyAllConcat(view, a, b[..|b| - 1]);
      assert (a + b)[..|a + b| - 1] == a + b[..|b| - 1];
    }
  }

  /** Consul's contract: an entry whose index has not moved has not changed. */
  ghost predicate IndexTellsValue(old': Snapshot, new': Snapshot) {
    forall k :: k in old' && k in new' && old'[k].modifyIndex == new'[k].modifyIndex ==> old'[k] == new'[k]
  }

  lemma ChangeIsTruthful(prefix: string, old': Snapshot, new': Snapshot, c: Change)
    requires AllPlain(prefix, old') && AllPlain(prefix, new') && IsChange(prefix, old', new', c)
    ensures Truthful(View(prefix, new'), c)
  {
    if k :| Changed(old', new', k) && SetFor(prefix, new', k, c) {
      ViewAt(prefix, new', k);
    } else {
      var k :| Gone(old', new', k) && DeleteFor(prefix, old', k, c);
      if c.key in View(prefix, new') {
        ExtractInjective(prefix, k, FullKey(prefix, new', c.key));
      }
    }
  }

  /** A key no change mentions shows the same in both snapshots. */
  lemma UnmentionedKey(prefix: string, old': Snapshot, new': Snapshot, e: Key)
    requires AllPlain(prefix, old') && AllPlain(prefix, new') && IndexTellsValue(old', new')
    requires forall c :: IsChange(prefix, old', new', c) ==> c.key != e
    ensures e in View(prefix, old') <==> e in View(prefix, new')
    ensures e in View(prefix, old') ==> View(prefix, old')[e] == View(prefix, new')[e]
  {
    if e in View(prefix, old') {
      var k := FullKey(prefix, old', e);
      NotGone(prefix, old', new', k);
      NotChanged(prefix, old', new', k);
      ViewAt(prefix, old', k);
      ViewAt(prefix, new', k);
    }
    if e in View(prefix, new') {
      var k := FullKey(prefix, new', e);
      NotChanged(prefix, old', new', k);
      ViewAt(prefix, old', k);
    }
  }

  lemma NotGone(prefix: string, old': Snapshot, new': Snapshot, k: string)
    requires k in old' && forall c :: IsChange(prefix, old', new', c) ==> c.key != ExtractKey(prefix, k)
    ensures !Gone(old', new', k)
  {
    var c := Deleted(ExtractKey(prefix, k), ToInt64(old'[k].modifyIndex));
    assert DeleteFor(prefix, old', k, c);
    assert Gone(old', new', k) ==> IsChange(prefix, old', new', c);
  }

  lemma NotChanged(prefix: string, old': Snapshot, new': Snapshot, k: string)
    requires k in new' && forall c :: IsChange(prefix, old', new', c) ==> c.key != ExtractKey(prefix, k)
    ensures !Changed(old', new', k)
  {
    var c := SetTo(ExtractKey(prefix, k), ValOf(new'[k]));
    assert SetFor(prefix, new', k, c);
    assert Changed(old', new', k) ==> IsChange(prefix, old', new', c);
  }

  /** Applying the changes in any order to what was known of the old snapshot gives the new one. */
  lemma DiffReaches(prefix: string, old': Snapshot, new': Snapshot, changes: seq<Change>)
    requires AllPlain(prefix, old') && AllPlain(prefix, new') && IndexTellsValue(old', new')
    requires IsDiff(prefix, old', new', changes)
    ensures ApplyAll(View(prefix, old'), changes) == View(prefix, new')
  {
    var got, want := ApplyAll(View(prefix, old'), changes), View(prefix, new');
    forall e ensures SameAt(got, want, e) {
      ReachesAt(prefix, old', new', changes, e);
    }
    SameMaps(got, want);
  }

  lemma SameMaps(a: map<Key, Val>, b: map<Key, Val>)
    requires forall e :: SameAt(a, b, e)
    ensures a == b
  {
    assert a.Keys == b.Keys by {
      assert forall e :: e in a.Keys ==> SameAt(a, b, e);
      assert forall e :: e in b.Keys ==> SameAt(a, b, e);
    }
    assert forall e :: e in a ==> SameAt(a, b, e);
  }

  predicate SameAt(a: map<Key, Val>, b: map<Key, Val>, e: Key) {
    (e in a <==> e in b) && (e in a && e in b ==> a[e] == b[e])
  }

  lemma ReachesAt(prefix: string, old': Snapshot, new': Snapshot, changes: seq<Change>, e: Key)
    requires AllPlain(prefix, old') && AllPlain(prefix, new') && IndexTellsValue(old', new')
    requires IsDiff(prefix, old', new', changes)
    ensures SameAt(ApplyAll(View(prefix, old'), changes), View(prefix, new'), e)
  {
    ApplyAllAt(View(prefix, old'), changes, e);
    LastForFacts(changes, e);
    var last := LastFor(changes, e);
    if last.Some? {
      LastForMember(changes, e);
      ChangeIsTruthful(prefix, old', new', last.value);
    } else {
      forall c | IsChange(prefix, old', new', c) ensures c.key != e {
        assert c in changes;
      }
      UnmentionedKey(prefix, old', new', e);
    }
  }

  lemma {:induction false} LastForMember(events: seq<Change>, key: Key)
    requires LastFor(events, key).Some?
    ensures LastFor(events, key).value in events
  {
    if events[|events| - 1].key != key {
      LastForMember(events[..|events| - 1], key);
    }
  }

  /** One poll: a listing and the changes since the listing before it. */
  ghost predicate Polled(prefix: string, old': Snapshot, new': Snapshot, changes: seq<Change>) {
    && AllPlain(prefix, old') && AllPlain(prefix, new')
    && IndexTellsValue(old', new') && IsDiff(prefix, old', new', changes)
  }

  ghost function Poll(prefix: string): (Snapshot, Snapshot, seq<Change>) -> bool {
    (old', new', changes) => Polled(prefix, old', new', changes)
  }

  ghost predicate Links(poll: (Snapshot, Snapshot, seq<Change>) -> bool, snapshots: seq<Snapshot>,
                        batches: seq<seq<Change>>, i: nat)
    requires i < |batches| < |snapshots|
  {
    poll(snapshots[i], snapshots[i + 1], batches[i])
  }

  /** Each batch is what `poll` makes of a snapshot and the next. */
  ghost predicate Chain(poll: (Snapshot, Snapshot, seq<Change>) -> bool, snapshots: seq<Snapshot>,
                        batches: seq<seq<Change>>) {
    |snapshots| == |batches| + 1 && forall i :: 0 <= i < |batches| ==> Links(poll, snapshots, batches, i)
  }

  /** The polling loop's output over successive snapshots, the first of them empty. */
  ghost predicate Emits(prefix: string, snapshots: seq<Snapshot>, batches: seq<seq<Change>>) {
    Chain(Poll(prefix), snapshots, batches) && snapshots[0] == map[]
  }

  function Flatten(batches: seq<seq<Change>>): seq<Change> {
    if batches == [] then [] else Flatten(batches[..|batches| - 1]) + batches[|batches| - 1]
  }

  /** What each batch carries over from one snapshot to the next, all batches carry over to the last. */
  lemma {:induction false} Accumulates(poll: (Snapshot, Snapshot, seq<Change>) -> bool, knows: (map<Key, Val>, Snapshot) -> bool,
                                       view: map<Key, Val>, snapshots: seq<Snapshot>, batches: seq<seq<Change>>)
    requires Chain(poll, snapshots, batches) && knows(view, snapshots[0])
    requires forall v, old', new', cs :: knows(v, old') && poll(old', new', cs) ==> knows(ApplyAll(v, cs), new')
    ensures knows(ApplyAll(view, Flatten(batches)), snapshots[|batches|])
    decreases |batches|
  {
    var n := |batches|;
    if n > 0 {
      var ss, bs := snapshots[..n], batches[..n - 1];
      forall i | 0 <= i < n - 1 ensures Links(poll, ss, bs, i) {
        assert Links(poll, snapshots, batches, i);
      }
      Accumulates(poll, knows, view, ss, bs);
      assert Links(poll, snapshots, batches, n - 1);
      ApplyAllConcat(view, Flatten(bs), batches[n - 1]);
    }
  }

  ghost predicate Knows(prefix: string, view: map<Key, Val>, m: Snapshot) {
    AllPlain(prefix, m) && view == View(prefix, m)
  }

  /** A watcher that applies everything the loop has emitted, starting from nothing, knows the latest snapshot. */
  lemma WatchConverges(prefix: string, snapshots: seq<Snapshot>, batches: seq<seq<Change>>)
    requires Emits(prefix, snapshots, batches)
    ensures Knows(prefix, ApplyAll(map[], Flatten(batches)), snapshots[|batches|])
  {
    forall v, old', new', cs | Knows(prefix, v, old') && Polled(prefix, old', new', cs)
      ensures Knows(prefix, ApplyAll(v, cs), new')
    {
      DiffReaches(prefix, old', new', cs);
    }
    Accumulates(Poll(prefix), (v, m) => Knows(prefix, v, m), map[], snapshots, batches);
  }
}
