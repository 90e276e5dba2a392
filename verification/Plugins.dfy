/** Plugins as the loader sees them, and the dependency lists it derives from them. */
module Plugins {
  import opened Seqs
  import opened Graphs

  /** What a plugin's Configure returns: nil, ErrDisabled, or another error. */
  datatype Configuration = Accepted | OptedOut | Broken

  datatype Plugin = Plugin(name: string, depends: seq<string>, softDepends: seq<string>, configuration: Configuration)

  function Names(plugins: seq<Plugin>): (r: seq<string>)
    ensures |r| == |plugins|
    ensures forall i :: 0 <= i < |plugins| ==> r[i] == plugins[i].name
  {
    seq(|plugins|, i requires 0 <= i < |plugins| => plugins[i].name)
  }

  /** First occurrences only, in order. */
  function Distinct(s: seq<string>): (r: seq<string>)
    ensures NoDup(r) && |r| <= |s|
    ensures forall x :: x in r <==> x in s
  {
    if s == [] then []
    else
      var front := Distinct(s[..|s| - 1]);
      assert s == s[..|s| - 1] + [s[|s| - 1]];
      if s[|s| - 1] in front then front else front + [s[|s| - 1]]
  }

  /** The soft dependencies that count: present in the build and not already hard ones. */
  function SoftExtras(hard: seq<string>, soft: seq<string>, present: set<string>): seq<string> {
    Filter(Distinct(soft), Counts(hard, present))
  }

  function Counts(hard: seq<string>, present: set<string>): string -> bool {
    d => d in present && d !in hard
  }

  /** The dependency list the sort works from. */
  function EffectiveDeps(hard: seq<string>, soft: seq<string>, present: set<string>): seq<string> {
    Distinct(hard) + SoftExtras(hard, soft, present)
  }

  function DependencySet(p: Plugin, present: set<string>): set<string> {
    Elems(p.depends) + (Elems(p.softDepends) * present)
  }

  /** Who must start before whom, among the configured plugins. */
  function DependencyGraph(configured: map<string, Plugin>): Graph {
    map n | n in configured :: DependencySet(configured[n], configured.Keys)
  }

  /** An edge for each hard dependency, and for each soft one whose plugin takes part. */
  lemma EdgeMeaning(configured: map<string, Plugin>, n: string, d: string)
    requires n in configured
    ensures n in DependencyGraph(configured)
    ensures var g := DependencyGraph(configured);
            (d in g[n] <==> d in configured[n].depends || (d in configured[n].softDepends && d in configured))
  {
  }

  /** Removing repeats keeps the first occurrence of every name, and the names in the order of those. */
  lemma {:induction false} DistinctInOrder(s: seq<string>, i: nat, j: nat)
    requires i < j < |Distinct(s)|
    ensures FirstAt(s, Distinct(s)[i]) < FirstAt(s, Distinct(s)[j])
  {
    var front, d := s[..|s| - 1], Distinct(s);
    var e := Distinct(front);
    assert s == front + [s[|s| - 1]];
    FirstAtPrefix(s, d[i]);
    FirstAtPrefix(s, d[j]);
    if j < |e| {
      DistinctInOrder(front, i, j);
    }
  }

  /** Where a name first occurs; past the end if it does not. */
  function FirstAt(s: seq<string>, x: string): (k: nat)
    ensures k <= |s| && (k < |s| ==> s[k] == x) && forall i :: 0 <= i < k ==> s[i] != x
  {
    if s == [] || s[0] == x then 0 else 1 + FirstAt(s[1..], x)
  }

  lemma FirstAtPrefix(s: seq<string>, x: string)
    requires s != []
    ensures var front := s[..|s| - 1];
            if x in front then FirstAt(s, x) == FirstAt(front, x) < |front|
            else x in s ==> FirstAt(s, x) == |front|
  {
    var front := s[..|s| - 1];
    var k, l := FirstAt(s, x), FirstAt(front, x);
    assert forall i :: 0 <= i < |front| ==> front[i] == s[i];
  }

  lemma {:induction false} FilterNoDup(s: seq<string>, keep: string -> bool)
    requires NoDup(s)
    ensures NoDup(Filter(s, keep))
  {
    if s != [] {
      FilterNoDup(s[1..], keep);
      FilterMembers(s[1..], keep);
    }
  }

  lemma EffectiveDepsMeaning(p: Plugin, present: set<string>)
    ensures NoDup(EffectiveDeps(p.depends, p.softDepends, present))
    ensures Elems(EffectiveDeps(p.depends, p.softDepends, present)) == DependencySet(p, present)
  {
    FilterNoDup(Distinct(p.softDepends), Counts(p.depends, present));
    FilterMembers(Distinct(p.softDepends), Counts(p.depends, present));
    NoDupConcat(Distinct(p.depends), SoftExtras(p.depends, p.softDepends, present));
  }

  /** Removes repeats in place: the first `n` cells hold the distinct names, the rest are untouched. */
  method Dedupe(a: array<string>) returns (n: nat)
    modifies a
    ensures n <= a.Length
    ensures a[..] == Distinct(old(a[..])) + old(a[..])[n..]
    ensures n == |Distinct(old(a[..]))|
  {
    ghost var was := a[..];
    var seen: set<string> := {};
    n := 0;
    var i := 0;
    while i < a.Length
      invariant n <= i <= a.Length && n == |Distinct(was[..i])|
      invariant a[..] == Overlay(Distinct(was[..i]), was)
      invariant seen == Elems(was[..i])
    {
      var v := a[i];
      assert v == a[..][i] == was[i];
      DistinctStep(was, i);
      if v !in seen {
        seen := seen + {v};
        a[n] := v;
        n := n + 1;
      }
      i := i + 1;
    }
    assert was[..i] == was;
  }

  /** Removing repeats once more, with leftovers of the first time behind, changes nothing. */
  lemma {:induction false} DistinctAbsorbs(s: seq<string>, n: nat, k: nat)
    requires n <= k <= |s| && Distinct(s[..n]) == s[..n] && forall i :: n <= i < k ==> s[i] in s[..n]
    ensures Distinct(s[..k]) == s[..n]
    decreases k
  {
    if n < k {
      DistinctAbsorbs(s, n, k - 1);
      assert s[k - 1] in s[..k - 1];
      DistinctStep(s, k - 1);
    }
  }

  lemma {:induction false} DistinctOfDistinct(d: seq<string>)
    requires NoDup(d)
    ensures Distinct(d) == d
  {
    if d != [] {
      var front, x := d[..|d| - 1], d[|d| - 1];
      DistinctOfDistinct(front);
      DistinctAppend(front, x);
      assert d == front + [x];
    }
  }

  lemma TwiceIsOnce(h: seq<string>, once: seq<string>)
    requires var d := Distinct(h); once == d + h[|d|..]
    ensures Distinct(once) == Distinct(h)
  {
    var d := Distinct(h);
    DistinctOfDistinct(d);
    assert once[..|d|] == d && once[..|once|] == once;
    DistinctAbsorbs(once, |d|, |once|);
  }

  lemma DistinctStep(was: seq<string>, i: nat)
    requires i < |was|
    ensures was[i] in was[..i] ==> Distinct(was[..i + 1]) == Distinct(was[..i])
    ensures was[i] !in was[..i] ==> Distinct(was[..i + 1]) == Distinct(was[..i]) + [was[i]]
    ensures was[i] !in was[..i] ==> var d := Distinct(was[..i]); Overlay(d + [was[i]], was) == Overlay(d, was)[|d| := was[i]]
    ensures Elems(was[..i + 1]) == Elems(was[..i]) + {was[i]}
  {
    PrefixGrows(was, i);
    DistinctAppend(was[..i], was[i]);
    assert was[..i + 1] == was[..i] + [was[i]];
    OverlayAppend(Distinct(was[..i]), was[i], was);
  }

  /**
   * The loader's dependency list for one plugin. `hard` and `soft` are the very slices the plugin
   * hands out, possibly one and the same; removing repeats and appending soft dependencies both write
   * into `hard`.
   */
  method CollectDeps(hard: array<string>, soft: array<string>, present: set<string>) returns (deps: seq<string>)
    modifies hard, soft
    ensures deps == EffectiveDeps(old(hard[..]), old(soft[..]), present)
    ensures hard[..] == Rewritten(old(hard[..]), old(soft[..]), present)
  {
    ghost var h := hard[..];
    var n := Dedupe(hard);
    deps := hard[..n];
    if hard == soft {
      TwiceIsOnce(h, hard[..]);
    }
    var m := Dedupe(soft);
    deps := AppendSoft(hard, h, deps, soft[..m], present);
  }

  /** Appends the soft dependencies that count, writing through to the array `deps` was cut from. */
  method AppendSoft(hard: array<string>, ghost h: seq<string>, start: seq<string>, soft: seq<string>,
                    present: set<string>)
    returns (deps: seq<string>)
    requires NoDup(soft) && (forall x :: x in start <==> x in h) && hard[..] == Overlay(start, h)
    modifies hard
    ensures deps == start + Filter(soft, Counts(h, present))
    ensures hard[..] == Overlay(deps, h)
  {
    ghost var keep := Counts(h, present);
    deps := start;
    assert start + [] == start;
    var i := 0;
    while i < |soft|
      invariant 0 <= i <= |soft|
      invariant deps == start + Filter(soft[..i], keep)
      invariant hard[..] == Overlay(deps, h)
    {
      var dep := soft[i];
      FilterMembers(soft[..i], keep);
      FilterAppend(soft[..i], dep, keep);
      assert soft[..i + 1] == soft[..i] + [dep];
      if dep in present && dep !in deps {
        OverlayAppend(deps, dep, h);
        if |deps| < hard.Length {
          hard[|deps|] := dep;
        }
        deps := deps + [dep];
      }
      i := i + 1;
    }
    assert soft[..i] == soft;
  }

  lemma OverlayAppend(top: seq<string>, x: string, base: seq<string>)
    ensures Overlay(top + [x], base) ==
            if |top| < |base| then Overlay(top, base)[|top| := x] else Overlay(top, base)
  {
  }

  /** `top` written over the start of `base`, which keeps its length. */
  function Overlay(top: seq<string>, base: seq<string>): (r: seq<string>)
    ensures |r| == |base|
  {
    if |top| <= |base| then top + base[|top|..] else top[..|base|]
  }

  /** What the plugin's own list of hard dependencies holds after one build. */
  function Rewritten(hard: seq<string>, soft: seq<string>, present: set<string>): seq<string> {
    Overlay(EffectiveDeps(hard, soft, present), hard)
  }

  /**
   * A build leaves a plugin's declared hard dependencies as they were, as a set, exactly when the
   * list had no repeats or no soft dependency was appended. Otherwise a soft one becomes hard.
   */
  lemma HardListKept(hard: seq<string>, soft: seq<string>, present: set<string>)
    ensures Elems(Rewritten(hard, soft, present)) == Elems(hard)
       <==> NoDup(hard) || SoftExtras(hard, soft, present) == []
  {
    var d, x, r := Distinct(hard), SoftExtras(hard, soft, present), Rewritten(hard, soft, present);
    FilterMembers(Distinct(soft), Counts(hard, present));
    DistinctLength(hard);
    if |d| < |hard| && x != [] {
      assert r[|d|] == x[0];
      assert r[|d|] in Elems(r) && x[0] in x;
    } else if x == [] {
      assert d + x == d;
      forall v | v in hard ensures v in r {
        var k :| 0 <= k < |d| && d[k] == v;
        assert r[k] == v;
      }
    } else {
      assert r == d;
    }
  }

  lemma {:induction false} DistinctLength(s: seq<string>)
    ensures |Distinct(s)| == |s| <==> NoDup(s)
  {
    if s != [] {
      var front := s[..|s| - 1];
      DistinctLength(front);
      if NoDup(s) {
        assert s[|s| - 1] !in front;
      } else if NoDup(front) {
        assert s[|s| - 1] in front;
      }
    }
  }

  /** A plugin that repeats a hard dependency and names a soft one turns the soft one hard. */
  lemma SoftBecomesHard(db: string, cache: string)
    requires db != cache
    ensures Rewritten([db, db], [cache], {db, cache}) == [db, cache]
  {
    DistinctAppend([db], db);
    DistinctAppend([], db);
    assert [db] + [db] == [db, db] && [] + [db] == [db];
    OneExtra([db, db], cache, {db, cache});
  }

  lemma OneExtra(hard: seq<string>, soft: string, present: set<string>)
    requires soft in present && soft !in hard
    ensures SoftExtras(hard, [soft], present) == [soft]
  {
    DistinctAppend([], soft);
    assert [] + [soft] == [soft];
    FilterAll([soft], Counts(hard, present));
  }

  lemma DistinctAppend(s: seq<string>, x: string)
    ensures Distinct(s + [x]) == if x in s then Distinct(s) else Distinct(s) + [x]
  {
    assert (s + [x])[..|s + [x]| - 1] == s;
  }
}
