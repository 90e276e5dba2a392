/** The loader's insertion sort and the two orders it is used with. */
module Sorting {
  import opened Seqs

  /** What a comparison must satisfy for a stable sort to be meaningful: a strict weak order. */
  ghost predicate StrictWeak<T(!new)>(less: (T, T) -> bool) {
    && (forall x, y :: less(x, y) ==> !less(y, x))
    && (forall x, y, z :: !less(x, y) && !less(y, z) ==> !less(x, z))
  }

  ghost predicate SortedBy<T>(s: seq<T>, less: (T, T) -> bool) {
    forall p, q :: 0 <= p < q < |s| ==> !less(s[q], s[p])
  }

  predicate Tied<T>(less: (T, T) -> bool, x: T, y: T) {
    !less(x, y) && !less(y, x)
  }

  /** The elements of `s` that `less` cannot tell from `x`, in order: what a stable sort keeps. */
  function TiedWith<T>(s: seq<T>, less: (T, T) -> bool, x: T): seq<T> {
    Filter(s, y => Tied(less, x, y))
  }

  ghost predicate Stable<T(!new)>(s: seq<T>, t: seq<T>, less: (T, T) -> bool) {
    forall x :: TiedWith(s, less, x) == TiedWith(t, less, x)
  }

  lemma SwapKeepsTies<T(!new)>(s: seq<T>, t: seq<T>, j: nat, less: (T, T) -> bool)
    requires StrictWeak(less) && 0 < j < |s| && less(s[j], s[j - 1])
    requires t == s[j := s[j - 1]][j - 1 := s[j]]
    ensures Stable(s, t, less) && multiset(s) == multiset(t)
  {
    var a, b := s[..j - 1], s[j + 1..];
    assert s == a + [s[j - 1], s[j]] + b;
    assert t == a + [s[j], s[j - 1]] + b;
    forall x ensures TiedWith(s, less, x) == TiedWith(t, less, x) {
      assert !(Tied(less, x, s[j - 1]) && Tied(less, x, s[j]));
      SwapKeepsFilter(a, b, s[j - 1], s[j], y => Tied(less, x, y));
    }
  }

  lemma SwapKeepsFilter<T>(a: seq<T>, b: seq<T>, x: T, y: T, keep: T -> bool)
    requires !(keep(x) && keep(y))
    ensures Filter(a + [x, y] + b, keep) == Filter(a + [y, x] + b, keep)
  {
    FilterConcat(a + [x, y], b, keep);
    FilterConcat(a, [x, y], keep);
    FilterConcat(a + [y, x], b, keep);
    FilterConcat(a, [y, x], keep);
    PairTies(x, y, keep);
    PairTies(y, x, keep);
  }

  lemma PairTies<T>(x: T, y: T, keep: T -> bool)
    ensures Filter([x, y], keep) == (if keep(x) then [x] else []) + (if keep(y) then [y] else [])
  {
    FilterAppend([x], y, keep);
    FilterAppend([], x, keep);
    assert [x, y] == [x] + [y] && [x] == [] + [x];
  }

  /** Insertion sort in place: the result is sorted, a permutation, and keeps the order of ties. */
  method SortSliceStable<T(!new)>(list: array<T>, less: (T, T) -> bool)
    requires StrictWeak(less)
    modifies list
    ensures SortedBy(list[..], less)
    ensures multiset(list[..]) == multiset(old(list[..]))
    ensures Stable(old(list[..]), list[..], less)
  {
    var i := 1;
    while i < list.Length
      invariant 1 <= i
      invariant SortedBy(list[..if i <= list.Length then i else list.Length], less)
      invariant multiset(list[..]) == multiset(old(list[..]))
      invariant Stable(old(list[..]), list[..], less)
    {
      Insert(list, i, less);
      i := i + 1;
    }
    assert list[..] == list[..list.Length];
  }

  /** One round of the sort: moves `list[i]` left to its place among `list[..i]`. */
  method Insert<T(!new)>(list: array<T>, i: nat, less: (T, T) -> bool)
    requires StrictWeak(less) && 0 < i < list.Length && SortedBy(list[..i], less)
    modifies list
    ensures SortedBy(list[..i + 1], less)
    ensures multiset(list[..]) == multiset(old(list[..]))
    ensures Stable(old(list[..]), list[..], less)
  {
    var j := i;
    assert forall p, q :: 0 <= p < q < i ==> !less(list[..i][q], list[..i][p]);
    while j > 0 && less(list[j], list[j - 1])
      invariant 0 <= j <= i
      invariant forall p, q :: 0 <= p < q <= i && q != j ==> !less(list[q], list[p])
      invariant multiset(list[..]) == multiset(old(list[..]))
      invariant Stable(old(list[..]), list[..], less)
    {
      ghost var before := list[..];
      list[j], list[j - 1] := list[j - 1], list[j];
      SwapKeepsTies(before, list[..], j, less);
      j := j - 1;
    }
    forall p | 0 <= p < j ensures !less(list[j], list[p]) {
      assert p < j - 1 ==> !less(list[j - 1], list[p]);
    }
  }

  /** Go's `<` on strings. Ordering by code point agrees with ordering by UTF-8 byte. */
  predicate StrLess(a: string, b: string) {
    b != [] && (a == [] || a[0] < b[0] || (a[0] == b[0] && StrLess(a[1..], b[1..])))
  }

  /** `a` and `b` agree up to `k`, where `a` ends or has the smaller character. */
  predicate LessAt(a: string, b: string, k: nat) {
    k <= |a| && k < |b| && a[..k] == b[..k] && (k == |a| || a[k] < b[k])
  }

  /** What dictionary order means: a proper prefix, or the smaller character where the two first differ. */
  lemma {:induction false} StrLessMeaning(a: string, b: string)
    ensures StrLess(a, b) <==> exists k: nat :: LessAt(a, b, k)
  {
    if a == [] || b == [] {
      assert b != [] ==> LessAt(a, b, 0);
    } else {
      StrLessMeaning(a[1..], b[1..]);
      if a[0] == b[0] {
        SameHead(a, b);
      } else {
        assert a[0] < b[0] ==> LessAt(a, b, 0);
        forall k: nat | k > 0 ensures !LessAt(a, b, k) {
          assert k <= |a| && k < |b| ==> a[..k][0] != b[..k][0];
        }
      }
    }
  }

  lemma SameHead(a: string, b: string)
    requires a != [] && b != [] && a[0] == b[0]
    ensures (exists k: nat :: LessAt(a, b, k)) <==> exists k: nat :: LessAt(a[1..], b[1..], k)
  {
    if k: nat :| LessAt(a, b, k) {
      assert k > 0;
      assert a[1..][..k - 1] == a[..k][1..] && b[1..][..k - 1] == b[..k][1..];
      assert LessAt(a[1..], b[1..], k - 1);
    }
    if k: nat :| LessAt(a[1..], b[1..], k) {
      assert a[..k + 1] == [a[0]] + a[1..][..k] && b[..k + 1] == [b[0]] + b[1..][..k];
      assert LessAt(a, b, k + 1);
    }
  }

  lemma {:induction false} StrLessAsymmetric(a: string, b: string)
    ensures !(StrLess(a, b) && StrLess(b, a))
  {
    if a != [] && b != [] {
      StrLessAsymmetric(a[1..], b[1..]);
    }
  }

  lemma {:induction false} StrLessNegTransitive(a: string, b: string, c: string)
    requires !StrLess(a, b) && !StrLess(b, c)
    ensures !StrLess(a, c)
  {
    if a != [] && b != [] && c != [] && a[0] == b[0] == c[0] {
      StrLessNegTransitive(a[1..], b[1..], c[1..]);
    }
  }

  lemma {:induction false} StrLessTotal(a: string, b: string)
    requires Tied(StrLess, a, b)
    ensures a == b
  {
    if a != [] && b != [] {
      StrLessTotal(a[1..], b[1..]);
      assert a == [a[0]] + a[1..] && b == [b[0]] + b[1..];
    }
  }

  lemma StrLessIsStrictWeak()
    ensures StrictWeak(StrLess)
  {
    forall a, b | StrLess(a, b) ensures !StrLess(b, a) {
      StrLessAsymmetric(a, b);
    }
    forall a, b, c | !StrLess(a, b) && !StrLess(b, c) ensures !StrLess(a, c) {
      StrLessNegTransitive(a, b, c);
    }
  }
}
