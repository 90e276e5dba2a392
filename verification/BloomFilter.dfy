/** A Bloom filter over an array of 64-bit words, with double hashing. */
module BloomFilters {
  import opened Common

  type Data = seq<bv8>
  type Hash = Data -> (nat, nat)   // the two FNV sums, unsigned 64-bit numbers

  // --- One word ---

  /** The word with only bit `b` set: one shifted left `b` times. */
  function Bit(b: nat): bv64 {
    if b == 0 then 1 else Bit(b - 1) << 1
  }

  predicate Meets(w: bv64, mask: bv64) {
    w & mask != 0
  }

  lemma ShiftBoth(x: bv64, y: bv64)
    ensures (x << 1) & (y << 1) == (x & y) << 1
  {
  }

  lemma OddEven(x: bv64)
    ensures 1 & (x << 1) == 0 && (x << 1) & 1 == 0
  {
  }

  lemma {:induction false} BitsDisjoint(b: nat, c: nat)
    requires b != c
    ensures !Meets(Bit(b), Bit(c))
  {
    if b == 0 {
      OddEven(Bit(c - 1));
    } else if c == 0 {
      OddEven(Bit(b - 1));
    } else {
      ShiftBoth(Bit(b - 1), Bit(c - 1));
      BitsDisjoint(b - 1, c - 1);
    }
  }

  lemma ThreeUp(b: nat)
    ensures Bit(b + 3) == Bit(b) << 3
  {
    assert Bit(b + 2) == (Bit(b) << 1) << 1;
  }

  lemma NineUp(b: nat)
    ensures Bit(b + 9) == Bit(b) << 9
  {
    ThreeUp(b);
    ThreeUp(b + 3);
    ThreeUp(b + 6);
  }

  lemma TopBit()
    ensures Bit(63) != 0
  {
    NineUp(0);
    NineUp(9);
    NineUp(18);
    NineUp(27);
    NineUp(36);
    NineUp(45);
    NineUp(54);
  }

  lemma {:induction false} BitNonZero(b: nat)
    requires b < 64
    ensures Bit(b) != 0
    decreases 64 - b
  {
    if b == 63 {
      TopBit();
    } else {
      BitNonZero(b + 1);
      assert Bit(b + 1) == Bit(b) << 1;
      ShiftOfZero(Bit(b));
    }
  }

  lemma ShiftOfZero(x: bv64)
    requires x << 1 != 0
    ensures x != 0
  {
  }

  lemma OrSame(w: bv64, x: bv64)
    requires x != 0
    ensures Meets(w | x, x)
  {
  }

  lemma OrElsewhere(w: bv64, x: bv64, mask: bv64)
    requires x & mask == 0
    ensures (w | x) & mask == w & mask
  {
  }

  lemma OrOther(w: bv64, x: bv64, mask: bv64)
    requires !Meets(x, mask)
    ensures Meets(w | x, mask) == Meets(w, mask)
  {
    OrElsewhere(w, x, mask);
  }

  predicate HasBit(w: bv64, b: nat) {
    Meets(w, Bit(b))
  }

  function WithBit(w: bv64, b: nat): bv64 {
    w | Bit(b)
  }

  lemma SetsBit(w: bv64, b: nat)
    requires b < 64
    ensures HasBit(WithBit(w, b), b)
  {
    BitNonZero(b);
    OrSame(w, Bit(b));
  }

  lemma KeepsBit(w: bv64, b: nat, c: nat)
    requires b != c
    ensures HasBit(WithBit(w, b), c) == HasBit(w, c)
  {
    BitsDisjoint(b, c);
    OrOther(w, Bit(b), Bit(c));
  }

  // --- The array of words ---

  predicate IsSet(words: seq<bv64>, p: nat)
    requires p < 64 * |words|
  {
    HasBit(words[p / 64], p % 64)
  }

  /** Setting one position marks it and leaves every other position as it was. */
  lemma SetOne(words: seq<bv64>, p: nat, q: nat)
    requires p < 64 * |words| && q < 64 * |words|
    ensures var w := p / 64; IsSet(words[w := WithBit(words[w], p % 64)], q) <==> q == p || IsSet(words, q)
  {
    if q == p {
      SetsBit(words[p / 64], p % 64);
    } else if q / 64 == p / 64 {
      KeepsBit(words[p / 64], p % 64, q % 64);
    }
  }

  lemma MarksOneMore(before: seq<bv64>, after: seq<bv64>, p: nat)
    requires p < 64 * |before| && after == before[p / 64 := WithBit(before[p / 64], p % 64)]
    ensures forall q: nat :: q < 64 * |before| ==> (IsSet(after, q) <==> q == p || IsSet(before, q))
  {
    forall q: nat | q < 64 * |before| ensures IsSet(after, q) <==> q == p || IsSet(before, q) {
      SetOne(before, p, q);
    }
  }

  /** The i-th position of double hashing; the unsigned sum and product wrap at 2^64. */
  function Position(h: (nat, nat), i: nat, size: nat): (p: nat)
    requires size > 0
    ensures p < size
  {
    (h.0 + i * h.1) % TWO64 % size
  }

  /** Double hashing: the i-th position is h1 + i * h2, modulo 2^64 and then modulo the size. */
  lemma PositionMeaning(h: (nat, nat), i: nat, size: nat)
    requires size > 0
    ensures exists k: nat, l: nat :: h.0 + i * h.1 == k * TWO64 + (l * size + Position(h, i, size))
                                     && l * size + Position(h, i, size) < TWO64
  {
    var x := h.0 + i * h.1;
    var y := x % TWO64;
    assert x == (x / TWO64) * TWO64 + y;
    assert y == (y / size) * size + y % size;
  }

  function PositionsOf(h: (nat, nat), hashes: nat, size: nat): set<nat>
    requires size > 0
  {
    set i | 0 <= i < hashes :: Position(h, i, size)
  }

  class BloomFilter {
    const bits: array<bv64>
    const size: nat
    const hashes: nat
    const hash: Hash

    ghost predicate Valid() {
      bits.Length > 0 && size == 64 * bits.Length
    }

    /** The positions whose bit is set. */
    ghost function Marked(): set<nat>
      requires Valid()
      reads bits
    {
      set p: nat | p < size && IsSet(bits[..], p)
    }

    constructor (words: nat, hashes: nat, hash: Hash)
      requires words > 0
      ensures Valid() && fresh(bits) && Marked() == {}
      ensures size == 64 * words && this.hashes == hashes && this.hash == hash
    {
      bits := new bv64[words](_ => 0);
      size := 64 * words;
      this.hashes, this.hash := hashes, hash;
    }

    method Positions(data: Data) returns (r: seq<nat>)
      requires Valid()
      ensures |r| == hashes && forall i :: 0 <= i < hashes ==> r[i] == Position(hash(data), i, size)
    {
      var h := hash(data);
      r := [];
      var i := 0;
      while i < hashes
        invariant 0 <= i <= hashes && |r| == i
        invariant forall j :: 0 <= j < i ==> r[j] == Position(h, j, size)
      {
        r := r + [(h.0 + i * h.1) % TWO64 % size];
        i := i + 1;
      }
    }

    method Add(data: Data)
      requires Valid()
      modifies bits
      ensures Marked() == old(Marked()) + PositionsOf(hash(data), hashes, size)
    {
      var positions := Positions(data);
      var i := 0;
      while i < |positions|
        invariant 0 <= i <= |positions|
        invariant Marked() == old(Marked()) + PositionsOf(hash(data), i, size)
      {
        MarkOne(positions[i]);
        i := i + 1;
      }
    }

    method MarkOne(p: nat)
      requires Valid() && p < size
      modifies bits
      ensures Marked() == old(Marked()) + {p}
    {
      ghost var before := bits[..];
      var w := p / 64;
      bits[w] := WithBit(bits[w], p % 64);
      assert bits[..] == before[w := WithBit(before[w], p % 64)];
      MarksOneMore(before, bits[..], p);
    }

    method IsMarked(p: nat) returns (r: bool)
      requires Valid() && p < size
      ensures r <==> p in Marked()
    {
      r := HasBit(bits[p / 64], p % 64);
      assert bits[p / 64] == bits[..][p / 64];
    }

    method Contains(data: Data) returns (r: bool)
      requires Valid()
      ensures r <==> PositionsOf(hash(data), hashes, size) <= Marked()
    {
      var positions := Positions(data);
      ghost var wanted := PositionsOf(hash(data), hashes, size);
      assert forall i :: 0 <= i < hashes ==> positions[i] in wanted;
      var i := 0;
      while i < |positions|
        invariant 0 <= i <= |positions|
        invariant forall j :: 0 <= j < i ==> positions[j] in Marked()
      {
        var marked := IsMarked(positions[i]);
        if !marked {
          return false;
        }
        i := i + 1;
      }
      r := true;
    }

    method Clear()
      requires Valid()
      modifies bits
      ensures Marked() == {}
    {
      var i := 0;
      while i < bits.Length
        invariant 0 <= i <= bits.Length
        invariant forall j :: 0 <= j < i ==> bits[j] == 0
      {
        bits[i] := 0;
        i := i + 1;
      }
      forall p: nat | p < size
        ensures !IsSet(bits[..], p)
      {
        assert bits[..][p / 64] == 0;
      }
    }
  }

  // --- Every history of calls ---

  datatype Call = Add(data: Data) | Clear

  datatype Filter = Filter(hash: Hash, hashes: nat, size: nat)

  function MarksOf(f: Filter, d: Data): set<nat>
    requires f.size > 0
  {
    PositionsOf(f.hash(d), f.hashes, f.size)
  }

  /** The marked positions after a history, call by call. */
  function After(f: Filter, history: seq<Call>): set<nat>
    requires f.size > 0
  {
    if history == [] then {}
    else match history[|history| - 1]
      case Clear => {}
      case Add(d) => After(f, history[..|history| - 1]) + MarksOf(f, d)
  }

  /** The k-th call added `d` and no later call cleared the filter. */
  predicate AddedAt(history: seq<Call>, d: Data, k: nat) {
    && k < |history| && history[k] == Call.Add(d)
    && forall j :: k < j < |history| ==> history[j].Add?
  }

  predicate Added(history: seq<Call>, d: Data) {
    exists k: nat | k < |history| :: AddedAt(history, d, k)
  }

  lemma AddedStep(history: seq<Call>, d: Data)
    requires history != []
    ensures var n := |history| - 1;
            Added(history, d) <==> history[n] == Call.Add(d) || (history[n].Add? && Added(history[..n], d))
  {
    var n := |history| - 1;
    if Added(history, d) {
      var k: nat :| k < |history| && AddedAt(history, d, k);
      if k < n {
        assert AddedAt(history[..n], d, k);
      }
    }
    if history[n] == Call.Add(d) {
      assert AddedAt(history, d, n);
    } else if history[n].Add? && Added(history[..n], d) {
      var k: nat :| k < n && AddedAt(history[..n], d, k);
      assert AddedAt(history, d, k);
    }
  }

  /** A position is marked exactly when it belongs to an element added since the last Clear. */
  lemma {:induction false} MarkedMeaning(f: Filter, history: seq<Call>, p: nat)
    requires f.size > 0
    ensures p in After(f, history) <==> exists d :: Added(history, d) && p in MarksOf(f, d)
  {
    if history != [] {
      var n := |history| - 1;
      MarkedMeaning(f, history[..n], p);
      forall d {
        AddedStep(history, d);
      }
      if history[n].Add? && p in MarksOf(f, history[n].data) {
        assert Added(history, history[n].data);
      }
    }
  }

  /** No false negatives: after any history, an element added since the last Clear is reported. */
  lemma NoFalseNegatives(f: Filter, history: seq<Call>, d: Data)
    requires f.size > 0 && Added(history, d)
    ensures MarksOf(f, d) <= After(f, history)
  {
    forall p | p in MarksOf(f, d)
      ensures p in After(f, history)
    {
      MarkedMeaning(f, history, p);
    }
  }

  /** After a Clear, or before any Add, a filter with at least one hash reports nothing. */
  lemma EmptyReportsNothing(f: Filter, history: seq<Call>, d: Data)
    requires f.size > 0 && f.hashes > 0 && (history == [] || history[|history| - 1] == Clear)
    ensures !(MarksOf(f, d) <= After(f, history))
  {
    assert Position(f.hash(d), 0, f.size) in MarksOf(f, d);
  }

  /** A positive answer means that elements added since the last Clear cover every position of the one asked for. */
  lemma PositiveMeans(f: Filter, history: seq<Call>, d: Data)
    requires f.size > 0
    ensures MarksOf(f, d) <= After(f, history)
            <==> forall p :: p in MarksOf(f, d) ==> exists e :: Added(history, e) && p in MarksOf(f, e)
  {
    forall p | p in MarksOf(f, d)
      ensures p in After(f, history) <==> exists e :: Added(history, e) && p in MarksOf(f, e)
    {
      MarkedMeaning(f, history, p);
    }
  }
}
