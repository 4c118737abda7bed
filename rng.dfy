/**
 * The random choices of the ensembles (System.Random), passed in as data.
 *
 * A `Stream` lists the choices an instance of System.Random makes; `pos` is how
 * many of them have been consumed. `Next(n)` at position p is rng(p) when that
 * lies in [0, n) (and 0 otherwise), so every sequence of choices is the
 * reading of some stream; probabilities are not modelled. A shuffle
 * `OrderBy(_ => random.Next())` consumes one value per element; it is modelled
 * as drawing the next element from what is left, which reaches every ordering.
 */
module Rng {
  import opened Vectors

  type Stream = int -> int

  /** random.Next(n) for n > 0. */
  function Draw(rng: Stream, pos: nat, n: nat): (r: nat)
    requires n > 0
    ensures r < n
  {
    var v := rng(pos);
    if 0 <= v < n then v else 0
  }

  /** xs without its element at index j. */
  function RemoveAt<T>(xs: seq<T>, j: nat): (r: seq<T>)
    requires j < |xs|
    ensures |r| == |xs| - 1
    ensures multiset(r) == multiset(xs) - multiset{xs[j]}
  {
    assert xs == xs[..j] + [xs[j]] + xs[j + 1..];
    xs[..j] + xs[j + 1..]
  }

  /** A stream-driven reordering of xs and the position after it. */
  function Shuffle<T>(xs: seq<T>, rng: Stream, pos: nat): (r: (seq<T>, nat))
    ensures |r.0| == |xs| && r.1 == pos + |xs|
    decreases |xs|
  {
    if xs == [] then ([], pos)
    else
      var j := Draw(rng, pos, |xs|);
      var rest := Shuffle(RemoveAt(xs, j), rng, pos + 1);
      ([xs[j]] + rest.0, rest.1)
  }

  /** A shuffle is a permutation. */
  lemma {:induction false} ShufflePermutes<T>(xs: seq<T>, rng: Stream, pos: nat)
    ensures multiset(Shuffle(xs, rng, pos).0) == multiset(xs)
    decreases |xs|
  {
    if xs != [] {
      var j := Draw(rng, pos, |xs|);
      ShufflePermutes(RemoveAt(xs, j), rng, pos + 1);
      var rest := Shuffle(RemoveAt(xs, j), rng, pos + 1).0;
      assert multiset([xs[j]] + rest) == multiset{xs[j]} + multiset(rest);
    }
  }

  /** Every ordering of xs is the shuffle of some stream. */
  lemma {:induction false} ShuffleReachesEveryOrder<T>(xs: seq<T>, ys: seq<T>, pos: nat)
    requires multiset(ys) == multiset(xs)
    ensures exists rng: Stream :: Shuffle(xs, rng, pos).0 == ys
    decreases |xs|
  {
    if xs == [] {
      assert |ys| == |multiset(ys)| == 0;
      var rng: Stream := _ => 0;
      assert Shuffle(xs, rng, pos).0 == ys;
    } else {
      assert |ys| == |multiset(ys)| == |xs|;
      assert ys[0] in multiset(xs);
      var j :| 0 <= j < |xs| && xs[j] == ys[0];
      var xs' := RemoveAt(xs, j);
      assert multiset(ys[1..]) == multiset(xs') by {
        assert ys == [ys[0]] + ys[1..];
        assert multiset(ys) == multiset{ys[0]} + multiset(ys[1..]);
      }
      ShuffleReachesEveryOrder(xs', ys[1..], pos + 1);
      var tail :| Shuffle(xs', tail, pos + 1).0 == ys[1..];
      var rng := ShuffleStep(xs, tail, pos, j);
      assert [ys[0]] + ys[1..] == ys;
    }
  }

  /** Choosing element j first, then continuing as `tail` does. */
  lemma ShuffleStep<T>(xs: seq<T>, tail: Stream, pos: nat, j: nat) returns (rng: Stream)
    requires j < |xs|
    ensures Shuffle(xs, rng, pos).0 == [xs[j]] + Shuffle(RemoveAt(xs, j), tail, pos + 1).0
  {
    rng := p => if p == pos then j else tail(p);
    ShuffleReadsFrom(RemoveAt(xs, j), rng, tail, pos + 1);
    assert Draw(rng, pos, |xs|) == j;
  }

  /** A shuffle reads only the stream positions it consumes. */
  lemma {:induction false} ShuffleReadsFrom<T>(xs: seq<T>, a: Stream, b: Stream, pos: nat)
    requires forall p | pos <= p :: a(p) == b(p)
    ensures Shuffle(xs, a, pos) == Shuffle(xs, b, pos)
    decreases |xs|
  {
    if xs != [] {
      var j := Draw(a, pos, |xs|);
      ShuffleReadsFrom(RemoveAt(xs, j), a, b, pos + 1);
    }
  }

  predicate Distinct<T(==)>(xs: seq<T>)
  {
    forall i, j | 0 <= i < j < |xs| :: xs[i] != xs[j]
  }

  lemma {:induction false} DistinctCount<T>(xs: seq<T>, x: T)
    requires Distinct(xs)
    ensures multiset(xs)[x] <= 1
    decreases |xs|
  {
    if xs != [] {
      var p := xs[..|xs| - 1];
      DistinctCount(p, x);
      assert xs == p + [xs[|xs| - 1]];
      if xs[|xs| - 1] == x {
        assert x !in p;
      }
    }
  }

  lemma RepeatCount<T>(ys: seq<T>, i: nat, j: nat)
    requires i < j < |ys| && ys[i] == ys[j]
    ensures multiset(ys)[ys[i]] >= 2
  {
    assert ys == ys[..i] + [ys[i]] + ys[i + 1..j] + [ys[j]] + ys[j + 1..];
  }

  /** Reordering keeps a list free of repeats. */
  lemma PermutationDistinct<T>(xs: seq<T>, ys: seq<T>)
    requires multiset(xs) == multiset(ys) && Distinct(xs)
    ensures Distinct(ys)
  {
    forall i, j | 0 <= i < j < |ys| ensures ys[i] != ys[j] {
      if ys[i] == ys[j] {
        RepeatCount(ys, i, j);
        DistinctCount(xs, ys[i]);
      }
    }
  }

  /** f applied to each element, in order. */
  function Map<T, U>(f: T -> U, xs: seq<T>): (ys: seq<U>)
    ensures |ys| == |xs| && forall i | 0 <= i < |xs| :: ys[i] == f(xs[i])
  {
    seq(|xs|, i requires 0 <= i < |xs| => f(xs[i]))
  }

  /** Mapping commutes with reordering. */
  lemma {:induction false} MapPermutes<T, U>(f: T -> U, xs: seq<T>, ys: seq<T>)
    requires multiset(xs) == multiset(ys)
    ensures multiset(Map(f, xs)) == multiset(Map(f, ys))
    decreases |xs|
  {
    if xs == [] {
      assert |ys| == |multiset(ys)| == 0;
    } else {
      var x := xs[|xs| - 1];
      var xs' := xs[..|xs| - 1];
      assert xs == xs' + [x];
      assert Map(f, xs) == Map(f, xs') + [f(x)];
      assert x in multiset(ys);
      var j :| 0 <= j < |ys| && ys[j] == x;
      MapRemove(f, ys, j);
      MapPermutes(f, xs', RemoveAt(ys, j));
    }
  }

  /** Taking element j out of the list takes f of it out of the mapped list. */
  lemma MapRemove<T, U>(f: T -> U, ys: seq<T>, j: nat)
    requires j < |ys|
    ensures multiset(Map(f, ys)) == multiset(Map(f, RemoveAt(ys, j))) + multiset{f(ys[j])}
  {
    var a, b := ys[..j], ys[j + 1..];
    assert ys == (a + [ys[j]]) + b;
    MapAppend(f, a + [ys[j]], b);
    MapAppend(f, a, [ys[j]]);
    MapAppend(f, a, b);
    var ma, mb := Map(f, a), Map(f, b);
    assert multiset(Map(f, ys)) == multiset(ma) + multiset{f(ys[j])} + multiset(mb);
  }

  lemma MapAppend<T, U>(f: T -> U, a: seq<T>, b: seq<T>)
    ensures Map(f, a + b) == Map(f, a) + Map(f, b)
  {
  }

  /** Enumerable.Take(k): the first k elements, all of them when k exceeds the length, none when k is negative. */
  function Take<T>(xs: seq<T>, k: int): (r: seq<T>)
    ensures |r| == if k < 0 then 0 else if k > |xs| then |xs| else k
    ensures r == xs[..|r|]
  {
    if k < 0 then [] else if k > |xs| then xs else xs[..k]
  }

  /**
   * `Enumerable.Range(0, n).OrderBy(_ => random.Next()).Take(k)`: k clamped into
   * [0, n] distinct feature indices below n, and the position after the shuffle.
   */
  function ShuffledFeatures(n: nat, k: int, rng: Stream, pos: nat): (r: (seq<int>, nat))
    ensures r.1 == pos + n
  {
    var s := Shuffle(Range(n), rng, pos);
    (Take(s.0, k), s.1)
  }

  lemma ShuffledFeaturesProperties(n: nat, k: int, rng: Stream, pos: nat)
    ensures var fs := ShuffledFeatures(n, k, rng, pos).0;
      && |fs| == (if k < 0 then 0 else if k > n then n else k)
      && Distinct(fs) && InRange(fs, n)
  {
    var s := Shuffle(Range(n), rng, pos).0;
    ShuffledRange(n, rng, pos);
    TakeKeeps(s, k, n);
  }

  /** The chosen features are indices below n. */
  lemma ShuffledFeaturesInRange(n: nat, k: int, rng: Stream, pos: nat)
    ensures InRange(ShuffledFeatures(n, k, rng, pos).0, n)
  {
    ShuffledFeaturesProperties(n, k, rng, pos);
  }

  /** A shuffle of indices below n lists indices below n. */
  lemma ShuffleInRange(xs: seq<int>, n: nat, rng: Stream, pos: nat)
    requires InRange(xs, n)
    ensures InRange(Shuffle(xs, rng, pos).0, n)
  {
    var s := Shuffle(xs, rng, pos).0;
    ShufflePermutes(xs, rng, pos);
    forall i | 0 <= i < |s| ensures 0 <= s[i] < n {
      MultisetMember(xs, s, i);
    }
  }

  /** A shuffle of 0, ..., n-1 lists distinct indices below n. */
  lemma ShuffledRange(n: nat, rng: Stream, pos: nat)
    ensures var s := Shuffle(Range(n), rng, pos).0;
      Distinct(s) && InRange(s, n)
  {
    var s := Shuffle(Range(n), rng, pos).0;
    ShufflePermutes(Range(n), rng, pos);
    RangeDistinct(n);
    PermutationDistinct(Range(n), s);
    forall i | 0 <= i < |s| ensures 0 <= s[i] < n {
      MultisetMember(Range(n), s, i);
    }
  }

  lemma RangeDistinct(n: nat)
    ensures Distinct(Range(n))
  {
  }

  /** A prefix keeps distinctness and the index bound. */
  lemma TakeKeeps(xs: seq<int>, k: int, n: nat)
    requires Distinct(xs) && InRange(xs, n)
    ensures Distinct(Take(xs, k)) && InRange(Take(xs, k), n)
  {
    var fs := Take(xs, k);
    assert fs == xs[..|fs|];
  }

  lemma MultisetMember(xs: seq<int>, ys: seq<int>, i: nat)
    requires multiset(xs) == multiset(ys) && i < |ys|
    ensures ys[i] in xs
  {
    assert ys[i] in multiset(ys);
  }

  /**
   * The bootstrap draw `samples[random.Next(samples.Count)]`, samples.Count
   * times, and the stream position after it.
   */
  function Resampled<T>(xs: seq<T>, rng: Stream, pos: nat): (r: (seq<T>, nat))
    ensures |r.0| == |xs| && r.1 == pos + |xs|
  {
    var next: nat := pos + |xs|;
    (seq(|xs|, i requires 0 <= i < |xs| => xs[Draw(rng, pos + i, |xs|)]), next)
  }

  /** Every drawn element is an element of the list. */
  lemma ResampledFrom<T>(xs: seq<T>, rng: Stream, pos: nat)
    ensures forall i | 0 <= i < |xs| :: Resampled(xs, rng, pos).0[i] in xs
  {
    forall i | 0 <= i < |xs| ensures Resampled(xs, rng, pos).0[i] in xs {
      assert Resampled(xs, rng, pos).0[i] == xs[Draw(rng, pos + i, |xs|)];
    }
  }

  /** The resampling loop of the bagging ensembles. */
  method Resample<T>(xs: seq<T>, rng: Stream, pos: nat) returns (bag: seq<T>, pos': nat)
    ensures (bag, pos') == Resampled(xs, rng, pos)
    ensures |bag| == |xs| && forall i | 0 <= i < |bag| :: bag[i] in xs
  {
    bag := [];
    var i := 0;
    while i < |xs|
      invariant 0 <= i <= |xs|
      invariant bag == Resampled(xs, rng, pos).0[..i]
      invariant forall t | 0 <= t < i :: bag[t] == xs[Draw(rng, pos + t, |xs|)]
    {
      bag := bag + [xs[Draw(rng, pos + i, |xs|)]];
      i := i + 1;
    }
    assert Resampled(xs, rng, pos).0[..i] == Resampled(xs, rng, pos).0;
    pos' := pos + i;
  }
}
