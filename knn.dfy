/**
 * KNN.cs and Models/KNN.cs: k-nearest-neighbour averaging.
 *
 * Predict measures the distance from the input to every stored sample,
 * sorts the samples by distance on a separate list, and averages the
 * outputs of the first min(k, samples.Count) of them, component by
 * component over samples[0].output.Length components. KNN.cs measures
 * with its own Distance, the Euclidean distance over the listed features;
 * Models/KNN.cs with a caller's delegate, the parameter `distance`, whose
 * exceptions are its Err results. List.Sort is unstable: among samples at
 * equal distance any order may come out, so Predict is specified for every
 * order of the samples by nondecreasing distance, and the order it used is
 * returned as a ghost result.
 */
module NearestNeighbours {
  import opened Wrappers
  import opened Vectors
  import opened Samples
  import opened Rng

  /** A distance between two inputs over a feature list; an Err is an exception. */
  type DistanceFn = (Vec, Vec, seq<int>) -> Result<real>

  /**
   * KNN.Distance: the squared differences over the listed features, summed;
   * a feature past the end of either vector throws. The source takes the
   * square root of the sum; the root keeps the order of distances, which
   * is all Predict uses, so it is left out.
   */
  function Distance(a: Vec, b: Vec, features: seq<int>): Result<real>
  {
    if InRange(features, |a|) && InRange(features, |b|) then Ok(DiffSumOn(Squared, a, b, features))
    else Err(OutOfRange)
  }

  /** a and a', and b and b', agree on every listed feature. */
  predicate SameOn(a: Vec, b: Vec, a': Vec, b': Vec, features: seq<int>)
    requires InRange(features, |a|) && InRange(features, |b|) && InRange(features, |a'|) && InRange(features, |b'|)
  {
    forall k | 0 <= k < |features| :: a[features[k]] == a'[features[k]] && b[features[k]] == b'[features[k]]
  }

  /**
   * Distance succeeds exactly when every listed feature is a component of
   * both vectors; it is then non-negative, symmetric, and depends only on
   * the listed components.
   */
  lemma DistanceFacts(a: Vec, b: Vec, a': Vec, b': Vec, features: seq<int>)
    ensures Distance(a, b, features).Ok? <==> InRange(features, |a|) && InRange(features, |b|)
    ensures Distance(a, b, features).Ok? ==>
      Distance(a, b, features).value >= 0.0 && Distance(b, a, features) == Distance(a, b, features)
    ensures Distance(a, b, features).Ok? && InRange(features, |a'|) && InRange(features, |b'|) && SameOn(a, b, a', b', features) ==>
      Distance(a', b', features) == Distance(a, b, features)
  {
    if InRange(features, |a|) && InRange(features, |b|) {
      DiffSumOnNonNegative(Squared, a, b, features);
      if InRange(features, |a'|) && InRange(features, |b'|) && SameOn(a, b, a', b', features) {
        DiffSumOnReadsOnly(Squared, a, b, a', b', features);
      }
    }
  }

  /** The distance loop: the input's distance to every sample, in sample order; the first exception ends it. */
  function Distances(distance: DistanceFn, input: Vec, samples: seq<Sample>, features: seq<int>): (r: Result<seq<real>>)
    ensures r.Ok? ==> |r.value| == |samples|
    ensures r.Ok? ==> forall j | 0 <= j < |samples| :: distance(input, samples[j].input, features) == Ok(r.value[j])
    ensures r.Err? <==> exists j | 0 <= j < |samples| :: distance(input, samples[j].input, features).Err?
    decreases |samples|
  {
    if samples == [] then Ok([])
    else
      var last := |samples| - 1;
      match Distances(distance, input, samples[..last], features)
      case Err(e) => Err(e)
      case Ok(ds) =>
        match distance(input, samples[last].input, features)
        case Err(e) => Err(e)
        case Ok(d) => Ok(ds + [d])
  }

  /** An exception among the first samples is the exception of the whole loop. */
  lemma {:induction false} DistancesPrefix(distance: DistanceFn, input: Vec, samples: seq<Sample>, features: seq<int>, j: nat)
    requires j <= |samples| && Distances(distance, input, samples[..j], features).Err?
    ensures Distances(distance, input, samples, features) == Distances(distance, input, samples[..j], features)
    decreases |samples|
  {
    if j < |samples| {
      var last := |samples| - 1;
      assert samples[..last][..j] == samples[..j];
      DistancesPrefix(distance, input, samples[..last], features, j);
    } else {
      assert samples[..j] == samples;
    }
  }

  // ---------------------------------------------------------------------
  // The sort

  /** The distances read along the order do not decrease. */
  predicate Ascending(ds: seq<real>, order: seq<int>)
    requires InRange(order, |ds|)
  {
    forall i, j | 0 <= i < j < |order| :: ds[order[i]] <= ds[order[j]]
  }

  /** Every distance read along the order is at least b. */
  predicate AtLeast(ds: seq<real>, order: seq<int>, b: real)
    requires InRange(order, |ds|)
  {
    forall i | 0 <= i < |order| :: b <= ds[order[i]]
  }

  /** The sample indices, each once, by nondecreasing distance: what sorting the (sample, distance) list may give. */
  predicate SortedOrder(ds: seq<real>, order: seq<int>)
  {
    && |order| == |ds| && multiset(order) == multiset(Range(|ds|))
    && InRange(order, |ds|) && Ascending(ds, order)
  }

  /** Index x inserted before the first index of a larger distance. */
  function Insert(ds: seq<real>, order: seq<int>, x: int): (r: seq<int>)
    requires InRange(order, |ds|) && 0 <= x < |ds|
    ensures |r| == |order| + 1 && InRange(r, |ds|) && multiset(r) == multiset(order) + multiset{x}
  {
    if order == [] || ds[x] <= ds[order[0]] then [x] + order
    else
      assert order == [order[0]] + order[1..];
      [order[0]] + Insert(ds, order[1..], x)
  }

  /** The tail of an ascending order is ascending and no nearer than its head. */
  lemma AscendingTail(ds: seq<real>, order: seq<int>)
    requires InRange(order, |ds|) && order != [] && Ascending(ds, order)
    ensures InRange(order[1..], |ds|) && Ascending(ds, order[1..]) && AtLeast(ds, order[1..], ds[order[0]])
  {
    var tail := order[1..];
    forall i | 0 <= i < |tail| ensures ds[order[0]] <= ds[tail[i]] {
      assert tail[i] == order[i + 1];
    }
    forall i, j | 0 <= i < j < |tail| ensures ds[tail[i]] <= ds[tail[j]] {
      assert tail[i] == order[i + 1] && tail[j] == order[j + 1];
    }
  }

  /** An index no farther than anything in an ascending order, put in front, keeps it ascending. */
  lemma AscendingCons(ds: seq<real>, a: int, rest: seq<int>)
    requires 0 <= a < |ds| && InRange(rest, |ds|) && Ascending(ds, rest) && AtLeast(ds, rest, ds[a])
    ensures InRange([a] + rest, |ds|) && Ascending(ds, [a] + rest)
  {
    var o := [a] + rest;
    forall i, j | 0 <= i < j < |o| ensures ds[o[i]] <= ds[o[j]] {
      assert o[j] == rest[j - 1];
      if i > 0 {
        assert o[i] == rest[i - 1];
      }
    }
  }

  /** Inserting an index no nearer than b keeps every distance at least b. */
  lemma {:induction false} InsertAtLeast(ds: seq<real>, order: seq<int>, x: int, b: real)
    requires InRange(order, |ds|) && 0 <= x < |ds| && AtLeast(ds, order, b) && b <= ds[x]
    ensures AtLeast(ds, Insert(ds, order, x), b)
    decreases |order|
  {
    if order != [] && ds[order[0]] < ds[x] {
      var tail := order[1..];
      assert AtLeast(ds, tail, b) by {
        forall i | 0 <= i < |tail| ensures b <= ds[tail[i]] {
          assert tail[i] == order[i + 1];
        }
      }
      InsertAtLeast(ds, tail, x, b);
      var r := Insert(ds, order, x);
      forall i | 0 <= i < |r| ensures b <= ds[r[i]] {
        if i > 0 {
          assert r[i] == Insert(ds, tail, x)[i - 1];
        }
      }
    }
  }

  /** Inserting into an ascending order keeps it ascending. */
  lemma {:induction false} InsertAscending(ds: seq<real>, order: seq<int>, x: int)
    requires InRange(order, |ds|) && 0 <= x < |ds| && Ascending(ds, order)
    ensures Ascending(ds, Insert(ds, order, x))
    decreases |order|
  {
    if order == [] || ds[x] <= ds[order[0]] {
      var o := [x] + order;
      if order != [] {
        AscendingTail(ds, order);
        assert AtLeast(ds, order, ds[x]) by {
          forall i | 0 <= i < |order| ensures ds[x] <= ds[order[i]] {
            if i > 0 {
              assert order[1..][i - 1] == order[i];
            }
          }
        }
      }
      AscendingCons(ds, x, order);
    } else {
      AscendingTail(ds, order);
      var tail := order[1..];
      InsertAscending(ds, tail, x);
      InsertAtLeast(ds, tail, x, ds[order[0]]);
      AscendingCons(ds, order[0], Insert(ds, tail, x));
    }
  }

  /** List.Sort on the first m samples, by insertion. */
  function SortIndices(ds: seq<real>, m: nat): (order: seq<int>)
    requires m <= |ds|
    ensures |order| == m && InRange(order, |ds|) && multiset(order) == multiset(Range(m))
  {
    if m == 0 then []
    else
      assert Range(m) == Range(m - 1) + [m - 1];
      Insert(ds, SortIndices(ds, m - 1), m - 1)
  }

  /** The sort returns every sample index once, by nondecreasing distance. */
  lemma {:induction false} SortIndicesSorted(ds: seq<real>, m: nat)
    requires m <= |ds|
    ensures Ascending(ds, SortIndices(ds, m))
    ensures m == |ds| ==> SortedOrder(ds, SortIndices(ds, m))
  {
    if m > 0 {
      SortIndicesSorted(ds, m - 1);
      InsertAscending(ds, SortIndices(ds, m - 1), m - 1);
    }
  }

  // ---------------------------------------------------------------------
  // Averaging the nearest

  /** The output of sample i. */
  function OutputAt(samples: seq<Sample>, i: int): Vec
  {
    if 0 <= i < |samples| then samples[i].output else []
  }

  /** The outputs of the first m samples along the order. */
  function Neighbours(samples: seq<Sample>, order: seq<int>, m: nat): seq<Vec>
    requires m <= |order|
  {
    Map(i => OutputAt(samples, i), order[..m])
  }

  /** Math.Min(k, n). */
  function MinK(k: int, n: nat): int
  {
    if k < n then k else n
  }

  /**
   * The averaging loops over a sorted order: the mean of the first
   * min(k, n) outputs over samples[0].output.Length components (an output
   * too short for them throws). With min(k, n) zero, each component is
   * 0/0, NaN; with it negative, 0 divided by it, zero.
   */
  function KnnAverage(samples: seq<Sample>, order: seq<int>, k: int): (y: Result<Vec>)
    requires |samples| > 0 && |order| == |samples|
    ensures y.Ok? ==> |y.value| == |samples[0].output|
  {
    var dout := |samples[0].output|;
    var m := MinK(k, |samples|);
    if m > 0 then
      var outs := Neighbours(samples, order, m);
      if Wide(outs, dout) then Ok(Mean(outs, dout)) else Err(OutOfRange)
    else if m < 0 || dout == 0 then Ok(Zeros(dout))
    else Err(Undefined)
  }

  /** Predict for a given sort result: the distance loop, then samples[0], then the average. */
  function Prediction(distance: DistanceFn, samples: seq<Sample>, features: seq<int>, k: int, input: Vec,
                      order: seq<int>): Result<Vec>
    requires |order| == |samples|
  {
    match Distances(distance, input, samples, features)
    case Err(e) => Err(e)
    case Ok(_) => if |samples| == 0 then Err(OutOfRange) else KnnAverage(samples, order, k)
  }

  /** Every sample index appears somewhere in a sorted order. */
  lemma IndexInOrder(ds: seq<real>, order: seq<int>, j: int) returns (p: nat)
    requires SortedOrder(ds, order) && 0 <= j < |ds|
    ensures p < |order| && order[p] == j
  {
    assert Range(|ds|)[j] == j;
    assert j in multiset(Range(|ds|));
    assert j in multiset(order);
    p :| 0 <= p < |order| && order[p] == j;
  }

  /**
   * The chosen samples are the nearest: every one of the first m along a
   * sorted order is at least as near as every sample not among them.
   */
  lemma NeighboursAreNearest(ds: seq<real>, order: seq<int>, m: nat, i: nat, j: int)
    requires SortedOrder(ds, order) && i < m <= |order| && 0 <= j < |ds| && j !in order[..m]
    ensures ds[order[i]] <= ds[j]
  {
    var p := IndexInOrder(ds, order, j);
  }

  /**
   * With k at least the number of samples, Predict is the mean of every
   * sample's output, whatever the input and however ties were sorted.
   */
  lemma AllNeighbours(samples: seq<Sample>, order: seq<int>, k: int)
    requires |samples| > 0 && |order| == |samples| && multiset(order) == multiset(Range(|samples|))
    requires k >= |samples| && Wide(Outputs(samples), |samples[0].output|)
    ensures KnnAverage(samples, order, k) == Ok(Mean(Outputs(samples), |samples[0].output|))
  {
    var n, dout := |samples|, |samples[0].output|;
    var f := i => OutputAt(samples, i);
    var outs := Neighbours(samples, order, n);
    assert order[..n] == order;
    MapPermutes(f, order, Range(n));
    assert Map(f, Range(n)) == Outputs(samples);
    forall c | 0 <= c < dout ensures Wide(outs, c + 1) && ColumnSum(outs, c) == ColumnSum(Outputs(samples), c) {
      ColumnSumPermutation(Outputs(samples), outs, c);
    }
    assert Wide(outs, dout) by {
      if dout > 0 {
        ColumnSumPermutation(Outputs(samples), outs, dout - 1);
      }
    }
    assert |outs| == n && MinK(k, n) == n;
    assert Mean(outs, dout) == Mean(Outputs(samples), dout);
  }

  /**
   * With k = 1, Predict is the output of the sample first in the sort, one
   * at the least distance (with ties, any of them).
   */
  lemma NearestOne(samples: seq<Sample>, ds: seq<real>, order: seq<int>)
    requires |samples| > 0 && |ds| == |samples| && SortedOrder(ds, order)
    requires |samples[0].output| <= |samples[order[0]].output|
    ensures KnnAverage(samples, order, 1) == Ok(samples[order[0]].output[..|samples[0].output|])
    ensures forall j | 0 <= j < |ds| :: ds[order[0]] <= ds[j]
  {
    var dout := |samples[0].output|;
    var outs := Neighbours(samples, order, 1);
    assert outs == [samples[order[0]].output];
    assert Wide(outs, dout);
    forall c | 0 <= c < dout ensures ColumnSum(outs, c) == outs[0][c] {
      assert outs[..0] == [];
    }
    assert Mean(outs, dout) == samples[order[0]].output[..dout];
    forall j | 0 <= j < |ds| ensures ds[order[0]] <= ds[j] {
      var p := IndexInOrder(ds, order, j);
    }
  }

  /** The distance loop: the input's distance to every sample, in sample order, into a new list. */
  method MeasureAll(distance: DistanceFn, input: Vec, samples: seq<Sample>, features: seq<int>)
    returns (r: Result<seq<real>>)
    ensures r == Distances(distance, input, samples, features)
  {
    var distances: seq<real> := [];
    for j := 0 to |samples|
      invariant Distances(distance, input, samples[..j], features) == Ok(distances)
    {
      assert samples[..j + 1][..j] == samples[..j];
      var d := distance(input, samples[j].input, features);
      if d.Err? {
        DistancesPrefix(distance, input, samples, features, j + 1);
        return Err(d.error);
      }
      distances := distances + [d.value];
    }
    assert samples[..|samples|] == samples;
    return Ok(distances);
  }

  /**
   * The accumulation loop: the outputs of the first m samples along the
   * order added into the zeroed accumulator, component by component; false
   * when one of them is too short for it.
   */
  method AccumulateNearest(samples: seq<Sample>, order: seq<int>, m: nat, average: array<real>) returns (ok: bool)
    requires m <= |order|
    requires forall c | 0 <= c < average.Length :: average[c] == 0.0
    modifies average
    ensures ok == Wide(Neighbours(samples, order, m), average.Length)
    ensures ok ==> forall c | 0 <= c < average.Length :: average[c] == ColumnSum(Neighbours(samples, order, m), c)
  {
    var dout := average.Length;
    ghost var ps: seq<Vec> := [];
    for i := 0 to m
      invariant ps == Neighbours(samples, order, i) && Wide(ps, dout)
      invariant forall c | 0 <= c < dout :: average[c] == ColumnSum(ps, c)
    {
      var output := OutputAt(samples, order[i]);
      if |output| < dout {
        assert Neighbours(samples, order, m)[i] == output;
        return false;
      }
      AddInto(average, output);
      forall c | 0 <= c < dout ensures average[c] == ColumnSum(ps + [output], c) {
        ColumnSumAppend(ps, [output], c);
      }
      assert order[..i + 1] == order[..i] + [order[i]];
      ps := ps + [output];
    }
    return true;
  }

  /**
   * Predict shared by both classes: distances to every sample, sorted
   * apart from the samples, then the outputs of the first min(k, n)
   * accumulated and divided by min(k, n).
   */
  method NearestAverage(distance: DistanceFn, samples: seq<Sample>, features: seq<int>, k: int, input: Vec)
    returns (y: Result<Vec>, order: seq<int>)
    ensures |order| == |samples|
    ensures Distances(distance, input, samples, features).Ok? ==>
      SortedOrder(Distances(distance, input, samples, features).value, order)
    ensures y == Prediction(distance, samples, features, k, input, order)
  {
    var measured := MeasureAll(distance, input, samples, features);
    if measured.Err? {
      return Err(measured.error), Range(|samples|);
    }
    var distances := measured.value;
    var sorted := SortIndices(distances, |distances|);
    SortIndicesSorted(distances, |distances|);
    order := sorted;
    if |samples| == 0 {
      return Err(OutOfRange), order;
    }
    var dout := |samples[0].output|;
    var average := new real[dout](_ => 0.0);
    var minK := MinK(k, |samples|);
    if minK > 0 {
      var ok := AccumulateNearest(samples, sorted, minK, average);
      if !ok {
        return Err(OutOfRange), order;
      }
      DivideBy(average, minK as real);
      assert average[..] == Mean(Neighbours(samples, order, minK), dout);
    } else if minK < 0 {
      DivideBy(average, minK as real);
      assert average[..] == Zeros(dout);
    } else if dout > 0 {
      return Err(Undefined), order;
    }
    y := Ok(average[..]);
  }

  /** KNN.cs: a fixed k, samples and feature list, measured with Distance. */
  class Knn {
    var k: int
    var samples: seq<Sample>
    var features: seq<int>

    constructor (k: int, samples: seq<Sample>, features: seq<int>)
      ensures this.k == k && this.samples == samples && this.features == features
    {
      this.k := k;
      this.samples := samples;
      this.features := features;
    }

    /** Predict: the average output of the min(k, n) samples nearest the input, for the order the sort produced. */
    method Predict(input: Vec) returns (y: Result<Vec>, order: seq<int>)
      ensures |order| == |samples|
      ensures Distances(Distance, input, samples, features).Ok? ==>
        SortedOrder(Distances(Distance, input, samples, features).value, order)
      ensures y == Prediction(Distance, samples, features, k, input, order)
    {
      y, order := NearestAverage(Distance, samples, features, k, input);
    }
  }

  /** Models/KNN.cs: the same search with a caller's distance delegate. */
  class KnnModel {
    var samples: seq<Sample>
    var features: seq<int>
    var k: int
    var distance: DistanceFn

    constructor (samples: seq<Sample>, features: seq<int>, k: int, distance: DistanceFn)
      ensures this.samples == samples && this.features == features && this.k == k && this.distance == distance
    {
      this.samples := samples;
      this.features := features;
      this.k := k;
      this.distance := distance;
    }

    /** Predict: the average output of the min(k, n) samples nearest by the delegate, for the order the sort produced. */
    method Predict(input: Vec) returns (y: Result<Vec>, order: seq<int>)
      ensures |order| == |samples|
      ensures Distances(distance, input, samples, features).Ok? ==>
        SortedOrder(Distances(distance, input, samples, features).value, order)
      ensures y == Prediction(distance, samples, features, k, input, order)
    {
      y, order := NearestAverage(distance, samples, features, k, input);
    }
  }
}
