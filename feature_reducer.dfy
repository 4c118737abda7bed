/**
 * FeatureReducer.cs: choosing which input features to keep.
 *
 * RemoveHomogenous keeps the features on which some sample differs from
 * the first one. The two greedy searches grow (or shrink) a feature list
 * one feature per pass, keeping the change whose error is lowest as long as
 * it is strictly lower than the best error so far. The error of a feature
 * list is the caller's delegate applied to the training and validation
 * lists reduced to those features; Sample.ReselectFeatures is not part of
 * this model, so that error is the parameter `test`. The candidate loop of
 * a pass runs in parallel in the source, under a lock; here it runs in
 * index order, so among equal lowest errors the lowest feature index wins.
 */
module FeatureReducers {
  import opened Wrappers
  import opened Vectors
  import opened Samples
  import opened Rng
  import opened Bagging

  // ---------------------------------------------------------------------
  // RemoveHomogenous

  /**
   * The inner loop for feature f from sample i on: whether some sample
   * differs from the first one at f, stopping at the first that does; a
   * sample too short to have feature f throws.
   */
  function DiffersFrom(samples: seq<Sample>, f: nat, i: nat): Result<bool>
    requires 0 < |samples| && f < |samples[0].input|
    decreases |samples| - i
  {
    if i >= |samples| then Ok(false)
    else if f >= |samples[i].input| then Err(OutOfRange)
    else if samples[i].input[f] != samples[0].input[f] then Ok(true)
    else DiffersFrom(samples, f, i + 1)
  }

  /** The outer loop over the first k features: those on which some sample differs, in index order. */
  function Heterogeneous(samples: seq<Sample>, k: nat): Result<seq<int>>
    requires 0 < |samples| && k <= |samples[0].input|
  {
    if k == 0 then Ok([])
    else match Heterogeneous(samples, k - 1)
      case Err(e) => Err(e)
      case Ok(fs) =>
        match DiffersFrom(samples, k - 1, 1)
        case Err(e) => Err(e)
        case Ok(d) => Ok(if d then fs + [k - 1] else fs)
  }

  /** RemoveHomogenous: samples[0] throws on an empty list; otherwise every feature of the first sample is scanned. */
  function HeterogeneousFeatures(samples: seq<Sample>): Result<seq<int>>
  {
    if |samples| == 0 then Err(OutOfRange) else Heterogeneous(samples, |samples[0].input|)
  }

  /** Some sample's feature f differs from the first sample's. */
  predicate Varies(samples: seq<Sample>, f: int)
    requires 0 < |samples| && forall j | 0 <= j < |samples| :: 0 <= f < |samples[j].input|
  {
    exists j | 0 <= j < |samples| :: samples[j].input[f] != samples[0].input[f]
  }

  /** Indices listed in strictly increasing order. */
  predicate Increasing(fs: seq<int>)
  {
    forall i, j | 0 <= i < j < |fs| :: fs[i] < fs[j]
  }

  /** With every input n wide, the inner loop finds a difference exactly when some sample from i on differs. */
  lemma {:induction false} DiffersFromFacts(samples: seq<Sample>, n: nat, f: nat, i: nat)
    requires 0 < |samples| && InputWidth(samples, n) && f < n
    ensures DiffersFrom(samples, f, i) == Ok(exists j | i <= j < |samples| :: samples[j].input[f] != samples[0].input[f])
    decreases |samples| - i
  {
    if i < |samples| {
      DiffersFromFacts(samples, n, f, i + 1);
    }
  }

  /**
   * With every input n wide, RemoveHomogenous succeeds and returns, in
   * increasing order, exactly the features on which some sample differs
   * from the first.
   */
  lemma {:induction false} HeterogeneousFacts(samples: seq<Sample>, n: nat, k: nat)
    requires 0 < |samples| && InputWidth(samples, n) && k <= n
    ensures Heterogeneous(samples, k).Ok?
    ensures var fs := Heterogeneous(samples, k).value;
      Increasing(fs) && InRange(fs, k) && forall f | 0 <= f < k :: f in fs <==> Varies(samples, f)
  {
    if k > 0 {
      HeterogeneousFacts(samples, n, k - 1);
      DiffersFromFacts(samples, n, k - 1, 1);
      var fs := Heterogeneous(samples, k - 1).value;
      assert Varies(samples, k - 1) <==> exists j | 1 <= j < |samples| :: samples[j].input[k - 1] != samples[0].input[k - 1];
    }
  }

  /** Once a feature's scan throws, so does the whole scan. */
  lemma {:induction false} HeterogeneousFails(samples: seq<Sample>, k: nat, m: nat)
    requires 0 < |samples| && k <= m <= |samples[0].input| && Heterogeneous(samples, k) == Err(OutOfRange)
    ensures Heterogeneous(samples, m) == Err(OutOfRange)
    decreases m
  {
    if k < m {
      HeterogeneousFails(samples, k, m - 1);
    }
  }

  /** RemoveHomogenous: every feature of the first sample is kept exactly when some later sample differs at it. */
  method RemoveHomogenous(samples: seq<Sample>) returns (r: Result<seq<int>>)
    ensures r == HeterogeneousFeatures(samples)
  {
    if |samples| == 0 {
      return Err(OutOfRange);
    }
    var features: seq<int> := [];
    for featureIndex := 0 to |samples[0].input|
      invariant Heterogeneous(samples, featureIndex) == Ok(features)
    {
      var firstValue := samples[0].input[featureIndex];
      var homogenous := true;
      var i := 1;
      while i < |samples|
        invariant 1 <= i <= |samples|
        invariant homogenous ==> DiffersFrom(samples, featureIndex, 1) == DiffersFrom(samples, featureIndex, i)
        invariant !homogenous ==> DiffersFrom(samples, featureIndex, 1) == Ok(true)
        decreases |samples| - i, homogenous
      {
        if featureIndex >= |samples[i].input| {
          HeterogeneousFails(samples, featureIndex + 1, |samples[0].input|);
          return Err(OutOfRange);
        }
        if samples[i].input[featureIndex] != firstValue {
          homogenous := false;
          break;
        }
        i := i + 1;
      }
      if homogenous {
        assert DiffersFrom(samples, featureIndex, i) == Ok(false);
      }
      if !homogenous {
        features := features + [featureIndex];
      }
    }
    return Ok(features);
  }

  // ---------------------------------------------------------------------
  // The greedy searches

  /** The error of a feature list: the delegate on the training and validation lists reduced to those features. */
  type FeatureTest = seq<int> -> real

  /** The direction of a greedy search. */
  datatype Step = Add | Subtract

  /** A feature a pass may try: one not yet in the list when adding, one in it when subtracting. */
  predicate Candidate(step: Step, best: seq<int>, f: int)
  {
    if step.Add? then f !in best else f in best
  }

  /** The first occurrence of x taken out of xs (List.Remove). */
  function RemoveFirst(xs: seq<int>, x: int): (r: seq<int>)
    ensures x in xs ==> |r| == |xs| - 1
    ensures x !in xs ==> r == xs
    ensures forall y | y in r :: y in xs
  {
    if xs == [] then []
    else if xs[0] == x then xs[1..]
    else [xs[0]] + RemoveFirst(xs[1..], x)
  }

  /** The list a pass tries for feature f: f appended, or f taken out. */
  function Trial(step: Step, best: seq<int>, f: int): seq<int>
  {
    if step.Add? then best + [f] else RemoveFirst(best, f)
  }

  /** An error strictly below a bound; no bound stands for positive infinity. */
  predicate Below(e: real, bound: Option<real>)
  {
    bound.None? || e < bound.value
  }

  /** The bound the next candidate must beat: the best trial so far, else the pass's starting error. */
  function Threshold(found: Option<(int, real)>, bound: Option<real>): Option<real>
  {
    if found.Some? then Some(found.value.1) else bound
  }

  /**
   * A pass's candidate loop over features 0..k-1 in index order: the
   * feature and error of the trial with the lowest error strictly below
   * the bound, the first such feature on a tie; None when no trial beats it.
   */
  function BestChange(test: FeatureTest, step: Step, best: seq<int>, bound: Option<real>, k: nat): Option<(int, real)>
  {
    if k == 0 then None
    else
      var found := BestChange(test, step, best, bound, k - 1);
      var f := k - 1;
      if !Candidate(step, best, f) then found
      else
        var e := test(Trial(step, best, f));
        if Below(e, Threshold(found, bound)) then Some((f, e)) else found
  }

  /**
   * The pass picks a candidate whose trial error is below the bound and
   * no higher than any other candidate's, and strictly lower than that of
   * every candidate with a smaller index; it picks nothing only when no
   * candidate's trial beats the bound.
   */
  lemma {:induction false} BestChangeFacts(test: FeatureTest, step: Step, best: seq<int>, bound: Option<real>, k: nat)
    ensures var found := BestChange(test, step, best, bound, k);
      found.Some? ==>
        var f := found.value.0;
        var e := found.value.1;
        && 0 <= f < k && Candidate(step, best, f) && e == test(Trial(step, best, f)) && Below(e, bound)
        && (forall g | 0 <= g < k && Candidate(step, best, g) :: e <= test(Trial(step, best, g)))
        && (forall g | 0 <= g < f && Candidate(step, best, g) :: e < test(Trial(step, best, g)))
    ensures BestChange(test, step, best, bound, k).None? ==>
      forall g | 0 <= g < k && Candidate(step, best, g) :: !Below(test(Trial(step, best, g)), bound)
  {
    if k > 0 {
      BestChangeFacts(test, step, best, bound, k - 1);
    }
  }

  /** A pass's candidate loop: the chosen feature (-1 for none) and the error it reaches (the bound for none). */
  method ScanChanges(test: FeatureTest, step: Step, best: seq<int>, bound: Option<real>, featureCount: nat)
    returns (feature: int, error: Option<real>)
    ensures var found := BestChange(test, step, best, bound, featureCount);
      && feature == (if found.Some? then found.value.0 else -1)
      && error == Threshold(found, bound)
  {
    feature, error := -1, bound;
    for featureIndex := 0 to featureCount
      invariant var found := BestChange(test, step, best, bound, featureIndex);
        && feature == (if found.Some? then found.value.0 else -1)
        && error == Threshold(found, bound)
    {
      if !Candidate(step, best, featureIndex) {
        continue;
      }
      var trialFeatures := Trial(step, best, featureIndex);
      var e := test(trialFeatures);
      if Below(e, error) {
        feature, error := featureIndex, Some(e);
      }
    }
  }

  /**
   * The additive search from a list and its error (None for positive
   * infinity): stop once every feature is in, or when no pass finds an
   * addition that lowers the error; otherwise append the best one.
   */
  function Additive(test: FeatureTest, n: nat, best: seq<int>, bound: Option<real>): seq<int>
    requires |best| <= n
    decreases n - |best|
  {
    if |best| == n then best
    else match BestChange(test, Add, best, bound, n)
      case None => best
      case Some((f, e)) => Additive(test, n, best + [f], Some(e))
  }

  /** Each feature added lowered the error of the list it was added to. */
  predicate Improving(test: FeatureTest, fs: seq<int>)
  {
    forall j | 1 <= j < |fs| :: test(fs[..j + 1]) < test(fs[..j])
  }

  /** Appending a feature whose error beats the list's keeps the errors decreasing. */
  lemma ImprovingAppend(test: FeatureTest, best: seq<int>, f: int)
    requires Improving(test, best)
    requires best != [] ==> test(best + [f]) < test(best)
    ensures Improving(test, best + [f])
  {
    var fs := best + [f];
    forall j | 1 <= j < |fs| ensures test(fs[..j + 1]) < test(fs[..j]) {
      if j < |best| {
        assert fs[..j + 1] == best[..j + 1] && fs[..j] == best[..j];
      } else {
        assert fs[..j + 1] == fs && fs[..j] == best;
      }
    }
  }

  /**
   * The additive search keeps a list of distinct features below n that
   * extends the one it started from, each added feature strictly lowering
   * the error. It ends with every feature in, or with a list no single
   * addition improves; with at least one feature it never ends empty, as
   * every error beats positive infinity.
   */
  lemma {:induction false} AdditiveFacts(test: FeatureTest, n: nat, best: seq<int>, bound: Option<real>)
    requires |best| <= n && Distinct(best) && InRange(best, n) && Improving(test, best)
    requires bound == (if best == [] then None else Some(test(best)))
    ensures var r := Additive(test, n, best, bound);
      && best <= r && |r| <= n && Distinct(r) && InRange(r, n) && Improving(test, r)
      && (0 < n ==> r != [])
      && (|r| < n && r != [] ==> forall g | 0 <= g < n && g !in r :: test(r) <= test(r + [g]))
    decreases n - |best|
  {
    if |best| < n {
      BestChangeFacts(test, Add, best, bound, n);
      match BestChange(test, Add, best, bound, n)
      case None =>
        if best == [] {
          assert Candidate(Add, best, 0);
          assert Below(test(Trial(Add, best, 0)), bound);
        }
        forall g | 0 <= g < n && g !in best ensures test(best) <= test(best + [g]) {
          assert Candidate(Add, best, g);
          assert Trial(Add, best, g) == best + [g];
        }
      case Some((f, e)) =>
        var next := best + [f];
        ImprovingAppend(test, best, f);
        AdditiveFacts(test, n, next, Some(e));
    }
  }

  /**
   * GreedySelectionAdditive: train[0] throws on an empty list; otherwise
   * passes start from no features at an error of positive infinity.
   */
  method GreedySelectionAdditive(train: seq<Sample>, test: FeatureTest) returns (r: Result<seq<int>>)
    ensures |train| == 0 ==> r == Err(OutOfRange)
    ensures |train| > 0 ==> r == Ok(Additive(test, |train[0].input|, [], None))
  {
    if |train| == 0 {
      return Err(OutOfRange);
    }
    var featureCount := |train[0].input|;
    var bestFeatures: seq<int> := [];
    var bestError: Option<real> := None;
    var improved := true;
    while improved
      invariant |bestFeatures| <= featureCount
      invariant improved ==> Additive(test, featureCount, bestFeatures, bestError) == Additive(test, featureCount, [], None)
      invariant !improved ==> bestFeatures == Additive(test, featureCount, [], None)
      decreases featureCount - |bestFeatures|, improved
    {
      improved := false;
      if |bestFeatures| == featureCount {
        break;
      }
      var bestFeatureAddition, bestAdditionError := ScanChanges(test, Add, bestFeatures, bestError, featureCount);
      BestChangeFacts(test, Add, bestFeatures, bestError, featureCount);
      if bestFeatureAddition != -1 {
        bestFeatures := bestFeatures + [bestFeatureAddition];
        bestError := bestAdditionError;
        improved := true;
      }
    }
    return Ok(bestFeatures);
  }

  /**
   * The subtractive search from a list and its error: stop at one feature,
   * or when no pass finds a removal that lowers the error; otherwise take
   * out the best one. The result carries the final error.
   */
  function Subtractive(test: FeatureTest, n: nat, best: seq<int>, bestError: real): (seq<int>, real)
    decreases |best|
  {
    if |best| == 1 then (best, bestError)
    else match BestChange(test, Subtract, best, Some(bestError), n)
      case None => (best, bestError)
      case Some((f, e)) =>
        BestChangeFacts(test, Subtract, best, Some(bestError), n);
        Subtractive(test, n, RemoveFirst(best, f), e)
  }

  /** The tail of an increasing list is increasing and above its head. */
  lemma IncreasingTail(xs: seq<int>)
    requires Increasing(xs) && xs != []
    ensures Increasing(xs[1..]) && forall y | y in xs[1..] :: xs[0] < y
  {
    var tail := xs[1..];
    forall i, j | 0 <= i < j < |tail| ensures tail[i] < tail[j] {
      assert xs[i + 1] < xs[j + 1];
    }
    forall y | y in tail ensures xs[0] < y {
      var k :| 0 <= k < |tail| && tail[k] == y;
      assert xs[0] < xs[k + 1];
    }
  }

  /** A value below every member of an increasing list, put in front of it, keeps it increasing. */
  lemma IncreasingCons(a: int, rest: seq<int>)
    requires Increasing(rest) && forall y | y in rest :: a < y
    ensures Increasing([a] + rest)
  {
    var ys := [a] + rest;
    forall i, j | 0 <= i < j < |ys| ensures ys[i] < ys[j] {
      assert ys[j] == rest[j - 1] && rest[j - 1] in rest;
      if i > 0 {
        assert ys[i] == rest[i - 1];
      }
    }
  }

  /** Taking a feature out of an increasing list leaves it increasing and without that feature. */
  lemma {:induction false} RemoveFirstIncreasing(xs: seq<int>, x: int)
    requires Increasing(xs)
    ensures Increasing(RemoveFirst(xs, x)) && x !in RemoveFirst(xs, x)
    decreases |xs|
  {
    if xs != [] {
      IncreasingTail(xs);
      if xs[0] != x {
        RemoveFirstIncreasing(xs[1..], x);
        IncreasingCons(xs[0], RemoveFirst(xs[1..], x));
      }
    }
  }

  /**
   * The subtractive search keeps an increasing list of features below n
   * drawn from the one it started from; it never goes below one feature,
   * and when it took a feature out its error is strictly lower than the
   * starting one and is the test error of the final list. It ends at one
   * feature, or with a list from which no single removal lowers the error.
   */
  lemma {:induction false} SubtractiveFacts(test: FeatureTest, n: nat, best: seq<int>, bestError: real)
    requires Increasing(best) && InRange(best, n)
    ensures var (r, e) := Subtractive(test, n, best, bestError);
      && Increasing(r) && InRange(r, n) && (forall f | f in r :: f in best)
      && (best != [] ==> r != [])
      && (r == best ==> e == bestError) && (r != best ==> e < bestError && e == test(r))
      && (|r| != 1 ==> forall f | f in r :: e <= test(RemoveFirst(r, f)))
    decreases |best|
  {
    if |best| != 1 {
      BestChangeFacts(test, Subtract, best, Some(bestError), n);
      match BestChange(test, Subtract, best, Some(bestError), n)
      case None =>
        forall f | f in best ensures bestError <= test(RemoveFirst(best, f)) {
          var k :| 0 <= k < |best| && best[k] == f;
          assert Candidate(Subtract, best, f) && Trial(Subtract, best, f) == RemoveFirst(best, f);
        }
      case Some((f, e)) =>
        var next := RemoveFirst(best, f);
        RemoveFirstIncreasing(best, f);
        assert InRange(next, n) by {
          forall j | 0 <= j < |next| ensures 0 <= next[j] < n {
            assert next[j] in best;
          }
        }
        SubtractiveFacts(test, n, next, e);
        var r := Subtractive(test, n, next, e).0;
        assert f in best && f !in next && |next| == |best| - 1;
        assert f !in r;
        assert Trial(Subtract, best, f) == next;
    }
  }

  /**
   * GreedySelectionSubtractive: train[0] throws on an empty list; otherwise
   * passes start from every feature, in index order, at the delegate's
   * error on the unreduced lists, `fullError`.
   */
  method GreedySelectionSubtractive(train: seq<Sample>, test: FeatureTest, fullError: real) returns (r: Result<seq<int>>)
    ensures |train| == 0 ==> r == Err(OutOfRange)
    ensures |train| > 0 ==> r == Ok(Subtractive(test, |train[0].input|, Range(|train[0].input|), fullError).0)
  {
    if |train| == 0 {
      return Err(OutOfRange);
    }
    var featureCount := |train[0].input|;
    var bestFeatures := Range(featureCount);
    var bestError := fullError;
    var improved := true;
    while improved
      invariant improved ==> Subtractive(test, featureCount, bestFeatures, bestError) == Subtractive(test, featureCount, Range(featureCount), fullError)
      invariant !improved ==> bestFeatures == Subtractive(test, featureCount, Range(featureCount), fullError).0
      decreases |bestFeatures|, improved
    {
      improved := false;
      if |bestFeatures| == 1 {
        break;
      }
      var bestFeatureSubtraction, bestSubtractionError := ScanChanges(test, Subtract, bestFeatures, Some(bestError), featureCount);
      BestChangeFacts(test, Subtract, bestFeatures, Some(bestError), featureCount);
      if bestFeatureSubtraction != -1 {
        bestFeatures := RemoveFirst(bestFeatures, bestFeatureSubtraction);
        bestError := bestSubtractionError.value;
        improved := true;
      }
    }
    return Ok(bestFeatures);
  }

  /** The subtractive search from all n features keeps at least one of them when there is one, in increasing order. */
  lemma SubtractiveFromAll(test: FeatureTest, n: nat, fullError: real)
    ensures var (r, e) := Subtractive(test, n, Range(n), fullError);
      && Increasing(r) && InRange(r, n) && (0 < n ==> 1 <= |r|) && e <= fullError
  {
    SubtractiveFacts(test, n, Range(n), fullError);
  }
}
