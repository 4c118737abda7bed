# DeepForest ensembles in Dafny

This project models the decision-tree ensembles of DeepForest, a C# library, and proves properties of the model. Single-precision floats are read as mathematical reals. `System.Random` becomes an explicit stream of draws, threaded through the code by position.

The model covers:

- **Trees.** Three ways of growing one tree by recursive binary partitioning of a sample list:
  - the best axis split (`Models/StandardTree.cs`);
  - the first valid random attempt (`RandomTree.cs`, the mutable `Models/RandomTree.cs`, and `WeightedRandomTree.cs` with weighted leaf means);
  - the nearer of two "cairn" samples (`Models/CairnTree.cs`, `Models/RandomCairnTree.cs`).

  For each, the model proves what the trees promise:
  - an empty list throws;
  - every node holds the (weighted) mean output of the samples that reached it;
  - children partition the parent's samples by the `<=` test, or by the nearer cairn;
  - the chosen split is the one the search or the attempt loop chooses;
  - `Predict` descends left on `<=` and answers the mean output of the leaf the input reaches;
  - `CountNodes` counts the nodes.
- **Bagging.** `BaggedPredictor.cs`, `BaggedPredictors/BaggedPredictor.cs`, `Models/BootstrapAggregator.cs`, `WeightedRandomForest.cs` and `Models/RandomCairnForest.cs`:
  - bootstrap bags of `samples.Count` draws from the samples;
  - feature subsets of `min(k, n)` distinct indices, drawn by shuffling;
  - the component-wise average of the member predictions, which does not depend on the members' order when every member answers with one common length.
- **Residual boosting.** `ResidualRandomForest.cs`, `HeavyResidualRandomForest.cs`, `Models/ResidualAggregator.cs`, `ResidualPredictor.cs` and `BoostedRandomTree.cs`:
  - the per-sample accumulators and residual outputs are updated in place;
  - after every stage `accumulator = lr * Σ stage predictions` and `residual = output - accumulator` both hold;
  - `Predict` is the learning-rate-scaled sum of the stage predictions in stage order, so on a training input it equals that sample's accumulator.
- **Aggregators.** `Models/StackAggregator.cs` is a pipeline: each model is trained to map the composition of the models before it to the outputs. `Models/ConcatAggregator.cs` joins its models' answers end to end.
- **Utilities:**
  - `Utility.cs`: average, concatenation and the distances;
  - `Error.cs`: mean squared, mean absolute and argmax error, the latter with a first-maximum tie-break;
  - `Sample.cs`: min–max normalisation;
  - `FeatureReducer.cs`: homogeneous-feature removal and greedy forward and backward feature selection;
  - `KNN.cs` and `Models/KNN.cs`: k-nearest-neighbour averaging.

How the C# is mapped:

- Exceptions, and the NaN results of divisions by zero, become `Wrappers.Result` failures.
- Objects whose fields the source updates become classes with `modifies` clauses. Every class method is proved against a specification function, and the lemmas about that function state the source's promises.
- The abstract models (`Models/Model.cs`, the `AddModel` overrides of the generic bagging and boosting bases, and the tree and forest constructors whose code is not shown) become function-typed parameters or `const` fields:
  - `fit`: a model fitted on samples, seen through its `Predict`;
  - `grow`: a stage learner;
  - `build`: the model a bag produces.

## Model

| member | source | states |
|---|---|---|
| Vectors.Range | BaggedPredictors/BaggedPredictor.cs:33 | `Enumerable.Range(0, n)`: n entries, entry i is i, so the indices are distinct, increasing and below n |
| Vectors.ColumnSumPermutation | Utility.cs:6-12 | a column sum of the averaged vectors does not depend on their order |
| Vectors.MeanOfCopies | Utility.cs:3-18 | averaging c > 0 copies of one vector gives that vector back |
| Vectors.Average | Utility.cs:3-18 | the result has `vectors[0].Length` components, component i is the sum of v[i] over the list divided by the count |
| Vectors.AddInto | WeightedRandomForest.cs:67-70 | afterwards every accumulator component has gained the matching component of the prediction; no other array changes |
| Vectors.DivideBy | WeightedRandomForest.cs:72-75 | afterwards every accumulator component is its old value over n |
| Vectors.CopyInto | Utility.cs:25 | `Array.Copy`: the destination holds src at [offset, offset + src.Length) and is unchanged elsewhere |
| Vectors.Concat | Utility.cs:20-28 | the result has `vectors[0].Length * vectors.Count` components and block i is vectors[i] |
| Vectors.TermProperties | Utility.cs:35 | a per-component absolute or squared difference is non-negative, symmetric and zero on equal components; the absolute one is zero only there |
| Vectors.DiffSumProperties | Utility.cs:30-58 | the summed distances are non-negative, symmetric and zero on equal vectors; the absolute sum is zero only on equal vectors |
| Vectors.DiffSumOnAll | Utility.cs:40-48 | the feature-restricted distance over the features 0..n-1 in order is the unrestricted distance |
| Vectors.DiffSumOnReadsOnly | Utility.cs:72-80 | the feature-restricted distances read only the listed components: vectors that agree there have equal distances |
| Vectors.SumTerms | Utility.cs:52-56 | the accumulation loop over a.Length components returns the distance sum of the metric |
| Vectors.SumTermsOn | Utility.cs:74-78 | the accumulation loop over the listed features returns the restricted distance sum |
| Vectors.MeanAbsoluteDistance | Utility.cs:30-38 | the summed absolute difference over a.Length; non-negative, symmetric, zero exactly on equal vectors |
| Vectors.MeanAbsoluteDistanceOn | Utility.cs:40-48 | the absolute difference summed over the listed features, divided by their number; non-negative and zero when the vectors agree on those features |
| Vectors.SquaredEuclideanDistance | Utility.cs:50-58 | the square of `EuclideanDistance(a, b)`: non-negative, symmetric, zero on equal vectors |
| Vectors.SquaredEuclideanDistanceOn | Utility.cs:72-80 | the square of `EuclideanDistance(a, b, features)`: non-negative, and depends only on the listed components |
| Vectors.UniformWeights | Utility.cs:60-70 | with every weight equal to c, the weighted sums are c times the unweighted ones |
| Vectors.WeightedMeanAbsoluteDistance | Utility.cs:60-70 | Σ\|a_i - b_i\| w_i / Σ w_i over a.Length components |
| Vectors.UniformWeightedIsMean | Utility.cs:60-70 | with equal positive weights the weighted distance is the plain mean absolute distance |
| Samples.MeanOutput | Models/StandardTree.cs:24 | the node output (`Sample.AverageOutput`): dout components, each the mean of that output component over the samples |
| Samples.ColBounds | Sample.cs:28-52 | the column minimum and maximum are attained by some sample and bound every sample's value |
| Samples.NormalizeVec | Sample.cs:64-93 | one vector rescaled against the column bounds; it keeps its length |
| Samples.NormalizeProperties | Sample.cs:64-93 | normalising keeps the list length and every input length; each input value lands in [0, 1], a zero-range column maps to 0, the column minimum to 0 and, when the range is non-zero, the maximum to 1 |
| Samples.NormalizeOutputProperties | Sample.cs:79-90 | the same statements for the output components |
| Samples.ColumnBounds | Sample.cs:14-52 | the min/max scan leaves lo[i] and hi[i] equal to the bounds of column i over all vectors |
| Samples.RescaleVec | Sample.cs:67-78 | a fresh vector whose component i is 0 on a zero range and (x - min) / range otherwise |
| Samples.Normalize | Sample.cs:12-94 | the returned list is the rescaled samples, which the normalisation lemmas describe; the argument is untouched |
| Samples.Conormalize | Sample.cs:96-105 | the two results have \|A\| and \|B\| samples and are `Normalize(A ++ B)` split at \|A\| |
| Trees.RoutableCoversPath | Models/StandardTree.cs:151 | an input as wide as every component a split reads never makes `Predict` index out of range |
| Trees.Predict | Models/StandardTree.cs:142-174 | a leaf answers its output; a split descends left exactly when `x[f] <= threshold` |
| Trees.PredictWidth | Models/StandardTree.cs:142-174 | a tree whose leaves hold n components predicts n components |
| Trees.SizeLeaves | Models/StandardTree.cs:102-126 | every split has two children, so a tree has one node fewer than twice its leaves |
| Trees.CountNodes | Models/StandardTree.cs:176-187 | `CountNodes(ref count)` adds exactly the number of nodes of the subtree to count |
| Trees.PartitionCounts | Models/StandardTree.cs:108-121 | the left and right lists together hold every sample exactly as often as the node's list |
| Trees.PartitionTests | Models/StandardTree.cs:111-120 | every left sample passes `input[f] <= v` and every right sample fails it |
| Trees.PartitionFacts | Models/StandardTree.cs:108-121 | both halves of the partition's contract at once |
| Trees.PartitionMember | Models/StandardTree.cs:111-120 | entry k of the list lands on the side its own test selects |
| Trees.Partition | Models/StandardTree.cs:108-121 | the partition loop returns the left and right lists, in list order, that the partition lemmas describe |
| Trees.ValuesFacts | Models/StandardTree.cs:54 | the distinct values of a component are pairwise distinct and are exactly the observed values |
| Trees.PartitionsSize | Models/StandardTree.cs:176-187 | a tree grown on n samples has at most 2n - 1 nodes |
| Trees.PartitionsRoutable | Models/StandardTree.cs:105 | every split feature of a tree grown on inputs of width d is below d |
| Trees.ReachFacts | Models/StandardTree.cs:142-174 | the leaf an input reaches received a non-empty part of the training list, which holds every training sample whose input is that input |
| Trees.Sides | Models/StandardTree.cs:108-121 | the two sides of `input[f] <= v` over a uniform list; each is again uniform and they share out the list |
| Trees.PredictIsLeafMean | Models/StandardTree.cs:142-174 | on a fitted tree every input of the training width is routed, and the answer is the mean output of the non-empty training part at the leaf it reaches |
| Trees.RoutableWider | Models/StandardTree.cs:151 | a tree routes every input at least as wide as the components it tests |
| Trees.TotalSizeLeaves | WeightedRandomForest.cs:79-87 | the summed node counts of a forest are twice its leaves less its trees |
| StandardTrees.FeatureCandidates | Models/StandardTree.cs:54-63 | a feature with a single distinct value yields no threshold, any other yields each of its distinct values |
| StandardTrees.Candidates | Models/StandardTree.cs:51-63 | the (feature, threshold) pairs the search tries, feature by feature in the order of `features` |
| StandardTrees.SearchFacts | Models/StandardTree.cs:46-99 | with no choice, no valid candidate costs less than the node error; otherwise the choice is valid, strictly below the node error, no costlier than any valid candidate, and strictly cheaper than every earlier one |
| StandardTrees.CandidatesSound | Models/StandardTree.cs:51-63 | every candidate is a listed feature with several values and one of its observed values |
| StandardTrees.CandidatesComplete | Models/StandardTree.cs:51-63 | every observed value of every listed feature with several values is a candidate |
| StandardTrees.Choose | Models/StandardTree.cs:44-102 | the chosen split is valid, uses a component of the inputs, and costs strictly less than the node's error |
| StandardTrees.GrowFits | Models/StandardTree.cs:24 | every node of the grown tree holds the mean output of the samples that reached it, and the children partition them by `<=` |
| StandardTrees.GrowDecision | Models/StandardTree.cs:32-41 | a node is a leaf when it has fewer than 2·m samples, the depth limit (-1 = none) is reached, or no valid candidate improves strictly; otherwise the split is the search's choice |
| StandardTrees.SearchAppend | Models/StandardTree.cs:91-96 | one more candidate replaces the best only when its cost is strictly lower |
| StandardTrees.SplitCost | Models/StandardTree.cs:65-89 | both sides gathered; a valid split (both sides ≥ m) costs the size-weighted mean of the side errors, an invalid one has no cost |
| StandardTrees.ScanFeature | Models/StandardTree.cs:63-98 | the value loop for one feature leaves the best equal to the search over the candidates scanned so far |
| StandardTrees.SearchSplit | Models/StandardTree.cs:50-99 | the feature loop returns the choice of the search over every candidate |
| StandardTrees.StandardTree | Models/StandardTree.cs:16-127 | an empty list is rejected; otherwise the tree the grow function describes, so every fit and decision lemma applies |
| RandomTrees.AttemptAt | RandomTree.cs:47-50 | an attempt draws a component below the input width, then a sample whose value of that component is the threshold |
| RandomTrees.AttemptObserved | RandomTree.cs:50 | the threshold of an attempt is the drawn component of one of the node's samples |
| RandomTrees.FirstValid | RandomTree.cs:44-79 | the first of `attempts` attempts that leaves more than m samples on both sides, or none |
| RandomTrees.FirstValidFacts | RandomTree.cs:44-79 | attempts consume two draws each; with no choice all attempts were made and none was valid; otherwise the choice is valid and every earlier attempt was not |
| RandomTrees.GrowFits | RandomTree.cs:18 | every node of the built tree holds the mean output of the samples that reached it, and the children partition them by `<=` |
| RandomTrees.GrowSucceeds | RandomTree.cs:12-15 | with m ≥ 0 no child is ever given an empty list, so a non-empty list always yields a tree |
| RandomTrees.GrowHeight | RandomTree.cs:33-36 | a tree built at depth d under the limit D has no path with more than D - d splits |
| RandomTrees.GrowDecision | RandomTree.cs:27-36 | a node below 2·m samples or at the depth limit is a leaf; a split's feature is an input component and both sides keep more than m samples |
| RandomTrees.GrowThresholdObserved | RandomTree.cs:50 | a split's threshold is the value of its feature in one of the node's samples, so the left side is never empty |
| RandomTrees.GrowRoot | RandomTree.cs:71-76 | a split node carries the attempt the loop chose, and its children are grown on that attempt's two sides |
| RandomTrees.FirstValidObserved | RandomTree.cs:50 | the chosen attempt's threshold is observed in the samples |
| RandomTrees.GrowLeafAfterAttempts | RandomTree.cs:44-81 | a node that could split but stays a leaf made all its attempts and none was valid |
| RandomTrees.FirstValidStep | RandomTree.cs:44-79 | one turn of the attempt loop: a valid attempt stops it, an invalid one moves on two draws |
| RandomTrees.FindSplit | RandomTree.cs:44-81 | the attempt loop returns what the first-valid function describes |
| RandomTrees.RandomTree | RandomTree.cs:9-84 | an empty list is rejected; otherwise the tree the grow function builds from the same draws |
| RandomTreeModels.RandomTreeModel.constructor | Models/RandomTree.cs:13-24 | a new node has the given parameters and no output, split or children |
| RandomTreeModels.RandomTreeModel.Fit | Models/RandomTree.cs:26-103 | an empty list throws and changes nothing; otherwise the previous split and children are discarded and the node describes the tree grown from the same draws |
| RandomTreeModels.RandomTreeModel.FitChildren | Models/RandomTree.cs:86-98 | the split is recorded and two fresh children one level deeper are fitted, left first |
| RandomTreeModels.RandomTreeModel.FitRest | Models/RandomTree.cs:94-95 | after the left child's fit, a failure there aborts; otherwise the right child is fitted and the node describes the split tree |
| RandomTreeModels.RandomTreeModel.Predict | Models/RandomTree.cs:105-141 | an unfitted node throws; on a fitted node the answer is the prediction of the tree it describes, going left exactly when `input[f] <= threshold` |
| Rng.Draw | RandomTree.cs:47 | `random.Next(n)` for n > 0 is in [0, n) |
| Rng.Shuffle | Models/RandomCairnTree.cs:47 | `OrderBy(_ => random.Next())`: a reordering of the list and the stream position after it |
| Rng.ShufflePermutes | Models/RandomCairnTree.cs:47 | a shuffle is a permutation of its list |
| Rng.ShuffleReachesEveryOrder | Models/RandomCairnTree.cs:47 | every ordering of the list is the shuffle of some stream |
| Rng.ShuffleStep | Models/RandomCairnTree.cs:47 | a shuffle picks one element first and then shuffles the rest |
| Rng.ShuffleReadsFrom | Models/RandomCairnTree.cs:47 | a shuffle reads only the stream positions it consumes |
| Rng.PermutationDistinct | Models/BootstrapAggregator.cs:52 | reordering keeps a list free of repeats |
| Rng.MapPermutes | BaggedPredictor.cs:38-47 | mapping commutes with reordering |
| Rng.MapRemove | BaggedPredictor.cs:38-47 | taking element j out of a list takes f of it out of the mapped list |
| Rng.Take | Models/BootstrapAggregator.cs:52 | `Take(k)`: the first k elements, all of them when k exceeds the length, none when k is negative |
| Rng.ShuffledFeatures | Models/BootstrapAggregator.cs:52 | `Range(0, n).OrderBy(random).Take(k)`: k clamped into [0, n] distinct indices below n |
| Rng.ShuffledFeaturesInRange | WeightedRandomForest.cs:54 | the chosen features are indices below n |
| Rng.ShuffleInRange | Models/RandomCairnTree.cs:47 | a shuffle of indices below n lists indices below n |
| Rng.ShuffledRange | WeightedRandomForest.cs:54 | a shuffle of 0..n-1 lists n distinct indices below n |
| Rng.TakeKeeps | WeightedRandomForest.cs:54 | a prefix keeps distinctness and the index bound |
| Rng.Resampled | BaggedPredictor.cs:25-29 | the bootstrap bag of `samples.Count` draws `samples[random.Next(samples.Count)]` and the stream position after it |
| Rng.ResampledFrom | BaggedPredictor.cs:25-29 | the bag has `samples.Count` members and each is an element of the list |
| Rng.Resample | Models/RandomCairnForest.cs:22-26 | the resampling loop returns the bag the bootstrap function describes |
| WeightedTrees.WeightedMean | WeightedRandomTree.cs:18-31 | component i of the node output is Σ w·y[i] / Σ w over the node's samples (it times Σ w is Σ w·y[i]); it is defined exactly when Σ w ≠ 0 or there are no output components, and is otherwise undefined |
| WeightedTrees.PositiveWeightsDefined | WeightedRandomTree.cs:18-31 | with positive weights, or with no output components, a non-empty node has a defined weighted mean |
| WeightedTrees.EqualWeightSums | WeightedRandomTree.cs:18-31 | with one common weight the weighted sums are that weight times the plain sums |
| WeightedTrees.EqualWeightsMean | WeightedRandomTree.cs:18-31 | with all weights one non-zero value the weighted mean is defined and is the plain mean |
| WeightedTrees.WeightedAverage | WeightedRandomTree.cs:17-31 | the output loop returns the weighted mean, undefined when the weights sum to zero and there are output components |
| WeightedTrees.WSides | WeightedRandomTree.cs:65-77 | the two sides of `input[f] <= v`, each again uniform, sharing out the list |
| WeightedTrees.FirstValidValue | WeightedRandomTree.cs:62-92 | the first value, in the shuffled order, that leaves more than m samples on both sides |
| WeightedTrees.FirstValidValueFacts | WeightedRandomTree.cs:62-92 | the chosen value is valid and every value before it is not; with no choice no value is valid |
| WeightedTrees.FirstSplit | WeightedRandomTree.cs:50-94 | the component loop: each listed component's distinct values, shuffled, scanned until the first valid split |
| WeightedTrees.FirstSplitFacts | WeightedRandomTree.cs:50-92 | a chosen split uses a listed component with more than one distinct value, a threshold among them, and leaves more than m samples on both sides |
| WeightedTrees.SingleValueInvalid | WeightedRandomTree.cs:56-59 | a component with a single value never splits validly |
| WeightedTrees.AllPassRightEmpty | WeightedRandomTree.cs:67-77 | when every sample passes the test, the right side is empty |
| WeightedTrees.FirstSplitNone | WeightedRandomTree.cs:96 | a node stays a leaf only when no listed component has a value that splits validly |
| WeightedTrees.WFitsShape | WeightedRandomTree.cs:83-88 | a grown tree tests only components below the input width, and its defined leaf values have the output width |
| WeightedTrees.WFitsDefined | WeightedRandomTree.cs:17-31 | a tree grown on positive weights, or with no output components, has a defined value at every leaf |
| WeightedTrees.WGrowDecision | WeightedRandomTree.cs:40-92 | one sample makes a leaf; a split uses a listed multi-valued component, one of its values, both sides > m, and its children are grown on those sides |
| WeightedTrees.WPredictIsLeafMean | WeightedRandomTree.cs:99-132 | the answer is the weighted mean output, undefined for a zero weight sum, of the non-empty training part at the leaf the input reaches |
| WeightedTrees.WGrowSize | WeightedRandomTree.cs:133-144 | a tree grown on n weighted samples has at most 2n - 1 nodes |
| WeightedTrees.ScanValues | WeightedRandomTree.cs:62-92 | the value loop returns the first valid value |
| WeightedTrees.FindWeightedSplit | WeightedRandomTree.cs:50-94 | the component loop returns what the first-split function describes |
| WeightedTrees.WeightedRandomTree | WeightedRandomTree.cs:9-98 | an empty list throws; otherwise the tree grown from the same draws |
| WeightedForests.BagUniform | WeightedRandomForest.cs:47-51 | a resample of uniform samples is uniform |
| WeightedForests.GrowOnFits | WeightedRandomForest.cs:57 | the tree grown on the bag fits it and has the forest's shape |
| WeightedForests.NewTreeFacts | WeightedRandomForest.cs:38-60 | the new tree fits a bag of `weightedSamples.Count` draws from the list, and its components are min(k, n) distinct indices; with positive weights, or no output components, every leaf is defined |
| WeightedForests.TreePredictions | WeightedRandomForest.cs:64-71 | each tree's defined prediction for x, in list order |
| WeightedForests.ForestPredict | WeightedRandomForest.cs:61-78 | a defined answer has `outputComponentCount` components |
| WeightedForests.ForestPredictDefined | WeightedRandomForest.cs:61-78 | an input at least as wide as the training inputs is answered with dout components when every leaf is defined and there are trees or no output components |
| WeightedForests.SingleTreeForest | WeightedRandomForest.cs:61-78 | a forest of one tree predicts what the tree predicts, and is undefined where the tree is |
| WeightedForests.ForestPredictOrder | WeightedRandomForest.cs:61-78 | the order of the trees does not change the prediction |
| WeightedForests.MapPermutation | WeightedRandomForest.cs:64-71 | predicting with each tree commutes with reordering the trees |
| WeightedForests.WeightedRandomForest.Empty | WeightedRandomForest.cs:17-25 | the dimensions are recorded, `allXComponents` is 0..n-1 and there are no trees |
| WeightedForests.WeightedRandomForest.Build | WeightedRandomForest.cs:9-37 | an empty list throws; otherwise exactly treeCount trees are added, in order, each the next grown tree |
| WeightedForests.WeightedRandomForest.AddTree | WeightedRandomForest.cs:38-60 | exactly one tree is appended, the one grown on a fresh bag and component subset; with no samples nothing is added |
| WeightedForests.WeightedRandomForest.Predict | WeightedRandomForest.cs:61-78 | throws at a tree the input is too short for; a tree without a defined prediction makes the mean undefined; otherwise the component-wise mean of the tree predictions; with no trees, the empty vector when there are no output components and a failure otherwise |
| WeightedForests.WeightedRandomForest.CountNodes | WeightedRandomForest.cs:79-87 | the sum of the trees' node counts |
| WeightedForests.GrownTrees | WeightedRandomForest.cs:28-35 | the trees the constructor adds, in order, each drawn where the previous one stopped; with positive weights, or no output components, every leaf is defined |
| WeightedForests.GrownTreesStep | WeightedRandomForest.cs:28-35 | one more tree is the next new tree, read from where the previous trees stopped |
| WeightedForests.GrownForestAnswers | WeightedRandomForest.cs:9-78 | a forest built on positive weights with at least one tree answers every input at least as wide as the training inputs with dout components |
| Boosting.Boost | ResidualRandomForest.cs:83-97 | the accumulator of Predict: zero, then lr·p(x) added for each stage p, in stage order |
| Boosting.PredictionSum | ResidualRandomForest.cs:86-95 | the plain sum of the stage predictions |
| Boosting.BoostIsScaledSum | ResidualRandomForest.cs:80-98 | the boosted prediction is lr times the sum of the stage predictions |
| Boosting.BoostAppend | ResidualRandomForest.cs:80-98 | boosting two runs of stages one after the other adds their predictions |
| Boosting.Residuals | ResidualRandomForest.cs:33-44 | the residual samples: the same inputs, each output less its accumulator |
| Boosting.Accumulators | ResidualRandomForest.cs:58-69 | every training accumulator is the boosted prediction of the stages so far for the sample's input |
| Boosting.Stages | ResidualRandomForest.cs:47-56 | stage t is fitted on the residuals the first t stages leave |
| Boosting.StageResiduals | ResidualRandomForest.cs:58-69 | the residuals the first t stages leave |
| Boosting.FirstResiduals | ResidualRandomForest.cs:26-44 | before any stage the residuals are the training samples themselves, because the accumulators start at zero |
| Boosting.ResidualStep | ResidualRandomForest.cs:64-68 | each stage lowers every residual by lr times its prediction for that sample |
| Boosting.AccumulatorsStep | ResidualRandomForest.cs:64-68 | after one more stage each accumulator gains lr times that stage's prediction |
| Boosting.AddScaled | HeavyResidualRandomForest.cs:66-69 | afterwards the accumulator is its old value plus lr times the prediction |
| Boosting.Residual | ResidualRandomForest.cs:38-42 | the residual output is the output less the accumulator, component by component |
| Boosting.UpdateSample | ResidualRandomForest.cs:64-68 | the in-place update: the accumulator gains lr·prediction, and the residual becomes output - accumulator |
| Boosting.StartResiduals | ResidualRandomForest.cs:26-44 | zeroed accumulators and residual samples equal to output - 0 |
| Boosting.FreshResiduals | HeavyResidualRandomForest.cs:45-56 | a freshly built residual list equal to the samples' outputs less their accumulators |
| Boosting.ApplyStage | ResidualRandomForest.cs:58-69 | after the loop every accumulator has gained lr times the new stage's prediction and every residual is output - accumulator again |
| Boosting.ApplyPredictions | Models/ResidualAggregator.cs:63-75 | the same update with predictions computed beforehand |
| Boosting.Accumulate | HeavyResidualRandomForest.cs:62-70 | the accumulator-only update of the boosters that rebuild their residuals |
| Boosting.NextAccumulators | HeavyResidualRandomForest.cs:62-70 | one more stage moves the accumulators to those of the longer stage list |
| Boosting.PredictInputs | Models/ResidualAggregator.cs:56-60 | a model's prediction for every sample's input, in sample order |
| Boosting.PredictSum | ResidualRandomForest.cs:83-97 | the Predict loop returns the boosted sum of the stages |
| Boosting.StagesWidth | ResidualRandomForest.cs:80-98 | the stages of a learner that answers n components answer every input with n components |
| ResidualRandomForests.TreeOutput | ResidualRandomForest.cs:89 | a tree's prediction where its path is covered |
| ResidualRandomForests.GrowsAnswers | ResidualRandomForest.cs:63 | trees grown on the residuals answer every training input with dout components |
| ResidualRandomForests.BoostedPredict | ResidualRandomForest.cs:80-98 | an input too short for some tree throws; otherwise the boosted sum of the tree predictions |
| ResidualRandomForests.TrainingPrediction | ResidualRandomForest.cs:58-69 | after t stages the forest's answer for a training input is that sample's accumulator, and its residual is its output less it |
| ResidualRandomForests.StagesGrown | ResidualRandomForest.cs:73-78 | every stage tree is one the constructor built |
| ResidualRandomForests.ResidualRandomForest.Empty | ResidualRandomForest.cs:17-23 | the parameters are recorded and there are no trees |
| ResidualRandomForests.ResidualRandomForest.Build | ResidualRandomForest.cs:9-72 | an empty list throws; otherwise exactly treeCount trees, in stage order, each fitted on the residuals the trees before it leave |
| ResidualRandomForests.ResidualRandomForest.AddTree | ResidualRandomForest.cs:73-79 | exactly one tree, grown on the given samples, is appended |
| ResidualRandomForests.ResidualRandomForest.Predict | ResidualRandomForest.cs:80-99 | lr times each tree's prediction, added in tree order onto outputComponentCount zeros |
| ResidualRandomForests.ResidualRandomForest.CountNodes | ResidualRandomForest.cs:100-108 | the sum of the trees' node counts |
| ResidualRandomForests.UpdateStage | ResidualRandomForest.cs:58-69 | after the loop the accumulators and residuals are those of one more stage; the original samples are untouched |
| HeavyResidualRandomForests.HeavyResidualRandomForest.Empty | HeavyResidualRandomForest.cs:19-27 | the parameters are recorded and there are no forests |
| HeavyResidualRandomForests.HeavyResidualRandomForest.Build | HeavyResidualRandomForest.cs:11-73 | an empty list throws; otherwise exactly forestCount forests, in order, each fitted on residuals rebuilt from the accumulators |
| HeavyResidualRandomForests.HeavyResidualRandomForest.AddForest | HeavyResidualRandomForest.cs:74-80 | exactly one forest, built on the given samples, is appended |
| HeavyResidualRandomForests.HeavyResidualRandomForest.Predict | HeavyResidualRandomForest.cs:81-99 | lr times each forest's prediction, added in stage order onto zeros |
| HeavyResidualRandomForests.UpdateStage | HeavyResidualRandomForest.cs:62-70 | after the loop each accumulator has gained lr times the new forest's prediction for its input |
| ResidualAggregators.ResidualAggregator.constructor | Models/ResidualAggregator.cs:8-15 | the models and learning rate are recorded, and there is no output length, so the aggregator is unfitted |
| ResidualAggregators.ResidualAggregator.Fit | Models/ResidualAggregator.cs:16-78 | an empty list throws before anything changes; otherwise the output length is the first output's and model k is fitted on the residuals of models 0..k-1 |
| ResidualAggregators.ResidualAggregator.Predict | Models/ResidualAggregator.cs:79-95 | throws before Fit; otherwise lr times each model's prediction, added in list order onto zeros |
| ResidualAggregators.FitStage | Models/ResidualAggregator.cs:39-76 | model k is fitted on the residuals; unless it is the last model the accumulators gain lr times its predictions and the residuals are rewritten |
| ResidualPredictors.ResidualPredictor.constructor | ResidualPredictor.cs:9-32 | zero accumulators, residuals equal to the samples, then exactly modelCount models from as many `AddModel()` calls |
| ResidualPredictors.ResidualPredictor.AddModel | ResidualPredictor.cs:35-52 | one more model, built on the current residuals; every accumulator gains lr times its prediction and residual = output - accumulator again |
| ResidualPredictors.ResidualPredictor.Predict | ResidualPredictor.cs:55-67 | throws with no samples; otherwise lr times each model's prediction, added in model order onto zeros |
| BoostedRandomTrees.BoostedRandomTree.Empty | BoostedRandomTree.cs:9-11 | the output width and learning rate are recorded and there are no trees |
| BoostedRandomTrees.BoostedRandomTree.Build | BoostedRandomTree.cs:7-48 | an empty list throws; otherwise treeCount trees, none when it is not positive, each grown on residuals rebuilt from the running predictions |
| BoostedRandomTrees.BoostedRandomTree.Predict | BoostedRandomTree.cs:49-61 | lr times each tree's prediction, added in tree order onto zeros; on a training input this is that sample's running prediction |
| BoostedRandomTrees.TrainStage | BoostedRandomTree.cs:19-46 | one stage: fresh residuals, one tree grown on them and appended, and the running predictions advanced by it |
| BoostedRandomTrees.AddStage | BoostedRandomTree.cs:38-45 | each running prediction gains lr times the new tree's prediction, so they are again the boosted predictions of the trees so far |
| Cairns.DistProperties | Models/CairnTree.cs:18-27 | between samples of one input width the distances are symmetric, non-negative, and zero from a sample to itself |
| Cairns.Sides | Models/CairnTree.cs:56-67 | the index list split between two cairns, each side in list order |
| Cairns.SidesFacts | Models/CairnTree.cs:56-67 | the sides share out the index list; every left index is at least as near to the left cairn as to the right one, every right index strictly nearer the right cairn |
| Cairns.SidesMember | Models/CairnTree.cs:58-67 | entry k of the index list lands on the side its own distances select |
| Cairns.CairnGoesLeft | Models/CairnTree.cs:60 | the left cairn itself always goes left, its distance to itself being zero |
| Cairns.Gather | Models/CairnTree.cs:129-131 | the samples the index list names, in list order |
| Cairns.MeanOf | Models/CairnTree.cs:126-143 | `CalculateAverageOutput` on a non-empty index list is the mean output of the listed samples |
| Cairns.ErrorOf | Models/CairnTree.cs:144-175 | `CalculateError`: the summed squared or absolute deviation over the count, never negative |
| Cairns.Predict | Models/CairnTree.cs:110-125 | a leaf answers its output; an empty node answers the empty vector when it has no output components and a failure otherwise; a split follows the nearer cairn, ties going left; an input longer than a cairn throws |
| Cairns.PredictSplit | Models/CairnTree.cs:116-123 | on a split whose cairns are as wide as the input, the answer is the nearer side's, ties going left |
| Cairns.PredictShape | Models/CairnTree.cs:110-125 | every answer has dout components, an input no longer than the cairns never throws, a full tree always answers, and with no output components every such input gets the empty vector |
| Cairns.Distances | Models/CairnTree.cs:18-27 | the distance matrix holds the distance between samples a and b at both [a, b] and [b, a] |
| Cairns.Divide | Models/CairnTree.cs:92-104 | the partition loop returns the two sides the side function describes |
| Cairns.AverageOutput | Models/CairnTree.cs:126-143 | the averaging loop returns the mean output of the listed samples |
| Cairns.NodeError | Models/CairnTree.cs:144-175 | the error loop returns the node error, which is non-negative |
| Cairns.NewLeaf | Models/CairnTree.cs:34-35 | a node's output and error, or the empty node of the output width for an empty index list |
| CairnTrees.Scan | Models/CairnTree.cs:50-87 | the pair loops from position (a, b) on, in the order the source visits them |
| CairnTrees.ScanFacts | Models/CairnTree.cs:50-87 | from (a, b) on, the best is kept unless some acceptable pair ahead scores strictly below it, and no acceptable pair ahead scores below the result |
| CairnTrees.Search | Models/CairnTree.cs:45-87 | the pair search on a node's list, started from the node's own error |
| CairnTrees.BestPair | Models/CairnTree.cs:45-87 | a named pair sits at positions i < j, both sides keep ≥ m samples, and its split error is below the node error and no higher than any acceptable pair's |
| CairnTrees.PairNeedsTwo | Models/CairnTree.cs:50-55 | a chosen pair takes two distinct positions of the list |
| CairnTrees.Chosen | Models/CairnTree.cs:40-87 | no pair for an empty list, at the depth limit, or below 2·m samples; otherwise the search's pair |
| CairnTrees.Grow | Models/CairnTree.cs:32-109 | the node's mean output and error and, when a pair is chosen, the children grown on its two sides one level deeper |
| CairnTrees.GrowFull | Models/CairnTree.cs:88-106 | the children of a split come from an acceptable pair, so neither side is empty and every node is full |
| CairnTrees.GrowSplit | Models/CairnTree.cs:88-106 | a chosen pair unfolds into a split on its two sides, and an input's cell is the cell of the side it is nearer |
| CairnTrees.GrowLeaf | Models/CairnTree.cs:40-43 | with no pair chosen the node is a leaf on its whole list |
| CairnTrees.PredictIsCellMean | Models/CairnTree.cs:110-125 | on an input of the training width Predict answers the mean output of the samples in its cell, a sub-multiset of the node's list; an empty cell gives the empty vector when there are no output components and a failure otherwise |
| CairnTrees.CellHoldsSample | Models/CairnTree.cs:116-123 | a training sample's own input reaches the cell that holds its index |
| CairnTrees.TrainingPrediction | Models/CairnTree.cs:110-125 | on a training input the tree answers the mean output of a part of the samples that contains that sample |
| CairnTrees.WeightedError | Models/CairnTree.cs:71-77 | the size-weighted error of a split whose sides are both non-empty |
| CairnTrees.TryPair | Models/CairnTree.cs:55-83 | partition by the two cairns and, when both sides keep ≥ m samples, replace the best only on a strictly lower weighted error |
| CairnTrees.SearchPairs | Models/CairnTree.cs:45-87 | the pair loops return the search's result |
| CairnTrees.Construct | Models/CairnTree.cs:32-109 | the private constructor builds the tree the grow function describes, recomputing the partition for the best pair |
| CairnTrees.Build | Models/CairnTree.cs:16-31 | the distance matrix, then the root on every index 0..n-1; an empty list throws |
| RandomCairnTrees.First | Models/RandomCairnTree.cs:54-85 | the pair loops over the shuffled list from (a, b) on, stopping at the first pair whose sides both keep m samples |
| RandomCairnTrees.FirstFacts | Models/RandomCairnTree.cs:54-85 | the loops stop at a fitting pair and no earlier pair fits; with no result no pair fits |
| RandomCairnTrees.Decide | Models/RandomCairnTree.cs:40-87 | stop at the depth limit or below 2·m samples; otherwise shuffle and divide at the first fitting pair, or stop when none fits |
| RandomCairnTrees.DecideIsFirstPair | Models/RandomCairnTree.cs:47-85 | the cairns are the first pair of the shuffled list, at positions i < j, whose sides both keep m samples |
| RandomCairnTrees.DecideFacts | Models/RandomCairnTree.cs:73-92 | a divided node's sides are those of its cairns over the shuffled list: each keeps ≥ m samples and together they hold the node's indices |
| RandomCairnTrees.RGrowShape | Models/RandomCairnTree.cs:32-95 | every node's output has dout components and every cairn din; with m positive every node is full |
| RandomCairnTrees.RGrowLeaf | Models/RandomCairnTree.cs:40-43 | a node that stops is a leaf on its whole list |
| RandomCairnTrees.RGrowSplit | Models/RandomCairnTree.cs:87-93 | a divided node is a split on its two sides, and an input's cell is the cell of the side it is nearer |
| RandomCairnTrees.RPredictIsCellMean | Models/RandomCairnTree.cs:96-111 | on an input of the training width Predict answers the mean output of its cell, a sub-multiset of the node's list; an empty cell gives the empty vector when there are no output components and a failure otherwise |
| RandomCairnTrees.RCellHoldsSample | Models/RandomCairnTree.cs:102-109 | a training sample's own input reaches the cell that holds its index |
| RandomCairnTrees.RTrainingPrediction | Models/RandomCairnTree.cs:96-111 | on a training input the tree answers the mean output of a part of the samples that contains that sample |
| RandomCairnTrees.FindPair | Models/RandomCairnTree.cs:49-85 | the pair loops with their break flag return the first fitting pair and its sides |
| RandomCairnTrees.Construct | Models/RandomCairnTree.cs:32-95 | the private constructor builds the tree the grow function describes, left child first |
| RandomCairnTrees.Build | Models/RandomCairnTree.cs:16-31 | the distance matrix, then the root on every index 0..n-1; an empty list throws |
| RandomCairnForests.TreeAnswers | Models/RandomCairnForest.cs:33-40 | the trees' answers for x, in tree order |
| RandomCairnForests.AnswersWidth | Models/RandomCairnForest.cs:35 | trees of the forest's shape answer with dout components |
| RandomCairnForests.ForestPredict | Models/RandomCairnForest.cs:30-46 | a defined answer has `samples[0].output.Length` components |
| RandomCairnForests.ForestPredictDefined | Models/RandomCairnForest.cs:30-46 | a forest of full trees, or any forest when there are no output components, answers every input of at most din components with dout numbers, provided it has a tree or no output components |
| RandomCairnForests.SingleTreeForest | Models/RandomCairnForest.cs:30-46 | a forest of one tree answers exactly what the tree answers |
| RandomCairnForests.ResampledUniform | Models/RandomCairnForest.cs:22-26 | a resample of samples sharing widths shares them |
| RandomCairnForests.NewTreeFacts | Models/RandomCairnForest.cs:20-29 | the new tree has the samples' widths and, with m positive on non-empty samples, is full |
| RandomCairnForests.GrowTree | Models/RandomCairnForest.cs:20-29 | the resampling loop, then the tree built on the resample, which throws with no samples |
| RandomCairnForests.RandomCairnForest.constructor | Models/RandomCairnForest.cs:10-19 | a new forest has the given parameters and no trees |
| RandomCairnForests.RandomCairnForest.AddTree | Models/RandomCairnForest.cs:20-29 | `samples.Count` draws, then exactly one tree grown on the resample is appended; with no samples the build throws and nothing is added |
| RandomCairnForests.RandomCairnForest.Predict | Models/RandomCairnForest.cs:30-46 | throws with no samples; otherwise the component-wise mean of the tree answers, with `samples[0].output.Length` components; with no trees, the empty vector when there are no output components and a failure otherwise |
| Bagging.AverageOf | Utility.cs:3-18 | defined exactly when there is a prediction and none is shorter than the first; it then has the first one's length and component i is the mean of the i-th components |
| Bagging.AverageOfOne | Utility.cs:3-18 | the average of one prediction is that prediction |
| Bagging.AverageOfPermutation | Utility.cs:3-18 | among predictions of one length the order of the members does not matter |
| Bagging.Averaged | Utility.cs:3-18 | `Utility.Average` with its two throwing cases: no vectors, or a vector shorter than the first |
| Bagging.Predicted | BaggedPredictor.cs:40-44 | every member's prediction, in member order |
| Bagging.PredictionsOrderFree | BaggedPredictor.cs:38-47 | the averaged prediction does not depend on the order in which the members were added |
| Bagging.OneMember | BaggedPredictor.cs:38-47 | a bag of one model answers what that model answers |
| Bagging.ReselectSamples | Models/BootstrapAggregator.cs:58 | every input reselected to the features, every output kept |
| Bagging.FeaturesPerBagBounds | Models/BootstrapAggregator.cs:29-31 | for a percentage in (0, 1], between 1 and n features when there are any, none when there are none, and all of them at 100 percent |
| BootstrapAggregators.BagFacts | Models/BootstrapAggregator.cs:45-52 | model i's bag has `samples.Count` members drawn from the samples, and its features are distinct indices below n, as many as featuresPerBag |
| BootstrapAggregators.FeatureBags | Models/BootstrapAggregator.cs:52-55 | the feature lists of the first count models |
| BootstrapAggregators.FittedModels | Models/BootstrapAggregator.cs:34-63 | the first count models after Fit |
| BootstrapAggregators.FeatureBagsStep | Models/BootstrapAggregator.cs:52-55 | one more model's features follow those of the models before it |
| BootstrapAggregators.FittedModelsStep | Models/BootstrapAggregator.cs:58-61 | one more model's fitted state follows those of the models before it |
| BootstrapAggregators.FeatureBagsFacts | Models/BootstrapAggregator.cs:29-55 | after Fit every model has featuresPerBag distinct features below n, at least one and at most n when there are any |
| BootstrapAggregators.MemberAnswers | Models/BootstrapAggregator.cs:71-84 | every model's answer about x reduced to its features, in list order |
| BootstrapAggregators.Prediction | Models/BootstrapAggregator.cs:65-89 | a model without recorded features, or with a feature x lacks, throws; otherwise the average of the answers, which throws with no models |
| BootstrapAggregators.PredictAfterFit | Models/BootstrapAggregator.cs:65-89 | after a successful Fit an input at least as wide as the training inputs is answered exactly when there is a model |
| BootstrapAggregators.PredictOneModel | Models/BootstrapAggregator.cs:65-89 | an aggregator of one model answers what that model answers about the reduced input |
| BootstrapAggregators.BootstrapAggregator.constructor | Models/BootstrapAggregator.cs:8-19 | the models and percentage are recorded and there are no feature lists |
| BootstrapAggregators.BootstrapAggregator.New | Models/BootstrapAggregator.cs:13-16 | a percentage outside (0, 1] throws; otherwise a fresh aggregator |
| BootstrapAggregators.BootstrapAggregator.Fit | Models/BootstrapAggregator.cs:20-64 | the feature lists are cleared, then an empty list throws; otherwise every model is fitted on its bag and there is one feature list per model |
| BootstrapAggregators.BootstrapAggregator.Predict | Models/BootstrapAggregator.cs:65-89 | the average of every model's answer about x reduced to its features |
| BootstrapAggregators.FitModel | Models/BootstrapAggregator.cs:42-61 | one model: `samples.Count` draws for the bag, a shuffle of the features, and the model fitted on the reduced bag |
| BaggedPredictors.BagDrawsFacts | BaggedPredictors/BaggedPredictor.cs:24-38 | a bag has `samples.Count` members drawn from the samples; without featuresPerBag the features are 0..n-1 in order, with it min(featuresPerBag, n) distinct indices |
| BaggedPredictors.Built | BaggedPredictors/BaggedPredictor.cs:14-21 | the models count `AddModel()` calls append, in order, each drawing where the one before it stopped |
| BaggedPredictors.BuiltAt | BaggedPredictors/BaggedPredictor.cs:22-42 | model i of the built ones comes from the i-th call's bag and features |
| BaggedPredictors.BaggedPredictor.constructor | BaggedPredictors/BaggedPredictor.cs:7-13 | the samples and featuresPerBag are recorded and there are no models |
| BaggedPredictors.BaggedPredictor.AddModel | BaggedPredictors/BaggedPredictor.cs:22-42 | with no samples the feature list throws and nothing is added; otherwise exactly one model, built on a fresh bag, is appended |
| BaggedPredictors.BaggedPredictor.Build | BaggedPredictors/BaggedPredictor.cs:14-21 | modelCount `AddModel()` calls, which with no samples throw at the first; a count ≤ 0 adds nothing |
| BaggedPredictors.BaggedPredictor.Predict | BaggedPredictors/BaggedPredictor.cs:47-56 | the average of every model's answer about x |
| SimpleBaggedPredictors.Built | BaggedPredictor.cs:14-21 | the models count `AddModel()` calls append, in order, each taking `samples.Count` draws where the one before it stopped |
| SimpleBaggedPredictors.BuiltAt | BaggedPredictor.cs:22-33 | model i is built on the i-th bag: `samples.Count` members drawn from the samples |
| SimpleBaggedPredictors.BaggedPredictor.constructor | BaggedPredictor.cs:8-13 | the samples are recorded and there are no models |
| SimpleBaggedPredictors.BaggedPredictor.AddModel | BaggedPredictor.cs:22-33 | exactly one model, built on a bag of `samples.Count` draws, is appended |
| SimpleBaggedPredictors.BaggedPredictor.Build | BaggedPredictor.cs:14-21 | exactly modelCount models are added; a count ≤ 0 adds nothing |
| SimpleBaggedPredictors.BaggedPredictor.Predict | BaggedPredictor.cs:38-47 | the average of every model's answer about x |
| StackAggregators.ComposeAppend | Models/StackAggregator.cs:45-62 | feeding through a then b is feeding through a + b |
| StackAggregators.ComposeOne | Models/StackAggregator.cs:45-62 | a stack of one model is that model |
| StackAggregators.Relabeled | Models/StackAggregator.cs:28-40 | every sample's input replaced by the model's prediction for it, its output kept |
| StackAggregators.Fed | Models/StackAggregator.cs:13-40 | model i is fitted on the caller's samples relabelled by each model before it |
| StackAggregators.Stacked | Models/StackAggregator.cs:16-22 | the first count models after Fit |
| StackAggregators.StackedStep | Models/StackAggregator.cs:16-40 | one more model is fitted on what the models before it fed it |
| StackAggregators.FedIsComposition | Models/StackAggregator.cs:10-44 | model i's training sample j has as input the composition of the first i fitted models applied to samples[j].input, and samples[j].output as output |
| StackAggregators.StackAggregator.constructor | Models/StackAggregator.cs:5-9 | the models are recorded |
| StackAggregators.StackAggregator.Fit | Models/StackAggregator.cs:10-44 | every model is fitted once, in order, on the working copy; the caller's samples are untouched |
| StackAggregators.StackAggregator.Predict | Models/StackAggregator.cs:45-62 | the input fed through every model in order; with no models, the input itself |
| StackAggregators.Relabel | Models/StackAggregator.cs:28-40 | the predictions are collected first, then every sample is replaced by one with its prediction as input and its own output |
| ConcatAggregators.FittedModels | Models/ConcatAggregator.cs:15-27 | the first count models, each fitted on the same samples |
| ConcatAggregators.JoinedBlocks | Models/ConcatAggregator.cs:40 | with every model answering n components the joined answer has `models.Count * n` components and block k is model k's answer |
| ConcatAggregators.ConcatAggregator.constructor | Models/ConcatAggregator.cs:6-11 | the models are recorded |
| ConcatAggregators.ConcatAggregator.Fit | Models/ConcatAggregator.cs:12-29 | every model, in list order, is fitted on the same samples |
| ConcatAggregators.ConcatAggregator.Predict | Models/ConcatAggregator.cs:30-42 | throws with no models; otherwise every model's answer, in list order, joined end to end |
| Errors.ErrorSumProperties | Error.cs:7-16 | an error sum is non-negative and zero on exact predictions; the absolute sum is zero only on exact predictions |
| Errors.MeanErrorProperties | Error.cs:5-33 | both mean errors are non-negative and zero on exact predictions; the absolute one is zero only on exact predictions |
| Errors.OneSampleError | Error.cs:17 | one sample's error is its whole error sum: the division is by the sample count, not by the number of components |
| Errors.MeanErrorLoop | Error.cs:7-17 | every sample's terms are added, then the sum is divided by the sample count; no samples gives a failure |
| Errors.ErrorSumPrefix | Error.cs:8-16 | an error sum reads only the samples it adds up |
| Errors.MeanSquaredError | Error.cs:5-18 | the mean squared error, failing on a missing or short prediction and on an empty list |
| Errors.MeanAbsoluteError | Error.cs:20-33 | the mean absolute error, failing on a missing or short prediction and on an empty list |
| Errors.Argmax | Error.cs:42-57 | -1 for no components, otherwise the first index of a maximal component, because of the strict `>` |
| Errors.ArgmaxIsFirstMax | Error.cs:46-57 | the argmax component is maximal and every component before it is strictly smaller |
| Errors.MismatchesBound | Error.cs:59-62 | at most count of count samples mismatch; none does when every argmax agrees, all do when none agrees |
| Errors.ArgmaxErrorRange | Error.cs:35-65 | ArgmaxError lies in [0, 1], with 0 when every argmax agrees and 1 when none does |
| Errors.Argmaxes | Error.cs:42-58 | the inner loop returns both argmaxes, the scans running side by side |
| Errors.ArgmaxError | Error.cs:35-65 | the share of samples whose argmaxes differ; failing on an empty list or a short prediction |
| Errors.MismatchesPrefix | Error.cs:38-63 | a mismatch count reads only the samples it counts |
| FeatureReducers.DiffersFromFacts | FeatureReducer.cs:12-19 | with every input n wide, the inner loop finds a difference exactly when some sample from i on differs from sample 0 |
| FeatureReducers.HeterogeneousFacts | FeatureReducer.cs:5-26 | with every input n wide, the result lists in increasing order exactly the features on which some sample differs from sample 0 |
| FeatureReducers.HeterogeneousFails | FeatureReducer.cs:14 | once a feature's scan reads past a short input, the whole scan throws |
| FeatureReducers.RemoveHomogenous | FeatureReducer.cs:5-26 | the loops return exactly what the heterogeneity function describes |
| FeatureReducers.RemoveFirst | FeatureReducer.cs:194 | `List.Remove`: the first occurrence taken out, one element fewer, the list unchanged when it is absent |
| FeatureReducers.BestChangeFacts | FeatureReducer.cs:60-114 | a pass picks a candidate whose error is below the bound and no higher than any candidate's, strictly below every earlier one; with no pick no candidate is below the bound |
| FeatureReducers.ScanChanges | FeatureReducer.cs:56-114 | the candidate loop returns the chosen feature (-1 for none) and its error (the bound for none) |
| FeatureReducers.ImprovingAppend | FeatureReducer.cs:117-122 | appending a feature whose error beats the list's keeps the errors strictly decreasing |
| FeatureReducers.AdditiveFacts | FeatureReducer.cs:40-123 | the result extends its start with distinct features below n, each addition strictly lowering the error; it stops when all n are chosen or no addition improves |
| FeatureReducers.GreedySelectionAdditive | FeatureReducer.cs:28-133 | `train[0]` throws on an empty list; otherwise the additive search from no features and error +∞ |
| FeatureReducers.RemoveFirstIncreasing | FeatureReducer.cs:227 | taking a feature out of an increasing list leaves it increasing and without that feature |
| FeatureReducers.SubtractiveFacts | FeatureReducer.cs:147-230 | the result is an increasing sub-list of its start; each removal strictly lowers the error; it never goes below one feature, and it stops at one feature or when no removal improves |
| FeatureReducers.GreedySelectionSubtractive | FeatureReducer.cs:135-240 | `train[0]` throws on an empty list; otherwise the subtractive search from every feature, at the error of the unreduced data |
| FeatureReducers.SubtractiveFromAll | FeatureReducer.cs:141-160 | starting from all n > 0 features, at least one is kept, in increasing order |
| NearestNeighbours.DistanceFacts | KNN.cs:14-22 | Distance succeeds exactly when every listed feature is a component of both vectors; it is then non-negative, symmetric, and depends only on the listed components |
| NearestNeighbours.Distances | KNN.cs:26-31 | the input's distance to every sample, in sample order; it fails exactly when some distance fails |
| NearestNeighbours.DistancesPrefix | KNN.cs:27-31 | a failure among the first samples is the failure of the whole loop |
| NearestNeighbours.Insert | KNN.cs:32 | an index inserted before the first index of a larger distance |
| NearestNeighbours.InsertAscending | KNN.cs:32 | inserting into an order of nondecreasing distance keeps it nondecreasing |
| NearestNeighbours.SortIndices | KNN.cs:32 | `List.Sort` on the first m samples |
| NearestNeighbours.SortIndicesSorted | KNN.cs:32 | the sort returns every sample index once, by nondecreasing distance |
| NearestNeighbours.KnnAverage | KNN.cs:33-47 | the mean of the first min(k, n) outputs along the order, with `samples[0].output.Length` components |
| NearestNeighbours.IndexInOrder | KNN.cs:32 | every sample index appears somewhere in a sorted order |
| NearestNeighbours.NeighboursAreNearest | KNN.cs:32-42 | every one of the first m samples along a sorted order is at least as near as every sample not among them |
| NearestNeighbours.AllNeighbours | KNN.cs:33-47 | with k ≥ n, Predict is the mean of every sample's output, whatever the input and however ties were sorted |
| NearestNeighbours.NearestOne | Models/KNN.cs:25-40 | with k = 1, Predict is the output of a sample at minimal distance, whichever of the tied ones the sort put first |
| NearestNeighbours.MeasureAll | KNN.cs:26-31 | the distance loop returns the distance list |
| NearestNeighbours.AccumulateNearest | KNN.cs:35-42 | the outputs of the first m samples along the order, added component by component into the zeroed accumulator |
| NearestNeighbours.NearestAverage | KNN.cs:24-48 | distances to every sample, sorted apart from the samples, then the average of the first min(k, n) outputs; the order is a sorted order whenever the distances succeed |
| NearestNeighbours.Knn.constructor | KNN.cs:7-12 | k, the samples and the features are recorded |
| NearestNeighbours.Knn.Predict | KNN.cs:24-48 | the average output of the min(k, n) samples nearest the input, returned with the index order the sort produced |
| NearestNeighbours.KnnModel.constructor | Models/KNN.cs:9-15 | the samples, features, k and the distance delegate are recorded |
| NearestNeighbours.KnnModel.Predict | Models/KNN.cs:17-41 | the average output of the min(k, n) samples nearest by the delegate, restricted to the model's features |

## Left out

- Floating point is read as real arithmetic: rounding, overflow, NaN and infinity are not modelled. A NaN the source would produce becomes a `Result` failure:
  - an average over zero vectors;
  - a forest with no trees (`NotFitted`);
  - a cairn node on an empty index list;
  - a weighted tree node whose weights sum to zero (Σ w·y / 0 is NaN or infinite). The weights themselves are not checked, as in the source.
- A NaN comparison in a split search is modelled as "not valid", as the source's `<` on NaN is false.
- A dout of 0 is the exception to the NaN rule: a division over zero components leaves nothing undefined, so the model answers an empty vector. This covers `KNN.Predict` with no neighbours, a weighted node whose weights sum to zero, the weighted and random cairn forests with no trees, and a cairn node on an empty index list.
- `MathF.Sqrt` is left out of the Euclidean distances: the model uses the squared distance, which orders pairs the same way. `MathF.Pow(x, 2)` is read as `x * x`.
- `System.Random` is not modelled. All `new Random()` instances of one class are read as one stream of draws, passed in as a function from positions to integers and consumed from a running position; per-instance seeding is not modelled. The random cairn forest has two such streams: its own, and its trees' per-node ones. A value outside [0, n) counts as 0. Any shuffle and any bag can be produced.
- `Parallel.For` and the locks in FeatureReducer.cs are made sequential. Between equal errors, the lowest feature index is then kept.
- The error delegate in FeatureReducer.cs is the `test` parameter, applied to the reduced feature list. `Sample.ReselectFeatures` is not part of this model. `fullError` stands for the delegate called on the unreduced lists.
- Console output under `verbose` is not modelled.
- The `threadCount` parameters are not modelled.
- `Models/Model.cs` is an abstract interface. Its implementations, the `RandomForest` class used by HeavyResidualRandomForest.cs, and the tree constructor overloads that ResidualRandomForest.cs and BoostedRandomTree.cs call are not part of this model. They are parameters (`fit`, `grow`, `growForest`, `build`).
- The calls `model.Fit(samples)` in Models/BootstrapAggregator.cs and Models/ConcatAggregator.cs take one argument, although Models/Model.cs declares two. The model reads them as fits on the samples alone.
- `Sample.AverageOutput`, `Sample.HistogramInputComponent`, `Sample.OutputMeanSquaredError` and `Sample.OutputMeanAbsoluteError` are not part of this model:
  - the node mean is `Samples.MeanOutput`;
  - the distinct values are `Trees.Values`;
  - the node error of the standard tree is the parameter `err`.
- Shared arrays and lists (aliasing) are replaced by values, for example a residual `Sample` sharing its input array with the original sample. Where the source relies on sharing, the effect is stated instead: the residual inputs equal the original inputs, and the weights are shared by copying.
- The thin subclasses that only forward to a constructor are instances of the generic bagging and boosting classes with a chosen `build` parameter:
  - ResidualPredictorStandardTree.cs, ResidualPredictorRandomTree.cs and ResidualPredictors/*.cs;
  - BaggedPredictorStandardTree.cs, BaggedPredictorRandomTree.cs and BaggedPredictors/BaggedPredictorKNN.cs.
- Integer overflow of `minSamplesPerLeaf * 2` and of the node counters is not modelled.
- Utility.cs throws on some inputs where the model requires them not to occur:
  - `Vectors.Average` requires a non-empty list whose vectors are at least as long as the first. Through `Bagging.Averaged`, the ensembles model both throwing cases.
  - `Vectors.Concat` requires vectors of one common length. The source's behaviour on mixed lengths (a throw or a short copy) is not modelled.
  - `Vectors.MeanAbsoluteDistance` requires a non-empty a, because 0/0 is NaN, and `|a| <= |b|`, because the source throws otherwise.
  - `Vectors.MeanAbsoluteDistanceOn` requires a non-empty feature list (NaN otherwise) and in-range features (a throw otherwise).
  - `Vectors.SquaredEuclideanDistance` requires `|a| <= |b|`. The source throws otherwise.
  - `Vectors.SquaredEuclideanDistanceOn` requires in-range features. The source throws otherwise.
  - `Vectors.WeightedMeanAbsoluteDistance` requires a non-zero weight sum (NaN or infinity otherwise) and vectors at least as long as a.
- `Vectors.AddInto` requires a prediction at least as long as the accumulator. The source's indexing throws otherwise.
- `Vectors.DivideBy` requires a non-zero divisor. The callers divide only by a positive tree count, and a zero divisor would give NaN.
- `Vectors.CopyInto` requires the copy to fit in the destination. `Array.Copy` throws otherwise.
- `Trees.Predict` requires the input to cover every component a split on its path reads. The source throws `IndexOutOfRangeException` otherwise, and the forest-level predictions model that throw as a failure.
- `Samples.MeanOutput` requires a non-empty list of one output width. Every caller has rejected the empty list already, and an empty list would give NaN.
- `BootstrapAggregators.BootstrapAggregator.constructor` requires a percentage in (0, 1]. `BootstrapAggregators.BootstrapAggregator.New` models the throw for the other percentages.
- `Samples.Normalize` requires a non-empty list of one input width and one output width. The source throws on an empty list or on a longer vector.
- `Samples.Conormalize` has the same requirement as `Samples.Normalize`, on the joined list.
- `StandardTrees.StandardTree` requires inputs of one width, outputs of one width, and features below that width. The source throws `IndexOutOfRangeException` otherwise.
- `RandomTrees.RandomTree` requires inputs of a positive common width and outputs of one width. With no components the source's `input[0]` would throw.
- `RandomTreeModels.RandomTreeModel.Fit` requires uniform widths. It also requires a depth limit or `minSamplesPerLeaf >= 0`: without both, an attempt may leave one side empty and the source then throws deep in the recursion, which the model does not follow.
- `WeightedTrees.WeightedRandomTree` requires uniform widths, listed components below the input width, and `minSamplesPerLeaf >= 0`. With a negative minimum the source recurses into an empty side and throws.
- `WeightedForests.WeightedRandomForest.AddTree` requires uniform widths matching the forest's.
- `WeightedForests.WeightedRandomForest.Build` requires uniform widths and `minSamplesPerLeaf >= 0`, as `WeightedTrees.WeightedRandomTree` does.
- `WeightedForests.WeightedRandomForest.Empty` requires `minSamplesPerLeaf >= 0`, so that every tree it adds is well defined.
- `CairnTrees.Build` requires samples of one input width and one output width.
- `RandomCairnTrees.Build` has the same requirement as `CairnTrees.Build`.
- `RandomCairnForests.RandomCairnForest.constructor` requires samples of one input width and one output width.
- `BootstrapAggregators.BootstrapAggregator.Fit` requires every input to be as wide as the first. Otherwise the source's `ReselectFeatures` would throw.
- `ConcatAggregators.ConcatAggregator.Predict` requires every model to answer with one common length.
- `ResidualRandomForests.ResidualRandomForest.Build` requires samples of one input and one output width, and a tree builder whose trees test components below the input width and have leaves of the output width. A learner that answers with another length makes the source throw or skip components; that is not modelled.
- `ResidualRandomForests.ResidualRandomForest.Empty` requires the tree builder's leaves to have the output width, for the same reason.
- `HeavyResidualRandomForests.HeavyResidualRandomForest.Build` requires outputs of one width and a forest builder that answers with that width, for the same reason.
- `HeavyResidualRandomForests.HeavyResidualRandomForest.Empty` requires a forest builder that answers with the output width, for the same reason.
- `ResidualAggregators.ResidualAggregator.Fit` requires outputs of one width and models that answer with that width, for the same reason.
- `ResidualPredictors.ResidualPredictor.constructor` requires outputs of one width and a model builder that answers with that width, for the same reason.
- `BoostedRandomTrees.BoostedRandomTree.Build` requires outputs of one width and a tree builder that answers with that width, for the same reason.
- `BoostedRandomTrees.BoostedRandomTree.Empty` requires a tree builder that answers with the output width, for the same reason.
- Files outside the ensemble core are not modelled:
  - the interpolation baselines, GraphDiffusion.cs and TaskedRandomTree.cs;
  - RandomForest.cs, DeepRandomForest.cs and MultiDeepRandomForest.cs, which call constructors that are not shown;
  - the optimisers, Synthetic.cs, the plotting scripts and Program.cs.
