# Boosted decision trees: node engine and boosting loop

This project models, in Dafny, the core of a small C# boosted-decision-tree classifier
that separates *signal* events from *background* events.

A tree is made of `Leaf` nodes (DecisionTree/Leaf.cs). Each node records:
- how many signal and background points reached it in training (`nSignal`, `nBackground`);
- the feature it cuts on and the cut value (`variable`, `split`);
- a soft-prune flag (`isHidden`);
- for a branch, its two children.

A point goes to the low child when its feature is at most the cut. Inference stops at the
first node that is terminal or hidden and answers that node's *purity*,
`nSignal / (nSignal + nBackground)`. Rounding the purity gives the class.

Training records the counts and looks for a cut with `ChooseVariable`. That search covers
every feature with a 100-bin pass and then a 50-bin pass around the best cut so far, and
scores a cut by the difference in signal purity of its two sides. Training then
partitions both corpora by the cut and trains two fresh children.

Pruning hides, bottom-up, every branch whose misclassification rate plus a per-terminal
penalty is not below its own purity plus the penalty. `resetHidden` clears every hidden
flag. A tree is written in preorder and read back by a constructor; the reader never
restores the hidden flags.

The forest (DecisionTree/Forest.cs) is AdaBoost-style. Each round it:
1. normalises the point weights;
2. grows a tree;
3. sums the weight of the points that tree misclassifies (the error `e`);
4. multiplies each misclassified weight by `sqrt((1-e)/e)` and divides every other weight
   by it;
5. appends the tree with the vote `log sqrt((1-e)/e)`.

The forest answers the vote-weighted mean of its trees' outputs.

Modules:
- `Wrappers`: `Option` and `Result`.
- `Corpus`: data points and the combined labelled list.
- `LeafNode`: the node, purity, routing and inference, `resetHidden`, partitions and
  `findError`.
- `SplitSearch`: `ChooseVariable`.
- `Training`: `Train`.
- `Pruning`: `Prune`.
- `Serialization`: `Write` and the reading constructor.
- `Boosting`: the forest.

Where the code works in loops, the model has a `method` with loop invariants, proved equal
to a specification function. The properties are proved about those functions.

Doubles are modelled as `real`. A double result that is not finite is `None`. Rounding is
modelled by the two tests the code makes:
- `Math.Round(p) == 1` holds exactly when `1/2 < p < 3/2`;
- `Math.Round(p) == 0` holds exactly when `-1/2 <= p <= 1/2` (banker's rounding sends 1/2
  to 0).

## Model

| member | source | states |
|---|---|---|
| LeafNode.Terminals | DecisionTree/Leaf.cs:181 | a tree has at least one terminal node (a node whose children are null) |
| LeafNode.Purity | DecisionTree/Leaf.cs:186 | the purity is undefined exactly when the node holds no points, and lies in [0,1] when the counts are non-negative |
| LeafNode.FractionFacts | DecisionTree/Leaf.cs:186 | a count over a larger total lies in [0,1], is 1 exactly when the two are equal, and is above 1/2 exactly when the count is more than half the total |
| LeafNode.PurityRounding | DecisionTree/Leaf.cs:128-140 | a node's rounded purity is 1 exactly when it holds more signal than background, and 0 exactly when it holds points and no more signal than background |
| LeafNode.RoundsToOne | DecisionTree/Leaf.cs:128 | the test `Math.Round(p) == 1` under round-half-to-even: true exactly for 1/2 < p < 3/2, so 1/2 rounds to 0 and 3/2 to 2; `PurityRounding` turns it into a comparison of the counts |
| LeafNode.RoundsToZero | DecisionTree/Leaf.cs:135 | the test `Math.Round(p) == 0` under round-half-to-even: true exactly for -1/2 <= p <= 1/2; `PurityRounding` turns it into a comparison of the counts |
| LeafNode.DoSplit | DecisionTree/Leaf.cs:211-214 | the cut test: a point goes to output1 exactly when its value of the node's feature is at most the cut; the feature must exist, as the array index demands; `RoutingFollowsCut` and `SidesMembership` state its consequences |
| LeafNode.Reached | DecisionTree/Leaf.cs:191-206 | the node where inference stops is terminal or hidden and lies in the tree |
| LeafNode.RunDataPoint | DecisionTree/Leaf.cs:191-206 | inference answers the purity of the node where the walk stops, which lies in [0,1] for non-negative counts |
| LeafNode.RoutingFollowsCut | DecisionTree/Leaf.cs:198-214 | at a visible branch, inference answers as the low child when the feature is at most the cut and as the high child otherwise |
| LeafNode.ResetHidden | DecisionTree/Leaf.cs:58-67 | after resetHidden no node is hidden, and shape, variables, cuts and counts are those of the input |
| LeafNode.ResetHiddenKeepsUnhidden | DecisionTree/Leaf.cs:58-67 | resetHidden leaves a tree with nothing hidden unchanged |
| LeafNode.ResetHiddenIdempotent | DecisionTree/Leaf.cs:58-67 | resetHidden twice is resetHidden once |
| LeafNode.AgreesResetEqual | DecisionTree/Leaf.cs:58-67 | two trees that differ only in hidden flags are equal after resetHidden |
| LeafNode.ResetHiddenReachesTerminal | DecisionTree/Leaf.cs:58-67 | after resetHidden inference always walks down to a terminal node |
| LeafNode.LowSide | DecisionTree/Leaf.cs:238-260 | the low side of a partition is no larger than the corpus |
| LeafNode.HighSide | DecisionTree/Leaf.cs:238-260 | the high side of a partition is no larger than the corpus |
| LeafNode.PartitionConserves | DecisionTree/Leaf.cs:238-260 | the two sides together hold every point of the corpus exactly as often as the corpus does, and their sizes add up to the corpus size |
| LeafNode.SidesMultiset | DecisionTree/Leaf.cs:238-260 | by induction on the corpus: the multisets of the two sides add up to the corpus's multiset |
| LeafNode.LowSideKeepsOrder | DecisionTree/Leaf.cs:238-260 | partitioning a concatenation partitions each part in turn, so the sides keep the corpus order |
| LeafNode.SidesMembership | DecisionTree/Leaf.cs:238-260 | every point of a side comes from the corpus; a point with feature at most the cut is on the low side, any other on the high side |
| LeafNode.SidesKeepWidth | DecisionTree/Leaf.cs:238-260 | both sides keep the corpus's number of features |
| LeafNode.Partition | DecisionTree/Leaf.cs:238-260 | the two partition loops build exactly the low and the high side, and their sizes add up to the corpus size |
| LeafNode.Classifies | DecisionTree/Leaf.cs:128-135 | a signal point is classified correctly when the tree's answer rounds to 1 (`Math.Round(...) == 1`) and a background point when it rounds to 0 (`== 0`); a non-finite answer is neither; `PurityRounding` and `CorrectCountStep` state its consequences |
| LeafNode.CorrectCount | DecisionTree/Leaf.cs:123-141 | the number of points classified correctly is at most the number of points |
| LeafNode.CorrectCountAll | DecisionTree/Leaf.cs:123-141 | every point of a corpus is counted correct exactly when the tree classifies each of them correctly |
| LeafNode.AllRoutablePrefix | DecisionTree/Leaf.cs:123-141 | a prefix of a corpus inference can run on can be run on too |
| LeafNode.CorrectCountStep | DecisionTree/Leaf.cs:127-138 | counting one more point adds one exactly when the tree classifies it correctly |
| LeafNode.ErrorRate | DecisionTree/Leaf.cs:123-141 | the misclassification rate is undefined (NaN) exactly when both corpora are empty, and otherwise lies in [0,1] |
| LeafNode.ErrorRateZero | DecisionTree/Leaf.cs:123-141 | the misclassification rate is 0 exactly when there are points and every one of them is classified correctly |
| LeafNode.FindError | DecisionTree/Leaf.cs:123-141 | the two counting loops and the final division compute the misclassification rate |
| LeafNode.CountCorrect | DecisionTree/Leaf.cs:126-139 | one counting loop counts exactly the points of its corpus whose rounded output is the corpus's label |
| Corpus.Labelled | DecisionTree/Forest.cs:27-35 | the combined list: every signal point labelled true, then every background point labelled false, each group in its own order; `BuildCombined` and `LabelledWide` state its contents and width |
| Corpus.BuildCombined | DecisionTree/Forest.cs:27-35 | the combined list is every signal point labelled true, then every background point labelled false, each group in its own order |
| SplitSearch.Add | DecisionTree/Leaf.cs:357-378 | one point of the tally loop goes to the high side of its class when its feature is at or above the cut and to the low side otherwise, adding its weight; `TallyConserves` proves nothing is lost |
| SplitSearch.TallyOf | DecisionTree/Leaf.cs:348-379 | the four side weights of a cut over the combined list, a point at or above the cut on the high side and one below it on the low side; `TallyConserves` proves that every point is counted on exactly one side |
| SplitSearch.PurityDiff | DecisionTree/Leaf.cs:385 | the score of a cut with both sides weighted: the absolute difference of the signal fractions above and below it |
| SplitSearch.TallyConserves | DecisionTree/Leaf.cs:355-379 | at any cut, the low and high signal weights add up to the total signal weight, and likewise for background |
| SplitSearch.TallyAt | DecisionTree/Leaf.cs:355-379 | the weight loop computes the four side weights of a cut, with a point equal to the cut on the high side |
| SplitSearch.Consider | DecisionTree/Leaf.cs:382-393 | a candidate never lowers the best score; the best changes only to a strictly greater score below 1, recorded with that candidate's feature and cut, so ties keep the earlier cut; a candidate with both sides weighted and a greater score below 1 is always taken |
| SplitSearch.Threshold | DecisionTree/Leaf.cs:352 | the i-th cut of a pass is its minimum plus i chunk sizes |
| SplitSearch.ScanUpTo | DecisionTree/Leaf.cs:346-395 | the running best after the first n cuts of a pass, each considered in order; `ScanKeepsMaximum` proves what a pass keeps and `ScanPass` computes it |
| SplitSearch.ScanKeepsMaximum | DecisionTree/Leaf.cs:346-393 | after a pass the best score is at least its old value and at least the score of every usable cut of the pass, stays below 1, and changes only by a strict improvement on this feature whose recorded cut is usable and scores exactly the best |
| SplitSearch.ScanPass | DecisionTree/Leaf.cs:346-393 | the threshold loop of one pass computes the pass's search result |
| SplitSearch.Range | DecisionTree/Leaf.cs:313-336 | the minimum and maximum of a feature over a non-empty combined list, as the scan with its else-if finds them; `RangeBounds` proves they bound every value and are attained |
| SplitSearch.RangeBounds | DecisionTree/Leaf.cs:318-336 | the feature's minimum and maximum over the combined list bound every point's value and are both attained |
| SplitSearch.MinMax | DecisionTree/Leaf.cs:318-336 | the min/max loop computes that range |
| SplitSearch.PassesFrom | DecisionTree/Leaf.cs:338-399 | the remaining passes over one feature: each scans its window in `chunks` equal steps, and the next window is one chunk on each side of the running best split with half the chunks; `PassesKeepBest` proves what the passes keep |
| SplitSearch.FeatureSearch | DecisionTree/Leaf.cs:313-399 | the search over one feature: its range, then the two passes from the minimum to the maximum; `FeatureKeepsBest` and `FeatureCovers` prove what it keeps and `ScanFeature` computes it |
| SplitSearch.FirstPassCut | DecisionTree/Leaf.cs:338-352 | the i-th cut of a feature's first pass: the minimum plus i hundredths of the range |
| SplitSearch.SecondPassCut | DecisionTree/Leaf.cs:341-398 | the i-th cut of a feature's second pass: 50 steps over one first-pass chunk on each side of the best split after the first pass |
| SplitSearch.PassesKeepBest | DecisionTree/Leaf.cs:341-399 | over the two passes of a feature, the best score never falls and stays below 1, and changes only by a strict improvement whose recorded cut is usable and scores exactly the best |
| SplitSearch.ScanFeature | DecisionTree/Leaf.cs:341-399 | the pass loop of a feature computes the two passes, the second centred on the best cut found so far |
| SplitSearch.FeatureKeepsBest | DecisionTree/Leaf.cs:313-399 | the search over one feature never lowers the best score, keeps it below 1, and changes the state only by a strict improvement that records a usable cut of this feature scoring exactly the new best |
| SplitSearch.FeatureCovers | DecisionTree/Leaf.cs:338-399 | after the search over one feature the best score is at least the score of every usable cut of both its passes |
| SplitSearch.SearchUpTo | DecisionTree/Leaf.cs:311-401 | the running best after features 0 .. k-1, one feature after the other, carried across features; `SearchKeepsBest` and `SearchCovers` prove what it keeps |
| SplitSearch.SearchKeepsBest | DecisionTree/Leaf.cs:311-399 | across features, the best score never falls and stays below 1; when it changed, the recorded variable and split are a usable cut of a searched feature whose score is exactly the best |
| SplitSearch.SearchCovers | DecisionTree/Leaf.cs:311-401 | after the search over features 0 .. k-1 the best score is at least the score of every usable cut of both passes of every one of those features |
| SplitSearch.CoversOneMore | DecisionTree/Leaf.cs:311-401 | searching one more feature keeps the best covering every usable cut examined so far and covers the new feature's cuts |
| SplitSearch.Initial | DecisionTree/Leaf.cs:307-309 | the search starts with best feature 0, best split 0 and best score 0, and with the node's own variable and split, which it overwrites only on an improvement |
| SplitSearch.LabelledWide | DecisionTree/Leaf.cs:294-303 | every point of the combined list has at least the corpora's number of features |
| SplitSearch.SearchOutcome | DecisionTree/Leaf.cs:304-399 | the search leaves the node's variable and cut as they were, or picks an existing feature |
| SplitSearch.OutcomeOfSearch | DecisionTree/Leaf.cs:294-399 | the search over the combined list of both corpora, run over every feature, is that outcome |
| SplitSearch.SearchFeatures | DecisionTree/Leaf.cs:309-399 | the loop over the features computes the search over all of them in order, carrying one running best |
| SplitSearch.ChooseSpec | DecisionTree/Leaf.cs:273-408 | ChooseVariable answers true exactly when both corpora are non-empty and hold at least 55 points together, whatever the search found; the variable is the old one or an existing feature |
| SplitSearch.ChosenCutIsBest | DecisionTree/Leaf.cs:294-401 | with both corpora non-empty, the best score is at least the score of every usable cut ChooseVariable examined; the variable and split it hands back are a usable cut scoring exactly that best, or the node's old fields when no cut scored above 0 |
| SplitSearch.ChooseVariable | DecisionTree/Leaf.cs:273-408 | the nested search loops compute that answer and the variable and cut they leave in the node |
| Training.TrainSpec | DecisionTree/Leaf.cs:219-267 | a trained node holds its corpus sizes as its counts and is not hidden |
| Training.TrainBranch | DecisionTree/Leaf.cs:227-263 | a branching node keeps the chosen feature and cut, holds its corpus sizes and is not hidden |
| Training.TrainSpecShape | DecisionTree/Leaf.cs:219-267 | a trained tree holds the corpus sizes as its counts at every node, each child is trained on exactly its side of the cut, children's counts add up to the parent's, every branch holds both classes, at least 55 points and an existing cut feature, and nothing is hidden |
| Training.BranchShape | DecisionTree/Leaf.cs:227-263 | the same at a branching node, from the same facts about its two children |
| Training.JoinWellTrained | DecisionTree/Leaf.cs:227-263 | a branch over two children well trained on the two sides of its cut is well trained on the whole corpora |
| Training.JoinTrainedOn | DecisionTree/Leaf.cs:227-263 | a branch over two children trained on the two sides of its cut is trained on the whole corpora |
| Training.JoinCountsAddUp | DecisionTree/Leaf.cs:227-263 | the children's counts of the two sides add up to the branch's counts |
| Training.Train | DecisionTree/Leaf.cs:219-267 | the recursive training builds the tree TrainSpec describes or fails as it says |
| Training.TrainChildren | DecisionTree/Leaf.cs:230-263 | the partition loops and the two child trainings build the branch TrainBranch describes |
| Training.SmallCorporaStayTerminal | DecisionTree/Leaf.cs:289-292 | a node with an empty corpus or fewer than 55 points is trained as a terminal |
| Serialization.NodeCount | DecisionTree/Leaf.cs:145-158 | a tree has at least as many nodes as terminal nodes |
| Serialization.WriteOnto | DecisionTree/Leaf.cs:145-158 | writing a tree before a stream emits one record per node ahead of that stream |
| Serialization.Write | DecisionTree/Leaf.cs:145-158 | writing emits one record per node |
| Serialization.Read | DecisionTree/Leaf.cs:163-176 | reading consumes at least one record and leaves the rest unread, and builds a tree with nothing hidden |
| Serialization.ReadWrite | DecisionTree/Leaf.cs:145-176 | reading what was written, followed by anything, gives back the tree with its hidden flags cleared and consumes exactly the written records |
| Serialization.RoundTripDropsHidden | DecisionTree/Leaf.cs:145-176 | read(write(t)) is resetHidden(t) |
| Serialization.WriteRead | DecisionTree/Leaf.cs:145-176 | writing what was read reproduces exactly the records consumed |
| Pruning.TrainedTreesArePrunable | DecisionTree/Leaf.cs:69-120 | a tree trained on two corpora can be pruned with them |
| Pruning.PrunableRoutable | DecisionTree/Leaf.cs:69-120 | where pruning can run, inference on every point of both corpora reads only existing features |
| Pruning.SidesRoute | DecisionTree/Leaf.cs:86-110 | a corpus whose two sides route through the two children routes through the branch |
| Pruning.VisibleTerminals | DecisionTree/Leaf.cs:69-120 | the number of nodes where inference can stop is at least 1 and at most the number of terminals |
| Pruning.CostBelowBudget | DecisionTree/Leaf.cs:111-113 | the test error + alpha*leaves < Purity + alpha on doubles: false for a NaN error; for an undefined purity, +Infinity when nSignal is positive (true), NaN when it is zero and -Infinity when it is negative (false) |
| Pruning.PruneSpec | DecisionTree/Leaf.cs:69-120 | prune answers 1 on a terminal and leaves it unchanged; its count lies between 1 and the number of terminals |
| Pruning.PruneStep | DecisionTree/Leaf.cs:111-118 | the decision at a branch keeps its pruned children and answers either 1 or their two counts added |
| Pruning.Prune | DecisionTree/Leaf.cs:69-120 | the recursive prune with its error and partition loops computes that tree and count |
| Pruning.KeepOrHide | DecisionTree/Leaf.cs:111-118 | the final test of prune makes the decision PruneStep describes |
| Pruning.PruneOnlyHides | DecisionTree/Leaf.cs:69-120 | prune changes no shape, variable, cut or count, and never clears a hidden flag |
| Pruning.PruneCountsVisibleTerminals | DecisionTree/Leaf.cs:69-120 | on a tree with nothing hidden, the count prune answers is the number of nodes where inference can stop in the pruned tree |
| Pruning.ResetUndoesPrune | DecisionTree/Leaf.cs:58-120 | on a tree with nothing hidden, resetHidden after a prune with any penalty gives back the tree |
| Boosting.Scaled | DecisionTree/Forest.cs:45-48 | dividing every weight by a constant keeps the number of weights |
| Boosting.Sum | DecisionTree/Forest.cs:39-44 | totalWeights: the weights added in order; `SumScaled`, `NormalisedSumsToOne` and `SumOfPositives` prove its properties and `SumWeights` computes it |
| Boosting.SumScaled | DecisionTree/Forest.cs:39-48 | the weights divided by a constant sum to the old sum divided by it |
| Boosting.NormalisedSumsToOne | DecisionTree/Forest.cs:39-48 | after normalising by a non-zero total the weights sum to 1 |
| Boosting.SumOfPositives | DecisionTree/Forest.cs:39-44 | positive weights have a positive sum (non-negative when there are none) |
| Boosting.SumWeights | DecisionTree/Forest.cs:39-44 | the summing loop computes the total weight |
| Boosting.DivideAll | DecisionTree/Forest.cs:45-48 | after the dividing loop each weight is its old value over the old total |
| Boosting.WeightSplits | DecisionTree/Forest.cs:53-63 | the misclassified and the correctly classified weights add up to the total |
| Boosting.ErrorWeightBounds | DecisionTree/Forest.cs:53-63 | for non-negative weights the error weight lies between 0 and the total, and is 0 exactly when every point of positive weight is classified correctly |
| Boosting.CorrectWeightNonNegative | DecisionTree/Forest.cs:53-63 | for non-negative weights the correctly classified weight is non-negative |
| Boosting.Misclassified | DecisionTree/Forest.cs:57-59 | a point is misclassified when whether the tree's rounded output is 1 differs from its label; a non-finite output never rounds to 1 |
| Boosting.ErrorWeight | DecisionTree/Forest.cs:53-63 | the sum of the weights of exactly the misclassified points; `WeightSplits` and `ErrorWeightBounds` prove its bounds and `MisclassifiedWeight` computes it |
| Boosting.CorrectWeight | DecisionTree/Forest.cs:53-63 | the sum of the weights of exactly the points the tree classifies correctly, the complement of the error weight; `WeightSplits` proves the two add up to the total |
| Boosting.MisclassifiedWeight | DecisionTree/Forest.cs:53-63 | the error loop computes the weight of exactly the points whose rounded output disagrees with their label |
| Boosting.Reweighted | DecisionTree/Forest.cs:68-80 | reweighting keeps the number of weights |
| Boosting.ReweightedPrefix | DecisionTree/Forest.cs:68-80 | reweighting acts on each point independently of those after it |
| Boosting.ErrorWeightReweighted | DecisionTree/Forest.cs:68-80 | after reweighting, the error weight is the old one times the weight constant |
| Boosting.CorrectWeightReweighted | DecisionTree/Forest.cs:68-80 | after reweighting, the correctly classified weight is the old one over the weight constant |
| Boosting.ReweightBalances | DecisionTree/Forest.cs:65-80 | with normalised weights and the weight constant sqrt((1-e)/e), misclassified and correctly classified points weigh the same after reweighting |
| Boosting.Reweight | DecisionTree/Forest.cs:68-80 | the reweight loop multiplies each misclassified weight by the constant, divides every other by it, and changes nothing else |
| Boosting.Round | DecisionTree/Forest.cs:37-82 | a completed round appends exactly one (tree, vote) pair and keeps the earlier ones; a degenerate round appends nothing and names itself |
| Boosting.BoostRounds | DecisionTree/Forest.cs:37-82 | n rounds append n pairs, or stop at an earlier degenerate round having appended one pair per completed round |
| Boosting.RoundsOnlyAppend | DecisionTree/Forest.cs:37-82 | the pairs of fewer rounds are a prefix of those of more rounds, and a degenerate stop is final |
| Boosting.RoundKeepsWeightsPositive | DecisionTree/Forest.cs:39-80 | a round keeps every weight positive |
| Boosting.RoundsKeepWeightsPositive | DecisionTree/Forest.cs:37-82 | any number of rounds keeps every weight positive |
| Boosting.RoundBalances | DecisionTree/Forest.cs:39-81 | after a completed round, the tree just appended misclassifies exactly half the new weight |
| Boosting.VoteSum | DecisionTree/Forest.cs:88-95 | totalTreePurity: each tree's output times its vote, added in order; undefined once an output is not finite; `UnanimousVoteSum` and `VoteSumBounds` prove its value and bounds |
| Boosting.WeightSum | DecisionTree/Forest.cs:88-95 | totalTreeWeight: the votes added in order; `VoteSumBounds` proves it positive for positive votes |
| Boosting.UnanimousVoteSum | DecisionTree/Forest.cs:86-95 | when every tree answers c, the vote sum is c times the vote total |
| Boosting.UnanimousMean | DecisionTree/Forest.cs:86-97 | when every tree answers c and the votes do not sum to 0, the forest answers c |
| Boosting.MeanInUnit | DecisionTree/Forest.cs:86-97 | with positive votes and tree outputs in [0,1], a non-empty forest answers a value in [0,1] |
| Boosting.VoteSumBounds | DecisionTree/Forest.cs:86-95 | with positive votes and outputs in [0,1], the vote sum lies between 0 and the vote total, which is positive for a non-empty forest |
| Boosting.WeightedMean | DecisionTree/Forest.cs:86-97 | the vote-weighted mean of the trees' outputs, undefined when an output is not finite or the votes sum to 0; `UnanimousMean` and `MeanInUnit` prove what it answers |
| Boosting.OneRound | DecisionTree/Forest.cs:39-81 | the loops of one round leave the weights and append the pair as a round says |
| Boosting.Forest.constructor | DecisionTree/Forest.cs:18-22 | a new forest has the given size and no trees |
| Boosting.Forest.Train | DecisionTree/Forest.cs:24-83 | training runs forestSize rounds (or stops at a degenerate one), leaves the weights as those rounds make them and appends their pairs to the existing list, in round order |
| Boosting.Forest.RunRounds | DecisionTree/Forest.cs:37-82 | the loop over the rounds does the same on the combined list |
| Boosting.Forest.RunDataPoint | DecisionTree/Forest.cs:86-97 | the accumulator loop computes the vote-weighted mean of the trees' outputs |

## Left out

- DecisionTree/Program.cs is not part of this model. It holds file paths, dataset reading, file output and console output, plus a one-level cut search of its own (DecisionTree/Program.cs:67-98). That search resembles the first pass of ChooseVariable but differs from it: it uses 10000 chunks instead of 100, counts each point as 1 instead of adding its weight, and makes no second pass.
- `Forest.isSignal`, `Forest.MakeTextFile` and `Forest.PrintSignalIndexes` are left out: they are a floating-point domain predicate and file output. A stray `;` after the `if` in PrintSignalIndexes (DecisionTree/Forest.cs:134) makes it write every index.
- `DataSet`, `DataPoint` and `Tree` are not part of this model. A corpus is a sequence of points, each with a feature vector and a weight. A dataset's name is dropped.
- `Tree.Train` and `Tree.Prune` are not part of this model. In `Boosting.Forest.Train` the tree grown each round is a parameter `grow` of the normalised weights, and it is seen only as a function from a feature vector to its output. The prune penalty `alpha` is a parameter of `Pruning.Prune`.
- `Math.Sqrt` and `Math.Log` are parameters of `Boosting.Forest.Train`. The weight constant `factor` is required to be the positive square root of (1-e)/e. The vote `vote` is left free, because no property proved here depends on the logarithm.
- IEEE doubles are modelled as `real`. Rounding error is not modelled. A result that is not finite is `None`: the purity of an empty node, the error rate of two empty corpora, a forest whose votes sum to zero. `Pruning.Prune` decides its test on such values as the double comparison would: a NaN error fails, +Infinity passes, NaN and -Infinity fail.
- `Boosting.Forest.Train` stops at a degenerate round instead of carrying on with infinite or NaN weights. A round is degenerate when the weights sum to zero, or when the error weight is not strictly between 0 and 1. The code has no guard for either case.
- Bytes are not modelled. `BinaryWriter`/`BinaryReader` streams are a sequence of records (variable, split, nSignal, nBackground, isFinal), and a stream that ends early reads as `None`.
- Leaf nodes are modelled as values. `Train`, `Prune` and `resetHidden` return a new tree instead of updating the node's fields in place, so two parents sharing one child object are not modelled.
- `Training.Train` retrains from a fresh node. Its only inputs from the old node are `variable` and `split`. ChooseVariable never reads them: its running best starts at feature 0, split 0 and score 0 (`SplitSearch.Initial`), and the old fields are only what the node keeps when no cut improves on that. Retraining a node that already has children is not modelled.
- `Training.Train` takes a recursion bound `fuel` and fails with `OutOfFuel` when it runs out. The code has no such bound: points equal to the cut all go to one side, so training need not terminate.
- `Training.Train` fails with `IndexOutOfRange` when the code's `DoSplit` would throw: ChooseVariable answered true while the variable is still -1.
- `Pruning.PruneSpec` is not claimed to be idempotent. A second prune reads the hidden flags the first one set, and the error rate it computes depends on them. What is proved instead is `Pruning.ResetUndoesPrune`: a reset after a prune of a tree with nothing hidden gives back that tree.
- `Pruning.PruneSpec` computes the error of a branch on the subtree as it stands on entry, before its children are pruned, as the code does: findError runs at DecisionTree/Leaf.cs:72, before the recursive prunes at DecisionTree/Leaf.cs:109-110.
- `LeafNode.RunDataPoint` requires the point to be routable (`Routable`): a point that lacks the feature a visible branch on its path cuts on makes the code throw IndexOutOfRangeException (DecisionTree/Leaf.cs:213). That exception is not modelled.
- `LeafNode.FindError` and `LeafNode.ErrorRate` require every point of both corpora to be routable (`AllRoutable`), for the same reason. The exception that findError would pass on is not modelled.
- `Pruning.Prune` requires `Prunable`: at every branch, hidden or not, every point of both corpora has the feature the branch cuts on, because Prune partitions the corpora by it (DecisionTree/Leaf.cs:86-108). The exception the code throws for a point without that feature is not modelled.
- `SplitSearch.ChooseVariable` and `Training.Train` require every point of both corpora to have exactly `dim` features (`AllWidth`). A point with fewer features than the first signal point makes the code throw in the min/max scan at DecisionTree/Leaf.cs:327, for the first feature it lacks; that exception is not modelled. A point with more features is accepted by the code, which searches only the first signal point's features; the model does not cover that case.
- `Boosting.Forest.Train` keeps one weight per position of the combined list (`weights[j]` for entry j). The code keeps the weight in the `DataPoint` object. When one object appears twice in the corpora, the code divides and reweights that object once per appearance, which the model does not capture.
- `Boosting.Forest.RunDataPoint` does not require the votes to be positive. `Boosting.MeanInUnit` bounds the answer only for positive votes, which a weight constant above 1 gives (error below 1/2).
