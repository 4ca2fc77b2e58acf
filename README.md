# Offline model scorers: GBDT, factorisation machine, logistic regression

This project models, in Dafny, three scorers that load a trained model once and
then score feature vectors:

- **`GBDTModel`** (`gbdtPmml.java`). It reads a gradient-boosted tree ensemble from a
  PMML document:
  - the field dictionary;
  - the MiningModel names;
  - the tree segments: the nested Segmentation of the last regression segment.

  It builds one decision tree per segment and gives each leaf an ensemble-wide code
  (leaf encoding). It then:
  - scores a feature map with the sigmoid of the summed leaf values;
  - reports the leaf reached in every tree;
  - reports the code of the leaf reached in every tree.

  Trees are values (`DecisionTrees.Tree`), built by the recursive method
  `RecursiveBuildTree`. The model is a class whose `treeInfo`, `treeCount` and
  `fieldDict` fields are set while loading.
- **`FMModel`** (`FMModel.java`). It reads a factorisation machine from text lines:
  - `dt:`, `bias:`;
  - `i_<n>:<weight>`;
  - `v_<n>:<f_1 … f_k>`.

  It keeps these in arrays, a coefficient array and an embedding table whose width
  `k` is fixed by the first embedding line. It scores
  `sigmoid(bias + Σ xᵢwᵢ + ½ Σ_f ((Σ xᵢvᵢf)² − Σ xᵢ²vᵢf²))`.

  The class `Fm.FMModel` mirrors the Java object field by field. Every method is
  proved against a pure state machine (`ParseLine`, `LoadLines`, `Gather`, `Score`).
  The properties are proved about that state machine.
- **`LogisticRegressionModel`** (`logisticRegressionPmml.java`). It reads:
  - the field count;
  - the names;
  - the intercept of the RegressionTable for target category "1";
  - one coefficient per NumericPredictor.

  It predicts `sigmoid(w·x + b)`. The loaded model is a value (`Lr.LRModel`). The
  coefficient loop of create is an array method proved equal to the function `Fill`.

**Conventions**
- A Java exception is a `Failure` carrying its kind (`Common.Exception`).
- A `null` model is `Created.Null`.
- `Double.valueOf` is a parameter `parse: string -> Option<real>`.
- `Integer.valueOf`, `String.trim`, `String.split` and `startsWith` are written out in
  `JavaStrings`, with ASCII digits only (see "Left out").
- The logistic function is kept symbolic as `Sigmoid(logit)`. Every prediction is proved
  equal to `Sigmoid` of the exact logit.
- A missing (NaN) feature value is `None` in a `map<string, Option<real>>`.

**Behaviour modelled as the code has it**
- `decison` is applied to a node before the node is checked for being a leaf. A tree
  whose root is a leaf therefore fails with a NullPointerException
  (`DecisionTrees.SingleLeafTreeThrows`).
- Both child operators ("lessOrEqual" and "greaterThan") set the decision type to
  "<=", so no built tree ever routes by "==" (`DecisionTrees.BuildNoEquality`).
- An FM line that raises part-way is still reported and skipped. The first embedding
  line can leave `k` set and a zero table allocated even when it then fails
  (`Fm.FailedLine`).

## Model

| member | source | states |
|---|---|---|
| DecisionTrees.ReadPredicate | gbdtPmml.java:212-219 | a child's predicate is read exactly when it has a SimplePredicate carrying field, value and operator |
| DecisionTrees.LeafPart | gbdtPmml.java:196-205 | succeeds iff there is no score or the score parses (else NumberFormatException); the node gets its id, it is a leaf exactly when it has a score, and then the leaf value is the parsed score; it starts without children |
| DecisionTrees.BuildNodeSucceeds | gbdtPmml.java:194-231 | a node is built iff its id is present and an integer, its score (if any) parses and every child Node has a predicate and, when attached, builds; a missing id is a NullPointerException, a malformed id or score a NumberFormatException |
| DecisionTrees.AttachSucceeds | gbdtPmml.java:212-228 | the child loop completes iff every child has a SimplePredicate and every lessOrEqual/greaterThan child builds |
| DecisionTrees.RecursiveBuildTree | gbdtPmml.java:194-231 | the recursive builder returns exactly the tree (or exception) the function `BuildNode` defines |
| DecisionTrees.BuildNodeFacts | gbdtPmml.java:194-231 | a built node has the parsed id; it is a leaf iff it has a score; its left/right child is the tree built from the LAST "lessOrEqual"/"greaterThan" child (else none); its decision type is "<=" iff such a child exists; a childless node has no feature or threshold; otherwise the feature name and threshold text are the last child's; defaultLeft and the threshold set are unset |
| DecisionTrees.AttachKeeps | gbdtPmml.java:207-228 | the child loop succeeds only if every child has a predicate; it keeps id, leaf flag and leaf value, and leaves the feature and threshold of the last child |
| DecisionTrees.AttachLeft | gbdtPmml.java:221-224 | the left child is the one built from the last "lessOrEqual" child, or the node's original left child |
| DecisionTrees.AttachRight | gbdtPmml.java:224-227 | the right child is the one built from the last "greaterThan" child, or the node's original right child |
| DecisionTrees.AttachDecisionType | gbdtPmml.java:221-227 | the decision type becomes "<=" exactly when some child has either operator |
| DecisionTrees.AttachLinks | gbdtPmml.java:207-228 | left child, right child and decision type together, as the three lemmas above state |
| DecisionTrees.BuildNoEquality | gbdtPmml.java:221-227 | no node of a built tree has decision type "==" |
| DecisionTrees.SplitThreshold | gbdtPmml.java:279-296 | succeeds iff every visited node's "\|\|"-pieces parse (else NumberFormatException); on success every visited node (the root, and the children of a node with threshold text) holds the parse of its pieces as its threshold set, a node with null or empty text keeps its subtree unchanged, and nothing but threshold sets changes |
| DecisionTrees.SplitRoutesByFirstPiece | gbdtPmml.java:283-305 | after the pass, a "<=" node routes a present value left iff it is at most the first parsed "\|\|"-piece of its threshold text |
| DecisionTrees.Decide | gbdtPmml.java:298-311 | a missing value follows defaultLeft (null is a NullPointerException); "<=" goes left iff value ≤ threshold; "==" goes left iff the value is one of the thresholds; any other type goes right; the result is always one of the two children |
| DecisionTrees.MissingIgnoresThresholds | gbdtPmml.java:300-302 | for a missing value, neither the decision type nor the thresholds affect the step |
| DecisionTrees.AbsentReadsAsZero | gbdtPmml.java:299 | a feature absent from the map routes exactly as if it were 0.0 |
| DecisionTrees.Walk | gbdtPmml.java:78-88 | a successful walk ends at a node without a left child that lies in the tree |
| DecisionTrees.PredictTree | gbdtPmml.java:78-88 | the loop walking down the tree returns `TreeScore`: the leaf value reached, or the exception raised |
| DecisionTrees.PredictLeaf | gbdtPmml.java:120-127 | the loop returns the node id the walk stops at (`LeafId`), or the exception raised |
| DecisionTrees.WalkEndsAtEnumeratedLeaf | gbdtPmml.java:78-88 | in a well-formed tree where every step is decidable, the walk ends at a leaf with a value, that leaf is in the tree and in its leaf order, and the score is its value |
| DecisionTrees.SingleLeafTreeThrows | gbdtPmml.java:80-84 | a tree that is a single leaf keeps its thresholds and every walk of it throws NullPointerException |
| DecisionTrees.LeafOrder | gbdtPmml.java:141-150 | the only failure of the leaf enumeration is NullPointerException |
| DecisionTrees.LeafOrderMeaning | gbdtPmml.java:141-150 | the enumeration succeeds iff every inner node has both children; it then lists exactly the leaves' ids, one entry per leaf |
| DecisionTrees.WellFormedIsComplete | gbdtPmml.java:141-150 | a well-formed tree can be enumerated |
| DecisionTrees.LeafOfTransitive | gbdtPmml.java:141-150 | a leaf of a child is a leaf of its parent |
| Gbdt.FieldDict | gbdtPmml.java:159-169 | the only failure is NullPointerException |
| Gbdt.FieldDictSucceeds | gbdtPmml.java:159-169 | the dictionary is built iff every DataField has optype, dataType and name |
| Gbdt.FieldDictKeys | gbdtPmml.java:159-169 | its keys are exactly the field names |
| Gbdt.FieldDictLastWins | gbdtPmml.java:159-169 | a name maps to the types of its last DataField |
| Gbdt.FieldDictPrefixFails | gbdtPmml.java:159-169 | a failure on a prefix of the fields is a failure of the whole |
| Gbdt.ParseFieldType | gbdtPmml.java:159-169 | the loop returns exactly `FieldDict` of the DataField children |
| Gbdt.ParseAttributes | gbdtPmml.java:171-175 | succeeds iff the three attributes exist (else NullPointerException) and returns their values |
| Gbdt.LastRegression | gbdtPmml.java:233-243 | a found position holds a regression segment |
| Gbdt.LastRegressionIsLast | gbdtPmml.java:233-243 | no later segment is a regression; if none is found, no segment is |
| Gbdt.ScanSegmentCases | gbdtPmml.java:236-240 | one loop step fails iff the segment's MiningModel lacks functionName; otherwise it remembers the inner Segmentation of a regression segment and keeps the earlier one otherwise |
| Gbdt.ScanMeaning | gbdtPmml.java:233-243 | the scan fails iff some segment's MiningModel lacks functionName; otherwise it yields the inner Segmentation of the last regression segment |
| Gbdt.ScanStepFails | gbdtPmml.java:236-240 | the failure characterisation extends by one segment |
| Gbdt.ScanStepValue | gbdtPmml.java:236-240 | the remembered segmentation extends by one segment |
| Gbdt.ScanPrefixFails | gbdtPmml.java:233-243 | a failure on a prefix of the segments is a failure of the whole |
| Gbdt.TreeSegmentsMeaning | gbdtPmml.java:233-243 | the tree segments are found iff no segment lacks functionName, some segment is a regression and the last one has an inner Segmentation; they are then its Segment children |
| Gbdt.FindTreeElement | gbdtPmml.java:233-243 | the loop returns exactly `TreeSegments` |
| Gbdt.BuildAllMeaning | gbdtPmml.java:177-192 | the ensemble builds iff every segment builds; then tree i is built from segment i |
| Gbdt.GBDTModel.BuildGBDTTree | gbdtPmml.java:177-192 | on success one unencoded tree per segment is appended and treeCount is the segment count; on failure the exception is the first segment's failure; the names and dictionary do not change |
| Gbdt.EncodeTreeMeaning | gbdtPmml.java:129-139 | a tree's code map has exactly the leaf ids as keys, each code lies in [base, base+n) and points back to its id |
| Gbdt.EncodeTreePositions | gbdtPmml.java:129-139 | with distinct leaf ids, the i-th leaf gets code base + i |
| Gbdt.EncodeLeaves | gbdtPmml.java:132-137 | the loop builds exactly `EncodeTree` and advances the counter by the leaf count |
| Gbdt.OffsetMonotone | gbdtPmml.java:129-139 | the running counter never decreases from tree to tree |
| Gbdt.OffsetAppendAt | gbdtPmml.java:129-139 | a later tree does not move an earlier tree's offset |
| Gbdt.EncodingBlocks | gbdtPmml.java:129-139 | tree j's codes lie in its own block, after tree j-1's, below the total leaf count |
| Gbdt.EncodingInjective | gbdtPmml.java:129-139 | no two leaves of the ensemble share a code |
| Gbdt.EncodingSurjective | gbdtPmml.java:129-139 | with distinct leaf ids per tree, every code below the total leaf count is used |
| Gbdt.BlockOf | gbdtPmml.java:129-139 | every code below the total belongs to the block of some tree |
| Gbdt.CodedStep | gbdtPmml.java:132-137 | one tree's encoding extends the coded prefix and advances the counter by its leaf count |
| Gbdt.OrderedStep | gbdtPmml.java:132-137 | encoding a tree keeps the leaf orders of the prefix |
| Gbdt.EncodedAll | gbdtPmml.java:129-139 | once every tree is coded, every tree carries the codes of the running counter over the leaf orders |
| Gbdt.GBDTModel.LeafEncoding | gbdtPmml.java:129-139 | succeeds iff every tree can be enumerated; the trees do not change; on success every tree carries its block of codes; nothing else changes |
| Gbdt.EnsembleScoreMeaning | gbdtPmml.java:66-76 | the ensemble score exists iff every tree scores |
| Gbdt.GBDTModel.Predict | gbdtPmml.java:66-76 | the loop returns the sigmoid of the sum of the tree scores, or the first exception |
| Gbdt.LeafIdsMeaning | gbdtPmml.java:108-118 | the leaf ids exist iff every tree yields one, one per tree, in tree order |
| Gbdt.GBDTModel.PredictLeaf | gbdtPmml.java:108-118 | the loop returns exactly `LeafIds`, with treeCount entries |
| Gbdt.LeafCodesMeaning | gbdtPmml.java:95-106 | the codes exist iff every tree's reached leaf has a code; code i is tree i's code of the leaf reached in tree i |
| Gbdt.GBDTModel.GbdtEncoding | gbdtPmml.java:95-106 | the loop returns exactly `LeafCodes`, with treeCount entries |
| Gbdt.GBDTModel.constructor | gbdtPmml.java:22-26 | a new model has no trees, a zero tree count and an empty dictionary |
| Gbdt.Create | gbdtPmml.java:52-64 | a model is returned iff every loading step succeeds and every tree has a leaf order; a failed step's exception is returned; the model holds the dictionary, the names and one tree per segment, each with its leaf codes |
| Fm.FMModel.constructor | FMModel.java:21-27 | k is 0, the bias is 0, the coefficients are featureSize zeros and there is no embedding table |
| Fm.ClassifyKeys | FMModel.java:51-62 | the first column decides the kind of line, in parseRow's order of tests |
| Fm.ClassifyIgnored | FMModel.java:47-49 | a line is blank iff it is empty, and unknown iff its key is none of dt, bias, i_, v_ |
| Fm.IgnoredLines | FMModel.java:47-49 | parseRow answers -1 iff the line is empty and -2 iff the key is unknown; neither changes the model |
| Fm.ApplyStatus | FMModel.java:47-80 | status -1 only for a blank line and -2 only for an unknown key, neither changing the model |
| Fm.FMModel.ParseRow | FMModel.java:46-81 | the object's new state and the returned status are exactly `ParseLine` of the old state; the coefficient array is kept |
| Fm.FMModel.ApplyLine | FMModel.java:52-80 | the same for an already classified line |
| Fm.DtLine | FMModel.java:52-53 | a dt line changes only dt; it succeeds iff there is a second column, and then dt is it, trimmed |
| Fm.BiasLine | FMModel.java:54-55 | a bias line changes only the bias; it succeeds iff a second column parses, and then the bias is that number |
| Fm.CoefficientLine | FMModel.java:56-60 | an i_ line changes only coefficient n; it succeeds iff 0 ≤ n < featureSize and the value parses, and then coefficient n is that value |
| Fm.FMModel.ReadCoefficient | FMModel.java:56-60 | the new state and the status are exactly `SetCoefficient` of the old state |
| Fm.EmbeddingLine | FMModel.java:61-76 | a successful v_ line has a valid index and parsable values; it changes only k and the table; k becomes the line's width if it was 0; row n becomes the parsed values |
| Fm.FirstEmbeddingLine | FMModel.java:65-68 | the first embedding line sets k to its width and allocates a table whose other rows are zeros |
| Fm.WidthMismatch | FMModel.java:175-179 | once k is set, a line of another width fails with InputMismatch and changes nothing |
| Fm.IndexBeyondFeatureSize | FMModel.java:181-185 | an index at or beyond featureSize fails with InputMismatch and changes nothing |
| Fm.WidthFixed | FMModel.java:65-70 | no line changes a nonzero k |
| Fm.LoadKeepsWidth | FMModel.java:158-173 | reading more lines never changes a nonzero k |
| Fm.FailedLine | FMModel.java:46-81 | a failing line changes nothing but, at most, the allocation of the first table |
| Fm.FMModel.ReadEmbedding | FMModel.java:61-76 | the new state and the status are exactly `SetEmbedding` of the old state |
| Fm.ParseValues | FMModel.java:72-75 | the loop parses every text, or reports the first that does not parse |
| Fm.ApplyConsistent | FMModel.java:46-81 | every line keeps one coefficient per feature and a table of featureSize rows, each k wide |
| Fm.LoadLinesConsistent | FMModel.java:158-173 | reading any lines keeps that invariant and the feature count |
| Fm.FMModel.ParseRows | FMModel.java:158-173 | after the loop the state is `LoadLines`: every line applied in order, failing lines skipped |
| Fm.CreateByList | FMModel.java:29-44 | null iff the list is empty or has at most featureSize rows; NegativeArraySize iff it is nonempty and featureSize < 0; else a fresh model whose state is every row read into the initial model |
| Fm.CreateByText | FMModel.java:83-86 | NegativeArraySize iff featureSize < 0; else a fresh model holding every line read in order |
| Fm.GatherMeaning | FMModel.java:120-125 | gathering succeeds iff every index is known to the model, and then yields each index's coefficient and row |
| Fm.GatherErrors | FMModel.java:120-125 | gathering fails only with IndexOutOfBounds or NullPointer |
| Fm.GatherPrefixFails | FMModel.java:120-125 | the first failing index decides the failure |
| Fm.FMModel.Collect | FMModel.java:120-125 | the loop returns exactly `Gather` of the state |
| Fm.GatheredRowsWidth | FMModel.java:120-125 | every gathered row is k wide |
| Fm.FMModel.CalcSecondOrder | FMModel.java:139-156 | no rows or k = 0 gives NoData; otherwise the nested loops return ½ Σ_f ((Σ xᵢvᵢf)² − Σ xᵢ²vᵢf²) |
| FmMath.SecondOrderIsPairwise | FMModel.java:139-156 | that second-order term equals Σ_{i<j} ⟨vᵢ, vⱼ⟩ xᵢ xⱼ |
| Fm.FMModel.ScoreGathered | FMModel.java:127-130 | the prediction is the sigmoid of bias + first order + second order |
| Fm.FMModel.PredictIndexed | FMModel.java:115-131 | arrays of different lengths fail with InputLengthMismatch; otherwise the result is the sigmoid of `Score` |
| Fm.ScoreSucceeds | FMModel.java:115-131 | a score exists iff at least one feature is named, k > 0 and every named feature is known |
| Fm.ScoreErrors | FMModel.java:115-131 | the only failures are IndexOutOfBounds, NullPointer and NoData, and no features gives NoData |
| Fm.ScoreIsFactorisationMachine | FMModel.java:115-156 | a score is bias + Σ xᵢwᵢ + Σ_{i<j} ⟨vᵢ, vⱼ⟩ xᵢ xⱼ over the named features |
| Fm.FMModel.PredictMap | FMModel.java:96-113 | a map is scored as the indexed prediction of its keys in the given order |
| Fm.ScoreOverKeys | FMModel.java:96-113 | a map's score is a sum over its keys of first-order and factor terms |
| Fm.ScoreOrderIndependent | FMModel.java:96-113 | the score of a map does not depend on the order its keys are visited |
| Lr.Int32 | logisticRegressionPmml.java:66 | `fields - 1` wraps as a Java int: always in int range, unchanged when in range |
| Lr.FieldCountValue | logisticRegressionPmml.java:66 | the field count is numberOfFields − 1, except that INT_MIN wraps to INT_MAX |
| Lr.ParseAttributes | logisticRegressionPmml.java:104-109 | succeeds iff the four attributes exist (else NullPointerException) and returns their values |
| Lr.FirstTargetIsFirst | logisticRegressionPmml.java:111-119 | none is found iff no table has targetCategory "1"; otherwise the first such table is found |
| Lr.FindModelElement | logisticRegressionPmml.java:111-119 | the loop returns exactly `FirstTarget` of the RegressionTable children |
| Lr.RegressionSources | logisticRegressionPmml.java:67-70 | the names, the target table and its parsed intercept come from the RegressionModel |
| Lr.FindRegression | logisticRegressionPmml.java:67-70 | the method returns exactly `ReadRegression` |
| Lr.Store | logisticRegressionPmml.java:80-82 | one store keeps the array length |
| Lr.FillSucceeds | logisticRegressionPmml.java:79-83 | the predictor loop completes iff every predictor has a parsable coefficient and a name that is an index within the array |
| Lr.FillPrefixFails | logisticRegressionPmml.java:79-83 | the first bad predictor decides the failure |
| Lr.FillByName | logisticRegressionPmml.java:79-83 | with distinct names, each named slot holds its predictor's coefficient |
| Lr.FillUnnamed | logisticRegressionPmml.java:79-83 | a slot no predictor names keeps its value |
| Lr.FillCoefficients | logisticRegressionPmml.java:78-83 | the array loop returns exactly `Fill` over a zero array |
| Lr.AssembleNull | logisticRegressionPmml.java:72-76 | null iff the predictor count differs from the field count |
| Lr.AssembleBuilt | logisticRegressionPmml.java:71-84 | a model is built iff the counts match and every predictor is well formed; it has target "1", the names, the intercept and numberOfFields coefficients |
| Lr.AssembleByName | logisticRegressionPmml.java:78-83 | each named coefficient sits at its index |
| Lr.AssembleUnnamed | logisticRegressionPmml.java:78-83 | an unnamed index has coefficient 0.0 |
| Lr.Create | logisticRegressionPmml.java:63-85 | the method returns exactly `Load`: the field count, then the regression, then the assembled model |
| Lr.Predict | logisticRegressionPmml.java:58-61 | fails with DimensionMismatch iff the data length differs from the coefficient count; otherwise the sigmoid of w·x + b |
| Lr.PredictZero | logisticRegressionPmml.java:58-61 | all-zero data predicts sigmoid(intercept) |
| Lr.PredictOneField | logisticRegressionPmml.java:58-61 | data zero except at j predicts sigmoid(wⱼxⱼ + b) |

## Left out

- The `createByPmml` overloads, which read a file, stream or URL and parse XML, are left out. The model starts from a parsed `Pmml.Element` tree.
- FM's `createByText` reads a stream. Line splitting and IOException are left out, and the model takes the lines as a sequence.
- `System.out.println` diagnostics are left out. They do not affect results.
- `Math.exp` is left out: the sigmoid stays symbolic as `Sigmoid(logit)`.
- IEEE doubles are modelled as reals. Rounding, infinities and summation order are not modelled.
- `Double.valueOf` is the uninterpreted parameter `parse`. A NaN feature value is `None` in the GBDT feature map.
- `FMModel.predict(Map)` visits the keys in HashMap order. The model takes that order as a `keys` parameter, and `ScoreOrderIndependent` shows the order does not matter.
- `decison`'s "<=" reads the first element of a HashSet. The model uses the first threshold in the text's order.
- `decison`'s "==" branch is unreachable from a loaded tree: `BuildNoEquality` shows that both operators write "<=".
- `defaultLeft` is never assigned by the loader, so missing values raise NullPointerException (modelled).
- JavaStrings.ParseInt: accepts only the ASCII digits '0'-'9'. `Integer.valueOf` also accepts every other Unicode decimal digit (fullwidth, Arabic-Indic, ...). Such node ids, FM `i_`/`v_` indices and LR predictor names fail with NumberFormat in the model, where Java loads them.
- Null lists, null map keys and null map values passed by callers are left out.
- `getFeatureEmbedding` returns a row that aliases the table. The model keeps rows as `seq` values, so aliasing by callers is not captured.
- The simple getters are left out. The LR getters are the fields of `Lr.LRModel`.
- commons-math internals are left out. Only the contracts used are modelled: dimension checks and the NoData error for an empty matrix.
- The GBDTTree fields `numLeaves`, `score` and `j` are never used by the core and are left out.
- Fm.FMModel.PredictMap: requires the caller's `keys` to enumerate the map's keys, each once, because that is what HashMap iteration provides.
- Fm.FMModel.CalcSecondOrder: requires every gathered row to be k wide. `GatheredRowsWidth` shows that every gathered row is.
