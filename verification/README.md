# pacaya core, modelled in Dafny

This project models the parts of the pacaya structured-prediction library
that compute and train over factor graphs and hypergraphs.

- **Hyperalgo.** The generalized inside-outside algorithm over a hypergraph,
  under any semiring, and its reverse-mode (adjoint) pass. Modules
  `Semirings`, `Hypergraphs`, `Hyperalgo` and `InsideOutsideLemmas`.
- **ViterbiSemiring.** The max-times algebra. Module `Viterbi`.
- **Exp.** The element-wise exponential module of the tensor autodiff
  layer: forward computes `y = exp(x)` and backward adds `yAdj * y` to the
  input's adjoint. Module `TensorExp`.
- **PosTagDistancePruner.** The dependency-edge pruner. Training records, for
  every (parent tag, child tag) pair, the longest gold edge seen. Annotation
  prunes every candidate edge longer than that. Module `PosTagPruning`.
- **FgExample and LabeledFgExample.** Training examples over factor graphs.
  Each checks its gold assignment and keeps the graph with its OBSERVED
  variables clamped, and for FgExample also with its PREDICTED variables
  clamped. Modules `FactorGraphs`, `FgExamples` and `LabeledFgExamples`.
- **FactorBuilder.** The constraint factors of the RLT relaxation: bound
  factors from finite column bounds, and the split of an equality row into
  two inequalities. Module `FactorBuilding`.
- **Sentence.** A sentence built from a dependency tree by skipping the wall
  node. Module `Sentences`.

How the loops are modelled:
- Each algorithm that fills an array in a loop is a `method` over Dafny
  arrays. Its result is tied to a reference function that folds over the
  same edges, in the same order.
- Separate lemmas then state what those reference functions mean: the inside
  and outside equations, the equations of the outside and inside adjoints,
  the root marginal, and the closed forms of the adjoints.
- Objects whose fields change are classes: `Scores`, `Tensor`, `Exp`,
  `DepEdgeMask`, `AnnoSentence`, `PosTagDistancePruner`, `Factor`,
  `LabeledFgExample` and `Sentence`.
- Errors the source throws become `Outcome`/`Result` values that carry the
  same message or index.

## Model

| member | source | states |
|---|---|---|
| Hyperalgo.Scores.constructor | src/main/java/edu/jhu/hypergraph/Hyperalgo.java:168-176 | every score array of a fresh Scores is absent |
| Hyperalgo.TailProduct | src/main/java/edu/jhu/hypergraph/Hyperalgo.java:54-57 | the loop's product over the tail nodes, with the skipped ones left out, equals the reference product ProdSkipping |
| Hyperalgo.InsideApply | src/main/java/edu/jhu/hypergraph/Hyperalgo.java:52-60 | one edge adds w_e times the product of its tails' betas to beta of its head; nothing else changes |
| Hyperalgo.InsideAlgorithm | src/main/java/edu/jhu/hypergraph/Hyperalgo.java:44-65 | the returned beta is the reference inside fold over the edges in topological order, starting from all zero |
| InsideOutsideLemmas.InsideSolvesEquations | src/main/java/edu/jhu/hypergraph/Hyperalgo.java:47-59 | on a topologically sorted graph, each beta_i is the semiring sum over the edges headed at i of w_e times the product of the tails' betas |
| InsideOutsideLemmas.UnheadedNodeIsZero | src/main/java/edu/jhu/hypergraph/Hyperalgo.java:47-48 | a node that heads no edge keeps the semiring zero as its inside score |
| InsideOutsideLemmas.LeafEdgeAddsItsWeight | src/main/java/edu/jhu/hypergraph/Hyperalgo.java:53-59 | an edge without tails adds exactly its weight to its head |
| Hyperalgo.OutsideApply | src/main/java/edu/jhu/hypergraph/Hyperalgo.java:88-104 | for one edge, each tail j gains alpha_head * w_e * the product of the other tails' betas, tail by tail in order |
| InsideOutsideLemmas.SkipDropsEveryOccurrence | src/main/java/edu/jhu/hypergraph/Hyperalgo.java:92-98 | the leave-one-out product compares node ids, so it equals the full product over the tails with every occurrence of j removed, in any semiring |
| Hyperalgo.OutsideAlgorithm | src/main/java/edu/jhu/hypergraph/Hyperalgo.java:78-109 | the returned alpha is the reference outside fold in reverse topological order, from zero everywhere and one at the root |
| InsideOutsideLemmas.OutsideSolvesEquations | src/main/java/edu/jhu/hypergraph/Hyperalgo.java:81-103 | on a topologically sorted graph, each alpha_j is its start value plus the sum of the outside contributions of every edge having j as a tail |
| InsideOutsideLemmas.OutsideRootIsOne | src/main/java/edu/jhu/hypergraph/Hyperalgo.java:83-84 | when the root is no edge's tail, its outside score is the semiring one |
| Hyperalgo.Marginals | src/main/java/edu/jhu/hypergraph/Hyperalgo.java:151-166 | marginal_i = alpha_i * beta_i / beta_root for every node |
| InsideOutsideLemmas.MarginalOfRootIsOne | src/main/java/edu/jhu/hypergraph/Hyperalgo.java:159-162 | in the real algebra, with a nonzero root inside score, the root's marginal is 1 |
| Hyperalgo.InsideAlgorithmScores | src/main/java/edu/jhu/hypergraph/Hyperalgo.java:121-124 | sets scores.beta to the inside scores and no other field |
| Hyperalgo.OutsideAlgorithmScores | src/main/java/edu/jhu/hypergraph/Hyperalgo.java:136-139 | sets scores.alpha to the outside scores of scores.beta and no other field |
| Hyperalgo.MarginalsScores | src/main/java/edu/jhu/hypergraph/Hyperalgo.java:151-166 | sets scores.marginal from scores.alpha and scores.beta and no other field |
| Hyperalgo.Forward | src/main/java/edu/jhu/hypergraph/Hyperalgo.java:20-25 | beta, alpha and marginal end up as the inside, outside and marginal reference values, and the adjoint fields are untouched |
| Hyperalgo.OutsideAdjointInit | src/main/java/edu/jhu/hypergraph/Hyperalgo.java:194-202 | alphaAdj_i starts as marginalAdj_i * beta_i / beta_root |
| Hyperalgo.OutsideAdjApply | src/main/java/edu/jhu/hypergraph/Hyperalgo.java:206-217 | for one edge, alphaAdj of the head gains alphaAdj_j * w_e * the product of the other tails' betas, for each tail j |
| Hyperalgo.OutsideAdjoint | src/main/java/edu/jhu/hypergraph/Hyperalgo.java:188-222 | the result is the reference outside-adjoint fold over the edges in topological order |
| InsideOutsideLemmas.AlphaAdjSolvesEquations | src/main/java/edu/jhu/hypergraph/Hyperalgo.java:203-219 | on a topologically sorted graph the outside adjoints solve their equations: alphaAdj_i is its direct term plus, over the edges headed at i and each of their tails j, alphaAdj_j * w_e * the product of beta over the other tails, with the final alphaAdj on the right |
| Hyperalgo.OutsideAdjointScores | src/main/java/edu/jhu/hypergraph/Hyperalgo.java:188-222 | sets scores.alphaAdj to that adjoint and no other field |
| Hyperalgo.InsideAdjointInit | src/main/java/edu/jhu/hypergraph/Hyperalgo.java:244-263 | betaAdj starts from the root term and the per-node marginal terms, as the reference BetaAdjInit |
| InsideOutsideLemmas.BetaAdjInitClosedForm | src/main/java/edu/jhu/hypergraph/Hyperalgo.java:244-263 | in the real algebra, betaAdj_root starts at -(sum over j != root of marginalAdj_j * alpha_j * beta_j) / beta_root^2, and every other betaAdj_j at marginalAdj_j * alpha_j / beta_root |
| Hyperalgo.PairTerms | src/main/java/edu/jhu/hypergraph/Hyperalgo.java:282-293 | adds, for every other tail k, alphaAdj_k * w_e * alpha_head * the product of the betas of the tails other than j and k |
| Hyperalgo.InsideAdjApply | src/main/java/edu/jhu/hypergraph/Hyperalgo.java:268-294 | for one edge, every tail j gains the head-adjoint term and the pair terms, tail by tail in order |
| Hyperalgo.InsideAdjoint | src/main/java/edu/jhu/hypergraph/Hyperalgo.java:234-299 | the result is the reference inside-adjoint fold in reverse topological order |
| InsideOutsideLemmas.BetaAdjSolvesEquations | src/main/java/edu/jhu/hypergraph/Hyperalgo.java:265-296 | on a topologically sorted graph the inside adjoints solve their equations: betaAdj_j is its direct term plus, over the edges in O(j) (those with j among their tails), once per occurrence, betaAdj_H(e) * w_e * the product of beta over the other tails, then the pair terms alphaAdj_k * w_e * alpha_H(e) * the product over the tails other than j and k; the final betaAdj_H(e) is on the right |
| Hyperalgo.InsideAdjointScores | src/main/java/edu/jhu/hypergraph/Hyperalgo.java:234-299 | sets scores.betaAdj to that adjoint and no other field |
| Hyperalgo.WeightAdjOfEdge | src/main/java/edu/jhu/hypergraph/Hyperalgo.java:323-345 | one edge's adjoint: betaAdj_head times the tails' betas, plus a term per tail |
| InsideOutsideLemmas.WeightAdjClosedForm | src/main/java/edu/jhu/hypergraph/Hyperalgo.java:324-342 | in the real algebra, an edge's weight adjoint is betaAdj_head * prod_j beta_j + sum_j alphaAdj_j * alpha_head * prod_{k != j} beta_k |
| Hyperalgo.WeightAdjoint | src/main/java/edu/jhu/hypergraph/Hyperalgo.java:312-351 | the result is the reference weight-adjoint fold, indexed by edge id |
| InsideOutsideLemmas.WeightAdjointAssignsEachEdgeOnce | src/main/java/edu/jhu/hypergraph/Hyperalgo.java:318-345 | with distinct edge ids, slot id(e) of the weight adjoint holds exactly e's own adjoint |
| Hyperalgo.WeightAdjointScores | src/main/java/edu/jhu/hypergraph/Hyperalgo.java:312-351 | sets scores.weightAdj to that adjoint and no other field |
| Hyperalgo.Backward | src/main/java/edu/jhu/hypergraph/Hyperalgo.java:27-35 | fails with the source's message, changing nothing, exactly when marginalAdj is absent, whatever alpha and beta hold (also before any forward pass); otherwise computes alphaAdj, then betaAdj, then weightAdj |
| Viterbi.ViterbiSemiring.Plus | src/main/java/edu/jhu/pacaya/util/semiring/ViterbiSemiring.java:16-19 | the result is one of the arguments and no smaller than either: the maximum |
| Viterbi.ViterbiSemiring.Times | src/main/java/edu/jhu/pacaya/util/semiring/ViterbiSemiring.java:22-24 | the product is zero exactly when a factor is, and a factor of 1 leaves the other unchanged |
| Viterbi.ViterbiSemiring.Zero | src/main/java/edu/jhu/pacaya/util/semiring/ViterbiSemiring.java:27-29 | 0 annihilates under times on both sides and is the identity of max on the values not below it |
| Viterbi.ViterbiSemiring.One | src/main/java/edu/jhu/pacaya/util/semiring/ViterbiSemiring.java:32-34 | 1 is the identity of times on both sides |
| Viterbi.ViterbiSemiring.Equals | src/main/java/edu/jhu/pacaya/util/semiring/ViterbiSemiring.java:36-42 | true exactly for a non-null object of the same class |
| Viterbi.ViterbiSemiring.AsSemiring | src/main/java/edu/jhu/pacaya/util/semiring/ViterbiSemiring.java:16-34 | the semiring record has zero 0, one 1, plus max and times product |
| Viterbi.GetInstance | src/main/java/edu/jhu/pacaya/util/semiring/ViterbiSemiring.java:6-14 | returns the instance, which equals any object of its class |
| Viterbi.InstancesAreEqual | src/main/java/edu/jhu/pacaya/util/semiring/ViterbiSemiring.java:6-14 | there is one instance: any two are the instance GetInstance returns |
| Viterbi.PlusCommutative | src/main/java/edu/jhu/pacaya/util/semiring/ViterbiSemiring.java:17-19 | plus is commutative |
| Viterbi.PlusAssociative | src/main/java/edu/jhu/pacaya/util/semiring/ViterbiSemiring.java:17-19 | plus is associative |
| Viterbi.PlusIdempotent | src/main/java/edu/jhu/pacaya/util/semiring/ViterbiSemiring.java:17-19 | plus(x, x) = x |
| Viterbi.OneIsTimesIdentity | src/main/java/edu/jhu/pacaya/util/semiring/ViterbiSemiring.java:22-34 | one is a two-sided identity of times |
| Viterbi.TimesCommutativeAssociative | src/main/java/edu/jhu/pacaya/util/semiring/ViterbiSemiring.java:22-24 | times is commutative and associative |
| Viterbi.ZeroIsPlusIdentityIff | src/main/java/edu/jhu/pacaya/util/semiring/ViterbiSemiring.java:17-29 | zero is an identity of plus exactly on non-negative values |
| Viterbi.ZeroAnnihilates | src/main/java/edu/jhu/pacaya/util/semiring/ViterbiSemiring.java:22-29 | zero annihilates under times |
| Viterbi.TimesDistributesOverPlus | src/main/java/edu/jhu/pacaya/util/semiring/ViterbiSemiring.java:17-24 | times distributes over plus when the common factor is non-negative |
| Viterbi.DistributivityNeedsNonNegativeFactor | src/main/java/edu/jhu/pacaya/util/semiring/ViterbiSemiring.java:17-24 | with factor -1, distributivity fails, so the sign condition is needed |
| TensorExp.Tensor.Copy | src/main/java/edu/jhu/pacaya/autodiff/tensor/Exp.java:28 | a copy has the same algebra, dimensions and values in a fresh array |
| TensorExp.Tensor.Exp | src/main/java/edu/jhu/pacaya/autodiff/tensor/Exp.java:29 | every value becomes exp of its old value |
| TensorExp.Tensor.ElemMultiply | src/main/java/edu/jhu/pacaya/autodiff/tensor/Exp.java:40 | values become the element-wise product with the other tensor |
| TensorExp.Tensor.ElemAdd | src/main/java/edu/jhu/pacaya/autodiff/tensor/Exp.java:41 | values become the element-wise sum with the other tensor |
| TensorExp.InputModule.constructor | src/main/java/edu/jhu/pacaya/autodiff/tensor/Exp.java:17 | the input module holds its algebra, output and output adjoint |
| TensorExp.Exp.constructor | src/main/java/edu/jhu/pacaya/autodiff/tensor/Exp.java:19-22 | the module takes its input's algebra and has no output yet |
| TensorExp.Exp.Forward | src/main/java/edu/jhu/pacaya/autodiff/tensor/Exp.java:24-31 | y is a fresh tensor of the input's shape with y_i = exp(x_i); the input is unchanged |
| TensorExp.Exp.Backward | src/main/java/edu/jhu/pacaya/autodiff/tensor/Exp.java:33-42 | the input's adjoint becomes its old value plus yAdj (.) y; y and yAdj are unchanged |
| TensorExp.BackwardAddsAdjointTimesExp | src/main/java/edu/jhu/pacaya/autodiff/tensor/Exp.java:33-42 | when y = exp(x), the contribution yAdj_i * y_i that backward adds is yAdj_i * exp(x_i) |
| TensorExp.BackwardTwice | src/main/java/edu/jhu/pacaya/autodiff/tensor/Exp.java:38-42 | backward accumulates rather than overwrites: two calls of Exp.Backward leave the input adjoint at old (+) c (+) c, c = yAdj (.) y, and in the real algebra at old_i + 2 c_i |
| TensorExp.ForwardThenBackward | src/main/java/edu/jhu/pacaya/autodiff/tensor/Exp.java:24-42 | a Forward call followed by a Backward call adds yAdj (.) exp(x) to the input adjoint, x being the input before the calls; in the real algebra each entry grows by yAdj_i * exp(x_i) |
| TensorExp.AccumulationOrderIrrelevant | src/main/java/edu/jhu/pacaya/autodiff/tensor/Exp.java:41 | in any algebra whose plus is commutative and associative, accumulating two consumers' contributions into one adjoint gives the same buffer in either order |
| TensorExp.Exp.GetInputs | src/main/java/edu/jhu/pacaya/autodiff/tensor/Exp.java:45-47 | the module's only input is modInX |
| PosTagPruning.GrowExtends | src/main/java/edu/jhu/nlp/depparse/PosTagDistancePruner.java:39-42 | looking tags up keeps the alphabet as a prefix, keeps its entries distinct, adds every tag and nothing else |
| PosTagPruning.GrowAppend | src/main/java/edu/jhu/nlp/depparse/PosTagDistancePruner.java:39-42 | looking up sentence after sentence is looking up all their tags at once |
| PosTagPruning.GrowKnown | src/main/java/edu/jhu/nlp/depparse/PosTagDistancePruner.java:49 | looking up tags that are all known leaves the alphabet unchanged |
| PosTagPruning.IndexOf | src/main/java/edu/jhu/nlp/depparse/PosTagDistancePruner.java:50 | a known tag's id is a position that holds it |
| PosTagPruning.IndexOfIsFirst | src/main/java/edu/jhu/nlp/depparse/PosTagDistancePruner.java:50 | no earlier position holds it |
| PosTagPruning.IndexOfDistinct | src/main/java/edu/jhu/nlp/depparse/PosTagDistancePruner.java:50 | in an alphabet without repeats, the id of the entry at q is q |
| PosTagPruning.TagIds | src/main/java/edu/jhu/nlp/depparse/PosTagDistancePruner.java:49-50 | one id per tag, each the alphabet position of that tag |
| PosTagPruning.TagIdsPrefix | src/main/java/edu/jhu/nlp/depparse/PosTagDistancePruner.java:85-86 | a grown alphabet gives known tags the same ids |
| PosTagPruning.DepEdgeMask.constructor | src/main/java/edu/jhu/nlp/depparse/PosTagDistancePruner.java:81 | a new n-by-n mask with every edge kept, or every edge pruned |
| PosTagPruning.DepEdgeMask.SetIsPruned | src/main/java/edu/jhu/nlp/depparse/PosTagDistancePruner.java:101 | sets one cell and leaves every other cell as it was |
| PosTagPruning.AnnoSentence.constructor | src/main/java/edu/jhu/nlp/depparse/PosTagDistancePruner.java:79-86 | a sentence with its tags, gold parents and mask |
| PosTagPruning.AllTagsContains | src/main/java/edu/jhu/nlp/depparse/PosTagDistancePruner.java:39-42 | every tag of every sentence is among the tags the alphabet loop visits |
| PosTagPruning.TrainTableStep | src/main/java/edu/jhu/nlp/depparse/PosTagDistancePruner.java:48-66 | one more sentence records its edges, under its tags' ids, into the table so far |
| PosTagPruning.RecordEdgesGrows | src/main/java/edu/jhu/nlp/depparse/PosTagDistancePruner.java:59-64 | recording an edge only ever raises entries |
| PosTagPruning.RecordEdgesCovers | src/main/java/edu/jhu/nlp/depparse/PosTagDistancePruner.java:53-64 | after a sentence, each of its non-wall edges is no longer than the entry for its tag pair |
| PosTagPruning.RecordEdgesAttained | src/main/java/edu/jhu/nlp/depparse/PosTagDistancePruner.java:53-64 | each entry is its old value or the length of one of the sentence's edges with that tag pair |
| PosTagPruning.TrainTableNonNegative | src/main/java/edu/jhu/nlp/depparse/PosTagDistancePruner.java:45-46 | the trained table has no negative entry |
| PosTagPruning.TrainTableCovers | src/main/java/edu/jhu/nlp/depparse/PosTagDistancePruner.java:48-66 | every gold non-wall edge is within the trained entry for its (parent tag, child tag) pair |
| PosTagPruning.TrainTableAttained | src/main/java/edu/jhu/nlp/depparse/PosTagDistancePruner.java:45-66 | every trained entry is 0 or the length of some gold edge with that tag pair, so it is the maximum such length |
| PosTagPruning.PrunedValues | src/main/java/edu/jhu/nlp/depparse/PosTagDistancePruner.java:79-83 | a mask read as an n-by-n grid; no mask prunes nothing |
| PosTagPruning.PosTagDistancePruner.constructor | src/main/java/edu/jhu/nlp/depparse/PosTagDistancePruner.java:31-34 | a new pruner has an empty alphabet and no table |
| PosTagPruning.PosTagDistancePruner.LabelIds | src/main/java/edu/jhu/nlp/depparse/PosTagDistancePruner.java:49-50 | adds unknown tags to the alphabet in order and returns each tag's position |
| PosTagPruning.PosTagDistancePruner.PopulateAlphabet | src/main/java/edu/jhu/nlp/depparse/PosTagDistancePruner.java:39-42 | the alphabet grows by the gold tags, in order, and then knows them all |
| PosTagPruning.PosTagDistancePruner.RecordSentence | src/main/java/edu/jhu/nlp/depparse/PosTagDistancePruner.java:53-65 | the table becomes the old table with the sentence's non-wall edges recorded |
| PosTagPruning.PosTagDistancePruner.RecordAll | src/main/java/edu/jhu/nlp/depparse/PosTagDistancePruner.java:48-66 | the table becomes the one that training on all gold sentences gives |
| PosTagPruning.PosTagDistancePruner.RecordNext | src/main/java/edu/jhu/nlp/depparse/PosTagDistancePruner.java:48-66 | recording sentence s extends the table from s sentences to s+1 |
| PosTagPruning.PosTagDistancePruner.Train | src/main/java/edu/jhu/nlp/depparse/PosTagDistancePruner.java:37-67 | the table is square over the grown alphabet; every gold non-wall edge fits its entry; every entry is 0 or the length of a gold edge |
| PosTagPruning.PosTagDistancePruner.AnnotateRow | src/main/java/edu/jhu/nlp/depparse/PosTagDistancePruner.java:90-109 | row i gains exactly the prunings PrunesEdge selects; other rows are unchanged |
| PosTagPruning.PosTagDistancePruner.AnnotateRows | src/main/java/edu/jhu/nlp/depparse/PosTagDistancePruner.java:89-110 | each cell becomes its old value or PrunesEdge: known tags only, and distance above the entry |
| PosTagPruning.PosTagDistancePruner.AnnotateSentence | src/main/java/edu/jhu/nlp/depparse/PosTagDistancePruner.java:79-110 | keeps an existing mask (a new all-kept one otherwise) and prunes exactly the edges longer than the trained entry, unknown tags never; nothing else is unpruned |
| PosTagPruning.PosTagDistancePruner.AnnotateNext | src/main/java/edu/jhu/nlp/depparse/PosTagDistancePruner.java:77-110 | annotating sentence s keeps the earlier sentences annotated and the later ones untouched |
| PosTagPruning.PosTagDistancePruner.AnnotatedGrows | src/main/java/edu/jhu/nlp/depparse/PosTagDistancePruner.java:85-86 | a sentence annotated under an alphabet stays annotated as the alphabet grows |
| PosTagPruning.PosTagDistancePruner.SelfEdgeKept | src/main/java/edu/jhu/nlp/depparse/PosTagDistancePruner.java:89-101 | an annotated sentence's edge from a token to itself is never pruned by the table (distance 0 is within every entry): it keeps its old value, and is kept when the sentence had no mask |
| PosTagPruning.PosTagDistancePruner.Annotate | src/main/java/edu/jhu/nlp/depparse/PosTagDistancePruner.java:70-110 | fails with the source's message, changing nothing, exactly when untrained; otherwise every sentence is annotated and the alphabet grows by all their tags |
| FactorGraphs.ListOfType | src/main/java/edu/jhu/gm/data/FgExample.java:79 | exactly the list's variables of the given type |
| FactorGraphs.Intersection | src/main/java/edu/jhu/gm/data/FgExample.java:81 | the gold states of exactly the variables of the set the config assigns |
| FactorGraphs.Factor.constructor | src/main/java/edu/jhu/gm/data/FgExample.java:174-175 | a factor over its variables, never updated |
| FactorGraphs.Factor.UpdateFromModel | src/main/java/edu/jhu/gm/data/FgExample.java:175 | records the parameters and domain the factor was last updated with |
| FactorGraphs.FactorGraph.constructor | src/main/java/edu/jhu/gm/data/FgExample.java:71 | a graph with the given variables and factors |
| FactorGraphs.FactorGraph.Clamped | src/main/java/edu/jhu/gm/data/FgExample.java:81-88 | a fresh graph with as many factors, each over its variables minus the clamped ones; the graph's variables minus the clamped ones |
| FactorGraphs.Unclamped | src/main/java/edu/jhu/gm/data/FgExample.java:81-88 | exactly the listed variables the config does not assign |
| FgExamples.IntersectionFull | src/main/java/edu/jhu/gm/data/FgExample.java:124 | the size test passes exactly when the config assigns every variable of the set |
| FgExamples.FactorLabeledIff | src/main/java/edu/jhu/gm/data/FgExample.java:112-124 | a factor passes exactly when all its non-LATENT variables have gold states |
| FgExamples.GoldLabeledIff | src/main/java/edu/jhu/gm/data/FgExample.java:108-132 | the graph passes exactly when every non-LATENT variable of every factor has a gold state |
| FgExamples.CheckGoldConfig | src/main/java/edu/jhu/gm/data/FgExample.java:108-132 | passes exactly when every factor passes; otherwise returns the first failing factor's index |
| FgExamples.LatentCount | src/main/java/edu/jhu/gm/data/FgExample.java:90-91 | variables minus OBSERVED minus PREDICTED is the number of LATENT variables |
| FgExamples.ClampKeepsPredicted | src/main/java/edu/jhu/gm/data/FgExample.java:78-81 | clamping OBSERVED variables leaves each factor's PREDICTED variables as they were |
| FgExamples.GetUpdatedFactorGraph | src/main/java/edu/jhu/gm/data/FgExample.java:172-178 | every factor of the graph is updated from the model, and the same graph is returned |
| FgExamples.FgExample.constructor | src/main/java/edu/jhu/gm/data/FgExample.java:71-94 | clamps OBSERVED (the graph itself when there are none), then PREDICTED; equal factor counts; hasLatentVars by the count |
| FgExamples.FgExample.HasLatentVars | src/main/java/edu/jhu/gm/data/FgExample.java:185-187 | true exactly when some variable of the graph is LATENT |
| FgExamples.FgExample.UpdateFgLatPred | src/main/java/edu/jhu/gm/data/FgExample.java:156-158 | updates every factor of the OBSERVED-clamped graph and returns it |
| FgExamples.FgExample.UpdateFgLat | src/main/java/edu/jhu/gm/data/FgExample.java:166-168 | updates every factor of the OBSERVED-and-PREDICTED-clamped graph and returns it |
| FgExamples.FgExample.GetGoldConfigPred | src/main/java/edu/jhu/gm/data/FgExample.java:200-203 | the gold states of exactly the factor's PREDICTED variables |
| FgExamples.NewFgExample | src/main/java/edu/jhu/gm/data/FgExample.java:71-74 | fails with the first failing factor's index exactly when the check fails; otherwise a valid example |
| LabeledFgExamples.VarsLabeledIff | src/main/java/edu/jhu/pacaya/gm/data/LabeledFgExample.java:55-64 | the per-variable check passes exactly when every non-LATENT variable has a gold state |
| LabeledFgExamples.VarCheckCoversFactorCheck | src/main/java/edu/jhu/pacaya/gm/data/LabeledFgExample.java:55-64 | when factors range over the graph's variables, passing this check implies passing the per-factor check |
| LabeledFgExamples.CheckGoldConfig | src/main/java/edu/jhu/pacaya/gm/data/LabeledFgExample.java:55-64 | passes exactly when labelled; otherwise returns the first unassigned non-LATENT variable |
| LabeledFgExamples.LabeledFgExample.constructor | src/main/java/edu/jhu/pacaya/gm/data/LabeledFgExample.java:32-53 | a checked example of weight 1.0 |
| LabeledFgExamples.NewLabeledFgExample | src/main/java/edu/jhu/pacaya/gm/data/LabeledFgExample.java:49-53 | fails with the first unassigned non-LATENT variable exactly when the check fails; otherwise a valid example of weight 1.0 |
| LabeledFgExamples.LabeledFgExample.GetGoldConfig | src/main/java/edu/jhu/pacaya/gm/data/LabeledFgExample.java:67-69 | the gold config, which assigns every non-LATENT variable |
| LabeledFgExamples.LabeledFgExample.GetGoldConfigPred | src/main/java/edu/jhu/pacaya/gm/data/LabeledFgExample.java:72-75 | gold states of the factor's PREDICTED variables, and all of them when they are graph variables |
| LabeledFgExamples.LabeledFgExample.SetWeight | src/main/java/edu/jhu/pacaya/gm/data/LabeledFgExample.java:83-85 | the weight becomes w |
| LabeledFgExamples.LabeledFgExample.GetWeight | src/main/java/edu/jhu/pacaya/gm/data/LabeledFgExample.java:87-90 | returns the current weight |
| FactorBuilding.Neg | src/edu/jhu/hltcoe/gridsearch/rlt/FactorBuilder.java:147-148 | the vector with every entry negated |
| FactorBuilding.DotNeg | src/edu/jhu/hltcoe/gridsearch/rlt/FactorBuilder.java:147-148 | (-G).x = -(G.x) |
| FactorBuilding.DotSingle | src/edu/jhu/hltcoe/gridsearch/rlt/FactorBuilder.java:110-111 | a one-entry vector {c: v} gives v * x_c |
| FactorBuilding.IsEq | src/edu/jhu/hltcoe/gridsearch/rlt/FactorBuilder.java:66-68 | a row factor is an equality exactly when it is of type EQ; a bound factor never is (lines 91-95) |
| FactorBuilding.GetBoundFactorLower | src/edu/jhu/hltcoe/gridsearch/rlt/FactorBuilder.java:105-115 | none exactly for an infinite bound; otherwise a LOWER inequality on the column that holds exactly when x_col >= lb |
| FactorBuilding.GetBoundFactorUpper | src/edu/jhu/hltcoe/gridsearch/rlt/FactorBuilder.java:117-127 | none exactly for an infinite bound; otherwise an UPPER inequality on the column that holds exactly when x_col <= ub |
| FactorBuilding.GetEqFactorAsLeqPairAsWritten | src/edu/jhu/hltcoe/gridsearch/rlt/FactorBuilder.java:135-156 | the split as written, with the same failures, succeeding exactly for EQ row factors and then returning UPPER (g, G) and LOWER (-g, G): G is copied, not negated |
| FactorBuilding.AsWrittenSplitLosesSolutions | src/edu/jhu/hltcoe/gridsearch/rlt/FactorBuilder.java:142-148 | a point that satisfies the equality but not the as-written second factor |
| FactorBuilding.AsWrittenPairHoldsIff | src/edu/jhu/hltcoe/gridsearch/rlt/FactorBuilder.java:142-148 | for every point, the as-written pair holds exactly when G.x <= g and G.x <= -g |
| FactorBuilding.AsWrittenPairRejectsAllSolutions | src/edu/jhu/hltcoe/gridsearch/rlt/FactorBuilder.java:142-148 | for g > 0, no solution of the equality satisfies the as-written pair |
| FactorBuilding.AsWrittenPairWidensForNonPositive | src/edu/jhu/hltcoe/gridsearch/rlt/FactorBuilder.java:142-148 | for g <= 0, every solution of the equality satisfies the as-written pair, and so does every point with G.x < g, where the equality fails |
| FactorBuilding.GetEqFactorAsLeqPair | src/edu/jhu/hltcoe/gridsearch/rlt/FactorBuilder.java:135-156 | fails for non-equalities and bound factors; otherwise UPPER (g, G) and LOWER (-g, -G) on the same row |
| FactorBuilding.LeqPairEquivalent | src/edu/jhu/hltcoe/gridsearch/rlt/FactorBuilder.java:129-134 | neither factor of the pair is an equality, and together they hold exactly where the equality holds |
| Sentences.NonWallLabelsAppend | src/edu/jhu/hltcoe/data/Sentence.java:14-18 | filtering is compositional over concatenation, so node order is kept |
| Sentences.NonWallLabelsLength | src/edu/jhu/hltcoe/data/Sentence.java:14-18 | one label per non-wall node |
| Sentences.NonWallLabelsMembers | src/edu/jhu/hltcoe/data/Sentence.java:14-18 | a label is in the sentence exactly when some non-wall node carries it |
| Sentences.Sentence.Empty | src/edu/jhu/hltcoe/data/Sentence.java:8-10 | the empty sentence |
| Sentences.Sentence.Add | src/edu/jhu/hltcoe/data/Sentence.java:16 | appends one label |
| Sentences.Sentence.FromTree | src/edu/jhu/hltcoe/data/Sentence.java:12-19 | the labels of the tree's non-wall nodes, in node order |

## Left out

- Node order: the hypergraph's topological order is taken to be the order of
  its edge list. `applyTopoSort` and `applyRevTopoSort` walk that list forwards
  and backwards. The Hypergraph class is not part of this model.
- Hyperedge scores come from a potential function given as a parameter; the
  Hyperpotential class is not part of this model.
- Floating point: doubles are modelled as exact reals. NaN, infinities and
  rounding are not modelled, and neither is a max over NaN in
  `ViterbiSemiring.plus`.
- Division: the semiring's divide is total in the model and gives 0 for a
  zero divisor. Every property that involves a ratio requires
  beta_root != 0.
- Scores arrays are assumed to have one slot per node. The source never
  checks their lengths, so these are preconditions; Backward asks for them
  only when marginalAdj is present, the case in which it reads them.
- Tensor: only the operations Exp uses are modelled (copy, exp, elemMultiply,
  elemAdd). The Tensor class and AbstractModule are otherwise not part of
  this model, including the lazy allocation of output adjoints.
- BackwardAddsAdjointTimesExp: exp is an uninterpreted function, so the model
  does not state that exp is its own derivative. The lemma shows only that
  the added contribution is yAdj_i * exp(x_i); that this is the chain rule
  for exp is not established.
- TensorExp.Exp.Forward: requires the input's output to be present. The
  source dereferences it and would throw a NullPointerException instead.
- PosTagPruning.PosTagDistancePruner.Train: requires every gold sentence to
  have one parent per tag, each -1 or a token index (IsTree). The source
  accepts any parents array: it reads only the first |parents| entries, so a
  shorter array is handled normally, and it throws on an out-of-range parent.
  Neither case is modelled.
- PosTagPruning.PosTagDistancePruner.Annotate: requires every existing mask to
  be n x n for its sentence of n tags (MaskFits, through Snapshot). The source
  uses any existing mask; a larger one works and a smaller one fails with an
  index error. Neither case is modelled.
- Node identity: the outside adjoint skips tail k == j by comparing Hypernode
  objects (Hyperalgo.java:213), while the model compares node ids. The two
  agree when each id belongs to one node object, which the model assumes.
- TensorExp.Exp.Backward: requires y, yAdj and the input adjoint to be
  present and of one shape, with the input adjoint's array distinct from
  theirs. The source would fail at run time instead, and it never checks
  for aliasing.
- PosTagPruning.PosTagDistancePruner.Annotate: the sentences must be distinct
  objects and their masks must not share arrays. The masks and their contents
  on entry are passed as ghost parameters, so the postcondition can refer to
  them.
- Alphabet, LabelSequence, DenseIntegerMatrix, DepEdgeMask and AnnoSentence
  are not part of this model. They are modelled as a list of tags, a square
  integer array and small classes holding what the pruner uses.
- The pruner's edge counters, logging and the single-root and multi-root
  tree checks are left out. They only log and do not change the masks.
- Edges to the wall are never pruned. The model's mask holds only
  token-to-token edges.
- FactorGraph, Factor and VarConfig are not part of this model.
  - `getClamped` is modelled by its effect on factor scopes: the same number
    of factors, with the clamped variables dropped.
  - Factor potentials are not modelled. `updateFromModel` only records the
    parameters it was given.
- FactorTemplateList updates, the clamp and feature timers, and the deprecated
  feature-extractor constructor with `getObservationFeatures` are left out.
- UnlabeledFgExample is not part of this model. LabeledFgExample takes the
  clamped graph it would build as a constructor argument.
- `getGoldConfigIdxPred` is left out: the configuration index of a variable
  set is not part of this model.
- `getOriginalFactorGraph`, `getGoldConfig` in FgExample, `getFgLatPred` and
  `getFgLat` are field reads, so they are the class's constants.
- The exceptions thrown by the gold-config checks carry, in the model, the
  failing factor's index or the failing variable, not the formatted message.
  Their log lines are left out.
- FactorBuilder:
  - The CPLEX matrix, `getName` and `toString` are left out.
  - Sparse vectors are lists of (column, value) entries.
  - `CplexUtils.isInfinite` is modelled as the `Bound` datatype.
  - Factor subclasses defined elsewhere are the `OtherFactor` variant.
- DepTree, DepTreeNode and Label are not part of this model. They are value
  datatypes holding what Sentence reads.

## Findings

| source | as written | input that shows it | evidently intended | confidence | as-written member | corrected member |
|---|---|---|---|---|---|---|
| src/edu/jhu/hltcoe/gridsearch/rlt/FactorBuilder.java:142-148 | the second factor of the split of an equality (g - G.x == 0) is built from `-g` and a plain copy of G, so it reads -g - G.x >= 0 and the pair accepts exactly G.x <= min(g, -g): for g > 0 it rejects every solution of the equality, for g <= 0 it keeps them all but also accepts every point with G.x < g | g = 1, G = {0: 1}, x_0 = 1: the equality holds but -1 - 1 >= 0 does not; g = 0, G = {0: 1}, x_0 = -1: the equality fails but both factors hold | the second factor uses the negated vector (-g - (-G).x >= 0, i.e. G.x >= g), so that the pair holds exactly where the equality holds | not executed | FactorBuilding.GetEqFactorAsLeqPairAsWritten, FactorBuilding.AsWrittenSplitLosesSolutions, FactorBuilding.AsWrittenPairHoldsIff, FactorBuilding.AsWrittenPairRejectsAllSolutions, FactorBuilding.AsWrittenPairWidensForNonPositive | FactorBuilding.GetEqFactorAsLeqPair, FactorBuilding.LeqPairEquivalent |
