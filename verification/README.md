# Cyclomatic complexity: the `Stats` accumulator and the decision classifier

This project models the cyclomatic-complexity metric of rust-code-analysis
(`src/metrics/cyclomatic.rs`) in Dafny and proves properties of the model.

The metric has two parts.

- **The `Stats` accumulator.** One record exists per *space*: the file unit, a function, a class or a closure.
  - `cyclomatic` is the space's own local complexity. It starts at 1, for the one linear path.
  - `cyclomatic_sum`, `n`, `cyclomatic_max` and `cyclomatic_min` summarise every finalized space folded into the record.
  - `compute_minmax` finalizes a space. Its own complexity enters max and min, and then the sum (through `compute_sum`).
  - `merge` folds a child's summary into its parent, field by field.
  - `cyclomatic_average` is `sum / n`.
- **The classifier.** `Cyclomatic::compute` is implemented once per language. It adds 1 to `cyclomatic` when the node's kind is a decision point of that language.

How the model is laid out:

- `stats.dfy`, module `CyclomaticStats`, has two layers for the record.
  - `StatsValue` is the record's value, and pure functions specify each operation on it: `DefaultValue`, `Merged`, `WithSum`, `Finalized`, `Average`.
  - The class `Stats` has the source's fields. Its constructor and its methods `Merge`, `ComputeSum` and `ComputeMinmax` update those fields in place, and each is proved to produce the value its pure function gives.
  - The getters `cyclomatic`, `cyclomatic_sum`, `cyclomatic_max` and `cyclomatic_min` are the class's fields `cyclomatic`, `cyclomaticSum`, `cyclomaticMax` and `cyclomaticMin`. `cyclomatic_average` is the function `CyclomaticAverage`.
  - Two invariants describe the lifecycle of a record. `Open` means the space's own complexity is still pending, and the `n - 1` spaces handed over by its closed children are tallied. `Closed` means all `n` spaces are tallied. In both, `k * min <= sum <= k * max` holds for the `k` tallied spaces.
- `classifier.dfy`, module `CyclomaticClassifier`, has the classifier.
  - Each language has its own kind datatype: the kinds its classifier names, plus `Other`.
  - The datatype `Node` carries a kind in one of the eleven languages.
  - `IsDecision` dispatches on the node's language, as the trait does.
  - The method `Compute` updates a `Stats` in place.
- `harness.dfy`, module `SpaceHarness`, folds over the effects that one open space receives.
  - There are two kinds of effect: a classifier step on a node, and a closed child that is finalized and merged in.
  - It proves that the order of these effects does not change the result.
  - It encodes the numbers of the source's unit tests. Each space's decision kinds are taken from the comments in each test.
  - It does not decide which syntax node opens which space.

Representation choices:

- The source stores every field as an `f64`, but every stored value is a whole count. Counts are `nat` here, and `Average` uses real division. f64 rounding is not modelled.
- `cyclomatic_min` starts at `f64::MAX`, which means "no space finalized yet". Here that sentinel is `None` of `Option<nat>`. `MinOpt` treats `None` as its identity, just as `f64::min` treats `f64::MAX` against any count.

## Model

| member | source | states |
|---|---|---|
| `CyclomaticStats.Max` | src/metrics/cyclomatic.rs:62 | the larger of two counts: an upper bound of both, equal to one of them |
| `CyclomaticStats.MinOpt` | src/metrics/cyclomatic.rs:63 | the smaller of two minima, where the sentinel is the identity; it is the sentinel only when both are |
| `CyclomaticStats.DefaultValue` | src/metrics/cyclomatic.rs:19-28 | the default record is an open space with local complexity 1 and the min sentinel |
| `CyclomaticStats.DefaultMergeNeutral` | src/metrics/cyclomatic.rs:19-28 | the initial sum 0, max 0 and min sentinel leave sum, max and min unchanged under merge; n grows by the default's one space |
| `CyclomaticStats.Stats.constructor` | src/metrics/cyclomatic.rs:19-28 | a fresh record holds sum 0, cyclomatic 1, n 1, max 0 and the sentinel, and is open |
| `CyclomaticStats.Stats.Merge` | src/metrics/cyclomatic.rs:59-67 | max and min become the extrema of both records, sum and n the totals; the record's own cyclomatic is kept and `other` is not changed; an open record that merges a closed one stays open |
| `CyclomaticStats.MergeCommutes` | src/metrics/cyclomatic.rs:59-67 | merge gives the same sum, n, max and min in either argument order |
| `CyclomaticStats.MergeAssociates` | src/metrics/cyclomatic.rs:59-67 | merge is associative |
| `CyclomaticStats.MergeOrderIrrelevant` | src/metrics/cyclomatic.rs:59-67 | merging two children into a parent in either order gives the same parent |
| `CyclomaticStats.TalliesMerged` | src/metrics/cyclomatic.rs:59-67 | a summary of ka spaces merged with one of kb spaces is a summary of ka + kb spaces (min <= max <= sum and the k * min, k * max bounds) |
| `CyclomaticStats.MergedKeepsOpen` | src/metrics/cyclomatic.rs:59-67 | merging a closed child into an open space leaves it open |
| `CyclomaticStats.MergedKeepsClosed` | src/metrics/cyclomatic.rs:59-67 | merging two closed records gives a closed record |
| `CyclomaticStats.MergeKeepsMinLeMax` | src/metrics/cyclomatic.rs:62-63 | if both records have min <= max (or the sentinel), so does their merge |
| `CyclomaticStats.CountStaysPositive` | src/metrics/cyclomatic.rs:66 | n stays at least 1 through merge, compute_sum and compute_minmax, and merge strictly grows it beyond the child's n |
| `CyclomaticStats.Average` | src/metrics/cyclomatic.rs:82-84 | average times n is the sum |
| `CyclomaticStats.Stats.CyclomaticAverage` | src/metrics/cyclomatic.rs:82-84 | the record's average times its n is its sum |
| `CyclomaticStats.ClosedAverageBetween` | src/metrics/cyclomatic.rs:82-92 | a closed record has a real minimum, and min <= average <= max |
| `CyclomaticStats.Stats.ComputeSum` | src/metrics/cyclomatic.rs:93-96 | the sum grows by the record's own local complexity; nothing else changes |
| `CyclomaticStats.Finalized` | src/metrics/cyclomatic.rs:97-102 | the sum grows by the local complexity exactly once; n and cyclomatic are kept; max becomes exactly the larger of the old max and the local complexity, min exactly the smaller of the old min and the local complexity (which replaces the sentinel); afterwards min <= max |
| `CyclomaticStats.Stats.ComputeMinmax` | src/metrics/cyclomatic.rs:97-102 | the record becomes the finalized value of its old value, and an open record becomes closed |
| `CyclomaticStats.TalliesFinalized` | src/metrics/cyclomatic.rs:97-102 | finalizing a summary of k spaces with local complexity at least 1 gives a summary of k + 1 spaces |
| `CyclomaticStats.FinalizedCloses` | src/metrics/cyclomatic.rs:97-102 | finalizing an open space closes it |
| `CyclomaticStats.FinalizeTwiceCountsTwice` | src/metrics/cyclomatic.rs:93-102 | a second finalization adds the local complexity a second time, so a space must be finalized exactly once |
| `CyclomaticClassifier.ClassifiedStep` | src/metrics/cyclomatic.rs:105-224 | a classifier step adds exactly 1 to cyclomatic if and only if the node is a decision point, and otherwise changes nothing; sum, n, max and min are never touched |
| `CyclomaticClassifier.Compute` | src/metrics/cyclomatic.rs:105-224 | in place: cyclomatic grows by the classifier step, and sum, n, max and min stay as they were |
| `CyclomaticClassifier.ClassifiedKeepsOpen` | src/metrics/cyclomatic.rs:105-224 | a classifier step keeps an open space open |
| `CyclomaticClassifier.PythonClassifier` | src/metrics/cyclomatic.rs:112-131 | a Python node counts if and only if its kind is one of the nine listed kinds, or it is `else` and the ancestor query holds |
| `CyclomaticClassifier.PythonContextFree` | src/metrics/cyclomatic.rs:117-119 | the ancestor query matters only for `else` |
| `CyclomaticClassifier.MozjsClassifier` | src/metrics/cyclomatic.rs:133-144 | a Mozjs node counts if and only if its kind is one of the eight listed |
| `CyclomaticClassifier.JavascriptClassifier` | src/metrics/cyclomatic.rs:146-157 | a JavaScript node counts if and only if its kind is one of the eight listed |
| `CyclomaticClassifier.TypescriptClassifier` | src/metrics/cyclomatic.rs:159-170 | a TypeScript node counts if and only if its kind is one of the eight listed |
| `CyclomaticClassifier.TsxClassifier` | src/metrics/cyclomatic.rs:172-183 | a TSX node counts if and only if its kind is one of the eight listed |
| `CyclomaticClassifier.RustClassifier` | src/metrics/cyclomatic.rs:185-196 | a Rust node counts if and only if its kind is one of the nine listed, both match-arm kinds among them |
| `CyclomaticClassifier.CppClassifier` | src/metrics/cyclomatic.rs:198-209 | a C++ node counts if and only if its kind is one of the eight listed |
| `CyclomaticClassifier.CppMatchesJavascript` | src/metrics/cyclomatic.rs:203 | C++ counts the JavaScript set, with the conditional expression in place of the ternary |
| `CyclomaticClassifier.JavaClassifier` | src/metrics/cyclomatic.rs:211-222 | a Java node counts if and only if its kind is one of the eight listed |
| `CyclomaticClassifier.NoOpLanguages` | src/metrics/cyclomatic.rs:224 | Kotlin, preprocessor and comment nodes never count, so a default space stays at complexity 1 |
| `SpaceHarness.RunCounts` | src/metrics/cyclomatic.rs:59-102 | after any sequence of effects, cyclomatic has grown by the number of decision points, n by the children's n, and sum by the children's finalized sums, each counted exactly once; max is the larger of the old max and the children's finalized maxima, min the smaller of the old min and their finalized minima |
| `SpaceHarness.ChildMaxAttained` | src/metrics/cyclomatic.rs:59-102 | the children's maximum bounds every finalized child's max and, when positive, is the max of one particular finalized child |
| `SpaceHarness.ChildMinAttained` | src/metrics/cyclomatic.rs:59-102 | the children's minimum is at most every finalized child's min and, when present, is the min of one particular finalized child |
| `SpaceHarness.RunKeepsOpen` | src/metrics/cyclomatic.rs:59-102 | an open space stays open through classifier steps and through merges of open children that are finalized first |
| `SpaceHarness.ApplyCommutes` | src/metrics/cyclomatic.rs:59-102 | any two effects on a space (classifier step, finalize and merge of a child) commute |
| `SpaceHarness.RunOrderIndependent` | src/metrics/cyclomatic.rs:419-463 | any two orders of the same effects, as multisets, give the same record |
| `SpaceHarness.PythonSimpleFunction` | src/metrics/cyclomatic.rs:232-255 | a function with `if`, `and`, `if`, `and` under the unit gives sum 6, average 3, min 1, max 5 |
| `SpaceHarness.PythonOneLevelNesting` | src/metrics/cyclomatic.rs:257-279 | a function with `if` and `for` gives sum 4, average 2, min 1, max 3 |
| `SpaceHarness.RustOneLevelNesting` | src/metrics/cyclomatic.rs:281-307 | a function with `if` and two match arms gives sum 5, average 2.5, min 1, max 4 |
| `SpaceHarness.CSwitch` | src/metrics/cyclomatic.rs:309-343 | three `case`s and a non-counting `default` give sum 5, average 2.5, min 1, max 4 |
| `SpaceHarness.CRealFunction` | src/metrics/cyclomatic.rs:345-375 | two `for`s and an `if` give sum 5, average 2.5, min 1, max 4 |
| `SpaceHarness.CUnitBeforeAndAfter` | src/metrics/cyclomatic.rs:377-463 | the unit's two `if`s before or after the function give the same record: sum 7, average 3.5, min 3, max 4 |
| `SpaceHarness.CUnitBeforeInPlace` | src/metrics/cyclomatic.rs:377-417 | the same scenario run on the in-place records through `Compute`, `ComputeMinmax` and `Merge` gives sum 7, average 3.5, min 3, max 4 |
| `SpaceHarness.JavaSimpleClass` | src/metrics/cyclomatic.rs:465-501 | unit, class and two methods give sum 9, average 2.25, min 1, max 3 |
| `SpaceHarness.JavaRealClass` | src/metrics/cyclomatic.rs:503-554 | unit, class and three methods give sum 11, average 2.2, min 1, max 3 |
| `SpaceHarness.JavaAnonymousClass` | src/metrics/cyclomatic.rs:556-602 | eight spaces, where the anonymous class's methods are spaces of their own, give sum 10, average 1.25, min 1, max 2 |

## Left out

- `Serialize` (src/metrics/cyclomatic.rs:31-43) and `Display` (src/metrics/cyclomatic.rs:45-56) hand the values to serde and to float formatting, which are foreign libraries. Both emit the fields in the order sum, average, min, max.
- f64 semantics are not modelled: rounding, NaN, and the exact value of `f64::MAX`. Every stored value is a whole count, so counts are `nat`, the average is a real quotient, and the min sentinel is `None`.
- The syntax node, `kind_id()` and the conversion from grammar ids to kind enums belong to the parser layer, which is not part of this model. Each language's kinds are an abstract datatype. Kotlin, preprocessor and comment kinds are opaque numbers.
- `has_ancestors` is not part of this model. A Python node carries the query's answer as the boolean `loopElse`, and the upward walk is not modelled.
- The `Checker` trait and the `implement_metric_trait!` macro are not part of this model. Only their observable effect is kept: Kotlin, preprocessor and comment nodes are never decisions.
- The space-tree traversal that calls `compute`, `compute_minmax` and `merge` is not part of this model. `SpaceHarness` only folds over the effects that one space receives, and the test scenarios give the nesting of spaces by hand.
- The test harness `check_metrics` and the parsing of source snippets are not modelled. The scenarios encode the decision kinds that the tests' comments name for each space.
- File-level parallelism and the command line are outside this file and are not modelled.
- `CyclomaticStats.Stats.Merge`: Rust's borrow rules keep `other` apart from `self`. The model allows them to be the same object. In that case the contract still gives the new value from the old one, but it says nothing about `other` afterwards.
