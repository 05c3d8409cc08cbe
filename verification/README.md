# cr-compare in Dafny

`cr-compare.py` compares two runs of Chromium performance benchmarks. Each run is a
directory of Telemetry result files. For every test present in both runs, the tool computes
the mean of each side's samples and decides with a t-test whether the change is
statistically significant. It then labels the change N/A, SAME, FLAKY, SAME?, GOOD or BAD,
and writes one CSV row per test.

This project models the computational core of that script and proves properties of it:

| module | file | models |
|---|---|---|
| `ExtReal` | `extended.dfy` | reals extended with `+inf`, `abs` |
| `Stats` | `stats.dfy` | `compute_mean`, `compute_std_dev`, `compute_std_err` (squared) |
| `TDist` | `tdist.dfy` | the table `t_distribution` and its lookup `t_dist` |
| `Units` | `units.dfy` | `lookup_bigger_is_better` |
| `Classify` | `classify.dfy` | `compute_summary` |
| `Aggregate` | `aggregate.dfy` | the accumulation loop of `load_benchmark_results` |
| `Compare` | `compare.dfy` | the comparison loop of `main`, up to the values of each CSV row |
| `Wrappers` | `wrappers.dfy` | `Option` and `Result` |

Modelling choices:

- Floating-point numbers are `real`. Infinity is explicit in `Ext = Fin(r) | PosInf`.
- No square root is taken. `Stats.Variance` and `Stats.StdErrSquared` are the squares of
  `compute_std_dev` and `compute_std_err`. The significance test `abs(t) > c`, with
  `t = (mean_a - mean_b) / sqrt(se_a^2 + se_b^2)`, is decided as "`c < 0` or
  `(mean_a - mean_b)^2 > c^2 (se_a^2 + se_b^2)`". `Classify.SquaredComparison` proves
  that this agrees with `abs(num / root) > c` for every positive root. An infinite
  standard error makes `t` zero.
- `t_distribution` is held as 32 runs of equal values: 473 numbers after the two `None`
  entries, 475 entries in all. `TDist.TableShape` proves its length and shape.
- `t_dist(df + 1)` with `df = 0` reads the `None` at index 1. Python 2 orders `None` below
  every number, so `abs(t) > None` holds. The model keeps this: two single-sample series
  are always significant (`Classify.TwoSingletonsAreSignificant`).
- An unknown unit makes the source log and `exit()`. The model returns an error result
  (`Units.LookupBiggerIsBetter`). The comparison loop then stops with the rows written so
  far (`Compare.Outcome.Aborted`).
- The result files arrive already decoded, as a sequence in the order the directory walk
  yields them (`Aggregate.ResultFile`). A missing or `null` `values`/`value` field is
  `None`.

Behaviours of the code worth noting:

- A significant change with `abs(diff%) < 0.1` is labelled SAME?, because the SAME rule
  requires the change not to be significant. SAME? therefore carries no lower bound on
  `abs(diff%)`; `Classify.Summary` states the bounds each label does carry.
- In exact arithmetic, two constant series of at least two samples each give N/A whatever
  their means, e.g. `[100]*30` against `[101]*30`, whose standard errors are exactly zero
  (`Classify.NotApplicableIff`). In doubles this needs the running sum to be exact: for
  `[0.1]*3` the sum rounds, the mean is not `0.1`, the standard error is a tiny non-zero
  number, and the pair is compared instead of being N/A.
- Swapping baseline and actual keeps the significance flag and whether the label is N/A
  (`Classify.SwapKeepsSignificance`). It can change the label, because the percentage is
  relative to the baseline mean: `[999, 1000]` against `[1000, 1001]` is FLAKY and the
  swapped pair is SAME (`Classify.SwapCanChangeLabel`).
- With a zero baseline mean the percentage is `+inf`. SAME and SAME? are then impossible,
  but N/A is not (`Classify.ZeroBaselineMean`).

## Model

| member | source | states |
|---|---|---|
| Stats.ComputeMean | cr-compare.py:79-85 | `compute_mean`'s loop: 0 for an empty series; otherwise the mean times the length is the left-to-right sum of the samples |
| Stats.MeanProperties | cr-compare.py:79-85 | the mean of an empty series is 0 and of a singleton its element; it does not depend on the order of the samples |
| Stats.MeanBounds | cr-compare.py:79-85 | the mean of a non-empty series lies within any bounds on its samples |
| Stats.SumPermutation | cr-compare.py:82-84 | the accumulated sum is the same for any permutation of the series |
| Stats.ComputeVariance | cr-compare.py:87-94 | `compute_std_dev`'s loop, squared: infinite exactly for at most one sample; otherwise the variance times `n - 1` is the sum of squared deviations from the mean |
| Stats.VarianceOfShortSeries | cr-compare.py:88-89 | a series of at most one sample, and only such a series, has infinite deviation |
| Stats.SquaredDeviationsZero | cr-compare.py:91-93 | the squared deviations from `m` sum to zero exactly when every sample equals `m` |
| Stats.VarianceZeroIffConstant | cr-compare.py:87-94 | with two or more samples the variance is finite and non-negative, and zero exactly when all samples are equal |
| Stats.PairStatistics | cr-compare.py:79-94 | a two-sample series has the midpoint as mean and the two squared deviations from it as variance |
| Stats.StdErrSquared | cr-compare.py:97-99 | the squared standard error of a non-empty series is infinite exactly for one sample and otherwise non-negative |
| TDist.RunsTotal | cr-compare.py:72 | the table holds 473 numbers after its two `None` entries |
| TDist.EntriesShape | cr-compare.py:72 | the entries spelled out by strictly descending non-empty runs are bounded by the first run and the floor, never increase, and end with the last run's value |
| TDist.TableShape | cr-compare.py:72 | 475 entries: `None` at 0 and 1, then numbers between 1.96 and 12.71 that never increase, the last being 1.96 |
| TDist.CriticalValueShape | cr-compare.py:74-77 | `t_dist(n)` is `None` exactly for `n < 2`; otherwise it lies between 1.96 and 12.71, does not grow with `n`, and is 1.96 from the last index on |
| Units.LookupBiggerIsBetter | cr-compare.py:101-107 | true exactly for the four bigger-is-better units, false exactly for the six smaller-is-better ones, and an unknown-unit error carrying the unit otherwise |
| Units.UnitsDisjoint | cr-compare.py:102-105 | no unit is in both lists, so the order of the two tests does not matter |
| Classify.DiffPercentage | cr-compare.py:119-123 | the percentage is `+inf` exactly when the baseline mean is zero |
| Classify.Summary | cr-compare.py:109-133 | the flag holds exactly for SAME?, GOOD and BAD; N/A exactly when both standard errors are zero; otherwise the flag is the t-test; SAME has `abs(diff%) < 0.1`, FLAKY not; SAME? has `abs(diff%) < 1`, GOOD and BAD not; GOOD moves in the unit's better direction, BAD does not |
| Classify.StdErrZeroIffConstant | cr-compare.py:87-99 | the standard error is zero exactly for a constant series of at least two samples |
| Classify.NotApplicableIff | cr-compare.py:109-115 | the summary is `('N/A', False)` exactly when both series have at least two samples and are constant; a singleton never gives N/A |
| Classify.SquaredComparison | cr-compare.py:116-118 | for a positive root, `abs(num / root) > c` holds exactly when `c < 0` or `num^2 > c^2 root^2`, the form the model decides |
| Classify.TExceedsIsTTest | cr-compare.py:116-118 | with finite standard errors whose squares sum to `root^2`, the model's test holds exactly when `abs((mean_a - mean_b) / root) > c` |
| Classify.TExceedsSymmetric | cr-compare.py:116 | the t-test outcome is the same with the two series exchanged |
| Classify.SignificantSymmetric | cr-compare.py:116-118 | statistical significance does not depend on which series is the baseline |
| Classify.SwapKeepsSignificance | cr-compare.py:109-118 | exchanging baseline and actual keeps the significance flag and whether the label is N/A |
| Classify.ZeroBaselineMean | cr-compare.py:119-129 | with a zero baseline mean the label is N/A, FLAKY, GOOD or BAD |
| Classify.FlipDirection | cr-compare.py:131-133 | flipping the unit's direction swaps GOOD and BAD when the means differ and changes nothing else; with equal means it changes nothing and the label is never GOOD |
| Classify.TwoSingletonsAreSignificant | cr-compare.py:117-118 | two one-sample series are always significant and labelled SAME?, GOOD or BAD |
| Classify.SwapCanChangeLabel | cr-compare.py:119-128 | `[999, 1000]` against `[1000, 1001]` is `('FLAKY', False)`, and the swapped pair is `('SAME', False)` |
| Aggregate.AddPage | cr-compare.py:153-168 | one record: its test becomes present, other tests are untouched, an existing entry gains the record's samples, and a new one takes the record's units |
| Aggregate.Keyed | cr-compare.py:152-153 | each record of a file is paired with its test name `benchmark/name/page_id`, in order |
| Aggregate.AddPagesIsAddRecords | cr-compare.py:152-168 | the inner loop folds the file's records, keyed by test name, in order |
| Aggregate.AddFilesIsAddRecords | cr-compare.py:145-168 | the two nested loops fold the records of all files in file order |
| Aggregate.AddRecordsKeys | cr-compare.py:152-158 | after the fold a test is present exactly when it was before or some record names it |
| Aggregate.AddRecordsExisting | cr-compare.py:161-166 | an entry present before keeps its units and gains the samples of its records, in record order |
| Aggregate.AddRecordsNew | cr-compare.py:154-166 | a new entry takes its units from its first record and gathers the samples of all its records |
| Aggregate.AddRecordsContents | cr-compare.py:152-168 | the three facts above together |
| Aggregate.LoadBenchmarkResultsContents | cr-compare.py:142-169 | the result has exactly the test names of the records read; each has the units of its first record and all its samples in file and record order |
| Compare.StrLessIrreflexive | cr-compare.py:210 | no test name sorts before itself |
| Compare.StrLessTransitive | cr-compare.py:210 | the string order used by `sort` is transitive |
| Compare.StrLessTotal | cr-compare.py:210 | of two distinct test names exactly one sorts first |
| Compare.Insert | cr-compare.py:208-210 | inserting a new name into a strictly sorted sequence keeps it strictly sorted and adds exactly that name |
| Compare.SortedCommonTests | cr-compare.py:208-210 | the test names present in both runs, each once, in ascending order |
| Compare.Selected | cr-compare.py:211-221 | the tests the loop does not skip are exactly those with samples on both sides, still in ascending order |
| Compare.CompareTestsSkip | cr-compare.py:214-221 | a test without samples on both sides adds no row and is not selected |
| Compare.CompareTestsVisit | cr-compare.py:222-265 | a test with samples on both sides either stops the loop on its unknown unit with no rows, or puts its row in front of the rows of the later tests |
| Compare.CompareTestsCount | cr-compare.py:211-223 | at most one row per selected test; a completed loop has one for each, and a stopped one failed, with that error, on the unit of the first selected test without a row |
| Compare.CompareTestsOrder | cr-compare.py:211-265 | the `i`-th row is the row of the `i`-th selected test |
| Compare.CompareTestsRows | cr-compare.py:211-264 | one row per non-skipped test, in order, each with that test's summary and columns, until the first unknown unit; the loop completes exactly when no such test has one |
| Compare.AbortedPrefix | cr-compare.py:211-223 | the rows of a stopped run are exactly the compared tests sorting before the one whose unit failed |
| Compare.CompareRuns | cr-compare.py:208-265 | rows in strictly ascending test-name order, each for a test with samples in both runs and carrying its summary; a completed run covers every such test; a stopped run failed on one such test's unit and covers exactly the tests before it |
| Compare.ReportedDiffMeaning | cr-compare.py:258-263 | the diff column is `+inf` exactly for a zero baseline mean; otherwise it is positive exactly for an improvement, zero exactly for equal means, and as large in magnitude as the percentage the summary uses |
| Compare.GoodAndBadRows | cr-compare.py:258-264 | a GOOD row reports an improvement of at least 1% or `+inf`; a BAD row with a non-zero baseline mean reports at least 1% the wrong way |

## Left out

- Locating the Chromium checkout and `call_command` (cr-compare.py:1-70): environment and process handling that the comparison does not use.
- `find_json_files`, opening files, and JSON decoding with its skip on `ValueError`. This is I/O. The model receives the decoded files in walk order.
- A missing `benchmark_name`, `per_page_values`, `name`, `page_id` or `type` key raises `KeyError` in the source, and so does a missing `units` on the first record of a test; later records of a test may omit `units`. The model's records always carry these fields.
- Rendering a numeric `page_id` with `%s`: page ids are strings in the model.
- The `url` annotation of an entry and the console line built from it. They only feed printing and plot file names.
- Option parsing, the temporary output file, the CSV header and writer, `print`, logging, and plotting. This is I/O.
- The standard-deviation, min and max columns. These need a square root or are plain list operations; the summary does not depend on them.
- Splitting the test name into its benchmark and page columns. `Compare.Row` keeps the full test name.
- IEEE-754 arithmetic: rounding, overflow, NaN and signed zeros are not modelled; all values are exact reals.
- Classify.NotApplicableIff: holds over exact reals only. Line 114 compares a rounded float with 0, so in doubles a constant series whose running sum rounds (such as `[0.1]*3`) has a small non-zero standard error and is not N/A.
- Classify.Summary: requires both series to be non-empty. `compute_std_err([])` raises `ZeroDivisionError`, and `main` never calls `compute_summary` with an empty series.
- Negative indices into `t_distribution` cannot occur, since `df + 1 >= 1` for non-empty series.
- Compare.CompareRuns: an unknown unit is an `Aborted` outcome holding the rows before it. Whether the source's CSV file is flushed at `exit()` is not modelled.
