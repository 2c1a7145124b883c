# Portfolio analytics core, modelled in Dafny

This project models the deterministic part of an investment-research
assistant. A user's portfolio is a list of holdings: a symbol, a share
count, an optional price and an optional asset class. Around a
language-model explainer, the assistant runs a set of plain, rule-based
steps. This model covers those steps:

- **Portfolio statistics** (`Stats`, `compute_stats.dfy`). These are the
  total value, then one row per holding sorted by weight, then one bucket
  per asset class sorted by weight, then the five top symbols and the
  top-1 and top-3 concentration. `StatsOf` is the specification and
  `ComputePortfolioStats` is the step-by-step computation: it sorts arrays
  in place and fills a dictionary in a loop.
- **Snapshot diff** (`Diff`, `portfolio_diff.dfy`). This compares two
  statistics snapshots: the symbols added, the symbols removed, and the
  largest weight moves above a threshold. It also renders the diff as a
  short text section.
- **Risk classification** (`Risk`, `risk_agent.dfy`). Three threshold
  rules each contribute a risk factor, and the number of factors gives the
  risk level.
- **Diversifier candidates** (`Diversifiers`,
  `diversifier_candidates.dfy`). The risk level selects three categories
  of a fixed menu. Each category contributes the first ticker that the
  portfolio does not already hold.
- **Deep research evidence** (`DeepResearch`, `deep_research.dfy`). This
  picks the research scope: up to five top holdings and three
  diversifiers. It fetches news per symbol through a provider, collects
  the results into per-symbol records, counts articles and gathers the
  fetch errors. It then returns an evidence bundle with an empty research
  brief.
- **Price refresh** (`PriceUpdate`, `price_update.dfy`). Every holding
  that is not cash-like gets the previous close of its symbol when the
  market-data service returns one.

Supporting modules:

- `Seqs`: filters, maps, sums, slicing, de-duplication.
- `Strings`: trimming (the ECMAScript white-space and line-terminator
  set), ASCII upper-casing, substring search, string order by Unicode scalar value,
  rounding and integer printing.
- `OrderedMaps`: an insertion-ordered dictionary, for a JavaScript `Map`
  or a plain-object record.
- `StableSort`: a stable insertion sort, both as a function and in place
  on an array. This is the behaviour `Array.prototype.sort` promises.
- `PortfolioTypes`, `ResearchTypes`, `ExplainTypes`: the record types.

Computations that the source writes as loops over mutable locals are
methods with loop invariants. Each one is proved equal to a specification
function, and the lemmas state what that function means. Some source
functions only compose expressions. These are Dafny functions.

Where the source uses an I/O source, it becomes a parameter:

- The news provider is a function from (symbol, days, limit) to either
  articles or a thrown message.
- The price service gives one outcome per holding.
- The current time (`asOf`) is a string argument.

The source sometimes computes a value and never uses it. Two cases matter
here:

- `deepResearchAgent` merges caller `fetchOpts` into defaults
  (7 days, 3 per symbol, concurrency 3). It then calls
  `buildEvidenceBundle` with the literal values 7, 3 and 3. In
  `DeepResearch.DeepResearchAgent` the merged options therefore do not
  reach the result.
- `diffFromStats` with no previous snapshot still reports the
  threshold and top-N it would have used.

## Model

| member | source | states |
|---|---|---|
| Stats.StatsOf | src/tools/computeStats.ts:3-59 | An empty holdings list fails with "No holdings provided", and only an empty list fails |
| Stats.ComputePortfolioStats | src/tools/computeStats.ts:3-59 | The in-place computation (array sorts, class dictionary filled in a loop) returns exactly the specified statistics |
| Stats.BuildClassTotals | src/tools/computeStats.ts:29-35 | The loop over holdings fills the class dictionary with each bucket's summed value, buckets in first-appearance order |
| Stats.Rows | src/tools/computeStats.ts:14-23 | One row per holding, in input order, with value `shares * (price ?? 0)` and weight value/total |
| Stats.ClassRows | src/tools/computeStats.ts:37-41 | One class row per dictionary entry, in dictionary order, carrying its value and value/total |
| Stats.RowsValueSum | src/tools/computeStats.ts:8-23 | The row values add up to the total value |
| Stats.RowsWeightSum | src/tools/computeStats.ts:14-23 | With a non-zero total, the row weights add up to total/total |
| Stats.WeightsSum | src/tools/computeStats.ts:14-23 | Rows whose weight is value/total have weights summing to their value sum over the total |
| Stats.HeavierRowOrder | src/tools/computeStats.ts:26 | The weight-descending comparator is a strict weak order |
| Stats.HeavierClassOrder | src/tools/computeStats.ts:43 | The class comparator is a strict weak order |
| Stats.BySymbolSpec | src/tools/computeStats.ts:14-26 | `bySymbol` has one row per holding (duplicates are not merged), is a permutation of the holdings' rows, is sorted by weight descending, and rows of equal weight keep input order |
| Stats.BySymbolRowsFromHoldings | src/tools/computeStats.ts:14-23 | Every row of `bySymbol` is the row of some holding |
| Stats.SortedRowsFromHoldings | src/tools/computeStats.ts:14-26 | Every row of the weight-sorted `bySymbol` is the row of some holding |
| Stats.BySymbolSums | src/tools/computeStats.ts:8-26 | `bySymbol` values sum to `totalValue`; with a non-zero total the weights sum to 1 |
| Stats.ClassTotalsKeys | src/tools/computeStats.ts:29-35 | The class dictionary's keys are the distinct buckets (a missing class is "UNKNOWN") in order of first appearance |
| Stats.ClassTotalsGet | src/tools/computeStats.ts:29-35 | Each bucket holds the sum of the values of the holdings in it |
| Stats.AddToSum | src/tools/computeStats.ts:33-34 | Adding a value into a bucket raises the sum over all buckets by exactly that value |
| Stats.ClassTotalsSum | src/tools/computeStats.ts:29-35 | The bucket values add up to the total value |
| Stats.ClassRowsValueSum | src/tools/computeStats.ts:37-41 | Class rows keep the dictionary's value sum |
| Stats.ClassRowsWeightSum | src/tools/computeStats.ts:37-41 | With a non-zero total, class weights sum to the dictionary sum over the total |
| Stats.ClassRowsCount | src/tools/computeStats.ts:37-41 | A class occurs in the class rows once if it is a dictionary key, otherwise not at all |
| Stats.ClassTotalsHasKey | src/tools/computeStats.ts:29-35 | A bucket exists exactly when some holding falls in it |
| Stats.ByAssetClassCount | src/tools/computeStats.ts:29-43 | After sorting, each bucket still appears once exactly when some holding is in it |
| Stats.ByAssetClassValue | src/tools/computeStats.ts:29-43 | Each sorted class row carries the summed value of its bucket's holdings |
| Stats.ClassRowValue | src/tools/computeStats.ts:37-41 | Each class row carries the dictionary value of its bucket |
| Stats.ByAssetClassWeights | src/tools/computeStats.ts:37-43 | After the sort every class row still has weight value/total, and rows of equal weight keep their dictionary order |
| Stats.ByAssetClassSpec | src/tools/computeStats.ts:29-43 | `byAssetClass` has exactly one row per bucket present; each row's value is the sum over its holdings and its weight is value/total; rows are sorted by weight descending, and rows of equal weight keep their dictionary order (stable sort) |
| Stats.ByAssetClassSums | src/tools/computeStats.ts:29-43 | Class values sum to `totalValue`; with a non-zero total class weights sum to 1 |
| Stats.BySymbolFirstIsMax | src/tools/computeStats.ts:26 | The first row of `bySymbol` is at least as heavy as the row of any holding |
| Stats.Top1IsMax | src/tools/computeStats.ts:45 | `concentrationTop1` is the first row's weight and the largest weight of any holding |
| Stats.TopPrefixes | src/tools/computeStats.ts:45-50 | `concentrationTop3` sums the first min(3, n) weights; `topSymbols` lists the first min(5, n) symbols in order |
| Stats.BySymbolNonNegative | src/tools/computeStats.ts:14-23 | With no negative values and a positive total, every symbol weight is non-negative |
| Stats.ByAssetClassNonNegative | src/tools/computeStats.ts:37-41 | With no negative values and a positive total, every class weight is non-negative |
| Stats.ConcentrationBounds | src/tools/computeStats.ts:45-48 | With no negative values and a positive total, every weight lies in [0, 1] and 0 <= top-1 <= top-3 <= 1 |
| Stats.WeightShareBounds | src/tools/computeStats.ts:45-48 | Non-negative weights summing to 1 each lie in [0, 1], and 0 <= first weight <= sum of the first three <= 1 |
| StableSort.SortInPlace | src/tools/computeStats.ts:26 | Sorting the array in place leaves exactly the stable sort of its old contents |
| StableSort.ShiftIntoPlace | src/tools/computeStats.ts:43 | One insertion step places the next element stably into the sorted prefix and leaves the rest alone |
| StableSort.SortPermutation | src/tools/computeStats.ts:26 | Sorting is a permutation |
| StableSort.SortSorted | src/tools/computeStats.ts:26 | With a strict weak order, the result is sorted |
| StableSort.SortStable | src/tools/computeStats.ts:26 | Elements that the comparator does not separate keep their relative order |
| StableSort.SortSum | src/tools/computeStats.ts:43 | Sorting keeps any sum over the elements |
| Diff.BuildWeightMap | src/domain/portfolioDiff.ts:31-38 | The loop of `map.set` calls builds the specified weight map |
| Diff.Symbols | src/domain/portfolioDiff.ts:33-34 | The snapshot's symbols in normalised (trimmed, upper-cased) form, in row order |
| Diff.WeightMapKeys | src/domain/portfolioDiff.ts:31-38 | The weight map has one key per listed normalised symbol, in first-appearance order, and a key exactly for each listed symbol |
| Diff.WeightMapLastWins | src/domain/portfolioDiff.ts:31-37 | For a repeated normalised symbol the map keeps the weight of its last row |
| Diff.Missing | src/domain/portfolioDiff.ts:68-69 | Keeps exactly the elements of the first list not in the second, without introducing repeats |
| Diff.CollectMissing | src/domain/portfolioDiff.ts:68-69 | The push loop computes the missing elements |
| Diff.Moves | src/domain/portfolioDiff.ts:76-85 | Every recorded move is the symbol's change (absent weight = 0) and reaches the threshold; every symbol whose move reaches the threshold is recorded |
| Diff.CollectMoves | src/domain/portfolioDiff.ts:76-85 | The loop over all symbols computes exactly those moves |
| Diff.SortedMissing | src/domain/portfolioDiff.ts:65-72 | Collecting the missing symbols and sorting them in place gives the sorted missing list |
| Diff.TopMovesOfMaps | src/domain/portfolioDiff.ts:74-92 | The moves loop over the union of keys, the in-place sort and the slice give the kept moves |
| Diff.DiffOf | src/domain/portfolioDiff.ts:40-57 | `meta` reports the threshold and top-N used (defaults 0.02 and 5); without a previous snapshot every list is empty |
| Diff.DiffFromStats | src/domain/portfolioDiff.ts:40-95 | The step-by-step diff equals the specified diff |
| Diff.LexLessOrder | src/domain/portfolioDiff.ts:71-72 | The string order used for the sorts, by Unicode scalar value, is a strict weak order |
| Diff.NoDupsPermutation | src/domain/portfolioDiff.ts:71-72 | A permutation of a repeat-free list is repeat-free |
| Diff.SortStrictlyAscending | src/domain/portfolioDiff.ts:71-72 | Sorting a repeat-free list gives a strictly ascending list with the same elements |
| Diff.AddedRemovedSpec | src/domain/portfolioDiff.ts:59-72 | `added` holds exactly the symbols listed now and not before, `removed` the converse; both strictly ascending and disjoint |
| Diff.KeyListed | src/domain/portfolioDiff.ts:31-38 | A symbol is a key of the weight map exactly when it is listed in the snapshot |
| Diff.AddedOfListed | src/domain/portfolioDiff.ts:59-72 | A symbol is added exactly when listed in the new snapshot and not in the old one; the list is strictly ascending |
| Diff.MovesDistinct | src/domain/portfolioDiff.ts:74-85 | Walking a repeat-free symbol list, such as the `Set` of all symbols, reports each symbol at most once |
| Diff.MovesOfSpec | src/domain/portfolioDiff.ts:74-85 | The moves are exactly the changes, over the symbols of either snapshot, whose size reaches the threshold; no symbol appears twice |
| Diff.TopMoves | src/domain/portfolioDiff.ts:87-92 | The kept moves come from the moves, are ordered by size descending, and number at most top-N |
| Diff.TopChangesDistinct | src/domain/portfolioDiff.ts:87-92 | Sorting and cutting moves with distinct symbols leaves the symbols distinct |
| Diff.TopMovesRanking | src/domain/portfolioDiff.ts:87-92 | A move left out is no larger than any move kept, and nothing is left out while fewer than top-N are kept |
| Diff.WeightChangesSpec | src/domain/portfolioDiff.ts:74-92 | Each reported change has the previous and next map weights (absent = 0), delta = next - prev, size at least the threshold, a symbol of either snapshot; sorted by size and at most top-N; no symbol appears twice |
| Diff.TopMovesOf | src/domain/portfolioDiff.ts:74-92 | Each kept move has the weights of the two maps (absent = 0), delta = next - prev, a key of either map, size at least the threshold; sorted by size, at most top-N; no symbol appears twice |
| Diff.TopMovesListed | src/domain/portfolioDiff.ts:74-85 | The symbol of every kept move is listed in one of the two snapshots |
| Diff.WeightChangesRanking | src/domain/portfolioDiff.ts:74-92 | Any symbol whose move reaches the threshold is reported or is outranked by every reported move |
| Diff.MissingAll | src/domain/portfolioDiff.ts:68-69 | Nothing is missing when every element is present |
| Diff.MovesSame | src/domain/portfolioDiff.ts:76-85 | Comparing a map with itself gives no move under a positive threshold |
| Diff.SelfDiffEmpty | src/domain/portfolioDiff.ts:59-92 | Diffing a snapshot against itself reports nothing under a positive threshold |
| Diff.FmtPct | src/domain/portfolioDiff.ts:97-99 | The percentage is the rounded value of x*100 followed by "%" and never starts with "+" |
| Diff.SignedPct | src/domain/portfolioDiff.ts:118 | The signed delta starts with "+" exactly when delta >= 0 |
| Diff.ChangeLineShape | src/domain/portfolioDiff.ts:117-121 | A move line starts with the bullet and the symbol and ends with the bracketed signed delta |
| Diff.Join | src/domain/portfolioDiff.ts:129 | A non-empty join starts with its first element |
| Diff.DiffSection | src/domain/portfolioDiff.ts:101-130 | No diff renders the no-prior-snapshot sentinel; the no-material-changes sentinel appears exactly when all three lists are empty; otherwise the text starts with "-" |
| Diff.BuildDiffSection | src/domain/portfolioDiff.ts:101-130 | The step-by-step rendering equals the specified text |
| Diff.CollectLines | src/domain/portfolioDiff.ts:106-123 | The pushes collect exactly the specified lines |
| Diff.DiffLinesCount | src/domain/portfolioDiff.ts:106-123 | One line per non-empty list plus a header and at most five move lines; never more than eight lines |
| Diff.ShownPrefixes | src/domain/portfolioDiff.ts:106-116 | The Added and Removed lines are present exactly when their list is non-empty and name its first min(5, n) symbols in order |
| Diff.NoPrevRendersNoChanges | src/domain/portfolioDiff.ts:101-127 | A diff computed without a previous snapshot renders as the no-material-changes sentinel |
| Strings.Trim | src/domain/portfolioDiff.ts:28 | The result is a slice of the input with only white space removed at both ends and none left at either end |
| Strings.ToUpper | src/domain/portfolioDiff.ts:28 | Same length; each ASCII lower-case letter becomes upper-case and every other character stays |
| Strings.NormalizeIdempotent | src/agents/deepResearchAgent.ts:173-175 | Normalising a symbol twice is the same as once |
| Strings.ContainsIffOccurs | src/agents/riskAgent.ts:9 | `includes` holds exactly when the substring occurs at some position |
| Strings.LexLessTotal | src/domain/portfolioDiff.ts:71 | Distinct strings are ordered one way or the other |
| Strings.LexLessTransitive | src/domain/portfolioDiff.ts:72 | The string order is transitive |
| Strings.Round | src/domain/portfolioDiff.ts:98 | The rounded integer is within half of its argument, halves rounding up |
| Strings.IntToString | src/domain/portfolioDiff.ts:98 | The decimal text of an integer starts with "-" exactly for negatives and never with "+" |
| Strings.NatToStringRoundTrip | src/domain/portfolioDiff.ts:98 | Reading back the printed digits gives the number |
| OrderedMaps.Put | src/domain/portfolioDiff.ts:34 | Setting a key adds it at the end only if new, maps it to the value and leaves other keys alone |
| OrderedMaps.PutAllKeys | src/agents/deepResearchAgent.ts:163-167 | Setting a list of entries gives the distinct keys in first-appearance order |
| OrderedMaps.PutAllGet | src/agents/deepResearchAgent.ts:163-167 | Each key maps to the value of its last entry |
| OrderedMaps.PutAllDistinct | src/agents/deepResearchAgent.ts:163-167 | With distinct keys the record is the entry list itself |
| Seqs.Uniq | src/agents/deepResearchAgent.ts:177-179 | The result has no repeats, every element of the result is in the input, and every input element is in the result |
| Seqs.UniqFirstOccurrenceOrder | src/agents/deepResearchAgent.ts:177-179 | De-duplication keeps first occurrences in their original order |
| Seqs.SliceTo | src/agents/deepResearchAgent.ts:77 | `slice(0, n)` is a prefix of length min(n, len), or len + n for negative n |
| Seqs.Filter | src/agents/deepResearchAgent.ts:79 | The filter is no longer than its input; every kept element is in the input and satisfies the predicate; every input element that satisfies it is kept |
| Seqs.FilterInOrder | src/agents/deepResearchAgent.ts:79 | The k-th kept element is the input element at position idx[k], and these positions increase strictly with k, so the filter keeps input order |
| Risk.RiskAgent | src/agents/riskAgent.ts:3-33 | Fails with "Stats missing" exactly when the statistics are absent; otherwise sets the factors of the rules that fire and the level for their number, changing nothing else |
| Risk.FactorsSpec | src/agents/riskAgent.ts:12-22 | Each factor is present exactly when its rule fires (top-1 > 20%, top-3 > 50%, equity > 80%), in rule order, at most three |
| Risk.FactorsInRuleOrder | src/agents/riskAgent.ts:12-22 | Every factor belongs to one of the three rules, and the factors appear strictly in rule order, so none repeats |
| Risk.LevelSpec | src/agents/riskAgent.ts:24-26 | HIGH exactly when two or more rules fire, MEDIUM exactly when one does, LOW when none does |
| Risk.EquitySplit | src/agents/riskAgent.ts:8-10 | With a non-zero total, the equity and non-equity class weights of computed statistics add up to 1 |
| Risk.EquityWeightBounds | src/agents/riskAgent.ts:8-10 | With no negative values and a positive total, the equity weight lies in [0, 1] |
| Risk.DominantPositionIsHigh | src/agents/riskAgent.ts:14-26 | A single position above half of a portfolio without negative values makes the level HIGH |
| Diversifiers.CategoriesForRisk | src/agents/diversifierCandidatesAgent.ts:59-71 | Three distinct categories for every risk level, an absent level treated as MEDIUM |
| Diversifiers.FindMenu | src/agents/diversifierCandidatesAgent.ts:110 | Finds a menu row of the category exactly when one exists |
| Diversifiers.FindMenuFirst | src/agents/diversifierCandidatesAgent.ts:110 | The row found is the first row of its category: no earlier row has that category |
| Diversifiers.FirstNotHeld | src/agents/diversifierCandidatesAgent.ts:81-85 | No ticker is found exactly when every ticker's normalised form is held |
| Diversifiers.FirstNotHeldIsFirst | src/agents/diversifierCandidatesAgent.ts:81-85 | A ticker found is the earliest one not held |
| Diversifiers.PickFirstNotHeld | src/agents/diversifierCandidatesAgent.ts:77-88 | Returns a listed ticker: the earliest not held, or the first one when all are held |
| Diversifiers.MenuTickersPresent | src/agents/diversifierCandidatesAgent.ts:11-47 | Every menu row offers at least one ticker |
| Diversifiers.CategoriesHaveMenus | src/agents/diversifierCandidatesAgent.ts:108-113 | Every category a risk level selects has a menu row, so the "No menu found" error is never raised |
| Diversifiers.CandidatesForSpec | src/agents/diversifierCandidatesAgent.ts:108-123 | When every category has a row, the mapping succeeds with one candidate per category, in order, from that category's row |
| Diversifiers.CandidateFacts | src/agents/diversifierCandidatesAgent.ts:115-121 | Candidate i carries category i, its row's rationale and the row's first ticker not held |
| Diversifiers.DiversifierCandidatesAgent | src/agents/diversifierCandidatesAgent.ts:94-126 | Never fails; returns three candidates whose categories are, in order, the categories chosen for the risk level |
| Diversifiers.AgentSpec | src/agents/diversifierCandidatesAgent.ts:94-126 | The agent always succeeds with exactly three candidates, one per selected category, each from its menu row |
| Diversifiers.DependsOnlyOnHeldSet | src/agents/diversifierCandidatesAgent.ts:97-105 | The candidates depend only on the risk level and the set of normalised held symbols |
| DeepResearch.ComputeResearchScope | src/agents/deepResearchAgent.ts:75-87 | At most five holding symbols and at most three diversifier tickers, none of them empty |
| Strings.NormalizeSymbolSpec | src/agents/deepResearchAgent.ts:173-175 | The normalised symbol is no longer than the input; it is empty exactly when the input is all trim space; it neither starts nor ends with trim space; it holds no ASCII lower-case letter |
| DeepResearch.MappedNormalized | src/agents/deepResearchAgent.ts:78 | Every mapped symbol is in normalised form |
| DeepResearch.ScopeHoldingsSpec | src/agents/deepResearchAgent.ts:76-79 | At most five holding symbols, each non-empty and normalised, exactly the non-empty normalised forms of the first five top symbols |
| DeepResearch.NonBlankOfNormalized | src/agents/deepResearchAgent.ts:76-84 | Dropping the empty entries of normalised symbols keeps exactly the non-empty ones, each normalised, never lengthening the list |
| DeepResearch.ScopeTickersSpec | src/agents/deepResearchAgent.ts:81-84 | At most three tickers, each non-empty and normalised, exactly the non-empty normalised tickers of the first three candidates |
| DeepResearch.FetchOneSymbol | src/agents/deepResearchAgent.ts:147-161 | Keeps the symbol; no error exactly when the provider returns articles, which pass through; a thrown message becomes the error with no articles |
| DeepResearch.ResultsFor | src/agents/deepResearchAgent.ts:106-120 | One fetch result per symbol, in order |
| DeepResearch.ResultsToRecord | src/agents/deepResearchAgent.ts:163-167 | The assignment loop builds the specified record |
| DeepResearch.ResultKeys | src/agents/deepResearchAgent.ts:165 | The record entries are keyed by the results' symbols |
| DeepResearch.RecordSpec | src/agents/deepResearchAgent.ts:163-167 | The record's keys are the distinct symbols in first-appearance order, and a repeated symbol keeps the articles of its last result |
| DeepResearch.CountArticles | src/agents/deepResearchAgent.ts:169-171 | Every entry's article count is at most the total, and the total is 0 exactly when every entry is empty |
| DeepResearch.RecordCountDistinct | src/agents/deepResearchAgent.ts:169-171 | With distinct symbols, the article count of the record is the sum over the results |
| DeepResearch.ErrorsAppend | src/agents/deepResearchAgent.ts:128-130 | The errors of two result lists are the errors of each, in order |
| DeepResearch.ErrorsSpec | src/agents/deepResearchAgent.ts:128-130 | One error per result with a non-empty error message, and exactly those results |
| DeepResearch.ErrorsForSymbols | src/agents/deepResearchAgent.ts:128-130 | (s, m) is an error exactly when s was fetched and the provider threw the non-empty message m |
| DeepResearch.RecordForSymbols | src/agents/deepResearchAgent.ts:122-123 | The record of fetched symbols has their distinct names as keys and each maps to its fetched articles |
| DeepResearch.RecordGet | src/agents/deepResearchAgent.ts:122-123 | A fetched symbol's record entry holds the articles the provider returns for it |
| DeepResearch.BuildEvidenceBundle | src/agents/deepResearchAgent.ts:89-145 | The step-by-step bundle equals the specified bundle |
| DeepResearch.BundleRecordsSpec | src/agents/deepResearchAgent.ts:119-144 | The bundle echoes time, window and limit and reports provider "polygon"; its records are keyed by the distinct scope symbols with their articles; `fetchedSymbols` holds each scope symbol once |
| DeepResearch.BundleErrorsSpec | src/agents/deepResearchAgent.ts:128-130 | Errors list holdings errors then diversifier errors; (s, m) appears exactly when s is in scope and the provider threw non-empty m |
| DeepResearch.BundleCountSpec | src/agents/deepResearchAgent.ts:126 | With repeat-free scope lists, `totalArticles` counts every fetched article |
| DeepResearch.DeepResearchAgent | src/agents/deepResearchAgent.ts:29-70 | The agent returns the specified result whatever `fetchOpts` it is given |
| DeepResearch.DeepResearchSpec | src/agents/deepResearchAgent.ts:35-67 | The brief echoes the scope, window 7 and limit 3, with every content list empty; the bundle is built with window 7 and limit 3 |
| PriceUpdate.UpdateHoldingsPrices | src/tools/marketData/priceUpdateTool.ts:8-34 | One row out per row in, in order; cash-like rows unchanged; otherwise a returned close replaces the price, a null close or a failed fetch keeps it; symbol, shares and class never change |
| PriceUpdate.RepricedIdempotent | src/tools/marketData/priceUpdateTool.ts:17-30 | Repricing twice with the same outcome changes nothing more |
| PriceUpdate.NoCloseKeepsHoldings | src/tools/marketData/priceUpdateTool.ts:17-30 | When no fetch returns a close, repricing every holding gives back the input list |

## Left out

- Concurrency. The news fetches run through a concurrency limiter and are
  awaited together. The model fetches in list order, which gives the same
  result for a provider that is deterministic per request.
- The pause between price requests (`delayMs`, `sleep`). It only affects
  timing.
- The clock. `asOf` (`new Date().toISOString()`) is an argument.
- The market-data and news clients. These are `fetchPrevClose`, the
  Polygon news provider, and `PolygonNewsProvider` as the default provider.
  Each becomes an oracle parameter, and the clients' own source is not
  part of this model.
- `err?.message ?? String(err)`. The provider outcome carries the message
  text directly.
- Floating point.
  - Weights and values are exact reals.
  - When the total value is 0, the source divides by zero and gets a
    NaN or infinite weight. The model uses weight 0. So with a zero
    total the model keeps the input order and reports top-1 and top-3 as
    0. The source ranks an infinite weight first and can report a
    different risk level. For example, holdings of -1 and 1 share at
    price 10 give LOW in the model and MEDIUM in the source.
  - NaN comparisons are not modelled.
- Number formatting. `Math.round` is modelled on reals, with halves
  rounding up. Number-to-string is modelled for integers only.
- Diff.FmtPct: always prints plain decimal digits. JavaScript prints an
  integer of magnitude 1e21 or more in exponent form (`1e+21%`). Such a
  percentage needs a weight of 1e19 or more. That can happen when
  mixed-sign values make the total value small, and the model does not
  capture it.
- Key order of plain objects. JavaScript lists integer-like keys first.
  The model keeps insertion order for every key.
- Unicode. `trim` removes the full ECMAScript set of white-space and
  line-terminator characters (`Strings.IsTrimSpace`). `toUpperCase` is
  modelled on ASCII letters only.
- Diff.LexLessOrder: the string order, used for the `added` and `removed`
  sorts, compares Unicode scalar values. JavaScript's default `sort()`
  compares UTF-16 code units. The two orders disagree when a character
  beyond U+FFFF meets one in U+E000-U+FFFF. For example, JavaScript puts
  "\u{1F600}" before "\uFFFD", and the model puts it after. So
  `Diff.AddedRemovedSpec`'s ascending order matches the source only for
  symbols without characters beyond U+FFFF.
- Stats.ClassTotals: every asset class is an ordinary dictionary key. The
  source collects buckets in a plain `{}` object, so a class that names an
  `Object.prototype` member behaves differently there. With `toString` or
  `constructor`, the lookup finds the inherited member, and the row gets
  value and weight NaN. With `__proto__`, no key is created, and that
  bucket's value is missing from `byAssetClass`, so the class values no
  longer add up to `totalValue`. `Stats.ClassTotalsKeys`,
  `Stats.ByAssetClassSpec` and `Stats.ByAssetClassSums` hold only for
  classes that are not such names.
- Diff.DiffOf: a fractional `topN` is modelled as an integer.
- Diff.DiffSection: the `?? []` defaults for lists are dropped, because
  the diff datatype always carries its lists.
- Article and research brief schemas. `NewsArticle` has only the fields
  the bundle passes through. The brief's content lists are typed but always
  empty here. The news provider module is not part of this model.
- Diversifiers.PickFirstNotHeld: requires a non-empty ticker list. On an
  empty list the source returns `undefined`, and every menu row has
  tickers, which `Diversifiers.MenuTickersPresent` proves.
- Diversifiers.DiversifierCandidatesAgent: returns the candidate list (or
  the error), which is the only field the source returns in its partial
  state.
- PriceUpdate.UpdateHoldingsPrices: takes one outcome per holding. For a
  cash-like row the outcome is not consulted, because the source makes no
  request for that row.
- DeepResearch.BundleCountSpec: stated only for repeat-free scope lists.
  When a symbol repeats, the record keeps one entry, so the count covers
  the last result for that symbol.
- The rest of the application: the language-model explainer and warning
  agents, the HTTP routes, persistence, authentication and the graph
  wiring. These are outside the deterministic core.
