# project-optimization, modelled in Dafny

This project models the ranking and board-synchronisation logic of the
project-optimization scripts. Those scripts read maintenance projects from a
Monday.com board. They score each project by urgency and cost, aggregate the
facility and fund budgets, and rank the pending projects by
cost-effectiveness, with running costs per facility (RD) and per fund. Then
they push the result to a second board: they move items between the
Complete, In Process and In Queue groups, and create the items that are
missing.

The project has one module per part of the program:

| file | module | models |
|---|---|---|
| wrappers.dfy | `Wrappers` | `Option` (pandas' NaN / Python's `None`) and `Result` (a raised exception) |
| algo.dfy | `Algo` | `algo.py`: the age curve, the label table, the cost fallback chain, `calculate_costs`, `calc_cost_effectiveness` |
| budget.dfy | `Budget` | `helpers.py`: `categorize_projects`, `remaining_facility`, `remaining_fund` |
| ranking.dfy | `Ranking` | `calc_and_sort` in `monday_push_helpers.py`: merge, sort, cumulative costs and the exceeded flags |
| preprocess.dfy | `Preprocess` | `preprocess_df`: the rename-or-default loop, the `name` column, the restriction to the board's columns |
| reconcile.dfy | `Reconcile` | the target board as a class, `find_existing_rows`, `move_between_groups`, `create_missing_items` |
| monday.dfy | `Monday` | `monday_functions.py`: `parse_item`, `transform_dataframe`, the limit/pages arithmetic, the paged fetches and their group filters |

How the model represents the program:

- Money and scores are exact `real`s.
- NaN is `None`.
- A pandas frame is a sequence of records. In `Preprocess` it is a map from
  column name to column, because that code works on columns by name.
- The current date enters only as the project's age in days, `today - openDay`.
  `today` is a parameter.
- Each Monday.com API call is modelled by the board state it reads or changes.
  - The source board is a sequence of items, in the order the API pages them.
  - The target board is a `Reconcile.Board` object. Its `items` map runs from
    item id to (group title, column texts). Its `Delete` and `Create` methods
    change that map in place.
  - A page request that raises is modelled by a set of failed page numbers.

Behaviours of the code that the model keeps:

- The age curve is cut to a whole number, because `np.piecewise` builds its
  output in the integer type of the age (algo.py:14, algo.py:61). A Low
  project aged 99 days and one aged 100 days both score 49. One aged 365
  days scores exactly 155 (Algo.LowScoresAreWhole).
- `find_cost` returns a literal 0 estimate as 0. A zero cost then makes the
  cost-effectiveness the score itself (algo.py:69).
- The 1.1 buffer that `calc_and_sort` applies to in-process costs
  (monday_push_helpers.py:37) changes none of the returned frames.
  `calc_cost_effectiveness` recomputes `cost` from scratch (algo.py:63), and
  the budget aggregation reads `Final Cost`, not `cost`.

## Model

| member | source | states |
|---|---|---|
| Algo.Trunc | algo.py:14-17 | storing a float in an integer array, like astype(int), truncates toward zero: for x ≥ 0 the result is the whole part of x |
| Algo.TruncMonotone | algo.py:14-17 | truncation keeps the order |
| Algo.Linear | algo.py:15-16 | the line runs from the minimum at day 0 to the maximum at day 730 |
| Algo.PriorityFunction | algo.py:13-17 | the score is a whole number: the minimum at day 0, the maximum at every age from day 730 on, and in between (for a non-negative range) the whole part of the straight line from minimum to maximum |
| Algo.LowScoresAreWhole | algo.py:13-17 | a Low project scores 49 at both 99 and 100 days, and exactly 155 at 365 days |
| Algo.PriorityMonotone | algo.py:13-17 | when min ≤ max, an older project never scores lower (at every age, negative ones included) |
| Algo.PriorityBounds | algo.py:13-17 | when min ≤ max and the age is not negative, the score lies in [min, max] |
| Algo.PriorityValue | algo.py:19-38 | a score exists exactly for the labels Low, Medium, High and EMERGENCY; any other label (such as "Emergency") gives NaN; the score is a whole number, at day 0 the label's range minimum, and from day 730 on its maximum |
| Algo.PriorityValueInRange | algo.py:6-9 | for a known label and an age that is not negative, the score lies within that label's (min, max) range |
| Algo.LabelsOrdered | algo.py:6-9 | at every age that is not negative, Low < Medium < High < EMERGENCY |
| Algo.FirstPresentIsEarliest | algo.py:40-48 | the fallback chain returns the earliest present cell |
| Algo.FirstPresentNoneFound | algo.py:40-48 | the chain returns the default when no cell is present |
| Algo.FindCost | algo.py:40-48 | the chosen cost is always present, and a present Final Cost (0 included) is returned unchanged |
| Algo.FindCostIsFallbackChain | algo.py:40-48 | find_cost is the first present cell among Final, Quoted and Estimated, else 0 |
| Algo.Numeric | algo.py:53 | the coercion gives a number exactly when the cell holds one |
| Algo.ProjectCost | algo.py:50-55 | the cost is defined exactly when the chosen cell is a number, and is 0 when all three cells are missing |
| Algo.CalculateCosts | algo.py:50-55 | one cost per row, in order, each the ProjectCost of its row |
| Algo.RawEffectiveness | algo.py:69 | defined exactly when cost and score are; a zero cost gives the score itself; otherwise the result times the cost is the score |
| Algo.MaxPositive | algo.py:73 | NaN exactly when no row has a positive cost; otherwise it bounds every positive-cost row's ratio and is the ratio of one of them |
| Algo.CostEffectiveness | algo.py:57-76 | one output row per project; its bounds are the two lemmas below |
| Algo.NormalizedAtMost100 | algo.py:73-74 | when the maximum is positive, every positive-cost row's normalised value is defined and at most 100 |
| Algo.NormalizedMaximumIs100 | algo.py:73-74 | when the maximum is positive, some positive-cost row normalises to exactly 100 |
| Algo.NormalizedRowAtMost100 | algo.py:73-74 | for any scored frame whose maximum is positive, every positive-cost row normalises to a value of at most 100 |
| Algo.NormalizedMaxRowIs100 | algo.py:73-74 | for any scored frame whose maximum is positive, some positive-cost row normalises to exactly 100 |
| Algo.ScoreRows | algo.py:60-69 | the scoring pass yields each row's days, cost, score and ratio, and the running maximum is MaxPositive of those rows |
| Algo.Normalize | algo.py:74 | a normalised value exists exactly when the ratio and the maximum exist and the maximum is not 0 |
| Algo.NormalizeRows | algo.py:73-74 | the normalising pass divides every ratio by the maximum and multiplies by 100 |
| Algo.CalcCostEffectiveness | algo.py:57-76 | the two passes return the frame CostEffectiveness specifies |
| Budget.CategorizeProjects | helpers.py:84-86 | one category per row, pending exactly when the status is a pending status |
| Budget.CategoriesPartition | helpers.py:84-86 | the pending and in-process frames are a partition of the rows (as a multiset), split by status membership |
| Budget.SpendOf | helpers.py:51 | a numeric Final Cost counts as itself; a missing or non-numeric one counts as 0 |
| Budget.ThresholdPartition | helpers.py:52-55 | the R&M (< 2500) and CapEx (≥ 2500) filters split each RD's total spend with nothing lost or counted twice |
| Budget.NoKeptRowsNoSpend | helpers.py:57-62 | an RD with no kept row has spend 0 |
| Budget.RemainingFacility | helpers.py:48-69 | one row per facility, whose spend is the kept rows' sum for its RD and whose remaining budget is budget − spend (it may be negative, and it is NaN when the budget is) |
| Budget.UntouchedFacilityKeepsBudget | helpers.py:52-67 | a facility none of whose completed rows passes the R&M (or CapEx) filter keeps its whole budget |
| Budget.RemainingFund | helpers.py:71-82 | per fund, the sums of the facilities' budgets, spends and remaining budgets (NaN as 0); a fund no facility belongs to sums to 0 |
| Budget.FundRemainingIsBudgetMinusSpent | helpers.py:78-80 | when every facility of a fund has a budget, the fund's summed remaining budget is its summed budget minus its summed spend |
| Ranking.FindFacility | monday_push_helpers.py:58 | the merge finds a facility row with the project's RD, or reports that none exists |
| Ranking.MergeRows | monday_push_helpers.py:53-58 | one merged row per pending row, in order, each carrying its facility's budget and its fund's budget |
| Ranking.MergeIsConsistent | monday_push_helpers.py:53-58 | after the merge, rows with the same RD carry the same facility budget and rows with the same fund the same fund budget |
| Ranking.Insert | monday_push_helpers.py:61 | insertion adds exactly the one row |
| Ranking.InsertSorted | monday_push_helpers.py:61 | inserting into a descending frame keeps it descending |
| Ranking.SortByEffectiveness | monday_push_helpers.py:61 | the sort is a permutation of its input |
| Ranking.SortIsSorted | monday_push_helpers.py:61 | the sorted frame is in non-increasing cost-effectiveness order (NaN last) and is a permutation of the input |
| Ranking.PermutationKeepsConsistent | monday_push_helpers.py:61 | reordering rows keeps the per-RD and per-fund budgets consistent |
| Ranking.RankedRow | monday_push_helpers.py:67-75 | from a row's running costs: the row keeps its position, and each exceeded flag holds exactly when the budget status minus the cumulative cost is below 0 |
| Ranking.RunningTotalsStep | monday_push_helpers.py:64-66 | adding a row's cost to its RD's and its fund's totals gives the prefix sums one row further |
| Ranking.RankedAt | monday_push_helpers.py:64-77 | the row at sorted position i has index i; its cumulative cost is the truncated sum of the costs of rows 0..i of its RD, its cumulative fund cost the same over its fund (0 without a fund); its budget statuses are the truncated merged budgets (NaN as 0); each exceeded flag holds exactly when the budget status minus the cumulative cost is below 0 |
| Ranking.CumulativeAndFlags | monday_push_helpers.py:64-75 | the one-pass running totals fail exactly when some cost is NaN; otherwise every row equals RankedAt, so its cumulative cost is the prefix sum over its RD and its fund |
| Ranking.RdCostMonotone | monday_push_helpers.py:64 | with non-negative costs, an RD's running cost never decreases down the sorted frame |
| Ranking.FundCostMonotone | monday_push_helpers.py:65-66 | the same holds for a fund's running cost |
| Ranking.RdCostSkipsOtherRows | monday_push_helpers.py:64 | rows of other RDs do not change an RD's running cost |
| Ranking.RunningRdCost | monday_push_helpers.py:64 | the running cost of an RD at a row is the running cost at that RD's previous row plus this row's cost |
| Ranking.ExceedsFacilityIsSticky | monday_push_helpers.py:64-75 | with non-negative costs, once a row of an RD exceeds the facility budget, every later row of that RD does too |
| Ranking.ExceedsFundIsSticky | monday_push_helpers.py:65-75 | the same holds for a fund and the fund budget |
| Ranking.OpenCandidates | monday_push_helpers.py:42-61 | one candidate row per pending project: the merge and the sort neither drop nor add rows |
| Ranking.OpenCandidatesSortedAndConsistent | monday_push_helpers.py:42-61 | the frame the ranking is computed over is sorted and budget-consistent |
| Ranking.SplitByCategory | monday_push_helpers.py:30-33 | the pending and in-process frames are the rows of each category, in order |
| Ranking.CalcAndSort | monday_push_helpers.py:24-78 | the ranked frame fails exactly on a NaN cost and otherwise has one RankedAt row per candidate; the in-process frame is scored; the completed frame gets its costs |
| Preprocess.ColumnMappings | monday_push_helpers.py:82-100 | the mapping table, entry by entry: source column, board column id and default |
| Preprocess.ColumnMappingsUnambiguous | monday_push_helpers.py:82-100 | the table's sources are distinct, its targets are distinct, and no target is a later entry's source, so the loop's order does not matter |
| Preprocess.SourcesDistinct | monday_push_helpers.py:82-100 | no column is renamed twice |
| Preprocess.TargetsDistinct | monday_push_helpers.py:82-100 | no board column is written twice |
| Preprocess.NoMappingChains | monday_push_helpers.py:82-100 | no renamed column is renamed again |
| Preprocess.MappingsKeepOthers | monday_push_helpers.py:102-108 | a column the table does not mention is left as it is |
| Preprocess.ApplyMappings | monday_push_helpers.py:102-108 | the rename-or-default loop over the table in order; it keeps the number of rows |
| Preprocess.MappingResult | monday_push_helpers.py:102-108 | each target column holds the source column when it existed, else the default in every row |
| Preprocess.MappingRemovesSource | monday_push_helpers.py:104-105 | a renamed source column is gone afterwards |
| Preprocess.MappingsWellFormed | monday_push_helpers.py:102-108 | every column still has one cell per row |
| Preprocess.Finish | monday_push_helpers.py:110-120 | adds only `name`, which is rd + " - " + item_name with NaN as "" when both columns exist (and "" otherwise); `rd` and `item_name` become their texts with NaN as "" when both exist and are otherwise unchanged; `text2` becomes its string form; the row count is kept |
| Preprocess.Restrict | monday_push_helpers.py:123-129 | keeps exactly the board's columns, unchanged |
| Preprocess.PreprocessDf | monday_push_helpers.py:80-130 | the rename-or-default loop, the name step and the restriction give Prepared |
| Preprocess.PreparedColumn | monday_push_helpers.py:102-129 | a mapped column is in the result exactly when the board has it, holding the source column or the default |
| Preprocess.PreparedColumnsOnBoard | monday_push_helpers.py:126-129 | the result holds only board columns and every mapped column the board has |
| Reconcile.Columns | monday_push_helpers.py:172-173 | an item created from a row carries the row's project id in `text2` |
| Reconcile.Board.Delete | monday_push_helpers.py:168 | removes exactly that item; nothing else changes |
| Reconcile.Board.Create | monday_push_helpers.py:173 | adds one item under a fresh id; nothing else changes |
| Reconcile.Board.MoveItem | monday_push_helpers.py:157-184 | one item: left alone when the rule chain picks nothing, else deleted and recreated once in the chosen group |
| Reconcile.Board.MoveAll | monday_push_helpers.py:157-184 | the loop over the listed items leaves the board as AfterMoves of the chosen moves |
| Reconcile.Board.MoveBetweenGroups | monday_push_helpers.py:154-184 | the board afterwards is AfterMoves of the moves decided on the snapshot |
| Reconcile.Board.CreateIfMissing | monday_push_helpers.py:196-201 | creates the row's item in the frame's group exactly when its id is not listed |
| Reconcile.Board.CreateFrame | monday_push_helpers.py:196-201 | one frame's loop creates that frame's missing rows, in order |
| Reconcile.Board.CreateAll | monday_push_helpers.py:191-201 | the three frames, in order, create MissingAll |
| Reconcile.Board.CreateMissingItems | monday_push_helpers.py:186-201 | the board afterwards is AfterCreations of the rows missing from the snapshot |
| Reconcile.Lookup | monday_push_helpers.py:143 | the column's text, or None when the item has no such column |
| Reconcile.FindExistingRows | monday_push_helpers.py:138-152 | one row per listed item, in order, carrying its id, its group, and its `text2` and `status19` texts |
| Reconcile.FirstIndex | monday_push_helpers.py:172 | the position of the first row with the project id |
| Reconcile.FirstRow | monday_push_helpers.py:172 | `.iloc[0]` is a row of the frame with that project id |
| Reconcile.FirstRule | monday_push_helpers.py:166-184 | a chosen rule is one of the rules, targets a group other than the item's, and its frame holds the project id |
| Reconcile.Decide | monday_push_helpers.py:166-184 | a decided group differs from the item's and its frame lists the project; no decision exactly when, for each of the three rules, the item is already in that group or the frame does not list the project |
| Reconcile.DecideChain | monday_push_helpers.py:166-184 | the decision is the if/elif chain Complete > In Process > In Queue, each guarded by "not already in that group" |
| Reconcile.DecideIsFirstMatch | monday_push_helpers.py:166-184 | for disjoint frames the decision is the frame holding the id, and nothing when the item is already in that group |
| Reconcile.MoveOfFacts | monday_push_helpers.py:163-184 | a move exists exactly when the chain decides one; it moves this item, to a different group, carrying a row of the target frame with the item's project id |
| Reconcile.Moves | monday_push_helpers.py:157-184 | the moves of one pass over the listed items, at most one per item |
| Reconcile.AfterMovesKeys | monday_push_helpers.py:157-184 | after the moves the board holds the unmoved items and one fresh id per move |
| Reconcile.AfterMovesKeeps | monday_push_helpers.py:157-184 | an unmoved item keeps its content |
| Reconcile.AfterMovesCreates | monday_push_helpers.py:157-184 | the j-th move recreates its item under the j-th fresh id |
| Reconcile.SettledItemUntouched | monday_push_helpers.py:166-184 | an item the chain leaves alone is untouched |
| Reconcile.MovedItemRecreated | monday_push_helpers.py:166-184 | a moved item is gone and one fresh item in the target group carries its row |
| Reconcile.SettledStaysSettled | monday_push_helpers.py:166-184 | for disjoint frames, an item in the group of the frame holding its id is never moved |
| Reconcile.SecondMoveIsNoOp | monday_push_helpers.py:154-184 | for disjoint frames, a second move_between_groups moves nothing |
| Reconcile.ExistingIds | monday_push_helpers.py:189 | the listed project ids, each as its string |
| Reconcile.Missing | monday_push_helpers.py:196-201 | one frame's rows whose project id is not listed, in order, at most one creation per row |
| Reconcile.MissingSound | monday_push_helpers.py:196-201 | every creation is a row of the frame, in its group, whose id is not listed |
| Reconcile.MissingComplete | monday_push_helpers.py:196-201 | every row whose id is not listed is created |
| Reconcile.MissingAll | monday_push_helpers.py:191-201 | the three frames' creations in the order the source runs them, at most one per row |
| Reconcile.MissingAllSound | monday_push_helpers.py:191-201 | every creation across the three frames comes from one of them, in its group, with an id that is not listed |
| Reconcile.MissingAllComplete | monday_push_helpers.py:191-201 | every unlisted row of every frame is created |
| Reconcile.AfterCreationsShape | monday_push_helpers.py:186-201 | existing items are kept unchanged; each creation gets its own fresh id holding its group and row |
| Reconcile.ExistingNeverRecreated | monday_push_helpers.py:188-201 | no creation repeats a project id already listed on the board |
| Reconcile.RowListedAfterCreations | monday_push_helpers.py:186-201 | after the creations, every row of every frame has its project id listed on the board |
| Reconcile.SecondCreateIsNoOp | monday_push_helpers.py:186-201 | a second create_missing_items creates nothing |
| Monday.FindFirst | monday_functions.py:116-119 | the separator search finds the first occurrence, and none only when the name has no such character |
| Monday.SplitName | monday_functions.py:116-121 | the (facility, item name) pair before stripping: the facility is a prefix of the name, and the two parts are no longer than the name |
| Monday.SplitNameCases | monday_functions.py:116-121 | split at the first '-', else at the first ' ', else (name, ""); the facility holds no separator, and facility + separator + item name gives back the name |
| Monday.Strip | monday_functions.py:123 | str.strip(): never longer than its input; StripIsTrimmedSlice states what it keeps |
| Monday.TrimLeftSpec | monday_functions.py:123 | the left trim drops only leading whitespace, up to the first other character |
| Monday.TrimRightSpec | monday_functions.py:123 | the right trim drops only trailing whitespace, back to the last other character |
| Monday.StripIsTrimmedSlice | monday_functions.py:123 | strip() keeps one contiguous piece with only whitespace around it, and that piece neither starts nor ends with whitespace |
| Monday.StripIdempotent | monday_functions.py:123 | stripping twice is stripping once |
| Monday.SplitItemName | monday_functions.py:116-123 | the branches compute the split of SplitName and strip the item name, so SplitNameCases and StripIsTrimmedSlice describe what they return |
| Monday.ParseItem | monday_functions.py:112-130 | the loop over the column values builds ParsedRow: the four base entries, then each value written in order |
| Monday.WithColumnsKeys | monday_functions.py:126-128 | the row's keys are the base keys plus each value's title, or its raw id when the title is unknown |
| Monday.ColumnLastWriteWins | monday_functions.py:126-128 | under a key, the row keeps the text of the last value written there |
| Monday.ColumnsKeepOthers | monday_functions.py:124-128 | a key no column value writes keeps its base entry |
| Monday.ParsedNameFields | monday_functions.py:116-124 | unless a column is titled like them, `facility` is the first half of the split and `item_name` the stripped second half |
| Monday.TransformDataframe | monday_functions.py:132-138 | KeyError when a column it reads is missing; otherwise one row per input row |
| Monday.TransformFailsIffColumnMissing | monday_functions.py:132-138 | the transform raises exactly when the frame lacks `facility` or one of the selected columns |
| Monday.TransformRdFallback | monday_functions.py:133-134 | a non-empty RD is kept; an empty or missing RD becomes the facility |
| Monday.TransformKeepsSelected | monday_functions.py:135 | every other selected column is copied as it is, and no other column is kept |
| Monday.Paging | monday_functions.py:23-28 | the ZeroDivisionError exactly when the count is 0; otherwise a limit between 1 and 1000 and at least one page |
| Monday.PagingCovers | monday_functions.py:23-28 | 0 items is the division error; otherwise limit = min(total, 1000), pages = total // limit + 1, and (pages − 1)·limit ≤ total < pages·limit; up to 1000 items this is one page of all of them plus an empty second page |
| Monday.FetchPage | monday_functions.py:45-48 | one page gives the parsed rows of its items in the wanted groups, in order |
| Monday.FetchPages | monday_functions.py:36-48 | the page loop gives the parsed rows of FetchedItems: the kept items of each page that did not fail |
| Monday.FetchOpenItems | monday_functions.py:19-54 | pages sized from the count of North/South/Central items, filtered to those groups, then transformed |
| Monday.FetchCompleted | monday_functions.py:56-87 | pages sized from the count of the four groups, filtered to Complete, then transformed |
| Monday.CountInGroups | monday_functions.py:95-110 | the number of board items in the given groups, at most the board's size |
| Monday.KeptSound | monday_functions.py:46 | every kept item is an item of the page whose group passes the filter |
| Monday.KeptComplete | monday_functions.py:79 | every item of the page whose group passes the filter is kept |
| Monday.CountIsKeptLength | monday_functions.py:95-110 | the group count is the number of items the same filter keeps |
| Monday.FetchedItemsSound | monday_functions.py:36-48 | whatever the page size and failures, every fetched item is a board item of the wanted groups |
| Monday.FetchedItemsArePrefix | monday_functions.py:36-48 | without failures, p pages of l items keep exactly the wanted items among the first p·l of the board |
| Monday.OpenFetchMissesItem | monday_functions.py:21-48 | fetch_open_items as written: three Complete items before one North item yield no open item |
| Monday.FetchOpenItemsFromBoardSize | monday_functions.py:19-54 | the open fetch with pages sized from the whole board |
| Monday.FetchFromBoardSizeIsComplete | monday_functions.py:36-48 | sized from the whole board and without failures, the open fetch keeps every open item, in board order |

## Left out

- All Monday.com API traffic is modelled by its effect on board state.
  - Paging is a slice of the board's item sequence, so the API's own page order is assumed to be board order.
  - The group ids are named by their titles (Complete, In Process, In Queue).
  - count_items_in_groups is the number of board items in those groups. Its own per-group requests are left out.
- fetch_column_names is an input map from column id to title.
- S3 and CSV budget loading, the SQL facility query and the environment variables are left out as I/O. Facilities and budgets are inputs.
- `date.today()` is not modelled: the current day is a parameter.
- Floating point is not modelled.
  - Costs and scores are exact reals.
  - The rounding to 2 decimals (algo.py:53, algo.py:75) is not modelled.
  - `astype(int)` is truncation toward zero on exact reals.
  - NaN is `None`.
- `pd.to_datetime` on `Open` (monday_functions.py:136) is left out. The model receives the open day as an integer. So an empty `Open` date is not represented: pandas parses it to NaT, the project's age is then NaN, `astype(int)` at algo.py:61 raises, and calc_and_sort aborts.
- Preprocess.TextOf: a numeric `rd` or `item_name` cell renders as "" in the name column, because float formatting is not modelled. Likewise Preprocess.AsStr leaves a number in `text2` as a number, where `astype(str)` (monday_push_helpers.py:120) turns it into its text.
- The `link` column (monday_push_helpers.py:121) is left out. It formats a URL from a global the file does not define.
- Preprocess.MappingResult: a frame holds one column per name. If a frame held both a mapping's source and a column already named like its target (say `fund` and `text`), the rename at monday_push_helpers.py:104 would give two columns named `text`; the model keeps only the renamed one. The frames calc_and_sort returns hold no column named like a target, except `item_name`, which maps to itself.
- Preprocess.PreprocessDf: monday_push_helpers.py:123 calls `fetch_column_names(new_board_id)`, but fetch_column_names takes no argument (monday_functions.py:88-92), so as written the call raises TypeError. Without the argument it would list the columns of `self.board_id`, the board the projects were read from. The model takes `boardColumns` to be the target board's column ids, the evident intent.
- Item creation is modelled as "create one item for this row in this group, with the row's column texts".
  - create_items_from_df's placeholder column mapping (monday_functions.py:140-153) is left out.
  - The call sites (monday_push_helpers.py:173, 179, 184, 201) pass three arguments to a two-argument method. The model uses the evident intent.
- Algo.Normalize: when the largest ratio among positive-cost rows is exactly 0, algo.py:74 divides by zero. numpy then gives ±inf for a non-zero ratio and NaN for 0/0; the model gives NaN for every row. This happens only when no positive-cost row has a positive score, for example with an Open date in the future: a Low project at −26 days scores 0.
- Algo.CostEffectiveness: inherits the zero-maximum case of Algo.Normalize (NaN where numpy gives ±inf) and the unmodelled rounding to 2 decimals.
- Algo.CalcCostEffectiveness: the same, since its result is Algo.CostEffectiveness.
- Ranking.SortByEffectiveness: ties keep their input order. `sort_values` (monday_push_helpers.py:61) uses quicksort by default, which is not stable, so the source does not fix the order of rows with equal cost-effectiveness, nor the running costs and flags of those rows. CumulativeAndFlags and the sticky-flag lemmas take the sorted frame as a parameter and hold for any order.
- Ranking.FindFacility: the merge takes the first facility row with the project's RD. The left merge at monday_push_helpers.py:58 gives one row per matching facility row, so a facility table listing an RD twice would duplicate the pending project. The model assumes one facility row per RD, and Ranking.MergeIsConsistent describes that merge.
- Ranking.CalcAndSort: inherits the tie order of Ranking.SortByEffectiveness and the one-row merge of Ranking.FindFacility.
- Ranking.CalcAndSort models monday_push_helpers.py:46 as remaining_fund over remaining_facility's result, with R&M budgets. As written, the call passes the facility frame as `capex`, which would raise.
- Reconcile.Board.MoveBetweenGroups and Reconcile.Board.CreateMissingItems take the board's listing order as a parameter (`order`), because the API's order is not modelled.
- Reconcile.SecondMoveIsNoOp and Reconcile.DecideIsFirstMatch assume that no project id appears in two of the three frames (`Disjoint`). With a shared id, the chain's precedence decides, and a second run may move the item again.
- Reconcile.FindExistingRows: as written, monday_push_helpers.py:139 calls `fetch_items_by_board_id`, which the Monday class (monday_functions.py) does not define, so the call raises AttributeError. The model lists the items of `new_board_id`, the evident intent, as a client method would.
- Reconcile.Board.Delete: likewise, `delete_item` (monday_push_helpers.py:168, 177, 182) is not defined on the Monday class, so as written each delete raises AttributeError. The model removes the item from the board, the evident intent.
- Reconcile.Board.MoveBetweenGroups and Reconcile.Board.CreateMissingItems inherit both: as written, each calls find_existing_rows first (monday_push_helpers.py:156, 188) and so raises before it changes the board. The model describes the evident intent.
- Budget.Facility: `fund` is a string. A facility whose SQL `fund` is null, which the groupby of remaining_fund (helpers.py:80) drops, is not represented.
- The `is not None` check at monday_push_helpers.py:163 is always true after `str()`, so it is not modelled as a branch. A missing `text2` becomes the text "None" (Reconcile.PidText).
- Monday.IsSpace lists the characters Python's `str.isspace()` accepts. No Unicode normalisation is modelled.
- Monday.ParseItem: column texts are strings. An API `null` text is not modelled.
- Monday.TransformDataframe gives one error, "missing column", for any absent selected column after `RD` and `facility`. It does not name the column.
- The commented-out scoring variant, `process_and_send_items`, `fetch_subitems` and run.py's orchestration are not part of this model.

## Findings

| source | as written | input that shows it | evidently intended | confidence | as-written member | corrected member |
|---|---|---|---|---|---|---|
| monday_functions.py:22-28 | fetch_open_items sizes `limit` and `pages` from the number of North/South/Central items, but the API pages over every item on the board (monday_functions.py:38), so pages of that size end before the board does | a board of three Complete items followed by one North item: the count is 1, so there are 2 pages of 1 item, which reach only the first two Complete items; the North item is never fetched, and no request fails | size the pages from the number of items on the whole board, so the pages cover it | not executed | Monday.OpenFetchMissesItem | Monday.FetchFromBoardSizeIsComplete |
