# strategic-trading: best response and learning metrics in Dafny

This project models the computational core of the two-player trading game in
the strategic-trading repository. Two players each buy a number of shares
over `T` steps. A player pays a temporary price impact on every step: its own
trade plus the opponent's trade, multiplied by its own trade. It also pays a
permanent impact of `kappa` times both players' accumulated positions.

- `BestResponseDynamics/BR.py` has two functions.
  - `total_cost` prices one schedule against another.
  - `best_respond` is a backward dynamic program over "shares still to buy".
    It fills two `T x s_size` tables (cost and action). A forward pass then
    reads off a schedule of per-step trades within `[lower_limit, upper_limit]`.
- `NoRegretDynamics/helpers.py` builds the learning metrics on those two
  oracles: external `regret`, `swap_regret`, the product-marginal
  `marginal_cost`, `dist_to_nash` and `welfare`.

The model has five modules, one file each.

- `TradingCost` (trading_cost.dfy)
  - `total_cost` is specified by a step-by-step recursion (`CostFrom`).
  - `ComputeTotalCost` is the source's loop over exclusive prefix sums, proved
    equal to that recursion.
  - The cost splits into a part the player causes alone and a part that is
    affine in the opponent's schedule (`CostSplits`, `ExposureAdditive`,
    `ExposureScales`). This is what makes regret's "best response to the mean"
    exact.
- `DynamicProgram` (dynamic_program.dfy)
  - The recursion that `best_respond` tabulates, written as functions: the
    immediate cost (`Immediate`), the scan over trades (`Scan`), the table
    entries (`BestCost`, `BestAction`) and the forward pass (`Follow`).
  - `np.inf` is the `Infinite` case of `ExtCost`.
  - The lemmas prove index safety of the table layout and the argmin
    semantics of the scan.
  - They prove optimality: no admissible schedule costs less under
    `total_cost`.
  - They prove the budget: the result spends exactly `V` whenever
    `T*lower <= V <= T*upper`, and the state `(0, V)` is finite exactly then.
- `Tabulation` (best_response.dfy)
  - `best_respond` as the source runs it: two `array2` tables filled in place by
    the initialisation loop, the backward loop and the scan, then the forward
    pass.
  - `BestRespond` is proved to return exactly `DynamicProgram.BestResponse`.
- `Grouping` (grouping.dfy)
  - The `defaultdict(list)` and `Counter` grouping, with keys in insertion
    order.
  - Proofs that the groups partition the rounds, that group sums add up to
    the total, and that a per-key value sums to a count-weighted dot product.
- `NoRegret` (no_regret.dfy)
  - The five metrics of helpers.py.
  - The loops of `swap_regret`, `marginal_cost` and `welfare` are methods
    proved against specification functions. External regret and
    `dist_to_nash` are functions.

Properties proved about the metrics:

- External regret is the gap to the best fixed admissible schedule in
  hindsight.
- Swap regret is the sum of per-action external regrets. It equals external
  regret when one action is played throughout. It is never negative when
  player 1 plays feasible schedules, and it is exactly 0 when player 1 plays,
  in every round, the best response to player 2's schedule of that round.
- `marginal_cost` equals the cost over all pairs of rounds divided by `n*n`.
  With equal round counts this is the average cost against player 2's mean
  schedule. So `dist_to_nash` is non-negative when player 1 plays schedules of
  `T` legal trades adding up to `Va`, and it vanishes when player 1 always
  plays the best response to player 2's mean.
- Welfare is the sum of both players' expected costs and is symmetric under
  swapping the players.

The source operates on numpy floating point. The model uses exact `real`
arithmetic, and trades and volumes are integers (`int`).

## Model

| member | source | states |
|---|---|---|
| TradingCost.CostFrom | BestResponseDynamics/BR.py:108-115 | the remaining cost of a schedule given what both players already hold: each step charges (a_t + b_t) a_t plus kappa times both holdings times a_t, and the holdings then grow by both trades |
| TradingCost.TotalCost | BestResponseDynamics/BR.py:90-115 | total_cost: the remaining cost with both players starting flat |
| TradingCost.ComputeTotalCost | BestResponseDynamics/BR.py:108-115 | the loop over the exclusive prefix arrays returns total_cost: the sum over steps of (a_t + b_t) a_t + kappa (A_t + B_t) a_t, with A_t, B_t what each player traded before step t |
| TradingCost.IdleCostsNothing | BestResponseDynamics/BR.py:111-113 | a schedule of zero trades costs 0 whatever both players already hold and whatever the opponent does; the empty schedule costs 0 |
| TradingCost.CostSplits | BestResponseDynamics/BR.py:113 | the cost is the player's own part (own trades and position) plus an exposure part driven by the opponent's trades and position |
| TradingCost.ExposureAdditive | BestResponseDynamics/BR.py:113 | the exposure part is additive in the opponent's schedule and starting position |
| TradingCost.ExposureScales | BestResponseDynamics/BR.py:113 | the exposure part scales with the opponent's schedule and starting position |
| DynamicProgram.OppHoldings | BestResponseDynamics/BR.py:28 | b: entry i is the opponent's trades up to and including step i |
| DynamicProgram.Immediate | BestResponseDynamics/BR.py:51-70 | the cost charged at lines 51, 68 and 70: the immediate cost of trading q at (t, s): q (q + bnow[t]) on the first step of a horizon longer than one, and otherwise with kappa ((V - s) + b[t - 1]) added, b[-1] meaning b[T - 1] |
| DynamicProgram.Scan | BestResponseDynamics/BR.py:60-75 | the (mincost, action) pair after trying trades lower .. q - 1 in increasing order, replaced only by a strictly cheaper candidate |
| DynamicProgram.BestCost | BestResponseDynamics/BR.py:47-75 | dptable[t, s]: on the last step s itself when within the limits and inf otherwise, on earlier steps the scan's cost |
| DynamicProgram.BestAction | BestResponseDynamics/BR.py:47-75 | dpaction[t, s]: s on the last step when within the limits, the scan's action on earlier steps, and 0 where nothing was written |
| DynamicProgram.Follow | BestResponseDynamics/BR.py:78-85 | the forward pass from (t, s): one recorded action per remaining step, each moving to the state it leaves |
| DynamicProgram.BestResponse | BestResponseDynamics/BR.py:3-88 | best_respond's result: the forward pass from (0, V), T trades |
| DynamicProgram.WindowFitsTable | BestResponseDynamics/BR.py:32-45 | every state s in the window of step t lies in the window at T, and s_to_index(s) is a column of the table, which has (upper - lower) * T + 1 columns |
| DynamicProgram.StepStaysInWindow | BestResponseDynamics/BR.py:61-65 | a trade within the limits takes a state of window t to window t + 1, so next_i is always in range although the bounds check at line 64 is commented out |
| DynamicProgram.ScanFindsFirstMinimum | BestResponseDynamics/BR.py:60-75 | after the scan over trades, the cell is inf with action 0 exactly when every candidate is inf; otherwise it holds the minimum candidate at the smallest trade attaining it (strict < keeps the first minimum) |
| DynamicProgram.CandidateBoundsBestCost | BestResponseDynamics/BR.py:61-75 | a finite candidate makes the cell finite and bounds it from above |
| DynamicProgram.ActionWithinLimits | BestResponseDynamics/BR.py:49-74 | every recorded action, and the default 0, is a trade within [lower, upper] |
| DynamicProgram.FollowStep | BestResponseDynamics/BR.py:82-85 | one forward step reads the recorded action and moves to the state it leads to, which stays in the next window |
| DynamicProgram.BestCostIsLowerBound | BestResponseDynamics/BR.py:47-75 | any admissible schedule from (t, s) (one legal trade per remaining step, buying s in all) makes the cell finite and costs at least the cell's value |
| DynamicProgram.FollowAttainsBestCost | BestResponseDynamics/BR.py:78-85 | from a finite cell, following the recorded actions gives an admissible schedule that costs exactly the cell's value |
| DynamicProgram.FollowWithinLimits | BestResponseDynamics/BR.py:78-85 | whatever the table holds, the forward pass yields one trade within the limits per remaining step |
| DynamicProgram.InfeasibleStateIsIdle | BestResponseDynamics/BR.py:40-41 | from an infinite cell the forward pass reads the initial 0 actions all the way down, so an infeasible volume yields the all-zero schedule |
| DynamicProgram.AdmissibleTotalInRange | BestResponseDynamics/BR.py:30-35 | n legal trades add up to a volume in [n * lower, n * upper] |
| DynamicProgram.AdmissibleExists | BestResponseDynamics/BR.py:30-35 | every volume in [n * lower, n * upper] can be bought in n legal trades |
| DynamicProgram.FeasibleIffInRange | BestResponseDynamics/BR.py:47-75 | the cell (0, V) is finite if and only if T * lower <= V <= T * upper |
| DynamicProgram.ScheduleCostIsCostFrom | BestResponseDynamics/BR.py:70 | from step t >= 1 on, the recursion charges a schedule its remaining total_cost with the player holding V - s and the opponent b[t - 1] |
| DynamicProgram.ScheduleCostIsTotalCost | BestResponseDynamics/BR.py:66-70 | for T >= 2 the recursion's charge for a whole schedule from (0, V), with no permanent impact on the first step, is its total_cost against bnow |
| DynamicProgram.BestResponseBudget | BestResponseDynamics/BR.py:78-88 | the result has T trades, each within the limits, adding up to V whenever T * lower <= V <= T * upper |
| DynamicProgram.BestResponseIsOptimal | BestResponseDynamics/BR.py:3-88 | the best response is admissible and no admissible schedule has a lower total_cost against bnow |
| DynamicProgram.StoredCostIsTotalCost | BestResponseDynamics/BR.py:47-75 | for T >= 2 the table's finite value at (0, V) is the best response's total_cost |
| DynamicProgram.SingleStepHorizon | BestResponseDynamics/BR.py:51 | for T == 1 the result is [V] when V is within the limits and [0] otherwise, and the stored cost exceeds total_cost by kappa * V * bnow[0], because b[T - 2] is b[-1] |
| Tabulation.InitLastStep | BestResponseDynamics/BR.py:47-52 | the initialisation loop writes row T - 1: a cell is finite exactly when its state is within the limits, with action s; every other cell is untouched |
| Tabulation.CandidateIs | BestResponseDynamics/BR.py:66-72 | the value thisval computed in either branch is the recursion's candidate, and one comparison advances the scan by one trade |
| Tabulation.ChooseTrade | BestResponseDynamics/BR.py:59-75 | the scan at one state leaves that cell holding its optimal cost and first optimal action, and changes no other cell |
| Tabulation.FillRow | BestResponseDynamics/BR.py:55-75 | one pass of the backward loop finishes row t over its window, given the finished rows below |
| Tabulation.Reconstruct | BestResponseDynamics/BR.py:77-85 | the forward pass over the finished action table returns the recursion's best response |
| Tabulation.BestRespond | BestResponseDynamics/BR.py:3-88 | best_respond returns the recursion's best response: T trades within the limits, adding up to V when V is reachable |
| Grouping.Distinct | NoRegretDynamics/helpers.py:67-69 | the dict's keys are exactly the actions played |
| Grouping.IndicesOf | NoRegretDynamics/helpers.py:67-69 | every index listed under a key is a round in which that key was played |
| Grouping.DistinctKeys | NoRegretDynamics/helpers.py:67-69 | no action is a key twice |
| Grouping.IndicesExact | NoRegretDynamics/helpers.py:67-69 | round t is listed under key k if and only if k was played at t, and each list is strictly increasing |
| Grouping.UnplayedHasNoRounds | NoRegretDynamics/helpers.py:67-69 | an action never played has no rounds |
| Grouping.PlayedHasRounds | NoRegretDynamics/helpers.py:73-75 | every key's group is non-empty |
| Grouping.GroupSumExtend | NoRegretDynamics/helpers.py:68-69 | appending a round adds its value to its own key's group and leaves the others alone |
| Grouping.GroupSumsAddUp | NoRegretDynamics/helpers.py:73-77 | the per-key sums over the groups add up to the sum over all rounds |
| Grouping.GroupSumByKey | NoRegretDynamics/helpers.py:98-107 | when a round's value depends only on its key, the group sums are the count-weighted sum of the key values |
| Grouping.SingleKey | NoRegretDynamics/helpers.py:67-69 | one action played throughout gives a single key whose group is every round |
| Grouping.GroupRounds | NoRegretDynamics/helpers.py:66-69 | the grouping loop builds the keys in order of first appearance and maps each to exactly its rounds in order |
| NoRegret.Mean | NoRegretDynamics/helpers.py:27 | bnow_r: the element-wise sum of a non-empty batch divided by its size (also p2_avg_action at helpers.py:131) |
| NoRegret.HindsightCost | NoRegretDynamics/helpers.py:27-33 | best_cost: r times the total_cost of the best response to the batch's mean, against that mean |
| NoRegret.Regret | NoRegretDynamics/helpers.py:8-35 | regret: the cumulative cost minus the hindsight cost |
| NoRegret.TimesIsProduct | NoRegretDynamics/helpers.py:33 | r copies of total_cost added up equal r * total_cost |
| NoRegret.BatchCost | NoRegretDynamics/helpers.py:27 | a schedule's summed cost against a batch is r times its own part plus its exposure to the element-wise sum np.add.reduce |
| NoRegret.AveragingIsExact | NoRegretDynamics/helpers.py:24-33 | a schedule's summed cost against every opponent schedule equals r times its cost against their mean |
| NoRegret.RegretIsHindsightGap | NoRegretDynamics/helpers.py:8-35 | regret is the cumulative cost minus the best response's summed cost against the whole batch, and is at least the cumulative cost minus any admissible schedule's summed cost |
| NoRegret.ComputeRoundCosts | NoRegretDynamics/helpers.py:57-60 | p1_costs holds total_cost of every round |
| NoRegret.GroupBatchReady | NoRegretDynamics/helpers.py:73-78 | every group's opponent subsequence is a non-empty batch regret accepts |
| NoRegret.GroupStep | NoRegretDynamics/helpers.py:73-78 | each key of the dict adds the regret of its group's summed cost against its group's opponent subsequence |
| NoRegret.SwapRegret | NoRegretDynamics/helpers.py:38-80 | swap_regret returns the sum, over player 1's distinct actions in first-appearance order, of each group's regret |
| NoRegret.GroupRegretsSplit | NoRegretDynamics/helpers.py:73-78 | the group regrets add up to the group costs minus the groups' hindsight costs |
| NoRegret.SwapRegretSplits | NoRegretDynamics/helpers.py:38-80 | swap regret is player 1's whole cumulative cost minus the sum of the groups' hindsight costs |
| NoRegret.OnlyGroup | NoRegretDynamics/helpers.py:67-78 | one action played throughout leaves a single group |
| NoRegret.SingleActionSwapRegret | NoRegretDynamics/helpers.py:38-80 | with one action played throughout, swap regret equals external regret over all rounds |
| NoRegret.GroupCostIsBatchCost | NoRegretDynamics/helpers.py:77 | a group's summed p1_costs are its action's costs against the group's opponent schedules |
| NoRegret.GroupRegretsNonNegative | NoRegretDynamics/helpers.py:73-78 | with feasible schedules played, every partial sum of group regrets is non-negative |
| NoRegret.SwapRegretNonNegative | NoRegretDynamics/helpers.py:38-80 | swap regret is non-negative when player 1 only plays schedules best_respond could have chosen |
| NoRegret.BestRespondingHasNoSwapRegret | NoRegretDynamics/helpers.py:38-80 | swap regret is exactly 0 when player 1 plays, in every round, best_respond's schedule against player 2's schedule of that round |
| NoRegret.GroupRegretVanishes | NoRegretDynamics/helpers.py:73-78 | for such a player 1, the regret of every group is 0 |
| NoRegret.GroupBeatsAlternative | NoRegretDynamics/helpers.py:73-78 | for such a player 1, a group's summed cost is at most what any admissible schedule would cost against the group's opponent schedules |
| NoRegret.Dist | NoRegretDynamics/helpers.py:98-101 | p1_dist and p2_dist map exactly the actions played, each to its count over num_rounds |
| NoRegret.AddRow | NoRegretDynamics/helpers.py:105-107 | the inner loop adds total_cost(a1, a2) * freq1 * freq2 over the keys of p2_dist |
| NoRegret.MarginalCost | NoRegretDynamics/helpers.py:83-109 | marginal_cost returns the sum of total_cost over all pairs of rounds divided by num_rounds squared, and 0 for no rounds |
| NoRegret.PairSumScales | NoRegretDynamics/helpers.py:105-107 | the inner loop for a1 is freq1 times a1's count-weighted cost against p2's keys, over num_rounds |
| NoRegret.RowDot | NoRegretDynamics/helpers.py:100-107 | weighing each key of p2 by its count is costing a1 against every round of p2 |
| NoRegret.OuterSumScales | NoRegretDynamics/helpers.py:103-107 | weighing each key's row by its frequency and again over num_rounds is weighing it by its count over num_rounds squared |
| NoRegret.KeyRowsAddUp | NoRegretDynamics/helpers.py:98-107 | costing each key of p1 against p2, weighed by its count, gives the cost over all pairs of rounds |
| NoRegret.MarginalIsProductCost | NoRegretDynamics/helpers.py:96-107 | the two loops over the dicts compute the cost over all pairs of rounds divided by num_rounds squared |
| NoRegret.FrequenciesSumTo | NoRegretDynamics/helpers.py:98-101 | the frequencies of a dict add up to its number of rounds over num_rounds: 1 for p1_dist, and for p2_dist only when both players have as many rounds |
| NoRegret.ProductCostAgainstMean | NoRegretDynamics/helpers.py:128-131 | with as many rounds for both players, the product-marginal cost is the average over player 1's rounds of its cost against player 2's average schedule |
| NoRegret.DistToNash | NoRegretDynamics/helpers.py:112-137 | dist_to_nash: the product-marginal cost minus the total_cost of the best response to player 2's mean, against that mean |
| NoRegret.DistToNashGap | NoRegretDynamics/helpers.py:112-137 | dist_to_nash is non-negative when both players have as many rounds and player 1 plays feasible schedules, and zero when player 1 always plays the best response to player 2's average |
| NoRegret.Welfare | NoRegretDynamics/helpers.py:140-159 | welfare returns the probability-weighted sum of both players' total_cost over the distribution's entries |
| NoRegret.WelfareIsBothPlayersCost | NoRegretDynamics/helpers.py:153-157 | welfare is player 1's expected cost plus player 2's expected cost, and 0 for an empty distribution |
| NoRegret.WelfareSymmetric | NoRegretDynamics/helpers.py:154-157 | swapping every key (a, b) to (b, a) leaves welfare unchanged |

## Left out

- Floating point: numpy floats are modelled as exact reals, and `np.inf` by the `Infinite` case of an extended cost. Rounding and overflow are not modelled.
- Trades and volumes are integers. The cast `int(volrem)` in the forward pass (BR.py:83) is the identity in the model, and the float `anow` array is a `seq<int>` that `AsReals` converts for `total_cost`.
- BestRespond: requires `T >= 1`, `len(bnow) >= T` and `lower_limit <= 0 <= upper_limit`. The code's indexing relies on these. With `lower_limit > 0` or `upper_limit < 0` the windows of earlier steps are not inside the window at `T`, so `s_to_index` can leave the table (numpy wraps negative indices), and the bounds check at BR.py:64 is commented out. Invalid bounds (`lower_limit > upper_limit`) are not reported by the code and are excluded here.
- Infeasible volumes are not reported as an error. When `V` lies outside `[T*lower, T*upper]`, the code returns the all-zero schedule built from unwritten table cells. `InfeasibleStateIsIdle` states this.
- For `T == 1` the code's base case reads `b[T-2]`, which Python resolves to `b[-1] == bnow[0]`. The stored cost then includes a permanent-impact term that `total_cost` does not charge. The returned schedule is unaffected (`SingleStepHorizon`).
- RegretIsHindsightGap: regret's `r * total_cost(...)` is modelled as `r` copies added up (`Times`), which `TimesIsProduct` proves equal to the product.
- Regret requires a non-empty batch of opponent schedules of one width covering the horizon. With `r == 0` the source divides by zero. Within `swap_regret` every group is non-empty (`GroupBatchReady`).
- SwapRegret and its lemmas require `len(p2_actions) >= len(p1_actions)`; otherwise the source raises an IndexError. Rounds of player 2 beyond player 1's are ignored, as in the source.
- MarginalCost requires `p1_actions` to be non-empty whenever `p2_actions` is. Otherwise the source divides by zero building `p2_dist`.
- Both marginals are normalised by player 1's number of rounds (helpers.py:99 and 101). The weights of `p2_dist` therefore add up to `len(p2)/len(p1)` (`FrequenciesSumTo`). The model keeps this normalisation. ProductCostAgainstMean and DistToNashGap require both players have as many rounds.
- Regret requires its batch of opponent schedules to have one width, as `np.add.reduce` does. The width of `p2_actions` in dist_to_nash is required to be uniform too, because `zip(*p2_actions)` would otherwise truncate to the shortest.
- SwapRegret: requires player 2's schedules to have one width across all rounds of swap_regret (`SwapReady`). The source needs one width only within each group, because `np.add.reduce` runs once per group. Player 2 schedules of different widths in different groups are not modelled.
- The conversion of actions to tuples (helpers.py:63-64, 98, 100) only makes them hashable. In the model actions are sequences compared by value.
- The welfare joint distribution is a sequence of (pair, probability) entries. Its order is the dict's iteration order. The model does not require the probabilities to be non-negative or to add up to 1, and neither does the source.
- `plot.py`, the `sys.path` manipulation and the numpy imports are I/O and environment set-up; they are not modelled.
