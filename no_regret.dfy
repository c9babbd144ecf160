/** The learning-dynamics metrics of NoRegretDynamics/helpers.py, built on the
    two oracles: total_cost (TradingCost.TotalCost, computed by
    ComputeTotalCost) and best_respond (DynamicProgram.BestResponse, computed
    by Tabulation.BestRespond). A batch of trajectories is a sequence of
    schedules; action keys compare by value. */
module NoRegret {
  import opened TradingCost
  import opened DynamicProgram
  import opened Grouping

  // ---------------------------------------------------------------------------
  // Averaging a batch of opponent schedules.
  // ---------------------------------------------------------------------------

  /** Every schedule in xs has w steps, as in a 2-D numpy array. */
  predicate Uniform(xs: seq<seq<real>>, w: int)
  {
    forall i :: 0 <= i < |xs| ==> |xs[i]| == w
  }

  /** np.add.reduce over a batch: the element-wise sum. */
  function ColumnSums(xs: seq<seq<real>>, w: nat): (r: seq<real>)
    requires Uniform(xs, w)
    ensures |r| == w
  {
    if |xs| == 0 then seq(w, k => 0.0)
    else Add(ColumnSums(xs[..|xs| - 1], w), xs[|xs| - 1])
  }

  /** The element-wise mean of a non-empty batch. */
  function Mean(xs: seq<seq<real>>): (m: seq<real>)
    requires |xs| > 0 && Uniform(xs, |xs[0]|)
    ensures |m| == |xs[0]|
  {
    Scale(1.0 / (|xs| as real), ColumnSums(xs, |xs[0]|))
  }

  /** The cost of playing a against each schedule of opps, in turn. */
  function CostsAgainst(a: seq<real>, opps: seq<seq<real>>, kappa: real): (r: seq<real>)
    requires forall i :: 0 <= i < |opps| ==> |a| <= |opps[i]|
    ensures |r| == |opps|
  {
    seq(|opps|, i requires 0 <= i < |opps| => TotalCost(a, opps[i], kappa))
  }

  /** n copies of x, added up. */
  function Times(n: nat, x: real): real
  {
    if n == 0 then 0.0 else Times(n - 1, x) + x
  }

  lemma {:induction false} TimesIsProduct(n: nat, x: real)
    ensures Times(n, x) == (n as real) * x
  {
    if n > 0 {
      TimesIsProduct(n - 1, x);
      assert ((n - 1) as real) * x + x == (n as real) * x;
    }
  }

  lemma {:induction false} BatchCost(a: seq<real>, opps: seq<seq<real>>, w: nat, kappa: real)
    requires Uniform(opps, w) && |a| <= w
    ensures Sum(CostsAgainst(a, opps, kappa))
            == Times(|opps|, Own(a, kappa, 0.0)) + Exposure(a, ColumnSums(opps, w), kappa, 0.0)
  {
    if |opps| == 0 {
      var zero := ColumnSums(opps, w);
      assert Scale(0.0, zero) == zero;
      ExposureScales(a, zero, kappa, 0.0, 0.0, 0.0);
    } else {
      var n := |opps| - 1;
      var front, x := opps[..n], opps[n];
      var here := TotalCost(a, x, kappa);
      BatchCost(a, front, w, kappa);
      assert CostsAgainst(a, opps, kappa) == CostsAgainst(a, front, kappa) + [here];
      SumAppend(CostsAgainst(a, front, kappa), [here]);
      assert Sum([here]) == here;
      CostSplits(a, x, kappa, 0.0, 0.0);
      assert ColumnSums(opps, w) == Add(ColumnSums(front, w), x);
      ExposureAdditive(a, ColumnSums(front, w), x, kappa, 0.0, 0.0);
    }
  }

  /** Averaging is exact: playing a against every schedule of a batch costs
      as much as playing it against their mean once per schedule, because
      total_cost is affine in the opponent's schedule. */
  lemma AveragingIsExact(a: seq<real>, opps: seq<seq<real>>, kappa: real)
    requires |opps| > 0 && Uniform(opps, |opps[0]|) && |a| <= |opps[0]|
    ensures Sum(CostsAgainst(a, opps, kappa)) == (|opps| as real) * TotalCost(a, Mean(opps), kappa)
  {
    var n, tc := |opps|, TotalCost(a, Mean(opps), kappa);
    AveragingCounts(a, opps, kappa);
    TimesIsProduct(n, tc);
  }

  /** The same, with the multiplication by |opps| written as repeated addition. */
  lemma AveragingCounts(a: seq<real>, opps: seq<seq<real>>, kappa: real)
    requires |opps| > 0 && Uniform(opps, |opps[0]|) && |a| <= |opps[0]|
    ensures Sum(CostsAgainst(a, opps, kappa)) == Times(|opps|, TotalCost(a, Mean(opps), kappa))
  {
    var n, own := |opps|, Own(a, kappa, 0.0);
    var exp, meanExp := Exposure(a, ColumnSums(opps, |opps[0]|), kappa, 0.0), Exposure(a, Mean(opps), kappa, 0.0);
    BatchCost(a, opps, |opps[0]|, kappa);
    assert Sum(CostsAgainst(a, opps, kappa)) == Times(n, own) + exp;
    CostSplits(a, Mean(opps), kappa, 0.0, 0.0);
    assert TotalCost(a, Mean(opps), kappa) == own + meanExp;
    TimesAdds(n, own, meanExp);
    MeanExposure(a, opps, kappa);
  }

  lemma {:induction false} TimesMono(n: nat, x: real, y: real)
    requires x <= y
    ensures Times(n, x) <= Times(n, y)
  {
    if n > 0 {
      TimesMono(n - 1, x, y);
    }
  }

  lemma {:induction false} TimesAdds(n: nat, x: real, y: real)
    ensures Times(n, x + y) == Times(n, x) + Times(n, y)
  {
    if n > 0 {
      TimesAdds(n - 1, x, y);
    }
  }

  lemma MeanExposure(a: seq<real>, opps: seq<seq<real>>, kappa: real)
    requires |opps| > 0 && Uniform(opps, |opps[0]|) && |a| <= |opps[0]|
    ensures Times(|opps|, Exposure(a, Mean(opps), kappa, 0.0)) == Exposure(a, ColumnSums(opps, |opps[0]|), kappa, 0.0)
  {
    var n, sums := |opps|, ColumnSums(opps, |opps[0]|);
    var c := 1.0 / (n as real);
    MeanScales(a, opps, kappa);
    TimesScaled(n, c, Exposure(a, sums, kappa, 0.0), Exposure(a, Mean(opps), kappa, 0.0));
  }

  lemma MeanScales(a: seq<real>, opps: seq<seq<real>>, kappa: real)
    requires |opps| > 0 && Uniform(opps, |opps[0]|) && |a| <= |opps[0]|
    ensures Exposure(a, Mean(opps), kappa, 0.0)
            == (1.0 / (|opps| as real)) * Exposure(a, ColumnSums(opps, |opps[0]|), kappa, 0.0)
  {
    var c := 1.0 / (|opps| as real);
    assert c * 0.0 == 0.0;
    ExposureScales(a, ColumnSums(opps, |opps[0]|), kappa, 0.0, c, 0.0);
  }

  lemma TimesScaled(n: nat, c: real, x: real, y: real)
    requires n > 0 && c == 1.0 / (n as real) && y == c * x
    ensures Times(n, y) == x
  {
    var r := n as real;
    TimesIsProduct(n, y);
    assert r * (c * x) == (r * c) * x;
  }

  // ---------------------------------------------------------------------------
  // regret (helpers.py:8-35).
  // ---------------------------------------------------------------------------

  /** What regret and dist_to_nash need of a batch of opponent schedules:
      at least one, all of one width covering the horizon, and limits that
      best_respond accepts. */
  predicate BatchReady(opps: seq<seq<real>>, T: int, lower: int, upper: int)
  {
    |opps| > 0 && Uniform(opps, |opps[0]|) && 1 <= T <= |opps[0]| && lower <= 0 <= upper
  }

  /** The best-response problem against the mean of a batch. */
  function AgainstMean(opps: seq<seq<real>>, V: int, T: int, kappa: real, lower: int, upper: int): (p: Problem)
    requires BatchReady(opps, T, lower, upper)
    ensures p.Valid()
  {
    Problem(V, Mean(opps), T, kappa, lower, upper)
  }

  /** The cost of the best fixed schedule in hindsight as regret prices it:
      best_respond against the mean, its total_cost multiplied by the number
      of opponent schedules (written as that many copies added up). */
  function HindsightCost(opps: seq<seq<real>>, V: int, T: int, kappa: real, lower: int, upper: int): real
    requires BatchReady(opps, T, lower, upper)
  {
    var p := AgainstMean(opps, V, T, kappa, lower, upper);
    Times(|opps|, TotalCost(AsReals(BestResponse(p)), p.opp, kappa))
  }

  /** regret: cumulative cost minus the hindsight cost. */
  function Regret(cumulative: real, opps: seq<seq<real>>, V: int, T: int, kappa: real, lower: int, upper: int): real
    requires BatchReady(opps, T, lower, upper)
  {
    cumulative - HindsightCost(opps, V, T, kappa, lower, upper)
  }

  /** regret is external regret: the realised cost minus what the best fixed
      admissible schedule would have cost against every opponent schedule. The
      best response to the mean is one such schedule, and no admissible
      schedule does better against the batch. */
  lemma RegretIsHindsightGap(cumulative: real, opps: seq<seq<real>>, V: int, T: int, kappa: real,
                             lower: int, upper: int, other: seq<int>)
    requires BatchReady(opps, T, lower, upper)
    requires Admissible(AgainstMean(opps, V, T, kappa, lower, upper), 0, V, other)
    ensures var br := BestResponse(AgainstMean(opps, V, T, kappa, lower, upper));
      && Admissible(AgainstMean(opps, V, T, kappa, lower, upper), 0, V, br)
      && Regret(cumulative, opps, V, T, kappa, lower, upper) == cumulative - Sum(CostsAgainst(AsReals(br), opps, kappa))
    ensures Regret(cumulative, opps, V, T, kappa, lower, upper) >= cumulative - Sum(CostsAgainst(AsReals(other), opps, kappa))
  {
    var p := AgainstMean(opps, V, T, kappa, lower, upper);
    var br := BestResponse(p);
    BestResponseIsOptimal(p, other);
    AveragingCounts(AsReals(br), opps, kappa);
    AveragingCounts(AsReals(other), opps, kappa);
    TimesMono(|opps|, TotalCost(AsReals(br), p.opp, kappa), TotalCost(AsReals(other), p.opp, kappa));
  }

  // ---------------------------------------------------------------------------
  // swap_regret (helpers.py:38-80).
  // ---------------------------------------------------------------------------

  /** What swap_regret needs: an opponent schedule for every round, every
      round's schedules comparable by total_cost, and the opponent schedules
      of one width covering the horizon. */
  predicate SwapReady(p1: seq<seq<real>>, p2: seq<seq<real>>, T: int, lower: int, upper: int)
  {
    && |p1| <= |p2| && 1 <= T && lower <= 0 <= upper
    && forall t :: 0 <= t < |p1| ==> |p1[t]| <= |p2[t]| && T <= |p2[t]| && |p2[t]| == |p2[0]|
  }

  /** Player 1's cost in each round (p1_costs). */
  function RoundCosts(p1: seq<seq<real>>, p2: seq<seq<real>>, kappa: real): (c: seq<real>)
    requires |p1| <= |p2| && forall t :: 0 <= t < |p1| ==> |p1[t]| <= |p2[t]|
    ensures |c| == |p1|
  {
    seq(|p1|, t requires 0 <= t < |p1| => TotalCost(p1[t], p2[t], kappa))
  }

  /** The listed rounds of a batch, in list order. */
  function Select(xs: seq<seq<real>>, idx: seq<int>): (r: seq<seq<real>>)
    requires forall i :: 0 <= i < |idx| ==> 0 <= idx[i] < |xs|
    ensures |r| == |idx| && forall i :: 0 <= i < |idx| ==> r[i] == xs[idx[i]]
  {
    seq(|idx|, i requires 0 <= i < |idx| => xs[idx[i]])
  }

  /** The opponent schedules of the rounds in which player 1 played a. */
  lemma GroupBatchReady(p1: seq<seq<real>>, p2: seq<seq<real>>, T: int, lower: int, upper: int, a: seq<real>)
    requires SwapReady(p1, p2, T, lower, upper) && a in p1
    ensures BatchReady(Select(p2, IndicesOf(p1, a)), T, lower, upper)
  {
    PlayedHasRounds(p1, a);
  }

  /** The regret of one group: its summed costs against its opponent batch. */
  function GroupRegret(p1: seq<seq<real>>, p2: seq<seq<real>>, V: int, T: int, kappa: real,
                       lower: int, upper: int, a: seq<real>): real
    requires SwapReady(p1, p2, T, lower, upper) && a in p1
  {
    var idx := IndicesOf(p1, a);
    GroupBatchReady(p1, p2, T, lower, upper, a);
    Regret(SumAt(RoundCosts(p1, p2, kappa), idx), Select(p2, idx), V, T, kappa, lower, upper)
  }

  /** The group regrets over the keys ds, added up. */
  function GroupRegrets(ds: seq<seq<real>>, p1: seq<seq<real>>, p2: seq<seq<real>>, V: int, T: int,
                        kappa: real, lower: int, upper: int): real
    requires SwapReady(p1, p2, T, lower, upper) && forall m :: 0 <= m < |ds| ==> ds[m] in p1
  {
    if |ds| == 0 then 0.0
    else GroupRegrets(ds[..|ds| - 1], p1, p2, V, T, kappa, lower, upper)
         + GroupRegret(p1, p2, V, T, kappa, lower, upper, ds[|ds| - 1])
  }

  /** Swap regret: for each distinct action of player 1, the regret of the
      rounds in which it was played. */
  function SwapRegretOf(p1: seq<seq<real>>, p2: seq<seq<real>>, V: int, T: int, kappa: real,
                        lower: int, upper: int): real
    requires SwapReady(p1, p2, T, lower, upper)
  {
    GroupRegrets(Distinct(p1), p1, p2, V, T, kappa, lower, upper)
  }

  /** swap_regret as the source runs it: cost every round, group the rounds
      by player 1's action, then add up each group's regret. */
  method SwapRegret(p1: seq<seq<real>>, p2: seq<seq<real>>, Va: int, T: int, kappa: real,
                    lower: int, upper: int) returns (totalRegret: real)
    requires SwapReady(p1, p2, T, lower, upper)
    ensures totalRegret == SwapRegretOf(p1, p2, Va, T, kappa, lower, upper)
  {
    var p1Costs := ComputeRoundCosts(p1, p2, kappa);
    var order, actionToIndices := GroupRounds(p1);
    DistinctKeys(p1);
    totalRegret := 0.0;
    for m := 0 to |order|
      invariant totalRegret == GroupRegrets(order[..m], p1, p2, Va, T, kappa, lower, upper)
    {
      var a1 := order[m];
      var indices := actionToIndices[a1];
      GroupStep(p1, p2, Va, T, kappa, lower, upper, order, m);
      var p2Subseq := Select(p2, indices);
      var subseqCost := SumAt(p1Costs, indices);
      totalRegret := totalRegret + Regret(subseqCost, p2Subseq, Va, T, kappa, lower, upper);
    }
    assert order[..|order|] == order;
  }

  /** One more key of the dict adds that key's group regret. */
  lemma GroupStep(p1: seq<seq<real>>, p2: seq<seq<real>>, V: int, T: int, kappa: real,
                  lower: int, upper: int, order: seq<seq<real>>, m: int)
    requires SwapReady(p1, p2, T, lower, upper) && order == Distinct(p1) && 0 <= m < |order|
    ensures BatchReady(Select(p2, IndicesOf(p1, order[m])), T, lower, upper)
    ensures forall i :: 0 <= i < |IndicesOf(p1, order[m])| ==> 0 <= IndicesOf(p1, order[m])[i] < |p1|
    ensures GroupRegrets(order[..m + 1], p1, p2, V, T, kappa, lower, upper)
            == GroupRegrets(order[..m], p1, p2, V, T, kappa, lower, upper)
               + Regret(SumAt(RoundCosts(p1, p2, kappa), IndicesOf(p1, order[m])),
                        Select(p2, IndicesOf(p1, order[m])), V, T, kappa, lower, upper)
  {
    assert order[..m + 1][..m] == order[..m];
    GroupBatchReady(p1, p2, T, lower, upper, order[m]);
  }

  /** The p1_costs loop: total_cost of every round. */
  method ComputeRoundCosts(p1: seq<seq<real>>, p2: seq<seq<real>>, kappa: real) returns (p1Costs: seq<real>)
    requires |p1| <= |p2| && forall t :: 0 <= t < |p1| ==> |p1[t]| <= |p2[t]|
    ensures p1Costs == RoundCosts(p1, p2, kappa)
  {
    p1Costs := [];
    for t := 0 to |p1|
      invariant |p1Costs| == t
      invariant forall i :: 0 <= i < t ==> p1Costs[i] == TotalCost(p1[i], p2[i], kappa)
    {
      var c := ComputeTotalCost(p1[t], p2[t], kappa);
      p1Costs := p1Costs + [c];
    }
  }

  /** The hindsight costs of the groups over the keys ds, added up. */
  function GroupHindsight(ds: seq<seq<real>>, p1: seq<seq<real>>, p2: seq<seq<real>>, V: int, T: int,
                          kappa: real, lower: int, upper: int): real
    requires SwapReady(p1, p2, T, lower, upper) && forall m :: 0 <= m < |ds| ==> ds[m] in p1
  {
    if |ds| == 0 then 0.0
    else
      var a := ds[|ds| - 1];
      GroupBatchReady(p1, p2, T, lower, upper, a);
      GroupHindsight(ds[..|ds| - 1], p1, p2, V, T, kappa, lower, upper)
      + HindsightCost(Select(p2, IndicesOf(p1, a)), V, T, kappa, lower, upper)
  }

  lemma {:induction false} GroupRegretsSplit(ds: seq<seq<real>>, p1: seq<seq<real>>, p2: seq<seq<real>>,
                                             V: int, T: int, kappa: real, lower: int, upper: int)
    requires SwapReady(p1, p2, T, lower, upper) && forall m :: 0 <= m < |ds| ==> ds[m] in p1
    ensures GroupRegrets(ds, p1, p2, V, T, kappa, lower, upper)
            == GroupSum(ds, p1, RoundCosts(p1, p2, kappa)) - GroupHindsight(ds, p1, p2, V, T, kappa, lower, upper)
  {
    if |ds| > 0 {
      GroupRegretsSplit(ds[..|ds| - 1], p1, p2, V, T, kappa, lower, upper);
    }
  }

  /** The group costs add up to player 1's whole cumulative cost, so swap
      regret is that cost minus the groups' hindsight costs. */
  lemma SwapRegretSplits(p1: seq<seq<real>>, p2: seq<seq<real>>, V: int, T: int, kappa: real, lower: int, upper: int)
    requires SwapReady(p1, p2, T, lower, upper)
    ensures SwapRegretOf(p1, p2, V, T, kappa, lower, upper)
            == Sum(RoundCosts(p1, p2, kappa)) - GroupHindsight(Distinct(p1), p1, p2, V, T, kappa, lower, upper)
  {
    DistinctKeys(p1);
    GroupRegretsSplit(Distinct(p1), p1, p2, V, T, kappa, lower, upper);
    GroupSumsAddUp(p1, RoundCosts(p1, p2, kappa));
    assert RoundCosts(p1, p2, kappa)[..|p1|] == RoundCosts(p1, p2, kappa);
  }

  /** A player 1 that plays one schedule throughout has swap regret equal to
      its external regret over all rounds. */
  lemma SingleActionSwapRegret(p1: seq<seq<real>>, p2: seq<seq<real>>, V: int, T: int, kappa: real,
                               lower: int, upper: int)
    requires SwapReady(p1, p2, T, lower, upper) && |p1| > 0
    requires forall t :: 0 <= t < |p1| ==> p1[t] == p1[0]
    ensures BatchReady(p2[..|p1|], T, lower, upper)
    ensures SwapRegretOf(p1, p2, V, T, kappa, lower, upper)
            == Regret(Sum(RoundCosts(p1, p2, kappa)), p2[..|p1|], V, T, kappa, lower, upper)
  {
    var n, k, costs := |p1|, p1[0], RoundCosts(p1, p2, kappa);
    OnlyGroup(p1, p2, V, T, kappa, lower, upper);
    SingleKey(p1, k);
    SumAtRounds(costs, n);
    assert costs[..n] == costs;
    assert Select(p2, Rounds(n)) == p2[..n];
  }

  /** With one action played throughout, swap regret has a single group. */
  lemma OnlyGroup(p1: seq<seq<real>>, p2: seq<seq<real>>, V: int, T: int, kappa: real, lower: int, upper: int)
    requires SwapReady(p1, p2, T, lower, upper) && |p1| > 0
    requires forall t :: 0 <= t < |p1| ==> p1[t] == p1[0]
    ensures SwapRegretOf(p1, p2, V, T, kappa, lower, upper) == GroupRegret(p1, p2, V, T, kappa, lower, upper, p1[0])
  {
    var k := p1[0];
    SingleKey(p1, k);
    assert [k][..0] == [];
    assert GroupRegrets([k], p1, p2, V, T, kappa, lower, upper)
           == GroupRegrets([], p1, p2, V, T, kappa, lower, upper) + GroupRegret(p1, p2, V, T, kappa, lower, upper, k);
  }

  /** A group's summed costs are its action's costs against its batch. */
  lemma {:induction false} GroupCostIsBatchCost(p1: seq<seq<real>>, p2: seq<seq<real>>, kappa: real,
                                                a: seq<real>, idx: seq<int>)
    requires |p1| <= |p2| && forall t :: 0 <= t < |p1| ==> |p1[t]| <= |p2[t]|
    requires forall i :: 0 <= i < |idx| ==> 0 <= idx[i] < |p1| && p1[idx[i]] == a
    ensures SumAt(RoundCosts(p1, p2, kappa), idx) == Sum(CostsAgainst(a, Select(p2, idx), kappa))
  {
    if |idx| > 0 {
      var front, t := idx[..|idx| - 1], idx[|idx| - 1];
      GroupCostIsBatchCost(p1, p2, kappa, a, front);
      var batch := Select(p2, front);
      assert Select(p2, idx) == batch + [p2[t]];
      assert CostsAgainst(a, Select(p2, idx), kappa) == CostsAgainst(a, batch, kappa) + [TotalCost(a, p2[t], kappa)];
      SumAppend(CostsAgainst(a, batch, kappa), [TotalCost(a, p2[t], kappa)]);
      assert Sum([TotalCost(a, p2[t], kappa)]) == TotalCost(a, p2[t], kappa);
    }
  }

  /** The schedules best_respond chooses among; they do not depend on the
      opponent. */
  predicate Feasible(V: int, T: int, lower: int, upper: int, s: seq<int>)
  {
    |s| == T && Total(s) == V && forall i :: 0 <= i < |s| ==> lower <= s[i] <= upper
  }

  /** A feasible schedule is admissible against the mean of any batch. */
  lemma FeasibleIsAdmissible(opps: seq<seq<real>>, V: int, T: int, kappa: real, lower: int, upper: int, s: seq<int>)
    requires BatchReady(opps, T, lower, upper) && Feasible(V, T, lower, upper, s)
    ensures Admissible(AgainstMean(opps, V, T, kappa, lower, upper), 0, V, s)
  {
  }

  lemma {:induction false} GroupRegretsNonNegative(ds: seq<seq<real>>, p1: seq<seq<real>>, p2: seq<seq<real>>,
                                                   plays: seq<seq<int>>, V: int, T: int, kappa: real,
                                                   lower: int, upper: int)
    requires SwapReady(p1, p2, T, lower, upper) && forall m :: 0 <= m < |ds| ==> ds[m] in p1
    requires |plays| == |p1|
    requires forall t :: 0 <= t < |p1| ==> p1[t] == AsReals(plays[t]) && Feasible(V, T, lower, upper, plays[t])
    ensures GroupRegrets(ds, p1, p2, V, T, kappa, lower, upper) >= 0.0
  {
    if |ds| > 0 {
      GroupRegretsNonNegative(ds[..|ds| - 1], p1, p2, plays, V, T, kappa, lower, upper);
      var a := ds[|ds| - 1];
      var t :| 0 <= t < |p1| && p1[t] == a;
      var idx := IndicesOf(p1, a);
      GroupBatchReady(p1, p2, T, lower, upper, a);
      GroupCostIsBatchCost(p1, p2, kappa, a, idx);
      FeasibleIsAdmissible(Select(p2, idx), V, T, kappa, lower, upper, plays[t]);
      RegretIsHindsightGap(SumAt(RoundCosts(p1, p2, kappa), idx), Select(p2, idx), V, T, kappa, lower, upper, plays[t]);
    }
  }

  /** Swap regret is never negative when player 1 only plays schedules that
      best_respond could have chosen: within each group, the schedule actually
      played is one of the fixed alternatives regret compares against. */
  lemma SwapRegretNonNegative(p1: seq<seq<real>>, p2: seq<seq<real>>, plays: seq<seq<int>>,
                              V: int, T: int, kappa: real, lower: int, upper: int)
    requires SwapReady(p1, p2, T, lower, upper) && |plays| == |p1|
    requires forall t :: 0 <= t < |p1| ==> p1[t] == AsReals(plays[t]) && Feasible(V, T, lower, upper, plays[t])
    ensures SwapRegretOf(p1, p2, V, T, kappa, lower, upper) >= 0.0
  {
    DistinctKeys(p1);
    GroupRegretsNonNegative(Distinct(p1), p1, p2, plays, V, T, kappa, lower, upper);
  }

  /** Player 1 plays, in every round, best_respond's schedule against player
      2's schedule of that round. */
  predicate BestResponding(p1: seq<seq<real>>, p2: seq<seq<real>>, plays: seq<seq<int>>,
                           V: int, T: int, kappa: real, lower: int, upper: int)
  {
    && SwapReady(p1, p2, T, lower, upper) && |plays| == |p1|
    && forall t :: 0 <= t < |p1| ==>
         plays[t] == BestResponse(Problem(V, p2[t], T, kappa, lower, upper)) && p1[t] == AsReals(plays[t])
  }

  /** A player 1 that best-responds to every round has no swap regret: in
      each group the action played is optimal against every opponent schedule
      of the group, hence against their sum, and so is the best response to
      the group's mean. */
  lemma BestRespondingHasNoSwapRegret(p1: seq<seq<real>>, p2: seq<seq<real>>, plays: seq<seq<int>>,
                                      V: int, T: int, kappa: real, lower: int, upper: int)
    requires BestResponding(p1, p2, plays, V, T, kappa, lower, upper)
    ensures SwapRegretOf(p1, p2, V, T, kappa, lower, upper) == 0.0
  {
    GroupRegretsVanish(Distinct(p1), p1, p2, plays, V, T, kappa, lower, upper);
  }

  lemma {:induction false} GroupRegretsVanish(ds: seq<seq<real>>, p1: seq<seq<real>>, p2: seq<seq<real>>,
                                              plays: seq<seq<int>>, V: int, T: int, kappa: real,
                                              lower: int, upper: int)
    requires BestResponding(p1, p2, plays, V, T, kappa, lower, upper)
    requires forall m :: 0 <= m < |ds| ==> ds[m] in p1
    ensures GroupRegrets(ds, p1, p2, V, T, kappa, lower, upper) == 0.0
  {
    if |ds| > 0 {
      GroupRegretsVanish(ds[..|ds| - 1], p1, p2, plays, V, T, kappa, lower, upper);
      GroupRegretVanishes(p1, p2, plays, V, T, kappa, lower, upper, ds[|ds| - 1]);
    }
  }

  /** The regret of one group of a best-responding player 1 is 0. */
  lemma GroupRegretVanishes(p1: seq<seq<real>>, p2: seq<seq<real>>, plays: seq<seq<int>>,
                            V: int, T: int, kappa: real, lower: int, upper: int, a: seq<real>)
    requires BestResponding(p1, p2, plays, V, T, kappa, lower, upper) && a in p1
    ensures GroupRegret(p1, p2, V, T, kappa, lower, upper, a) == 0.0
  {
    var idx := IndicesOf(p1, a);
    GroupBatchReady(p1, p2, T, lower, upper, a);
    GroupCostIsBatchCost(p1, p2, kappa, a, idx);
    if T * lower <= V <= T * upper {
      FeasibleGroupAttains(p1, p2, plays, V, T, kappa, lower, upper, a);
    } else {
      IdleGroupAttains(p1, p2, plays, V, T, kappa, lower, upper, a);
    }
  }

  /** With V reachable, the group's cost equals its hindsight cost: the action
      played is admissible, so the best response to the mean costs no more
      against the group, and being optimal every round it costs no less. */
  lemma FeasibleGroupAttains(p1: seq<seq<real>>, p2: seq<seq<real>>, plays: seq<seq<int>>,
                             V: int, T: int, kappa: real, lower: int, upper: int, a: seq<real>)
    requires BestResponding(p1, p2, plays, V, T, kappa, lower, upper) && a in p1
    requires T * lower <= V <= T * upper
    ensures BatchReady(Select(p2, IndicesOf(p1, a)), T, lower, upper)
    ensures Sum(CostsAgainst(a, Select(p2, IndicesOf(p1, a)), kappa))
            == HindsightCost(Select(p2, IndicesOf(p1, a)), V, T, kappa, lower, upper)
  {
    var t0 :| 0 <= t0 < |p1| && p1[t0] == a;
    GroupBatchReady(p1, p2, T, lower, upper, a);
    var batch := Select(p2, IndicesOf(p1, a));
    var pm := AgainstMean(batch, V, T, kappa, lower, upper);
    var br := BestResponse(pm);
    AveragingCounts(a, batch, kappa);
    AveragingCounts(AsReals(br), batch, kappa);
    BestResponseBudget(Problem(V, p2[t0], T, kappa, lower, upper));
    BestResponseIsOptimal(pm, plays[t0]);
    TimesMono(|batch|, TotalCost(AsReals(br), pm.opp, kappa), TotalCost(a, pm.opp, kappa));
    GroupBeatsAlternative(p1, p2, plays, V, T, kappa, lower, upper, a, br);
  }

  /** With V out of reach, every best response is the idle schedule, so the
      action played is the best response to the mean as well. */
  lemma IdleGroupAttains(p1: seq<seq<real>>, p2: seq<seq<real>>, plays: seq<seq<int>>,
                         V: int, T: int, kappa: real, lower: int, upper: int, a: seq<real>)
    requires BestResponding(p1, p2, plays, V, T, kappa, lower, upper) && a in p1
    requires !(T * lower <= V <= T * upper)
    ensures BatchReady(Select(p2, IndicesOf(p1, a)), T, lower, upper)
    ensures Sum(CostsAgainst(a, Select(p2, IndicesOf(p1, a)), kappa))
            == HindsightCost(Select(p2, IndicesOf(p1, a)), V, T, kappa, lower, upper)
  {
    var t0 :| 0 <= t0 < |p1| && p1[t0] == a;
    GroupBatchReady(p1, p2, T, lower, upper, a);
    var batch := Select(p2, IndicesOf(p1, a));
    var pm := AgainstMean(batch, V, T, kappa, lower, upper);
    var q0 := Problem(V, p2[t0], T, kappa, lower, upper);
    AveragingCounts(a, batch, kappa);
    FeasibleIffInRange(pm);
    FeasibleIffInRange(q0);
    InfeasibleStateIsIdle(pm, 0, V);
    InfeasibleStateIsIdle(q0, 0, V);
    assert plays[t0] == BestResponse(pm);
  }

  /** Within a group of a best-responding player 1, the action played costs no
      more against the group's opponent schedules than any admissible schedule. */
  lemma GroupBeatsAlternative(p1: seq<seq<real>>, p2: seq<seq<real>>, plays: seq<seq<int>>,
                              V: int, T: int, kappa: real, lower: int, upper: int, a: seq<real>, other: seq<int>)
    requires BestResponding(p1, p2, plays, V, T, kappa, lower, upper)
    requires Feasible(V, T, lower, upper, other)
    ensures Sum(CostsAgainst(a, Select(p2, IndicesOf(p1, a)), kappa))
            <= Sum(CostsAgainst(AsReals(other), Select(p2, IndicesOf(p1, a)), kappa))
  {
    var idx := IndicesOf(p1, a);
    var batch := Select(p2, idx);
    var mine, theirs := CostsAgainst(a, batch, kappa), CostsAgainst(AsReals(other), batch, kappa);
    forall i | 0 <= i < |batch|
      ensures mine[i] <= theirs[i]
    {
      var t := idx[i];
      BestResponseIsOptimal(Problem(V, p2[t], T, kappa, lower, upper), other);
    }
    SumMono(mine, theirs);
  }

  lemma {:induction false} SumMono(xs: seq<real>, ys: seq<real>)
    requires |xs| == |ys| && forall i :: 0 <= i < |xs| ==> xs[i] <= ys[i]
    ensures Sum(xs) <= Sum(ys)
  {
    if |xs| > 0 {
      SumMono(xs[1..], ys[1..]);
    }
  }

  // ---------------------------------------------------------------------------
  // marginal_cost (helpers.py:83-109).
  // ---------------------------------------------------------------------------

  /** Every schedule of p1 can be costed against every schedule of p2. */
  predicate Fits(p1: seq<seq<real>>, p2: seq<seq<real>>)
  {
    forall i, j :: 0 <= i < |p1| && 0 <= j < |p2| ==> |p1[i]| <= |p2[j]|
  }

  /** Each schedule of p1 costed against every round of p2. */
  function RoundRows(p1: seq<seq<real>>, p2: seq<seq<real>>, kappa: real): (r: seq<real>)
    requires Fits(p1, p2)
    ensures |r| == |p1| && forall i :: 0 <= i < |p1| ==> r[i] == Sum(CostsAgainst(p1[i], p2, kappa))
  {
    seq(|p1|, i requires 0 <= i < |p1| => Sum(CostsAgainst(p1[i], p2, kappa)))
  }

  /** The sum of total_cost over all pairs of rounds. */
  function CrossCost(p1: seq<seq<real>>, p2: seq<seq<real>>, kappa: real): real
    requires Fits(p1, p2)
  {
    Sum(RoundRows(p1, p2, kappa))
  }

  /** A total over the n * n pairs of n rounds, averaged. */
  function PerPair(x: real, n: nat): real
    requires n > 0
  {
    x / ((n as real) * (n as real))
  }

  /** The expected cost under the product of the two empirical marginals, both
      normalised by player 1's number of rounds. */
  function ProductCost(p1: seq<seq<real>>, p2: seq<seq<real>>, kappa: real): real
    requires Fits(p1, p2)
  {
    if |p1| == 0 then 0.0 else PerPair(CrossCost(p1, p2, kappa), |p1|)
  }

  /** An entry of p1_dist or p2_dist: how often xs plays a, over num_rounds. */
  function Freq(xs: seq<seq<real>>, a: seq<real>, n: nat): real
    requires n > 0
  {
    (Count(xs, a) as real) / (n as real)
  }

  /** The entries of such a dict for the keys ds, in order. */
  function Freqs(xs: seq<seq<real>>, ds: seq<seq<real>>, n: nat): (f: seq<real>)
    requires n > 0
    ensures |f| == |ds| && forall k :: 0 <= k < |ds| ==> f[k] == Freq(xs, ds[k], n)
  {
    seq(|ds|, k requires 0 <= k < |ds| => Freq(xs, ds[k], n))
  }

  /** The inner loop of marginal_cost for one action a1 of weight f1: over
      the keys ds2 of p2_dist, total_cost(a1, a2) * (f1 * freq2). */
  function PairSum(a1: seq<real>, f1: real, ds2: seq<seq<real>>, p2: seq<seq<real>>, n: nat, kappa: real): real
    requires n > 0 && forall j :: 0 <= j < |ds2| ==> |a1| <= |ds2[j]|
  {
    if |ds2| == 0 then 0.0
    else
      var a2 := ds2[|ds2| - 1];
      PairSum(a1, f1, ds2[..|ds2| - 1], p2, n, kappa) + TotalCost(a1, a2, kappa) * (f1 * Freq(p2, a2, n))
  }

  /** Both loops of marginal_cost: the inner sum for every key of p1_dist. */
  function ProductSum(ds1: seq<seq<real>>, p1: seq<seq<real>>, ds2: seq<seq<real>>, p2: seq<seq<real>>,
                      n: nat, kappa: real): real
    requires n > 0 && Fits(ds1, ds2)
  {
    if |ds1| == 0 then 0.0
    else
      var a1 := ds1[|ds1| - 1];
      ProductSum(ds1[..|ds1| - 1], p1, ds2, p2, n, kappa) + PairSum(a1, Freq(p1, a1, n), ds2, p2, n, kappa)
  }

  /** The keys of two batches fit whenever the batches do. */
  lemma KeysFit(p1: seq<seq<real>>, p2: seq<seq<real>>)
    requires Fits(p1, p2)
    ensures Fits(Distinct(p1), Distinct(p2)) && Fits(Distinct(p1), p2)
  {
    var d1, d2 := Distinct(p1), Distinct(p2);
    forall i, j | 0 <= i < |d1| && 0 <= j < |d2|
      ensures |d1[i]| <= |d2[j]|
    {
      assert d1[i] in p1 && d2[j] in p2;
    }
    forall i, j | 0 <= i < |d1| && 0 <= j < |p2|
      ensures |d1[i]| <= |p2[j]|
    {
      assert d1[i] in p1;
    }
  }

  /** total_cost of a1 against each schedule of ds. */
  function CostVec(a1: seq<real>, ds: seq<seq<real>>, kappa: real): (c: seq<real>)
    requires forall j :: 0 <= j < |ds| ==> |a1| <= |ds[j]|
    ensures |c| == |ds| && forall j :: 0 <= j < |ds| ==> c[j] == TotalCost(a1, ds[j], kappa)
  {
    seq(|ds|, j requires 0 <= j < |ds| => TotalCost(a1, ds[j], kappa))
  }

  /** Each schedule of ds costed against the keys of p2, weighed by their
      counts: the inner loop's total before the scaling. */
  function RowVec(ds: seq<seq<real>>, p2: seq<seq<real>>, kappa: real): (c: seq<real>)
    requires Fits(ds, Distinct(p2))
    ensures |c| == |ds|
    ensures forall j :: 0 <= j < |ds| ==> c[j] == Dot(Counts(p2, Distinct(p2)), CostVec(ds[j], Distinct(p2), kappa))
  {
    seq(|ds|, j requires 0 <= j < |ds| => Dot(Counts(p2, Distinct(p2)), CostVec(ds[j], Distinct(p2), kappa)))
  }

  /** f * (x / n): a total over counts, turned into one over frequencies and
      weighed by f. */
  function Scaled(x: real, f: real, n: nat): real
    requires n > 0
  {
    f * (x / (n as real))
  }

  /** Sum of v[j] * (f1 * (u[j] / n)), the shape in which the inner loop adds
      up cost times weight. */
  function Weighed(u: seq<real>, v: seq<real>, f1: real, n: nat): real
    requires |u| == |v| && n > 0
  {
    if |u| == 0 then 0.0
    else Weighed(u[..|u| - 1], v[..|v| - 1], f1, n) + v[|v| - 1] * (f1 * (u[|u| - 1] / (n as real)))
  }

  lemma InnerStep(f1: real, w: real, cnt: real, c: real, r: real)
    requires r != 0.0
    ensures f1 * (w / r) + c * (f1 * (cnt / r)) == f1 * ((w + cnt * c) / r)
  {
    assert f1 * ((w + cnt * c) / r) == f1 * (w / r) + f1 * ((cnt * c) / r);
  }

  lemma {:induction false} WeighedScales(u: seq<real>, v: seq<real>, f1: real, n: nat)
    requires |u| == |v| && n > 0
    ensures Weighed(u, v, f1, n) == Scaled(Dot(u, v), f1, n)
  {
    if |u| > 0 {
      var k := |u| - 1;
      WeighedScales(u[..k], v[..k], f1, n);
      InnerStep(f1, Dot(u[..k], v[..k]), u[k], v[k], n as real);
    } else {
      assert f1 * (0.0 / (n as real)) == 0.0;
    }
  }

  lemma {:induction false} PairSumIsWeighed(a1: seq<real>, f1: real, ds2: seq<seq<real>>, p2: seq<seq<real>>,
                                            n: nat, kappa: real)
    requires n > 0 && forall j :: 0 <= j < |ds2| ==> |a1| <= |ds2[j]|
    ensures PairSum(a1, f1, ds2, p2, n, kappa) == Weighed(Counts(p2, ds2), CostVec(a1, ds2, kappa), f1, n)
  {
    if |ds2| > 0 {
      var k := |ds2| - 1;
      PairSumIsWeighed(a1, f1, ds2[..k], p2, n, kappa);
      assert Counts(p2, ds2)[..k] == Counts(p2, ds2[..k]);
      assert CostVec(a1, ds2, kappa)[..k] == CostVec(a1, ds2[..k], kappa);
    }
  }

  /** The inner loop for a1 is its count-weighed cost against the keys of
      p2, scaled by f1 over num_rounds. */
  lemma PairSumScales(a1: seq<real>, f1: real, ds2: seq<seq<real>>, p2: seq<seq<real>>, n: nat, kappa: real)
    requires n > 0 && forall j :: 0 <= j < |ds2| ==> |a1| <= |ds2[j]|
    ensures PairSum(a1, f1, ds2, p2, n, kappa) == Scaled(Dot(Counts(p2, ds2), CostVec(a1, ds2, kappa)), f1, n)
  {
    PairSumIsWeighed(a1, f1, ds2, p2, n, kappa);
    WeighedScales(Counts(p2, ds2), CostVec(a1, ds2, kappa), f1, n);
  }

  /** Weighing each key of p2 by its count is costing a1 against every round. */
  lemma RowDot(a1: seq<real>, p2: seq<seq<real>>, kappa: real)
    requires forall j :: 0 <= j < |p2| ==> |a1| <= |p2[j]|
    ensures forall j :: 0 <= j < |Distinct(p2)| ==> |a1| <= |Distinct(p2)[j]|
    ensures Dot(Counts(p2, Distinct(p2)), CostVec(a1, Distinct(p2), kappa)) == Sum(CostsAgainst(a1, p2, kappa))
  {
    var d2 := Distinct(p2);
    forall j | 0 <= j < |d2|
      ensures |a1| <= |d2[j]|
    {
      assert d2[j] in p2;
    }
    GroupSumByKey(d2, p2, CostsAgainst(a1, p2, kappa), CostVec(a1, d2, kappa));
    GroupSumsAddUpAll(p2, CostsAgainst(a1, p2, kappa));
  }

  /** Sum of Scaled(rows[k], fs[k], n): the outer loop's total. */
  function OuterSum(fs: seq<real>, rows: seq<real>, n: nat): real
    requires |fs| == |rows| && n > 0
  {
    if |fs| == 0 then 0.0
    else OuterSum(fs[..|fs| - 1], rows[..|rows| - 1], n) + Scaled(rows[|rows| - 1], fs[|fs| - 1], n)
  }

  lemma {:induction false} ProductSumIsOuterSum(ds1: seq<seq<real>>, p1: seq<seq<real>>, p2: seq<seq<real>>,
                                                n: nat, kappa: real)
    requires n > 0 && Fits(ds1, Distinct(p2))
    ensures ProductSum(ds1, p1, Distinct(p2), p2, n, kappa) == OuterSum(Freqs(p1, ds1, n), RowVec(ds1, p2, kappa), n)
  {
    if |ds1| > 0 {
      var k, d2 := |ds1| - 1, Distinct(p2);
      var a1 := ds1[k];
      ProductSumIsOuterSum(ds1[..k], p1, p2, n, kappa);
      assert Freqs(p1, ds1, n)[..k] == Freqs(p1, ds1[..k], n);
      assert RowVec(ds1, p2, kappa)[..k] == RowVec(ds1[..k], p2, kappa);
      PairSumScales(a1, Freq(p1, a1, n), d2, p2, n, kappa);
    }
  }

  lemma OuterStep(cs: seq<real>, rows: seq<real>, f: real, n: nat)
    requires 0 < |cs| == |rows| && n > 0 && f == cs[|cs| - 1] / (n as real)
    ensures PerPair(Dot(cs[..|cs| - 1], rows[..|rows| - 1]), n) + Scaled(rows[|rows| - 1], f, n)
            == PerPair(Dot(cs, rows), n)
  {
    Rescale(Dot(cs[..|cs| - 1], rows[..|rows| - 1]), cs[|cs| - 1], rows[|rows| - 1], f, n);
  }

  lemma Rescale(acc: real, c: real, y: real, f: real, n: nat)
    requires n > 0 && f == c / (n as real)
    ensures PerPair(acc, n) + Scaled(y, f, n) == PerPair(acc + Mul(c, y), n)
  {
    var r := n as real;
    assert f * (y / r) == (c * y) / (r * r);
    assert (acc + c * y) / (r * r) == acc / (r * r) + (c * y) / (r * r);
  }

  /** Weighing each key's row by its frequency twice over is weighing it by
      its count, over n * n. */
  lemma {:induction false} OuterSumScales(xs: seq<seq<real>>, ds: seq<seq<real>>, rows: seq<real>, n: nat)
    requires n > 0 && |rows| == |ds|
    ensures OuterSum(Freqs(xs, ds, n), rows, n) == PerPair(Dot(Counts(xs, ds), rows), n)
  {
    if |ds| > 0 {
      var k := |ds| - 1;
      OuterSumScales(xs, ds[..k], rows[..k], n);
      assert Freqs(xs, ds, n)[..k] == Freqs(xs, ds[..k], n);
      assert Counts(xs, ds)[..k] == Counts(xs, ds[..k]);
      OuterStep(Counts(xs, ds), rows, Freqs(xs, ds, n)[k], n);
    } else {
      assert 0.0 / ((n as real) * (n as real)) == 0.0;
    }
  }

  /** Costing each key of p1 against p2 and weighing it by its count gives
      the cost over all pairs of rounds. */
  lemma KeyRowsAddUp(p1: seq<seq<real>>, p2: seq<seq<real>>, kappa: real)
    requires Fits(p1, p2)
    ensures Fits(Distinct(p1), Distinct(p2))
    ensures Dot(Counts(p1, Distinct(p1)), RowVec(Distinct(p1), p2, kappa)) == CrossCost(p1, p2, kappa)
  {
    var d1, rows := Distinct(p1), RoundRows(p1, p2, kappa);
    KeysFit(p1, p2);
    var keyRows := RowVec(d1, p2, kappa);
    forall j, t | 0 <= j < |d1| && 0 <= t < |p1| && p1[t] == d1[j]
      ensures rows[t] == keyRows[j]
    {
      RowDot(d1[j], p2, kappa);
    }
    GroupSumByKey(d1, p1, rows, keyRows);
    GroupSumsAddUpAll(p1, rows);
  }

  /** The two loops of marginal_cost compute the product-marginal cost. */
  lemma MarginalIsProductCost(p1: seq<seq<real>>, p2: seq<seq<real>>, kappa: real)
    requires Fits(p1, p2) && |p1| > 0
    ensures Fits(Distinct(p1), Distinct(p2))
    ensures ProductSum(Distinct(p1), p1, Distinct(p2), p2, |p1|, kappa) == ProductCost(p1, p2, kappa)
  {
    var d1, n := Distinct(p1), |p1|;
    KeyRowsAddUp(p1, p2, kappa);
    ProductSumIsOuterSum(d1, p1, p2, n, kappa);
    OuterSumScales(p1, d1, RowVec(d1, p2, kappa), n);
  }

  /** A Counter turned into frequencies: each action of xs maps to its
      count over n. */
  function Dist(xs: seq<seq<real>>, n: nat): (d: map<seq<real>, real>)
    requires n > 0 || |xs| == 0
    ensures forall a :: a in d <==> a in xs
    ensures n > 0 ==> forall a :: a in d ==> d[a] == Freq(xs, a, n)
  {
    map a | a in Distinct(xs) :: (Count(xs, a) as real) / (n as real)
  }

  /** marginal_cost as the source runs it: p1_dist and p2_dist map each
      distinct action to count / num_rounds, where num_rounds is player 1's
      number of rounds for both; then total_cost * freq1 * freq2 is added up
      over all pairs of keys. */
  method MarginalCost(p1: seq<seq<real>>, p2: seq<seq<real>>, kappa: real) returns (cost: real)
    requires Fits(p1, p2) && (|p1| > 0 || |p2| == 0)
    ensures cost == ProductCost(p1, p2, kappa)
  {
    var numRounds := |p1|;
    var order1, order2 := Distinct(p1), Distinct(p2);
    var p1Dist, p2Dist := Dist(p1, numRounds), Dist(p2, numRounds);
    cost := 0.0;
    if numRounds > 0 {
      KeysFit(p1, p2);
    }
    for m1 := 0 to |order1|
      invariant cost == if numRounds == 0 then 0.0 else ProductSum(order1[..m1], p1, order2, p2, numRounds, kappa)
    {
      var a1 := order1[m1];
      var freq1 := p1Dist[a1];
      assert order1[..m1 + 1][..m1] == order1[..m1];
      cost := AddRow(cost, a1, freq1, order2, p2Dist, p2, numRounds, kappa);
    }
    assert order1[..|order1|] == order1;
    if numRounds > 0 {
      MarginalIsProductCost(p1, p2, kappa);
    }
  }

  /** The inner loop of marginal_cost for one key a1 of p1_dist. */
  method AddRow(before: real, a1: seq<real>, freq1: real, order2: seq<seq<real>>, p2Dist: map<seq<real>, real>,
                p2: seq<seq<real>>, numRounds: nat, kappa: real) returns (cost: real)
    requires numRounds > 0 && forall j :: 0 <= j < |order2| ==> |a1| <= |order2[j]|
    requires forall a :: a in order2 ==> a in p2Dist && p2Dist[a] == Freq(p2, a, numRounds)
    ensures cost == before + PairSum(a1, freq1, order2, p2, numRounds, kappa)
  {
    cost := before;
    for m2 := 0 to |order2|
      invariant cost == before + PairSum(a1, freq1, order2[..m2], p2, numRounds, kappa)
    {
      var a2 := order2[m2];
      assert order2[..m2 + 1][..m2] == order2[..m2];
      var freq2 := p2Dist[a2];
      var weight := freq1 * freq2;
      var c := ComputeTotalCost(a1, a2, kappa);
      assert c * weight == TotalCost(a1, a2, kappa) * (freq1 * Freq(p2, a2, numRounds));
      cost := cost + c * weight;
    }
    assert order2[..|order2|] == order2;
  }

  /** The weights of a dict built like p2_dist, over the keys ds. */
  function FreqTotal(ds: seq<seq<real>>, xs: seq<seq<real>>, n: nat): real
    requires n > 0
  {
    if |ds| == 0 then 0.0 else FreqTotal(ds[..|ds| - 1], xs, n) + Freq(xs, ds[|ds| - 1], n)
  }

  /** ds.len() copies of 1.0. */
  function Ones(k: nat): (r: seq<real>)
    ensures |r| == k && forall i :: 0 <= i < k ==> r[i] == 1.0
  {
    seq(k, i requires 0 <= i < k => 1.0)
  }

  /** n copies of one frequency give back its count. */
  lemma TimesFreq(xs: seq<seq<real>>, a: seq<real>, n: nat)
    requires n > 0
    ensures Times(n, Freq(xs, a, n)) == Mul(Count(xs, a) as real, 1.0)
  {
    var r, c := n as real, Count(xs, a) as real;
    TimesIsProduct(n, Freq(xs, a, n));
    assert r * (c / r) == c;
  }

  /** n copies of the frequencies over the keys ds add up to the keys' counts. */
  lemma {:induction false} FreqTotalCounts(ds: seq<seq<real>>, xs: seq<seq<real>>, n: nat)
    requires n > 0
    ensures Times(n, FreqTotal(ds, xs, n)) == Dot(Counts(xs, ds), Ones(|ds|))
  {
    if |ds| > 0 {
      var k := |ds| - 1;
      FreqTotalCounts(ds[..k], xs, n);
      assert Counts(xs, ds)[..k] == Counts(xs, ds[..k]);
      assert Ones(|ds|)[..k] == Ones(k);
      TimesAdds(n, FreqTotal(ds[..k], xs, n), Freq(xs, ds[k], n));
      TimesFreq(xs, ds[k], n);
    } else {
      TimesIsProduct(n, 0.0);
    }
  }

  /** The weights count / n over the distinct actions of xs add up to
      |xs| / n: to 1 for p1_dist, and to |p2| / |p1| for p2_dist, which is
      a distribution only when both players have as many rounds. */
  lemma FrequenciesSumTo(xs: seq<seq<real>>, n: nat)
    requires n > 0
    ensures FreqTotal(Distinct(xs), xs, n) == (|xs| as real) / (n as real)
    ensures n == |xs| ==> FreqTotal(Distinct(xs), xs, n) == 1.0
  {
    var d, ones := Distinct(xs), Ones(|xs|);
    FreqTotalCounts(d, xs, n);
    GroupSumByKey(d, xs, ones, Ones(|d|));
    GroupSumsAddUpAll(xs, ones);
    SumOfConstant(ones, 1.0);
    TimesOne(|xs|);
    Unscale(n, FreqTotal(d, xs, n), |xs| as real);
  }

  /** A value of which n copies make m is m / n; it is 1 when m is n. */
  lemma Unscale(n: nat, x: real, m: real)
    requires n > 0 && Times(n, x) == m
    ensures x == m / (n as real)
    ensures m == n as real ==> x == 1.0
  {
    TimesIsProduct(n, x);
  }

  lemma {:induction false} TimesOne(n: nat)
    ensures Times(n, 1.0) == n as real
  {
    if n > 0 {
      TimesOne(n - 1);
    }
  }

  lemma {:induction false} SumOfConstant(s: seq<real>, c: real)
    requires forall i :: 0 <= i < |s| ==> s[i] == c
    ensures Sum(s) == Times(|s|, c)
  {
    if |s| > 0 {
      SumOfConstant(s[1..], c);
    }
  }

  lemma {:induction false} SumAtLeast(s: seq<real>, c: real)
    requires forall i :: 0 <= i < |s| ==> s[i] >= c
    ensures Sum(s) >= Times(|s|, c)
  {
    if |s| > 0 {
      SumAtLeast(s[1..], c);
    }
  }

  // ---------------------------------------------------------------------------
  // dist_to_nash (helpers.py:112-137).
  // ---------------------------------------------------------------------------

  /** dist_to_nash: the product-marginal cost minus the cost of the best
      response to player 2's average schedule. */
  function DistToNash(p1: seq<seq<real>>, p2: seq<seq<real>>, Va: int, T: int, kappa: real,
                      lower: int, upper: int): real
    requires Fits(p1, p2) && |p1| > 0 && BatchReady(p2, T, lower, upper)
  {
    var p := AgainstMean(p2, Va, T, kappa, lower, upper);
    ProductCost(p1, p2, kappa) - TotalCost(AsReals(BestResponse(p)), p.opp, kappa)
  }

  /** Player 1's cost in each round against player 2's mean schedule. */
  function CostsOnMean(p1: seq<seq<real>>, p2: seq<seq<real>>, kappa: real): (r: seq<real>)
    requires |p2| > 0 && Uniform(p2, |p2[0]|) && forall i :: 0 <= i < |p1| ==> |p1[i]| <= |p2[0]|
    ensures |r| == |p1|
  {
    seq(|p1|, i requires 0 <= i < |p1| => TotalCost(p1[i], Mean(p2), kappa))
  }

  lemma {:induction false} SumTimes(s: seq<real>, t: seq<real>, n: nat)
    requires |s| == |t| && forall i :: 0 <= i < |s| ==> s[i] == Times(n, t[i])
    ensures Sum(s) == Times(n, Sum(t))
  {
    if |s| > 0 {
      SumTimes(s[1..], t[1..], n);
      TimesAdds(n, t[0], Sum(t[1..]));
    } else {
      TimesIsProduct(n, 0.0);
    }
  }

  /** The average of a non-empty sequence of round costs. */
  function Average(s: seq<real>): real
    requires |s| > 0
  {
    Sum(s) / (|s| as real)
  }

  lemma Cancel(vs: seq<real>, nx: real)
    requires |vs| > 0 && nx == Times(|vs|, Sum(vs))
    ensures PerPair(nx, |vs|) == Average(vs)
  {
    TimesIsProduct(|vs|, Sum(vs));
    assert nx == (|vs| as real) * Sum(vs);
    assert nx / ((|vs| as real) * (|vs| as real)) == Sum(vs) / (|vs| as real);
  }

  /** With as many rounds for both players, the product-marginal cost is the
      average over player 1's rounds of its cost against player 2's mean. */
  lemma ProductCostAgainstMean(p1: seq<seq<real>>, p2: seq<seq<real>>, kappa: real)
    requires Fits(p1, p2) && 0 < |p1| == |p2| && Uniform(p2, |p2[0]|)
    ensures ProductCost(p1, p2, kappa) == Average(CostsOnMean(p1, p2, kappa))
  {
    var vs, rows := CostsOnMean(p1, p2, kappa), RoundRows(p1, p2, kappa);
    forall i | 0 <= i < |p1|
      ensures rows[i] == Times(|p2|, vs[i])
    {
      AveragingCounts(p1[i], p2, kappa);
    }
    SumTimes(rows, vs, |p1|);
    Cancel(vs, Sum(rows));
  }

  /** Costs that are each at least b average to at least b, and to exactly b
      when they add up to |s| copies of it. */
  lemma AtLeastMean(s: seq<real>, b: real)
    requires |s| > 0 && Sum(s) >= Times(|s|, b)
    ensures Average(s) >= b
    ensures Sum(s) == Times(|s|, b) ==> Average(s) == b
  {
    TimesIsProduct(|s|, b);
    QuotientBound(Sum(s), |s| as real, b);
  }

  lemma QuotientBound(x: real, r: real, b: real)
    requires r > 0.0 && x >= r * b
    ensures x / r >= b
    ensures x == r * b ==> x / r == b
  {
    assert x / r - b == (x - r * b) / r;
  }

  /** dist_to_nash is never negative when both players have as many rounds and
      player 1 only plays schedules best_respond could have chosen, and it is
      zero when player 1 always plays the best response to player 2's mean. */
  lemma DistToNashGap(p1: seq<seq<real>>, p2: seq<seq<real>>, plays: seq<seq<int>>, Va: int, T: int,
                      kappa: real, lower: int, upper: int)
    requires Fits(p1, p2) && |p1| == |p2| && BatchReady(p2, T, lower, upper) && |plays| == |p1|
    requires forall t :: 0 <= t < |p1| ==> p1[t] == AsReals(plays[t]) && Feasible(Va, T, lower, upper, plays[t])
    ensures DistToNash(p1, p2, Va, T, kappa, lower, upper) >= 0.0
    ensures (forall t :: 0 <= t < |plays| ==> plays[t] == BestResponse(AgainstMean(p2, Va, T, kappa, lower, upper)))
            ==> DistToNash(p1, p2, Va, T, kappa, lower, upper) == 0.0
  {
    var p := AgainstMean(p2, Va, T, kappa, lower, upper);
    var best := TotalCost(AsReals(BestResponse(p)), p.opp, kappa);
    ProductCostAgainstMean(p1, p2, kappa);
    var vs := CostsOnMean(p1, p2, kappa);
    forall i | 0 <= i < |p1|
      ensures vs[i] >= best
    {
      BestResponseIsOptimal(p, plays[i]);
    }
    SumAtLeast(vs, best);
    if forall t :: 0 <= t < |plays| ==> plays[t] == BestResponse(p) {
      SumOfConstant(vs, best);
    }
    AtLeastMean(vs, best);
  }

  // ---------------------------------------------------------------------------
  // welfare (helpers.py:140-159).
  // ---------------------------------------------------------------------------

  /** One entry of a joint distribution: the pair of schedules and its
      empirical probability. */
  datatype Outcome = Outcome(mine: seq<real>, theirs: seq<real>, prob: real)

  predicate Comparable(joint: seq<Outcome>)
  {
    forall i :: 0 <= i < |joint| ==> |joint[i].mine| == |joint[i].theirs|
  }

  /** Welfare as the source defines it: the probability-weighted cost of both
      players, entry by entry. */
  function WelfareOf(joint: seq<Outcome>, kappa: real): real
    requires Comparable(joint)
  {
    if |joint| == 0 then 0.0
    else
      var o := joint[|joint| - 1];
      WelfareOf(joint[..|joint| - 1], kappa)
      + o.prob * (TotalCost(o.mine, o.theirs, kappa) + TotalCost(o.theirs, o.mine, kappa))
  }

  /** welfare: one pass over the distribution's entries. */
  method Welfare(joint: seq<Outcome>, kappa: real) returns (welfare: real)
    requires Comparable(joint)
    ensures welfare == WelfareOf(joint, kappa)
  {
    welfare := 0.0;
    for i := 0 to |joint|
      invariant welfare == WelfareOf(joint[..i], kappa)
    {
      var o := joint[i];
      assert joint[..i + 1][..i] == joint[..i];
      var cost1 := ComputeTotalCost(o.mine, o.theirs, kappa);
      var cost2 := ComputeTotalCost(o.theirs, o.mine, kappa);
      welfare := welfare + o.prob * (cost1 + cost2);
    }
    assert joint[..|joint|] == joint;
  }

  /** The expected cost of the player whose schedule comes first. */
  function ExpectedCost(joint: seq<Outcome>, kappa: real): real
    requires Comparable(joint)
  {
    if |joint| == 0 then 0.0
    else
      var o := joint[|joint| - 1];
      ExpectedCost(joint[..|joint| - 1], kappa) + Mul(o.prob, TotalCost(o.mine, o.theirs, kappa))
  }

  /** Every key (a, b) turned into (b, a). */
  function Swapped(joint: seq<Outcome>): (r: seq<Outcome>)
    ensures |r| == |joint|
  {
    seq(|joint|, i requires 0 <= i < |joint| => Outcome(joint[i].theirs, joint[i].mine, joint[i].prob))
  }

  /** Welfare is the first player's expected cost plus the second's; an empty
      distribution has welfare 0. */
  lemma {:induction false} WelfareIsBothPlayersCost(joint: seq<Outcome>, kappa: real)
    requires Comparable(joint)
    ensures Comparable(Swapped(joint))
    ensures WelfareOf(joint, kappa) == ExpectedCost(joint, kappa) + ExpectedCost(Swapped(joint), kappa)
    ensures |joint| == 0 ==> WelfareOf(joint, kappa) == 0.0
  {
    if |joint| > 0 {
      WelfareIsBothPlayersCost(joint[..|joint| - 1], kappa);
      WelfareStep(joint, kappa);
    }
  }

  /** The inductive step of WelfareIsBothPlayersCost. */
  lemma WelfareStep(joint: seq<Outcome>, kappa: real)
    requires Comparable(joint) && |joint| > 0
    requires Comparable(Swapped(joint[..|joint| - 1]))
    requires var front := joint[..|joint| - 1];
      WelfareOf(front, kappa) == ExpectedCost(front, kappa) + ExpectedCost(Swapped(front), kappa)
    ensures Comparable(Swapped(joint))
    ensures WelfareOf(joint, kappa) == ExpectedCost(joint, kappa) + ExpectedCost(Swapped(joint), kappa)
  {
    var n := |joint| - 1;
    var o, front := joint[n], joint[..n];
    var mine, theirs := TotalCost(o.mine, o.theirs, kappa), TotalCost(o.theirs, o.mine, kappa);
    SwappedStep(joint, kappa);
    Distributes(o.prob, mine, theirs);
    assert WelfareOf(joint, kappa) == WelfareOf(front, kappa) + o.prob * (mine + theirs);
    assert ExpectedCost(joint, kappa) == ExpectedCost(front, kappa) + Mul(o.prob, mine);
  }

  /** The last entry of the swapped distribution prices the second player. */
  lemma SwappedStep(joint: seq<Outcome>, kappa: real)
    requires Comparable(joint) && |joint| > 0
    ensures Comparable(Swapped(joint)) && Comparable(Swapped(joint[..|joint| - 1]))
    ensures var o := joint[|joint| - 1];
      ExpectedCost(Swapped(joint), kappa)
      == ExpectedCost(Swapped(joint[..|joint| - 1]), kappa) + Mul(o.prob, TotalCost(o.theirs, o.mine, kappa))
  {
    assert Swapped(joint)[..|joint| - 1] == Swapped(joint[..|joint| - 1]);
  }

  lemma Distributes(c: real, x: real, y: real)
    ensures c * (x + y) == Mul(c, x) + Mul(c, y)
  {
  }

  /** Swapping every key leaves welfare unchanged. */
  lemma WelfareSymmetric(joint: seq<Outcome>, kappa: real)
    requires Comparable(joint)
    ensures Comparable(Swapped(joint))
    ensures WelfareOf(Swapped(joint), kappa) == WelfareOf(joint, kappa)
  {
    WelfareIsBothPlayersCost(joint, kappa);
    WelfareIsBothPlayersCost(Swapped(joint), kappa);
    assert Swapped(Swapped(joint)) == joint;
  }
}
