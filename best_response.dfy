/** best_respond as the source runs it (BestResponseDynamics/BR.py:3-88): two
    T x s_size tables filled in place by backward induction, then a forward
    pass over the action table. Every write and read goes through the
    s_to_index layout, so the array bounds checks are the index-safety proof;
    the loop invariants tie each table cell to the recursion of
    DynamicProgram, whose lemmas carry optimality and the budget. */
module Tabulation {
  import opened TradingCost
  import opened DynamicProgram

  /** The cells the source writes: the last row over the window at the
      horizon, every other row t over the window at t. */
  predicate Filled(p: Problem, t: int, s: int)
  {
    if t == p.horizon - 1 then p.InWindow(p.horizon, s) else p.InWindow(t, s)
  }

  /** What a finished table holds at (t, s); unwritten cells keep inf and 0. */
  function TableCost(p: Problem, t: int, s: int): ExtCost
    requires p.Valid() && 0 <= t < p.horizon
  {
    if Filled(p, t, s) then BestCost(p, t, s) else Infinite
  }

  function TableAction(p: Problem, t: int, s: int): int
    requires p.Valid() && 0 <= t < p.horizon
  {
    if Filled(p, t, s) then BestAction(p, t, s) else 0
  }

  predicate Shaped(p: Problem, cost: array2<ExtCost>, action: array2<int>)
  {
    && cost.Length0 == p.horizon && cost.Length1 == p.Width()
    && action.Length0 == p.horizon && action.Length1 == p.Width()
  }

  /** Rows t0 .. T - 1 are finished; rows above still hold inf and 0. */
  ghost predicate RowsFrom(p: Problem, cost: array2<ExtCost>, action: array2<int>, t0: int)
    requires p.Valid() && Shaped(p, cost, action)
    reads cost, action
  {
    forall r, j :: 0 <= r < p.horizon && 0 <= j < p.Width() ==>
      && cost[r, j] == (if r >= t0 then TableCost(p, r, j + p.MinRemaining(p.horizon)) else Infinite)
      && action[r, j] == (if r >= t0 then TableAction(p, r, j + p.MinRemaining(p.horizon)) else 0)
  }

  /** The initialisation loop (BR.py:48-52): on the last step all remaining
      shares are bought, which only states within the limits allow. */
  method InitLastStep(p: Problem, b: seq<real>, cost: array2<ExtCost>, action: array2<int>)
    requires p.Valid() && Shaped(p, cost, action) && b == OppHoldings(p)
    requires RowsFrom(p, cost, action, p.horizon)
    modifies cost, action
    ensures RowsFrom(p, cost, action, p.horizon - 1)
    ensures forall r, j :: r == p.horizon - 1 && 0 <= j < p.Width() ==>
      var s := j + p.MinRemaining(p.horizon);
      && (cost[r, j].Finite? <==> p.lower <= s <= p.upper)
      && action[r, j] == (if p.lower <= s <= p.upper then s else 0)
  {
    var T, m := p.horizon, p.MinRemaining(p.horizon);
    for s := p.MinRemaining(T) to p.MaxRemaining(T) + 1
      invariant forall r, j :: 0 <= r < T && 0 <= j < p.Width() ==>
        && cost[r, j] == (if r == T - 1 && j + m < s then TableCost(p, r, j + m) else Infinite)
        && action[r, j] == (if r == T - 1 && j + m < s then TableAction(p, r, j + m) else 0)
    {
      if p.lower <= s <= p.upper {
        var i := s - m;
        cost[T - 1, i] := Finite((s as real) * (((s as real) + p.opp[T - 1])
                                 + p.kappa * (((p.volume - s) as real) + b[Wrap(T - 2, T)])));
        action[T - 1, i] := s;
      }
    }
  }

  /** The scan over trades q at one state (BR.py:59-75). The running minimum
      starts at inf, like the cell, and a trade is recorded only when its
      candidate is strictly cheaper, so the first minimum wins. */
  method ChooseTrade(p: Problem, b: seq<real>, cost: array2<ExtCost>, action: array2<int>, t: int, s: int)
    requires p.Valid() && Shaped(p, cost, action) && b == OppHoldings(p)
    requires 0 <= t < p.horizon - 1 && p.InWindow(t, s)
    requires forall r, j :: r == t + 1 && 0 <= j < p.Width() ==>
      cost[r, j] == TableCost(p, r, j + p.MinRemaining(p.horizon))
    requires 0 <= p.Index(s) < p.Width()
    requires cost[t, p.Index(s)] == Infinite && action[t, p.Index(s)] == 0
    modifies cost, action
    ensures cost[t, p.Index(s)] == BestCost(p, t, s)
    ensures action[t, p.Index(s)] == BestAction(p, t, s)
    ensures forall r, j :: 0 <= r < p.horizon && 0 <= j < p.Width() && (r, j) != (t, p.Index(s)) ==>
      cost[r, j] == old(cost[r, j]) && action[r, j] == old(action[r, j])
  {
    var m := p.MinRemaining(p.horizon);
    var i := s - m;
    var mincost := Infinite;
    for q := p.lower to p.upper + 1
      invariant cost[t, i] == mincost == Scan(p, t, s, q).cost
      invariant action[t, i] == Scan(p, t, s, q).action
      invariant forall r, j :: 0 <= r < p.horizon && 0 <= j < p.Width() && (r, j) != (t, i) ==>
        cost[r, j] == old(cost[r, j]) && action[r, j] == old(action[r, j])
    {
      StepStaysInWindow(p, t, s, q);
      WindowFitsTable(p, t + 1, s - q);
      var nextI := s - q - m;
      var next := cost[t + 1, nextI];
      var imm;
      if t == 0 {
        imm := (q as real) * ((q as real) + p.opp[t]);
      } else {
        imm := (q as real) * (((q as real) + p.opp[t])
               + p.kappa * (((p.volume - s) as real) + b[t - 1]));
      }
      var thisval := Plus(next, imm);
      CandidateIs(p, t, s, q, next, imm);
      if Below(thisval, mincost) {
        cost[t, i] := thisval;
        action[t, i] := q;
        mincost := thisval;
      }
    }
  }

  /** The candidate value as the loop body computes it. */
  lemma CandidateIs(p: Problem, t: int, s: int, q: int, next: ExtCost, imm: real)
    requires p.Valid() && 0 <= t < p.horizon - 1 && p.lower <= q <= p.upper
    requires next == BestCost(p, t + 1, s - q)
    requires imm == (if t == 0 then (q as real) * ((q as real) + p.opp[t])
                     else (q as real) * (((q as real) + p.opp[t])
                            + p.kappa * (((p.volume - s) as real) + OppHoldings(p)[t - 1])))
    ensures Plus(next, imm) == Candidate(p, t, s, q)
    ensures Scan(p, t, s, q + 1) ==
      if Below(Candidate(p, t, s, q), Scan(p, t, s, q).cost) then Choice(Candidate(p, t, s, q), q)
      else Scan(p, t, s, q)
  {
  }

  /** One pass of the outer backward loop (BR.py:56-75): every state of the
      window at t gets its optimal cost and action. */
  method FillRow(p: Problem, b: seq<real>, cost: array2<ExtCost>, action: array2<int>, t: int)
    requires p.Valid() && Shaped(p, cost, action) && b == OppHoldings(p)
    requires 0 <= t < p.horizon - 1
    requires RowsFrom(p, cost, action, t + 1)
    modifies cost, action
    ensures RowsFrom(p, cost, action, t)
  {
    var T, m := p.horizon, p.MinRemaining(p.horizon);
    for s := p.MinRemaining(t) to p.MaxRemaining(t) + 1
      invariant forall r, j :: 0 <= r < T && 0 <= j < p.Width() ==>
        && cost[r, j] == (if r > t || (r == t && j + m < s) then TableCost(p, r, j + m) else Infinite)
        && action[r, j] == (if r > t || (r == t && j + m < s) then TableAction(p, r, j + m) else 0)
    {
      WindowFitsTable(p, t, s);
      ChooseTrade(p, b, cost, action, t, s);
    }
  }

  /** The forward pass (BR.py:78-85): start with V shares to buy, read the
      action recorded at (t, volrem), and buy it. */
  method Reconstruct(p: Problem, action: array2<int>) returns (anow: seq<int>)
    requires p.Valid() && action.Length0 == p.horizon && action.Length1 == p.Width()
    requires forall r, j :: 0 <= r < p.horizon && 0 <= j < p.Width() ==>
      action[r, j] == TableAction(p, r, j + p.MinRemaining(p.horizon))
    ensures anow == BestResponse(p)
  {
    var T, V, m := p.horizon, p.volume, p.MinRemaining(p.horizon);
    var out := new int[T](k => 0);
    var volrem := V;
    for t := 0 to T
      invariant p.InWindow(t, volrem)
      invariant forall k :: 0 <= k < t ==> out[k] == BestResponse(p)[k]
      invariant t < T ==> BestResponse(p)[t..] == Follow(p, t, volrem)
    {
      WindowFitsTable(p, t, volrem);
      var i := volrem - m;
      assert Filled(p, t, volrem);
      var q := action[t, i];
      assert q == BestAction(p, t, volrem);
      FollowStep(p, t, volrem);
      out[t] := q;
      volrem := volrem - q;
    }
    anow := out[..];
  }

  /** best_respond: allocate the tables, fill them backwards, then follow the
      recorded actions forward from (0, V). */
  method BestRespond(V: int, bnow: seq<real>, T: int, kappa: real, lowerLimit: int, upperLimit: int)
    returns (anow: seq<int>)
    requires T >= 1 && |bnow| >= T && lowerLimit <= 0 <= upperLimit
    ensures anow == BestResponse(Problem(V, bnow, T, kappa, lowerLimit, upperLimit))
    ensures |anow| == T
    ensures forall t :: 0 <= t < T ==> lowerLimit <= anow[t] <= upperLimit
    ensures T * lowerLimit <= V <= T * upperLimit ==> Total(anow) == V
  {
    var p := Problem(V, bnow, T, kappa, lowerLimit, upperLimit);
    var b := seq(T, i requires 0 <= i < T => Sum(bnow[..i + 1]));
    var m := p.MinRemaining(T);
    WindowFitsTable(p, 0, V);
    var sSize := p.MaxRemaining(T) - m + 1;
    var dptable := new ExtCost[T, sSize]((r, j) => Infinite);
    var dpaction := new int[T, sSize]((r, j) => 0);

    InitLastStep(p, b, dptable, dpaction);
    var t := T - 2;
    while t >= 0
      invariant -1 <= t <= T - 2
      invariant RowsFrom(p, dptable, dpaction, t + 1)
    {
      FillRow(p, b, dptable, dpaction, t);
      t := t - 1;
    }

    anow := Reconstruct(p, dpaction);
    BestResponseBudget(p);
  }
}
