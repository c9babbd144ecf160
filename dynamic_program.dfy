/** The best-response dynamic program of BestResponseDynamics/BR.py written as
    functions: the backward recursion over "shares still to buy" that the
    source tabulates, the argmin it takes at every state, and the forward pass
    that reads off the schedule. The lemmas prove what the recursion is for:
    the schedule it yields stays within the per-step limits, spends the whole
    volume, and costs no more under total_cost than any other such schedule. */
module DynamicProgram {
  import opened TradingCost

  /** The arguments of one best_respond call. */
  datatype Problem = Problem(volume: int, opp: seq<real>, horizon: int, kappa: real, lower: int, upper: int)
  {
    /** What the source's indexing relies on: at least one step, an opponent
        schedule covering the horizon, and a trade of 0 inside the limits. */
    predicate Valid()
    {
      horizon >= 1 && |opp| >= horizon && lower <= 0 <= upper
    }

    /** Fewest and most shares that can still be missing at step t. */
    function MinRemaining(t: int): int { volume - upper * t }
    function MaxRemaining(t: int): int { volume - lower * t }

    predicate InWindow(t: int, s: int)
    {
      MinRemaining(t) <= s <= MaxRemaining(t)
    }

    /** Table width: the window at the horizon. */
    function Width(): int { MaxRemaining(horizon) - MinRemaining(horizon) + 1 }

    /** s_to_index: every row is laid out over the window at the horizon. */
    function Index(s: int): int { s - MinRemaining(horizon) }
  }

  /** b in the source: entry i is what the opponent has traded up to and
      including step i. */
  function OppHoldings(p: Problem): (b: seq<real>)
    requires p.Valid()
    ensures |b| == p.horizon
  {
    seq(p.horizon, i requires 0 <= i < p.horizon => Sum(p.opp[..i + 1]))
  }

  /** The element Python's b[i] denotes, for -n <= i < n. */
  function Wrap(i: int, n: int): int
  {
    if i < 0 then i + n else i
  }

  /** Immediate cost of trading q at step t with s shares still to buy, as
      the recursion charges it. The first step of a horizon longer than one
      drops the permanent-impact term; every other step, the last one
      included, prices it against V - s (what the player already holds) and
      b[t - 1], which for a one-step horizon Python reads as b[-1] == b[0]. */
  function Immediate(p: Problem, t: int, s: int, q: int): real
    requires p.Valid() && 0 <= t < p.horizon
  {
    var b := OppHoldings(p);
    if t == 0 && t < p.horizon - 1 then
      (q as real) * ((q as real) + p.opp[t])
    else
      (q as real) * (((q as real) + p.opp[t])
                     + p.kappa * (((p.volume - s) as real) + b[Wrap(t - 1, p.horizon)]))
  }

  /** A table entry; Infinite stands for the np.inf the table starts with. */
  datatype ExtCost = Infinite | Finite(value: real)

  /** ExtCost + real, with inf + x == inf. */
  function Plus(c: ExtCost, x: real): ExtCost
  {
    if c.Finite? then Finite(c.value + x) else Infinite
  }

  /** c < d on the extended reals: nothing is below inf except finite values. */
  predicate Below(c: ExtCost, d: ExtCost)
  {
    c.Finite? && (d.Infinite? || c.value < d.value)
  }

  /** The running (mincost, action) pair of the scan over trades. */
  datatype Choice = Choice(cost: ExtCost, action: int)

  /** The value the scan compares for trade q at state (t, s). */
  function Candidate(p: Problem, t: int, s: int, q: int): ExtCost
    requires p.Valid() && 0 <= t < p.horizon - 1
    decreases p.horizon - t, 0, 0
  {
    Plus(BestCost(p, t + 1, s - q), Immediate(p, t, s, q))
  }

  /** The scan after trying trades lower .. q - 1 in increasing order: a
      candidate replaces the current choice only when strictly cheaper. */
  function Scan(p: Problem, t: int, s: int, q: int): Choice
    requires p.Valid() && 0 <= t < p.horizon - 1 && p.lower <= q <= p.upper + 1
    decreases p.horizon - t, 1, q - p.lower
  {
    if q == p.lower then Choice(Infinite, 0)
    else
      var c := Scan(p, t, s, q - 1);
      var candidate := Candidate(p, t, s, q - 1);
      if Below(candidate, c.cost) then Choice(candidate, q - 1) else c
  }

  /** The cost the table should hold at (t, s). On the last step the only
      trade is s itself, allowed when it lies within the limits. */
  function BestCost(p: Problem, t: int, s: int): ExtCost
    requires p.Valid() && 0 <= t < p.horizon
    decreases p.horizon - t, 2, 0
  {
    if t == p.horizon - 1 then
      (if p.lower <= s <= p.upper then Finite(Immediate(p, t, s, s)) else Infinite)
    else
      Scan(p, t, s, p.upper + 1).cost
  }

  /** The action the table should hold at (t, s); 0 where none was chosen. */
  function BestAction(p: Problem, t: int, s: int): int
    requires p.Valid() && 0 <= t < p.horizon
  {
    if t == p.horizon - 1 then
      (if p.lower <= s <= p.upper then s else 0)
    else
      Scan(p, t, s, p.upper + 1).action
  }

  /** The forward pass from (t, s): follow the recorded actions to the end. */
  function Follow(p: Problem, t: int, s: int): (f: seq<int>)
    requires p.Valid() && 0 <= t < p.horizon
    ensures |f| == p.horizon - t
    decreases p.horizon - t
  {
    var q := BestAction(p, t, s);
    [q] + (if t == p.horizon - 1 then [] else Follow(p, t + 1, s - q))
  }

  /** best_respond's result. */
  function BestResponse(p: Problem): (a: seq<int>)
    requires p.Valid()
    ensures |a| == p.horizon
  {
    Follow(p, 0, p.volume)
  }

  function Total(xs: seq<int>): int
  {
    if |xs| == 0 then 0 else xs[0] + Total(xs[1..])
  }

  predicate WithinLimits(p: Problem, xs: seq<int>)
  {
    forall i :: 0 <= i < |xs| ==> p.lower <= xs[i] <= p.upper
  }

  /** The schedules the optimiser chooses among from (t, s): one trade per
      remaining step, each within the limits, buying exactly s in all. */
  predicate Admissible(p: Problem, t: int, s: int, tail: seq<int>)
  {
    |tail| == p.horizon - t && WithinLimits(p, tail) && Total(tail) == s
  }

  /** What the recursion charges for following `tail` from (t, s). */
  function ScheduleCost(p: Problem, t: int, s: int, tail: seq<int>): real
    requires p.Valid() && 0 <= t < p.horizon && |tail| == p.horizon - t
    decreases p.horizon - t
  {
    Immediate(p, t, s, tail[0])
    + (if t == p.horizon - 1 then 0.0 else ScheduleCost(p, t + 1, s - tail[0], tail[1..]))
  }

  // ---------------------------------------------------------------------------
  // The table layout: every index the source computes is in range.
  // ---------------------------------------------------------------------------

  lemma MulMono(c: int, x: int, y: int)
    requires 0 <= c && x <= y
    ensures c * x <= c * y
  {
  }

  /** Windows grow with t, so every window fits in the one the table is laid
      out over, and the table has (upper - lower) * T + 1 columns. */
  lemma {:induction false} WindowFitsTable(p: Problem, t: int, s: int)
    requires p.Valid() && 0 <= t <= p.horizon && p.InWindow(t, s)
    ensures p.Width() == (p.upper - p.lower) * p.horizon + 1
    ensures p.InWindow(p.horizon, s)
    ensures 0 <= p.Index(s) < p.Width()
  {
    MulMono(p.upper, t, p.horizon);
    MulMono(-p.lower, t, p.horizon);
  }

  /** A trade within the limits moves a state of window t into window t + 1. */
  lemma StepStaysInWindow(p: Problem, t: int, s: int, q: int)
    requires p.Valid() && p.InWindow(t, s) && p.lower <= q <= p.upper
    ensures p.InWindow(t + 1, s - q)
  {
    assert p.upper * (t + 1) == p.upper * t + p.upper;
    assert p.lower * (t + 1) == p.lower * t + p.lower;
  }

  // ---------------------------------------------------------------------------
  // The argmin.
  // ---------------------------------------------------------------------------

  /** One step of the forward pass: the schedule from (t, s) starts with the
      recorded action and continues from the state that action leads to. */
  lemma FollowStep(p: Problem, t: int, s: int)
    requires p.Valid() && 0 <= t < p.horizon && p.InWindow(t, s)
    ensures var q := BestAction(p, t, s);
      && Follow(p, t, s)[0] == q
      && p.InWindow(t + 1, s - q)
      && (t < p.horizon - 1 ==> Follow(p, t, s)[1..] == Follow(p, t + 1, s - q))
  {
    ActionWithinLimits(p, t, s);
    StepStaysInWindow(p, t, s, BestAction(p, t, s));
  }

  /** The scan over trades lower .. q - 1 yields infinity (and action 0) only
      when every candidate is infinite; otherwise it yields a finite candidate
      that is the minimum, at the smallest trade attaining it. */
  lemma {:induction false} ScanFindsFirstMinimum(p: Problem, t: int, s: int, q: int)
    requires p.Valid() && 0 <= t < p.horizon - 1 && p.lower <= q <= p.upper + 1
    ensures var c := Scan(p, t, s, q);
      && (c.cost.Infinite? ==>
            c.action == 0 && forall r :: p.lower <= r < q ==> Candidate(p, t, s, r).Infinite?)
      && (c.cost.Finite? ==>
            && p.lower <= c.action < q
            && Candidate(p, t, s, c.action) == c.cost
            && (forall r :: p.lower <= r < q && Candidate(p, t, s, r).Finite? ==>
                  c.cost.value <= Candidate(p, t, s, r).value)
            && (forall r :: p.lower <= r < c.action && Candidate(p, t, s, r).Finite? ==>
                  c.cost.value < Candidate(p, t, s, r).value))
    decreases q - p.lower
  {
    if q > p.lower {
      ScanFindsFirstMinimum(p, t, s, q - 1);
      var prev := Scan(p, t, s, q - 1);
      var candidate := Candidate(p, t, s, q - 1);
      if Below(candidate, prev.cost) {
        assert Scan(p, t, s, q) == Choice(candidate, q - 1);
        if prev.cost.Finite? {
          forall r | p.lower <= r < q && Candidate(p, t, s, r).Finite?
            ensures candidate.value <= Candidate(p, t, s, r).value
          {
            if r < q - 1 {
              assert prev.cost.value <= Candidate(p, t, s, r).value;
            }
          }
          forall r | p.lower <= r < q - 1 && Candidate(p, t, s, r).Finite?
            ensures candidate.value < Candidate(p, t, s, r).value
          {
            assert prev.cost.value <= Candidate(p, t, s, r).value;
          }
        }
      } else {
        assert Scan(p, t, s, q) == prev;
        if prev.cost.Infinite? {
          assert candidate.Infinite?;
        }
      }
    }
  }

  /** A finite candidate bounds the state's cost from above. */
  lemma CandidateBoundsBestCost(p: Problem, t: int, s: int, q: int)
    requires p.Valid() && 0 <= t < p.horizon - 1 && p.lower <= q <= p.upper
    requires Candidate(p, t, s, q).Finite?
    ensures BestCost(p, t, s).Finite?
    ensures BestCost(p, t, s).value <= Candidate(p, t, s, q).value
  {
    ScanFindsFirstMinimum(p, t, s, p.upper + 1);
  }

  /** Every recorded action is a legal trade (0 counts as one). */
  lemma ActionWithinLimits(p: Problem, t: int, s: int)
    requires p.Valid() && 0 <= t < p.horizon
    ensures p.lower <= BestAction(p, t, s) <= p.upper
  {
    if t < p.horizon - 1 {
      ScanFindsFirstMinimum(p, t, s, p.upper + 1);
    }
  }

  // ---------------------------------------------------------------------------
  // Optimality of the recursion.
  // ---------------------------------------------------------------------------

  /** Any admissible schedule from (t, s) makes the state finite, and costs
      at least what the table records there. */
  lemma {:induction false} BestCostIsLowerBound(p: Problem, t: int, s: int, tail: seq<int>)
    requires p.Valid() && 0 <= t < p.horizon && Admissible(p, t, s, tail)
    ensures BestCost(p, t, s).Finite?
    ensures BestCost(p, t, s).value <= ScheduleCost(p, t, s, tail)
    decreases p.horizon - t
  {
    if t == p.horizon - 1 {
      assert tail[1..] == [];
    } else {
      var q := tail[0];
      assert WithinLimits(p, tail[1..]) by {
        forall i | 0 <= i < |tail[1..]| ensures p.lower <= tail[1..][i] <= p.upper {
          assert tail[1..][i] == tail[i + 1];
        }
      }
      BestCostIsLowerBound(p, t + 1, s - q, tail[1..]);
      CandidateBoundsBestCost(p, t, s, q);
    }
  }

  /** Where the table is finite, following the recorded actions is an
      admissible schedule that costs exactly the recorded amount. */
  lemma {:induction false} FollowAttainsBestCost(p: Problem, t: int, s: int)
    requires p.Valid() && 0 <= t < p.horizon && BestCost(p, t, s).Finite?
    ensures Admissible(p, t, s, Follow(p, t, s))
    ensures ScheduleCost(p, t, s, Follow(p, t, s)) == BestCost(p, t, s).value
    decreases p.horizon - t
  {
    if t == p.horizon - 1 {
      LastStepAttains(p, t, s);
    } else {
      var a := BestAction(p, t, s);
      ChosenStep(p, t, s);
      FollowAttainsBestCost(p, t + 1, s - a);
      StepAttains(p, t, s);
    }
  }

  /** The inductive step of FollowAttainsBestCost. */
  lemma StepAttains(p: Problem, t: int, s: int)
    requires p.Valid() && 0 <= t < p.horizon - 1 && BestCost(p, t, s).Finite?
    requires var a := BestAction(p, t, s);
      && Admissible(p, t + 1, s - a, Follow(p, t + 1, s - a))
      && BestCost(p, t + 1, s - a).Finite?
      && ScheduleCost(p, t + 1, s - a, Follow(p, t + 1, s - a)) == BestCost(p, t + 1, s - a).value
    ensures Admissible(p, t, s, Follow(p, t, s))
    ensures ScheduleCost(p, t, s, Follow(p, t, s)) == BestCost(p, t, s).value
  {
    var a := BestAction(p, t, s);
    FollowUnfolds(p, t, s);
    ChosenStep(p, t, s);
    ConsAttains(p, t, s, a, Follow(p, t + 1, s - a), BestCost(p, t + 1, s - a).value);
  }

  /** The forward pass below the horizon: the recorded trade, then the pass
      from the state it leads to. */
  lemma FollowUnfolds(p: Problem, t: int, s: int)
    requires p.Valid() && 0 <= t < p.horizon - 1
    ensures Follow(p, t, s) == [BestAction(p, t, s)] + Follow(p, t + 1, s - BestAction(p, t, s))
  {
  }

  /** On the last step a finite state buys exactly what is left. */
  lemma LastStepAttains(p: Problem, t: int, s: int)
    requires p.Valid() && t == p.horizon - 1 && BestCost(p, t, s).Finite?
    ensures Follow(p, t, s) == [s]
    ensures Admissible(p, t, s, Follow(p, t, s))
    ensures ScheduleCost(p, t, s, Follow(p, t, s)) == BestCost(p, t, s).value
  {
    assert [s][1..] == [];
  }

  /** Prefixing an admissible schedule from the next state with a legal trade
      gives an admissible schedule that costs that trade's step more. */
  lemma ConsAttains(p: Problem, t: int, s: int, a: int, rest: seq<int>, c: real)
    requires p.Valid() && 0 <= t < p.horizon - 1 && p.lower <= a <= p.upper
    requires Admissible(p, t + 1, s - a, rest) && ScheduleCost(p, t + 1, s - a, rest) == c
    ensures Admissible(p, t, s, [a] + rest)
    ensures ScheduleCost(p, t, s, [a] + rest) == Immediate(p, t, s, a) + c
  {
    var f := [a] + rest;
    assert f[1..] == rest;
    forall i | 0 <= i < |f| ensures p.lower <= f[i] <= p.upper {
      if i > 0 { assert f[i] == rest[i - 1]; }
    }
  }

  /** A finite state below the horizon records a trade within the limits
      that leads to a finite state, and its cost is that trade's candidate. */
  lemma ChosenStep(p: Problem, t: int, s: int)
    requires p.Valid() && 0 <= t < p.horizon - 1 && BestCost(p, t, s).Finite?
    ensures var a := BestAction(p, t, s);
      && p.lower <= a <= p.upper && BestCost(p, t + 1, s - a).Finite?
      && BestCost(p, t, s).value == BestCost(p, t + 1, s - a).value + Immediate(p, t, s, a)
  {
    ScanFindsFirstMinimum(p, t, s, p.upper + 1);
  }

  /** Whatever the table holds, the forward pass yields one legal trade per
      remaining step. */
  lemma {:induction false} FollowWithinLimits(p: Problem, t: int, s: int)
    requires p.Valid() && 0 <= t < p.horizon
    ensures |Follow(p, t, s)| == p.horizon - t
    ensures WithinLimits(p, Follow(p, t, s))
    decreases p.horizon - t
  {
    var f := Follow(p, t, s);
    var a := BestAction(p, t, s);
    ActionWithinLimits(p, t, s);
    if t < p.horizon - 1 {
      FollowWithinLimits(p, t + 1, s - a);
      assert f[1..] == Follow(p, t + 1, s - a);
      forall i | 0 <= i < |f| ensures p.lower <= f[i] <= p.upper {
        if i > 0 { assert f[i] == f[1..][i - 1]; }
      }
    }
  }

  /** From an infinite state the table records action 0 all the way down:
      the source then returns an idle schedule instead of reporting failure. */
  lemma {:induction false} InfeasibleStateIsIdle(p: Problem, t: int, s: int)
    requires p.Valid() && 0 <= t < p.horizon && BestCost(p, t, s).Infinite?
    ensures forall i :: 0 <= i < |Follow(p, t, s)| ==> Follow(p, t, s)[i] == 0
    decreases p.horizon - t
  {
    var f := Follow(p, t, s);
    if t < p.horizon - 1 {
      ScanFindsFirstMinimum(p, t, s, p.upper + 1);
      assert Candidate(p, t, s, 0).Infinite?;
      InfeasibleStateIsIdle(p, t + 1, s);
      assert f[1..] == Follow(p, t + 1, s);
      forall i | 0 <= i < |f| ensures f[i] == 0 {
        if i > 0 { assert f[i] == f[1..][i - 1]; }
      }
    }
  }

  // ---------------------------------------------------------------------------
  // Feasibility.
  // ---------------------------------------------------------------------------

  /** n legal trades add up to something in [n * lower, n * upper]. */
  lemma {:induction false} AdmissibleTotalInRange(p: Problem, t: int, s: int, tail: seq<int>)
    requires p.Valid() && 0 <= t <= p.horizon && Admissible(p, t, s, tail)
    ensures (p.horizon - t) * p.lower <= s <= (p.horizon - t) * p.upper
    decreases p.horizon - t
  {
    if t < p.horizon {
      assert WithinLimits(p, tail[1..]) by {
        forall i | 0 <= i < |tail[1..]| ensures p.lower <= tail[1..][i] <= p.upper {
          assert tail[1..][i] == tail[i + 1];
        }
      }
      AdmissibleTotalInRange(p, t + 1, s - tail[0], tail[1..]);
      var n := p.horizon - t;
      assert n * p.lower == (n - 1) * p.lower + p.lower;
      assert n * p.upper == (n - 1) * p.upper + p.upper;
    }
  }

  /** Conversely, every s in [n * lower, n * upper] can be bought in n legal
      trades: take as much as one step allows until the rest is in reach. */
  lemma {:induction false} AdmissibleExists(p: Problem, t: int, s: int) returns (tail: seq<int>)
    requires p.Valid() && 0 <= t < p.horizon
    requires (p.horizon - t) * p.lower <= s <= (p.horizon - t) * p.upper
    ensures Admissible(p, t, s, tail)
    decreases p.horizon - t
  {
    var n := p.horizon - t;
    var q := if s >= 0 then (if s <= p.upper then s else p.upper)
             else (if s >= p.lower then s else p.lower);
    if t == p.horizon - 1 {
      tail := [q];
      assert tail[1..] == [];
    } else {
      assert n * p.lower == (n - 1) * p.lower + p.lower;
      assert n * p.upper == (n - 1) * p.upper + p.upper;
      MulMono(n - 1, p.lower, 0);
      MulMono(n - 1, 0, p.upper);
      var rest := AdmissibleExists(p, t + 1, s - q);
      tail := [q] + rest;
      assert tail[1..] == rest;
    }
  }

  /** The state (0, V) is finite exactly when T * lower <= V <= T * upper. */
  lemma FeasibleIffInRange(p: Problem)
    requires p.Valid()
    ensures BestCost(p, 0, p.volume).Finite?
            <==> p.horizon * p.lower <= p.volume <= p.horizon * p.upper
  {
    if BestCost(p, 0, p.volume).Finite? {
      FollowAttainsBestCost(p, 0, p.volume);
      AdmissibleTotalInRange(p, 0, p.volume, Follow(p, 0, p.volume));
    }
    if p.horizon * p.lower <= p.volume <= p.horizon * p.upper {
      var tail := AdmissibleExists(p, 0, p.volume);
      BestCostIsLowerBound(p, 0, p.volume, tail);
    }
  }

  // ---------------------------------------------------------------------------
  // The recursion prices schedules as total_cost does.
  // ---------------------------------------------------------------------------

  /** From step t >= 1 on, the recursion's charge for a schedule is the
      remaining total_cost with the player holding V - s and the opponent
      b[t - 1] = bnow[0] + ... + bnow[t - 1]. */
  lemma {:induction false} ScheduleCostIsCostFrom(p: Problem, t: int, s: int, tail: seq<int>)
    requires p.Valid() && 1 <= t < p.horizon && |tail| == p.horizon - t
    ensures ScheduleCost(p, t, s, tail)
            == CostFrom(AsReals(tail), p.opp[t..], p.kappa, (p.volume - s) as real, Sum(p.opp[..t]))
    decreases p.horizon - t
  {
    var q := tail[0];
    var b := OppHoldings(p);
    assert b[Wrap(t - 1, p.horizon)] == Sum(p.opp[..t]);
    assert AsReals(tail)[1..] == AsReals(tail[1..]);
    assert p.opp[t..][1..] == p.opp[t + 1..];
    if t < p.horizon - 1 {
      ScheduleCostIsCostFrom(p, t + 1, s - q, tail[1..]);
      PrefixSumStep(p.opp, t);
    }
  }

  /** For T >= 2 the recursion's charge for a whole schedule from (0, V) is
      its total_cost against bnow. */
  lemma ScheduleCostIsTotalCost(p: Problem, tail: seq<int>)
    requires p.Valid() && p.horizon >= 2 && |tail| == p.horizon
    ensures ScheduleCost(p, 0, p.volume, tail) == TotalCost(AsReals(tail), p.opp, p.kappa)
  {
    var q, a := tail[0], AsReals(tail);
    var rest := CostFrom(a[1..], p.opp[1..], p.kappa, q as real, p.opp[0]);
    assert ScheduleCost(p, 0, p.volume, tail)
           == Immediate(p, 0, p.volume, q) + ScheduleCost(p, 1, p.volume - q, tail[1..]);
    ScheduleCostIsCostFrom(p, 1, p.volume - q, tail[1..]);
    assert a[1..] == AsReals(tail[1..]);
    assert Sum(p.opp[..1]) == p.opp[0] by {
      assert p.opp[..1][1..] == [];
    }
    assert ScheduleCost(p, 1, p.volume - q, tail[1..]) == rest;
    FirstStep(q as real, p.opp[0], p.kappa);
    assert TotalCost(a, p.opp, p.kappa) == StepCost(q as real, p.opp[0], p.kappa, 0.0, 0.0) + rest;
  }

  /** On the first step neither player holds anything yet. */
  lemma FirstStep(q: real, o: real, kappa: real)
    ensures StepCost(q, o, kappa, 0.0, 0.0) == q * (q + o)
  {
  }

  // ---------------------------------------------------------------------------
  // What best_respond promises.
  // ---------------------------------------------------------------------------

  /** T trades, each within the limits, adding up to V whenever V can be
      reached at all. */
  lemma BestResponseBudget(p: Problem)
    requires p.Valid()
    ensures |BestResponse(p)| == p.horizon
    ensures WithinLimits(p, BestResponse(p))
    ensures p.horizon * p.lower <= p.volume <= p.horizon * p.upper ==> Total(BestResponse(p)) == p.volume
  {
    FollowWithinLimits(p, 0, p.volume);
    FeasibleIffInRange(p);
    if BestCost(p, 0, p.volume).Finite? {
      FollowAttainsBestCost(p, 0, p.volume);
    }
  }

  /** No admissible schedule has a lower total_cost than the best response. */
  lemma BestResponseIsOptimal(p: Problem, other: seq<int>)
    requires p.Valid() && Admissible(p, 0, p.volume, other)
    ensures Admissible(p, 0, p.volume, BestResponse(p))
    ensures TotalCost(AsReals(BestResponse(p)), p.opp, p.kappa) <= TotalCost(AsReals(other), p.opp, p.kappa)
  {
    BestCostIsLowerBound(p, 0, p.volume, other);
    FollowAttainsBestCost(p, 0, p.volume);
    var br := BestResponse(p);
    if p.horizon == 1 {
      assert other[1..] == [] && br[1..] == [];
      assert other == [p.volume] == br;
    } else {
      ScheduleCostIsTotalCost(p, other);
      ScheduleCostIsTotalCost(p, br);
    }
  }

  /** For T >= 2 the table's cost at (0, V) is the best response's total_cost. */
  lemma StoredCostIsTotalCost(p: Problem)
    requires p.Valid() && p.horizon >= 2 && BestCost(p, 0, p.volume).Finite?
    ensures BestCost(p, 0, p.volume).value == TotalCost(AsReals(BestResponse(p)), p.opp, p.kappa)
  {
    FollowAttainsBestCost(p, 0, p.volume);
    ScheduleCostIsTotalCost(p, BestResponse(p));
  }

  /** For T == 1 the schedule is [V] (or [0] when V is out of limits), and the
      table's cost exceeds total_cost by kappa * V * bnow[0]: the base case
      reads b[T - 2], which Python resolves to b[-1] == bnow[0]. */
  lemma SingleStepHorizon(p: Problem)
    requires p.Valid() && p.horizon == 1
    ensures BestResponse(p) == [if p.lower <= p.volume <= p.upper then p.volume else 0]
    ensures p.lower <= p.volume <= p.upper ==>
              BestCost(p, 0, p.volume)
              == Finite(TotalCost(AsReals(BestResponse(p)), p.opp, p.kappa)
                        + p.kappa * (p.volume as real) * p.opp[0])
  {
    var br := BestResponse(p);
    var v := p.volume as real;
    assert Sum(p.opp[..1]) == p.opp[0] by {
      assert p.opp[..1][1..] == [];
    }
    assert br == [BestAction(p, 0, p.volume)];
    assert AsReals(br)[1..] == [];
    if p.lower <= p.volume <= p.upper {
      assert AsReals(br) == [v];
      assert Immediate(p, 0, p.volume, p.volume) == v * ((v + p.opp[0]) + p.kappa * (0.0 + p.opp[0]));
      assert TotalCost(AsReals(br), p.opp, p.kappa)
             == StepCost(v, p.opp[0], p.kappa, 0.0, 0.0) + CostFrom([], p.opp[1..], p.kappa, v, p.opp[0]);
    }
  }
}
