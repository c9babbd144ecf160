/** The cost functional of the trading game: what playing schedule `a` costs
    against an opponent schedule `b` under linear temporary impact plus
    kappa-scaled permanent impact (BestResponseDynamics/BR.py, total_cost). */
module TradingCost {

  /** Sum of a sequence of reals, taken from the front. */
  function Sum(xs: seq<real>): real
  {
    if |xs| == 0 then 0.0 else xs[0] + Sum(xs[1..])
  }

  lemma {:induction false} SumAppend(xs: seq<real>, ys: seq<real>)
    ensures Sum(xs + ys) == Sum(xs) + Sum(ys)
  {
    if |xs| == 0 {
      assert xs + ys == ys;
    } else {
      assert (xs + ys)[1..] == xs[1..] + ys;
      SumAppend(xs[1..], ys);
    }
  }

  /** Adding one more element to a prefix adds that element to its sum. */
  lemma PrefixSumStep(xs: seq<real>, i: nat)
    requires i < |xs|
    ensures Sum(xs[..i + 1]) == Sum(xs[..i]) + xs[i]
  {
    assert xs[..i + 1] == xs[..i] + [xs[i]];
    SumAppend(xs[..i], [xs[i]]);
  }

  /** An integer schedule read as reals, the way numpy stores it. */
  function AsReals(xs: seq<int>): (r: seq<real>)
    ensures |r| == |xs|
  {
    seq(|xs|, i requires 0 <= i < |xs| => xs[i] as real)
  }

  /** What one step costs the acting player when it trades `q`, the opponent
      trades `oppQ`, and before this step the two hold `held` and `oppHeld`. */
  function StepCost(q: real, oppQ: real, kappa: real, held: real, oppHeld: real): real
  {
    (q + oppQ) * q + kappa * (held + oppHeld) * q
  }

  /** Cost of the remaining schedule `a` against `b`, step by step, carrying
      the positions both players have built up so far. */
  function CostFrom(a: seq<real>, b: seq<real>, kappa: real, held: real, oppHeld: real): real
    requires |a| <= |b|
  {
    if |a| == 0 then 0.0
    else StepCost(a[0], b[0], kappa, held, oppHeld)
         + CostFrom(a[1..], b[1..], kappa, held + a[0], oppHeld + b[0])
  }

  /** total_cost: both players start flat. */
  function TotalCost(a: seq<real>, b: seq<real>, kappa: real): real
    requires |a| <= |b|
  {
    CostFrom(a, b, kappa, 0.0, 0.0)
  }

  /** Exclusive running position: entry i is what was traded before step i. */
  function ExclusivePrefix(xs: seq<real>): (r: seq<real>)
    ensures |r| == |xs|
  {
    seq(|xs|, i requires 0 <= i < |xs| => Sum(xs[..i]))
  }

  /** total_cost as the source computes it: build both exclusive running
      positions, then add up the per-step terms (StepCost) in one pass. */
  method ComputeTotalCost(anow: seq<real>, bnow: seq<real>, kappa: real) returns (total: real)
    requires |anow| <= |bnow|
    ensures total == TotalCost(anow, bnow, kappa)
  {
    var a := ExclusivePrefix(anow);
    var b := ExclusivePrefix(bnow);
    total := 0.0;
    for t := 0 to |anow|
      invariant total + CostFrom(anow[t..], bnow[t..], kappa, Sum(anow[..t]), Sum(bnow[..t]))
                == TotalCost(anow, bnow, kappa)
    {
      CostFromStep(anow, bnow, kappa, t);
      total := total + StepCost(anow[t], bnow[t], kappa, a[t], b[t]);
    }
  }

  /** One step of CostFrom, taken at position t with the exclusive running
      positions as what both players hold. */
  lemma CostFromStep(anow: seq<real>, bnow: seq<real>, kappa: real, t: nat)
    requires t < |anow| <= |bnow|
    ensures CostFrom(anow[t..], bnow[t..], kappa, Sum(anow[..t]), Sum(bnow[..t]))
            == StepCost(anow[t], bnow[t], kappa, Sum(anow[..t]), Sum(bnow[..t]))
               + CostFrom(anow[t + 1..], bnow[t + 1..], kappa, Sum(anow[..t + 1]), Sum(bnow[..t + 1]))
  {
    PrefixSumStep(anow, t);
    PrefixSumStep(bnow, t);
    assert anow[t..][1..] == anow[t + 1..];
    assert bnow[t..][1..] == bnow[t + 1..];
  }

  /** A player that never trades pays nothing, whatever it already holds and
      whatever the opponent does; in particular an empty schedule costs 0. */
  lemma {:induction false} IdleCostsNothing(a: seq<real>, b: seq<real>, kappa: real, held: real, oppHeld: real)
    requires |a| <= |b|
    requires forall t :: 0 <= t < |a| ==> a[t] == 0.0
    ensures CostFrom(a, b, kappa, held, oppHeld) == 0.0
    ensures TotalCost(a, b, kappa) == 0.0
  {
    if |a| > 0 {
      IdleCostsNothing(a[1..], b[1..], kappa, held, oppHeld + b[0]);
      IdleCostsNothing(a[1..], b[1..], kappa, 0.0, b[0]);
    }
  }

  // ---------------------------------------------------------------------------
  // The cost is affine in the opponent's schedule: what the player pays on
  // its own plus a part linear in (b, oppHeld). This is what lets regret
  // price a whole batch of opponent schedules through their average.
  // ---------------------------------------------------------------------------

  /** Element-wise sum of two schedules. */
  function Add(u: seq<real>, v: seq<real>): (r: seq<real>)
    requires |u| == |v|
    ensures |r| == |u| && forall k :: 0 <= k < |r| ==> r[k] == u[k] + v[k]
  {
    seq(|u|, k requires 0 <= k < |u| => u[k] + v[k])
  }

  /** A schedule scaled by c. */
  function Scale(c: real, u: seq<real>): (r: seq<real>)
    ensures |r| == |u| && forall k :: 0 <= k < |r| ==> r[k] == c * u[k]
  {
    seq(|u|, k requires 0 <= k < |u| => c * u[k])
  }

  /** The part of CostFrom that does not depend on the opponent. */
  function Own(a: seq<real>, kappa: real, held: real): real
  {
    if |a| == 0 then 0.0 else a[0] * a[0] + kappa * held * a[0] + Own(a[1..], kappa, held + a[0])
  }

  /** What one step of the opponent's activity adds to the player's cost:
      the opponent's trade x moves the temporary price, its position o the
      permanent one, and the player pays both on its own trade q. */
  function Term(q: real, x: real, kappa: real, o: real): real
  {
    q * x + kappa * o * q
  }

  /** The part of CostFrom that the opponent's trades and position cause. */
  function Exposure(a: seq<real>, b: seq<real>, kappa: real, oppHeld: real): real
    requires |a| <= |b|
  {
    if |a| == 0 then 0.0
    else Term(a[0], b[0], kappa, oppHeld) + Exposure(a[1..], b[1..], kappa, oppHeld + b[0])
  }

  lemma {:induction false} CostSplits(a: seq<real>, b: seq<real>, kappa: real, held: real, oppHeld: real)
    requires |a| <= |b|
    ensures CostFrom(a, b, kappa, held, oppHeld) == Own(a, kappa, held) + Exposure(a, b, kappa, oppHeld)
  {
    if |a| > 0 {
      CostSplits(a[1..], b[1..], kappa, held + a[0], oppHeld + b[0]);
      assert StepCost(a[0], b[0], kappa, held, oppHeld)
             == (a[0] * a[0] + kappa * held * a[0]) + Term(a[0], b[0], kappa, oppHeld);
    }
  }

  lemma AddTail(b: seq<real>, c: seq<real>)
    requires 0 < |b| == |c|
    ensures Add(b, c)[0] == b[0] + c[0] && Add(b, c)[1..] == Add(b[1..], c[1..])
  {
  }

  lemma ScaleTail(k: real, b: seq<real>)
    requires 0 < |b|
    ensures Scale(k, b)[0] == k * b[0] && Scale(k, b)[1..] == Scale(k, b[1..])
  {
    var kb, kt := Scale(k, b), Scale(k, b[1..]);
    forall i | 0 <= i < |kt|
      ensures kb[1..][i] == kt[i]
    {
      assert kb[i + 1] == k * b[i + 1];
    }
  }

  lemma {:induction false} ExposureAdditive(a: seq<real>, b: seq<real>, c: seq<real>, kappa: real, o1: real, o2: real)
    requires |a| <= |b| == |c|
    ensures Exposure(a, Add(b, c), kappa, o1 + o2) == Exposure(a, b, kappa, o1) + Exposure(a, c, kappa, o2)
  {
    if |a| > 0 {
      var bc := Add(b, c);
      AddTail(b, c);
      ExposureAdditive(a[1..], b[1..], c[1..], kappa, o1 + b[0], o2 + c[0]);
      StepAdds(a[0], b[0], c[0], kappa, o1, o2);
      assert (o1 + o2) + bc[0] == (o1 + b[0]) + (o2 + c[0]);
    }
  }

  lemma StepAdds(q: real, x: real, y: real, kappa: real, o1: real, o2: real)
    ensures Term(q, x + y, kappa, o1 + o2) == Term(q, x, kappa, o1) + Term(q, y, kappa, o2)
  {
  }

  lemma {:induction false} ExposureScales(a: seq<real>, b: seq<real>, kappa: real, o: real, c: real, co: real)
    requires |a| <= |b| && co == c * o
    ensures Exposure(a, Scale(c, b), kappa, co) == c * Exposure(a, b, kappa, o)
  {
    if |a| > 0 {
      var cb := Scale(c, b);
      ScaleTail(c, b);
      StepScales(a[0], b[0], kappa, o, c);
      ExposureScales(a[1..], b[1..], kappa, o + b[0], c, co + cb[0]);
      var head, rest := Term(a[0], b[0], kappa, o), Exposure(a[1..], b[1..], kappa, o + b[0]);
      assert c * head + c * rest == c * (head + rest);
    }
  }

  lemma StepScales(q: real, x: real, kappa: real, o: real, c: real)
    ensures Term(q, c * x, kappa, c * o) == c * Term(q, x, kappa, o)
    ensures c * o + c * x == c * (o + x)
  {
  }
}
