/** Grouping rounds by the action played, as a Python dict keyed by action
    fills in when it is updated once per round (NoRegretDynamics/helpers.py,
    the defaultdict in swap_regret and the Counters in marginal_cost): keys
    come out in order of first appearance, and each key's list holds its
    rounds in increasing order. Keys compare by value. */
module Grouping {
  import opened TradingCost

  /** The keys of xs in order of first appearance (dict insertion order). */
  function Distinct<K(==,!new)>(xs: seq<K>): (d: seq<K>)
    ensures forall k :: k in d <==> k in xs
  {
    if |xs| == 0 then []
    else
      assert xs == xs[..|xs| - 1] + [xs[|xs| - 1]];
      var d := Distinct(xs[..|xs| - 1]);
      if xs[|xs| - 1] in d then d else d + [xs[|xs| - 1]]
  }

  /** The rounds at which xs plays k, in the order they were appended. */
  function IndicesOf<K(==,!new)>(xs: seq<K>, k: K): (idx: seq<int>)
    ensures forall i :: 0 <= i < |idx| ==> 0 <= idx[i] < |xs| && xs[idx[i]] == k
  {
    if |xs| == 0 then []
    else IndicesOf(xs[..|xs| - 1], k) + (if xs[|xs| - 1] == k then [|xs| - 1] else [])
  }

  /** How often xs plays k (collections.Counter). */
  function Count<K(==,!new)>(xs: seq<K>, k: K): nat
  {
    |IndicesOf(xs, k)|
  }

  predicate NoDuplicates<K(==,!new)>(d: seq<K>)
  {
    forall i, j :: 0 <= i < j < |d| ==> d[i] != d[j]
  }

  predicate Increasing(idx: seq<int>)
  {
    forall i, j :: 0 <= i < j < |idx| ==> idx[i] < idx[j]
  }

  /** The dict's keys hold each action once. */
  lemma {:induction false} DistinctKeys<K(!new)>(xs: seq<K>)
    ensures NoDuplicates(Distinct(xs))
  {
    if |xs| > 0 {
      DistinctKeys(xs[..|xs| - 1]);
    }
  }

  /** The groups partition the rounds: round t is listed under k exactly when
      xs[t] == k, and each list is strictly increasing, so no round appears
      twice. */
  lemma {:induction false} IndicesExact<K(!new)>(xs: seq<K>, k: K)
    ensures Increasing(IndicesOf(xs, k))
    ensures forall t :: t in IndicesOf(xs, k) <==> 0 <= t < |xs| && xs[t] == k
  {
    if |xs| > 0 {
      var front := xs[..|xs| - 1];
      IndicesExact(front, k);
      assert forall t :: 0 <= t < |front| ==> front[t] == xs[t];
    }
  }

  /** A key that has not been played has no rounds. */
  lemma UnplayedHasNoRounds<K(!new)>(xs: seq<K>, k: K)
    requires k !in xs
    ensures IndicesOf(xs, k) == []
  {
    IndicesExact(xs, k);
  }

  /** A played key has at least one round. */
  lemma PlayedHasRounds<K(!new)>(xs: seq<K>, k: K)
    requires k in xs
    ensures Count(xs, k) > 0
  {
    IndicesExact(xs, k);
    var t :| 0 <= t < |xs| && xs[t] == k;
    assert t in IndicesOf(xs, k);
  }

  /** Sum of vals over the listed rounds (np.sum of the gathered entries). */
  function SumAt(vals: seq<real>, idx: seq<int>): real
    requires forall i :: 0 <= i < |idx| ==> 0 <= idx[i] < |vals|
  {
    if |idx| == 0 then 0.0 else SumAt(vals, idx[..|idx| - 1]) + vals[idx[|idx| - 1]]
  }

  /** The group sums over the keys ds, added up. */
  function GroupSum<K(==,!new)>(ds: seq<K>, xs: seq<K>, vals: seq<real>): real
    requires |xs| <= |vals|
  {
    if |ds| == 0 then 0.0
    else GroupSum(ds[..|ds| - 1], xs, vals) + SumAt(vals, IndicesOf(xs, ds[|ds| - 1]))
  }

  /** Appending round n = |xs| with key x adds vals[n] to x's group and leaves
      every other group alone. */
  lemma {:induction false} GroupSumExtend<K(!new)>(ds: seq<K>, xs: seq<K>, x: K, vals: seq<real>)
    requires |xs| < |vals| && NoDuplicates(ds)
    ensures GroupSum(ds, xs + [x], vals)
            == GroupSum(ds, xs, vals) + (if x in ds then vals[|xs|] else 0.0)
  {
    var ys := xs + [x];
    assert ys[..|ys| - 1] == xs;
    if |ds| > 0 {
      var front, k := ds[..|ds| - 1], ds[|ds| - 1];
      GroupSumExtend(front, xs, x, vals);
      var old_idx := IndicesOf(xs, k);
      if k == x {
        var new_idx := old_idx + [|xs|];
        assert IndicesOf(ys, k) == new_idx;
        assert new_idx[..|new_idx| - 1] == old_idx;
        assert x !in front;
      } else {
        assert IndicesOf(ys, k) == old_idx;
        assert x in ds <==> x in front;
      }
    }
  }

  /** The group sums add up to the sum over all rounds. */
  lemma {:induction false} GroupSumsAddUp<K(!new)>(xs: seq<K>, vals: seq<real>)
    requires |xs| <= |vals|
    ensures GroupSum(Distinct(xs), xs, vals) == Sum(vals[..|xs|])
  {
    if |xs| == 0 {
    } else {
      var n := |xs| - 1;
      var front, x := xs[..n], xs[n];
      assert xs == front + [x];
      GroupSumsAddUp(front, vals);
      var d := Distinct(front);
      DistinctKeys(front);
      GroupSumExtend(d, front, x, vals);
      PrefixSumStep(vals, n);
      if x in d {
        assert Distinct(xs) == d;
      } else {
        var d2 := d + [x];
        assert Distinct(xs) == d2;
        assert d2[..|d|] == d;
        UnplayedHasNoRounds(front, x);
        assert IndicesOf(xs, x) == [n];
        assert SumAt(vals, [n]) == vals[n] by {
          assert [n][..0] == [];
        }
        assert GroupSum(d2, xs, vals) == GroupSum(d, xs, vals) + vals[n];
      }
    }
  }

  /** The same, for one value per round. */
  lemma GroupSumsAddUpAll<K(!new)>(xs: seq<K>, vals: seq<real>)
    requires |xs| == |vals|
    ensures GroupSum(Distinct(xs), xs, vals) == Sum(vals)
  {
    GroupSumsAddUp(xs, vals);
    assert vals[..|xs|] == vals;
  }

  /** How often xs plays each key of ds, as reals (the Counter's values). */
  function Counts<K(==,!new)>(xs: seq<K>, ds: seq<K>): (c: seq<real>)
    ensures |c| == |ds| && forall j :: 0 <= j < |ds| ==> c[j] == Count(xs, ds[j]) as real
  {
    seq(|ds|, j requires 0 <= j < |ds| => Count(xs, ds[j]) as real)
  }

  /** x * y under a name of its own: a sum of such terms unfolds without
      handing the solver a fresh product at every step. */
  function Mul(x: real, y: real): real
  {
    x * y
  }

  /** Sum of u[j] * v[j], taken from the end. */
  function Dot(u: seq<real>, v: seq<real>): real
    requires |u| == |v|
  {
    if |u| == 0 then 0.0 else Dot(u[..|u| - 1], v[..|v| - 1]) + Mul(u[|u| - 1], v[|v| - 1])
  }

  /** A group whose entries all equal c sums to its size times c. */
  lemma {:induction false} ConstantGroup(vals: seq<real>, idx: seq<int>, c: real)
    requires forall i :: 0 <= i < |idx| ==> 0 <= idx[i] < |vals| && vals[idx[i]] == c
    ensures SumAt(vals, idx) == Mul(|idx| as real, c)
  {
    if |idx| > 0 {
      ConstantGroup(vals, idx[..|idx| - 1], c);
      assert (|idx| as real) * c == ((|idx| - 1) as real) * c + c;
    }
  }

  /** When a round's value depends only on its key, the group sums weigh
      each key's value by how often it is played. */
  lemma {:induction false} GroupSumByKey<K(!new)>(ds: seq<K>, xs: seq<K>, vals: seq<real>, keyVals: seq<real>)
    requires |xs| <= |vals| && |keyVals| == |ds|
    requires forall j, t :: 0 <= j < |ds| && 0 <= t < |xs| && xs[t] == ds[j] ==> vals[t] == keyVals[j]
    ensures GroupSum(ds, xs, vals) == Dot(Counts(xs, ds), keyVals)
  {
    if |ds| > 0 {
      var n := |ds| - 1;
      GroupSumByKey(ds[..n], xs, vals, keyVals[..n]);
      assert Counts(xs, ds)[..n] == Counts(xs, ds[..n]);
      ConstantGroup(vals, IndicesOf(xs, ds[n]), keyVals[n]);
    }
  }

  /** The rounds 0 .. n - 1 in order. */
  function Rounds(n: nat): (r: seq<int>)
    ensures |r| == n && forall i :: 0 <= i < n ==> r[i] == i
  {
    seq(n, i requires 0 <= i < n => i)
  }

  /** One action played throughout: a single key whose group is every round. */
  lemma {:induction false} SingleKey<K(!new)>(xs: seq<K>, k: K)
    requires forall t :: 0 <= t < |xs| ==> xs[t] == k
    ensures |xs| > 0 ==> Distinct(xs) == [k]
    ensures IndicesOf(xs, k) == Rounds(|xs|)
  {
    if |xs| > 0 {
      SingleKey(xs[..|xs| - 1], k);
      assert Rounds(|xs|) == Rounds(|xs| - 1) + [|xs| - 1];
    }
  }

  lemma {:induction false} SumAtRounds(vals: seq<real>, n: nat)
    requires n <= |vals|
    ensures SumAt(vals, Rounds(n)) == Sum(vals[..n])
  {
    if n > 0 {
      SumAtRounds(vals, n - 1);
      assert Rounds(n)[..n - 1] == Rounds(n - 1);
      PrefixSumStep(vals, n - 1);
    }
  }

  /** The defaultdict(list) loop of swap_regret: for each round, append its
      index to the list of the action played, creating the list when the
      action is new. */
  method GroupRounds<K(==,!new)>(xs: seq<K>) returns (order: seq<K>, groups: map<K, seq<int>>)
    ensures order == Distinct(xs)
    ensures forall k :: k in groups <==> k in xs
    ensures forall k :: k in groups ==> groups[k] == IndicesOf(xs, k)
  {
    order, groups := [], map[];
    for t := 0 to |xs|
      invariant order == Distinct(xs[..t])
      invariant forall k :: k in groups <==> k in xs[..t]
      invariant forall k :: k in groups ==> groups[k] == IndicesOf(xs[..t], k)
    {
      var k := xs[t];
      assert xs[..t + 1][..t] == xs[..t];
      DistinctKeys(xs[..t]);
      var existing := if k in groups then groups[k] else [];
      if k !in groups {
        order := order + [k];
        UnplayedHasNoRounds(xs[..t], k);
      }
      groups := groups[k := existing + [t]];
    }
    assert xs[..|xs|] == xs;
  }
}
