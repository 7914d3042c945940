/**
 * Group-by-key summation: a dict with a zero counter for every key, then one
 * pass over the rows adding each row's counts to its key's counters. Both the
 * census (males, females) and the mobility data (devices, devices that stayed
 * home) are aggregated this way.
 */
module Aggregate {
  import opened Dicts

  /**
   * `numerator / denominator` as an exact quotient: the number that times the
   * denominator gives the numerator, a fraction in [0, 1] when the numerator
   * lies between zero and the denominator.
   */
  function Ratio(numerator: int, denominator: int): (q: real)
    requires denominator != 0
    ensures q * denominator as real == numerator as real
    ensures 0 <= numerator <= denominator ==> 0.0 <= q <= 1.0
  {
    RatioBounds(numerator, denominator);
    numerator as real / denominator as real
  }

  lemma RatioBounds(numerator: int, denominator: int)
    requires denominator != 0
    ensures (numerator as real / denominator as real) * denominator as real == numerator as real
    ensures 0 <= numerator <= denominator ==> 0.0 <= numerator as real / denominator as real <= 1.0
  {
    var q := numerator as real / denominator as real;
    if 0 <= numerator <= denominator {
      assert denominator as real > 0.0;
      if q > 1.0 {
        assert q * denominator as real > denominator as real;
      }
    }
  }

  /** The sum of all values. */
  function Sum(values: seq<int>): int
    decreases |values|
  {
    if |values| == 0 then 0 else Sum(values[..|values| - 1]) + values[|values| - 1]
  }

  /** The sum of the values of the rows whose key is `k`. */
  function SumFor(keys: seq<string>, values: seq<int>, k: string): int
    requires |keys| == |values|
    decreases |keys|
  {
    if |keys| == 0 then 0
    else
      SumFor(keys[..|keys| - 1], values[..|values| - 1], k)
      + (if keys[|keys| - 1] == k then values[|values| - 1] else 0)
  }

  /** The per-county sums of `counties`, added up. */
  function SumOverCounties(counties: seq<string>, keys: seq<string>, values: seq<int>): int
    requires |keys| == |values|
    decreases |counties|
  {
    if |counties| == 0 then 0
    else SumOverCounties(counties[..|counties| - 1], keys, values) + SumFor(keys, values, counties[|counties| - 1])
  }

  /** The values of `entries` at the keys of `order`, added up. */
  function TotalOver(order: seq<string>, entries: map<string, int>): int
    requires forall k | k in order :: k in entries
    decreases |order|
  {
    if |order| == 0 then 0 else TotalOver(order[..|order| - 1], entries) + entries[order[|order| - 1]]
  }

  /**
   * `totals = {k: 0 for k in keys}` for two counters, then
   * `for k, a, b in zip(keys, first, second): firstTotals[k] += a; secondTotals[k] += b`.
   * The comprehension fixes the iteration order; `+=` on a present key only changes its value.
   */
  method SumPairsByKey(keys: seq<string>, first: seq<int>, second: seq<int>)
    returns (firstTotals: Dict<int>, secondTotals: Dict<int>)
    requires |keys| == |first| == |second|
    ensures firstTotals.Valid() && secondTotals.Valid()
    ensures firstTotals.order == Dedup(keys) && secondTotals.order == Dedup(keys)
    ensures forall k :: k in firstTotals.entries <==> k in keys
    ensures forall k :: k in secondTotals.entries <==> k in keys
    ensures forall k | k in keys :: firstTotals.entries[k] == SumFor(keys, first, k)
    ensures forall k | k in keys :: secondTotals.entries[k] == SumFor(keys, second, k)
    ensures TotalOver(firstTotals.order, firstTotals.entries) == Sum(first)
    ensures TotalOver(secondTotals.order, secondTotals.entries) == Sum(second)
  {
    firstTotals := FromKeys(keys, 0);
    secondTotals := FromKeys(keys, 0);
    var firstSums, secondSums := firstTotals.entries, secondTotals.entries;
    assert keys[..0] == [] && first[..0] == [] && second[..0] == [];
    var i := 0;
    while i < |keys|
      invariant 0 <= i <= |keys|
      invariant firstSums.Keys == firstTotals.entries.Keys && secondSums.Keys == secondTotals.entries.Keys
      invariant forall k | k in keys :: k in firstSums && firstSums[k] == SumFor(keys[..i], first[..i], k)
      invariant forall k | k in keys :: k in secondSums && secondSums[k] == SumFor(keys[..i], second[..i], k)
    {
      firstSums := AddRow(firstSums, keys, first, i);
      secondSums := AddRow(secondSums, keys, second, i);
      i := i + 1;
    }
    firstTotals := Dict(firstTotals.order, firstSums);
    secondTotals := Dict(secondTotals.order, secondSums);
    AllRows(firstTotals, keys, first);
    AllRows(secondTotals, keys, second);
  }

  /** `totals[keys[i]] += values[i]`: row `i` joins the partial sums of the rows before it. */
  method AddRow(sums: map<string, int>, keys: seq<string>, values: seq<int>, i: nat) returns (next: map<string, int>)
    requires |keys| == |values| && i < |keys|
    requires forall k | k in keys :: k in sums && sums[k] == SumFor(keys[..i], values[..i], k)
    ensures next.Keys == sums.Keys
    ensures forall k | k in keys :: k in next && next[k] == SumFor(keys[..i + 1], values[..i + 1], k)
  {
    next := sums[keys[i] := sums[keys[i]] + values[i]];
    SumForStep(keys, values, i);
  }

  /** Once every row is added, the counters are the per-key sums and add up to the grand total. */
  lemma AllRows(totals: Dict<int>, keys: seq<string>, values: seq<int>)
    requires |keys| == |values|
    requires totals.order == Dedup(keys) && forall k :: k in totals.entries <==> k in keys
    requires forall k | k in keys :: totals.entries[k] == SumFor(keys[..|keys|], values[..|values|], k)
    ensures forall k | k in keys :: totals.entries[k] == SumFor(keys, values, k)
    ensures TotalOver(totals.order, totals.entries) == Sum(values)
  {
    assert keys[..|keys|] == keys && values[..|values|] == values;
    TotalOverIsSumOverCounties(totals.order, totals.entries, keys, values);
    GrandTotal(keys, values);
  }

  /** One more row adds its value to its own key's sum and nothing to the others. */
  lemma SumForStep(keys: seq<string>, values: seq<int>, i: nat)
    requires |keys| == |values| && i < |keys|
    ensures forall k :: SumFor(keys[..i + 1], values[..i + 1], k)
                        == SumFor(keys[..i], values[..i], k) + (if keys[i] == k then values[i] else 0)
  {
    assert keys[..i + 1][..i] == keys[..i];
    assert values[..i + 1][..i] == values[..i];
  }

  lemma {:induction false} TotalOverIsSumOverCounties(order: seq<string>, entries: map<string, int>, keys: seq<string>, values: seq<int>)
    requires |keys| == |values|
    requires forall k | k in order :: k in entries && entries[k] == SumFor(keys, values, k)
    ensures TotalOver(order, entries) == SumOverCounties(order, keys, values)
    decreases |order|
  {
    if |order| > 0 {
      TotalOverIsSumOverCounties(order[..|order| - 1], entries, keys, values);
    }
  }

  /** A key that no row carries sums to zero. */
  lemma {:induction false} SumForAbsent(keys: seq<string>, values: seq<int>, k: string)
    requires |keys| == |values| && k !in keys
    ensures SumFor(keys, values, k) == 0
    decreases |keys|
  {
    if |keys| > 0 {
      assert keys == keys[..|keys| - 1] + [keys[|keys| - 1]];
      SumForAbsent(keys[..|keys| - 1], values[..|values| - 1], k);
    }
  }

  /**
   * Aggregating two batches of rows separately and adding the per-key sums gives
   * the per-key sums of the whole: the accumulation does not depend on how the
   * rows are split.
   */
  lemma {:induction false} SumForSplit(keys1: seq<string>, values1: seq<int>, keys2: seq<string>, values2: seq<int>, k: string)
    requires |keys1| == |values1| && |keys2| == |values2|
    ensures SumFor(keys1 + keys2, values1 + values2, k) == SumFor(keys1, values1, k) + SumFor(keys2, values2, k)
    decreases |keys2|
  {
    if |keys2| > 0 {
      var n := |keys2|;
      assert (keys1 + keys2)[..|keys1| + n - 1] == keys1 + keys2[..n - 1];
      assert (values1 + values2)[..|values1| + n - 1] == values1 + values2[..n - 1];
      SumForSplit(keys1, values1, keys2[..n - 1], values2[..n - 1], k);
    } else {
      assert keys1 + keys2 == keys1 && values1 + values2 == values1;
    }
  }

  lemma {:induction false} SumOverCountiesSnoc(counties: seq<string>, keys: seq<string>, values: seq<int>, x: string, v: int)
    requires |keys| == |values| && Distinct(counties)
    ensures SumOverCounties(counties, keys + [x], values + [v])
            == SumOverCounties(counties, keys, values) + (if x in counties then v else 0)
    decreases |counties|
  {
    if |counties| > 0 {
      var n := |counties|;
      var c := counties[n - 1];
      var rest := counties[..n - 1];
      assert counties == rest + [c];
      assert (keys + [x])[..|keys|] == keys;
      assert (values + [v])[..|values|] == values;
      SumOverCountiesSnoc(rest, keys, values, x, v);
      if x == c {
        assert x !in rest;
      }
    }
  }

  /** The per-county sums over all counties add up to the sum over all rows. */
  lemma {:induction false} GrandTotal(keys: seq<string>, values: seq<int>)
    requires |keys| == |values|
    ensures SumOverCounties(Dedup(keys), keys, values) == Sum(values)
    decreases |keys|
  {
    if |keys| > 0 {
      var n := |keys|;
      var pk, pv := keys[..n - 1], values[..n - 1];
      var x, v := keys[n - 1], values[n - 1];
      assert keys == pk + [x];
      assert values == pv + [v];
      GrandTotal(pk, pv);
      var d := Dedup(pk);
      SumOverCountiesSnoc(d, pk, pv, x, v);
      if x !in pk {
        assert Dedup(keys) == d + [x];
        assert (d + [x])[..|d|] == d;
        SumForAbsent(pk, pv, x);
      }
    }
  }

  /** Counts that are never negative sum to a non-negative total for every key. */
  lemma {:induction false} SumForNonNegative(keys: seq<string>, values: seq<int>, k: string)
    requires |keys| == |values|
    requires forall i | 0 <= i < |values| :: values[i] >= 0
    ensures SumFor(keys, values, k) >= 0
    decreases |keys|
  {
    if |keys| > 0 {
      SumForNonNegative(keys[..|keys| - 1], values[..|values| - 1], k);
    }
  }

  /** Row by row no larger, key by key no larger. */
  lemma {:induction false} SumForMonotone(keys: seq<string>, smaller: seq<int>, larger: seq<int>, k: string)
    requires |keys| == |smaller| == |larger|
    requires forall i | 0 <= i < |keys| :: smaller[i] <= larger[i]
    ensures SumFor(keys, smaller, k) <= SumFor(keys, larger, k)
    decreases |keys|
  {
    if |keys| > 0 {
      var n := |keys|;
      SumForMonotone(keys[..n - 1], smaller[..n - 1], larger[..n - 1], k);
    }
  }
}
