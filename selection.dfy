/**
 * Variation selection (`decideTargetVariation`): walk a target's
 * distribution in declared order, adding up percentages, and pick the first
 * entry whose running sum exceeds the bucketing hash.
 */
module Selection {
  import opened Wrappers
  import opened Targeting

  /** The running sum after the first `n` entries. */
  function PrefixSum(d: seq<Distribution>, n: nat): (r: real)
    requires n <= |d|
    ensures NonNegative(d) ==> r >= 0.0
  {
    if n == 0 then 0.0 else PrefixSum(d, n - 1) + d[n - 1].percentage
  }

  /**
   * The walk from entry `i` on, with `acc` the running sum so far: the first
   * index at or after `i` whose running sum exceeds `hash`, if any.
   */
  function SelectFrom(d: seq<Distribution>, hash: real, i: nat, acc: real): (r: Option<nat>)
    requires i <= |d| && acc == PrefixSum(d, i)
    ensures r.Some? ==> i <= r.value < |d| && hash < PrefixSum(d, r.value + 1)
    ensures r.Some? ==> forall j :: i < j <= r.value ==> PrefixSum(d, j) <= hash
    ensures r.None? ==> forall j :: i < j <= |d| ==> PrefixSum(d, j) <= hash
    decreases |d| - i
  {
    if i == |d| then None
    else
      var sum := acc + d[i].percentage;
      if hash < sum then Some(i) else SelectFrom(d, hash, i + 1, sum)
  }

  /** The index of the selected distribution entry, if any. */
  function SelectIndex(d: seq<Distribution>, hash: real): (r: Option<nat>)
    ensures r.Some? ==> r.value < |d| && hash < PrefixSum(d, r.value + 1)
    ensures r.Some? ==> forall j :: 0 < j <= r.value ==> PrefixSum(d, j) <= hash
    ensures r.None? ==> forall j :: 0 < j <= |d| ==> PrefixSum(d, j) <= hash
  {
    SelectFrom(d, hash, 0, 0.0)
  }

  /** `Failed to decide target variation: <target id>` when no entry is selected. */
  datatype SelectionError = NoVariationSelected(targetId: string)

  function DecideTargetVariation(target: Target, hash: real): (r: Result<string, SelectionError>)
    ensures r.Err? ==> r.error == NoVariationSelected(target.id)
    ensures r.Ok? ==> exists k :: 0 <= k < |target.distribution| && target.distribution[k].variationId == r.value
  {
    match SelectIndex(target.distribution, hash)
    case Some(k) => Ok(target.distribution[k].variationId)
    case None => Err(NoVariationSelected(target.id))
  }

  predicate NonNegative(d: seq<Distribution>)
  {
    forall i :: 0 <= i < |d| ==> d[i].percentage >= 0.0
  }

  lemma {:induction false} PrefixSumMonotone(d: seq<Distribution>, m: nat, n: nat)
    requires NonNegative(d) && m <= n <= |d|
    ensures PrefixSum(d, m) <= PrefixSum(d, n)
    decreases n - m
  {
    if m < n {
      PrefixSumMonotone(d, m, n - 1);
    }
  }

  /**
   * Entry `k` is selected exactly for the hashes in
   * [PrefixSum(k), PrefixSum(k + 1)), an interval whose length is the
   * entry's own percentage; so a uniform hash picks each entry with the
   * probability its percentage states.
   */
  lemma SelectionInterval(d: seq<Distribution>, hash: real, k: nat)
    requires NonNegative(d) && k < |d| && 0.0 <= hash
    ensures PrefixSum(d, k + 1) - PrefixSum(d, k) == d[k].percentage
    ensures SelectIndex(d, hash) == Some(k) <==> PrefixSum(d, k) <= hash < PrefixSum(d, k + 1)
  {
    var r := SelectIndex(d, hash);
    if PrefixSum(d, k) <= hash < PrefixSum(d, k + 1) {
      if r.Some? && r.value < k {
        PrefixSumMonotone(d, r.value + 1, k);
      }
    }
    if r == Some(k) && k > 0 {
      assert PrefixSum(d, k) <= hash;
    }
  }

  /**
   * A distribution whose percentages are non-negative and add up to 1 always
   * selects an entry for a hash in [0, 1): the error is reserved for
   * malformed distributions.
   */
  lemma CompleteDistributionSelects(target: Target, hash: real)
    requires NonNegative(target.distribution)
    requires |target.distribution| > 0 && PrefixSum(target.distribution, |target.distribution|) == 1.0
    requires 0.0 <= hash < 1.0
    ensures DecideTargetVariation(target, hash).Ok?
  {
  }

  /** An empty distribution never selects: the "missing distribution" error of the tests. */
  lemma EmptyDistributionFails(target: Target, hash: real)
    requires target.distribution == []
    ensures DecideTargetVariation(target, hash) == Err(NoVariationSelected(target.id))
  {
  }
}
