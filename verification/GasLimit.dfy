/** The gas limit of the next block, computed in 64-bit arithmetic. */
module GasLimits {
  import opened Basics

  function CalcGasLimit(limit: nat, used: nat, floor: nat, ceil: nat): nat {
    var contrib := Wrap(used + used / 2) / 1024;
    var decay := Wrap(limit / 1024 - 1);
    var natural := Wrap(limit - decay + contrib);
    var next := if natural < 4_000_000 then 4_000_000 else natural;
    if next < floor then
      var up := Wrap(limit + decay);
      if floor < up then floor else up
    else if ceil < next then
      var down := Wrap(limit - decay);
      if down < ceil then ceil else down
    else next
  }

  /** Limits that a valid header can carry, and gas that fits under them. */
  predicate Sane(limit: nat, used: nat) {
    1024 <= limit <= 0x7FFF_FFFF_FFFF_FFFF && used <= limit
  }

  /** The computation without regard to the width of integers. */
  function Unbounded(limit: nat, used: nat, floor: nat, ceil: nat): int {
    var decay := limit / 1024 - 1;
    var natural := limit - decay + (used + used / 2) / 1024;
    var next := if natural < 4_000_000 then 4_000_000 else natural;
    if next < floor then (if floor < limit + decay then floor else limit + decay)
    else if ceil < next then (if limit - decay < ceil then ceil else limit - decay)
    else next
  }

  lemma WrapSmall(n: int)
    requires 0 <= n < 0x1_0000_0000_0000_0000
    ensures Wrap(n) == n
  {
  }

  /** For such limits nothing wraps around. */
  lemma NoWrap(limit: nat, used: nat, floor: nat, ceil: nat)
    requires Sane(limit, used)
    ensures CalcGasLimit(limit, used, floor, ceil) == Unbounded(limit, used, floor, ceil)
  {
    var contrib, decay := (used + used / 2) / 1024, limit / 1024 - 1;
    WrapSmall(used + used / 2);
    WrapSmall(decay);
    WrapSmall(limit - decay + contrib);
    WrapSmall(limit + decay);
    WrapSmall(limit - decay);
  }

  ghost predicate WithinBound(limit: nat, next: nat) {
    limit < next + limit / 1024 && next < limit + limit / 1024
  }

  /**
   * The limit moves by less than a 1024th exactly if the minimum of four million, or a ceiling
   * below it, is not too far above the parent's limit, or the floor is above that minimum.
   */
  lemma BoundedMove(limit: nat, used: nat, floor: nat, ceil: nat)
    requires Sane(limit, used) && 5120 <= limit
    ensures WithinBound(limit, CalcGasLimit(limit, used, floor, ceil)) <==>
            4_000_000 < floor || Min(4_000_000, ceil) < limit + limit / 1024
  {
    NoWrap(limit, used, floor, ceil);
  }

  /** In particular the bound holds whenever the parent's limit is at the minimum or above. */
  lemma BoundedAboveMinimum(limit: nat, used: nat, floor: nat, ceil: nat)
    requires Sane(limit, used) && 4_000_000 <= limit
    ensures WithinBound(limit, CalcGasLimit(limit, used, floor, ceil))
  {
    BoundedMove(limit, used, floor, ceil);
  }

  /** It does not hold for every limit from 5120 on: the minimum pulls small limits up at once. */
  lemma JumpsToMinimum()
    ensures CalcGasLimit(5120, 0, 0, 8_000_000) == 4_000_000 && !WithinBound(5120, 4_000_000)
  {
  }

  /** A step towards the target and not beyond it. */
  predicate Towards(limit: nat, next: nat, target: nat) {
    && (limit < target ==> limit < next <= target)
    && (target < limit ==> target <= next < limit)
    && (limit == target ==> next == target)
  }

  /** With one target for floor and ceiling, each step goes towards it. */
  lemma OneStep(limit: nat, used: nat, target: nat)
    requires Sane(limit, used) && 2048 <= limit && 4_000_000 <= target <= 0x7FFF_FFFF_FFFF_FFFF
    ensures Towards(limit, CalcGasLimit(limit, used, target, target), target)
  {
    NoWrap(limit, used, target, target);
  }

  /** One block: it uses no more gas than its limit, and the next limit is computed from it. */
  ghost predicate Follows(limit: nat, used: nat, target: nat, next: nat) {
    used <= limit && next == CalcGasLimit(limit, used, target, target)
  }

  /** The limits of a run of blocks that use the given amounts of gas. */
  ghost predicate IsRun(limits: seq<nat>, used: seq<nat>, target: nat) {
    |limits| == |used| + 1 && forall i :: 0 <= i < |used| ==> Follows(limits[i], used[i], target, limits[i + 1])
  }

  /** The first `n` steps came closer to the target from one side, one unit a step at least. */
  predicate Closer(limit: nat, now: nat, target: nat, n: nat) {
    && (limit <= target ==> limit <= now <= target) && (target <= limit ==> target <= now <= limit)
    && (Distance(limit, target) <= n ==> now == target)
    && (n < Distance(limit, target) ==> Distance(now, target) + n <= Distance(limit, target))
  }

  function Distance(a: nat, b: nat): nat {
    if a < b then b - a else a - b
  }

  lemma OneCloser(limit: nat, now: nat, next: nat, target: nat, n: nat)
    requires Closer(limit, now, target, n) && Towards(now, next, target)
    ensures Closer(limit, next, target, n + 1)
  {
  }

  /** Whatever the blocks use, the limit comes closer with every block, reaches the target and stays there. */
  lemma {:induction false} Approaches(limits: seq<nat>, used: seq<nat>, target: nat, n: nat)
    requires IsRun(limits, used, target) && n <= |used|
    requires 2048 <= limits[0] <= 0x7FFF_FFFF_FFFF_FFFF && 4_000_000 <= target <= 0x7FFF_FFFF_FFFF_FFFF
    ensures Closer(limits[0], limits[n], target, n)
  {
    if 0 < n {
      Approaches(limits, used, target, n - 1);
      assert Follows(limits[n - 1], used[n - 1], target, limits[n]);
      OneStep(limits[n - 1], used[n - 1], target);
      OneCloser(limits[0], limits[n - 1], limits[n], target, n - 1);
    }
  }

  /** From a limit below 2048 a higher target is never approached. */
  lemma {:induction false} StuckBelow2048(limits: seq<nat>, used: seq<nat>, target: nat, n: nat)
    requires IsRun(limits, used, target) && n <= |used|
    requires 1024 <= limits[0] < 2048 && 4_000_000 < target
    ensures limits[n] == limits[0]
  {
    if 0 < n {
      StuckBelow2048(limits, used, target, n - 1);
      assert Follows(limits[n - 1], used[n - 1], target, limits[n]);
      NoMove(limits[n - 1], used[n - 1], target);
    }
  }

  lemma NoMove(limit: nat, used: nat, target: nat)
    requires 1024 <= limit < 2048 && 4_000_000 < target && used <= limit
    ensures CalcGasLimit(limit, used, target, target) == limit
  {
    NoWrap(limit, used, target, target);
  }
}
