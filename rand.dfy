// Random replacement: no state at all; the victim is a pseudo-random draw
// reduced modulo the associativity. The draw itself is an input here.

module RandPolicy {
  import opened CacheModel

  /** The offset evicted for the non-negative draw `draw`. */
  function EvictionIndex(draw: nat, associativity: nat): (offset: nat)
    requires 0 < associativity
    ensures offset < associativity
    ensures draw < associativity ==> offset == draw
  {
    draw % associativity
  }

  /** How many of the draws `0, 1, ..., n - 1` evict offset `k`. */
  function DrawsSelecting(n: nat, associativity: nat, k: nat): nat
    requires 0 < associativity
  {
    if n == 0 then 0
    else DrawsSelecting(n - 1, associativity, k) + (if EvictionIndex(n - 1, associativity) == k then 1 else 0)
  }

  /**
   * Over the draws `0 .. m * associativity - 1`, every offset is chosen by
   * exactly `m` draws.
   */
  lemma {:induction false} EveryOffsetEquallyOften(m: nat, associativity: nat, k: nat)
    requires 0 < associativity && k < associativity
    ensures DrawsSelecting(m * associativity, associativity, k) == m
  {
    if m > 0 {
      EveryOffsetEquallyOften(m - 1, associativity, k);
      assert m * associativity == (m - 1) * associativity + associativity;
      OnePeriod(m - 1, associativity, k, associativity);
    }
  }

  /** Within one period, the first `d` draws hit offset `k` once if `k < d` and never otherwise. */
  lemma {:induction false} OnePeriod(m: nat, associativity: nat, k: nat, d: nat)
    requires 0 < associativity && k < associativity && d <= associativity
    ensures DrawsSelecting(m * associativity + d, associativity, k)
            == DrawsSelecting(m * associativity, associativity, k) + (if k < d then 1 else 0)
  {
    if d > 0 {
      OnePeriod(m, associativity, k, d - 1);
      OffsetInSet(m, associativity, d - 1);
    }
  }

  /**
   * Over a draw range that is not a whole number of periods, `m` periods plus
   * `d` further draws, the offsets below `d` are chosen once more than the
   * others: when the associativity does not divide the generator's range
   * (`RAND_MAX + 1`), the low offsets are favoured.
   */
  lemma PartialPeriodFavoursLowOffsets(m: nat, associativity: nat, k: nat, d: nat)
    requires 0 < associativity && k < associativity && d < associativity
    ensures DrawsSelecting(m * associativity + d, associativity, k) == m + (if k < d then 1 else 0)
  {
    EveryOffsetEquallyOften(m, associativity, k);
    OnePeriod(m, associativity, k, d);
  }
}
