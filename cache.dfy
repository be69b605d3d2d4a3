// The parts of the cache simulator that the replacement policies read but do
// not own: the cache lines with their tag and coherence status, and the
// geometry that maps a set index to a contiguous range of physical lines.

module CacheModel {

  datatype Option<T> = None | Some(value: T)

  /** Coherence status of a cache line; only `Modified` (dirty) matters to the policies. */
  datatype Status = Invalid | Shared | Modified

  datatype CacheLine = CacheLine(tag: nat, status: Status)

  /**
   * The view of the cache a policy receives on every call: the associativity
   * and the flat array of all lines, set after set.
   */
  datatype CacheSystem = CacheSystem(associativity: nat, lines: seq<CacheLine>)

  /** Index of the first physical line of set `setIdx`. */
  function SetStart(sys: CacheSystem, setIdx: nat): nat
  {
    setIdx * sys.associativity
  }

  /** Set `setIdx` lies inside the cache: its lines `[start, start + associativity)` exist. */
  predicate HasSet(sys: CacheSystem, setIdx: nat)
  {
    SetStart(sys, setIdx) + sys.associativity <= |sys.lines|
  }

  /**
   * A physical index inside set `setIdx` reduced modulo the associativity is
   * its offset within the set (and divided by it, the set index).
   */
  lemma OffsetInSet(setIdx: nat, assoc: nat, d: nat)
    requires d < assoc
    ensures (setIdx * assoc + d) % assoc == d
    ensures (setIdx * assoc + d) / assoc == setIdx
  {
    var x := setIdx * assoc + d;
    var q, r := x / assoc, x % assoc;
    assert x == q * assoc + r;
    assert (setIdx - q) * assoc == r - d;
    if setIdx - q >= 1 {
      MulAtLeast(setIdx - q, assoc);
    } else if q - setIdx >= 1 {
      MulAtLeast(q - setIdx, assoc);
    }
  }

  lemma MulAtLeast(m: int, a: nat)
    requires 1 <= m
    ensures m * a >= a
  {
    assert m * a == (m - 1) * a + a;
  }
}
