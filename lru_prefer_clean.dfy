// LRU with a preference for clean lines: the same recency state and access
// routine as plain LRU, but the victim is the least recently stamped line
// that is not Modified, so that eviction avoids a write-back when it can.

module LruPreferClean {
  import opened CacheModel
  import opened Lru

  /**
   * `k` is the prefer-clean victim of `[lo, hi)`: a line that is not Modified,
   * stamped no later than any other such line and strictly earlier than every
   * such line at a lower index.
   */
  ghost predicate IsFirstCleanMin(t: seq<nat>, lines: seq<CacheLine>, lo: nat, hi: nat, k: nat)
    requires hi <= |t| && hi <= |lines|
  {
    lo <= k < hi
    && lines[k].status != Modified
    && (forall j :: lo <= j < hi && lines[j].status != Modified ==> t[k] <= t[j])
    && (forall j :: lo <= j < k && lines[j].status != Modified ==> t[k] < t[j])
  }

  /** A reference definition of the first clean minimum of `[lo, hi)`, `None` when every line is Modified. */
  function FirstCleanMin(t: seq<nat>, lines: seq<CacheLine>, lo: nat, hi: nat): (r: Option<nat>)
    requires lo <= hi <= |t| && hi <= |lines|
    ensures r.Some? ==> IsFirstCleanMin(t, lines, lo, hi, r.value)
    ensures r.None? <==> forall j :: lo <= j < hi ==> lines[j].status == Modified
    decreases hi - lo
  {
    if lo == hi then None
    else
      var rest := FirstCleanMin(t, lines, lo + 1, hi);
      if lines[lo].status == Modified then rest
      else if rest.None? || t[lo] <= t[rest.value] then Some(lo)
      else rest
  }

  /** Only one index of a range is its first clean minimum. */
  lemma FirstCleanMinUnique(t: seq<nat>, lines: seq<CacheLine>, lo: nat, hi: nat, k1: nat, k2: nat)
    requires hi <= |t| && hi <= |lines|
    requires IsFirstCleanMin(t, lines, lo, hi, k1) && IsFirstCleanMin(t, lines, lo, hi, k2)
    ensures k1 == k2
  {
    assert t[k1] == t[k2];
  }

  /**
   * The offset the prefer-clean policy evicts from the set starting at `base`:
   * the first clean minimum when the set holds a line that is not Modified,
   * otherwise exactly the plain LRU victim.
   */
  function PreferCleanVictim(t: seq<nat>, lines: seq<CacheLine>, base: nat, assoc: nat): (offset: nat)
    requires 0 < assoc && base + assoc <= |t| && base + assoc <= |lines|
    ensures offset < assoc
    ensures (exists j :: base <= j < base + assoc && lines[j].status != Modified) ==>
              IsFirstCleanMin(t, lines, base, base + assoc, base + offset)
    ensures (forall j :: base <= j < base + assoc ==> lines[j].status == Modified) ==>
              offset == LruVictim(t, base, assoc)
  {
    match FirstCleanMin(t, lines, base, base + assoc)
    case Some(k) => k - base
    case None => LruVictim(t, base, assoc)
  }

  /**
   * When the least recently used line of the set is itself clean, preferring
   * clean lines changes nothing: both policies evict the same offset.
   */
  lemma {:induction false} AgreesWithLruWhenOldestIsClean(t: seq<nat>, lines: seq<CacheLine>, base: nat, assoc: nat)
    requires 0 < assoc && base + assoc <= |t| && base + assoc <= |lines|
    requires lines[base + LruVictim(t, base, assoc)].status != Modified
    ensures PreferCleanVictim(t, lines, base, assoc) == LruVictim(t, base, assoc)
  {
    var v := base + LruVictim(t, base, assoc);
    assert IsFirstCleanMin(t, lines, base, base + assoc, v);
    var c := base + PreferCleanVictim(t, lines, base, assoc);
    FirstCleanMinUnique(t, lines, base, base + assoc, v, c);
  }

  /** A prefer-clean access is a plain LRU access on the shared state. */
  method CacheAccess(data: LruData, sys: CacheSystem, setIdx: nat, tag: nat)
    requires data.Valid() && |sys.lines| == data.numLines && HasSet(sys, setIdx)
    modifies data`currentTime, data.accessTimes
    ensures data.Valid()
    ensures data.currentTime == old(data.currentTime) + 1
    ensures data.accessTimes[..] == Touched(old(data.accessTimes[..]), sys.lines, SetStart(sys, setIdx),
                                            SetStart(sys, setIdx) + sys.associativity, tag, data.currentTime)
  {
    data.CacheAccess(sys, setIdx, tag);
  }

  /**
   * The offset to evict from set `setIdx`: the least recently stamped line
   * that is not Modified, the lowest such offset among equal stamps; when
   * every line of the set is Modified, the plain LRU choice.
   */
  method EvictionIndex(data: LruData, sys: CacheSystem, setIdx: nat) returns (offset: nat)
    requires data.Valid() && |sys.lines| == data.numLines && HasSet(sys, setIdx)
    requires 0 < sys.associativity
    ensures offset < sys.associativity
    ensures (exists j :: SetStart(sys, setIdx) <= j < SetStart(sys, setIdx) + sys.associativity
                         && sys.lines[j].status != Modified) ==>
              sys.lines[SetStart(sys, setIdx) + offset].status != Modified
    ensures offset == PreferCleanVictim(data.accessTimes[..], sys.lines, SetStart(sys, setIdx), sys.associativity)
  {
    var lo := SetStart(sys, setIdx);
    var hi := lo + sys.associativity;
    var index: nat := lo;
    var minTime: nat := 0;
    var minTimeSet := false;
    for i := lo to hi
      invariant minTimeSet <==> exists j :: lo <= j < i && sys.lines[j].status != Modified
      invariant minTimeSet ==> IsFirstCleanMin(data.accessTimes[..], sys.lines, lo, i, index)
                               && minTime == data.accessTimes[index]
    {
      if sys.lines[i].status != Modified {
        if data.accessTimes[i] < minTime || !minTimeSet {
          minTimeSet := true;
          minTime := data.accessTimes[i];
          index := i;
        }
      }
    }
    if !minTimeSet {
      offset := data.EvictionIndex(sys, setIdx);
    } else {
      OffsetInSet(setIdx, sys.associativity, index - lo);
      offset := index % sys.associativity;
      var k := FirstCleanMin(data.accessTimes[..], sys.lines, lo, hi);
      FirstCleanMinUnique(data.accessTimes[..], sys.lines, lo, hi, index, k.value);
    }
  }
}
