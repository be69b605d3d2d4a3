// Least-recently-used replacement: a logical clock and one timestamp per
// physical line. An access stamps the first line of the set carrying the tag;
// the victim is the first line of the set holding the least timestamp.

module Lru {
  import opened CacheModel

  // ---------------------------------------------------------------------------
  // Specification of an access
  // ---------------------------------------------------------------------------

  /** The first index in `[lo, hi)` whose line carries `tag`, or `None` when no line does. */
  function FirstMatch(lines: seq<CacheLine>, lo: nat, hi: nat, tag: nat): (r: Option<nat>)
    requires lo <= hi <= |lines|
    ensures r.Some? ==> lo <= r.value < hi && lines[r.value].tag == tag
    ensures r.Some? ==> forall j :: lo <= j < r.value ==> lines[j].tag != tag
    ensures r.None? <==> forall j :: lo <= j < hi ==> lines[j].tag != tag
    decreases hi - lo
  {
    if lo == hi then None
    else if lines[lo].tag == tag then Some(lo)
    else FirstMatch(lines, lo + 1, hi, tag)
  }

  /** The timestamp table after an access to `tag` in the lines `[lo, hi)` at clock `now`. */
  function Touched(times: seq<nat>, lines: seq<CacheLine>, lo: nat, hi: nat, tag: nat, now: nat): (r: seq<nat>)
    requires lo <= hi <= |lines| == |times|
    ensures |r| == |times|
  {
    match FirstMatch(lines, lo, hi, tag)
    case None => times
    case Some(k) => times[k := now]
  }

  /**
   * An access writes at most one slot: the first slot of the set whose line
   * carries the tag receives the clock; every other slot, in this set and in
   * every other set, keeps its timestamp; on a miss nothing changes.
   */
  lemma TouchedFrame(times: seq<nat>, lines: seq<CacheLine>, lo: nat, hi: nat, tag: nat, now: nat)
    requires lo <= hi <= |lines| == |times|
    ensures forall j :: 0 <= j < |times| && FirstMatch(lines, lo, hi, tag) != Some(j) ==>
              Touched(times, lines, lo, hi, tag, now)[j] == times[j]
    ensures forall j :: lo <= j < hi && lines[j].tag == tag && (forall i :: lo <= i < j ==> lines[i].tag != tag) ==>
              Touched(times, lines, lo, hi, tag, now)[j] == now
    ensures (forall j :: lo <= j < hi ==> lines[j].tag != tag) ==> Touched(times, lines, lo, hi, tag, now) == times
  {
    forall j | lo <= j < hi && lines[j].tag == tag && (forall i :: lo <= i < j ==> lines[i].tag != tag)
      ensures FirstMatch(lines, lo, hi, tag) == Some(j)
    {
      var r := FirstMatch(lines, lo, hi, tag);
      assert r.Some?;
      assert !(r.value < j) && !(j < r.value);
    }
  }

  // ---------------------------------------------------------------------------
  // Specification of the victim choice
  // ---------------------------------------------------------------------------

  /**
   * `k` is the LRU victim of `[lo, hi)`: its timestamp is at most every
   * timestamp in the range and strictly below every one at a lower index.
   */
  ghost predicate IsFirstMin(t: seq<nat>, lo: nat, hi: nat, k: nat)
    requires hi <= |t|
  {
    lo <= k < hi
    && (forall j :: lo <= j < hi ==> t[k] <= t[j])
    && (forall j :: lo <= j < k ==> t[k] < t[j])
  }

  /** Only one index of a range is its first minimum. */
  lemma FirstMinUnique(t: seq<nat>, lo: nat, hi: nat, k1: nat, k2: nat)
    requires hi <= |t|
    requires IsFirstMin(t, lo, hi, k1) && IsFirstMin(t, lo, hi, k2)
    ensures k1 == k2
  {
    assert t[k1] == t[k2];
  }

  /** A reference definition of the first minimum of the non-empty range `[lo, hi)`. */
  function FirstMin(t: seq<nat>, lo: nat, hi: nat): (k: nat)
    requires lo < hi <= |t|
    ensures IsFirstMin(t, lo, hi, k)
    decreases hi - lo
  {
    if lo + 1 == hi then lo
    else
      var k := FirstMin(t, lo + 1, hi);
      if t[lo] <= t[k] then lo else k
  }

  /** The offset in the set starting at `base` that plain LRU evicts. */
  function LruVictim(t: seq<nat>, base: nat, assoc: nat): (offset: nat)
    requires 0 < assoc && base + assoc <= |t|
    ensures offset < assoc
    ensures IsFirstMin(t, base, base + assoc, base + offset)
  {
    FirstMin(t, base, base + assoc) - base
  }

  /** At cold start, or whenever every timestamp of the set is equal, the victim is offset 0. */
  lemma ColdStartVictim(t: seq<nat>, base: nat, assoc: nat)
    requires 0 < assoc && base + assoc <= |t|
    requires forall j :: base <= j < base + assoc ==> t[j] == t[base]
    ensures LruVictim(t, base, assoc) == 0
  {
  }

  /**
   * The most recently used line is not evicted: once every timestamp is below
   * the clock `now`, an access that hits line `k` of a set with at least two
   * lines leaves `k` out of the next LRU choice.
   */
  lemma {:induction false} JustTouchedNotVictim(t: seq<nat>, lines: seq<CacheLine>, base: nat, assoc: nat, tag: nat, now: nat)
    requires 2 <= assoc && base + assoc <= |lines| == |t|
    requires forall j :: 0 <= j < |t| ==> t[j] < now
    requires FirstMatch(lines, base, base + assoc, tag).Some?
    ensures LruVictim(Touched(t, lines, base, base + assoc, tag, now), base, assoc)
            != FirstMatch(lines, base, base + assoc, tag).value - base
  {
    var k := FirstMatch(lines, base, base + assoc, tag).value;
    var t' := Touched(t, lines, base, base + assoc, tag, now);
    TouchedFrame(t, lines, base, base + assoc, tag, now);
    var other := if k == base then base + 1 else base;
    assert t'[other] == t[other] < now == t'[k];
    var v := LruVictim(t', base, assoc);
    assert t'[base + v] <= t'[other];
  }

  // ---------------------------------------------------------------------------
  // The policy state
  // ---------------------------------------------------------------------------

  /** The state shared by the LRU and LRU-prefer-clean policies. */
  class LruData {
    const numLines: nat
    var currentTime: nat
    const accessTimes: array<nat>

    /** The table covers every line, and no line is stamped later than the clock. */
    ghost predicate Valid()
      reads this, accessTimes
    {
      accessTimes.Length == numLines
      && forall j :: 0 <= j < accessTimes.Length ==> accessTimes[j] <= currentTime
    }

    /** A fresh policy: clock 0 and one zero timestamp per physical line. */
    constructor (sets: nat, associativity: nat)
      ensures Valid() && fresh(accessTimes)
      ensures numLines == sets * associativity
      ensures currentTime == 0
      ensures accessTimes[..] == seq(sets * associativity, _ => 0)
    {
      numLines := sets * associativity;
      currentTime := 0;
      accessTimes := new nat[sets * associativity](_ => 0);
    }

    /**
     * Records an access to `tag` in set `setIdx`: the clock advances whether
     * or not the tag is present, and the first line of the set carrying the
     * tag is stamped with the new clock.
     */
    method CacheAccess(sys: CacheSystem, setIdx: nat, tag: nat)
      requires Valid() && |sys.lines| == numLines && HasSet(sys, setIdx)
      modifies this`currentTime, accessTimes
      ensures Valid()
      ensures currentTime == old(currentTime) + 1
      ensures accessTimes[..] == Touched(old(accessTimes[..]), sys.lines, SetStart(sys, setIdx),
                                         SetStart(sys, setIdx) + sys.associativity, tag, currentTime)
    {
      var lo := SetStart(sys, setIdx);
      var hi := lo + sys.associativity;
      currentTime := currentTime + 1;
      for i := lo to hi
        invariant forall j :: lo <= j < i ==> sys.lines[j].tag != tag
        invariant accessTimes[..] == old(accessTimes[..])
      {
        if sys.lines[i].tag == tag {
          accessTimes[i] := currentTime;
          assert FirstMatch(sys.lines, lo, hi, tag) == Some(i);
          break;
        }
      }
    }

    /**
     * The offset of the least recently stamped line of set `setIdx`, the
     * lowest such offset among equal stamps.
     */
    method EvictionIndex(sys: CacheSystem, setIdx: nat) returns (offset: nat)
      requires Valid() && |sys.lines| == numLines && HasSet(sys, setIdx)
      requires 0 < sys.associativity
      ensures offset < sys.associativity
      ensures IsFirstMin(accessTimes[..], SetStart(sys, setIdx), SetStart(sys, setIdx) + sys.associativity,
                         SetStart(sys, setIdx) + offset)
      ensures offset == LruVictim(accessTimes[..], SetStart(sys, setIdx), sys.associativity)
    {
      var lo := SetStart(sys, setIdx);
      var hi := lo + sys.associativity;
      var index: nat := lo;
      var minTime: nat := 0;
      var minTimeSet := false;
      for i := lo to hi
        invariant minTimeSet <==> lo < i
        invariant minTimeSet ==> IsFirstMin(accessTimes[..], lo, i, index) && minTime == accessTimes[index]
      {
        if accessTimes[i] < minTime || !minTimeSet {
          minTimeSet := true;
          minTime := accessTimes[i];
          index := i;
        }
      }
      OffsetInSet(setIdx, sys.associativity, index - lo);
      offset := index % sys.associativity;
      FirstMinUnique(accessTimes[..], lo, hi, index, FirstMin(accessTimes[..], lo, hi));
    }
  }

  /**
   * An access that hits a line, followed by an eviction in the same set: in
   * a set of at least two lines, the line just accessed is not the victim.
   * The invariant that no stamp exceeds the clock is what makes the new stamp
   * the unique latest one.
   */
  method EvictAfterHit(data: LruData, sys: CacheSystem, setIdx: nat, tag: nat) returns (offset: nat)
    requires data.Valid() && |sys.lines| == data.numLines && HasSet(sys, setIdx)
    requires 2 <= sys.associativity
    requires FirstMatch(sys.lines, SetStart(sys, setIdx), SetStart(sys, setIdx) + sys.associativity, tag).Some?
    modifies data`currentTime, data.accessTimes
    ensures data.Valid()
    ensures offset < sys.associativity
    ensures SetStart(sys, setIdx) + offset
            != FirstMatch(sys.lines, SetStart(sys, setIdx), SetStart(sys, setIdx) + sys.associativity, tag).value
  {
    ghost var before := data.accessTimes[..];
    data.CacheAccess(sys, setIdx, tag);
    offset := data.EvictionIndex(sys, setIdx);
    JustTouchedNotVictim(before, sys.lines, SetStart(sys, setIdx), sys.associativity, tag, data.currentTime);
  }
}
