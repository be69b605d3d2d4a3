// The policy a cache is built with: one of the three strategies, selected by
// a tag, behind one contract (record an access, choose a victim offset).

module Policy {
  import opened CacheModel
  import opened Lru
  import LruPreferClean
  import RandPolicy

  datatype Kind = LeastRecentlyUsed | Random | PreferClean

  class ReplacementPolicy {
    const kind: Kind
    /** The recency state of the LRU family; Random owns none. */
    const data: LruData?
    ghost const Repr: set<object>

    ghost predicate Valid()
      reads this, Repr
    {
      (kind == Random <==> data == null)
      && (data == null ==> Repr == {})
      && (data != null ==> Repr == {data, data.accessTimes} && data.Valid())
    }

    /** A new policy of the given kind for a cache of `sets` sets of `associativity` lines. */
    constructor (kind: Kind, sets: nat, associativity: nat)
      ensures Valid() && fresh(Repr)
      ensures this.kind == kind
      ensures kind != Random ==>
                data != null && data.numLines == sets * associativity && data.currentTime == 0
                && data.accessTimes[..] == seq(sets * associativity, _ => 0)
    {
      this.kind := kind;
      if kind == Random {
        data := null;
        Repr := {};
      } else {
        var d := new LruData(sets, associativity);
        data := d;
        Repr := {d, d.accessTimes};
      }
    }

    /**
     * Notifies the policy of an access to `tag` in set `setIdx`. The LRU
     * family advances its clock and stamps the first matching line; Random
     * has no state to change.
     */
    method CacheAccess(sys: CacheSystem, setIdx: nat, tag: nat)
      requires Valid() && HasSet(sys, setIdx)
      requires data != null ==> |sys.lines| == data.numLines
      modifies Repr
      ensures Valid()
      ensures data != null ==>
                data.currentTime == old(data.currentTime) + 1
                && data.accessTimes[..] == Touched(old(data.accessTimes[..]), sys.lines, SetStart(sys, setIdx),
                                                   SetStart(sys, setIdx) + sys.associativity, tag, data.currentTime)
    {
      match kind
      case LeastRecentlyUsed => data.CacheAccess(sys, setIdx, tag);
      case PreferClean => LruPreferClean.CacheAccess(data, sys, setIdx, tag);
      case Random =>
    }

    /**
     * The offset to evict from the full set `setIdx`; `draw` stands for the
     * value of the pseudo-random generator, which only Random consults.
     */
    method EvictionIndex(sys: CacheSystem, setIdx: nat, draw: nat) returns (offset: nat)
      requires Valid() && HasSet(sys, setIdx) && 0 < sys.associativity
      requires data != null ==> |sys.lines| == data.numLines
      ensures offset < sys.associativity
      ensures kind == LeastRecentlyUsed ==>
                offset == LruVictim(data.accessTimes[..], SetStart(sys, setIdx), sys.associativity)
      ensures kind == PreferClean ==>
                offset == LruPreferClean.PreferCleanVictim(data.accessTimes[..], sys.lines,
                                                           SetStart(sys, setIdx), sys.associativity)
      ensures kind == Random ==> offset == RandPolicy.EvictionIndex(draw, sys.associativity)
    {
      match kind
      case LeastRecentlyUsed => offset := data.EvictionIndex(sys, setIdx);
      case PreferClean => offset := LruPreferClean.EvictionIndex(data, sys, setIdx);
      case Random => offset := RandPolicy.EvictionIndex(draw, sys.associativity);
    }
  }

  /**
   * A worked example on one four-way set holding tags A, B, C, D (10 to 13):
   * from a cold table, accessing them in order stamps them 1 to 4, and
   * accessing A again restamps it 5.
   */
  lemma LruScenarioStamps()
    ensures var lines := [CacheLine(10, Shared), CacheLine(11, Shared), CacheLine(12, Shared), CacheLine(13, Shared)];
            var t4 := Touched(Touched(Touched(Touched([0, 0, 0, 0], lines, 0, 4, 10, 1), lines, 0, 4, 11, 2),
                                      lines, 0, 4, 12, 3), lines, 0, 4, 13, 4);
            t4 == [1, 2, 3, 4] && Touched(t4, lines, 0, 4, 10, 5) == [5, 2, 3, 4]
  {
    var lines := [CacheLine(10, Shared), CacheLine(11, Shared), CacheLine(12, Shared), CacheLine(13, Shared)];
    assert FirstMatch(lines, 0, 4, 10) == Some(0);
    assert FirstMatch(lines, 0, 4, 11) == Some(1);
    assert FirstMatch(lines, 0, 4, 12) == Some(2);
    assert FirstMatch(lines, 0, 4, 13) == Some(3);
  }

  /** In that example LRU evicts A (offset 0) while the stamps are 1 to 4. */
  lemma LruScenarioEvictsA()
    ensures LruVictim([1, 2, 3, 4], 0, 4) == 0
  {
  }

  /** Once A is restamped 5, LRU evicts B (offset 1). */
  lemma LruScenarioEvictsB()
    ensures LruVictim([5, 2, 3, 4], 0, 4) == 1
  {
  }

  /**
   * The same set under prefer-clean with stamps 5, 2, 3, 4: with only A
   * dirty, B (the oldest clean line) is evicted; with every line dirty the
   * LRU fallback evicts B as well, since B now holds the oldest stamp.
   */
  lemma PreferCleanScenario()
    ensures var aDirty := [CacheLine(10, Modified), CacheLine(11, Shared), CacheLine(12, Shared), CacheLine(13, Shared)];
            LruPreferClean.PreferCleanVictim([5, 2, 3, 4], aDirty, 0, 4) == 1
    ensures var allDirty := [CacheLine(10, Modified), CacheLine(11, Modified), CacheLine(12, Modified), CacheLine(13, Modified)];
            LruPreferClean.PreferCleanVictim([5, 2, 3, 4], allDirty, 0, 4) == 1
  {
    var aDirty := [CacheLine(10, Modified), CacheLine(11, Shared), CacheLine(12, Shared), CacheLine(13, Shared)];
    var allDirty := [CacheLine(10, Modified), CacheLine(11, Modified), CacheLine(12, Modified), CacheLine(13, Modified)];
    assert LruPreferClean.IsFirstCleanMin([5, 2, 3, 4], aDirty, 0, 4, 1);
    assert aDirty[1].status != Modified;
    LruPreferClean.FirstCleanMinUnique([5, 2, 3, 4], aDirty, 0, 4, 1,
                                       LruPreferClean.PreferCleanVictim([5, 2, 3, 4], aDirty, 0, 4));
    assert IsFirstMin([5, 2, 3, 4], 0, 4, 1);
    FirstMinUnique([5, 2, 3, 4], 0, 4, 1, LruVictim([5, 2, 3, 4], 0, 4));
  }
}
