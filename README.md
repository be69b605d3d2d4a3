# Cache replacement policies

A Dafny model of the replacement-policy subsystem of a set-associative cache
simulator (`src/replacement_policies.c`). A policy is told about every access
to a set and, when a full set must take a new line, names the offset within
the set of the line to evict. Three policies share that contract:

- **LRU** keeps a logical clock and one timestamp per physical line
  (`sets * associativity` slots). Every access advances the clock, then stamps
  the first line of the set whose tag matches. The victim is the first line of
  the set holding the least timestamp (strict `<`, so the lowest offset wins
  among equal stamps), reduced to an offset with `% associativity`.
- **Random** has no state; the victim is a pseudo-random draw modulo the
  associativity.
- **LRU-prefer-clean** shares LRU's state and access routine; the victim is
  the first least-stamped line that is not `Modified`, and when every line of
  the set is `Modified` it is the plain LRU victim.

Files:

- `cache.dfy` (module `CacheModel`): what the policies read from the cache:
  lines with a tag and a status, the associativity, and the mapping of a set
  index to its range of physical lines.
- `lru.dfy` (module `Lru`): the class `LruData` (the clock and the timestamp
  array, updated in place), its access and eviction methods with their loops,
  and the specification functions and lemmas they are proved against.
- `lru_prefer_clean.dfy` (module `LruPreferClean`): the prefer-clean access
  and eviction over the same `LruData`, with its specification.
- `rand.dfy` (module `RandPolicy`): the random victim as a function of the draw.
- `policy.dfy` (module `Policy`): the policy object, a tag selecting one of the
  three strategies in place of the source's table of function pointers, and
  the four-way worked example as lemmas.

The `cache_system` structure comes from a header that is not part of this
model; it is represented by `CacheSystem(associativity, lines)`, and the
status values by `Invalid | Shared | Modified` (only `Modified` is consulted).
The pseudo-random generator is an input: `draw` stands for the value `rand()`
returns.

Two consequences of the code worth stating:

- Ties go to the lowest offset, because src/replacement_policies.c:53 and
  src/replacement_policies.c:135 compare with strict `<`: a later line with
  an equal stamp does not replace the running minimum.
- The prefer-clean fallback is plain LRU over the whole set. With stamps
  5, 2, 3, 4 and every line `Modified`, it evicts B (stamp 2), the same line
  it evicts when only A is `Modified`; see `Policy.PreferCleanScenario`.

## Model

| member | source | states |
|---|---|---|
| `CacheModel.OffsetInSet` | src/replacement_policies.c:59 | a physical index `setIdx * associativity + d` with `d < associativity` reduced `% associativity` is the offset `d` (and divided by it, the set index), so the `%` in the source yields the intra-set offset |
| `Lru.FirstMatch` | src/replacement_policies.c:30-37 | the scan for the accessed tag: `Some(k)` exactly when some line of the range carries the tag, `k` being the lowest such index; `None` exactly when no line does |
| `Lru.Touched` | src/replacement_policies.c:30-38 | the timestamp table after an access, as a function of the old table: the same length, and (with `TouchedFrame`) only the first slot of the set whose line carries the tag restamped with the clock |
| `Lru.TouchedFrame` | src/replacement_policies.c:30-38 | an access writes at most one slot: the first slot of the set whose line carries the tag gets the new clock; every other slot, in this set and in all other sets, is unchanged; on a miss the table is unchanged |
| `Lru.LruData.constructor` | src/replacement_policies.c:75-77 | a new LRU state has clock 0, `numLines == sets * associativity`, and a table of that length holding only zeros |
| `Lru.LruData.CacheAccess` | src/replacement_policies.c:25-39 | the clock rises by exactly 1 whether or not the tag is in the set; the new table is the old one with only the first matching slot of the set restamped (`Touched`); the invariant "no stamp exceeds the clock" is kept |
| `Lru.LruData.EvictionIndex` | src/replacement_policies.c:41-60 | with `associativity > 0`: the offset is below the associativity, its stamp is at most every stamp of the set and strictly below every stamp at a lower offset, and it equals `LruVictim`; it has no `modifies` clause, so the clock and the table are left unchanged |
| `Lru.FirstMinUnique` | src/replacement_policies.c:53-57 | the strict-`<` first-minimum rule picks exactly one index of a range, so LRU's victim is fully determined by the stamps |
| `Lru.FirstMin` | src/replacement_policies.c:46-58 | an independent recursive definition of the first minimum of a non-empty range, proved to be that first minimum |
| `Lru.LruVictim` | src/replacement_policies.c:46-59 | the LRU victim offset of a set: below the associativity and the first minimum of the set's stamps |
| `Lru.ColdStartVictim` | src/replacement_policies.c:48-57 | when every stamp of the set is equal (at cold start all are 0), the LRU victim is offset 0 |
| `Lru.JustTouchedNotVictim` | src/replacement_policies.c:29-57 | with every stamp below the clock and at least two lines per set, the line an access has just stamped is not the next LRU victim |
| `Lru.EvictAfterHit` | src/replacement_policies.c:25-60 | an access that hits a line of a set of at least two lines, followed by an eviction in that set: the victim is never the line just accessed; it relies on the kept invariant that no stamp exceeds the clock |
| `LruPreferClean.FirstCleanMin` | src/replacement_policies.c:130-141 | the restricted scan: `None` exactly when every line of the range is `Modified`, otherwise the first least-stamped line that is not `Modified` |
| `LruPreferClean.FirstCleanMinUnique` | src/replacement_policies.c:134-139 | the restricted first-minimum rule picks exactly one index |
| `LruPreferClean.PreferCleanVictim` | src/replacement_policies.c:122-147 | the prefer-clean victim offset: below the associativity; when the set has a line that is not `Modified`, the first least-stamped such line; when every line is `Modified`, exactly the LRU victim |
| `LruPreferClean.AgreesWithLruWhenOldestIsClean` | src/replacement_policies.c:122-147 | when the LRU victim's line is not `Modified`, prefer-clean evicts the same offset as LRU |
| `LruPreferClean.CacheAccess` | src/replacement_policies.c:115-120 | a prefer-clean access has exactly the effect of an LRU access: clock plus 1 and the table restamped as `Touched` |
| `LruPreferClean.EvictionIndex` | src/replacement_policies.c:122-147 | with `associativity > 0`: the offset is below the associativity, names a line that is not `Modified` whenever the set holds one, and equals `PreferCleanVictim` (so with every line `Modified` it equals the LRU victim); it changes nothing |
| `RandPolicy.EvictionIndex` | src/replacement_policies.c:90-94 | for any draw and `associativity > 0`, the victim offset is below the associativity, and a draw already below it is returned as is |
| `RandPolicy.EveryOffsetEquallyOften` | src/replacement_policies.c:93 | over the draws `0 .. m * associativity - 1` every offset is chosen by exactly `m` draws; this holds only for whole periods (see `PartialPeriodFavoursLowOffsets`) |
| `RandPolicy.PartialPeriodFavoursLowOffsets` | src/replacement_policies.c:93 | over `m` whole periods plus `d < associativity` further draws, offsets below `d` are chosen `m + 1` times and the others `m` times, so when the associativity does not divide the generator's range the low offsets are favoured |
| `Policy.ReplacementPolicy.constructor` | src/replacement_policies.c:68-168 | a policy of the requested kind; LRU and prefer-clean own a fresh state with clock 0 and `sets * associativity` zero stamps, Random owns nothing |
| `Policy.ReplacementPolicy.CacheAccess` | src/replacement_policies.c:85-88 | for Random an access changes nothing (it owns no state); for the LRU family it is the LRU access |
| `Policy.ReplacementPolicy.EvictionIndex` | src/replacement_policies.c:90-94 | the victim is below the associativity and is the LRU victim, the prefer-clean victim or `draw % associativity` according to the kind |
| `Policy.LruScenarioStamps` | src/replacement_policies.c:25-39 | on a four-way set, accessing A, B, C, D from a cold table stamps them 1 to 4, and accessing A again stamps it 5 |
| `Policy.LruScenarioEvictsA` | src/replacement_policies.c:41-60 | with stamps 1, 2, 3, 4 LRU evicts offset 0 |
| `Policy.LruScenarioEvictsB` | src/replacement_policies.c:41-60 | with stamps 5, 2, 3, 4 LRU evicts offset 1 |
| `Policy.PreferCleanScenario` | src/replacement_policies.c:122-147 | with stamps 5, 2, 3, 4 prefer-clean evicts offset 1 both when only A is `Modified` and when every line is |

## Left out

- `Lru.LruData.CacheAccess`: the clock and the stamps are unbounded `nat`s; the source's `uint32_t current_time` wraps to 0 after 2^32 - 1 accesses, after which stamps no longer order accesses, and the model does not capture that wrap.
- `Lru.LruData.constructor`: `numLines` is the unbounded product `sets * associativity`; the source computes `num_lines = sets * associativity` in `uint32_t` (lines 76 and 163), which wraps when the product exceeds 2^32 - 1, and the model does not capture that wrap.
- The overflow of `(set_idx+1) * associativity` in `uint32_t` is not modelled: every operation requires the set to lie inside the cache (`HasSet`); the source does not check this, and the caller must guarantee it.
- `Lru.LruData.EvictionIndex`, `LruPreferClean.EvictionIndex`: require `associativity > 0`; with 0 the loop does not run and the source returns the never-assigned `index` reduced `% 0`, which is undefined behaviour in C.
- `RandPolicy.EvictionIndex`: requires `associativity > 0`; with 0 the source evaluates `rand() % 0` (line 93), which is undefined behaviour in C.
- The uninitialised `min_time` read on the first iteration of both eviction loops (lines 53 and 135): the model initialises the running minimum; the `!min_time_set` test makes the first iteration take the branch either way, so the result is the same. `index` is only written before it is read, and the model initialises it too.
- `rand()` and the seeding `srand(time(NULL))` in `rand_replacement_policy_new`: the draw is a parameter; the distribution of the generator and the wall-clock seeding are outside what can be proved.
- The cleanup functions (`lru_replacement_policy_cleanup`, `rand_replacement_policy_cleanup`, `lru_prefer_clean_replacement_policy_cleanup`) and `malloc`/`calloc`/`free`: Dafny allocation replaces them; an allocation failure, unchecked in the source, has no counterpart.
- The table of function pointers in `struct replacement_policy` is modelled by the `Kind` tag of `Policy.ReplacementPolicy`.
- `replacement_policies.h` and the `cache_system` structure are not part of this model: only the associativity, the line tags and the line statuses are represented.
