# CapsuleDB: a verified model of the storage engine

CapsuleDB is a key-value store built as a log-structured merge tree over an append-only block
store. This project models its engine in Dafny and proves that, seen through `put` and `get`, the
whole machine behaves like one map from keys to payloads, under exactly the conditions in which it
does. It also covers the Bloom filter and the text format of payload lists that come with the engine.

How the engine works, and how the model is laid out:

- A payload has a key, a value, a timestamp and a message type. Puts go to the memtable, which keeps
  one payload per key and refuses one that is not later than the one it holds.
- A put of a new key into a full memtable first writes all its pairs, in key order, as one block of
  level 0. A second block on level 0 starts a compaction: the blocks of L0 are merged into one list,
  which is pushed into L1. A level that would reach its limit (`2 * blocksize * 10^i` pairs on level
  i) first pushes at least as many blocks as it receives one level further down.
- Data sits in immutable blocks. Levels hold headers: a block's name and its first and last key.
  `get` looks in the memtable and then reads at most one block per level, the first whose range
  covers the key.

| file | what it holds |
|---|---|
| Keys.dfy, Payloads.dfy, Runs.dfy | key order; linear search and the sorted merge; blocks, runs of blocks, the one-block lookup |
| Eviction.dfy | which blocks leave an overflowing level |
| Compaction.dfy | compaction as a function on the data of the levels, and all its intermediate states |
| Database.dfy | flush, put and get as functions on memtable and levels |
| History.dfy | theorems over every run of puts |
| Recency.dfy | the strict order of a key's versions: memtable over L0 over L1 and so on |
| Stability.dfy, Consolidation.dfy | what becomes of a key's versions while only other keys are put |
| Capsule.dfy, Levels.dfy, Index.dfy, Memtables.dfy, Engine.dfy | the classes of the engine, each method proved against those functions |
| Bloom.dfy | the plain and the compressible Bloom filter |
| Decimal.dfy, Wire.dfy | number printing and parsing; the payload-list format |

The classes carry three ghost fields. `CapsuleIndex.tree` is the data the levels hold, tied to the
headers and the stored blocks by the index invariant. `CapsuleIndex.trace` records the memtable and
that data together, after every update of either; that its last entry is the present state is part of
the invariant, so nothing can change the memtable behind the index's back. `CapsuleDB.puts` is the run
of puts so far, and the invariant of `CapsuleDB` says that memtable and levels are exactly what that
run produces, so that every theorem of History.dfy and Recency.dfy holds of every reachable database
object; those of Stability.dfy and Consolidation.dfy hold of every state that satisfies the invariant
of the levels.

## Main results

- **Newest put wins, exactly when.** Over any run, `get(k)` always returns the put of `k` with the
  latest timestamp if and only if every put of `k` was *disciplined*: when it was made, `k` was still
  in the memtable, or its timestamp exceeded the one `get(k)` showed (or it repeated that payload).
  With increasing timestamps per key this always holds and the store is a plain map.
- **One later put mends everything.** After a put of `k` later than all stored versions, or what is the
  same, than all earlier puts of `k`, the equivalence holds again from there on, however undisciplined
  those were.
- **Eventually the newest put wins, always.** Whatever was put in whatever order, the version with the
  latest timestamp is conserved by every flush and merge, and any run can be continued with puts of
  other keys so that `get` returns it, for good.
- **A settled answer stays, an overtaken one goes.** A put of another key leaves the answer for `k`
  alone if it is later than all other stored versions of `k`, in whatever order those lie. Conversely,
  the answer is later than all others if and only if it ties with none of them and no run of puts of
  other keys changes it. Without ties in a run, that is so exactly when `get` returns the newest put.
- **Recency order, exactly when.** After every prefix of a run the memtable's version of `k` is later
  than those on all levels, and each level's later than those further down, if and only if every put
  of `k` found `k` in the memtable or was later than what `get(k)` showed. With increasing timestamps
  it always holds.
- **The rule fails otherwise.** The memtable forgets timestamps when it is flushed. Three puts with
  block size 1 make `get` return a stale value, and two puts of other keys bring the newer one back.
- **Keys are never lost or invented**, whatever the timestamps.
- **No gap.** Every recorded state of memtable and levels that a flush and its cascade of compactions
  pass through answers as the state before it, for every key whose answer is settled, as it is with
  disciplined puts.
- **Eviction takes the lowest blocks.** For all its cursors, what an overflowing level pushes down is
  a prefix of it, no shorter than what it receives; how long a prefix the cursors take is stated exactly.
- **Capacity, termination, depth.** Every level stays below its limit, the eviction offset stays in
  range, one compaction adds at most one level, and the depth is logarithmic in the number of puts.
- **Compressible Bloom filter.** Under any interleaving of inserts and legal compressions the table
  is bit for bit the one built by inserting the same keys under the final list of sizes. A compression
  that is granted is legal, its fold staying within the new table, if and only if it removes at most
  half of the table, an odd byte not counted; above fifty percent it never is. A plain filter says yes
  to exactly the keys each of whose indexes is one of an inserted key.
- **Wire round trip.** A payload list is read back as written if and only if every timestamp fits an
  int and no text field contains `@@@` or ends in `@`. If only the timestamps fail, the parser throws.
  What any other text is read as is stated too, down to the parsing of single numbers.

## Where the code and its comments differ

- `compactHelper` is described as pushing down the blocks modified by the merge (src/core/index.cc:147-148).
  What the loop, the top-up and the re-sort evict together is always the lowest blocks of the level,
  whether or not the source overlaps them (`EvictIsPrefix`), and the re-sort changes nothing.
- `Memtable::put` says an earlier timestamp is skipped (src/core/memtable.cc:53). That holds only
  while the key is in the memtable; see `StalePutShadows`.
- The tie rule of `merge` keeps the second list. That is the newer block when L0 is merged and the
  older level when a source is merged into a level, so versions of a key should differ in timestamp.
  `Settled` is `Topmost` but for the one tie that does no harm, memtable against L0.
- `compress` tests that the new table is smaller and not empty, but not that the fold fits into it. The
  fold of every request it grants above fifty percent needs more room (`FoldFitsExactly`).
- A block takes an empty key like any other (src/core/capsuleBlock.cc:54-65), but then reads its empty
  lower bound as "not yet set". A flushed block is given its true range after it is filled
  (src/core/memtable.cc:117-118); the empty key is lost when a merge rewrites the block.
- `deserialize_payload_l` parses timestamps as ints, though `get_current_time` in the same file counts
  milliseconds since 1970, which do not fit one (`ClockStampsThrow`).
- `getBlock` mentions a filter per block (src/core/level.cc:92-93); there is none.

## Model

| member | source | states |
|---|---|---|
| Keys.LessIsLexicographic | src/core/index.cc:389-402 | a key is smaller exactly if, after a common start, it ends where the other goes on or has the smaller character where they first differ |
| Keys.AtMostIsLessOrEqual | src/core/level.cc:98-121 | `<=` on keys is smaller or equal |
| Keys.Transitive | src/core/index.cc:389-402 | key comparison, as `std::string` compares, is transitive |
| Keys.Trichotomy | src/core/index.cc:286-303 | of two keys one is smaller or they are equal, so the three-way branch of the merge is exhaustive |
| Payloads.SortPairsSorts | src/core/index.cc:377-377 | sorting any pairs keeps them all and puts their keys in ascending order |
| Payloads.SortPairsSorted | src/core/index.cc:377-377 | sorting the pairs of a block that is in key order leaves it as it is |
| Payloads.MergeFlatSorted | src/core/index.cc:267-332 | the pairs a merge emits have strictly increasing keys |
| Payloads.MergeFlatFind | src/core/index.cc:281-303 | a lookup in the merged list finds the version with the later timestamp of the two inputs, the second input's on ties, and exactly the keys of both |
| Payloads.MergeFlatPicks | src/core/index.cc:293-303 | of two pairs with one key a merge keeps the later, and with equal timestamps the one from the second list |
| Runs.ChunkFlatten | src/core/index.cc:337-357 | cutting the emitted pairs into blocks loses and reorders none |
| Runs.ChunkShape | src/core/index.cc:337-357 | every block but the last holds exactly blocksize pairs, the last is not empty, and there are n / blocksize blocks rounded up |
| Runs.MergeRunsOk | src/core/index.cc:239-360 | merging two ordered lists of disjoint blocks gives such a list, of no more blocks than the two have together, not empty if the first is not |
| Runs.MergeRunsFind | src/core/index.cc:239-360 | per key, the merged list of blocks holds the later version from either list |
| Runs.LevelGetIsFullScan | src/core/level.cc:98-121 | reading only the first block whose range covers the key, with the early break, finds what a linear search of every pair of the level finds |
| Eviction.SelectTakesBelow | src/core/index.cc:175-188 | the two-cursor loop only takes destination blocks that end below the end of a source block |
| Eviction.SelectTakesAllBelow | src/core/index.cc:175-193 | and it leaves none that lies wholly below the source |
| Eviction.SelectIsPrefix | src/core/index.cc:175-193 | on an ordered level it always takes the lowest blocks: once one is left in place, so are all above it |
| Eviction.SelectExactly | src/core/index.cc:169-193 | how many: those that end before the end of the first j source blocks, where source block j is the first in front of which no block of the level ends in the gap after the block before it |
| Eviction.SortBlocksSorts | src/core/index.cc:201-201 | sorting any blocks puts their first keys in ascending order |
| Eviction.SortIdentity | src/core/index.cc:201-201 | sorting a run that is in order leaves it as it is |
| Eviction.EvictIsPrefix | src/core/index.cc:169-202 | selection, top-up and re-sort together evict exactly the lowest blocks of the level, as many as the loop takes or as the source has, whichever is more |
| Eviction.EvictIsPartition | src/core/index.cc:169-202 | each destination block ends on exactly one side; both sides are ordered runs; no key is on both, and each is found on its side as before |
| Compaction.OverflowEvicts | src/core/index.cc:163-202 | a level that overflows has at least as many blocks as the source, so the `std::next` offset is in range; what it evicts is small enough for the next level, and a fresh next level cannot overflow |
| Compaction.FreshLevelFits | src/core/index.cc:163-167 | a source pushed into a level just added fits, which ends the recursion |
| Compaction.PushOk | src/core/index.cc:154-233 | after `compactHelper` every level is an ordered run of disjoint blocks below its limit, and at most one level was added |
| Compaction.CompactOk | src/core/index.cc:90-143 | the same for a whole `compact`, started with up to two unordered blocks on L0 |
| Compaction.PushBlocks | src/core/index.cc:154-233 | compaction never increases the number of blocks, and adds a level only when source and levels together reach the last level's limit |
| Compaction.NoOverflowKey | src/core/index.cc:204-230 | a level that stays below its limit gets the merge and nothing else changes |
| Compaction.OverflowKey | src/core/index.cc:163-230 | one that would reach it sends the evicted blocks one level down and merges the source with what remains |
| Compaction.PushKeys | src/core/index.cc:204-230 | whatever the timestamps, the keys found afterwards are exactly those of the source and the levels |
| Compaction.PushVersions | src/core/index.cc:204-230 | whatever the timestamps, every stored version of a key was in the source or the levels before |
| Compaction.PushFind | src/core/index.cc:204-230 | if what a lookup finds in source and levels is later than, or the same as, every stored version of the key, the push overlays the source on the levels; the hidden versions may be in any order |
| Compaction.PushNoGap | src/core/index.cc:204-230 | under the same condition every intermediate state of the push, read below the still visible source, answers as the state before |
| Compaction.CompactFind | src/core/index.cc:111-140 | a compaction of a full L0 changes no answer that is later than all versions below |
| Compaction.CompactNoGap | src/core/index.cc:108-140 | every state of a compaction answers alike for a key that the newer L0 block does not hold |
| Compaction.TreeGetIsFind | src/core/engine.cc:76-108 | the level-by-level lookup finds what a scan of every pair of every level, top first, finds |
| Database.SortedPairsFind | src/core/memtable.cc:103-115 | the block written at a flush holds exactly the memtable's pairs |
| Database.SortedPairsSorted | src/core/memtable.cc:109-115 | that block is in strict key order |
| Database.TopmostIsSettled | src/core/index.cc:293-303 | a settled answer is one later than all other stored versions, but for a tie of the memtable with L0 |
| Database.FlushKeeps | src/core/memtable.cc:89-132 | a flush keeps a settled answer and keeps it settled |
| Database.FlushNoGap | src/core/memtable.cc:123-130 | every state inside a flush (block appended, each compaction step, memtable cleared) gives `get` the same answer for a key whose answer is settled |
| Database.FlushKeys | src/core/memtable.cc:89-132 | whatever the timestamps, a flush loses and invents no key and no version |
| Database.GetIsVisible | src/core/engine.cc:60-116 | between operations `get` finds exactly what a full scan finds |
| Database.PutFrame | src/core/memtable.cc:42-85 | a put leaves a settled answer for every other key alone, and settled |
| Database.PutIsNewestWins | src/core/memtable.cc:42-85 | over a settled answer a put acts on its key as a latest-timestamp register if and only if it is disciplined, and then leaves the answer settled |
| Database.PutSettles | src/core/memtable.cc:42-85 | whatever was put before, a put later than every stored version of its key is the answer and settles it |
| Database.PutKeys | src/core/memtable.cc:42-85 | whatever the timestamps, a put adds exactly its own key and no version but its own payload |
| Database.PutFlushesWhenFull | src/core/memtable.cc:42-95 | a put flushes exactly if its key is new and the memtable full; the pairs the memtable then holds |
| History.KeysConserved | src/core/engine.cc:42-116 | after any run, a key is found if and only if it was put, and every answer and stored version was put under that key |
| History.NewestPutIsNewest | src/core/memtable.cc:52-72 | the reference: the put of the key with the largest timestamp, the first of them on ties |
| History.NewestIffDisciplined | src/core/engine.cc:42-116 | over any run, `get` returns the newest put of a key after every prefix if and only if every put of it was disciplined |
| History.NewestFromIff | src/core/engine.cc:42-116 | the same from any point of a run where the answer is settled and newest |
| History.NewestRestored | src/core/engine.cc:42-116 | a put later than all earlier puts of its key is what `get` returns, and from then on the newest put wins if and only if the later puts are disciplined |
| History.StoreIsMap | src/core/engine.cc:42-116 | with increasing timestamps per key, `get` returns what a plain map would hold, and nothing for a key never put |
| History.RunNoGap | src/core/memtable.cc:123-130 | no state inside any flush of any run answers differently for a key with disciplined puts |
| History.PutNoGap | src/core/memtable.cc:42-132 | no state a put leads through, levels under the full memtable, emptied memtable and stored pair, changes a settled answer, but for the new answer of the key put |
| History.DepthBound | src/core/index.cc:69-81 | F flushes leave at most F blocks; n >= 2 levels need F >= 2 * 10^(n-2); the last level's limit is at most ten times the number of puts |
| History.StalePutShadows | src/core/memtable.cc:74-84 | a concrete run in which a stale put is accepted after a flush and hides the newer value |
| History.StaleAnswerFlips | src/core/index.cc:293-303 | the continuation of that run in which a put of another key changes the answer back |
| Recency.PushFresh | src/core/index.cc:204-230 | a push keeps each level's version of a key strictly later than those below, whichever blocks it moves |
| Recency.FlushFresh | src/core/memtable.cc:89-132 | so does a flush, memtable included |
| Recency.PutFresh | src/core/memtable.cc:42-85 | a put keeps that order for every other key, and for its own if and only if it is later than the answer or its key is in the memtable |
| Recency.FreshIsOrder | src/core/engine.cc:60-116 | the order by what a lookup finds below is the order of memtable over every level and of L_i over L_j for all i < j |
| Recency.OrderedIffStrict | src/core/engine.cc:42-116 | over any run, that order holds after every prefix if and only if every put of the key was strictly disciplined |
| Recency.IncreasingIsOrdered | src/core/engine.cc:42-116 | with increasing timestamps per key it holds in every reachable store |
| Stability.PushLatest | src/core/index.cc:204-230 | whatever the timestamps, a push conserves the latest version of a key among source and levels, and never spreads a key over more levels |
| Stability.FlushSurvivor | src/core/memtable.cc:89-132 | a flush conserves the version of a key that merges leave in the end |
| Stability.SurvivorConserved | src/core/memtable.cc:42-85 | no run of puts of other keys changes that version, nor an answer that is settled |
| Stability.SurvivorIsLatest | src/core/index.cc:293-303 | that version is stored, and no stored version is later |
| Stability.SettledIsSurvivor | src/core/engine.cc:60-116 | a settled answer is that version |
| Stability.SurvivorIsNewest | src/core/engine.cc:42-116 | over any run, whatever the order of timestamps, the latest timestamp put under a key is that of its surviving version |
| Stability.SurvivorWasNewest | src/core/engine.cc:42-116 | without ties that version is the newest put |
| Stability.LaterThanStored | src/core/memtable.cc:42-85 | a timestamp is later than all stored versions of a key if and only if it is later than all puts of it |
| Consolidation.EvictKeys | src/core/index.cc:169-202 | eviction shares out the keys of a level, and what it takes lies below every key it leaves |
| Consolidation.PushGuard | src/core/index.cc:154-233 | keys put above k do not pass the first level that holds k |
| Consolidation.FlushSameDepth | src/core/index.cc:119-131 | while k is stored twice, a store deep enough for the keys it started with gets no deeper |
| Consolidation.OneCopyFewer | src/core/index.cc:154-233 | while a key is stored more than once, some run of puts of other keys brings two of its versions together |
| Consolidation.AnswerSettles | src/core/engine.cc:42-116 | from any state some run of puts of other keys makes `get` return the latest stored version of k, and no further run changes it |
| Consolidation.EventuallyNewest | src/core/engine.cc:42-116 | any run of puts, in any order of timestamps, can be continued with other keys so that `get` returns a latest put of k, the newest if there are no ties, and no further puts of other keys change that |
| Consolidation.TopmostIffStable | src/core/engine.cc:42-116 | an answer is later than all other stored versions of its key if and only if it ties with none and no run of puts of other keys changes it |
| Consolidation.NewestIffStable | src/core/engine.cc:42-116 | in a run without ties, `get` returns the newest put of k if and only if no run of puts of other keys changes its answer, and if and only if that answer is later than all other stored versions |
| Capsule.WidenAllIs | src/core/capsuleBlock.cc:54-65 | the range recorded for any pairs in any order: the largest key, and the smallest one since the last empty key |
| Capsule.ReAddExact | src/core/fakeCapsule.cc:124-136 | for any block, exactly when re-adding its pairs leaves its recorded range as it was |
| Capsule.ReAddNonempty | src/core/fakeCapsule.cc:124-136 | for a block without empty keys: if and only if the range is set and covers every key |
| Capsule.WidenAllSorted | src/core/capsuleBlock.cc:54-65 | the range recorded while a block is filled in key order is its first and last key |
| Capsule.FilledCovers | src/core/capsuleBlock.cc:54-65 | filled in any order, a block records a range that covers all its keys if and only if none is empty or the last one is |
| Capsule.SortedCovers | src/core/capsuleBlock.cc:54-65 | filled in key order, if and only if its first key is not empty or is its only one |
| Capsule.CapsuleBlock.AddKVPair | src/core/capsuleBlock.cc:54-65 | appends the pair and widens the recorded range by its key |
| Capsule.CapsuleStore.PutCapsuleBlock | src/core/fakeCapsule.cc:43-85 | stores the block under a name never used before, so no earlier name changes its block |
| Capsule.CapsuleStore.GetCapsuleBlock | src/core/fakeCapsule.cc:93-140 | rebuilds the stored pairs and level, with the stored range widened by every key; fails exactly if there is no such file |
| Capsule.CapsuleStore.ReadIn | src/core/capsuleBlock.cc:102-106 | a written block comes back equal if and only if re-adding its pairs leaves its range alone; without empty keys, if and only if the range covers them |
| Levels.Level.AddBlock | src/core/level.cc:52-88 | appends to L0 or to an empty level and keeps the level's span exact; refuses otherwise without change |
| Levels.Level.GetBlock | src/core/level.cc:98-121 | names the first block whose range covers the key; the level's own range test never hides one |
| Levels.Level.Replace | src/core/index.cc:206-216 | the four assignments leave a level that holds exactly the given ordered blocks, with block count and span to match |
| Index.CapsuleIndex.constructor | src/core/index.cc:15-21 | a new index is one empty level; its first recorded state is that under its memtable |
| Index.CapsuleIndex.AddLevel | src/core/index.cc:69-81 | appends an empty level ten times as large as the last |
| Index.CapsuleIndex.NextPair | src/core/index.cc:269-304 | what the merge emits is the pair a round picks followed by the merge of what the cursors, moved as it says, still have |
| Index.CapsuleIndex.Merge | src/core/index.cc:239-360 | the four-cursor loop ends, never reads past a block, and writes blocks labelled with the target level, with true headers, holding the merge of the two lists |
| Index.CapsuleIndex.SelectVictims | src/core/index.cc:169-193 | the two-cursor loop ends and splits the destination headers as the selection function does |
| Index.CapsuleIndex.ChooseEvicted | src/core/index.cc:169-202 | selection, top-up and re-sort of the headers give the split of the eviction function |
| Index.CapsuleIndex.CompactHelper | src/core/index.cc:154-233 | terminates; the levels become those of the push function, through exactly its intermediate states under the memtable, leaving the levels above alone |
| Index.CapsuleIndex.SortL0 | src/core/index.cc:368-381 | writes every L0 block again under a new name without changing the data of the index |
| Index.CapsuleIndex.Compact | src/core/index.cc:90-143 | restores the invariant of the index, with the data and the intermediate states of the compaction function |
| Index.CapsuleIndex.GetBlock | src/core/index.cc:38-52 | the block of the level that may hold the key, none if no range covers it, an error name for a bad level |
| Index.CapsuleIndex.AddHash | src/core/index.cc:54-61 | adds a written block to a level and compacts; the status, the new data and every state on the way, in every case, including a bad level and a lower level that refuses; the memtable must be as last recorded |
| Memtables.Memtable.Get | src/core/memtable.cc:16-37 | the pair stored under the key, or a payload with the empty key |
| Memtables.Memtable.Put | src/core/memtable.cc:42-85 | memtable and index become those of the put function; returns whether the payload was stored; memtable and levels pass, together, through exactly the states of the put; nothing written earlier changes |
| Memtables.Memtable.WriteOutIfFull | src/core/memtable.cc:89-132 | empties a full memtable into L0 and leaves one with room untouched; the memtable keeps its pairs until the levels are done, and is emptied last; adds to the store only |
| Memtables.Memtable.FillBlock | src/core/memtable.cc:103-118 | the block holds the memtable's pairs in key order under their smallest and largest key |
| Engine.CapsuleDB.constructor | src/core/engine.cc:17-23 | a new database is the empty run |
| Engine.CapsuleDB.StoreGrew | src/core/fakeCapsule.cc:43-85 | a database stays valid when others write to the store they share |
| Engine.CapsuleDB.Put | src/core/engine.cc:42-51 | extends the run by the payload and only adds to the store; every recorded state of memtable and levels on the way leaves settled answers as before, but for the last state and the key put; with disciplined puts the answer before was settled and newest |
| Engine.CapsuleDB.Get | src/core/engine.cc:60-116 | returns a payload put under the key if and only if there is one, and the newest if its puts were disciplined |
| Engine.CapsuleDB.Structure | src/core/level.cc:52-88 | in every reachable database: at most one L0 block; position, count, limit, span, labels and headers of every level are right; headers are in strict order without overlap |
| Engine.CapsuleDB.SizesFit | src/core/index.cc:126-126 | every size limit below L0 is at most ten times the number of puts, so it fits a 32-bit int for 214748364 puts |
| Bloom.MaskIsShift | src/bloom/bloom_filter.hpp:34-43 | bit b of a cell counts from the least significant one |
| Bloom.BitsDetermineTable | src/bloom/bloom_filter.hpp:269-269 | two tables of one length with the same bits are equal byte for byte |
| Bloom.SetBit | src/bloom/bloom_filter.hpp:269-269 | or-ing a mask into a cell sets that bit and changes no other |
| Bloom.CombineBits | src/bloom/bloom_filter.hpp:404-425 | cell-wise or and and are union and intersection of the bits |
| Bloom.ChainIs | src/bloom/bloom_filter.hpp:707-717 | with one size the index is the hash modulo that size, and one more size reduces it once more |
| Bloom.BuiltReduced | src/bloom/bloom_filter.hpp:707-717 | one more modulus in the chain reduces every bit position of every key once more |
| Bloom.FoldBits | src/bloom/bloom_filter.hpp:681-698 | folding the tail of the table onto its front reduces every set bit modulo the new size, if twice the new size covers the old |
| Bloom.NewSizeIs | src/bloom/bloom_filter.hpp:666-675 | the size granted is the part to be kept, rounded down to whole bytes |
| Bloom.RefusedExactly | src/bloom/bloom_filter.hpp:656-675 | a compression is refused if and only if nothing or everything is to be removed or less than a byte is to be kept |
| Bloom.FoldFitsExactly | src/bloom/bloom_filter.hpp:666-698 | of the others: the fold writes one cell for each byte by which the old table is longer, which stays within the new table if and only if bytes * percentage is at most 50 * (bytes rounded down to even) |
| Bloom.HalvingFolds | src/bloom/bloom_filter.hpp:666-698 | so removing at most half of an even number of bytes fits |
| Bloom.MoreThanHalfOverruns | src/bloom/bloom_filter.hpp:666-698 | and removing more than half never does |
| Bloom.HalvingCanOverrun | src/bloom/bloom_filter.hpp:666-698 | nor does half of an odd number: 24 bits become 8, and the fold makes two writes into one cell |
| Bloom.ExactTablesEqual | src/bloom/bloom_filter.hpp:656-703 | however inserts and compressions were interleaved, filters with the same members and list of sizes have equal tables |
| Bloom.BloomFilter.ComputeIndices | src/bloom/bloom_filter.hpp:707-717 | the hash modulo the size of a plain filter, and otherwise the index under the sizes before modulo the last, within the table |
| Bloom.BloomFilter.Insert | src/bloom/bloom_filter.hpp:260-273 | adds exactly the bits of the key, so an exact filter stays exact |
| Bloom.BloomFilter.Contains | src/bloom/bloom_filter.hpp:303-319 | true if and only if all bits of the key are set; always true for a member; in an exact plain filter, true exactly if each index of the key is that of a member |
| Bloom.BloomFilter.Compress | src/bloom/bloom_filter.hpp:656-703 | refuses, or folds the table to the part to be kept, in whole bytes, and extends the list of sizes; members and exactness are kept |
| Bloom.BloomFilter.ReadsWithin | src/bloom/bloom_filter.hpp:404-425 | the loop finds a cell of the other filter for each of its own if and only if that filter's table is at least as large |
| Bloom.BloomFilter.UnionWith | src/bloom/bloom_filter.hpp:413-429 | with equal parameters, exactly the bits of both; still answers for its own keys whatever the lists of sizes, and for those of both, exactly, if the lists are equal; otherwise no change |
| Bloom.BloomFilter.IntersectWith | src/bloom/bloom_filter.hpp:395-411 | with equal parameters, exactly the common bits; still answers for exactly those of its keys whose bits the other has, among them every key inserted in both if the lists of sizes are equal; otherwise no change |
| Decimal.PrintParse | src/util/proto_util.cc:24-52 | parsing a printed number gives it back if it fits an int, and fails otherwise |
| Decimal.IntLimits | src/util/proto_util.cc:52-52 | the numbers that fit are those of 32 bits |
| Decimal.PrintsDecimal | src/util/proto_util.cc:24-24 | a number is printed as its tens followed by its ones, with a minus sign in front if it is negative |
| Decimal.PrintedShape | src/util/proto_util.cc:24-24 | the sign is there exactly for negative numbers, all else are digits, and there is no leading zero except for zero |
| Decimal.ValueIs | src/util/proto_util.cc:52-52 | the value of a string of digits: ten times what stands before the last one, plus that |
| Decimal.StoiReads | src/util/proto_util.cc:52-52 | spaces, an optional sign, digits and a rest are read as the signed number, and throw exactly if there are no digits or it does not fit |
| Decimal.PartsOf | src/util/proto_util.cc:52-52 | every text has such parts |
| Wire.SplitJoin | src/util/proto_util.cc:35-35 | splitting clean fields, each closed by the delimiter, gives those fields and an empty rest |
| Wire.SplitClean | src/util/proto_util.cc:35-35 | every part split off before a delimiter is clean |
| Wire.SplitRest | src/util/proto_util.cc:35-35 | the last part holds no delimiter |
| Wire.FirstDelimIsLeftmost | src/util/proto_util.cc:35-35 | three at-signs start where a part ends, and nowhere before |
| Wire.SplitLossless | src/util/proto_util.cc:35-35 | the parts, joined by the delimiter, give the text back |
| Wire.EncodeOne | src/util/proto_util.cc:24-25 | the text of one payload, written out |
| Wire.EncodeConcat | src/util/proto_util.cc:23-26 | the text of a list is the texts of its payloads in order |
| Wire.Serialize | src/util/proto_util.cc:21-28 | the loop writes the four fields of every payload, each closed by the delimiter |
| Wire.DecodeReads | src/util/proto_util.cc:30-57 | what any text is read as: an empty list if the fields before the last delimiter are not four for each payload, otherwise the payloads with their fields in place, or a throw exactly if some timestamp does not parse |
| Wire.CleanFieldsRead | src/util/proto_util.cc:30-57 | the same for any clean fields, each closed by the delimiter |
| Wire.Deserialize | src/util/proto_util.cc:30-57 | the loop reads four fields at a time; an empty list if their number is not a multiple of four; fails if a timestamp does not parse |
| Wire.CleanRoundTrip | src/util/proto_util.cc:21-57 | a list whose texts are clean is read back as written if every timestamp fits an int, and otherwise the parser throws |
| Wire.ClockStampsThrow | src/util/proto_util.cc:15-57 | so it throws on every such list with a payload stamped by the clock later than January 1970 |
| Wire.RoundTrip | src/util/proto_util.cc:21-57 | a list is read back as written if and only if every timestamp fits an int and no message type, key or value contains the delimiter or ends in its character |
| Wire.TrailingAtIsLost | src/util/proto_util.cc:24-25 | a concrete list that is not read back: a key ending in the delimiter's character |

## Left out

- Engine.CapsuleDB.Put: requires a nonempty key, because the engine uses the empty string for "absent" (src/core/engine.cc:70, src/core/level.cc:68) and loses an empty key once a merge rewrites its block together with another key (`SortedCovers`).
- Memtables.Memtable.Put: requires a nonempty key, for the same reason.
- Engine.CapsuleDB.Get: the timestamp of the payload returned for an absent key is indeterminate in the engine; only its empty key is promised.
- Engine.CapsuleDB.constructor: requires a block size of at least 1; with 0 the first put would flush an empty memtable.
- Index.CapsuleIndex.constructor: requires a block size of at least 1, for the same reason.
- Capsule.CapsuleStore.PutCapsuleBlock: names are the write counter itself; SHA-256, the protobuf encoding, file errors and the hash comparison on reading are not part of this model.
- Capsule.CapsuleStore.ReadIn: requires that the file exists, as it does for every header of the index; `GetCapsuleBlock` models the failure.
- Index.CapsuleIndex.AddHash: for a level that exists, requires that the block was written with that label and a true range, as the memtable does.
- Levels.Level.AddBlock: as for `AddHash`, which is its only caller.
- Bloom.BloomFilter.Compress: the percentage is a real number, so rounding of double arithmetic is not modelled; of the requests it grants it covers those whose fold stays within the new table, which `FoldFitsExactly` characterises. What the fold of the source does past the end of the table is not modelled.
- Bloom.BloomFilter.UnionWith: where count, size and seed agree, the salts are taken to agree too, being a function of count and seed, and the other table is taken to be at least as large; `ReadsWithin` says when it is, and what the loop reads past the end of a smaller one is not modelled.
- Bloom.BloomFilter.IntersectWith: as for the union.
- Consolidation.TopmostIffStable: a stable answer is the latest stored version and a settled one is stable; not decided is an answer that is stored again below a different payload with the same timestamp.
- Integers are unbounded: the write counter, block counts and the number of pairs do not wrap. `SizesFit` shows the size limits cannot overflow in practice.
- A state is recorded after each update of the blocks of a level, of the list of levels or of the memtable. The single assignments inside one such update, and reads between them, are not modelled.
- The map of the memtable is an object of its own here, so that the record can read it.
- The levels are distinct objects here and elements of a vector in the engine. Copying them, and the vectors passed by value, is not modelled.
- The loop of `merge` is split into methods for a round, a cursor and a written block, `compact`, `add_hash` and `put` into methods for their parts, and `std::sort` is insertion sort; both sorts are of distinct keys, so the result does not depend on the method.
- Mutexes: puts and gets are sequential. Only the agreement of lock list and memtable keys is kept.
- Restart and tampering of the store, debug output and the unused multicast flag.
- Hashing, signing and encryption in proto_util.cc, and all of src/enclave and src/network.
- Choice of Bloom parameters, false-positive rates, salt generation, the mixing steps of the hash, and `^=`.
- The disabled Bloom guard of `getBlock` (src/core/index.cc:47-50).
