/** The index: the levels, and the compaction that moves blocks down through them. */
module Index {
  import opened Keys
  import opened Payloads
  import opened Runs
  import opened Eviction
  import opened Compaction
  import opened Database
  import opened Capsule
  import opened Levels

  // ----- cursors of the merge -----

  /** The pairs of a run from pair `j` of block `i` on. */
  function Rest(run: Run, i: nat, j: nat): seq<Payload>
    requires i <= |run| && (i < |run| ==> j <= |run[i]|)
  {
    if i == |run| then [] else run[i][j..] + Flatten(run[i + 1..])
  }

  lemma RestStart(run: Run)
    ensures Rest(run, 0, 0) == Flatten(run)
  {
  }

  /** Advancing a cursor by one pair, into the next block at the end of one. */
  lemma RestStep(run: Run, i: nat, j: nat)
    requires i < |run| && j < |run[i]|
    ensures Rest(run, i, j) != [] && Rest(run, i, j)[0] == run[i][j]
    ensures Rest(run, i, j)[1..] == if j + 1 == |run[i]| then Rest(run, i + 1, 0) else Rest(run, i, j + 1)
  {
    if j + 1 == |run[i]| && i + 1 < |run| {
      assert run[i + 1..][1..] == run[i + 2..];
      assert Flatten(run[i + 1..]) == run[i + 1] + Flatten(run[i + 2..]);
    }
  }

  lemma ChunkFull(bs: nat, cur: Block, rest: seq<Payload>)
    requires bs >= 1 && |cur| == bs
    ensures Chunk(bs, cur + rest) == [cur] + Chunk(bs, rest)
  {
    assert (cur + rest)[..bs] == cur && (cur + rest)[bs..] == rest;
    if rest == [] {
      assert cur + rest == cur;
    }
  }

  lemma SortedSplit(cur: Block, rest: seq<Payload>)
    requires Sorted(cur + rest)
    ensures Sorted(cur) && Sorted(rest)
  {
    var s := cur + rest;
    assert forall i :: 0 <= i < |cur| ==> s[i] == cur[i];
    assert forall i :: 0 <= i < |rest| ==> s[|cur| + i] == rest[i];
  }

  lemma MergeInput(bs: nat, ra: Run, rb: Run)
    requires RunOk(bs, ra) && RunOk(bs, rb)
    ensures var whole := MergeFlat(Flatten(ra), Flatten(rb));
            Sorted(whole) && forall p :: p in whole ==> p.key != ""
  {
    FlattenSorted(bs, ra);
    FlattenSorted(bs, rb);
    FlattenLength(bs, ra);
    FlattenLength(bs, rb);
    MergeFlatSorted(Flatten(ra), Flatten(rb));
    MergeFlatMembers(Flatten(ra), Flatten(rb));
  }

  lemma MergeFlatEmpty()
    ensures MergeFlat([], []) == []
  {
  }

  lemma ChunkShort(bs: nat, cur: Block)
    requires bs >= 1 && |cur| < bs
    ensures Chunk(bs, cur) == if cur == [] then [] else [cur]
  {
  }

  /** A header taken when the files were `was` can still be read now. */
  lemma HeaderRead(was: Files, now: Files, hs: seq<BlockHeader>, i: nat)
    requires HeadersOk(was, hs) && Extends(was, now) && i < |hs|
    ensures hs[i].hash in now && now[hs[i].hash].kvpairs == RunOf(was, hs)[i] != []
  {
    assert hs[i] in hs;
  }

  lemma HeaderAdded(was: Files, now: Files, level: int, hs: seq<BlockHeader>, h: BlockHeader)
    requires HeadersOk(was, hs) && LabelsOk(was, level, hs) && Extends(was, now)
    requires HeaderOk(now, h) && now[h.hash].level == level
    ensures HeadersOk(now, hs + [h]) && LabelsOk(now, level, hs + [h])
    ensures RunOf(now, hs + [h]) == RunOf(was, hs) + [PairsOf(now, h)]
  {
    ExtendsKeeps(was, now, level, hs);
    RunOfConcat(now, hs, [h]);
    assert RunOf(now, [h]) == [PairsOf(now, h)];
  }

  class CapsuleIndex {
    var numLevels: int
    const blocksize: nat
    var levels: seq<Level>
    const store: CapsuleStore
    /** The data of the levels. */
    ghost var tree: Tree
    /** The map of the memtable that is flushed into this index. */
    ghost const table: PairMap
    /** Every state the memtable and the data of the levels have been in, together. */
    ghost var trace: seq<Db>

    /** `tree` is what the levels hold, read from `files`. */
    ghost predicate RepresentsIn(files: Files)
      reads this, levels
    {
      && blocksize >= 1
      && numLevels == |levels| == |tree| >= 1
      && (forall i, j :: 0 <= i < j < |levels| ==> levels[i] != levels[j])
      && (forall i :: 0 <= i < |levels| ==> levels[i].Holds(files, i, blocksize, tree[i]))
    }

    /** The present state of memtable and levels is the last one recorded. Whatever changes either has
        to record the new state before it uses the index again. */
    ghost predicate Recorded()
      reads this, table
    {
      trace != [] && trace[|trace| - 1] == Db(table.pairs, tree)
    }

    ghost predicate Represents()
      reads this, levels, store, table
    {
      store.Valid() && RepresentsIn(store.files) && Recorded()
    }

    lemma StoreGrew(was: Files)
      requires RepresentsIn(was) && Recorded() && store.Valid() && Extends(was, store.files)
      ensures Represents()
    {
      forall i | 0 <= i < |levels|
        ensures levels[i].Holds(store.files, i, blocksize, tree[i])
      {
        levels[i].HoldsExtends(was, store.files, i, blocksize, tree[i]);
      }
    }

    lemma Counts()
      requires Represents()
      ensures numLevels == |levels| == |tree| >= 1 && blocksize >= 1 && store.Valid()
    {
    }

    /** What the invariant says of one level. */
    lemma LevelAt(d: nat)
      requires Represents() && d < |levels|
      ensures numLevels == |levels| == |tree| && blocksize >= 1 && store.Valid()
      ensures levels[d].Holds(store.files, d, blocksize, tree[d])
      ensures levels[d].index == d && |tree[d]| == |levels[d].recordHashes|
      ensures HeadersOk(store.files, levels[d].recordHashes) && LabelsOk(store.files, d, levels[d].recordHashes)
      ensures RunOf(store.files, levels[d].recordHashes) == tree[d]
    {
    }

    /** The state between operations. */
    ghost predicate Valid()
      reads this, levels, store, table
    {
      Represents() && TreeOk(blocksize, tree, 0)
    }

    constructor (size: nat, s: CapsuleStore, ghost t: PairMap)
      requires size >= 1 && s.Valid()
      ensures Valid() && tree == [[]] && blocksize == size && store == s
      ensures table == t && trace == [Db(t.pairs, tree)]
      ensures forall l :: l in levels ==> fresh(l)
    {
      numLevels := 1;
      blocksize := size;
      store := s;
      var levelZero := new Level(0, 2 * size);
      levels := [levelZero];
      tree := [[]];
      table := t;
      trace := [Db(t.pairs, [[]])];
      new;
      assert RunOf(store.files, []) == [];
    }

    /** Records the present state. */
    ghost method Record()
      requires store.Valid() && RepresentsIn(store.files)
      modifies this`trace
      ensures Represents() && trace == old(trace) + [Db(table.pairs, tree)]
    {
      trace := trace + [Db(table.pairs, tree)];
    }

    /** Writes a filled block and makes its header. */
    method Emit(cb: CapsuleBlock) returns (bh: BlockHeader)
      requires store.Valid() && cb.kvPairs != [] && Sorted(cb.kvPairs)
      requires forall p :: p in cb.kvPairs ==> p.key != ""
      requires cb.Range() == WidenAll(NO_RANGE, cb.kvPairs)
      modifies store
      ensures store.Valid() && Extends(old(store.files), store.files)
      ensures HeaderOk(store.files, bh) && PairsOf(store.files, bh) == cb.kvPairs
      ensures store.files[bh.hash].level == cb.level
    {
      WidenAllSorted(cb.kvPairs);
      assert cb.kvPairs[0] in cb.kvPairs && cb.kvPairs[|cb.kvPairs| - 1] in cb.kvPairs;
      var hash := cb.WriteOut(store);
      bh := BlockHeader(hash, cb.startKey, cb.endKey);
    }

    /** The smaller of the two next pairs; of two with the same key, the later one. */
    method NextPair(endA: bool, endB: bool, blockA: CapsuleBlock, aaa: nat, blockB: CapsuleBlock, bbb: nat,
                    ghost x: seq<Payload>, ghost y: seq<Payload>)
      returns (nextKVPair: Payload, advanceA: bool, advanceB: bool)
      requires !endA || !endB
      requires if endA then x == [] else x != [] && aaa < |blockA.kvPairs| && x[0] == blockA.kvPairs[aaa]
      requires if endB then y == [] else y != [] && bbb < |blockB.kvPairs| && y[0] == blockB.kvPairs[bbb]
      ensures (advanceA ==> x != []) && (advanceB ==> y != []) && (advanceA || advanceB)
      ensures MergeFlat(x, y)
           == [nextKVPair] + MergeFlat(if advanceA then x[1..] else x, if advanceB then y[1..] else y)
    {
      advanceA, advanceB := false, false;
      if endA {
        nextKVPair := blockB.kvPairs[bbb];
        advanceB := true;
      } else if endB {
        nextKVPair := blockA.kvPairs[aaa];
        advanceA := true;
      } else {
        var pairA := blockA.kvPairs[aaa];
        var pairB := blockB.kvPairs[bbb];
        if Less(pairB.key, pairA.key) {
          nextKVPair := pairB;
          advanceB := true;
        } else if Less(pairA.key, pairB.key) {
          nextKVPair := pairA;
          advanceA := true;
        } else {
          if pairB.timestamp >= pairA.timestamp {
            nextKVPair := pairB;
          } else {
            nextKVPair := pairA;
          }
          advanceA := true;
          advanceB := true;
        }
      }
    }

    /** Moves a merge cursor to the next pair, reading the next block at the end of one. */
    method Advance(hs: seq<BlockHeader>, i: nat, j: nat, block: CapsuleBlock,
                   ghost files: Files, ghost rest: seq<Payload>)
      returns (i': nat, j': nat, block': CapsuleBlock)
      requires HeadersOk(files, hs) && Extends(files, store.files) && i < |hs|
      requires AtCursor(RunOf(files, hs), i, j, block.kvPairs, rest)
      ensures rest != [] && i' <= |hs| && AtCursor(RunOf(files, hs), i', j', block'.kvPairs, rest[1..])
      ensures block' == block || fresh(block')
    {
      hide Rest, HeadersOk;
      RestStep(RunOf(files, hs), i, j);
      i', j', block' := i, j + 1, block;
      if j' == |block.kvPairs| {
        j' := 0;
        i' := i + 1;
        if i' < |hs| {
          HeaderRead(files, store.files, hs, i');
          block' := store.ReadIn(hs[i'].hash);
        }
      }
    }

    /** The first block of the second list of a merge; a block without pairs if the list is empty. */
    method FirstBlock(hs: seq<BlockHeader>) returns (block: CapsuleBlock)
      requires HeadersOk(store.files, hs)
      ensures fresh(block) && AtCursor(RunOf(store.files, hs), 0, 0, block.kvPairs, Flatten(RunOf(store.files, hs)))
    {
      hide HeadersOk, AtCursor, Flatten;
      ExtendsReflexive(store.files);
      if |hs| > 0 {
        HeaderRead(store.files, store.files, hs, 0);
        block := store.ReadIn(hs[0].hash);
      } else {
        block := new CapsuleBlock(-1);
      }
      CursorStart(RunOf(store.files, hs), block.kvPairs);
    }

    /** Merges two header lists, reading their blocks and writing new ones for `nextLevel`. */
    method Merge(a: seq<BlockHeader>, b: seq<BlockHeader>, nextLevel: int) returns (output: seq<BlockHeader>)
      requires blocksize >= 1 && store.Valid() && a != []
      requires HeadersOk(store.files, a) && RunOk(blocksize, RunOf(store.files, a))
      requires HeadersOk(store.files, b) && RunOk(blocksize, RunOf(store.files, b))
      modifies store
      ensures store.Valid() && Extends(old(store.files), store.files)
      ensures HeadersOk(store.files, output) && LabelsOk(store.files, nextLevel, output)
      ensures RunOf(store.files, output)
           == MergeRuns(blocksize, RunOf(old(store.files), a), RunOf(old(store.files), b))
    {
      hide RunOk, Less, LessFrom, Flatten, MergeFlat, Chunk, Widen, WidenAll, Rest, HeaderOk, HeadersOk, LabelsOk,
           Sorted, Building, AtCursor, Extends, RunOf, PairsOf, CapsuleStore.Valid, CapsuleBlock.Message;
      ExtendsReflexive(store.files);
      ghost var ra, rb := RunOf(store.files, a), RunOf(store.files, b);
      ghost var whole := MergeFlat(Flatten(ra), Flatten(rb));
      MergeInput(blocksize, ra, rb);
      BuildingStart(store.files, nextLevel, blocksize, whole);
      output := [];
      var aa, bb, aaa, bbb := 0, 0, 0, 0;
      HeaderRead(store.files, store.files, a, aa);
      var blockA := store.ReadIn(a[aa].hash);
      var blockB := FirstBlock(b);
      var nextBlock := new CapsuleBlock(nextLevel);
      ghost var x, y := Flatten(ra), Flatten(rb);
      WidenAllEmpty(NO_RANGE);
      CursorStart(ra, blockA.kvPairs);
      while aa != |a| || bb != |b|
        invariant fresh(nextBlock) && nextBlock != blockA && nextBlock != blockB
        invariant 0 <= aa <= |a| && 0 <= bb <= |b| && 0 <= aaa && 0 <= bbb
        invariant AtCursor(ra, aa, aaa, blockA.kvPairs, x) && AtCursor(rb, bb, bbb, blockB.kvPairs, y)
        invariant store.Valid() && Extends(old(store.files), store.files)
        invariant nextBlock.level == nextLevel && nextBlock.Range() == WidenAll(NO_RANGE, nextBlock.kvPairs)
        invariant Building(store.files, nextLevel, blocksize, output, nextBlock.kvPairs, MergeFlat(x, y), whole)
        decreases |x| + |y|
      {
        CursorHead(ra, aa, aaa, blockA.kvPairs, x);
        CursorHead(rb, bb, bbb, blockB.kvPairs, y);
        var nextKVPair, advanceA, advanceB := NextPair(aa == |a|, bb == |b|, blockA, aaa, blockB, bbb, x, y);
        if advanceA {
          aa, aaa, blockA := Advance(a, aa, aaa, blockA, old(store.files), x);
          x := x[1..];
        }
        if advanceB {
          bb, bbb, blockB := Advance(b, bb, bbb, blockB, old(store.files), y);
          y := y[1..];
        }
        ghost var was := store.files;
        output, nextBlock := AddPair(output, nextBlock, nextKVPair, MergeFlat(x, y), whole);
        ExtendsTransitive(old(store.files), was, store.files);
      }
      CursorHead(ra, aa, aaa, blockA.kvPairs, x);
      CursorHead(rb, bb, bbb, blockB.kvPairs, y);
      MergeFlatEmpty();
      ghost var was := store.files;
      output := Finish(output, nextBlock, whole);
      ExtendsTransitive(old(store.files), was, store.files);
    }

    /** What a merge has written and still has to write, together, are the blocks of `whole`. */
    static ghost predicate Building(files: Files, level: int, bs: nat, output: seq<BlockHeader>,
                                    cur: Block, rest: seq<Payload>, whole: seq<Payload>)
      requires bs >= 1
    {
      && HeadersOk(files, output) && LabelsOk(files, level, output)
      && |cur| < bs
      && Sorted(cur + rest) && (forall p :: p in cur + rest ==> p.key != "")
      && RunOf(files, output) + Chunk(bs, cur + rest) == Chunk(bs, whole)
    }

    /** Adds the next pair to the block being filled, and writes it out when full. */
    method AddPair(output: seq<BlockHeader>, cb: CapsuleBlock, pair: Payload,
                   ghost rest: seq<Payload>, ghost whole: seq<Payload>)
      returns (output': seq<BlockHeader>, cb': CapsuleBlock)
      requires blocksize >= 1 && store.Valid() && cb.Range() == WidenAll(NO_RANGE, cb.kvPairs)
      requires Building(store.files, cb.level, blocksize, output, cb.kvPairs, [pair] + rest, whole)
      modifies store, cb
      ensures cb' == cb || fresh(cb')
      ensures store.Valid() && Extends(old(store.files), store.files)
      ensures cb'.level == old(cb.level) && cb'.Range() == WidenAll(NO_RANGE, cb'.kvPairs)
      ensures Building(store.files, cb'.level, blocksize, output', cb'.kvPairs, rest, whole)
    {
      hide Less, Chunk, WidenAll, HeaderOk;
      output', cb' := output, cb;
      ghost var total := cb.kvPairs + ([pair] + rest);
      WidenAllAdd(NO_RANGE, cb.kvPairs, pair);
      cb.AddKVPair(pair);
      assert cb.kvPairs + rest == total;
      if |cb.kvPairs| == blocksize {
        SortedSplit(cb.kvPairs, rest);
        ChunkFull(blocksize, cb.kvPairs, rest);
        ghost var was := store.files;
        var bh := Emit(cb);
        HeaderAdded(was, store.files, cb.level, output, bh);
        output' := output + [bh];
        cb' := new CapsuleBlock(cb.level);
        WidenAllEmpty(NO_RANGE);
        assert cb'.kvPairs + rest == rest;
        assert RunOf(store.files, output') == RunOf(was, output) + [cb.kvPairs];
      }
    }

    /** Writes out the last block, if it holds anything. */
    method Finish(output: seq<BlockHeader>, cb: CapsuleBlock, ghost whole: seq<Payload>)
      returns (output': seq<BlockHeader>)
      requires blocksize >= 1 && store.Valid() && cb.Range() == WidenAll(NO_RANGE, cb.kvPairs)
      requires Building(store.files, cb.level, blocksize, output, cb.kvPairs, [], whole)
      modifies store
      ensures store.Valid() && Extends(old(store.files), store.files)
      ensures HeadersOk(store.files, output') && LabelsOk(store.files, cb.level, output')
      ensures RunOf(store.files, output') == Chunk(blocksize, whole)
    {
      hide Less, Chunk, WidenAll, HeaderOk;
      ChunkShort(blocksize, cb.kvPairs);
      assert cb.kvPairs + [] == cb.kvPairs;
      output' := output;
      if |cb.kvPairs| > 0 {
        ghost var was := store.files;
        var bh := Emit(cb);
        HeaderAdded(was, store.files, cb.level, output, bh);
        output' := output + [bh];
      }
    }

    /** `kv` and `rest` are the current block and the remaining pairs of a cursor into `run`. */
    static ghost predicate AtCursor(run: Run, i: int, j: int, kv: Block, rest: seq<Payload>) {
      && 0 <= i <= |run| && 0 <= j
      && (if i < |run| then j < |run[i]| && kv == run[i] else j == 0)
      && rest == Rest(run, i, j)
    }

    static lemma CursorStart(run: Run, kv: Block)
      requires run != [] ==> run[0] != [] && kv == run[0]
      ensures AtCursor(run, 0, 0, kv, Flatten(run))
    {
      RestStart(run);
    }

    static lemma BuildingStart(files: Files, level: int, bs: nat, whole: seq<Payload>)
      requires bs >= 1 && Sorted(whole) && forall p :: p in whole ==> p.key != ""
      ensures Building(files, level, bs, [], [], whole, whole)
    {
      assert [] + whole == whole;
      assert RunOf(files, []) == [];
    }

    static lemma CursorHead(run: Run, i: int, j: int, kv: Block, rest: seq<Payload>)
      requires AtCursor(run, i, j, kv, rest)
      ensures 0 <= i <= |run| && (rest == [] <==> i == |run|)
      ensures i < |run| ==> 0 <= j < |kv| && rest[0] == kv[j]
    {
      if i < |run| {
        RestStep(run, i, j);
      }
    }

    // ----- the levels -----

    /** Appends an empty level. */
    method AddLevel(size: int) returns (ind: int)
      requires Represents() && size == blocksize * Cap(|levels|)
      modifies this
      ensures Represents() && ind == |old(levels)|
      ensures |levels| == |old(levels)| + 1 && levels[..|old(levels)|] == old(levels) && fresh(levels[|old(levels)|])
      ensures levels[|old(levels)|].recordHashes == []
      ensures tree == old(tree) + [[]] && trace == old(trace) + [Db(table.pairs, tree)]
    {
      hide Cap, HeaderOk;
      var newLevel := new Level(numLevels, size);
      newLevel.numBlocks := 0;
      newLevel.maxSize := size;
      newLevel.index := numLevels;
      assert RunOf(store.files, []) == [];
      levels := levels + [newLevel];
      numLevels := numLevels + 1;
      tree := tree + [[]];
      Record();
      ind := numLevels - 1;
      assert levels[..|old(levels)|] == old(levels);
      assert levels[|old(levels)|].Holds(store.files, |old(levels)|, blocksize, []);
    }

    /** Adds a level if `lv` is the last one. */
    method AddNextLevel(lv: Level) returns (ghost steps: seq<Tree>)
      requires Represents() && lv in levels
      modifies this
      ensures Represents() && |old(levels)| <= |levels| && levels[..|old(levels)|] == old(levels)
      ensures forall i :: |old(levels)| <= i < |levels| ==> fresh(levels[i])
      ensures var last := lv.index + 1 == |old(tree)|;
              tree == (if last then old(tree) + [[]] else old(tree)) && steps == if last then [tree] else []
      ensures trace == old(trace) + Under(table.pairs, steps)
    {
      hide Cap, HeadersOk, LabelsOk, Level.Bounds, RunOf, Under;
      steps := [];
      UnderOne(table.pairs, tree + [[]]);
      if lv.index + 1 >= numLevels {
        CapNext(blocksize, lv.index);
        var ind := AddLevel(lv.maxSize * 10);
        steps := [tree];
      }
    }

    /** Gives a level new blocks. */
    method SetLevel(d: nat, headers: seq<BlockHeader>)
      requires Represents() && d < |levels|
      requires HeadersOk(store.files, headers) && LabelsOk(store.files, d, headers)
      requires RunOk(blocksize, RunOf(store.files, headers))
      modifies this`tree, this`trace, levels[d]
      ensures Represents() && levels[d].recordHashes == headers
      ensures tree == old(tree)[d := RunOf(store.files, headers)] && trace == old(trace) + [Db(table.pairs, tree)]
    {
      hide Cap, HeaderOk, RunOk, HeadersOk, LabelsOk, RunOf;
      levels[d].Replace(headers, store.files, blocksize);
      tree := tree[d := RunOf(store.files, headers)];
      Record();
    }

    /** The inner loop of the selection: moves past the blocks that end below `key`. */
    method TakeBelow(dest: seq<BlockHeader>, start: nat, key: Key, ghost files: Files)
      returns (taken: seq<BlockHeader>, next: nat)
      requires HeadersOk(files, dest) && start <= |dest|
      ensures next == start + EndingBelow(RunOf(files, dest)[start..], key) && next <= |dest|
      ensures taken == dest[start..next] && forall h :: h in taken ==> h in dest
    {
      hide Less, RunOf, HeadersOk, EndingBelow;
      ghost var d := RunOf(files, dest);
      HeaderKeys(files, dest);
      taken, next := [], start;
      while next < |dest| && Less(dest[next].maxKey, key)
        invariant start <= next <= |dest| && taken == dest[start..next]
        invariant EndingBelow(d[start..], key) == next - start + EndingBelow(d[next..], key)
      {
        EndingBelowStep(d, next, key);
        taken := taken + [dest[next]];
        next := next + 1;
      }
      EndingBelowStop(d, next, key);
    }

    /** The two-cursor loop that picks the blocks to evict. */
    method SelectVictims(source: seq<BlockHeader>, dest: seq<BlockHeader>, ghost files: Files)
      returns (newSource: seq<BlockHeader>, remaining: seq<BlockHeader>)
      requires HeadersOk(files, source) && HeadersOk(files, dest)
      ensures Split(RunOf(files, newSource), RunOf(files, remaining))
           == Select(RunOf(files, source), RunOf(files, dest))
      ensures forall h :: h in newSource || h in remaining ==> h in dest
    {
      hide *;
      ghost var s, d := RunOf(files, source), RunOf(files, dest);
      ghost var all := Select(s, d);
      HeaderKeys(files, source);
      HeaderKeys(files, dest);
      newSource, remaining := [], [];
      RunOfEmpty(files);
      var sourceInd, destInd := 0, 0;
      assert s[0..] == s && d[0..] == d;
      JoinedEmpty(all);
      while sourceInd < |source| && destInd < |dest|
        invariant 0 <= sourceInd <= |source| && 0 <= destInd <= |dest|
        invariant forall h :: h in newSource || h in remaining ==> h in dest
        invariant Joined(RunOf(files, newSource), RunOf(files, remaining), Select(s[sourceInd..], d[destInd..])) == all
        decreases |source| - sourceInd + |dest| - destInd
      {
        SelectStep(s, d, sourceInd, destInd);
        if Less(dest[destInd].minKey, source[sourceInd].minKey)
           && Less(dest[destInd].maxKey, source[sourceInd].minKey) {
          var taken, next := TakeBelow(dest, destInd, source[sourceInd].maxKey, files);
          JoinTaken(files, newSource, remaining, dest, destInd, next, Select(s[sourceInd + 1..], d[next..]));
          newSource := newSource + taken;
          destInd := next;
          sourceInd := sourceInd + 1;
        } else {
          JoinKept(files, newSource, remaining, dest, destInd, Select(s[sourceInd..], d[destInd + 1..]));
          remaining := remaining + [dest[destInd]];
          destInd := destInd + 1;
        }
      }
      SelectEnd(s, d, sourceInd, destInd);
      JoinRest(files, newSource, remaining, dest, destInd);
      remaining := KeepRest(dest, destInd, remaining);
    }

    /** The loop after it: what was not looked at stays. */
    method KeepRest(dest: seq<BlockHeader>, start: nat, remaining: seq<BlockHeader>) returns (all: seq<BlockHeader>)
      requires start <= |dest|
      ensures all == remaining + dest[start..]
    {
      all := remaining;
      var destInd := start;
      while destInd < |dest|
        invariant start <= destInd <= |dest|
        invariant all == remaining + dest[start..destInd]
      {
        all := all + [dest[destInd]];
        destInd := destInd + 1;
      }
    }

    /** Selection, top-up when too few blocks are evicted, and re-sort. */
    method ChooseEvicted(source: seq<BlockHeader>, dest: seq<BlockHeader>, ghost files: Files)
      returns (newSource: seq<BlockHeader>, remaining: seq<BlockHeader>)
      requires HeadersOk(files, source) && HeadersOk(files, dest) && |source| <= |dest|
      ensures Split(RunOf(files, newSource), RunOf(files, remaining)) == Evict(RunOf(files, source), RunOf(files, dest))
      ensures forall h :: h in newSource || h in remaining ==> h in dest
    {
      hide Less, RunOf, Select, SortBlocks, SortHeaders, HeaderOk;
      newSource, remaining := SelectVictims(source, dest, files);
      if |newSource| < |source| {
        var n := |source| - |newSource|;
        RunOfConcat(files, newSource, remaining[..n]);
        RunOfSlice(files, remaining, 0, n);
        RunOfSlice(files, remaining, n, |remaining|);
        assert remaining[..n] == remaining[0..n] && remaining[n..] == remaining[n..|remaining|];
        newSource := newSource + remaining[..n];
        remaining := remaining[n..];
        SortHeadersRun(files, newSource);
        newSource := SortHeaders(newSource);
      }
    }

    /** `compactHelper`: merges `source` into level `dest`; a level that would overflow first sends
        blocks down. */
    method CompactHelper(source: seq<BlockHeader>, dest: nat)
      requires Represents() && 1 <= dest < |levels| && TreeOk(blocksize, tree[dest..], dest)
      requires HeadersOk(store.files, source) && SourceOk(blocksize, RunOf(store.files, source), dest)
      modifies this, levels, store
      ensures Represents() && Extends(old(store.files), store.files)
      ensures old(levels) <= levels && forall i :: |old(levels)| <= i < |levels| ==> fresh(levels[i])
      ensures tree == old(tree)[..dest] + Push(blocksize, old(tree)[dest..], RunOf(old(store.files), source), dest)
      ensures trace == old(trace)
                     + Under(table.pairs,
                             Lift(old(tree)[..dest],
                                  PushStates(blocksize, old(tree)[dest..], RunOf(old(store.files), source), dest)))
      decreases |levels| - dest, |levels[dest].recordHashes|, 1
    {
      hide Cap, RunOk, RunOf, HeadersOk, LabelsOk, Evict, MergeRuns, TreeOk, SourceOk, Push, PushStates,
           Lift, Under, MovedDown, Level.Bounds;
      ghost var t, s := tree[dest..], RunOf(store.files, source);
      ghost var steps: seq<Tree> := [];
      OverflowTest(blocksize, |source|, |levels[dest].recordHashes|, Cap(dest));
      HeadOk(blocksize, t, s, dest);
      if blocksize * |source| + blocksize * |levels[dest].recordHashes| >= levels[dest].maxSize {
        steps := MoveDown(source, dest);
        MovedDownMerge(blocksize, old(tree)[..dest], t, s, dest, tree, steps);
      } else {
        UnderOne(table.pairs, []);
        MergeOnly(blocksize, old(tree), s, dest);
      }
      ExtendsKeeps(old(store.files), store.files, dest, source);
      MergeInto(source, dest);
      UnderConcat(table.pairs, steps, [tree]);
      UnderOne(table.pairs, tree);
    }

    /** The overflow branch of `compactHelper`. */
    method MoveDown(source: seq<BlockHeader>, dest: nat) returns (ghost steps: seq<Tree>)
      requires Represents() && 1 <= dest < |levels| && TreeOk(blocksize, tree[dest..], dest)
      requires HeadersOk(store.files, source) && SourceOk(blocksize, RunOf(store.files, source), dest)
      requires |source| + |tree[dest]| >= Cap(dest)
      modifies this, levels, store
      ensures Represents() && Extends(old(store.files), store.files)
      ensures old(levels) <= levels && forall i :: |old(levels)| <= i < |levels| ==> fresh(levels[i])
      ensures MovedDown(blocksize, old(tree)[..dest], old(tree)[dest..], RunOf(old(store.files), source), dest,
                        tree, steps)
      ensures trace == old(trace) + Under(table.pairs, steps)
      decreases |levels| - dest, |levels[dest].recordHashes|, 0
    {
      hide Cap, RunOk, RunOf, HeadersOk, LabelsOk, Evict, MergeRuns, TreeOk, SourceOk, Push, PushStates,
           Lift, Under, MovedDown, Level.Holds, CapsuleIndex.Represents, Extends;
      LevelAt(dest);
      ghost var t, s := tree[dest..], RunOf(store.files, source);
      HeadOk(blocksize, t, s, dest);
      OverflowEvicts(blocksize, t, s, dest);
      ghost var e := Evict(s, t[0]);
      var lv := levels[dest];
      steps := AddNextLevel(lv);
      LevelAt(dest);
      LevelAt(dest + 1);
      assert tree[dest + 1..] == Below(t);
      var newSource, remaining := ChooseEvicted(source, lv.recordHashes, store.files);
      HeadersSubset(store.files, dest, lv.recordHashes, newSource);
      HeadersSubset(store.files, dest, lv.recordHashes, remaining);
      ghost var was, before := store.files, tree;
      CompactHelper(newSource, dest + 1);
      LevelAt(dest);
      ghost var lower := Lift(before[..dest + 1], PushStates(blocksize, before[dest + 1..], e.evicted, dest + 1));
      ExtendsKeeps(was, store.files, dest, remaining);
      SetLevel(dest, remaining);
      UnderSteps(old(trace), table.pairs, steps, lower, tree);
      steps := steps + lower + [tree];
      MovedDownIntro(blocksize, old(tree), s, dest, tree, steps);
    }

    /** The merge that ends `compactHelper`. */
    method MergeInto(source: seq<BlockHeader>, dest: nat)
      requires Represents() && dest < |levels| && source != []
      requires HeadersOk(store.files, source) && RunOk(blocksize, RunOf(store.files, source))
      requires RunOk(blocksize, tree[dest])
      modifies this, levels[dest], store
      ensures Represents() && Extends(old(store.files), store.files) && levels == old(levels)
      ensures tree == old(tree)[dest := MergeRuns(blocksize, RunOf(old(store.files), source), old(tree)[dest])]
      ensures trace == old(trace) + [Db(table.pairs, tree)]
    {
      hide Cap, RunOk, HeadersOk, LabelsOk, RunOf, MergeRuns, Level.Bounds;
      ghost var was := store.files;
      var merged := Merge(source, levels[dest].recordHashes, dest);
      StoreGrew(was);
      MergeRunsOk(blocksize, RunOf(was, source), tree[dest]);
      SetLevel(dest, merged);
    }

    /** Rewrites every L0 block with its pairs sorted. They already are, so the data stays as is. */
    method SortL0()
      requires Represents() && forall i :: 0 <= i < |tree[0]| ==> BlockOk(blocksize, tree[0][i])
      modifies levels[0], store
      ensures Represents() && Extends(old(store.files), store.files)
      ensures |levels[0].recordHashes| == |old(levels[0].recordHashes)|
      ensures forall j :: 0 <= j < |levels[0].recordHashes| ==> levels[0].recordHashes[j].hash !in old(store.files)
    {
      hide Cap, LabelsOk, HeadersOk, BlockOk, HeaderOk, RunOf, Level.Bounds, CapsuleStore.Valid;
      ExtendsReflexive(store.files);
      for i := 0 to |levels[0].recordHashes|
        invariant Represents() && Extends(old(store.files), store.files)
        invariant |levels[0].recordHashes| == |old(levels[0].recordHashes)|
        invariant forall j :: 0 <= j < i ==> levels[0].recordHashes[j].hash !in old(store.files)
      {
        ghost var was := store.files;
        SortBlock(i);
        ExtendsTransitive(old(store.files), was, store.files);
      }
    }

    /** One round of `sortL0`. */
    method SortBlock(i: nat)
      requires Represents() && i < |tree[0]| && BlockOk(blocksize, tree[0][i])
      modifies levels[0], store
      ensures Represents() && Extends(old(store.files), store.files)
      ensures var hs := old(levels[0].recordHashes);
              && |levels[0].recordHashes| == |hs| && i < |hs|
              && levels[0].recordHashes == hs[i := hs[i].(hash := levels[0].recordHashes[i].hash)]
              && levels[0].recordHashes[i].hash !in old(store.files)
    {
      hide Cap, LabelsOk, HeadersOk, BlockOk, HeaderOk, RunOf, BoundsOf, CapsuleStore.Valid, Extends;
      var lv0 := levels[0];
      ghost var was, hs := store.files, lv0.recordHashes;
      HeaderIn(was, hs, i);
      LabelIn(was, 0, hs, i);
      var hash := RewriteSorted(lv0.recordHashes[i]);
      StoreGrew(was);
      Rehash(was, store.files, hs, 0, i, hash);
      lv0.recordHashes := lv0.recordHashes[i := lv0.recordHashes[i].(hash := hash)];
      lv0.BoundsRehashed(hs);
      assert lv0.Holds(store.files, 0, blocksize, tree[0]);
    }

    /** Reads a block, sorts its pairs, and writes it again. */
    method RewriteSorted(h: BlockHeader) returns (hash: BlockName)
      requires store.Valid() && HeaderOk(store.files, h) && BlockOk(blocksize, PairsOf(store.files, h))
      modifies store
      ensures store.Valid() && Extends(old(store.files), store.files) && hash !in old(store.files)
      ensures HeaderOk(store.files, h.(hash := hash))
      ensures PairsOf(store.files, h.(hash := hash))
           == SortPairs(PairsOf(old(store.files), h)) == PairsOf(old(store.files), h)
      ensures store.files[hash].level == old(store.files)[h.hash].level
    {
      hide WidenAll, SortPairs;
      BlockCovered(blocksize, PairsOf(store.files, h));
      var block := store.ReadIn(h.hash);
      SortPairsSorted(block.kvPairs);
      block.kvPairs := SortPairs(block.kvPairs);
      hash := block.WriteOut(store);
    }

    /** The loop of `compact` that merges the blocks of L0, oldest first. */
    method MergeL0(hs: seq<BlockHeader>) returns (sortedLv0: seq<BlockHeader>)
      requires blocksize >= 1 && store.Valid() && hs != [] && HeadersOk(store.files, hs)
      requires forall i :: 0 <= i < |hs| ==> BlockOk(blocksize, RunOf(store.files, hs)[i])
      modifies store
      ensures store.Valid() && Extends(old(store.files), store.files) && HeadersOk(store.files, sortedLv0)
      ensures RunOf(store.files, sortedLv0) == MergeAll(blocksize, RunOf(old(store.files), hs))
    {
      hide BlockOk, HeaderOk, RunOf, MergeRuns, MergeAll, Extends, CapsuleStore.Valid, RunOk, HeadersOk, LabelsOk;
      ghost var run := RunOf(store.files, hs);
      ExtendsReflexive(store.files);
      sortedLv0 := [hs[0]];
      OneHeader(store.files, hs, 0);
      MergeAllStep(blocksize, run, 1);
      for i := 1 to |hs|
        invariant store.Valid() && Extends(old(store.files), store.files) && HeadersOk(store.files, sortedLv0)
        invariant RunOf(store.files, sortedLv0) == MergeAll(blocksize, run[..i])
      {
        var currBlock := [hs[i]];
        ghost var was := store.files;
        ExtendsKeeps(old(store.files), was, 0, hs);
        OneHeader(was, hs, i);
        MergeAllOk(blocksize, run[..i]);
        MergeAllStep(blocksize, run, i + 1);
        ShortRunOk(blocksize, [run[i]]);
        sortedLv0 := Merge(sortedLv0, currBlock, 0);
        ExtendsTransitive(old(store.files), was, store.files);
      }
      assert run[..|hs|] == run;
    }

    /** `compact`: when L0 is full, merges its blocks and pushes them into L1. */
    method Compact()
      requires Represents() && Appended(blocksize, tree)
      modifies this, levels, store
      ensures Valid() && Extends(old(store.files), store.files)
      ensures forall l :: l in levels ==> l in old(levels) || fresh(l)
      ensures tree == Compaction.Compact(blocksize, old(tree))
      ensures trace == old(trace) + Under(table.pairs, CompactStates(blocksize, old(tree)))
    {
      hide Cap, BlockOk, HeaderOk, RunOf, MergeAll, RunOk, HeadersOk, LabelsOk, TreeOk, SourceOk, Push, PushStates,
           CompactStates, Compaction.Compact, Level.Bounds, CapsuleStore.Valid, Extends, Lift, Under;
      ExtendsReflexive(store.files);
      CompactOk(blocksize, tree);
      L0Full(blocksize, levels[0].numBlocks);
      if blocksize * levels[0].numBlocks < levels[0].maxSize {
        ShortCompact(blocksize, tree);
        UnderOne(table.pairs, tree);
        return;
      }
      EmptyL0();
    }

    /** Sorts the blocks of L0 and merges them into one list. */
    method GatherL0() returns (sortedLv0: seq<BlockHeader>)
      requires Represents() && tree[0] != [] && forall i :: 0 <= i < |tree[0]| ==> BlockOk(blocksize, tree[0][i])
      modifies levels[0], store
      ensures Represents() && Extends(old(store.files), store.files)
      ensures levels == old(levels) && tree == old(tree) && trace == old(trace)
      ensures HeadersOk(store.files, sortedLv0) && RunOf(store.files, sortedLv0) == MergeAll(blocksize, tree[0])
    {
      hide Cap, BlockOk, HeaderOk, RunOf, MergeAll, HeadersOk, LabelsOk, Level.Bounds, CapsuleStore.Valid, Extends;
      SortL0();
      ghost var sortedFiles := store.files;
      sortedLv0 := MergeL0(levels[0].recordHashes);
      StoreGrew(sortedFiles);
      ExtendsTransitive(old(store.files), sortedFiles, store.files);
    }

    /** The rest of `compact`, when L0 is full. */
    method EmptyL0()
      requires Represents() && Appended(blocksize, tree) && |tree[0]| == 2
      modifies this, levels, store
      ensures Represents() && Extends(old(store.files), store.files)
      ensures old(levels) <= levels && forall i :: |old(levels)| <= i < |levels| ==> fresh(levels[i])
      ensures tree == Compaction.Compact(blocksize, old(tree))
      ensures trace == old(trace) + Under(table.pairs, CompactStates(blocksize, old(tree)))
    {
      hide Cap, BlockOk, HeaderOk, RunOf, MergeAll, RunOk, HeadersOk, LabelsOk, TreeOk, SourceOk, Push, PushStates,
           CompactStates, Compaction.Compact, Level.Holds, CapsuleIndex.Represents, CapsuleStore.Valid, Extends,
           Lift, Under;
      Counts();
      ghost var t0 := tree;
      CompactSource(blocksize, t0);
      var sortedLv0 := GatherL0();
      hide Appended;
      ghost var merged := store.files;
      ghost var steps, lower := PushIntoL1(sortedLv0);
      ExtendsTransitive(old(store.files), merged, store.files);
      Counts();
      NoHeaders(store.files, 0, blocksize);
      SetLevel(0, []);
      UnderSteps(old(trace), table.pairs, steps, lower, tree);
      CompactDone(blocksize, t0, tree, steps + lower + [tree]);
    }

    /** Adds L1 if there is none, and pushes the list into it. */
    method PushIntoL1(source: seq<BlockHeader>) returns (ghost steps: seq<Tree>, ghost lower: seq<Tree>)
      requires Represents() && TreeOk(blocksize, Below(tree), 1)
      requires HeadersOk(store.files, source) && SourceOk(blocksize, RunOf(store.files, source), 1)
      modifies this, levels, store
      ensures Represents() && Extends(old(store.files), store.files)
      ensures old(levels) <= levels && forall i :: |old(levels)| <= i < |levels| ==> fresh(levels[i])
      ensures var t0, s := old(tree), RunOf(old(store.files), source);
              var grown := if |t0| == 1 then t0 + [[]] else t0;
              && tree == grown[..1] + Push(blocksize, Below(t0), s, 1)
              && steps == (if |t0| == 1 then [grown] else [])
              && lower == Lift(grown[..1], PushStates(blocksize, Below(t0), s, 1))
      ensures trace == old(trace) + Under(table.pairs, steps) + Under(table.pairs, lower)
    {
      hide RunOf, HeadersOk, TreeOk, SourceOk, Push, PushStates, Level.Holds, CapsuleIndex.Represents, Extends, Lift,
           Under;
      Counts();
      LevelAt(0);
      steps := AddNextLevel(levels[0]);
      Counts();
      assert tree[1..] == Below(old(tree));
      lower := Lift(tree[..1], PushStates(blocksize, tree[1..], RunOf(store.files, source), 1));
      CompactHelper(source, 1);
    }

    // ----- the interface of the index -----

    /** Name of the block of one level that may hold `key`. */
    method GetBlock(level: int, key: Key) returns (hash: BlockName)
      requires Represents()
      ensures level < 0 || level >= |tree| ==> hash == BadLevel
      ensures 0 <= level < |tree| ==>
                var j := FirstMatch(tree[level], key);
                if j == |tree[level]| then hash == Absent
                else hash in store.files && hash.Name? && store.files[hash].kvpairs == tree[level][j]
    {
      hide FirstMatch, HeaderOk, Cap, LabelsOk;
      if level < 0 || level >= numLevels {
        return BadLevel;
      }
      hash := levels[level].GetBlock(key, store.files, level, blocksize, tree[level]);
      ghost var j := FirstMatch(tree[level], key);
      if j < |tree[level]| {
        HeaderNamed(store.files, levels[level].recordHashes, j);
      }
    }

    method GetNumLevels() returns (n: int)
      requires Represents()
      ensures n == |tree|
    {
      n := numLevels;
    }

    /** Records a written block on a level, then compacts. */
    method AddHash(level: int, hash: BlockName, block: CapsuleBlock) returns (status: int)
      requires Valid() && HeaderOk(store.files, BlockHeader(hash, block.startKey, block.endKey))
      requires BlockOk(blocksize, store.files[hash].kvpairs)
      requires 0 <= level < |tree| ==> store.files[hash].level == level
      modifies this, levels, store
      ensures Valid() && Extends(old(store.files), store.files)
      ensures forall l :: l in levels ==> l in old(levels) || fresh(l)
      ensures level < 0 || level >= |old(tree)| ==> status == -1 && tree == old(tree) && trace == old(trace)
      ensures 0 <= level < |old(tree)| ==>
                var t := Compaction.AddBlock(old(tree), level, old(store.files)[hash].kvpairs);
                && status == (if level == 0 || old(tree)[level] == [] then 0 else -1)
                && Appended(blocksize, t)
                && tree == Compaction.Compact(blocksize, t)
                && trace == old(trace)
                            + Under(table.pairs, (if status == 0 then [t] else []) + CompactStates(blocksize, t))
    {
      hide Cap, BlockOk, RunOf, RunOk, HeadersOk, LabelsOk, TreeOk, CompactStates, Compaction.Compact, BoundsOf,
           CapsuleStore.Valid, Extends, Under, Level.Holds, Compaction.AddBlock, Appended;
      ExtendsReflexive(store.files);
      if level < 0 || level >= numLevels {
        return -1;
      }
      AddBlockAppends(blocksize, tree, level, store.files[hash].kvpairs);
      status := Attach(level, hash, block);
      ghost var steps := if status == 0 then [tree] else [];
      UnderOne(table.pairs, tree);
      UnderConcat(table.pairs, steps, CompactStates(blocksize, tree));
      Compact();
    }

    /** Hands the block to its level, which may refuse it. */
    method Attach(level: int, hash: BlockName, block: CapsuleBlock) returns (status: int)
      requires Represents() && HeaderOk(store.files, BlockHeader(hash, block.startKey, block.endKey))
      requires 0 <= level < |tree| && store.files[hash].level == level
      modifies this`tree, this`trace, levels[level]
      ensures Represents() && status == if level == 0 || old(tree)[level] == [] then 0 else -1
      ensures tree == Compaction.AddBlock(old(tree), level, store.files[hash].kvpairs)
      ensures trace == old(trace) + if status == 0 then [Db(table.pairs, tree)] else []
    {
      hide Cap, RunOf, HeadersOk, LabelsOk, BoundsOf, CapsuleStore.Valid;
      status := levels[level].AddBlock(block, hash, store.files, level, blocksize, tree[level]);
      if status == 0 {
        tree := tree[level := tree[level] + [store.files[hash].kvpairs]];
        Record();
      }
    }
  }

  lemma HeaderNamed(files: Files, hs: seq<BlockHeader>, i: nat)
    requires HeadersOk(files, hs) && i < |hs|
    ensures hs[i].hash in files && hs[i].hash.Name? && files[hs[i].hash].kvpairs == RunOf(files, hs)[i]
  {
    assert hs[i] in hs;
  }

  lemma HeaderIn(files: Files, hs: seq<BlockHeader>, i: nat)
    requires HeadersOk(files, hs) && i < |hs|
    ensures HeaderOk(files, hs[i]) && PairsOf(files, hs[i]) == RunOf(files, hs)[i]
  {
    assert hs[i] in hs;
  }

  lemma LabelIn(files: Files, level: int, hs: seq<BlockHeader>, i: nat)
    requires LabelsOk(files, level, hs) && i < |hs|
    ensures hs[i].hash in files && files[hs[i].hash].level == level
  {
    assert hs[i] in hs;
  }

  lemma OneHeader(files: Files, hs: seq<BlockHeader>, i: nat)
    requires HeadersOk(files, hs) && i < |hs|
    ensures HeadersOk(files, [hs[i]]) && RunOf(files, [hs[i]]) == [RunOf(files, hs)[i]]
  {
  }

  lemma NoHeaders(files: Files, level: int, bs: nat)
    ensures HeadersOk(files, []) && LabelsOk(files, level, []) && RunOf(files, []) == [] && RunOk(bs, [])
  {
  }

  lemma MergeAllStep(bs: nat, run: Run, i: nat)
    requires bs >= 1 && 1 <= i <= |run|
    ensures MergeAll(bs, run[..i])
         == if i == 1 then [run[0]] else MergeRuns(bs, MergeAll(bs, run[..i - 1]), [run[i - 1]])
  {
    assert run[..i][..i - 1] == run[..i - 1];
  }

  lemma {:induction false} MergeAllOk(bs: nat, run: Run)
    requires bs >= 1 && run != [] && forall i :: 0 <= i < |run| ==> BlockOk(bs, run[i])
    ensures RunOk(bs, MergeAll(bs, run)) && MergeAll(bs, run) != []
  {
    if |run| > 1 {
      MergeAllOk(bs, run[..|run| - 1]);
      ShortRunOk(bs, [run[|run| - 1]]);
      MergeRunsOk(bs, MergeAll(bs, run[..|run| - 1]), [run[|run| - 1]]);
    }
  }

  lemma L0Full(bs: nat, n: int)
    requires bs >= 1
    ensures Cap(0) == 2 && (bs * n < bs * 2 <==> n < 2)
  {
    if n >= 2 {
      assert bs * n >= bs * 2;
    } else {
      assert bs * n <= bs * 1;
    }
  }

  lemma CompactDone(bs: nat, t0: Tree, tree: Tree, steps: seq<Tree>)
    requires bs >= 1 && Appended(bs, t0) && |t0[0]| == 2
    requires TreeOk(bs, Below(t0), 1) && SourceOk(bs, MergeAll(bs, t0[0]), 1)
    requires var s := MergeAll(bs, t0[0]);
             var grown := if |t0| == 1 then t0 + [[]] else t0;
             && tree == (grown[..1] + Push(bs, Below(t0), s, 1))[0 := []]
             && steps == (if |t0| == 1 then [grown] else [])
                         + Lift(grown[..1], PushStates(bs, Below(t0), s, 1)) + [tree]
    ensures tree == Compaction.Compact(bs, t0) && steps == CompactStates(bs, t0)
  {
    hide TreeOk, SourceOk, Push, PushStates, MergeAll, Lift;
    var grown := if |t0| == 1 then t0 + [[]] else t0;
    assert grown[..1] == [t0[0]];
    assert tree == [[]] + Push(bs, Below(t0), MergeAll(bs, t0[0]), 1);
  }

  /** What the overflow branch leaves: level `d` cut down to the remaining blocks over the levels
      below after the recursive push, reached through the states of `PushStates` but the last. */
  ghost predicate MovedDown(bs: nat, upper: Tree, t: Tree, s: Run, d: nat, tree: Tree, steps: seq<Tree>)
    requires bs >= 1 && t != [] && TreeOk(bs, t, d) && SourceOk(bs, s, d) && |s| + |t[0]| >= Cap(d)
  {
    OverflowEvicts(bs, t, s, d);
    var e := Evict(s, t[0]);
    var below := Push(bs, Below(t), e.evicted, d + 1);
    && tree == upper + ([e.remaining] + below)
    && steps == Lift(upper, (if |t| == 1 then [t + [[]]] else [])
                            + Lift([t[0]], PushStates(bs, Below(t), e.evicted, d + 1))
                            + [[e.remaining] + below])
  }

  lemma LiftTwice(upper: Tree, head: Tree, ss: seq<Tree>)
    ensures Lift(upper, Lift(head, ss)) == Lift(upper + head, ss)
  {
    forall i | 0 <= i < |ss|
      ensures upper + (head + ss[i]) == upper + head + ss[i]
    {
    }
  }

  lemma LiftConcat(upper: Tree, a: seq<Tree>, b: seq<Tree>)
    ensures Lift(upper, a + b) == Lift(upper, a) + Lift(upper, b)
  {
  }

  lemma LiftOne(upper: Tree, t: Tree)
    ensures Lift(upper, [t]) == [upper + t] && Lift(upper, []) == []
  {
  }

  lemma MovedDownIntro(bs: nat, t0: Tree, s: Run, d: nat, tree: Tree, steps: seq<Tree>)
    requires bs >= 1 && d < |t0| && TreeOk(bs, t0[d..], d) && SourceOk(bs, s, d) && |s| + |t0[d]| >= Cap(d)
    requires TreeOk(bs, Below(t0[d..]), d + 1) && |s| <= |t0[d]| && SourceOk(bs, Evict(s, t0[d]).evicted, d + 1)
    requires var t := t0[d..];
             var e := Evict(s, t[0]);
             var grown := if |t| == 1 then t0 + [[]] else t0;
             var pushed := grown[..d + 1] + Push(bs, Below(t), e.evicted, d + 1);
             && tree == pushed[d := e.remaining]
             && steps == (if |t| == 1 then [grown] else [])
                         + Lift(grown[..d + 1], PushStates(bs, Below(t), e.evicted, d + 1)) + [tree]
    ensures MovedDown(bs, t0[..d], t0[d..], s, d, tree, steps)
  {
    hide TreeOk, SourceOk, Push, PushStates, Evict, Lift, Cap;
    var t, upper := t0[d..], t0[..d];
    var e := Evict(s, t[0]);
    var inner := PushStates(bs, Below(t), e.evicted, d + 1);
    var below := Push(bs, Below(t), e.evicted, d + 1);
    var grown := if |t| == 1 then t0 + [[]] else t0;
    assert grown[..d + 1] == upper + [t[0]];
    assert tree == upper + ([e.remaining] + below);
    var first := if |t| == 1 then [t + [[]]] else [];
    assert Lift(upper, first) == if |t| == 1 then [grown] else [] by {
      LiftOne(upper, t + [[]]);
      if |t| == 1 {
        assert grown == upper + (t + [[]]);
      }
    }
    LiftThree(upper, first, [t[0]], inner, [e.remaining] + below);
  }

  lemma LiftThree(upper: Tree, first: seq<Tree>, head: Tree, inner: seq<Tree>, last: Tree)
    ensures Lift(upper, first + Lift(head, inner) + [last])
         == Lift(upper, first) + Lift(upper + head, inner) + [upper + last]
  {
    hide Lift;
    LiftTwice(upper, head, inner);
    LiftConcat(upper, first + Lift(head, inner), [last]);
    LiftConcat(upper, first, Lift(head, inner));
    LiftOne(upper, last);
  }

  /** Merging the source into the cut-down level completes the push. */
  lemma MovedDownMerge(bs: nat, upper: Tree, t: Tree, s: Run, d: nat, tree: Tree, steps: seq<Tree>)
    requires bs >= 1 && t != [] && TreeOk(bs, t, d) && SourceOk(bs, s, d) && |s| + |t[0]| >= Cap(d) && |upper| == d
    requires MovedDown(bs, upper, t, s, d, tree, steps)
    ensures d < |tree| && RunOk(bs, tree[d])
    ensures var r := tree[d := MergeRuns(bs, s, tree[d])];
            r == upper + Push(bs, t, s, d) && steps + [r] == Lift(upper, PushStates(bs, t, s, d))
  {
    hide TreeOk, SourceOk, Evict, Lift, Cap, RunOk, MergeRuns, Push, PushStates;
    OverflowUnfold(bs, t, s, d);
    var e := Evict(s, t[0]);
    var below := Push(bs, Below(t), e.evicted, d + 1);
    var last := [MergeRuns(bs, s, e.remaining)] + below;
    assert tree[d] == e.remaining;
    assert tree[d := MergeRuns(bs, s, tree[d])] == upper + last;
    var states := (if |t| == 1 then [t + [[]]] else [])
                  + Lift([t[0]], PushStates(bs, Below(t), e.evicted, d + 1)) + [[e.remaining] + below];
    LiftConcat(upper, states, [last]);
    LiftOne(upper, last);
  }

  lemma MergeOnly(bs: nat, t0: Tree, s: Run, d: nat)
    requires bs >= 1 && d < |t0| && TreeOk(bs, t0[d..], d) && SourceOk(bs, s, d) && |s| + |t0[d]| < Cap(d)
    ensures var r := t0[d := MergeRuns(bs, s, t0[d])];
            && r == t0[..d] + Push(bs, t0[d..], s, d)
            && [r] == Lift(t0[..d], PushStates(bs, t0[d..], s, d))
  {
    hide TreeOk, SourceOk, Lift, Cap, RunOk, MergeRuns;
    LiftOne(t0[..d], [MergeRuns(bs, s, t0[d])] + t0[d..][1..]);
    assert t0[d := MergeRuns(bs, s, t0[d])] == t0[..d] + ([MergeRuns(bs, s, t0[d])] + t0[d..][1..]);
  }

  lemma OverflowTest(bs: nat, a: nat, b: nat, cap: nat)
    requires bs >= 1
    ensures bs * a + bs * b >= bs * cap <==> a + b >= cap
  {
    assert bs * a + bs * b == bs * (a + b);
    if a + b >= cap {
      assert bs * (a + b) >= bs * cap;
    } else {
      assert bs * cap >= bs * (a + b + 1) == bs * (a + b) + bs;
    }
  }

  lemma CapNext(bs: nat, d: nat)
    ensures bs * Cap(d) * 10 == bs * Cap(d + 1)
  {
    assert Cap(d + 1) == 10 * Cap(d);
  }

  lemma HeadOk(bs: nat, t: Tree, s: Run, d: nat)
    requires t != [] && TreeOk(bs, t, d) && SourceOk(bs, s, d)
    ensures RunOk(bs, t[0]) && |t[0]| < Cap(d) && RunOk(bs, s) && s != []
    ensures |s| + |t[0]| >= Cap(d) ==> |s| <= |t[0]|
  {
    assert |t[0]| < Cap(d + 0);
  }

  lemma HeadersSubset(files: Files, level: int, hs: seq<BlockHeader>, part: seq<BlockHeader>)
    requires HeadersOk(files, hs) && LabelsOk(files, level, hs) && forall h :: h in part ==> h in hs
    ensures HeadersOk(files, part) && LabelsOk(files, level, part)
  {
  }

  // ----- the selection loop, step by step -----

  function Joined(newSource: Run, remaining: Run, rest: Split): Split {
    Split(newSource + rest.evicted, remaining + rest.remaining)
  }

  lemma JoinedEmpty(s: Split)
    ensures Joined([], [], s) == s
  {
  }

  lemma JoinTaken(files: Files, newSource: seq<BlockHeader>, remaining: seq<BlockHeader>,
                  dest: seq<BlockHeader>, lo: nat, hi: nat, rest: Split)
    requires lo <= hi <= |dest|
    ensures Joined(RunOf(files, newSource + dest[lo..hi]), RunOf(files, remaining), rest)
         == Joined(RunOf(files, newSource), RunOf(files, remaining), Joined(RunOf(files, dest)[lo..hi], [], rest))
  {
    RunOfConcat(files, newSource, dest[lo..hi]);
    RunOfSlice(files, dest, lo, hi);
  }

  lemma JoinKept(files: Files, newSource: seq<BlockHeader>, remaining: seq<BlockHeader>,
                 dest: seq<BlockHeader>, j: nat, rest: Split)
    requires j < |dest|
    ensures Joined(RunOf(files, newSource), RunOf(files, remaining + [dest[j]]), rest)
         == Joined(RunOf(files, newSource), RunOf(files, remaining), Joined([], [RunOf(files, dest)[j]], rest))
  {
    RunOfConcat(files, remaining, [dest[j]]);
    assert RunOf(files, [dest[j]]) == [RunOf(files, dest)[j]];
  }

  lemma JoinRest(files: Files, newSource: seq<BlockHeader>, remaining: seq<BlockHeader>, dest: seq<BlockHeader>, j: nat)
    requires j <= |dest|
    ensures Split(RunOf(files, newSource), RunOf(files, remaining + dest[j..]))
         == Joined(RunOf(files, newSource), RunOf(files, remaining), Split([], RunOf(files, dest)[j..]))
  {
    RunOfConcat(files, remaining, dest[j..]);
    RunOfSlice(files, dest, j, |dest|);
    assert dest[j..] == dest[j..|dest|];
  }

  lemma SelectStep(s: Run, d: Run, i: nat, j: nat)
    requires i < |s| && j < |d|
    ensures var n := EndingBelow(d[j..], MaxKey(s[i]));
            Select(s[i..], d[j..]) ==
            (if Less(MinKey(d[j]), MinKey(s[i])) && Less(MaxKey(d[j]), MinKey(s[i]))
             then Joined(d[j..j + n], [], Select(s[i + 1..], d[j + n..]))
             else Joined([], [d[j]], Select(s[i..], d[j + 1..])))
  {
    hide Less, MinKey, MaxKey, EndingBelow;
    var n := EndingBelow(d[j..], MaxKey(s[i]));
    assert s[i..][1..] == s[i + 1..] && d[j..][1..] == d[j + 1..] && d[j..][n..] == d[j + n..];
    assert d[j..][..n] == d[j..j + n];
  }

  lemma SelectEnd(s: Run, d: Run, i: nat, j: nat)
    requires i <= |s| && j <= |d| && (i == |s| || j == |d|)
    ensures Select(s[i..], d[j..]) == Split([], d[j..])
  {
  }

  lemma EndingBelowStep(d: Run, j: nat, k: Key)
    requires j < |d|
    ensures EndingBelow(d[j..], k) == if Less(MaxKey(d[j]), k) then 1 + EndingBelow(d[j + 1..], k) else 0
  {
    assert d[j..][1..] == d[j + 1..];
  }

  lemma EndingBelowStop(d: Run, j: nat, k: Key)
    requires j <= |d| && (j < |d| ==> !Less(MaxKey(d[j]), k))
    ensures EndingBelow(d[j..], k) == 0
  {
  }

  // ----- sorting headers -----

  function InsertHeader(h: BlockHeader, hs: seq<BlockHeader>): (r: seq<BlockHeader>)
    ensures forall x :: x in r <==> x == h || x in hs
  {
    if hs == [] || !Less(hs[0].minKey, h.minKey) then [h] + hs
    else [hs[0]] + InsertHeader(h, hs[1..])
  }

  /** `std::sort` of headers by `compareHeaders`. */
  function SortHeaders(hs: seq<BlockHeader>): (r: seq<BlockHeader>)
    ensures forall x :: x in r <==> x in hs
  {
    if hs == [] then [] else InsertHeader(hs[0], SortHeaders(hs[1..]))
  }

  /** Pointing one header at an equal block changes nothing. */
  lemma Rehash(was: Files, now: Files, hs: seq<BlockHeader>, level: int, i: nat, hash: BlockName)
    requires HeadersOk(was, hs) && LabelsOk(was, level, hs) && Extends(was, now) && i < |hs|
    requires HeaderOk(now, hs[i].(hash := hash)) && now[hash].level == level
    requires PairsOf(now, hs[i].(hash := hash)) == PairsOf(was, hs[i])
    ensures var r := hs[i := hs[i].(hash := hash)];
            HeadersOk(now, r) && LabelsOk(now, level, r) && RunOf(now, r) == RunOf(was, hs)
  {
    hide PairsOf;
    var r := hs[i := hs[i].(hash := hash)];
    ExtendsKeeps(was, now, level, hs);
    assert forall j :: 0 <= j < |hs| && j != i ==> r[j] == hs[j] && hs[j] in hs;
    assert RunOf(now, r) == RunOf(now, hs);
  }

  /** The recorded range of a well-formed block covers its keys. */
  lemma BlockCovered(bs: nat, b: Block)
    requires BlockOk(bs, b)
    ensures forall p :: p in b ==> Covers(KeyRange(MinKey(b), MaxKey(b)), p.key)
  {
    forall p | p in b
      ensures Covers(KeyRange(MinKey(b), MaxKey(b)), p.key)
    {
      var i :| 0 <= i < |b| && b[i] == p;
      FindSorted(b, i);
      FindInRange(b, p.key);
    }
  }

  lemma RunOfCons(files: Files, h: BlockHeader, hs: seq<BlockHeader>)
    ensures RunOf(files, [h] + hs) == [PairsOf(files, h)] + RunOf(files, hs)
  {
  }

  lemma HeaderMinKey(files: Files, h: BlockHeader)
    requires HeaderOk(files, h)
    ensures MinKey(PairsOf(files, h)) == h.minKey
  {
  }

  lemma {:induction false} InsertHeaderRun(files: Files, h: BlockHeader, hs: seq<BlockHeader>)
    requires HeaderOk(files, h) && HeadersOk(files, hs)
    ensures RunOf(files, InsertHeader(h, hs)) == InsertBlock(PairsOf(files, h), RunOf(files, hs))
  {
    hide Less, HeaderOk, PairsOf, RunOf, MinKey;
    HeaderMinKey(files, h);
    if hs == [] || !Less(hs[0].minKey, h.minKey) {
      RunOfCons(files, h, hs);
      if hs != [] {
        assert hs[0] in hs;
        HeaderMinKey(files, hs[0]);
      }
    } else {
      assert hs[0] in hs;
      HeaderMinKey(files, hs[0]);
      InsertHeaderRun(files, h, hs[1..]);
      RunOfCons(files, hs[0], InsertHeader(h, hs[1..]));
      RunOfCons(files, hs[0], hs[1..]);
      assert hs == [hs[0]] + hs[1..];
      assert RunOf(files, hs)[1..] == RunOf(files, hs[1..]);
    }
  }

  /** Sorting the headers sorts their blocks. */
  lemma {:induction false} SortHeadersRun(files: Files, hs: seq<BlockHeader>)
    requires HeadersOk(files, hs)
    ensures RunOf(files, SortHeaders(hs)) == SortBlocks(RunOf(files, hs))
  {
    if hs != [] {
      SortHeadersRun(files, hs[1..]);
      assert hs[0] in hs;
      InsertHeaderRun(files, hs[0], SortHeaders(hs[1..]));
      assert RunOf(files, hs)[1..] == RunOf(files, hs[1..]);
    }
  }
}
