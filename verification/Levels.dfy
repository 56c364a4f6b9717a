/** One level of the index: block headers only, with the key range they span. */
module Levels {
  import opened Keys
  import opened Runs
  import opened Capsule
  import opened Compaction

  class Level {
    var index: int
    var numBlocks: int
    var maxSize: int
    var minKey: Key
    var maxKey: Key
    var recordHashes: seq<BlockHeader>

    constructor (i: int, ms: int)
      ensures index == i && maxSize == ms && numBlocks == 0 && recordHashes == []
      ensures minKey == "" && maxKey == ""
    {
      index := i;
      maxSize := ms;
      numBlocks := 0;
      minKey := "";
      maxKey := "";
      recordHashes := [];
    }

    /** `minKey` and `maxKey` are the true span of the level. */
    ghost predicate Bounds()
      reads this
    {
      BoundsOf(recordHashes, minKey, maxKey)
    }

    /** This is level `i` of an index with block size `bs`, and `run` is its data. */
    ghost predicate Holds(files: Files, i: nat, bs: nat, run: Run)
      reads this
    {
      && index == i && maxSize == bs * Cap(i)
      && numBlocks == |recordHashes|
      && HeadersOk(files, recordHashes)
      && LabelsOk(files, i, recordHashes)
      && RunOf(files, recordHashes) == run
      && Bounds()
    }

    /** Appends a block to L0, or to an empty level; any other level refuses it. */
    method AddBlock(newBlock: CapsuleBlock, hash: BlockName,
                    ghost files: Files, ghost i: nat, ghost bs: nat, ghost run: Run)
      returns (status: int)
      requires Holds(files, i, bs, run)
      requires HeaderOk(files, BlockHeader(hash, newBlock.startKey, newBlock.endKey)) && files[hash].level == i
      modifies this
      ensures status == if i == 0 || run == [] then 0 else -1
      ensures status == 0 ==>
                recordHashes == old(recordHashes) + [BlockHeader(hash, newBlock.startKey, newBlock.endKey)]
      ensures status == 0 ==> Holds(files, i, bs, run + [files[hash].kvpairs])
      ensures status != 0 ==> Holds(files, i, bs, run) && recordHashes == old(recordHashes)
    {
      hide LessFrom, MinKey, MaxKey, Cap;
      var newMin := newBlock.startKey;
      var newMax := newBlock.endKey;
      var bh := BlockHeader(hash, newMin, newMax);
      RunOfConcat(files, recordHashes, [bh]);
      assert RunOf(files, [bh]) == [files[hash].kvpairs];
      Irreflexive(newMin);
      Irreflexive(newMax);
      assert recordHashes != [] ==> minKey != "" && maxKey != "";
      if minKey == "" || maxKey == "" {
        numBlocks := numBlocks + 1;
        minKey := newMin;
        maxKey := newMax;
        recordHashes := recordHashes + [bh];
        assert bh in recordHashes;
        return 0;
      }
      if index == 0 {
        label L:
        recordHashes := recordHashes + [bh];
        numBlocks := numBlocks + 1;
        minKey := Min(minKey, newMin);
        maxKey := Max(maxKey, newMax);
        assert bh in recordHashes;
        assert forall h :: h in old@L(recordHashes) ==> h in recordHashes;
        forall h | h in recordHashes
          ensures AtMost(minKey, h.minKey) && AtMost(h.maxKey, maxKey)
        {
          SpanStep(old@L(minKey), newMin, h.minKey, h == bh);
          SpanStepMax(old@L(maxKey), newMax, h.maxKey, h == bh);
        }
        return 0;
      }
      return -1;
    }

    /** The four assignments with which a compaction replaces the blocks of a level. */
    method Replace(headers: seq<BlockHeader>, ghost files: Files, ghost bs: nat)
      requires index >= 0 && maxSize == bs * Cap(index) && HeadersOk(files, headers) && LabelsOk(files, index, headers)
      requires RunOk(bs, RunOf(files, headers))
      modifies this
      ensures Holds(files, old(index), bs, RunOf(files, headers)) && recordHashes == headers
    {
      if |headers| == 0 {
        recordHashes := [];
        numBlocks := 0;
        minKey := "";
        maxKey := "";
      } else {
        recordHashes := headers;
        numBlocks := |headers|;
        minKey := headers[0].minKey;
        maxKey := headers[|headers| - 1].maxKey;
        SortedSpan(files, bs, headers);
      }
    }

    /** Name of the block that may hold `key`: the first whose range covers it. The test against
        the level's range is only a shortcut. */
    method GetBlock(key: Key, ghost files: Files, ghost i: nat, ghost bs: nat, ghost run: Run) returns (hash: BlockName)
      requires Holds(files, i, bs, run)
      ensures var j := FirstMatch(run, key);
              hash == if j == |run| then Absent else recordHashes[j].hash
    {
      hide LessFrom, FirstMatch, HeadersOk, LabelsOk, Bounds, MinKey, MaxKey, Cap;
      ghost var m := FirstMatch(run, key);
      HeaderKeys(files, recordHashes);
      if Less(key, minKey) || Less(maxKey, key) {
        OutsideSpan(key, run);
        return Absent;
      }
      for j := 0 to numBlocks
        invariant j <= m
      {
        if AtMost(recordHashes[j].minKey, key) && AtMost(key, recordHashes[j].maxKey) {
          return recordHashes[j].hash;
        }
      }
      return Absent;
    }

    /** Later writes do not change what the level holds. */
    lemma HoldsExtends(was: Files, now: Files, i: nat, bs: nat, run: Run)
      requires Holds(was, i, bs, run) && Extends(was, now)
      ensures Holds(now, i, bs, run)
    {
      ExtendsKeeps(was, now, i, recordHashes);
    }

    /** Only the names of the blocks have changed. */
    lemma BoundsRehashed(was: seq<BlockHeader>)
      requires |was| == |recordHashes|
      requires forall i :: 0 <= i < |was| ==>
                 recordHashes[i].minKey == was[i].minKey && recordHashes[i].maxKey == was[i].maxKey
      requires BoundsOf(was, minKey, maxKey)
      ensures Bounds()
    {
      if was != [] {
        var lo :| lo in was && lo.minKey == minKey;
        var hi :| hi in was && hi.maxKey == maxKey;
        var i :| 0 <= i < |was| && was[i] == lo;
        var j :| 0 <= j < |was| && was[j] == hi;
        assert recordHashes[i] in recordHashes && recordHashes[j] in recordHashes;
      }
    }

    lemma OutsideSpan(key: Key, run: Run)
      requires Bounds() && |run| == |recordHashes| && (Less(key, minKey) || Less(maxKey, key))
      requires forall j :: 0 <= j < |run| ==>
          MinKey(run[j]) == recordHashes[j].minKey && MaxKey(run[j]) == recordHashes[j].maxKey
      ensures FirstMatch(run, key) == |run|
    {
      var m := FirstMatch(run, key);
      if m < |run| {
        assert recordHashes[m] in recordHashes;
        if Less(key, minKey) {
          LessAtMost(key, minKey, MinKey(run[m]));
        } else {
          AtMostLess(MaxKey(run[m]), maxKey, key);
        }
      }
    }
  }

  /** The span of no headers is "" and ""; any other is attained and covers them all. */
  ghost predicate BoundsOf(hs: seq<BlockHeader>, lo: Key, hi: Key) {
    if hs == [] then lo == "" && hi == ""
    else
      && (exists h :: h in hs && h.minKey == lo)
      && (exists h :: h in hs && h.maxKey == hi)
      && (forall h :: h in hs ==> AtMost(lo, h.minKey) && AtMost(h.maxKey, hi))
  }

  lemma SpanStep(lo: Key, k: Key, x: Key, isNew: bool)
    requires if isNew then x == k else AtMost(lo, x)
    ensures AtMost(Min(lo, k), x)
  {
    Irreflexive(k);
    if isNew {
      if Less(x, lo) {
        Asymmetric(x, lo);
      }
    } else if Less(k, lo) && Less(x, k) {
      Transitive(x, k, lo);
    }
  }

  lemma SpanStepMax(hi: Key, k: Key, x: Key, isNew: bool)
    requires if isNew then x == k else AtMost(x, hi)
    ensures AtMost(x, Max(hi, k))
  {
    Irreflexive(k);
    if isNew {
      if Less(hi, x) {
        Asymmetric(hi, x);
      }
    } else if Less(hi, k) && Less(k, x) {
      Transitive(hi, k, x);
    }
  }

  /** In an ordered run the first block starts lowest and the last one ends highest. */
  lemma SortedSpan(files: Files, bs: nat, hs: seq<BlockHeader>)
    requires HeadersOk(files, hs) && RunOk(bs, RunOf(files, hs)) && hs != []
    ensures forall h :: h in hs ==> AtMost(hs[0].minKey, h.minKey) && AtMost(h.maxKey, hs[|hs| - 1].maxKey)
  {
    var run := RunOf(files, hs);
    var last := |hs| - 1;
    assert hs[0] in hs && hs[last] in hs;
    forall h | h in hs
      ensures AtMost(hs[0].minKey, h.minKey) && AtMost(h.maxKey, hs[last].maxKey)
    {
      var i :| 0 <= i < |hs| && hs[i] == h;
      Irreflexive(h.minKey);
      Irreflexive(h.maxKey);
      if i > 0 {
        assert BlockOk(bs, run[0]) && Before(run[0], run[i]);
        RangeOrdered(bs, run[0]);
        AtMostLess(MinKey(run[0]), MaxKey(run[0]), MinKey(run[i]));
        Asymmetric(MinKey(run[0]), MinKey(run[i]));
      }
      if i < last {
        assert BlockOk(bs, run[last]) && Before(run[i], run[last]);
        RangeOrdered(bs, run[last]);
        LessAtMost(MaxKey(run[i]), MinKey(run[last]), MaxKey(run[last]));
        Asymmetric(MaxKey(run[i]), MaxKey(run[last]));
      }
    }
  }
}
