/** Which blocks of an overflowing level are evicted: the two-cursor selection of
    `CapsuleIndex::compactHelper`, its top-up, and the re-sort. */
module Eviction {
  import opened Wrappers
  import opened Keys
  import opened Runs

  /** Evicted blocks, and the blocks that stay. */
  datatype Split = Split(evicted: Run, remaining: Run)

  /** The inner loop: how many leading blocks of `dest` end below `k`. */
  function EndingBelow(dest: Run, k: Key): (n: nat)
    ensures n <= |dest|
  {
    if dest == [] || !Less(MaxKey(dest[0]), k) then 0 else 1 + EndingBelow(dest[1..], k)
  }

  /** The two-cursor loop. A destination block is taken when it lies below the current source
      block; a destination block met while none is being taken stays. */
  function Select(source: Run, dest: Run): (r: Split)
    ensures |r.evicted| + |r.remaining| == |dest|
    decreases |source| + |dest|
  {
    if source == [] || dest == [] then Split([], dest)
    else if Less(MinKey(dest[0]), MinKey(source[0])) && Less(MaxKey(dest[0]), MinKey(source[0])) then
      var n := EndingBelow(dest, MaxKey(source[0]));
      var r := Select(source[1..], dest[n..]);
      Split(dest[..n] + r.evicted, r.remaining)
    else
      var r := Select(source, dest[1..]);
      Split(r.evicted, [dest[0]] + r.remaining)
  }

  /** `std::sort` with `compareHeaders`: by first key. */
  function InsertBlock(b: Block, run: Run): (r: Run)
    ensures multiset(r) == multiset([b] + run)
    ensures |r| == |run| + 1
  {
    if run == [] || !Less(MinKey(run[0]), MinKey(b)) then [b] + run
    else
      assert run == [run[0]] + run[1..];
      [run[0]] + InsertBlock(b, run[1..])
  }

  function SortBlocks(run: Run): (r: Run)
    ensures multiset(r) == multiset(run)
    ensures |r| == |run|
  {
    if run == [] then []
    else
      assert run == [run[0]] + run[1..];
      InsertBlock(run[0], SortBlocks(run[1..]))
  }

  /** The first `n` remaining blocks join the evicted ones, which are then sorted. */
  function TopUp(s: Split, n: nat): (r: Split)
    requires n <= |s.remaining|
    ensures |r.evicted| == |s.evicted| + n && |r.remaining| == |s.remaining| - n
  {
    Split(SortBlocks(s.evicted + s.remaining[..n]), s.remaining[n..])
  }

  /** Selection, then a top-up from the front of the remaining blocks until at least as many
      blocks leave the level as enter it. */
  function Evict(source: Run, dest: Run): (r: Split)
    requires |source| <= |dest|
    ensures |r.evicted| + |r.remaining| == |dest|
    ensures |r.evicted| >= |source|
  {
    var s := Select(source, dest);
    if |s.evicted| < |source| then TopUp(s, |source| - |s.evicted|) else s
  }

  /** Every block of the level ends on exactly one side, both sides are ordered runs, no key
      is on both, and each key is found on its side as it was found in the level. */
  ghost predicate IsPartition(bs: nat, dest: Run, s: Split) {
    && multiset(s.evicted) + multiset(s.remaining) == multiset(dest)
    && RunOk(bs, s.evicted)
    && RunOk(bs, s.remaining)
    && forall k :: PartitionAt(dest, s, k)
  }

  ghost predicate PartitionAt(dest: Run, s: Split, k: Key) {
    && FindRun(dest, k) == Or(FindRun(s.evicted, k), FindRun(s.remaining, k))
    && (FindRun(s.evicted, k).None? || FindRun(s.remaining, k).None?)
  }

  // ----- the selection loop -----

  /** Splitting an ordered run in two leaves no key in both parts. */
  lemma CutAt(bs: nat, run: Run, n: nat, k: Key)
    requires RunOk(bs, run) && n <= |run|
    ensures FindRun(run, k) == Or(FindRun(run[..n], k), FindRun(run[n..], k))
    ensures FindRun(run[..n], k).None? || FindRun(run[n..], k).None?
  {
    assert run == run[..n] + run[n..];
    FindRunConcat(run[..n], run[n..], k);
    if FindRun(run[..n], k).Some? && FindRun(run[n..], k).Some? {
      var i := FindRunWitness(run[..n], k);
      var j := FindRunWitness(run[n..], k);
      var b, c := run[i], run[n + j];
      assert BlockOk(bs, b) && BlockOk(bs, c) && Before(b, c);
      FindInRange(b, k);
      FindInRange(c, k);
      RangesDisjoint(b, c, k);
    }
  }

  lemma OrderedMaxes(bs: nat, run: Run, i: nat, j: nat)
    requires RunOk(bs, run) && i < j < |run|
    ensures Less(MaxKey(run[i]), MaxKey(run[j]))
  {
    assert Before(run[i], run[j]) && BlockOk(bs, run[j]);
    RangeOrdered(bs, run[j]);
    LessAtMost(MaxKey(run[i]), MinKey(run[j]), MaxKey(run[j]));
  }

  /** Once a destination block is left in place, so are all that follow it. */
  lemma {:induction false} KeepsRest(bs: nat, source: Run, dest: Run)
    requires RunOk(bs, dest) && source != [] && dest != []
    requires !Less(MaxKey(dest[0]), MinKey(source[0]))
    ensures Select(source, dest) == Split([], dest)
  {
    hide MinKey, MaxKey, Before, BlockOk, LessFrom;
    if |dest| > 1 {
      OrderedMaxes(bs, dest, 0, 1);
      if Less(MaxKey(dest[1]), MinKey(source[0])) {
        Transitive(MaxKey(dest[0]), MaxKey(dest[1]), MinKey(source[0]));
      }
      RunOkSlice(bs, dest, 1, |dest|);
      KeepsRest(bs, source, dest[1..]);
    }
  }

  lemma BelowStart(bs: nat, b: Block, k: Key)
    requires BlockOk(bs, b) && Less(MaxKey(b), k)
    ensures Less(MinKey(b), k)
  {
    RangeOrdered(bs, b);
    AtMostLess(MinKey(b), MaxKey(b), k);
  }

  /** The two-cursor loop always takes the lowest blocks of the level. */
  lemma {:induction false} SelectIsPrefix(bs: nat, source: Run, dest: Run)
    requires RunOk(bs, dest)
    ensures var s := Select(source, dest);
            s.evicted == dest[..|s.evicted|] && s.remaining == dest[|s.evicted|..]
    decreases |source| + |dest|
  {
    hide MinKey, MaxKey, Before, BlockOk, LessFrom;
    if source != [] && dest != [] {
      if Less(MaxKey(dest[0]), MinKey(source[0])) {
        BelowStart(bs, dest[0], MinKey(source[0]));
        var n := EndingBelow(dest, MaxKey(source[0]));
        RunOkSlice(bs, dest, n, |dest|);
        assert dest[n..] == dest[n..|dest|];
        SelectIsPrefix(bs, source[1..], dest[n..]);
      } else {
        KeepsRest(bs, source, dest);
      }
    }
  }

  /** Every block the two-cursor loop takes ends below the end of some source block. */
  lemma {:induction false} SelectTakesBelow(source: Run, dest: Run)
    ensures forall b :: b in Select(source, dest).evicted ==> exists s :: s in source && Less(MaxKey(b), MaxKey(s))
    decreases |source| + |dest|
  {
    hide Less, MinKey, MaxKey;
    if source != [] && dest != [] {
      if Less(MinKey(dest[0]), MinKey(source[0])) && Less(MaxKey(dest[0]), MinKey(source[0])) {
        var n := EndingBelow(dest, MaxKey(source[0]));
        EndingBelowAll(dest, MaxKey(source[0]));
        SelectTakesBelow(source[1..], dest[n..]);
        forall b | b in Select(source, dest).evicted
          ensures exists s :: s in source && Less(MaxKey(b), MaxKey(s))
        {
          if b in dest[..n] {
            assert source[0] in source;
          } else {
            assert b in Select(source[1..], dest[n..]).evicted;
            var s :| s in source[1..] && Less(MaxKey(b), MaxKey(s));
            assert s in source;
          }
        }
      } else {
        SelectTakesBelow(source, dest[1..]);
      }
    }
  }

  lemma {:induction false} EndingBelowAll(dest: Run, k: Key)
    ensures forall i :: 0 <= i < EndingBelow(dest, k) ==> Less(MaxKey(dest[i]), k)
  {
    hide Less, MaxKey;
    if dest != [] && Less(MaxKey(dest[0]), k) {
      EndingBelowAll(dest[1..], k);
    }
  }

  /** Every block that lies wholly below the source is taken. */
  lemma SelectTakesAllBelow(bs: nat, source: Run, dest: Run)
    requires RunOk(bs, source) && RunOk(bs, dest) && source != []
    ensures forall b :: b in Select(source, dest).remaining ==> !Less(MaxKey(b), MinKey(source[0]))
  {
    hide MinKey, MaxKey, LessFrom;
    var s := Select(source, dest);
    SelectIsPrefix(bs, source, dest);
    if dest != [] && Less(MaxKey(dest[0]), MinKey(source[0])) {
      BelowStart(bs, dest[0], MinKey(source[0]));
      var n := EndingBelow(dest, MaxKey(source[0]));
      assert BlockOk(bs, source[0]);
      RangeOrdered(bs, source[0]);
      EndingBelowRest(bs, dest, MaxKey(source[0]));
      forall b | b in s.remaining
        ensures !Less(MaxKey(b), MinKey(source[0]))
      {
        var i :| |s.evicted| <= i < |dest| && dest[i] == b;
        assert n <= |s.evicted|;
        if Less(MaxKey(b), MinKey(source[0])) {
          LessAtMost(MaxKey(b), MinKey(source[0]), MaxKey(source[0]));
        }
      }
    } else if dest != [] {
      KeepsRest(bs, source, dest);
      forall i | 0 <= i < |dest|
        ensures !Less(MaxKey(dest[i]), MinKey(source[0]))
      {
        if i > 0 && Less(MaxKey(dest[i]), MinKey(source[0])) {
          OrderedMaxes(bs, dest, 0, i);
          Transitive(MaxKey(dest[0]), MaxKey(dest[i]), MinKey(source[0]));
        }
      }
    }
  }

  lemma {:induction false} EndingBelowRest(bs: nat, dest: Run, k: Key)
    requires RunOk(bs, dest)
    ensures forall i :: EndingBelow(dest, k) <= i < |dest| ==> !Less(MaxKey(dest[i]), k)
  {
    hide MinKey, MaxKey, Before, BlockOk, LessFrom;
    var n := EndingBelow(dest, k);
    if dest != [] && n > 0 {
      RunOkSlice(bs, dest, 1, |dest|);
      EndingBelowRest(bs, dest[1..], k);
      forall i | n <= i < |dest|
        ensures !Less(MaxKey(dest[i]), k)
      {
        assert dest[1..][i - 1] == dest[i];
      }
    } else {
      forall i | 0 < i < |dest|
        ensures !Less(MaxKey(dest[i]), k)
      {
        OrderedMaxes(bs, dest, 0, i);
        if Less(MaxKey(dest[i]), k) {
          Transitive(MaxKey(dest[0]), MaxKey(dest[i]), k);
        }
      }
    }
  }

  /** Some destination block ends in the gap before source block `j`. */
  ghost predicate EndsInGap(source: Run, dest: Run, j: nat)
    requires j < |source|
  {
    exists i :: 0 <= i < |dest| && InGap(source, dest[i], j)
  }

  ghost predicate InGap(source: Run, b: Block, j: nat)
    requires j < |source|
  {
    (j > 0 ==> !Less(MaxKey(b), MaxKey(source[j - 1]))) && Less(MaxKey(b), MinKey(source[j]))
  }

  /** `j` is the first source block without a destination block in the gap before it, and the lowest
      `m` destination blocks are those that end below the end of the source blocks before `j`. */
  ghost predicate TakenBefore(source: Run, dest: Run, j: nat, m: nat) {
    && j <= |source|
    && (forall i :: 0 <= i < j ==> EndsInGap(source, dest, i))
    && (j < |source| ==> !EndsInGap(source, dest, j))
    && (if j == 0 then m == 0
        else forall i :: 0 <= i < |dest| ==> (i < m <==> Less(MaxKey(dest[i]), MaxKey(source[j - 1]))))
  }

  /** How many blocks the two-cursor loop takes, said without the loop. */
  lemma {:induction false} SelectExactly(bs: nat, source: Run, dest: Run) returns (j: nat)
    requires RunOk(bs, source) && RunOk(bs, dest)
    ensures TakenBefore(source, dest, j, |Select(source, dest).evicted|)
    decreases |source|
  {
    hide LessFrom, MinKey, MaxKey, Before, BlockOk;
    if source == [] || dest == [] {
      j := 0;
    } else if Less(MaxKey(dest[0]), MinKey(source[0])) {
      BelowStart(bs, dest[0], MinKey(source[0]));
      var n := EndingBelow(dest, MaxKey(source[0]));
      RunOkSlice(bs, source, 1, |source|);
      RunOkSlice(bs, dest, n, |dest|);
      assert source[1..] == source[1..|source|] && dest[n..] == dest[n..|dest|];
      var r := SelectExactly(bs, source[1..], dest[n..]);
      j := r + 1;
      assert InGap(source, dest[0], 0);
      TakenOneMore(bs, source, dest, n, r, |Select(source[1..], dest[n..]).evicted|);
    } else {
      j := 0;
      KeepsRest(bs, source, dest);
      forall i | 0 <= i < |dest|
        ensures !InGap(source, dest[i], 0)
      {
        if i > 0 && Less(MaxKey(dest[i]), MinKey(source[0])) {
          OrderedMaxes(bs, dest, 0, i);
          Transitive(MaxKey(dest[0]), MaxKey(dest[i]), MinKey(source[0]));
        }
      }
    }
  }

  /** From the rest of both lists to the whole of them. */
  lemma TakenOneMore(bs: nat, source: Run, dest: Run, n: nat, j: nat, m: nat)
    requires RunOk(bs, source) && RunOk(bs, dest) && source != [] && n == EndingBelow(dest, MaxKey(source[0]))
    requires TakenBefore(source[1..], dest[n..], j, m) && EndsInGap(source, dest, 0)
    ensures TakenBefore(source, dest, j + 1, n + m)
  {
    hide LessFrom, MinKey, MaxKey, RunOk;
    EndingBelowAll(dest, MaxKey(source[0]));
    EndingBelowRest(bs, dest, MaxKey(source[0]));
    forall i | 0 < i < |source|
      ensures EndsInGap(source, dest, i) <==> EndsInGap(source[1..], dest[n..], i - 1)
    {
      GapShifts(bs, source, dest, n, i);
    }
    forall i | 0 <= i < |dest|
      ensures i < n + m <==> Less(MaxKey(dest[i]), MaxKey(source[j]))
    {
      if j > 0 {
        OrderedMaxes(bs, source, 0, j);
        if i < n {
          Transitive(MaxKey(dest[i]), MaxKey(source[0]), MaxKey(source[j]));
        } else {
          assert dest[n..][i - n] == dest[i] && source[1..][j - 1] == source[j];
        }
      }
    }
  }

  /** A block in a later gap is not among those that end below the end of the first source block. */
  lemma GapShifts(bs: nat, source: Run, dest: Run, n: nat, j: nat)
    requires RunOk(bs, source) && 0 < j < |source| && n <= |dest|
    requires forall i :: 0 <= i < n ==> Less(MaxKey(dest[i]), MaxKey(source[0]))
    requires forall i :: n <= i < |dest| ==> !Less(MaxKey(dest[i]), MaxKey(source[0]))
    ensures EndsInGap(source, dest, j) <==> EndsInGap(source[1..], dest[n..], j - 1)
  {
    hide LessFrom, MinKey, MaxKey, RunOk;
    forall i | 0 <= i < |dest|
      ensures InGap(source, dest[i], j) <==> i >= n && InGap(source[1..], dest[i], j - 1)
    {
      if j > 1 && i < n {
        OrderedMaxes(bs, source, 0, j - 1);
        Transitive(MaxKey(dest[i]), MaxKey(source[0]), MaxKey(source[j - 1]));
      }
    }
    if EndsInGap(source, dest, j) {
      var i :| 0 <= i < |dest| && InGap(source, dest[i], j);
      assert dest[n..][i - n] == dest[i];
    }
    if EndsInGap(source[1..], dest[n..], j - 1) {
      var i :| 0 <= i < |dest[n..]| && InGap(source[1..], dest[n..][i], j - 1);
      assert dest[n..][i] == dest[n + i];
    }
  }

  // ----- the re-sort -----

  /** Blocks in ascending order of their first keys. */
  ghost predicate AscendingBlocks(run: Run) {
    forall i, j :: 0 <= i < j < |run| ==> AtMost(MinKey(run[i]), MinKey(run[j]))
  }

  /** Sorting any list of blocks puts them in ascending order; that it keeps them is in `SortBlocks`. */
  lemma {:induction false} SortBlocksSorts(run: Run)
    ensures AscendingBlocks(SortBlocks(run))
  {
    hide LessFrom, MinKey;
    if run != [] {
      SortBlocksSorts(run[1..]);
      InsertBlockSorts(run[0], SortBlocks(run[1..]));
    }
  }

  lemma {:induction false} InsertBlockSorts(b: Block, run: Run)
    requires AscendingBlocks(run)
    ensures AscendingBlocks(InsertBlock(b, run))
    ensures forall k :: AtMost(k, MinKey(b)) && (run != [] ==> AtMost(k, MinKey(run[0]))) ==>
              AtMost(k, MinKey(InsertBlock(b, run)[0]))
  {
    hide LessFrom, MinKey;
    var r := InsertBlock(b, run);
    Irreflexive(MinKey(b));
    if run == [] || !Less(MinKey(run[0]), MinKey(b)) {
      forall j | 0 < j < |r|
        ensures AtMost(MinKey(b), MinKey(r[j]))
      {
        if j > 1 {
          AtMostTransitive(MinKey(b), MinKey(run[0]), MinKey(run[j - 1]));
        }
      }
    } else {
      InsertBlockSorts(b, run[1..]);
      Asymmetric(MinKey(run[0]), MinKey(b));
      var rest := InsertBlock(b, run[1..]);
      assert AtMost(MinKey(run[0]), MinKey(rest[0]));
      forall j | 0 < j < |r|
        ensures AtMost(MinKey(run[0]), MinKey(r[j]))
      {
        if j > 1 {
          AtMostTransitive(MinKey(run[0]), MinKey(rest[0]), MinKey(rest[j - 1]));
        }
      }
    }
  }

  /** Sorting a run that is in order leaves it as it is. */
  lemma {:induction false} SortIdentity(bs: nat, run: Run)
    requires RunOk(bs, run)
    ensures SortBlocks(run) == run
  {
    hide LessFrom, MinKey, MaxKey;
    if run != [] {
      RunOkSlice(bs, run, 1, |run|);
      SortIdentity(bs, run[1..]);
      if |run| > 1 {
        assert Before(run[0], run[1]) && BlockOk(bs, run[0]);
        RangeOrdered(bs, run[0]);
        AtMostLess(MinKey(run[0]), MaxKey(run[0]), MinKey(run[1]));
        Asymmetric(MinKey(run[0]), MinKey(run[1]));
      }
    }
  }

  // ----- the main results -----

  /** Selection, top-up and re-sort together evict the lowest blocks of the level: those the loop
      takes, or as many as the source has if that is more. */
  lemma EvictIsPrefix(bs: nat, source: Run, dest: Run)
    requires RunOk(bs, dest) && |source| <= |dest|
    ensures var n := |Select(source, dest).evicted|;
            var m := if n < |source| then |source| else n;
            m <= |dest| && Evict(source, dest) == Split(dest[..m], dest[m..])
  {
    hide RunOk, Select, SortBlocks;
    var s := Select(source, dest);
    SelectIsPrefix(bs, source, dest);
    if |s.evicted| < |source| {
      Rejoin(dest, |s.evicted|, |source|);
      RunOkSlice(bs, dest, 0, |source|);
      SortIdentity(bs, dest[0..|source|]);
    }
  }

  lemma Rejoin(run: Run, n: nat, m: nat)
    requires n <= m <= |run|
    ensures run[..n] + run[n..][..m - n] == run[0..m] == run[..m] && run[n..][m - n..] == run[m..]
  {
  }

  /** So eviction splits the level in two without disturbing anything. */
  lemma EvictIsPartition(bs: nat, source: Run, dest: Run)
    requires RunOk(bs, dest) && |source| <= |dest|
    ensures IsPartition(bs, dest, Evict(source, dest))
  {
    hide RunOk, Select, FindRun, Evict;
    EvictIsPrefix(bs, source, dest);
    var m := |Evict(source, dest).evicted|;
    assert dest == dest[..m] + dest[m..] && dest[..m] == dest[0..m] && dest[m..] == dest[m..|dest|];
    RunOkSlice(bs, dest, 0, m);
    RunOkSlice(bs, dest, m, |dest|);
    forall k
      ensures PartitionAt(dest, Evict(source, dest), k)
    {
      CutAt(bs, dest, m, k);
    }
  }
}
