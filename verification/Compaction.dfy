/** Compaction as a function on the data of the levels, top level first: what
    `CapsuleIndex::compact` and `compactHelper` make of the index, and every intermediate
    state they pass through. */
module Compaction {
  import opened Wrappers
  import opened Keys
  import opened Payloads
  import opened Runs
  import opened Eviction

  /** The data of the levels, from some level downward. */
  type Tree = seq<Run>

  function Pow10(n: nat): (r: nat)
    ensures r >= 1
  {
    if n == 0 then 1 else 10 * Pow10(n - 1)
  }

  /** Blocks a level may not reach: level i's `maxSize` is `blocksize` times this. */
  function Cap(level: nat): (r: nat)
    ensures r >= 2
  {
    2 * Pow10(level)
  }

  /** `t` holds levels `d`, `d + 1`, ...: each an ordered run below its capacity. */
  ghost predicate TreeOk(bs: nat, t: Tree, d: nat) {
    forall i :: 0 <= i < |t| ==> RunOk(bs, t[i]) && |t[i]| < Cap(d + i)
  }

  /** A list of blocks that may be pushed into level `d`: a tenth of its capacity at most. */
  ghost predicate SourceOk(bs: nat, source: Run, d: nat) {
    RunOk(bs, source) && source != [] && 10 * |source| <= Cap(d)
  }

  /** The levels below the first, with the level that an overflow of the last one adds. */
  function Below(t: Tree): (r: Tree)
    requires t != []
    ensures r != []
  {
    if |t| == 1 then [[]] else t[1..]
  }

  lemma OverflowEvicts(bs: nat, t: Tree, source: Run, d: nat)
    requires t != [] && TreeOk(bs, t, d) && SourceOk(bs, source, d)
    requires |source| + |t[0]| >= Cap(d)
    ensures |source| <= |t[0]|
    ensures var e := Evict(source, t[0]);
            && IsPartition(bs, t[0], e)
            && SourceOk(bs, e.evicted, d + 1)
            && TreeOk(bs, Below(t), d + 1)
            && t[0] != []
            && (|t| == 1 ==> |e.evicted| < Cap(d + 1))
  {
    EvictIsPartition(bs, source, t[0]);
    assert Cap(d + 1) == 10 * Cap(d);
    forall i | 0 <= i < |Below(t)|
      ensures RunOk(bs, Below(t)[i]) && |Below(t)[i]| < Cap(d + 1 + i)
    {
      if |t| > 1 {
        assert Below(t)[i] == t[i + 1];
        assert |t[i + 1]| < Cap(d + (i + 1));
      }
    }
  }

  /** `compactHelper`: merge `source` into level `d`, first moving blocks down if it overflows. */
  function Push(bs: nat, t: Tree, source: Run, d: nat): (r: Tree)
    requires bs >= 1 && t != [] && TreeOk(bs, t, d) && SourceOk(bs, source, d)
    decreases |t|, |t[0]|
  {
    if |source| + |t[0]| < Cap(d) then [MergeRuns(bs, source, t[0])] + t[1..]
    else
      OverflowEvicts(bs, t, source, d);
      var e := Evict(source, t[0]);
      [MergeRuns(bs, source, e.remaining)] + Push(bs, Below(t), e.evicted, d + 1)
  }

  /** `ss` with the levels `upper` in front of every tree. */
  function Lift(upper: Tree, ss: seq<Tree>): (r: seq<Tree>)
    ensures |r| == |ss| && forall i :: 0 <= i < |r| ==> r[i] == upper + ss[i]
  {
    seq(|ss|, i requires 0 <= i < |ss| => upper + ss[i])
  }

  /** Every state `compactHelper` puts the levels from `d` on through, in order: the new last
      level if one is added, the states of the recursive call, level `d` cut down to the
      remaining blocks, and level `d` set to the merge. */
  function PushStates(bs: nat, t: Tree, source: Run, d: nat): (r: seq<Tree>)
    requires bs >= 1 && t != [] && TreeOk(bs, t, d) && SourceOk(bs, source, d)
    decreases |t|, |t[0]|
  {
    if |source| + |t[0]| < Cap(d) then [[MergeRuns(bs, source, t[0])] + t[1..]]
    else
      OverflowEvicts(bs, t, source, d);
      var e := Evict(source, t[0]);
      var below := Push(bs, Below(t), e.evicted, d + 1);
      (if |t| == 1 then [t + [[]]] else [])
      + Lift([t[0]], PushStates(bs, Below(t), e.evicted, d + 1))
      + [[e.remaining] + below, [MergeRuns(bs, source, e.remaining)] + below]
  }

  lemma OverflowUnfold(bs: nat, t: Tree, source: Run, d: nat)
    requires bs >= 1 && t != [] && TreeOk(bs, t, d) && SourceOk(bs, source, d)
    requires |source| + |t[0]| >= Cap(d)
    ensures |source| <= |t[0]|
    ensures var e := Evict(source, t[0]);
            && TreeOk(bs, Below(t), d + 1) && SourceOk(bs, e.evicted, d + 1) && RunOk(bs, e.remaining)
            && var below := Push(bs, Below(t), e.evicted, d + 1);
               var last := [MergeRuns(bs, source, e.remaining)] + below;
               && Push(bs, t, source, d) == last
               && PushStates(bs, t, source, d)
               == (if |t| == 1 then [t + [[]]] else [])
                  + Lift([t[0]], PushStates(bs, Below(t), e.evicted, d + 1))
                  + [[e.remaining] + below] + [last]
  {
    hide RunOk, Evict, MergeRuns, Cap;
    OverflowEvicts(bs, t, source, d);
    var e := Evict(source, t[0]);
    var below := Push(bs, Below(t), e.evicted, d + 1);
    var last := [MergeRuns(bs, source, e.remaining)] + below;
    assert [[e.remaining] + below, last] == [[e.remaining] + below] + [last];
  }

  /** The loop of `compact` that merges the blocks of L0 into one list, oldest first. */
  function MergeAll(bs: nat, run: Run): Run
    requires bs >= 1 && run != []
  {
    if |run| == 1 then run
    else MergeRuns(bs, MergeAll(bs, run[..|run| - 1]), [run[|run| - 1]])
  }

  /** Between the append to L0 and the end of the compaction it triggers: L0 may hold one block
      too many, and its blocks need not be ordered. */
  ghost predicate Appended(bs: nat, t: Tree) {
    && t != [] && |t[0]| <= 2
    && (forall i :: 0 <= i < |t[0]| ==> BlockOk(bs, t[0][i]))
    && TreeOk(bs, t[1..], 1)
  }

  /** `Level::addBlock`: L0 takes any block, a lower level only its first. */
  function AddBlock(t: Tree, level: nat, b: Block): Tree
    requires level < |t|
  {
    if level == 0 || t[level] == [] then t[level := t[level] + [b]] else t
  }

  function Append(t: Tree, b: Block): Tree
    requires t != []
  {
    AddBlock(t, 0, b)
  }

  lemma AddBlockAppends(bs: nat, t: Tree, level: nat, b: Block)
    requires TreeOk(bs, t, 0) && level < |t| && BlockOk(bs, b)
    ensures Appended(bs, AddBlock(t, level, b))
  {
    hide BlockOk, Before;
    var r := AddBlock(t, level, b);
    assert |t[0]| < Cap(0 + 0) == 2;
    forall i | 0 <= i < |r[1..]|
      ensures RunOk(bs, r[1..][i]) && |r[1..][i]| < Cap(1 + i)
    {
      assert r[1..][i] == r[i + 1] && |t[i + 1]| < Cap(0 + (i + 1));
    }
  }

  lemma CompactSource(bs: nat, t: Tree)
    requires bs >= 1 && Appended(bs, t) && |t[0]| == 2
    ensures var s := MergeAll(bs, t[0]);
            s == MergeRuns(bs, [t[0][0]], [t[0][1]]) && SourceOk(bs, s, 1)
    ensures TreeOk(bs, Below(t), 1)
  {
    assert t[0][..1] == [t[0][0]];
    MergeRunsOk(bs, [t[0][0]], [t[0][1]]);
    assert Cap(1) == 2 * (10 * Pow10(0));
  }

  /** `compact`: nothing until L0 is full, then L0 moves down and is emptied. */
  function Compact(bs: nat, t: Tree): Tree
    requires bs >= 1 && Appended(bs, t)
  {
    if |t[0]| < 2 then t
    else
      CompactSource(bs, t);
      [[]] + Push(bs, Below(t), MergeAll(bs, t[0]), 1)
  }

  function CompactStates(bs: nat, t: Tree): seq<Tree>
    requires bs >= 1 && Appended(bs, t)
  {
    if |t[0]| < 2 then []
    else
      CompactSource(bs, t);
      (if |t| == 1 then [t + [[]]] else [])
      + Lift([t[0]], PushStates(bs, Below(t), MergeAll(bs, t[0]), 1))
      + [Compact(bs, t)]
  }

  lemma ShortCompact(bs: nat, t: Tree)
    requires bs >= 1 && Appended(bs, t) && |t[0]| < 2
    ensures Compact(bs, t) == t && CompactStates(bs, t) == []
  {
  }

  // ----- structure, capacity, depth -----

  lemma TreeOkCons(bs: nat, run: Run, below: Tree, d: nat)
    requires RunOk(bs, run) && |run| < Cap(d) && TreeOk(bs, below, d + 1)
    ensures TreeOk(bs, [run] + below, d)
  {
    hide RunOk, Cap;
    var r := [run] + below;
    forall i | 0 <= i < |r|
      ensures RunOk(bs, r[i]) && |r[i]| < Cap(d + i)
    {
      if i > 0 {
        assert r[i] == below[i - 1] && d + 1 + (i - 1) == d + i;
      }
    }
  }

  /** Merging into a level keeps every level an ordered run below its capacity, and adds at
      most one level. */
  lemma {:induction false} PushOk(bs: nat, t: Tree, source: Run, d: nat)
    requires bs >= 1 && t != [] && TreeOk(bs, t, d) && SourceOk(bs, source, d)
    ensures var r := Push(bs, t, source, d);
            TreeOk(bs, r, d) && |t| <= |r| <= |t| + 1
    decreases |t|, |t[0]|
  {
    hide RunOk, Evict, MergeRuns;
    var r := Push(bs, t, source, d);
    if |source| + |t[0]| < Cap(d) {
      MergeRunsOk(bs, source, t[0]);
    } else {
      OverflowEvicts(bs, t, source, d);
      var e := Evict(source, t[0]);
      MergeRunsOk(bs, source, e.remaining);
      PushOk(bs, Below(t), e.evicted, d + 1);
      var below := Push(bs, Below(t), e.evicted, d + 1);
      TreeOkCons(bs, MergeRuns(bs, source, e.remaining), below, d);
      if |t| == 1 {
        FreshLevelFits(bs, e.evicted, d + 1);
      }
    }
  }

  /** A level that was just added cannot overflow, so the recursion ends there. */
  lemma FreshLevelFits(bs: nat, source: Run, d: nat)
    requires bs >= 1 && SourceOk(bs, source, d)
    ensures TreeOk(bs, [[]], d)
    ensures Push(bs, [[]], source, d) == [MergeRuns(bs, source, [])]
  {
    assert |source| < Cap(d);
  }

  lemma ShortRunOk(bs: nat, run: Run)
    requires |run| < 2 && forall i :: 0 <= i < |run| ==> BlockOk(bs, run[i])
    ensures RunOk(bs, run)
  {
  }

  lemma CompactOk(bs: nat, t: Tree)
    requires bs >= 1 && Appended(bs, t)
    ensures var r := Compact(bs, t); TreeOk(bs, r, 0) && |t| <= |r| <= |t| + 1
  {
    hide RunOk, BlockOk, MergeAll, MergeRuns, Cap;
    if |t[0]| < 2 {
      ShortRunOk(bs, t[0]);
      TreeOkCons(bs, t[0], t[1..], 0);
      assert t == [t[0]] + t[1..];
    } else {
      CompactSource(bs, t);
      var s := MergeAll(bs, t[0]);
      PushOk(bs, Below(t), s, 1);
      ShortRunOk(bs, []);
      TreeOkCons(bs, [], Push(bs, Below(t), s, 1), 0);
      if |t| == 1 {
        FreshLevelFits(bs, s, 1);
      }
    }
  }

  function TotalBlocks(t: Tree): nat {
    if t == [] then 0 else |t[0]| + TotalBlocks(t[1..])
  }

  lemma BelowBlocks(t: Tree)
    requires t != []
    ensures TotalBlocks(t) == |t[0]| + TotalBlocks(Below(t))
  {
    if |t| == 1 {
      assert TotalBlocks([[]]) == 0;
    }
  }

  /** Compaction never makes blocks, and a level is added only once the levels above it and the
      source together reach the capacity of the last one. */
  lemma {:induction false} PushBlocks(bs: nat, t: Tree, source: Run, d: nat)
    requires bs >= 1 && t != [] && TreeOk(bs, t, d) && SourceOk(bs, source, d)
    ensures TotalBlocks(Push(bs, t, source, d)) <= |source| + TotalBlocks(t)
    ensures |Push(bs, t, source, d)| > |t| ==> |source| + TotalBlocks(t) >= Cap(d + |t| - 1)
    decreases |t|, |t[0]|
  {
    hide RunOk, Evict, MergeRuns;
    hide Push, PushStates, Lift, IsPartition;
    BelowBlocks(t);
    if |source| + |t[0]| < Cap(d) {
      NoOverflowUnfold(bs, t, source, d);
      var r := Push(bs, t, source, d);
      assert r[1..] == t[1..];
    } else {
      OverflowUnfold(bs, t, source, d);
      var e := Evict(source, t[0]);
      MergeRunsOk(bs, source, e.remaining);
      PushBlocks(bs, Below(t), e.evicted, d + 1);
      var r := Push(bs, t, source, d);
      assert r[1..] == Push(bs, Below(t), e.evicted, d + 1);
      assert |t| > 1 ==> d + 1 + |Below(t)| - 1 == d + |t| - 1;
    }
  }

  lemma NoOverflowUnfold(bs: nat, t: Tree, source: Run, d: nat)
    requires bs >= 1 && t != [] && TreeOk(bs, t, d) && SourceOk(bs, source, d)
    requires |source| + |t[0]| < Cap(d)
    ensures Push(bs, t, source, d) == [MergeRuns(bs, source, t[0])] + t[1..]
    ensures |MergeRuns(bs, source, t[0])| <= |source| + |t[0]|
  {
    hide RunOk, MergeRuns, Cap;
    MergeRunsOk(bs, source, t[0]);
  }

  lemma CompactBlocks(bs: nat, t: Tree)
    requires bs >= 1 && Appended(bs, t)
    ensures TotalBlocks(Compact(bs, t)) <= TotalBlocks(t)
    ensures |Compact(bs, t)| > |t| ==> TotalBlocks(t) >= Cap(|t| - 1)
  {
    BelowBlocks(t);
    if |t[0]| == 2 {
      CompactSource(bs, t);
      var s := MergeAll(bs, t[0]);
      MergeRunsOk(bs, [t[0][0]], [t[0][1]]);
      PushBlocks(bs, Below(t), s, 1);
      assert Compact(bs, t)[1..] == Push(bs, Below(t), s, 1);
      assert |t| > 1 ==> 1 + |Below(t)| - 1 == |t| - 1;
    }
  }

  // ----- what a lookup finds -----

  /** Full scan of the levels, top first. */
  function TreeFind(t: Tree, k: Key): Option<Payload> {
    if t == [] then None else Or(FindRun(t[0], k), TreeFind(t[1..], k))
  }

  lemma BelowFind(t: Tree, k: Key)
    requires t != []
    ensures TreeFind(t, k) == Or(FindRun(t[0], k), TreeFind(Below(t), k))
  {
    if |t| == 1 {
      assert TreeFind([[]], k) == Or(FindRun([], k), TreeFind([], k));
    }
  }

  /** What a push does to one key: at the level itself, and on the way further down. */
  lemma NoOverflowKey(bs: nat, t: Tree, source: Run, d: nat, k: Key)
    requires bs >= 1 && t != [] && TreeOk(bs, t, d) && SourceOk(bs, source, d)
    requires |source| + |t[0]| < Cap(d)
    ensures var r := Push(bs, t, source, d);
            && r != [] && r[1..] == t[1..]
            && FindRun(r[0], k) == Newer(FindRun(source, k), FindRun(t[0], k))
  {
    hide RunOk, MergeRuns, Cap;
    MergeRunsFind(bs, source, t[0], k);
  }

  lemma OverflowKey(bs: nat, t: Tree, source: Run, d: nat, k: Key)
    requires bs >= 1 && t != [] && TreeOk(bs, t, d) && SourceOk(bs, source, d)
    requires |source| + |t[0]| >= Cap(d)
    ensures |source| <= |t[0]|
    ensures var e, r := Evict(source, t[0]), Push(bs, t, source, d);
            && TreeOk(bs, Below(t), d + 1) && SourceOk(bs, e.evicted, d + 1)
            && r != [] && r[1..] == Push(bs, Below(t), e.evicted, d + 1)
            && FindRun(r[0], k) == Newer(FindRun(source, k), FindRun(e.remaining, k))
            && PartitionAt(t[0], e, k)
  {
    hide RunOk, Evict, MergeRuns, Cap, Push, PushStates, Lift, FindRun;
    OverflowUnfold(bs, t, source, d);
    OverflowEvicts(bs, t, source, d);
    assert PartitionAt(t[0], Evict(source, t[0]), k);
    MergeRunsFind(bs, source, Evict(source, t[0]).remaining, k);
  }

  /** Keys are conserved whatever the timestamps: after the push exactly the keys of the source
      and of the levels are found. */
  lemma {:induction false} PushKeys(bs: nat, t: Tree, source: Run, d: nat, k: Key)
    requires bs >= 1 && t != [] && TreeOk(bs, t, d) && SourceOk(bs, source, d)
    ensures TreeFind(Push(bs, t, source, d), k).Some?
       <==> FindRun(source, k).Some? || TreeFind(t, k).Some?
    decreases |t|, |t[0]|
  {
    hide RunOk, SourceOk, Evict, Push, FindRun, Cap;
    BelowFind(t, k);
    if |source| + |t[0]| < Cap(d) {
      NoOverflowKey(bs, t, source, d, k);
    } else {
      OverflowKey(bs, t, source, d, k);
      var e := Evict(source, t[0]);
      PushKeys(bs, Below(t), e.evicted, d + 1, k);
    }
  }

  function OptionSet<T(==)>(o: Option<T>): set<T> {
    if o.Some? then {o.value} else {}
  }

  /** All versions of `k` the levels hold, visible or not. */
  function Versions(t: Tree, k: Key): set<Payload> {
    if t == [] then {} else OptionSet(FindRun(t[0], k)) + Versions(t[1..], k)
  }

  lemma BelowVersions(t: Tree, k: Key)
    requires t != []
    ensures Versions(t, k) == OptionSet(FindRun(t[0], k)) + Versions(Below(t), k)
  {
    if |t| == 1 {
      assert Versions([[]], k) == OptionSet(FindRun([], k)) + Versions([], k);
    }
  }

  lemma {:induction false} VisibleIsVersion(t: Tree, k: Key)
    ensures TreeFind(t, k).Some? ==> TreeFind(t, k).value in Versions(t, k)
  {
    if t != [] {
      VisibleIsVersion(t[1..], k);
    }
  }

  /** No version of a key is invented. */
  lemma {:induction false} PushVersions(bs: nat, t: Tree, source: Run, d: nat, k: Key)
    requires bs >= 1 && t != [] && TreeOk(bs, t, d) && SourceOk(bs, source, d)
    ensures Versions(Push(bs, t, source, d), k) <= OptionSet(FindRun(source, k)) + Versions(t, k)
    decreases |t|, |t[0]|
  {
    hide RunOk, SourceOk, Evict, Push, FindRun, Cap;
    BelowVersions(t, k);
    if |source| + |t[0]| < Cap(d) {
      NoOverflowKey(bs, t, source, d, k);
    } else {
      OverflowKey(bs, t, source, d, k);
      var e := Evict(source, t[0]);
      PushVersions(bs, Below(t), e.evicted, d + 1, k);
    }
  }

  // ----- the answer of a lookup -----

  /** The answer `o` is later than every version in `ws`, or the same payload. */
  ghost predicate Tops(o: Option<Payload>, ws: set<Payload>) {
    forall w :: w in ws ==> o.Some? && (o.value.timestamp > w.timestamp || o.value == w)
  }

  /** If what a lookup finds tops every version that is stored, a push only lays the source over
      the levels. The order of the hidden versions among themselves does not matter. */
  lemma {:induction false} PushFind(bs: nat, t: Tree, source: Run, d: nat, k: Key)
    requires bs >= 1 && t != [] && TreeOk(bs, t, d) && SourceOk(bs, source, d)
    requires Tops(Or(FindRun(source, k), TreeFind(t, k)), Versions(t, k))
    ensures TreeFind(Push(bs, t, source, d), k) == Or(FindRun(source, k), TreeFind(t, k))
    decreases |t|, |t[0]|
  {
    hide RunOk, SourceOk, Evict, Push, FindRun, Cap;
    if |source| + |t[0]| < Cap(d) {
      NoOverflowKey(bs, t, source, d, k);
    } else {
      BelowFind(t, k);
      BelowVersions(t, k);
      OverflowKey(bs, t, source, d, k);
      var e := Evict(source, t[0]);
      if FindRun(source, k).None? && FindRun(e.remaining, k).None? {
        PushFind(bs, Below(t), e.evicted, d + 1, k);
      }
    }
  }

  /** A state of a push that overflows is one of: the levels with a new last one, a state of the
      recursive call below an unchanged level, the level cut down, or the result. */
  lemma PushStateCases(bs: nat, t: Tree, source: Run, d: nat, u: Tree)
    requires bs >= 1 && t != [] && TreeOk(bs, t, d) && SourceOk(bs, source, d)
    requires |source| + |t[0]| >= Cap(d) && u in PushStates(bs, t, source, d)
    ensures |source| <= |t[0]|
    ensures var e := Evict(source, t[0]);
            && TreeOk(bs, Below(t), d + 1) && SourceOk(bs, e.evicted, d + 1) && u != []
            && (|| (u[0] == t[0] && u[1..] == Below(t))
                || (u[0] == t[0] && u[1..] in PushStates(bs, Below(t), e.evicted, d + 1))
                || (u[0] == e.remaining && u[1..] == Push(bs, Below(t), e.evicted, d + 1))
                || u == Push(bs, t, source, d))
  {
    hide RunOk, Evict, MergeRuns, Cap;
    OverflowEvicts(bs, t, source, d);
    var e := Evict(source, t[0]);
    var below := Push(bs, Below(t), e.evicted, d + 1);
    var inner := PushStates(bs, Below(t), e.evicted, d + 1);
    if u in Lift([t[0]], inner) {
      var i :| 0 <= i < |inner| && u == [t[0]] + inner[i];
      assert inner[i] in inner;
      assert u[0] == t[0] && u[1..] == inner[i];
    } else if u == [e.remaining] + below {
      assert u[0] == e.remaining && u[1..] == below;
    } else if u == t + [[]] && |t| == 1 {
      assert u[0] == t[0] && u[1..] == Below(t);
    } else {
      assert u == Push(bs, t, source, d);
    }
  }

  /** No gap: as long as the source is still readable above, every intermediate state of a push
      answers for `k` as the state before it did. */
  lemma {:induction false} PushNoGap(bs: nat, t: Tree, source: Run, d: nat, k: Key)
    requires bs >= 1 && t != [] && TreeOk(bs, t, d) && SourceOk(bs, source, d)
    requires Tops(Or(FindRun(source, k), TreeFind(t, k)), Versions(t, k))
    ensures forall u :: u in PushStates(bs, t, source, d) ==>
              u != [] && Or(FindRun(source, k), TreeFind(u, k)) == Or(FindRun(source, k), TreeFind(t, k))
    decreases |t|, |t[0]|
  {
    hide RunOk, Evict, MergeRuns;
    PushFind(bs, t, source, d, k);
    if |source| + |t[0]| >= Cap(d) {
      BelowFind(t, k);
      BelowVersions(t, k);
      OverflowEvicts(bs, t, source, d);
      var e := Evict(source, t[0]);
      assert PartitionAt(t[0], e, k);
      if FindRun(source, k).None? && FindRun(e.remaining, k).None? {
        PushFind(bs, Below(t), e.evicted, d + 1, k);
        PushNoGap(bs, Below(t), e.evicted, d + 1, k);
      }
      forall u | u in PushStates(bs, t, source, d)
        ensures u != [] && Or(FindRun(source, k), TreeFind(u, k)) == Or(FindRun(source, k), TreeFind(t, k))
      {
        PushStateCases(bs, t, source, d, u);
      }
    }
  }

  /** Every level of every intermediate state is an ordered run. */
  ghost predicate RunsOk(bs: nat, t: Tree) {
    forall i :: 0 <= i < |t| ==> RunOk(bs, t[i])
  }

  lemma {:induction false} PushStatesOk(bs: nat, t: Tree, source: Run, d: nat)
    requires bs >= 1 && t != [] && TreeOk(bs, t, d) && SourceOk(bs, source, d)
    ensures forall u :: u in PushStates(bs, t, source, d) ==> RunsOk(bs, u)
    decreases |t|, |t[0]|
  {
    hide RunOk, Evict, MergeRuns;
    PushOk(bs, t, source, d);
    if |source| + |t[0]| >= Cap(d) {
      OverflowEvicts(bs, t, source, d);
      var e := Evict(source, t[0]);
      PushOk(bs, Below(t), e.evicted, d + 1);
      PushStatesOk(bs, Below(t), e.evicted, d + 1);
      forall u | u in PushStates(bs, t, source, d)
        ensures RunsOk(bs, u)
      {
        PushStateCases(bs, t, source, d, u);
        RunsOkCons(bs, u);
      }
    }
  }

  lemma RunsOkCons(bs: nat, u: Tree)
    requires u != [] && RunOk(bs, u[0]) && RunsOk(bs, u[1..])
    ensures RunsOk(bs, u)
  {
    hide RunOk;
    forall i | 0 <= i < |u|
      ensures RunOk(bs, u[i])
    {
      if i > 0 {
        assert u[i] == u[1..][i - 1];
      }
    }
  }

  // ----- one compaction of a full L0: `older` and `newer` are its two blocks -----

  lemma FullL0Find(bs: nat, t: Tree, k: Key)
    requires bs >= 1 && Appended(bs, t) && |t[0]| == 2
    ensures FindRun(MergeAll(bs, t[0]), k) == Newer(Find(t[0][0], k), Find(t[0][1], k))
    ensures TreeFind(Below(t), k) == TreeFind(t[1..], k)
    ensures Versions(Below(t), k) == Versions(t[1..], k)
  {
    var older, newer := t[0][0], t[0][1];
    CompactSource(bs, t);
    MergeRunsFind(bs, [older], [newer], k);
    assert FindRun([older], k) == Or(Find(older, k), FindRun([], k));
    assert FindRun([newer], k) == Or(Find(newer, k), FindRun([], k));
    BelowFind(t, k);
    BelowVersions(t, k);
    if |t| == 1 {
      assert TreeFind([[]], k) == Or(FindRun([], k), TreeFind([], k));
      assert Versions([[]], k) == OptionSet(FindRun([], k)) + Versions([], k);
    }
  }

  /** The answer for `k` over a full L0, with the newer block in front, is one that lasts: of the
      two blocks the newer one's version wins, and what is found tops all below. */
  ghost predicate L0Settled(t: Tree, k: Key)
    requires t != [] && |t[0]| == 2
  {
    var l0 := Or(Find(t[0][1], k), Find(t[0][0], k));
    && Newer(Find(t[0][0], k), Find(t[0][1], k)) == l0
    && Tops(Or(l0, TreeFind(t[1..], k)), Versions(t[1..], k))
  }

  lemma CompactFind(bs: nat, t: Tree, k: Key)
    requires bs >= 1 && Appended(bs, t) && |t[0]| == 2 && L0Settled(t, k)
    ensures TreeFind(Compact(bs, t), k)
         == Or(Find(t[0][1], k), Or(Find(t[0][0], k), TreeFind(t[1..], k)))
    ensures FindRun(Compact(bs, t)[0], k) == None
  {
    hide RunOk, BlockOk, Find, FindRun, Cap, Tops;
    CompactSource(bs, t);
    FullL0Find(bs, t, k);
    var s := MergeAll(bs, t[0]);
    PushFind(bs, Below(t), s, 1, k);
    var r := Compact(bs, t);
    assert r[0] == [] && r[1..] == Push(bs, Below(t), s, 1);
    FindRunNone([], k);
  }

  lemma CompactKeys(bs: nat, t: Tree, k: Key)
    requires bs >= 1 && Appended(bs, t) && |t[0]| == 2
    ensures TreeFind(Compact(bs, t), k).Some?
       <==> Find(t[0][0], k).Some? || Find(t[0][1], k).Some? || TreeFind(t[1..], k).Some?
    ensures Versions(Compact(bs, t), k) <= OptionSet(Newer(Find(t[0][0], k), Find(t[0][1], k))) + Versions(t[1..], k)
  {
    hide RunOk, BlockOk, Find, FindRun, Cap;
    CompactSource(bs, t);
    FullL0Find(bs, t, k);
    var s := MergeAll(bs, t[0]);
    PushKeys(bs, Below(t), s, 1, k);
    PushVersions(bs, Below(t), s, 1, k);
    var r := Compact(bs, t);
    assert r[0] == [] && r[1..] == Push(bs, Below(t), s, 1);
    FindRunNone([], k);
  }

  // ----- the get of the engine on the levels -----

  /** `CapsuleDB::get` below the memtable: one block per level, the first level that answers. */
  function TreeGet(t: Tree, k: Key, level: nat): Option<Payload> {
    if t == [] then None else Or(LevelGet(t[0], k, level != 0), TreeGet(t[1..], k, level + 1))
  }

  lemma {:induction false} TreeGetIsFind(bs: nat, t: Tree, k: Key, level: nat)
    requires RunsOk(bs, t)
    ensures TreeGet(t, k, level) == TreeFind(t, k)
  {
    hide RunOk;
    if t != [] {
      LevelGetIsFullScan(bs, t[0], k, level != 0);
      assert forall i :: 0 <= i < |t[1..]| ==> t[1..][i] == t[i + 1];
      TreeGetIsFind(bs, t[1..], k, level + 1);
    }
  }

  /** A second block in L0 does not hide the first from a key it does not hold. */
  lemma FullL0Get(bs: nat, older: Block, newer: Block, k: Key)
    requires BlockOk(bs, older) && BlockOk(bs, newer) && Find(newer, k).None?
    ensures LevelGet([older, newer], k, false) == Find(older, k)
  {
    ScanIsFind(older, k, false);
    ScanIsFind(newer, k, false);
    var i := FirstMatch([older, newer], k);
    if i != 0 {
      OutOfRange(older, k);
    }
  }

  lemma TailRunsOk(bs: nat, t: Tree, d: nat)
    requires TreeOk(bs, t, d)
    ensures RunsOk(bs, t)
  {
  }

  lemma CompactStateCases(bs: nat, t: Tree, u: Tree)
    requires bs >= 1 && Appended(bs, t) && |t[0]| == 2 && u in CompactStates(bs, t)
    ensures TreeOk(bs, Below(t), 1) && SourceOk(bs, MergeAll(bs, t[0]), 1) && u != []
    ensures u == Compact(bs, t)
         || (u[0] == t[0] && (u[1..] == Below(t) || u[1..] in PushStates(bs, Below(t), MergeAll(bs, t[0]), 1)))
  {
    hide RunOk, BlockOk, Cap, MergeAll, Push, PushStates;
    CompactSource(bs, t);
    var inner := PushStates(bs, Below(t), MergeAll(bs, t[0]), 1);
    if u in Lift([t[0]], inner) {
      var i :| 0 <= i < |inner| && u == [t[0]] + inner[i];
      assert inner[i] in inner && u[0] == t[0] && u[1..] == inner[i];
    } else if u != Compact(bs, t) {
      assert u == t + [[]] && u[0] == t[0] && u[1..] == Below(t);
    }
  }

  /** No gap: a key that the newer L0 block does not hold gets one and the same answer in every
      state of the compaction. (The memtable still answers for the keys of the newer block.) */
  lemma CompactNoGap(bs: nat, t: Tree, u: Tree, k: Key)
    requires bs >= 1 && Appended(bs, t) && |t[0]| == 2
    requires Find(t[0][1], k).None? && Tops(Or(Find(t[0][0], k), TreeFind(t[1..], k)), Versions(t[1..], k))
    requires u == t || u in CompactStates(bs, t)
    ensures TreeGet(u, k, 0) == Or(Find(t[0][0], k), TreeFind(t[1..], k))
  {
    hide RunOk, BlockOk, Find, FindRun, Cap, LevelGet, MergeAll, Push, PushStates, CompactStates, Tops;
    CompactSource(bs, t);
    FullL0Find(bs, t, k);
    var s := MergeAll(bs, t[0]);
    assert t[0] == [t[0][0], t[0][1]];
    FullL0Get(bs, t[0][0], t[0][1], k);
    TailRunsOk(bs, t[1..], 1);
    TailRunsOk(bs, Below(t), 1);
    TreeGetIsFind(bs, t[1..], k, 1);
    if u != t {
      CompactStateCases(bs, t, u);
      if u == Compact(bs, t) {
        CompactFind(bs, t, k);
        CompactOk(bs, t);
        TailRunsOk(bs, u, 0);
        TreeGetIsFind(bs, u, k, 0);
      } else {
        PushNoGap(bs, Below(t), s, 1, k);
        PushStatesOk(bs, Below(t), s, 1);
        TreeGetIsFind(bs, u[1..], k, 1);
      }
    }
  }
}
