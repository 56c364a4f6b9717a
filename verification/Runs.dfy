/** Blocks and runs. A run is the list of blocks of one level; a level's data is the
    concatenation of its blocks. */
module Runs {
  import opened Wrappers
  import opened Keys
  import opened Payloads

  type Block = seq<Payload>
  type Run = seq<Block>

  /** First and last key of a block; "" for the empty block. */
  function MinKey(b: Block): Key {
    if b == [] then "" else b[0].key
  }

  function MaxKey(b: Block): Key {
    if b == [] then "" else b[|b| - 1].key
  }

  function Flatten(run: Run): seq<Payload> {
    if run == [] then [] else run[0] + Flatten(run[1..])
  }

  /** Full scan of a level. */
  function FindRun(run: Run, k: Key): Option<Payload> {
    if run == [] then None else Or(Find(run[0], k), FindRun(run[1..], k))
  }

  ghost predicate BlockOk(bs: nat, b: Block) {
    && 0 < |b| <= bs
    && Sorted(b)
    && forall p :: p in b ==> p.key != ""
  }

  /** All keys of `b` lie below all keys of `c`. */
  ghost predicate Before(b: Block, c: Block) {
    Less(MaxKey(b), MinKey(c))
  }

  /** A strictly ordered, hence non-overlapping, list of blocks of at most `bs` pairs. */
  ghost predicate RunOk(bs: nat, run: Run) {
    && (forall i :: 0 <= i < |run| ==> BlockOk(bs, run[i]))
    && (forall i, j :: 0 <= i < j < |run| ==> Before(run[i], run[j]))
  }

  // ----- scanning -----

  lemma {:induction false} FindRunIsScan(run: Run, k: Key)
    ensures FindRun(run, k) == Find(Flatten(run), k)
  {
    if run != [] {
      FindRunIsScan(run[1..], k);
      FindConcat(run[0], Flatten(run[1..]), k);
    }
  }

  lemma {:induction false} FindRunConcat(a: Run, b: Run, k: Key)
    ensures FindRun(a + b, k) == Or(FindRun(a, k), FindRun(b, k))
  {
    if a == [] {
      assert a + b == b;
    } else {
      assert (a + b)[1..] == a[1..] + b;
      FindRunConcat(a[1..], b, k);
    }
  }

  lemma {:induction false} FlattenConcat(a: Run, b: Run)
    ensures Flatten(a + b) == Flatten(a) + Flatten(b)
  {
    if a == [] {
      assert a + b == b;
    } else {
      assert (a + b)[1..] == a[1..] + b;
      FlattenConcat(a[1..], b);
    }
  }

  /** A hit in a run is a hit in one of its blocks. */
  lemma {:induction false} FindRunWitness(run: Run, k: Key) returns (i: nat)
    requires FindRun(run, k).Some?
    ensures i < |run| && Find(run[i], k) == FindRun(run, k)
    ensures forall j :: 0 <= j < i ==> Find(run[j], k) == None
  {
    if Find(run[0], k).Some? {
      i := 0;
    } else {
      var j := FindRunWitness(run[1..], k);
      i := j + 1;
    }
  }

  lemma {:induction false} FindRunNone(run: Run, k: Key)
    ensures FindRun(run, k).None? <==> forall i :: 0 <= i < |run| ==> Find(run[i], k).None?
  {
    if run != [] {
      FindRunNone(run[1..], k);
      assert forall i :: 0 <= i < |run| - 1 ==> run[1..][i] == run[i + 1];
      if forall i :: 0 <= i < |run| ==> Find(run[i], k).None? {
        assert Find(run[0], k).None?;
        forall i | 0 <= i < |run[1..]|
          ensures Find(run[1..][i], k).None?
        {
          assert run[1..][i] == run[i + 1];
        }
      }
      if FindRun(run, k).None? {
        forall i | 0 <= i < |run|
          ensures Find(run[i], k).None?
        {
          if i > 0 {
            assert run[i] == run[1..][i - 1];
          }
        }
      }
    }
  }

  /** A hit lies within the block's range. */
  lemma FindInRange(b: Block, k: Key)
    requires Sorted(b) && Find(b, k).Some?
    ensures b != [] && AtMost(MinKey(b), k) && AtMost(k, MaxKey(b))
  {
    FindSound(b, k);
    var i :| 0 <= i < |b| && b[i] == Find(b, k).value;
    Irreflexive(k);
    if i > 0 {
      Asymmetric(b[0].key, b[i].key);
    }
    if i < |b| - 1 {
      Asymmetric(b[i].key, b[|b| - 1].key);
    }
  }

  lemma RangeOrdered(bs: nat, b: Block)
    requires BlockOk(bs, b)
    ensures AtMost(MinKey(b), MaxKey(b)) && MinKey(b) != "" && MaxKey(b) != ""
  {
    Irreflexive(MinKey(b));
    if |b| > 1 {
      Asymmetric(b[0].key, b[|b| - 1].key);
    }
    assert b[0] in b && b[|b| - 1] in b;
  }

  /** Ordered blocks have disjoint ranges. */
  lemma RangesDisjoint(b: Block, c: Block, k: Key)
    requires Before(b, c) && AtMost(k, MaxKey(b))
    ensures Less(k, MinKey(c))
  {
    AtMostLess(k, MaxKey(b), MinKey(c));
  }

  // ----- runs as sorted lists -----

  lemma RunOkSlice(bs: nat, run: Run, lo: nat, hi: nat)
    requires RunOk(bs, run) && lo <= hi <= |run|
    ensures RunOk(bs, run[lo..hi])
  {
  }

  lemma RunOkCons(bs: nat, b: Block, run: Run)
    requires BlockOk(bs, b) && RunOk(bs, run)
    requires forall c :: c in run ==> Before(b, c)
    ensures RunOk(bs, [b] + run)
  {
  }

  /** Every key of a run lies above everything that lies below its first block. */
  lemma {:induction false} FlattenAbove(bs: nat, run: Run, k: Key)
    requires RunOk(bs, run)
    requires forall b :: b in run ==> Less(k, MinKey(b))
    ensures forall p :: p in Flatten(run) ==> Less(k, p.key)
  {
    if run != [] {
      assert run[0] in run;
      HeadIsLeast(run[0], k);
      RunOkSlice(bs, run, 1, |run|);
      FlattenAbove(bs, run[1..], k);
    }
  }

  lemma SortedConcat(a: seq<Payload>, b: seq<Payload>)
    requires Sorted(a) && Sorted(b)
    requires a != [] ==> forall p :: p in b ==> Less(a[|a| - 1].key, p.key)
    ensures Sorted(a + b)
  {
    var s := a + b;
    forall i, j | 0 <= i < j < |s|
      ensures Less(s[i].key, s[j].key)
    {
      if i < |a| <= j {
        assert s[j] in b;
        if i < |a| - 1 {
          Transitive(s[i].key, a[|a| - 1].key, s[j].key);
        }
      }
    }
  }

  lemma {:induction false} FlattenSorted(bs: nat, run: Run)
    requires RunOk(bs, run)
    ensures Sorted(Flatten(run))
  {
    if run != [] {
      RunOkSlice(bs, run, 1, |run|);
      FlattenSorted(bs, run[1..]);
      forall b | b in run[1..]
        ensures Less(MaxKey(run[0]), MinKey(b))
      {
        var i :| 0 <= i < |run[1..]| && run[1..][i] == b;
        assert Before(run[0], run[i + 1]);
      }
      FlattenAbove(bs, run[1..], MaxKey(run[0]));
      SortedConcat(run[0], Flatten(run[1..]));
    }
  }

  lemma {:induction false} FlattenLength(bs: nat, run: Run)
    requires forall i :: 0 <= i < |run| ==> BlockOk(bs, run[i])
    ensures |run| <= |Flatten(run)| <= |run| * bs
    ensures forall p :: p in Flatten(run) ==> p.key != ""
  {
    if run != [] {
      FlattenLength(bs, run[1..]);
      assert |run| * bs == bs + |run[1..]| * bs;
    }
  }

  // ----- cutting a list into blocks -----

  /** The blocks written for the pairs `s`: each full but the last, which is not empty. */
  function Chunk(bs: nat, s: seq<Payload>): Run
    requires bs >= 1
  {
    if s == [] then []
    else if |s| <= bs then [s]
    else [s[..bs]] + Chunk(bs, s[bs..])
  }

  lemma {:induction false} ChunkFlatten(bs: nat, s: seq<Payload>)
    requires bs >= 1
    ensures Flatten(Chunk(bs, s)) == s
  {
    if |s| > bs {
      ChunkFlatten(bs, s[bs..]);
      assert s == s[..bs] + s[bs..];
    } else if s != [] {
      assert Flatten([s]) == s + Flatten([]);
    }
  }

  lemma {:induction false} ChunkMembers(bs: nat, s: seq<Payload>)
    requires bs >= 1
    ensures forall b, p :: b in Chunk(bs, s) && p in b ==> p in s
    ensures forall b :: b in Chunk(bs, s) ==> b != []
  {
    if |s| > bs {
      ChunkMembers(bs, s[bs..]);
      assert forall p :: p in s[..bs] || p in s[bs..] ==> p in s;
    }
  }

  /** Every block but the last holds exactly `bs` pairs and the last is not empty, so the
      number of blocks is |s| / bs rounded up. */
  lemma {:induction false} ChunkShape(bs: nat, s: seq<Payload>)
    requires bs >= 1
    ensures var c := Chunk(bs, s);
            && (forall i :: 0 <= i < |c| - 1 ==> |c[i]| == bs)
            && (c != [] ==> 0 < |c[|c| - 1]| <= bs)
            && (|c| - 1) * bs < |s| <= |c| * bs
  {
    var c := Chunk(bs, s);
    if |s| > bs {
      ChunkShape(bs, s[bs..]);
      assert c[1..] == Chunk(bs, s[bs..]);
      assert (|c| - 1) * bs == |c[1..]| * bs == (|c| - 2) * bs + bs;
      assert |c| * bs == (|c| - 1) * bs + bs;
      assert forall i :: 0 < i < |c| ==> c[i] == c[1..][i - 1];
    }
  }

  lemma {:induction false} ChunkCount(bs: nat, s: seq<Payload>, n: nat)
    requires bs >= 1 && |s| <= n * bs
    ensures |Chunk(bs, s)| <= n
  {
    if s != [] {
      assert n >= 1;
      if |s| > bs {
        assert n * bs == (n - 1) * bs + bs;
        ChunkCount(bs, s[bs..], n - 1);
      }
    }
  }

  lemma {:induction false} ChunkOk(bs: nat, s: seq<Payload>)
    requires bs >= 1 && Sorted(s) && forall p :: p in s ==> p.key != ""
    ensures RunOk(bs, Chunk(bs, s))
  {
    if |s| > bs {
      var head, rest := s[..bs], s[bs..];
      assert forall p :: p in head || p in rest ==> p in s;
      ChunkOk(bs, rest);
      ChunkMembers(bs, rest);
      forall c | c in Chunk(bs, rest)
        ensures Before(head, c)
      {
        assert c[0] in c && c[0] in rest;
        var i :| 0 <= i < |rest| && rest[i] == c[0];
        assert Less(s[bs - 1].key, s[bs + i].key);
      }
      RunOkCons(bs, head, Chunk(bs, rest));
    }
  }

  // ----- merging two runs -----

  /** `CapsuleIndex::merge` on the contents of its two header lists. */
  function MergeRuns(bs: nat, a: Run, b: Run): Run
    requires bs >= 1
  {
    Chunk(bs, MergeFlat(Flatten(a), Flatten(b)))
  }

  /** The merge of two ordered runs is an ordered run, no longer than the two together, in
      which a lookup finds the later of the two versions of its key. */
  lemma MergeRunsOk(bs: nat, a: Run, b: Run)
    requires bs >= 1 && RunOk(bs, a) && RunOk(bs, b)
    ensures RunOk(bs, MergeRuns(bs, a, b))
    ensures |MergeRuns(bs, a, b)| <= |a| + |b|
    ensures a != [] ==> MergeRuns(bs, a, b) != []
  {
    var x, y := Flatten(a), Flatten(b);
    FlattenSorted(bs, a);
    FlattenSorted(bs, b);
    FlattenLength(bs, a);
    FlattenLength(bs, b);
    MergeFlatSorted(x, y);
    MergeFlatMembers(x, y);
    ChunkOk(bs, MergeFlat(x, y));
    assert (|a| + |b|) * bs == |a| * bs + |b| * bs;
    ChunkCount(bs, MergeFlat(x, y), |a| + |b|);
  }

  lemma MergeRunsFind(bs: nat, a: Run, b: Run, k: Key)
    requires bs >= 1 && RunOk(bs, a) && RunOk(bs, b)
    ensures FindRun(MergeRuns(bs, a, b), k) == Newer(FindRun(a, k), FindRun(b, k))
  {
    var x, y := Flatten(a), Flatten(b);
    FlattenSorted(bs, a);
    FlattenSorted(bs, b);
    MergeFlatFind(x, y, k);
    ChunkFlatten(bs, MergeFlat(x, y));
    FindRunIsScan(MergeRuns(bs, a, b), k);
    FindRunIsScan(a, k);
    FindRunIsScan(b, k);
  }

  // ----- the first-match lookup -----

  /** `Level::getBlock`: index of the first block whose range covers `k`, or `|run|`. */
  function FirstMatch(run: Run, k: Key): (i: nat)
    ensures i <= |run|
    ensures forall j :: 0 <= j < i ==> Less(k, MinKey(run[j])) || Less(MaxKey(run[j]), k)
    ensures i < |run| ==> AtMost(MinKey(run[i]), k) && AtMost(k, MaxKey(run[i]))
  {
    if run == [] || (AtMost(MinKey(run[0]), k) && AtMost(k, MaxKey(run[0]))) then 0
    else 1 + FirstMatch(run[1..], k)
  }

  /** The pair loop of `CapsuleDB::get`; `early` is the break taken on every level but L0. */
  function Scan(b: Block, k: Key, early: bool): Option<Payload> {
    if b == [] then None
    else if early && Less(k, b[0].key) then None
    else if b[0].key == k then Some(b[0])
    else Scan(b[1..], k, early)
  }

  /** One level of `CapsuleDB::get`: only the first block whose range covers the key is read. */
  function LevelGet(run: Run, k: Key, early: bool): Option<Payload> {
    var i := FirstMatch(run, k);
    if i == |run| then None else Scan(run[i], k, early)
  }

  lemma {:induction false} ScanIsFind(b: Block, k: Key, early: bool)
    requires Sorted(b)
    ensures Scan(b, k, early) == Find(b, k)
  {
    if b != [] {
      if Less(k, b[0].key) {
        FindBelow(b, k);
      }
      assert Sorted(b[1..]);
      ScanIsFind(b[1..], k, early);
    }
  }

  /** A block whose range does not cover a key does not hold it. */
  lemma OutOfRange(b: Block, k: Key)
    requires Sorted(b) && (Less(k, MinKey(b)) || Less(MaxKey(b), k))
    ensures Find(b, k) == None
  {
    if Find(b, k).Some? {
      FindInRange(b, k);
    }
  }

  /** Reading one block per level is enough: it agrees with a scan of the whole level. */
  lemma LevelGetIsFullScan(bs: nat, run: Run, k: Key, early: bool)
    requires RunOk(bs, run)
    ensures LevelGet(run, k, early) == FindRun(run, k) == Find(Flatten(run), k)
  {
    FindRunIsScan(run, k);
    var i := FirstMatch(run, k);
    forall j | 0 <= j < |run| && j != i
      ensures Find(run[j], k) == None
    {
      assert BlockOk(bs, run[j]);
      if j > i {
        assert Before(run[i], run[j]);
        RangesDisjoint(run[i], run[j], k);
      }
      OutOfRange(run[j], k);
    }
    if i < |run| {
      assert BlockOk(bs, run[i]);
      ScanIsFind(run[i], k, early);
    }
    if FindRun(run, k).Some? {
      var w := FindRunWitness(run, k);
    } else {
      FindRunNone(run, k);
    }
    if i < |run| && Find(run[i], k).Some? {
      FindRunNone(run, k);
    }
  }
}
