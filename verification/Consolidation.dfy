/** Enough puts of other keys bring all versions of a key together: each answer ends as the latest
    stored version, and an answer that some stored version exceeds does change.

    The run that does it puts keys above `k`. An overflowing level pushes its lowest blocks down, so
    none of them gets below the first level that holds `k`; while `k` is stored twice, the last level
    therefore holds old keys only, too few to overflow, and the levels fill up with new ones. */
module Consolidation {
  import opened Wrappers
  import opened Keys
  import opened Payloads
  import opened Runs
  import opened Eviction
  import opened Compaction
  import opened Database
  import opened History
  import opened Stability

  // ----- the keys of a run and of the levels -----

  function KeysOf(s: seq<Payload>): set<Key> {
    set p | p in s :: p.key
  }

  function RunKeys(run: Run): set<Key> {
    KeysOf(Flatten(run))
  }

  function TreeKeys(t: Tree): set<Key> {
    if t == [] then {} else RunKeys(t[0]) + TreeKeys(t[1..])
  }

  function DbKeys(db: Db): set<Key> {
    db.mem.Keys + TreeKeys(db.tree)
  }

  lemma RunKeysFind(run: Run, f: Key)
    ensures f in RunKeys(run) <==> FindRun(run, f).Some?
  {
    FindRunIsScan(run, f);
    FindSound(Flatten(run), f);
  }

  lemma {:induction false} TreeKeysFind(t: Tree, f: Key)
    ensures f in TreeKeys(t) <==> TreeFind(t, f).Some?
  {
    hide RunKeys;
    if t != [] {
      RunKeysFind(t[0], f);
      TreeKeysFind(t[1..], f);
    }
  }

  lemma MergeKeys(bs: nat, a: Run, b: Run)
    requires bs >= 1 && RunOk(bs, a) && RunOk(bs, b)
    ensures RunKeys(MergeRuns(bs, a, b)) == RunKeys(a) + RunKeys(b)
  {
    hide RunKeys, MergeRuns, RunOk;
    forall f
      ensures f in RunKeys(MergeRuns(bs, a, b)) <==> f in RunKeys(a) + RunKeys(b)
    {
      MergeRunsFind(bs, a, b, f);
      RunKeysFind(MergeRuns(bs, a, b), f);
      RunKeysFind(a, f);
      RunKeysFind(b, f);
    }
  }

  lemma PushKeySet(bs: nat, t: Tree, source: Run, d: nat)
    requires bs >= 1 && t != [] && TreeOk(bs, t, d) && SourceOk(bs, source, d)
    ensures TreeKeys(Push(bs, t, source, d)) == RunKeys(source) + TreeKeys(t)
  {
    hide RunKeys, TreeKeys, Push, TreeOk, SourceOk;
    forall f
      ensures f in TreeKeys(Push(bs, t, source, d)) <==> f in RunKeys(source) + TreeKeys(t)
    {
      PushKeys(bs, t, source, d, f);
      TreeKeysFind(Push(bs, t, source, d), f);
      RunKeysFind(source, f);
      TreeKeysFind(t, f);
    }
  }

  /** Eviction shares out the keys, and what it takes lies below what it leaves. */
  lemma EvictKeys(bs: nat, source: Run, dest: Run, k: Key)
    requires RunOk(bs, dest) && |source| <= |dest|
    ensures var e := Evict(source, dest);
            && RunKeys(e.evicted) + RunKeys(e.remaining) == RunKeys(dest)
            && (k in RunKeys(e.remaining) ==> forall f :: f in RunKeys(e.evicted) ==> Less(f, k))
  {
    hide RunKeys, Select, SortBlocks, Evict, RunOk;
    EvictIsPrefix(bs, source, dest);
    var e := Evict(source, dest);
    var m := |e.evicted|;
    forall f
      ensures f in RunKeys(e.evicted) + RunKeys(e.remaining) <==> f in RunKeys(dest)
    {
      CutAt(bs, dest, m, f);
      RunKeysFind(e.evicted, f);
      RunKeysFind(e.remaining, f);
      RunKeysFind(dest, f);
    }
    if k in RunKeys(e.remaining) {
      forall f | f in RunKeys(e.evicted)
        ensures Less(f, k)
      {
        RunKeysFind(e.remaining, k);
        RunKeysFind(e.evicted, f);
        PrefixBelow(bs, dest, m, f, k);
      }
    }
  }

  lemma PrefixBelow(bs: nat, run: Run, m: nat, f: Key, k: Key)
    requires RunOk(bs, run) && m <= |run| && FindRun(run[..m], f).Some? && FindRun(run[m..], k).Some?
    ensures Less(f, k)
  {
    hide MinKey, MaxKey, Find, FindRun;
    var i := FindRunWitness(run[..m], f);
    var j := FindRunWitness(run[m..], k);
    var b, c := run[i], run[m + j];
    assert BlockOk(bs, b) && BlockOk(bs, c) && Before(b, c);
    FindInRange(b, f);
    FindInRange(c, k);
    AtMostLess(f, MaxKey(b), MinKey(c));
    LessAtMost(f, MinKey(c), k);
  }

  // ----- no new key passes the first level that holds `k` -----

  /** Below the first level that holds `k` there are old keys only. */
  predicate Guard(t: Tree, k: Key, olds: set<Key>) {
    t == [] || if k in RunKeys(t[0]) then TreeKeys(t[1..]) <= olds else Guard(t[1..], k, olds)
  }

  ghost predicate OldOrAbove(ks: set<Key>, k: Key, olds: set<Key>) {
    forall f :: f in ks ==> f in olds || Less(k, f)
  }

  lemma {:induction false} OldIsGuarded(t: Tree, k: Key, olds: set<Key>)
    requires TreeKeys(t) <= olds
    ensures Guard(t, k, olds)
  {
    hide RunKeys;
    if t != [] {
      OldIsGuarded(t[1..], k, olds);
    }
  }

  lemma BelowGuard(t: Tree, k: Key, olds: set<Key>)
    requires t != []
    ensures TreeKeys(t) == RunKeys(t[0]) + TreeKeys(Below(t))
    ensures Guard(t, k, olds) <==> if k in RunKeys(t[0]) then TreeKeys(Below(t)) <= olds else Guard(Below(t), k, olds)
  {
    if |t| == 1 {
      assert TreeKeys([[]]) == RunKeys([]) + TreeKeys([]);
      assert Guard([], k, olds);
    }
  }

  lemma GuardCons(run: Run, t: Tree, k: Key, olds: set<Key>)
    requires if k in RunKeys(run) then TreeKeys(t) <= olds else Guard(t, k, olds)
    ensures Guard([run] + t, k, olds)
  {
    assert ([run] + t)[1..] == t;
  }

  lemma {:induction false} PushGuard(bs: nat, t: Tree, source: Run, d: nat, k: Key, olds: set<Key>)
    requires bs >= 1 && t != [] && TreeOk(bs, t, d) && SourceOk(bs, source, d)
    requires if k in RunKeys(source) then TreeKeys(t) <= olds else Guard(t, k, olds)
    requires OldOrAbove(TreeKeys(t), k, olds)
    ensures Guard(Push(bs, t, source, d), k, olds)
    decreases |t|, |t[0]|
  {
    hide RunOk, Evict, MergeRuns, RunKeys, TreeKeys, Guard, Less, Push;
    BelowGuard(t, k, olds);
    if |source| + |t[0]| < Cap(d) {
      NoOverflowUnfold(bs, t, source, d);
      MergeKeys(bs, source, t[0]);
      TailGuard(t, k, olds);
      GuardCons(MergeRuns(bs, source, t[0]), t[1..], k, olds);
    } else {
      OverflowUnfold(bs, t, source, d);
      var e := Evict(source, t[0]);
      var below := Push(bs, Below(t), e.evicted, d + 1);
      EvictKeys(bs, source, t[0], k);
      MergeKeys(bs, source, e.remaining);
      PushKeySet(bs, Below(t), e.evicted, d + 1);
      if k in RunKeys(source) || k in RunKeys(e.remaining) {
        forall f | f in RunKeys(e.evicted)
          ensures f in olds
        {
          if k in RunKeys(e.remaining) {
            Asymmetric(f, k);
          }
        }
      } else {
        PushGuard(bs, Below(t), e.evicted, d + 1, k, olds);
      }
      GuardCons(MergeRuns(bs, source, e.remaining), below, k, olds);
    }
  }

  lemma TailGuard(t: Tree, k: Key, olds: set<Key>)
    requires t != []
    ensures TreeKeys(t) == RunKeys(t[0]) + TreeKeys(t[1..])
    ensures Guard(t, k, olds) <==> if k in RunKeys(t[0]) then TreeKeys(t[1..]) <= olds else Guard(t[1..], k, olds)
  {
  }

  // ----- a last level of old keys does not overflow -----

  lemma {:induction false} SortedSize(s: seq<Payload>, ks: set<Key>)
    requires Sorted(s) && KeysOf(s) <= ks
    ensures |s| <= |ks|
  {
    if s != [] {
      var f := s[0].key;
      assert f in ks;
      forall p | p in s[1..]
        ensures p.key in ks - {f}
      {
        var i :| 0 <= i < |s[1..]| && s[1..][i] == p;
        assert p == s[i + 1] && p.key in KeysOf(s);
        Asymmetric(f, p.key);
      }
      SortedSize(s[1..], ks - {f});
    }
  }

  lemma RunSize(bs: nat, run: Run, ks: set<Key>)
    requires RunOk(bs, run) && RunKeys(run) <= ks
    ensures |run| <= |ks|
  {
    FlattenSorted(bs, run);
    FlattenLength(bs, run);
    SortedSize(Flatten(run), ks);
  }

  lemma {:induction false} PushSameDepth(bs: nat, t: Tree, source: Run, d: nat)
    requires bs >= 1 && t != [] && TreeOk(bs, t, d) && SourceOk(bs, source, d)
    requires 10 * |t[|t| - 1]| < 9 * Cap(d + |t| - 1)
    ensures |Push(bs, t, source, d)| == |t|
    decreases |t|, |t[0]|
  {
    hide RunOk, Evict, MergeRuns, Push, Cap;
    if |source| + |t[0]| < Cap(d) {
      NoOverflowUnfold(bs, t, source, d);
    } else {
      OverflowUnfold(bs, t, source, d);
      assert d + |t| - 1 == d + 1 + |t[1..]| - 1;
      PushSameDepth(bs, Below(t), Evict(source, t[0]).evicted, d + 1);
    }
  }

  /** The last level lies below the first that holds a key stored on two levels. */
  lemma {:induction false} GuardLast(t: Tree, k: Key, olds: set<Key>)
    requires t != [] && Guard(t, k, olds) && Holders(t, k) >= 2
    ensures RunKeys(t[|t| - 1]) <= olds
  {
    hide RunKeys;
    RunKeysFind(t[0], k);
    if k in RunKeys(t[0]) {
      assert t[1..] != [];
      LastKeys(t[1..]);
    } else {
      GuardLast(t[1..], k, olds);
    }
  }

  lemma {:induction false} LastKeys(t: Tree)
    requires t != []
    ensures RunKeys(t[|t| - 1]) <= TreeKeys(t)
  {
    hide RunKeys;
    if |t| > 1 {
      LastKeys(t[1..]);
    }
  }

  // ----- flush and put -----

  ghost predicate Guarded(db: Db, k: Key, olds: set<Key>) {
    && (if k in db.mem then TreeKeys(db.tree) <= olds else Guard(db.tree, k, olds))
    && OldOrAbove(DbKeys(db), k, olds)
  }

  lemma DbKeysFind(db: Db, f: Key)
    ensures f in DbKeys(db) <==> Visible(db, f).Some?
  {
    TreeKeysFind(db.tree, f);
  }

  lemma PutKeySet(bs: nat, db: Db, p: Payload)
    requires DbOk(bs, db) && p.key != ""
    ensures DbKeys(Put(bs, db, p)) == DbKeys(db) + {p.key}
  {
    hide DbOk, DbKeys, Put, Visible;
    forall f
      ensures f in DbKeys(Put(bs, db, p)) <==> f in DbKeys(db) + {p.key}
    {
      PutKeys(bs, db, p, f);
      DbKeysFind(db, f);
      DbKeysFind(Put(bs, db, p), f);
    }
  }

  lemma FlushKeySet(bs: nat, db: Db)
    requires DbOk(bs, db) && |db.mem| >= bs
    ensures DbKeys(Flush(bs, db)) == DbKeys(db)
  {
    hide DbOk, DbKeys, Flush, Visible;
    forall f
      ensures f in DbKeys(Flush(bs, db)) <==> f in DbKeys(db)
    {
      FlushKeys(bs, db, f);
      DbKeysFind(db, f);
      DbKeysFind(Flush(bs, db), f);
    }
  }

  /** The keys of the list that a full L0 is merged into. */
  lemma SourceKeys(bs: nat, db: Db, f: Key)
    requires DbOk(bs, db) && |db.mem| >= bs && |db.tree[0]| == 1
    ensures var t := Append(db.tree, SortedPairs(db.mem));
            Appended(bs, t) && |t[0]| == 2
            && (f in RunKeys(MergeAll(bs, t[0])) <==> f in db.mem || f in RunKeys(db.tree[0]))
  {
    hide TreeOk, Appended, RunOk, BlockOk, SortedPairs, Find, FindRun, MergeAll, RunKeys;
    FlushAppends(bs, db);
    AppendedFind(bs, db, f);
    var t := Append(db.tree, SortedPairs(db.mem));
    FullL0Find(bs, t, f);
    RunKeysFind(MergeAll(bs, t[0]), f);
    RunKeysFind(db.tree[0], f);
  }

  lemma FlushGuard(bs: nat, db: Db, k: Key, olds: set<Key>)
    requires DbOk(bs, db) && |db.mem| >= bs && Guarded(db, k, olds)
    ensures Guarded(Flush(bs, db), k, olds)
  {
    hide TreeOk, Appended, RunOk, BlockOk, SortedPairs, MergeAll, RunKeys, TreeKeys, Guard, Less, Push;
    FlushKeySet(bs, db);
    FlushAppends(bs, db);
    TailGuard(db.tree, k, olds);
    var b := SortedPairs(db.mem);
    var t := Append(db.tree, b);
    if |db.tree[0]| == 1 {
      SourceKeys(bs, db, k);
      CompactSource(bs, t);
      BelowGuard(t, k, olds);
      TailGuard(t, k, olds);
      TailBelow(t, k, olds);
      assert t[1..] == db.tree[1..];
      var s := MergeAll(bs, t[0]);
      PushGuard(bs, Below(t), s, 1, k, olds);
      NoRunKeys();
      GuardCons([], Push(bs, Below(t), s, 1), k, olds);
    } else {
      ShortCompact(bs, t);
      AppendedFind(bs, db, k);
      RunKeysFind([b], k);
      RunKeysFind(db.tree[0], k);
      assert t == [[b]] + db.tree[1..];
      GuardCons([b], db.tree[1..], k, olds);
    }
  }

  lemma NoRunKeys()
    ensures RunKeys([]) == {}
  {
  }

  lemma TailBelow(t: Tree, k: Key, olds: set<Key>)
    requires t != []
    ensures TreeKeys(Below(t)) == TreeKeys(t[1..])
    ensures Guard(t[1..], k, olds) == Guard(Below(t), k, olds)
  {
    if |t| == 1 {
      assert TreeKeys([[]]) == RunKeys([]) + TreeKeys([]);
      assert Guard([], k, olds) && Guard([[]], k, olds);
    }
  }

  /** A flush adds no level to a store deep enough that keeps `k` twice. */
  lemma FlushSameDepth(bs: nat, db: Db, k: Key, olds: set<Key>)
    requires DbOk(bs, db) && |db.mem| >= bs && Guarded(db, k, olds) && Copies(db, k) >= 2
    requires |db.tree| >= 2 && 10 * |olds| < 9 * Cap(|db.tree| - 1)
    ensures |Flush(bs, db).tree| == |db.tree|
  {
    hide Appended, RunOk, BlockOk, SortedPairs, MergeAll, RunKeys, TreeKeys, Guard, Less, Push, Cap;
    FlushAppends(bs, db);
    var t := Append(db.tree, SortedPairs(db.mem));
    var last := db.tree[|db.tree| - 1];
    if k in db.mem {
      LastKeys(db.tree);
    } else {
      GuardLast(db.tree, k, olds);
    }
    RunSize(bs, last, olds);
    if |db.tree[0]| == 1 {
      CompactSource(bs, t);
      assert 1 + |Below(t)| - 1 == |db.tree| - 1;
      PushSameDepth(bs, Below(t), MergeAll(bs, t[0]), 1);
    } else {
      ShortCompact(bs, t);
    }
  }

  /** A put of a key above `k` keeps the guard, and the depth below a limit that suffices for the
      old keys. */
  lemma PutGuarded(bs: nat, db: Db, p: Payload, k: Key, olds: set<Key>, depth: nat)
    requires DbOk(bs, db) && p.key != "" && Less(k, p.key) && k != p.key
    requires Guarded(db, k, olds) && Copies(db, k) >= 2
    requires |db.tree| <= depth && depth >= 2 && 10 * |olds| < 9 * Cap(depth - 1)
    ensures Guarded(Put(bs, db, p), k, olds) && |Put(bs, db, p).tree| <= depth
  {
    hide TreeOk, Flush, DbKeys, TreeKeys, Guard, Less, Cap, Holders;
    PutKeySet(bs, db, p);
    if p.key !in db.mem && |db.mem| >= bs {
      FlushGuard(bs, db, k, olds);
      FlushDepth(bs, db);
      if |db.tree| == depth {
        FlushSameDepth(bs, db, k, olds);
      }
    }
  }

  // ----- room for keys -----

  /** Blocks that levels `d` to `d + n - 1` can hold. */
  function Caps(d: nat, n: nat): nat
    decreases n
  {
    if n == 0 then 0 else Cap(d) + Caps(d + 1, n - 1)
  }

  lemma {:induction false} CapsMonotone(d: nat, n: nat, m: nat)
    requires n <= m
    ensures Caps(d, n) <= Caps(d, m)
    decreases n
  {
    hide Cap;
    if n > 0 {
      CapsMonotone(d + 1, n - 1, m - 1);
    }
  }

  lemma {:induction false} KeysOfSize(s: seq<Payload>)
    ensures |KeysOf(s)| <= |s|
  {
    if s != [] {
      KeysOfSize(s[1..]);
      assert s == [s[0]] + s[1..];
      assert KeysOf(s) == {s[0].key} + KeysOf(s[1..]);
    }
  }

  lemma RunKeysSize(bs: nat, run: Run, cap: nat)
    requires RunOk(bs, run) && |run| < cap
    ensures |RunKeys(run)| <= bs * cap
  {
    hide Flatten, KeysOf;
    KeysOfSize(Flatten(run));
    FlattenLength(bs, run);
    TimesMonotone(bs, |run|, cap);
  }

  lemma {:induction false} TreeKeysSize(bs: nat, t: Tree, d: nat)
    requires TreeOk(bs, t, d)
    ensures |TreeKeys(t)| <= bs * Caps(d, |t|)
  {
    hide Cap, RunOk, RunKeys;
    if t != [] {
      forall i | 0 <= i < |t[1..]|
        ensures RunOk(bs, t[1..][i]) && |t[1..][i]| < Cap(d + 1 + i)
      {
        assert t[1..][i] == t[i + 1] && d + 1 + i == d + (i + 1);
      }
      TreeKeysSize(bs, t[1..], d + 1);
      assert |t[0]| < Cap(d + 0);
      RunKeysSize(bs, t[0], Cap(d));
      UnionSize(RunKeys(t[0]), TreeKeys(t[1..]));
      TimesSum(bs, Cap(d), Caps(d + 1, |t| - 1));
    }
  }

  lemma TimesSum(bs: nat, a: nat, b: nat)
    ensures bs * (a + b) == bs * a + bs * b
  {
  }

  lemma TimesMonotone(bs: nat, a: nat, b: nat)
    requires a <= b
    ensures bs * a <= bs * b
  {
  }

  lemma UnionSize(a: set<Key>, b: set<Key>)
    ensures |a + b| <= |a| + |b|
  {
  }

  lemma DbKeysSize(bs: nat, db: Db, depth: nat)
    requires DbOk(bs, db) && |db.tree| <= depth
    ensures |DbKeys(db)| <= bs + bs * Caps(0, depth)
  {
    hide TreeOk, TreeKeys, Caps;
    TreeKeysSize(bs, db.tree, 0);
    CapsMonotone(0, |db.tree|, depth);
    TimesMonotone(bs, Caps(0, |db.tree|), Caps(0, depth));
    UnionSize(db.mem.Keys, TreeKeys(db.tree));
  }

  lemma {:induction false} Pow10AtLeast(n: nat)
    ensures Pow10(n) > n
  {
    if n > 0 {
      Pow10AtLeast(n - 1);
    }
  }

  // ----- the run -----

  /** A key above `k`. */
  function Above(k: Key, n: nat): Key {
    k + seq(n + 1, _ => 'x')
  }

  lemma {:induction false} AboveLess(k: Key, f: Key, i: nat := 0)
    requires i <= |k| < |f| && f[..|k|] == k
    ensures LessFrom(k, f, i)
    decreases |k| - i
  {
    if i < |k| {
      assert f[i] == f[..|k|][i];
      AboveLess(k, f, i + 1);
    }
  }

  function AbovePuts(k: Key, n: nat): Puts {
    if n == 0 then [] else AbovePuts(k, n - 1) + [Payload(Above(k, n), "", 0, "")]
  }

  lemma {:induction false} AbovePutsOthers(k: Key, n: nat)
    ensures Others(AbovePuts(k, n), k) && |AbovePuts(k, n)| == n
  {
    if n > 0 {
      AbovePutsOthers(k, n - 1);
    }
  }

  function AboveKeys(k: Key, n: nat): (ks: set<Key>)
    ensures |ks| == n && forall f :: f in ks ==> |f| <= |k| + n + 1
  {
    if n == 0 then {} else AboveKeys(k, n - 1) + {Above(k, n)}
  }

  /** After `n` puts above `k`, versions of `k` have met or all `n` keys are stored. */
  lemma {:induction false} AboveRun(bs: nat, db: Db, k: Key, olds: set<Key>, depth: nat, n: nat)
    requires DbOk(bs, db) && Guarded(db, k, olds) && Copies(db, k) >= 2
    requires |db.tree| <= depth && depth >= 2 && 10 * |olds| < 9 * Cap(depth - 1)
    ensures Others(AbovePuts(k, n), k)
    ensures var r := Then(bs, db, AbovePuts(k, n));
            || Copies(r, k) < Copies(db, k)
            || (Guarded(r, k, olds) && |r.tree| <= depth && AboveKeys(k, n) <= DbKeys(r))
  {
    hide TreeOk, MemOk, Put, Guarded, Copies, DbKeys, Cap, Less, Above;
    AbovePutsOthers(k, n);
    if n > 0 {
      var puts := AbovePuts(k, n);
      assert puts[..n - 1] == AbovePuts(k, n - 1) by {
        AbovePutsOthers(k, n - 1);
      }
      AboveRun(bs, db, k, olds, depth, n - 1);
      var was := Then(bs, db, AbovePuts(k, n - 1));
      var p := Payload(Above(k, n), "", 0, "");
      IsAbove(k, n);
      PutSurvivor(bs, was, p, k);
      SurvivorConserved(bs, db, AbovePuts(k, n - 1), k);
      if Copies(was, k) == Copies(db, k) {
        PutGuarded(bs, was, p, k, olds, depth);
        PutKeySet(bs, was, p);
      }
    }
  }

  lemma IsAbove(k: Key, n: nat)
    ensures Less(k, Above(k, n)) && k != Above(k, n) && Above(k, n) != ""
  {
    AboveLess(k, Above(k, n));
  }

  /** While a key is stored more than once, some run of puts of other keys brings two of its versions
      together. */
  lemma OneCopyFewer(bs: nat, db: Db, k: Key) returns (puts: Puts)
    requires DbOk(bs, db) && Copies(db, k) >= 2
    ensures Others(puts, k) && Copies(Then(bs, db, puts), k) < Copies(db, k)
  {
    hide TreeOk, MemOk, Copies, DbKeys, Less, Then, Caps;
    var olds := DbKeys(db);
    var depth := if |db.tree| > |olds| + 2 then |db.tree| else |olds| + 2;
    Pow10AtLeast(depth - 1);
    StartGuarded(db, k);
    var n := bs + bs * Caps(0, depth) + 1;
    puts := AbovePuts(k, n);
    AboveRun(bs, db, k, olds, depth, n);
    var r := Then(bs, db, puts);
    if Copies(r, k) >= Copies(db, k) {
      DbKeysSize(bs, r, depth);
      SubsetSize(AboveKeys(k, n), DbKeys(r));
    }
  }

  lemma StartGuarded(db: Db, k: Key)
    ensures Guarded(db, k, DbKeys(db))
  {
    OldIsGuarded(db.tree, k, DbKeys(db));
  }

  lemma {:induction false} SubsetSize(a: set<Key>, b: set<Key>)
    requires a <= b
    ensures |a| <= |b|
  {
    if a != {} {
      var x :| x in a;
      SubsetSize(a - {x}, b - {x});
    }
  }

  lemma {:induction false} Consolidates(bs: nat, db: Db, k: Key) returns (puts: Puts)
    requires DbOk(bs, db)
    ensures Others(puts, k) && Copies(Then(bs, db, puts), k) <= 1
    decreases Copies(db, k)
  {
    hide DbOk, Copies;
    if Copies(db, k) <= 1 {
      puts := [];
    } else {
      var a := OneCopyFewer(bs, db, k);
      var b := Consolidates(bs, Then(bs, db, a), k);
      ThenConcat(bs, db, a, b);
      puts := a + b;
    }
  }

  // ----- main theorems -----

  /** No run of puts of other keys changes the answer for `k`. */
  ghost predicate Stable(bs: nat, db: Db, k: Key)
    requires DbOk(bs, db)
  {
    forall puts :: Others(puts, k) ==> Get(Then(bs, db, puts), k) == Get(db, k)
  }

  lemma SettledIsStable(bs: nat, db: Db, k: Key)
    requires DbOk(bs, db) && Settled(db, k)
    ensures Stable(bs, db, k)
  {
    hide TreeOk, MemOk, Get, Then, Settled, Visible;
    GetIsVisible(bs, db, k);
    forall puts | Others(puts, k)
      ensures Get(Then(bs, db, puts), k) == Get(db, k)
    {
      SurvivorConserved(bs, db, puts, k);
      GetIsVisible(bs, Then(bs, db, puts), k);
    }
  }

  /** From any state some run of puts of other keys leads to one where `get` returns the survivor of
      `k`, and there the answer is stable. */
  lemma AnswerSettles(bs: nat, db: Db, k: Key)
    requires DbOk(bs, db)
    ensures exists puts :: Others(puts, k) && Get(Then(bs, db, puts), k) == Survivor(db, k)
                           && Stable(bs, Then(bs, db, puts), k)
  {
    hide TreeOk, MemOk, Copies, Survivor, Get, Then, Settled, Stable;
    var puts := Consolidates(bs, db, k);
    var r := Then(bs, db, puts);
    OneCopySettled(r, k);
    SettledIsSurvivor(r, k);
    SettledIsStable(bs, r, k);
    SurvivorConserved(bs, db, puts, k);
    GetIsVisible(bs, r, k);
  }

  /** Eventually the newest put wins, whatever was put in whatever order: any run can be continued with
      puts of other keys so that `get` returns a put of `k` with the latest timestamp, the newest put
      if there are no ties, and no further puts of other keys change that. */
  lemma EventuallyNewest(bs: nat, puts: Puts, k: Key)
    requires bs >= 1 && KeysOk(puts)
    ensures exists more :: Others(more, k) && KeysOk(puts + more) && Stable(bs, After(bs, puts + more), k)
                           && NewestAnswer(puts, k, Get(After(bs, puts + more), k))
  {
    hide TreeOk, MemOk, Survivor, Get, Then, After, Stable, NewestPut;
    var db := After(bs, puts);
    AnswerSettles(bs, db, k);
    var more :| Others(more, k) && Get(Then(bs, db, more), k) == Survivor(db, k) && Stable(bs, Then(bs, db, more), k);
    AfterThen(bs, puts, more);
    SurvivorIsNewest(bs, puts, k);
    if TieFree(puts, k) {
      SurvivorWasNewest(bs, puts, k);
    }
  }

  ghost predicate NewestAnswer(puts: Puts, k: Key, got: Option<Payload>) {
    && (got.Some? <==> NewestPut(puts, k).Some?)
    && (got.Some? ==> got.value.timestamp == NewestPut(puts, k).value.timestamp)
    && (TieFree(puts, k) ==> got == NewestPut(puts, k))
  }

  /** So a stable answer is the survivor. */
  lemma StableIsSurvivor(bs: nat, db: Db, k: Key)
    requires DbOk(bs, db) && Stable(bs, db, k)
    ensures Get(db, k) == Survivor(db, k)
  {
    hide TreeOk, MemOk, Survivor, Get, Then;
    AnswerSettles(bs, db, k);
  }

  /** No other stored version has the answer's timestamp. */
  ghost predicate Untied(db: Db, k: Key) {
    Visible(db, k).Some? ==>
      forall w :: w in AllVersions(db, k) && w.timestamp == Visible(db, k).value.timestamp ==>
                    w == Visible(db, k).value
  }

  /** The answer for a key is later than every other stored version of it if and only if it ties
      with none and no run of puts of other keys changes it. */
  lemma TopmostIffStable(bs: nat, db: Db, k: Key)
    requires DbOk(bs, db)
    ensures Topmost(db, k) <==> Untied(db, k) && Stable(bs, db, k)
  {
    hide TreeOk, MemOk, Survivor, Get, Stable, AllVersions;
    if Topmost(db, k) {
      TopmostIsSettled(db, k);
      SettledIsStable(bs, db, k);
    }
    if Stable(bs, db, k) {
      StableIsSurvivor(bs, db, k);
      GetIsVisible(bs, db, k);
      SurvivorIsLatest(db, k);
    }
  }

  /** In a run without ties all of these come to the same: `get` returns the newest put of `k`; that is
      later than every other version stored; no run of puts of other keys changes the answer. */
  lemma NewestIffStable(bs: nat, puts: Puts, k: Key)
    requires bs >= 1 && KeysOk(puts) && TieFree(puts, k)
    ensures Get(After(bs, puts), k) == NewestPut(puts, k) <==> Stable(bs, After(bs, puts), k)
    ensures Topmost(After(bs, puts), k) <==> Stable(bs, After(bs, puts), k)
  {
    hide TreeOk, MemOk, Survivor, Get, After, NewestPut, Stable, AllVersions, Visible;
    var db := After(bs, puts);
    GetIsVisible(bs, db, k);
    VisibleVersion(db, k);
    VersionsWerePut(bs, puts, k);
    SurvivorWasNewest(bs, puts, k);
    SurvivorIsLatest(db, k);
    TopmostIffStable(bs, db, k);
    if Stable(bs, db, k) {
      StableIsSurvivor(bs, db, k);
    }
  }
}
