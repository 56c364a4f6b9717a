/** The recency order of an LSM tree: a key's version in the memtable is later than those on all
    levels, and on each level later than those further down. */
module Recency {
  import opened Wrappers
  import opened Keys
  import opened Payloads
  import opened Runs
  import opened Eviction
  import opened Compaction
  import opened Database
  import opened History

  /** Of two versions of a key the first is later. */
  predicate Later(a: Option<Payload>, b: Option<Payload>) {
    a.Some? && b.Some? ==> a.value.timestamp > b.value.timestamp
  }

  /** Each level's version of `k` is later than what is found below it. */
  predicate FreshAt(t: Tree, k: Key) {
    t == [] || (Later(FindRun(t[0], k), TreeFind(t[1..], k)) && FreshAt(t[1..], k))
  }

  predicate FreshDb(db: Db, k: Key) {
    FreshAt(db.tree, k) && Later(MemGet(db.mem, k), TreeFind(db.tree, k))
  }

  lemma BelowFresh(t: Tree, k: Key)
    requires t != []
    ensures FreshAt(t, k) <==> Later(FindRun(t[0], k), TreeFind(Below(t), k)) && FreshAt(Below(t), k)
  {
    BelowFind(t, k);
    if |t| == 1 {
      assert TreeFind([[]], k) == Or(FindRun([], k), TreeFind([], k));
      assert FreshAt([[]], k) by {
        assert FreshAt([], k);
      }
    }
  }

  /** In order, what a lookup finds is later than everything it hides. */
  lemma {:induction false} FreshTops(t: Tree, k: Key)
    requires FreshAt(t, k)
    ensures Tops(TreeFind(t, k), Versions(t, k))
  {
    if t != [] {
      FreshTops(t[1..], k);
    }
  }

  lemma FreshIsSettled(db: Db, k: Key)
    requires db.tree != [] && FreshDb(db, k)
    ensures Topmost(db, k) && Settled(db, k)
  {
    FreshTops(db.tree, k);
    TopmostIsSettled(db, k);
  }

  /** The order spelled out: memtable over every level, every level over every level below. */
  ghost predicate RecencyOrder(db: Db, k: Key) {
    && (forall i :: 0 <= i < |db.tree| ==> Later(MemGet(db.mem, k), FindRun(db.tree[i], k)))
    && (forall i, j :: 0 <= i < j < |db.tree| ==> Later(FindRun(db.tree[i], k), FindRun(db.tree[j], k)))
  }

  lemma {:induction false} FreshIffOrdered(t: Tree, k: Key, v: Option<Payload>)
    ensures FreshAt(t, k) && Later(v, TreeFind(t, k))
       <==> (forall j :: 0 <= j < |t| ==> Later(v, FindRun(t[j], k)))
            && (forall i, j :: 0 <= i < j < |t| ==> Later(FindRun(t[i], k), FindRun(t[j], k)))
  {
    hide FindRun;
    if t != [] {
      FreshIffOrdered(t[1..], k, v);
      FreshIffOrdered(t[1..], k, FindRun(t[0], k));
      assert forall j :: 0 <= j < |t[1..]| ==> t[1..][j] == t[j + 1];
      assert forall j :: 0 < j < |t| ==> t[j] == t[1..][j - 1];
    }
  }

  lemma FreshIsOrder(db: Db, k: Key)
    ensures FreshDb(db, k) <==> RecencyOrder(db, k)
  {
    FreshIffOrdered(db.tree, k, MemGet(db.mem, k));
  }

  // ----- the order is kept -----

  /** A push keeps the order, whichever blocks it moves on the way. */
  lemma {:induction false} PushFresh(bs: nat, t: Tree, source: Run, d: nat, k: Key)
    requires bs >= 1 && t != [] && TreeOk(bs, t, d) && SourceOk(bs, source, d)
    requires FreshAt(t, k) && Later(FindRun(source, k), TreeFind(t, k))
    ensures FreshAt(Push(bs, t, source, d), k)
    ensures TreeFind(Push(bs, t, source, d), k) == Or(FindRun(source, k), TreeFind(t, k))
    decreases |t|, |t[0]|
  {
    hide RunOk, SourceOk, Evict, Push, FindRun, Cap, Tops;
    if |source| + |t[0]| < Cap(d) {
      NoOverflowKey(bs, t, source, d, k);
    } else {
      BelowFind(t, k);
      BelowFresh(t, k);
      OverflowKey(bs, t, source, d, k);
      var e := Evict(source, t[0]);
      PushFresh(bs, Below(t), e.evicted, d + 1, k);
    }
  }

  lemma CompactFresh(bs: nat, t: Tree, k: Key)
    requires bs >= 1 && Appended(bs, t) && |t[0]| == 2 && FreshAt(t[1..], k)
    requires Later(Find(t[0][0], k), TreeFind(t[1..], k))
    requires Later(Find(t[0][1], k), Or(Find(t[0][0], k), TreeFind(t[1..], k)))
    ensures FreshAt(Compact(bs, t), k)
  {
    hide RunOk, BlockOk, Find, FindRun, Cap;
    CompactSource(bs, t);
    FullL0Find(bs, t, k);
    BelowFresh(t, k);
    var s := MergeAll(bs, t[0]);
    PushFresh(bs, Below(t), s, 1, k);
    var r := Compact(bs, t);
    assert r[0] == [] && r[1..] == Push(bs, Below(t), s, 1);
    FindRunNone([], k);
  }

  lemma FlushFresh(bs: nat, db: Db, k: Key)
    requires DbOk(bs, db) && |db.mem| >= bs && FreshDb(db, k)
    ensures FreshDb(Flush(bs, db), k)
  {
    hide TreeOk, Appended, RunOk, BlockOk, SortedPairs, Find, FindRun, MergeAll, Push, Compact;
    FlushAppends(bs, db);
    AppendedFind(bs, db, k);
    var t := Append(db.tree, SortedPairs(db.mem));
    if |t[0]| == 2 {
      CompactFresh(bs, t, k);
    } else {
      ShortCompact(bs, t);
    }
  }

  /** A put whose key is still in the memtable, or that is later than what `get` shows for it. */
  predicate StrictlyDisciplined(db: Db, p: Payload) {
    || p.key in db.mem
    || Visible(db, p.key).None?
    || p.timestamp > Visible(db, p.key).value.timestamp
  }

  /** A put keeps the order for every other key, and for its own exactly when it is strictly
      disciplined. */
  lemma PutFresh(bs: nat, db: Db, p: Payload, k: Key)
    requires DbOk(bs, db) && p.key != "" && FreshDb(db, k)
    ensures FreshDb(Put(bs, db, p), k) <==> (k == p.key ==> StrictlyDisciplined(db, p))
  {
    hide TreeOk, Flush, TreeFind, FreshAt;
    if p.key !in db.mem && |db.mem| >= bs {
      FlushFresh(bs, db, k);
      FreshIsSettled(db, k);
      FlushKeeps(bs, db, k);
    }
  }

  // ----- over runs -----

  ghost predicate StrictAt(bs: nat, puts: Puts, k: Key)
    requires bs >= 1 && KeysOk(puts)
  {
    forall n :: 0 <= n < |puts| && puts[n].key == k ==> StrictlyDisciplined(After(bs, puts[..n]), puts[n])
  }

  ghost predicate OrderedAt(bs: nat, puts: Puts, k: Key)
    requires bs >= 1 && KeysOk(puts)
  {
    forall n :: 0 <= n <= |puts| ==> RecencyOrder(After(bs, puts[..n]), k)
  }

  lemma {:induction false} StrictRun(bs: nat, puts: Puts, n: nat, k: Key)
    requires bs >= 1 && KeysOk(puts) && n <= |puts| && StrictAt(bs, puts, k)
    ensures FreshDb(After(bs, puts[..n]), k)
  {
    hide DbOk, Put, FreshDb, StrictlyDisciplined;
    if n == 0 {
      SpawnFresh(k);
    } else {
      StrictRun(bs, puts, n - 1, k);
      AfterLast(bs, puts, n - 1);
      PutFresh(bs, After(bs, puts[..n - 1]), puts[n - 1], k);
    }
  }

  lemma SpawnFresh(k: Key)
    ensures FreshDb(Spawn(), k)
  {
    SpawnEmpty(k);
    assert Spawn().tree[1..] == [] && FreshAt([], k);
    assert FindRun([], k) == None;
  }

  /** Main theorem. The recency order of a key holds after every prefix of a run if and only if
      every put of the key was strictly disciplined. */
  lemma OrderedIffStrict(bs: nat, puts: Puts, k: Key)
    requires bs >= 1 && KeysOk(puts)
    ensures OrderedAt(bs, puts, k) <==> StrictAt(bs, puts, k)
  {
    hide DbOk, Put, FreshDb, RecencyOrder, StrictlyDisciplined, After;
    if StrictAt(bs, puts, k) {
      forall n | 0 <= n <= |puts|
        ensures RecencyOrder(After(bs, puts[..n]), k)
      {
        StrictRun(bs, puts, n, k);
        FreshIsOrder(After(bs, puts[..n]), k);
      }
    }
    if OrderedAt(bs, puts, k) {
      forall n | 0 <= n < |puts| && puts[n].key == k
        ensures StrictlyDisciplined(After(bs, puts[..n]), puts[n])
      {
        AfterLast(bs, puts, n);
        FreshIsOrder(After(bs, puts[..n]), k);
        FreshIsOrder(After(bs, puts[..n + 1]), k);
        PutFresh(bs, After(bs, puts[..n]), puts[n], k);
      }
    }
  }

  /** With increasing timestamps per key, every reachable store is in recency order. */
  lemma IncreasingIsOrdered(bs: nat, puts: Puts, k: Key)
    requires bs >= 1 && KeysOk(puts) && Increasing(puts, k)
    ensures RecencyOrder(After(bs, puts), k)
  {
    hide DbOk, Put, Get, After, NewestPut, RecencyOrder, FreshDb, Visible;
    forall n | 0 <= n < |puts| && puts[n].key == k
      ensures StrictlyDisciplined(After(bs, puts[..n]), puts[n])
    {
      StoreIsMap(bs, puts[..n], k);
      NewestIsLast(puts[..n], k);
      NewestPutIsNewest(puts[..n], k);
      GetIsVisible(bs, After(bs, puts[..n]), k);
    }
    StrictRun(bs, puts, |puts|, k);
    assert puts[..|puts|] == puts;
    FreshIsOrder(After(bs, puts), k);
  }
}
