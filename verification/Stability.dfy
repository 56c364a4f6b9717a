/** What happens to the answer for a key while only other keys are put: which version is left in
    the end, and when the answer never changes. */
module Stability {
  import opened Wrappers
  import opened Keys
  import opened Payloads
  import opened Runs
  import opened Eviction
  import opened Compaction
  import opened Database
  import opened History

  // ----- the version that survives -----

  /** The latest version of `k` on the levels, the lowest of them on ties. */
  function Latest(t: Tree, k: Key): Option<Payload> {
    if t == [] then None else Newer(FindRun(t[0], k), Latest(t[1..], k))
  }

  /** The version all merges leave in the end. A flushed block wins a tie against L0, and a lower
      level wins one against a higher. */
  function Survivor(db: Db, k: Key): Option<Payload>
    requires db.tree != []
  {
    Newer(Newer(FindRun(db.tree[0], k), MemGet(db.mem, k)), Latest(db.tree[1..], k))
  }

  function One(o: Option<Payload>): nat {
    if o.Some? then 1 else 0
  }

  /** On how many levels `k` is stored. */
  function Holders(t: Tree, k: Key): nat {
    if t == [] then 0 else One(FindRun(t[0], k)) + Holders(t[1..], k)
  }

  function Copies(db: Db, k: Key): nat {
    One(MemGet(db.mem, k)) + Holders(db.tree, k)
  }

  lemma BelowLatest(t: Tree, k: Key)
    requires t != []
    ensures Latest(t, k) == Newer(FindRun(t[0], k), Latest(Below(t), k))
    ensures Holders(t, k) == One(FindRun(t[0], k)) + Holders(Below(t), k)
  {
    if |t| == 1 {
      assert Latest([[]], k) == Newer(FindRun([], k), Latest([], k));
      assert Holders([[]], k) == One(FindRun([], k)) + Holders([], k);
    }
  }

  /** Whatever the timestamps, a push conserves the latest version of a key, and never spreads a key
      over more levels. */
  lemma {:induction false} PushLatest(bs: nat, t: Tree, source: Run, d: nat, k: Key)
    requires bs >= 1 && t != [] && TreeOk(bs, t, d) && SourceOk(bs, source, d)
    ensures Latest(Push(bs, t, source, d), k) == Newer(FindRun(source, k), Latest(t, k))
    ensures Holders(Push(bs, t, source, d), k) <= One(FindRun(source, k)) + Holders(t, k)
    decreases |t|, |t[0]|
  {
    hide RunOk, SourceOk, Evict, Push, FindRun, Cap;
    BelowLatest(t, k);
    if |source| + |t[0]| < Cap(d) {
      NoOverflowKey(bs, t, source, d, k);
    } else {
      OverflowKey(bs, t, source, d, k);
      var e := Evict(source, t[0]);
      PushLatest(bs, Below(t), e.evicted, d + 1, k);
    }
  }

  lemma CompactLatest(bs: nat, t: Tree, k: Key)
    requires bs >= 1 && Appended(bs, t) && |t[0]| == 2
    ensures Compact(bs, t)[0] == []
    ensures Latest(Compact(bs, t)[1..], k) == Newer(Newer(Find(t[0][0], k), Find(t[0][1], k)), Latest(t[1..], k))
    ensures Holders(Compact(bs, t)[1..], k) <= One(Newer(Find(t[0][0], k), Find(t[0][1], k))) + Holders(t[1..], k)
  {
    hide RunOk, BlockOk, Find, FindRun, Cap;
    CompactSource(bs, t);
    FullL0Find(bs, t, k);
    BelowLatest(t, k);
    FindRunNone([], k);
    var s := MergeAll(bs, t[0]);
    PushLatest(bs, Below(t), s, 1, k);
    assert Compact(bs, t)[1..] == Push(bs, Below(t), s, 1);
    if |t| == 1 {
      assert Latest([[]], k) == Newer(FindRun([], k), Latest([], k));
      assert Holders([[]], k) == One(FindRun([], k)) + Holders([], k);
    }
  }

  lemma FlushSurvivor(bs: nat, db: Db, k: Key)
    requires DbOk(bs, db) && |db.mem| >= bs
    ensures Survivor(Flush(bs, db), k) == Survivor(db, k)
    ensures Copies(Flush(bs, db), k) <= Copies(db, k)
  {
    hide TreeOk, Appended, RunOk, BlockOk, SortedPairs, Find, FindRun, Compact;
    FlushAppends(bs, db);
    AppendedFind(bs, db, k);
    FindRunNone([], k);
    var t := Append(db.tree, SortedPairs(db.mem));
    CompactOk(bs, t);
    if |t[0]| == 2 {
      CompactLatest(bs, t, k);
    } else {
      ShortCompact(bs, t);
    }
  }

  /** A put of another key conserves the survivor. */
  lemma PutSurvivor(bs: nat, db: Db, p: Payload, k: Key)
    requires DbOk(bs, db) && p.key != "" && p.key != k
    ensures Survivor(Put(bs, db, p), k) == Survivor(db, k)
    ensures Copies(Put(bs, db, p), k) <= Copies(db, k)
  {
    hide TreeOk, Flush, FindRun, Latest, Holders;
    if p.key !in db.mem && |db.mem| >= bs {
      FlushSurvivor(bs, db, k);
    }
  }

  // ----- runs of puts of other keys -----

  ghost predicate Others(puts: Puts, k: Key) {
    KeysOk(puts) && forall n :: 0 <= n < |puts| ==> puts[n].key != k
  }

  /** The store after more puts. */
  ghost function Then(bs: nat, db: Db, puts: Puts): (r: Db)
    requires DbOk(bs, db) && KeysOk(puts)
    ensures DbOk(bs, r)
  {
    hide DbOk, Put;
    if puts == [] then db else Put(bs, Then(bs, db, puts[..|puts| - 1]), puts[|puts| - 1])
  }

  lemma {:induction false} ThenConcat(bs: nat, db: Db, a: Puts, b: Puts)
    requires DbOk(bs, db) && KeysOk(a) && KeysOk(b)
    ensures KeysOk(a + b) && Then(bs, db, a + b) == Then(bs, Then(bs, db, a), b)
  {
    hide DbOk, Put;
    if b == [] {
      assert a + b == a;
    } else {
      assert (a + b)[..|a + b| - 1] == a + b[..|b| - 1];
      ThenConcat(bs, db, a, b[..|b| - 1]);
    }
  }

  /** A reachable store and more puts is a reachable store. */
  lemma {:induction false} AfterThen(bs: nat, a: Puts, b: Puts)
    requires bs >= 1 && KeysOk(a) && KeysOk(b)
    ensures KeysOk(a + b) && After(bs, a + b) == Then(bs, After(bs, a), b)
  {
    hide DbOk, Put;
    if b == [] {
      assert a + b == a;
    } else {
      assert (a + b)[..|a + b| - 1] == a + b[..|b| - 1];
      AfterThen(bs, a, b[..|b| - 1]);
    }
  }

  /** Conservation, unconditional: no run of puts of other keys changes the survivor. A settled
      answer stays as it is. */
  lemma {:induction false} SurvivorConserved(bs: nat, db: Db, puts: Puts, k: Key)
    requires DbOk(bs, db) && Others(puts, k)
    ensures Survivor(Then(bs, db, puts), k) == Survivor(db, k)
    ensures Copies(Then(bs, db, puts), k) <= Copies(db, k)
    ensures Settled(db, k) ==>
              Settled(Then(bs, db, puts), k) && Visible(Then(bs, db, puts), k) == Visible(db, k)
  {
    hide TreeOk, MemOk, Put, Survivor, Copies, Settled, Visible;
    if puts != [] {
      var before := puts[..|puts| - 1];
      SurvivorConserved(bs, db, before, k);
      var was := Then(bs, db, before);
      PutSurvivor(bs, was, puts[|puts| - 1], k);
      if Settled(db, k) {
        PutFrame(bs, was, puts[|puts| - 1], k);
      }
    }
  }

  // ----- answer and survivor -----

  lemma {:induction false} LatestIsLatest(t: Tree, k: Key)
    ensures Latest(t, k).Some? ==> Latest(t, k).value in Versions(t, k)
    ensures forall w :: w in Versions(t, k) ==> Latest(t, k).Some? && w.timestamp <= Latest(t, k).value.timestamp
    ensures Latest(t, k).Some? <==> TreeFind(t, k).Some?
  {
    if t != [] {
      LatestIsLatest(t[1..], k);
    }
  }

  lemma {:induction false} TopIsLatest(t: Tree, k: Key, v: Option<Payload>)
    requires Tops(Or(v, TreeFind(t, k)), Versions(t, k))
    ensures Newer(v, Latest(t, k)) == Or(v, TreeFind(t, k))
  {
    LatestIsLatest(t, k);
    if t != [] && v.None? {
      TopIsLatest(t[1..], k, FindRun(t[0], k));
    }
  }

  lemma SettledIsSurvivor(db: Db, k: Key)
    requires db.tree != [] && Settled(db, k)
    ensures Visible(db, k) == Survivor(db, k)
  {
    TopIsLatest(db.tree[1..], k, Or(MemGet(db.mem, k), FindRun(db.tree[0], k)));
  }

  /** The survivor is a stored version with the latest timestamp of all. */
  lemma SurvivorIsLatest(db: Db, k: Key)
    requires db.tree != []
    ensures Survivor(db, k).Some? ==> Survivor(db, k).value in AllVersions(db, k)
    ensures forall w :: w in AllVersions(db, k) ==>
              Survivor(db, k).Some? && w.timestamp <= Survivor(db, k).value.timestamp
  {
    hide FindRun, AllVersions, Latest, Versions;
    LatestIsLatest(db.tree[1..], k);
    AllVersionsParts(db, k);
  }

  /** A key stored once has that version as answer and survivor. */
  lemma OneCopySettled(db: Db, k: Key)
    requires db.tree != [] && Copies(db, k) <= 1
    ensures Settled(db, k)
  {
    if Holders(db.tree[1..], k) == 0 {
      NoHolders(db.tree[1..], k);
    } else {
      OneHolder(db.tree[1..], k);
    }
  }

  lemma {:induction false} NoHolders(t: Tree, k: Key)
    requires Holders(t, k) == 0
    ensures TreeFind(t, k) == None && Versions(t, k) == {}
  {
    if t != [] {
      NoHolders(t[1..], k);
    }
  }

  lemma {:induction false} OneHolder(t: Tree, k: Key)
    requires Holders(t, k) == 1
    ensures TreeFind(t, k).Some? && Versions(t, k) == {TreeFind(t, k).value}
  {
    if FindRun(t[0], k).Some? {
      NoHolders(t[1..], k);
    } else {
      OneHolder(t[1..], k);
    }
  }

  // ----- the survivor of a run -----

  /** A put of the key itself makes the survivor as late as the later of the two. */
  lemma PutOwnSurvivor(bs: nat, db: Db, p: Payload)
    requires DbOk(bs, db) && p.key != ""
    ensures var was, now := Survivor(db, p.key), Survivor(Put(bs, db, p), p.key);
            && now.Some?
            && now.value.timestamp == if was.Some? && was.value.timestamp > p.timestamp then was.value.timestamp
                                      else p.timestamp
  {
    hide TreeOk, Flush, FindRun, Latest, Holders;
    if p.key !in db.mem && |db.mem| >= bs {
      FlushSurvivor(bs, db, p.key);
    }
  }

  /** Whatever the order of the timestamps, the latest one put under a key is never lost. */
  lemma {:induction false} SurvivorIsNewest(bs: nat, puts: Puts, k: Key)
    requires bs >= 1 && KeysOk(puts)
    ensures Survivor(After(bs, puts), k).Some? <==> NewestPut(puts, k).Some?
    ensures NewestPut(puts, k).Some? ==>
              Survivor(After(bs, puts), k).value.timestamp == NewestPut(puts, k).value.timestamp
  {
    hide TreeOk, MemOk, Put, Survivor;
    if puts == [] {
      SpawnSurvivor(k);
    } else {
      var before, p := puts[..|puts| - 1], puts[|puts| - 1];
      SurvivorIsNewest(bs, before, k);
      if p.key == k {
        PutOwnSurvivor(bs, After(bs, before), p);
      } else {
        PutSurvivor(bs, After(bs, before), p, k);
      }
    }
  }

  lemma SpawnSurvivor(k: Key)
    ensures Survivor(Spawn(), k) == None
  {
    SpawnEmpty(k);
    SettledIsSurvivor(Spawn(), k);
  }

  /** Equal timestamps mean equal payloads. */
  ghost predicate TieFree(puts: Puts, k: Key) {
    forall p, q :: p in puts && q in puts && p.key == q.key == k && p.timestamp == q.timestamp ==> p == q
  }

  /** Without ties the survivor is the newest put. */
  lemma SurvivorWasNewest(bs: nat, puts: Puts, k: Key)
    requires bs >= 1 && KeysOk(puts) && TieFree(puts, k)
    ensures Survivor(After(bs, puts), k) == NewestPut(puts, k)
  {
    hide TreeOk, MemOk, After, NewestPut, Survivor, AllVersions;
    SurvivorIsNewest(bs, puts, k);
    NewestPutIsNewest(puts, k);
    SurvivorIsLatest(After(bs, puts), k);
    VersionsWerePut(bs, puts, k);
  }

  /** So a put is later than every stored version of its key exactly when it is later than every
      earlier put of it, which is what `NewestRestored` asks for. */
  lemma LaterThanStored(bs: nat, puts: Puts, k: Key, time: int)
    requires bs >= 1 && KeysOk(puts)
    ensures (forall w :: w in AllVersions(After(bs, puts), k) ==> w.timestamp < time)
       <==> (forall n :: 0 <= n < |puts| && puts[n].key == k ==> puts[n].timestamp < time)
  {
    hide TreeOk, MemOk, After, NewestPut, Survivor, AllVersions;
    SurvivorIsNewest(bs, puts, k);
    NewestPutIsNewest(puts, k);
    SurvivorIsLatest(After(bs, puts), k);
    VersionsWerePut(bs, puts, k);
  }
}
