/** The database: the memtable over the index. Its invariant ties the object to the run of puts
    made on it, so that every theorem about runs holds of every reachable database. */
module Engine {
  import opened Wrappers
  import opened Keys
  import opened Payloads
  import opened Runs
  import opened Compaction
  import opened Capsule
  import opened Index
  import opened Memtables
  import opened Database
  import opened History

  class CapsuleDB {
    const memtable: Memtable
    const index: CapsuleIndex
    /** Every put made so far. */
    ghost var puts: Puts

    ghost predicate Valid()
      reads this, memtable, memtable.memtable, index, index.levels, index.store
    {
      && memtable.ValidWith(index) && KeysOk(puts)
      && memtable.View(index) == After(memtable.maxSize, puts)
    }

    /** The same, of the files `files` only: what other databases write to the store is left open. */
    ghost predicate ValidIn(files: Files)
      reads this, memtable, memtable.memtable, index, index.levels
    {
      && memtable.Valid() && index.table == memtable.memtable && index.RepresentsIn(files) && index.Recorded()
      && index.blocksize == memtable.maxSize && KeysOk(puts)
      && memtable.View(index) == After(memtable.maxSize, puts)
    }

    lemma ValidHere()
      requires Valid()
      ensures ValidIn(index.store.files)
    {
    }

    /** All databases write to one store. Since each only adds to it, none makes another invalid. */
    lemma StoreGrew(was: Files)
      requires ValidIn(was) && index.store.Valid() && Extends(was, index.store.files)
      ensures Valid()
    {
      hide CapsuleIndex.RepresentsIn, Extends, TreeOk;
      index.StoreGrew(was);
    }

    /** `spawnDB`. */
    constructor (memtableSize: nat, store: CapsuleStore)
      requires memtableSize >= 1 && store.Valid()
      ensures Valid() && puts == [] && memtable.maxSize == memtableSize && index.store == store
      ensures fresh(memtable) && fresh(memtable.memtable) && fresh(index) && forall l :: l in index.levels ==> fresh(l)
    {
      SpawnOk(memtableSize);
      var m := new Memtable(memtableSize);
      memtable := m;
      index := new CapsuleIndex(memtableSize, store, m.memtable);
      puts := [];
    }

    /** One more put of the run. Every state of memtable and levels on the way answers as before for
        every key whose answer is settled, as that of a key with disciplined puts is; all but the
        last state do so even for the key put. */
    method Put(payload: Payload)
      requires Valid() && payload.key != ""
      modifies this, memtable, memtable.memtable, index, index.levels, index.store
      ensures Valid() && puts == old(puts) + [payload]
      ensures forall l :: l in index.levels ==> l in old(index.levels) || fresh(l)
      ensures old(index.trace) <= index.trace && index.trace[|index.trace| - 1] == memtable.View(index)
      ensures forall i, k ::
                && |old(index.trace)| <= i < |index.trace| && Settled(old(memtable.View(index)), k)
                && (i < |index.trace| - 1 || k != payload.key) ==>
                Database.Get(index.trace[i], k) == Database.Get(old(memtable.View(index)), k)
      ensures Extends(old(index.store.files), index.store.files)
      ensures forall k :: DisciplinedAt(memtable.maxSize, old(puts), k) ==>
                            Settled(old(memtable.View(index)), k)
                            && Database.Get(old(memtable.View(index)), k) == NewestPut(old(puts), k)
    {
      hide Memtable.ValidWith, Database.Put, Database.Get, PutStates, NewestPut, DisciplinedAt, Settled, Flush,
           Extends, TreeOk, MemOk;
      ghost var was := memtable.View(index);
      var stored := memtable.Put(payload, index);
      memtable.LastRecorded(index);
      forall k | Settled(was, k)
        ensures var states := PutStates(memtable.maxSize, was, payload);
                forall i :: 0 <= i < |states| && (i < |states| - 1 || k != payload.key) ==>
                              Database.Get(states[i], k) == Database.Get(was, k)
      {
        PutNoGap(memtable.maxSize, was, payload, k);
      }
      forall k | DisciplinedAt(memtable.maxSize, old(puts), k)
        ensures NewestSettled(memtable.maxSize, old(puts), k)
      {
        DisciplinedSettles(memtable.maxSize, old(puts), k);
      }
      puts := puts + [payload];
      assert puts[..|puts| - 1] == old(puts);
    }

    /** What is found is what the shortcuts of the model find, which is what a full scan finds. The
        key is found exactly if it was put, and then with a payload put under it; if its puts were
        disciplined, with the newest. */
    method Get(key: Key) returns (kv: Payload)
      requires Valid()
      ensures match Database.Get(memtable.View(index), key)
              case Some(v) => kv == v && v.key != ""
              case None => kv.key == ""
      ensures kv.key != "" <==> exists n :: 0 <= n < |puts| && puts[n].key == key
      ensures kv.key != "" ==> kv in puts && kv.key == key
      ensures DisciplinedAt(memtable.maxSize, puts, key) && kv.key != "" ==> NewestPut(puts, key) == Some(kv)
    {
      hide TreeGet, TreeOk, FirstMatch, Scan, CapsuleIndex.Represents, After, NewestPut, AllVersions,
           Disciplined, Database.Get;
      Answer(key);
      kv := memtable.Get(key);
      if kv.key == "" {
        var levelInfo := index.GetNumLevels();
        assert index.tree[0..] == index.tree;
        for i := 0 to levelInfo
          invariant TreeGet(index.tree, key, 0) == TreeGet(index.tree[i..], key, i)
        {
          TreeGetStep(index.tree, key, i);
          var blockInfo := index.GetBlock(i, key);
          if blockInfo != Absent {
            var block := index.store.ReadIn(blockInfo);
            var found, kvTuple := ScanPairs(block, key, i != 0);
            if found {
              return kvTuple;
            }
          }
        }
        TreeGetEnd(index.tree, key);
      }
    }

    /** The loop over the pairs of one block; every level but L0 stops at a larger key. */
    method ScanPairs(block: CapsuleBlock, key: Key, early: bool) returns (found: bool, kv: Payload)
      ensures Scan(block.kvPairs, key, early) == if found then Some(kv) else None
    {
      assert block.kvPairs[0..] == block.kvPairs;
      for j := 0 to |block.kvPairs|
        invariant Scan(block.kvPairs, key, early) == Scan(block.kvPairs[j..], key, early)
      {
        ScanStep(block.kvPairs, key, j, early);
        kv := block.kvPairs[j];
        if early && Less(key, kv.key) {
          return false, kv;
        } else if kv.key == key {
          return true, kv;
        }
      }
      return false, Payload("", "", 0, "");
    }

    /** The shape of every reachable index: L0 has at most one block, each level knows its position
        and block count and is below its size limit, its headers give the true first and last
        keys of blocks written for that level, and from L1 on they are in order and disjoint. */
    lemma Structure(i: nat)
      requires Valid() && i < |index.levels|
      ensures var lv, files := index.levels[i], index.store.files;
              && lv.index == i && lv.numBlocks == |lv.recordHashes|
              && index.blocksize * lv.numBlocks < lv.maxSize == index.blocksize * Cap(i)
              && (i == 0 ==> lv.numBlocks <= 1)
              && (forall h :: h in lv.recordHashes ==> HeaderOk(files, h) && files[h.hash].level == i)
              && (forall m, n :: 0 <= m < n < |lv.recordHashes| ==>
                    Less(lv.recordHashes[m].maxKey, lv.recordHashes[n].minKey))
              && (lv.minKey == "" <==> lv.recordHashes == []) && lv.Bounds()
    {
      hide HeaderOk, LessFrom, DbOk, After;
      var lv := index.levels[i];
      var run := index.tree[i];
      HeaderKeys(index.store.files, lv.recordHashes);
      assert RunOk(index.blocksize, run) && |run| < Cap(0 + i);
      TimesLess(index.blocksize, lv.numBlocks, Cap(i));
      forall m, n | 0 <= m < n < |lv.recordHashes|
        ensures Less(lv.recordHashes[m].maxKey, lv.recordHashes[n].minKey)
      {
        assert Before(run[m], run[n]);
      }
      if lv.recordHashes != [] {
        var h :| h in lv.recordHashes && h.minKey == lv.minKey;
        var j :| 0 <= j < |lv.recordHashes| && lv.recordHashes[j] == h;
      }
    }

    /** Every size limit below L0 is at most ten times the number of puts, so it fits a 32-bit
        integer for over two hundred million of them. */
    lemma SizesFit(i: nat)
      requires Valid() && 1 <= i < |index.levels|
      ensures index.levels[i].maxSize <= 10 * |puts|
      ensures |puts| <= 214748364 ==> index.levels[i].maxSize <= 0x7FFF_FFFF
    {
      hide Cap, DbOk, After, Flushes, TotalBlocks;
      DepthBound(memtable.maxSize, puts);
      CapGrows(i, |index.tree| - 1);
      TimesAtMost(index.blocksize, Cap(i), Cap(|index.tree| - 1));
      assert index.levels[i].Holds(index.store.files, i, index.blocksize, index.tree[i]);
    }

    /** What the theorems about runs say of the present state. */
    lemma Answer(key: Key)
      requires Valid()
      ensures var got := Database.Get(memtable.View(index), key);
              && got == Or(MemGet(memtable.memtable.pairs, key), TreeGet(index.tree, key, 0))
              && (got.Some? <==> exists n :: 0 <= n < |puts| && puts[n].key == key)
              && (got.Some? ==> got.value in puts && got.value.key == key != "")
              && (DisciplinedAt(memtable.maxSize, puts, key) ==> got == NewestPut(puts, key))
    {
      hide TreeGet, TreeOk, After, NewestPut, AllVersions, Disciplined, DbOk, CapsuleIndex.Represents;
      KeysConserved(memtable.maxSize, puts, key);
      if DisciplinedAt(memtable.maxSize, puts, key) {
        DisciplinedSettles(memtable.maxSize, puts, key);
      }
    }
  }

  lemma TimesLess(bs: nat, n: nat, cap: nat)
    requires bs >= 1 && n < cap
    ensures bs * n < bs * cap
  {
  }

  lemma TimesAtMost(bs: nat, n: nat, cap: nat)
    requires n <= cap
    ensures bs * n <= bs * cap
  {
  }

  lemma {:induction false} CapGrows(i: nat, j: nat)
    requires i <= j
    ensures Cap(i) <= Cap(j)
    decreases j - i
  {
    if i < j {
      CapGrows(i + 1, j);
      assert Cap(i + 1) == 10 * Cap(i);
    }
  }

  lemma TreeGetStep(t: Tree, k: Key, i: nat)
    requires i < |t|
    ensures TreeGet(t[i..], k, i) == Or(LevelGet(t[i], k, i != 0), TreeGet(t[i + 1..], k, i + 1))
  {
    assert t[i..][1..] == t[i + 1..];
  }

  lemma TreeGetEnd(t: Tree, k: Key)
    ensures TreeGet(t[|t|..], k, |t|) == None
  {
  }

  lemma ScanStep(b: Block, k: Key, j: nat, early: bool)
    requires j < |b|
    ensures Scan(b[j..], k, early)
         == (if early && Less(k, b[j].key) then None
             else if b[j].key == k then Some(b[j]) else Scan(b[j + 1..], k, early))
  {
    assert b[j..][1..] == b[j + 1..];
  }
}
