/** The memtable: the latest pairs, written to L0 as one block when it is full. */
module Memtables {
  import opened Keys
  import opened Payloads
  import opened Runs
  import opened Compaction
  import opened Capsule
  import opened Index
  import opened Database

  class Memtable {
    const maxSize: nat
    const memtable: PairMap
    /** The keys that have a lock. */
    var locklst: set<Key>

    ghost predicate Valid()
      reads this, memtable
    {
      maxSize >= 1 && locklst == memtable.pairs.Keys && MemOk(maxSize, memtable.pairs)
    }

    constructor (ms: nat)
      requires ms >= 1
      ensures Valid() && maxSize == ms && memtable.pairs == map[] && fresh(memtable)
    {
      maxSize := ms;
      memtable := new PairMap();
      locklst := {};
    }

    /** The pair stored under `key`; a payload with the empty key when there is none. */
    method Get(key: Key) returns (got: Payload)
      requires Valid()
      ensures match MemGet(memtable.pairs, key) case Some(p) => got == p && got.key != "" case None => got.key == ""
    {
      if key !in locklst {
        got := Payload("", "", 0, "");
      } else {
        got := memtable.pairs[key];
      }
    }

    /** Memtable and index together. */
    ghost function View(index: CapsuleIndex): Db
      reads this, memtable, index
    {
      Db(memtable.pairs, index.tree)
    }

    /** `index` is the one this memtable is flushed into, and records its states. */
    ghost predicate ValidWith(index: CapsuleIndex)
      reads this, memtable, index, index.levels, index.store
    {
      Valid() && index.table == memtable && index.Valid() && index.blocksize == maxSize && DbOk(maxSize, View(index))
    }

    lemma LastRecorded(index: CapsuleIndex)
      requires ValidWith(index)
      ensures index.trace != [] && index.trace[|index.trace| - 1] == View(index)
    {
    }

    /** Stores a payload, unless the memtable holds its key with a timestamp as late. A new key
        first makes room. */
    method Put(payload: Payload, index: CapsuleIndex) returns (stored: bool)
      requires ValidWith(index) && payload.key != ""
      modifies this, memtable, index, index.levels, index.store
      ensures ValidWith(index)
      ensures stored == Accepts(old(memtable.pairs), payload)
      ensures View(index) == Database.Put(maxSize, old(View(index)), payload)
      ensures forall l :: l in index.levels ==> l in old(index.levels) || fresh(l)
      ensures Extends(old(index.store.files), index.store.files)
      ensures index.trace == old(index.trace) + PutStates(maxSize, old(View(index)), payload)
    {
      hide RoomStates, Extends, TreeOk, CapsuleIndex.Valid, Database.Put, MemOk, DbOk;
      PutCases(maxSize, View(index), payload);
      if payload.key in locklst {
        var prevTimestamp := memtable.pairs[payload.key].timestamp;
        ExtendsReflexive(index.store.files);
        if payload.timestamp <= prevTimestamp {
          return false;
        } else {
          assert memtable.pairs.Keys + {payload.key} == memtable.pairs.Keys;
          Store(payload, index);
          return true;
        }
      } else {
        PutNew(payload, index);
        return true;
      }
    }

    /** The branch for a key that the memtable does not hold. */
    method PutNew(payload: Payload, index: CapsuleIndex)
      requires ValidWith(index) && payload.key != "" && payload.key !in memtable.pairs
      modifies this, memtable, index, index.levels, index.store
      ensures ValidWith(index) && View(index) == Database.Put(maxSize, old(View(index)), payload)
      ensures forall l :: l in index.levels ==> l in old(index.levels) || fresh(l)
      ensures Extends(old(index.store.files), index.store.files)
      ensures index.trace == old(index.trace) + RoomStates(maxSize, old(View(index))) + [View(index)]
    {
      hide RoomStates, Extends, TreeOk, CapsuleIndex.Valid, MakeRoom, Database.Put, MemOk, DbOk;
      PutCases(maxSize, View(index), payload);
      WriteOutIfFull(index);
      locklst := locklst + {payload.key};
      Store(payload, index);
    }

    /** Stores a pair whose key has a lock. */
    method Store(payload: Payload, ghost index: CapsuleIndex)
      requires locklst == memtable.pairs.Keys + {payload.key} && index.table == memtable && index.Valid()
      modifies memtable, index`trace
      ensures memtable.pairs == old(memtable.pairs)[payload.key := payload] && locklst == memtable.pairs.Keys
      ensures index.Valid() && index.trace == old(index.trace) + [View(index)]
    {
      memtable.pairs := memtable.pairs[payload.key := payload];
      index.Record();
    }

    /** Writes the memtable to L0 and empties it, if it is full. The index passes through the
        steps of a flush, while the memtable still holds its pairs. */
    method WriteOutIfFull(index: CapsuleIndex)
      requires ValidWith(index)
      modifies this, memtable, index, index.levels, index.store
      ensures ValidWith(index)
      ensures View(index) == MakeRoom(maxSize, old(View(index)))
      ensures forall l :: l in index.levels ==> l in old(index.levels) || fresh(l)
      ensures Extends(old(index.store.files), index.store.files)
      ensures index.trace == old(index.trace) + RoomStates(maxSize, old(View(index)))
    {
      hide BlockOk, CompactStates, Compact, SortedPairs, Appended, CapsuleIndex.RepresentsIn, MinKey, MaxKey,
           Flush, RoomStates, Under, Extends, TreeOk, Compaction.AddBlock;
      ExtendsReflexive(index.store.files);
      FlushParts(maxSize, View(index));
      if |memtable.pairs| >= maxSize {
        ghost var db := View(index);
        var capsuleBlock := FillBlock();
        ghost var pairs := SortedPairs(memtable.pairs);
        BlockRange(maxSize, pairs);
        var recordHash := capsuleBlock.WriteOut(index.store);
        index.StoreGrew(old(index.store.files));
        ghost var written := index.store.files;
        var status := index.AddHash(0, recordHash, capsuleBlock);
        ExtendsTransitive(old(index.store.files), written, index.store.files);
        memtable.pairs := map[];
        locklst := {};
        index.Record();
        assert View(index) == Flush(maxSize, db);
      }
    }

    /** Fills a block with the pairs of the memtable in key order, and records its range. */
    method FillBlock() returns (capsuleBlock: CapsuleBlock)
      requires Valid() && memtable.pairs.Keys != {}
      ensures fresh(capsuleBlock) && capsuleBlock.kvPairs == SortedPairs(memtable.pairs) && capsuleBlock.level == 0
      ensures var pairs := SortedPairs(memtable.pairs); capsuleBlock.Range() == KeyRange(MinKey(pairs), MaxKey(pairs))
    {
      hide SortedPairs, Sorted, Min, Max, Widen, MinKey, MaxKey, Filling;
      capsuleBlock := new CapsuleBlock(0);
      var first := Begin(memtable.pairs);
      var minKey, maxKey := first, first;
      var rest := memtable.pairs;
      FillingStart(memtable.pairs, first);
      while rest.Keys != {}
        invariant fresh(capsuleBlock) && capsuleBlock.level == 0
        invariant Filling(memtable.pairs, rest, capsuleBlock.kvPairs, minKey, maxKey)
        decreases |rest|
      {
        FillingRest(memtable.pairs, rest, capsuleBlock.kvPairs, minKey, maxKey);
        var k := Begin(rest);
        FillingStep(memtable.pairs, rest, capsuleBlock.kvPairs, minKey, maxKey, k);
        capsuleBlock.AddKVPair(rest[k]);
        minKey := Min(minKey, k);
        maxKey := Max(maxKey, k);
        rest := rest - {k};
      }
      FillingEnd(memtable.pairs, rest, capsuleBlock.kvPairs, minKey, maxKey);
      capsuleBlock.SetMinKey(minKey);
      capsuleBlock.SetMaxKey(maxKey);
    }

    /** `filled` are the pairs taken so far out of `all`, with their least and greatest key, and `rest`
        are those still to come. Before the first pair both keys are its own. */
    static ghost predicate Filling(all: Table, rest: Table, filled: Block, minKey: Key, maxKey: Key) {
      var pairs, n := SortedPairs(all), |filled|;
      && pairs != [] && Sorted(pairs)
      && (forall k :: k in rest ==> k in all && rest[k] == all[k])
      && n <= |pairs| && filled == pairs[..n] && SortedPairs(rest) == pairs[n..]
      && minKey == pairs[0].key
      && maxKey == if n == 0 then pairs[0].key else pairs[n - 1].key
    }

    static lemma FillingStart(all: Table, first: Key)
      requires SortedPairs(all) != [] && SortedPairs(all)[0].key == first
      requires forall k :: k in all ==> all[k].key == k
      ensures Filling(all, all, [], first, first)
    {
      SortedPairsSorted(all);
    }

    static lemma FillingRest(all: Table, rest: Table, filled: Block, minKey: Key, maxKey: Key)
      requires Filling(all, rest, filled, minKey, maxKey) && forall k :: k in all ==> all[k].key == k
      ensures forall k :: k in rest ==> rest[k].key == k
    {
    }

    static lemma FillingStep(all: Table, rest: Table, filled: Block, minKey: Key, maxKey: Key, k: Key)
      requires Filling(all, rest, filled, minKey, maxKey)
      requires rest.Keys != {} && k == Least(rest.Keys) && rest[k].key == k
      ensures Filling(all, rest - {k}, filled + [rest[k]], Min(minKey, k), Max(maxKey, k))
      ensures |rest - {k}| < |rest|
    {
      hide SortedPairs, Sorted, Less, Min, Max, Least;
      SortedPairsNext(SortedPairs(all), |filled|, rest, k);
      PrefixSpan(SortedPairs(all), |filled|);
    }

    static lemma FillingEnd(all: Table, rest: Table, filled: Block, minKey: Key, maxKey: Key)
      requires Filling(all, rest, filled, minKey, maxKey) && rest.Keys == {}
      ensures filled == SortedPairs(all) && minKey == MinKey(filled) && maxKey == MaxKey(filled)
    {
      hide SortedPairs, Sorted, MinKey, MaxKey;
      SortedPairsEmpty(rest);
      EndKeys(SortedPairs(all));
    }

    /** Where an iteration of the ordered map starts. */
    static method Begin(m: Table) returns (k: Key)
      requires m.Keys != {}
      requires forall j :: j in m ==> m[j].key == j
      ensures k in m && SortedPairs(m) != [] && SortedPairs(m)[0].key == k && k == Least(m.Keys)
    {
      LeastExists(m.Keys);
      k :| k in m.Keys && forall j :: j in m.Keys ==> AtMost(k, j);
      LeastUnique(m.Keys, k, Least(m.Keys));
    }
  }

  /** Making room, in the words of the index: a block added to L0, and a compaction. */
  lemma FlushParts(bs: nat, db: Db)
    requires DbOk(bs, db)
    ensures |db.mem| < bs ==> RoomStates(bs, db) == []
    ensures |db.mem| >= bs ==>
              var b := SortedPairs(db.mem);
              var t := Compaction.AddBlock(db.tree, 0, b);
              && BlockOk(bs, b) && Appended(bs, t)
              && Flush(bs, db) == Db(map[], Compaction.Compact(bs, t))
              && RoomStates(bs, db) == Under(db.mem, [t] + CompactStates(bs, t)) + [Flush(bs, db)]
  {
    hide SortedPairs, Compact, CompactStates, BlockOk, Appended, TreeOk;
    if |db.mem| >= bs {
      FlushAppends(bs, db);
    }
  }

  lemma FewerKeys(m: Table, k: Key)
    requires k in m
    ensures |m - {k}| < |m|
  {
    assert m == (m - {k})[k := m[k]];
  }

  lemma SortedPairsUnfold(m: Table)
    requires m.Keys != {}
    ensures SortedPairs(m) == [m[Least(m.Keys)]] + SortedPairs(m - {Least(m.Keys)})
  {
  }

  /** One step of the iteration: the least key left is the next pair. */
  lemma SortedPairsNext(pairs: Block, n: nat, rest: Table, k: Key)
    requires rest.Keys != {} && k == Least(rest.Keys) && n <= |pairs| && SortedPairs(rest) == pairs[n..]
    ensures n < |pairs| && pairs[n] == rest[k] && pairs[..n + 1] == pairs[..n] + [rest[k]]
    ensures SortedPairs(rest - {k}) == pairs[n + 1..] && |rest - {k}| < |rest|
  {
    hide Least, SortedPairs;
    FewerKeys(rest, k);
    SortedPairsUnfold(rest);
    assert pairs[n..][0] == pairs[n] && pairs[n..][1..] == pairs[n + 1..];
  }

  lemma EndKeys(b: Block)
    requires b != []
    ensures MinKey(b) == b[0].key && MaxKey(b) == b[|b| - 1].key
  {
  }

  /** The three outcomes of a put. */
  lemma PutCases(bs: nat, db: Db, p: Payload)
    requires DbOk(bs, db) && p.key != ""
    ensures var room := MakeRoom(bs, db);
            Database.Put(bs, db, p) ==
            (if p.key !in db.mem then room.(mem := room.mem[p.key := p])
             else if p.timestamp > db.mem[p.key].timestamp then db.(mem := db.mem[p.key := p])
             else db)
    ensures MemOk(bs, Database.Put(bs, db, p).mem) && DbOk(bs, Database.Put(bs, db, p))
  {
  }

  lemma SortedPairsEmpty(rest: Table)
    requires rest.Keys == {}
    ensures SortedPairs(rest) == []
  {
  }

  /** The next key of a sorted list is above the first and the last so far. */
  lemma PrefixSpan(s: seq<Payload>, n: nat)
    requires Sorted(s) && n < |s|
    ensures Min(s[0].key, s[n].key) == s[0].key
    ensures Max(if n == 0 then s[0].key else s[n - 1].key, s[n].key) == s[n].key
  {
    Irreflexive(s[0].key);
    if n > 0 {
      Asymmetric(s[0].key, s[n].key);
    }
  }

  lemma BlockRange(bs: nat, b: Block)
    requires BlockOk(bs, b)
    ensures b != [] && MinKey(b) != "" && MaxKey(b) != ""
  {
    assert b[0] in b && b[|b| - 1] in b;
  }
}
