/** Theorems over whole runs: any sequence of puts from a fresh store. */
module History {
  import opened Wrappers
  import opened Keys
  import opened Payloads
  import opened Runs
  import opened Compaction
  import opened Database

  type Puts = seq<Payload>

  ghost predicate KeysOk(puts: Puts) {
    forall n :: 0 <= n < |puts| ==> puts[n].key != ""
  }

  /** `spawnDB`: an empty memtable over one empty level. */
  function Spawn(): Db {
    Db(map[], [[]])
  }

  lemma SpawnOk(bs: nat)
    requires bs >= 1
    ensures DbOk(bs, Spawn())
  {
  }

  /** The store after a run of puts. */
  ghost function After(bs: nat, puts: Puts): (r: Db)
    requires bs >= 1 && KeysOk(puts)
    ensures DbOk(bs, r)
  {
    hide DbOk, Put;
    SpawnOk(bs);
    if puts == [] then Spawn()
    else Put(bs, After(bs, puts[..|puts| - 1]), puts[|puts| - 1])
  }

  // ----- keys: unconditional -----

  lemma {:induction false} KeysFound(bs: nat, puts: Puts, k: Key)
    requires bs >= 1 && KeysOk(puts)
    ensures Visible(After(bs, puts), k).Some? <==> exists n :: 0 <= n < |puts| && puts[n].key == k
  {
    hide DbOk, Put, Visible, AllVersions;
    if puts == [] {
      SpawnEmpty(k);
    } else {
      var last := |puts| - 1;
      var before := puts[..last];
      KeysFound(bs, before, k);
      PutKeys(bs, After(bs, before), puts[last], k);
      assert forall n :: 0 <= n < last ==> before[n] == puts[n];
    }
  }

  lemma {:induction false} VersionsWerePut(bs: nat, puts: Puts, k: Key)
    requires bs >= 1 && KeysOk(puts)
    ensures forall v :: v in AllVersions(After(bs, puts), k) ==> v in puts && v.key == k
  {
    hide DbOk, Put, Visible, AllVersions;
    if puts == [] {
      SpawnEmpty(k);
    } else {
      var before := puts[..|puts| - 1];
      VersionsWerePut(bs, before, k);
      PutKeys(bs, After(bs, before), puts[|puts| - 1], k);
      assert forall v :: v in before ==> v in puts;
    }
  }

  /** Whatever the timestamps: the keys found are exactly the keys put, and each answer, like
      every version still stored, is a payload that was put under that key. */
  lemma KeysConserved(bs: nat, puts: Puts, k: Key)
    requires bs >= 1 && KeysOk(puts)
    ensures Get(After(bs, puts), k).Some? <==> exists n :: 0 <= n < |puts| && puts[n].key == k
    ensures forall v :: v in AllVersions(After(bs, puts), k) ==> v in puts && v.key == k
    ensures Get(After(bs, puts), k).Some? ==> Get(After(bs, puts), k).value in AllVersions(After(bs, puts), k)
  {
    hide DbOk, Put, Visible, AllVersions, Get, After;
    GetIsVisible(bs, After(bs, puts), k);
    VisibleVersion(After(bs, puts), k);
    KeysFound(bs, puts, k);
    VersionsWerePut(bs, puts, k);
  }

  lemma SpawnEmpty(k: Key)
    ensures Visible(Spawn(), k) == None && AllVersions(Spawn(), k) == {} && Settled(Spawn(), k)
  {
    var t: Tree := [[]];
    assert t[1..] == [];
    assert FindRun([], k) == None;
    assert TreeFind([], k) == None && Versions([], k) == {};
  }

  lemma VisibleVersion(db: Db, k: Key)
    ensures Visible(db, k).Some? ==> Visible(db, k).value in AllVersions(db, k)
  {
    VisibleIsVersion(db.tree, k);
  }

  // ----- the newest put wins -----

  /** The put of `k` with the latest timestamp, the first of them on ties. */
  function NewestPut(puts: Puts, k: Key): Option<Payload> {
    if puts == [] then None
    else
      var was := NewestPut(puts[..|puts| - 1], k);
      var p := puts[|puts| - 1];
      if p.key == k then NewestWins(was, p) else was
  }

  lemma {:induction false} NewestPutIsNewest(puts: Puts, k: Key)
    ensures match NewestPut(puts, k)
            case None => forall n :: 0 <= n < |puts| ==> puts[n].key != k
            case Some(p) =>
              exists n :: 0 <= n < |puts| && puts[n] == p && p.key == k
                          && (forall m :: 0 <= m < |puts| && puts[m].key == k ==> puts[m].timestamp <= p.timestamp)
                          && (forall m :: 0 <= m < n && puts[m].key == k ==> puts[m].timestamp < p.timestamp)
  {
    if puts != [] {
      var last := |puts| - 1;
      var before := puts[..last];
      NewestPutIsNewest(before, k);
      assert forall n :: 0 <= n < last ==> before[n] == puts[n];
      var p := puts[last];
      if p.key == k && NewestPut(puts, k) == Some(p) {
        match NewestPut(before, k) {
          case None =>
            assert puts[last] == p;
          case Some(q) =>
            if q.timestamp < p.timestamp {
              assert puts[last] == p;
            } else {
              var n :| 0 <= n < |before| && before[n] == q && q.key == k
                       && (forall m :: 0 <= m < |before| && before[m].key == k ==> before[m].timestamp <= q.timestamp)
                       && (forall m :: 0 <= m < n && before[m].key == k ==> before[m].timestamp < q.timestamp);
              assert puts[n] == q;
            }
        }
      } else if NewestPut(before, k).Some? {
        var q := NewestPut(before, k).value;
        var n :| 0 <= n < |before| && before[n] == q && q.key == k
                 && (forall m :: 0 <= m < |before| && before[m].key == k ==> before[m].timestamp <= q.timestamp)
                 && (forall m :: 0 <= m < n && before[m].key == k ==> before[m].timestamp < q.timestamp);
        assert puts[n] == q;
      }
    }
  }

  /** Every put of `k` from put `m` on was disciplined when it was made. */
  ghost predicate DisciplinedFrom(bs: nat, puts: Puts, m: nat, k: Key)
    requires bs >= 1 && KeysOk(puts)
  {
    forall n :: m <= n < |puts| && puts[n].key == k ==> Disciplined(After(bs, puts[..n]), puts[n])
  }

  /** After every prefix of at least `m` puts `get` returns the newest put of `k`. */
  ghost predicate NewestFrom(bs: nat, puts: Puts, m: nat, k: Key)
    requires bs >= 1 && KeysOk(puts)
  {
    forall n :: m <= n <= |puts| ==> Get(After(bs, puts[..n]), k) == NewestPut(puts[..n], k)
  }

  ghost predicate DisciplinedAt(bs: nat, puts: Puts, k: Key)
    requires bs >= 1 && KeysOk(puts)
  {
    DisciplinedFrom(bs, puts, 0, k)
  }

  ghost predicate NewestAt(bs: nat, puts: Puts, k: Key)
    requires bs >= 1 && KeysOk(puts)
  {
    NewestFrom(bs, puts, 0, k)
  }

  lemma AfterLast(bs: nat, puts: Puts, n: nat)
    requires bs >= 1 && KeysOk(puts) && n < |puts|
    ensures After(bs, puts[..n + 1]) == Put(bs, After(bs, puts[..n]), puts[n])
    ensures forall k :: NewestPut(puts[..n + 1], k)
                     == (if puts[n].key == k then NewestWins(NewestPut(puts[..n], k), puts[n])
                         else NewestPut(puts[..n], k))
  {
    hide DbOk, Put;
    assert puts[..n + 1][..n] == puts[..n];
  }

  /** One more put: a settled newest-put answer stays so while puts are disciplined, and the first
      undisciplined put breaks it. */
  lemma OneMorePut(bs: nat, puts: Puts, n: nat, k: Key)
    requires bs >= 1 && KeysOk(puts) && n < |puts|
    requires Settled(After(bs, puts[..n]), k) && Get(After(bs, puts[..n]), k) == NewestPut(puts[..n], k)
    ensures Get(After(bs, puts[..n + 1]), k) == NewestPut(puts[..n + 1], k)
       <==> (puts[n].key == k ==> Disciplined(After(bs, puts[..n]), puts[n]))
    ensures (puts[n].key == k ==> Disciplined(After(bs, puts[..n]), puts[n]))
        ==> Settled(After(bs, puts[..n + 1]), k)
  {
    hide DbOk, Put, Get, Settled, Visible, Disciplined, NewestWins, NewestPut;
    AfterLast(bs, puts, n);
    var db := After(bs, puts[..n]);
    GetIsVisible(bs, db, k);
    GetIsVisible(bs, After(bs, puts[..n + 1]), k);
    if puts[n].key == k {
      PutIsNewestWins(bs, db, puts[n]);
    } else {
      PutFrame(bs, db, puts[n], k);
    }
  }

  /** The answer for `k` is settled and is the newest put. */
  ghost predicate NewestSettled(bs: nat, puts: Puts, k: Key)
    requires bs >= 1 && KeysOk(puts)
  {
    Settled(After(bs, puts), k) && Get(After(bs, puts), k) == NewestPut(puts, k)
  }

  lemma SpawnSettled(bs: nat, puts: Puts, k: Key)
    requires bs >= 1 && KeysOk(puts)
    ensures NewestSettled(bs, puts[..0], k)
  {
    SpawnEmpty(k);
    SpawnOk(bs);
    GetIsVisible(bs, Spawn(), k);
  }

  lemma {:induction false} DisciplinedRun(bs: nat, puts: Puts, m: nat, n: nat, k: Key)
    requires bs >= 1 && KeysOk(puts) && m <= n <= |puts| && NewestSettled(bs, puts[..m], k)
    requires forall i :: m <= i < n && puts[i].key == k ==> Disciplined(After(bs, puts[..i]), puts[i])
    ensures NewestSettled(bs, puts[..n], k)
  {
    hide DbOk, Put, Get, Settled, Disciplined;
    if n > m {
      DisciplinedRun(bs, puts, m, n - 1, k);
      OneMorePut(bs, puts, n - 1, k);
    }
  }

  lemma {:induction false} NewestNeedsDiscipline(bs: nat, puts: Puts, m: nat, n: nat, k: Key)
    requires bs >= 1 && KeysOk(puts) && m <= n <= |puts|
    requires NewestSettled(bs, puts[..m], k) && NewestFrom(bs, puts, m, k)
    ensures forall i :: m <= i < n && puts[i].key == k ==> Disciplined(After(bs, puts[..i]), puts[i])
  {
    hide DbOk, Put, Get, Settled, Disciplined, After, NewestPut;
    if n > m {
      NewestNeedsDiscipline(bs, puts, m, n - 1, k);
      DisciplinedRun(bs, puts, m, n - 1, k);
      OneMorePut(bs, puts, n - 1, k);
    }
  }

  /** From any point where the answer is settled and newest, it is the newest put ever after if and
      only if every later put of the key is disciplined. */
  lemma NewestFromIff(bs: nat, puts: Puts, m: nat, k: Key)
    requires bs >= 1 && KeysOk(puts) && m <= |puts| && NewestSettled(bs, puts[..m], k)
    ensures NewestFrom(bs, puts, m, k) <==> DisciplinedFrom(bs, puts, m, k)
  {
    hide DbOk, Put, Get, Settled, Disciplined, After, NewestPut;
    if DisciplinedFrom(bs, puts, m, k) {
      forall n | m <= n <= |puts|
        ensures Get(After(bs, puts[..n]), k) == NewestPut(puts[..n], k)
      {
        DisciplinedRun(bs, puts, m, n, k);
      }
    }
    if NewestFrom(bs, puts, m, k) {
      NewestNeedsDiscipline(bs, puts, m, |puts|, k);
    }
  }

  /** Main theorem. Over any run, `get` always returns the newest put of a key if and only if
      every put of that key was disciplined. */
  lemma NewestIffDisciplined(bs: nat, puts: Puts, k: Key)
    requires bs >= 1 && KeysOk(puts)
    ensures NewestAt(bs, puts, k) <==> DisciplinedAt(bs, puts, k)
  {
    SpawnSettled(bs, puts, k);
    NewestFromIff(bs, puts, 0, k);
  }

  /** One put later than all earlier puts of its key mends whatever they did: it is the answer, and
      from then on the theorem holds as from a fresh store. */
  lemma NewestRestored(bs: nat, puts: Puts, m: nat, k: Key)
    requires bs >= 1 && KeysOk(puts) && m < |puts| && puts[m].key == k
    requires forall i :: 0 <= i < m && puts[i].key == k ==> puts[i].timestamp < puts[m].timestamp
    ensures Get(After(bs, puts[..m + 1]), k) == NewestPut(puts[..m + 1], k) == Some(puts[m])
    ensures NewestFrom(bs, puts, m + 1, k) <==> DisciplinedFrom(bs, puts, m + 1, k)
  {
    hide DbOk, Put, Get, Settled, Disciplined, After, NewestPut, AllVersions, Visible, Topmost;
    var before, upto := puts[..m], puts[..m + 1];
    AfterLast(bs, puts, m);
    VersionsWerePut(bs, before, k);
    PutSettles(bs, After(bs, before), puts[m]);
    GetIsVisible(bs, After(bs, upto), k);
    NewestPutIsNewest(before, k);
    NewestFromIff(bs, puts, m + 1, k);
  }

  /** What a client can promise without looking at the store: per key, later puts carry later
      timestamps. */
  ghost predicate Increasing(puts: Puts, k: Key) {
    forall m, n :: 0 <= m < n < |puts| && puts[m].key == k && puts[n].key == k ==> puts[m].timestamp < puts[n].timestamp
  }

  function PlainMap(puts: Puts): map<Key, Payload> {
    if puts == [] then map[]
    else PlainMap(puts[..|puts| - 1])[puts[|puts| - 1].key := puts[|puts| - 1]]
  }

  lemma {:induction false} NewestIsLast(puts: Puts, k: Key)
    requires Increasing(puts, k)
    ensures NewestPut(puts, k) == MemGet(PlainMap(puts), k)
  {
    if puts != [] {
      NewestIsLast(puts[..|puts| - 1], k);
      NewestPutIsNewest(puts[..|puts| - 1], k);
    }
  }

  /** Corollary: with increasing timestamps per key the whole store is a plain map. */
  lemma StoreIsMap(bs: nat, puts: Puts, k: Key)
    requires bs >= 1 && KeysOk(puts) && Increasing(puts, k)
    ensures Get(After(bs, puts), k) == MemGet(PlainMap(puts), k)
    ensures DisciplinedAt(bs, puts, k)
  {
    hide DbOk, Put, Get, Settled, After, NewestPut;
    IncreasingIsDisciplined(bs, puts, |puts|, k);
    DisciplinedSettles(bs, puts, k);
    NewestIsLast(puts, k);
  }

  lemma {:induction false} IncreasingIsDisciplined(bs: nat, puts: Puts, n: nat, k: Key)
    requires bs >= 1 && KeysOk(puts) && Increasing(puts, k) && n <= |puts|
    ensures forall m :: 0 <= m < n && puts[m].key == k ==> Disciplined(After(bs, puts[..m]), puts[m])
  {
    hide DbOk, Put, Get, Settled, After, NewestPut, Visible;
    if n > 0 {
      IncreasingIsDisciplined(bs, puts, n - 1, k);
      SpawnSettled(bs, puts, k);
      DisciplinedRun(bs, puts, 0, n - 1, k);
      GetIsVisible(bs, After(bs, puts[..n - 1]), k);
      NewestPutIsNewest(puts[..n - 1], k);
    }
  }

  lemma DisciplinedSettles(bs: nat, puts: Puts, k: Key)
    requires bs >= 1 && KeysOk(puts) && DisciplinedAt(bs, puts, k)
    ensures NewestSettled(bs, puts, k)
  {
    SpawnSettled(bs, puts, k);
    DisciplinedRun(bs, puts, 0, |puts|, k);
    assert puts[..|puts|] == puts;
  }

  /** No gap, over runs: while the puts of `k` are disciplined, no state inside any flush of the
      run answers for `k` differently from the state before the flush. */
  lemma RunNoGap(bs: nat, puts: Puts, n: nat, u: Db, k: Key)
    requires bs >= 1 && KeysOk(puts) && n <= |puts| && DisciplinedAt(bs, puts, k)
    requires |After(bs, puts[..n]).mem| >= bs && u in FlushStates(bs, After(bs, puts[..n]))
    ensures Get(u, k) == NewestPut(puts[..n], k)
  {
    hide DbOk, Put, Get, Settled, After, NewestPut, FlushStates, Disciplined;
    SpawnSettled(bs, puts, k);
    DisciplinedRun(bs, puts, 0, n, k);
    FlushNoGap(bs, After(bs, puts[..n]), u, k);
  }

  /** No gap, for every state a put leads through and every key whose answer is settled; the key put
      itself gets its new answer in the last state. */
  lemma PutNoGap(bs: nat, db: Db, p: Payload, k: Key)
    requires DbOk(bs, db) && p.key != "" && Settled(db, k)
    ensures var states := PutStates(bs, db, p);
            forall i :: 0 <= i < |states| && (i < |states| - 1 || k != p.key) ==> Get(states[i], k) == Get(db, k)
  {
    hide Get, Settled, TreeOk, Put, Flush, FlushSteps, Visible;
    GetIsVisible(bs, db, k);
    forall u | u in RoomStates(bs, db)
      ensures Get(u, k) == Get(db, k)
    {
      RoomIsFlush(bs, db, u);
      FlushNoGap(bs, db, u, k);
    }
    if k != p.key {
      PutFrame(bs, db, p, k);
      GetIsVisible(bs, Put(bs, db, p), k);
    }
  }

  lemma RoomIsFlush(bs: nat, db: Db, u: Db)
    requires DbOk(bs, db) && u in RoomStates(bs, db)
    ensures |db.mem| >= bs && u in FlushStates(bs, db)
  {
    hide Flush, FlushSteps, TreeOk;
    var steps := FlushSteps(bs, db);
    if u != Flush(bs, db) {
      var i :| 0 <= i < |steps| && u == Db(db.mem, steps[i]);
      assert steps[i] in steps;
    }
  }

  // ----- depth -----

  /** How many flushes a run makes. */
  ghost function Flushes(bs: nat, puts: Puts): nat
    requires bs >= 1 && KeysOk(puts)
  {
    if puts == [] then 0
    else
      var before := puts[..|puts| - 1];
      Flushes(bs, before) + if Flushing(bs, After(bs, before), puts[|puts| - 1]) then 1 else 0
  }

  ghost predicate Flushing(bs: nat, db: Db, p: Payload) {
    p.key !in db.mem && |db.mem| >= bs
  }

  lemma AppendBlocks(t: Tree, b: Block)
    requires t != []
    ensures TotalBlocks(Append(t, b)) == TotalBlocks(t) + 1
  {
    assert Append(t, b)[1..] == t[1..];
  }

  lemma FlushDepth(bs: nat, db: Db)
    requires DbOk(bs, db) && |db.mem| >= bs
    ensures var r := Flush(bs, db);
            && TotalBlocks(r.tree) <= TotalBlocks(db.tree) + 1
            && |db.tree| <= |r.tree| <= |db.tree| + 1
            && (|r.tree| > |db.tree| ==> TotalBlocks(db.tree) + 1 >= Cap(|db.tree| - 1))
  {
    hide TreeOk, SortedPairs, Appended, Compact, TotalBlocks, Cap;
    FlushAppends(bs, db);
    var t := Append(db.tree, SortedPairs(db.mem));
    AppendBlocks(db.tree, SortedPairs(db.mem));
    CompactBlocks(bs, t);
    CompactOk(bs, t);
  }

  lemma PutDepth(bs: nat, db: Db, p: Payload)
    requires DbOk(bs, db) && p.key != ""
    ensures var r, f := Put(bs, db, p), if Flushing(bs, db, p) then 1 else 0;
            && TotalBlocks(r.tree) <= TotalBlocks(db.tree) + f
            && |db.tree| <= |r.tree| <= |db.tree| + f
            && (|r.tree| > |db.tree| ==> TotalBlocks(db.tree) + f >= Cap(|db.tree| - 1))
            && |r.mem| + bs * f <= |db.mem| + 1
  {
    hide TreeOk, Flush, TotalBlocks, Cap;
    if Flushing(bs, db, p) {
      FlushDepth(bs, db);
      assert (map[p.key := p]).Keys == {p.key};
    } else if p.key in db.mem {
      assert (db.mem[p.key := p]).Keys == db.mem.Keys;
    } else {
      assert (db.mem[p.key := p]).Keys == db.mem.Keys + {p.key};
    }
  }

  /** `blocks` blocks on `levels` levels and `pairs` pairs in the memtable, after `flushes` flushes
      in `puts` puts. */
  ghost predicate DepthOk(bs: nat, blocks: nat, levels: nat, pairs: nat, flushes: nat, puts: nat) {
    && blocks <= flushes
    && bs * flushes + pairs <= puts
    && (levels >= 2 ==> Cap(levels - 2) <= flushes)
  }

  lemma DepthStep(bs: nat, b0: nat, l0: nat, m0: nat, f0: nat, n: nat, b1: nat, l1: nat, m1: nat, f: nat)
    requires DepthOk(bs, b0, l0, m0, f0, n) && 1 <= l0 <= l1 <= l0 + f && f <= 1
    requires b1 <= b0 + f && m1 + bs * f <= m0 + 1
    requires l1 > l0 ==> b0 + f >= Cap(l0 - 1)
    ensures DepthOk(bs, b1, l1, m1, f0 + f, n + 1)
  {
    hide Cap;
    assert bs * (f0 + f) == bs * f0 + bs * f;
    if l1 > l0 {
      assert l1 - 2 == l0 - 1;
    }
  }

  lemma {:induction false} DepthInvariant(bs: nat, puts: Puts)
    requires bs >= 1 && KeysOk(puts)
    ensures After(bs, puts).tree != []
    ensures var db := After(bs, puts);
            DepthOk(bs, TotalBlocks(db.tree), |db.tree|, |db.mem|, Flushes(bs, puts), |puts|)
  {
    hide Put, TotalBlocks, DepthOk, TreeOk, MemOk;
    var db := After(bs, puts);
    if puts == [] {
      SpawnDepth(bs);
    } else {
      var before := puts[..|puts| - 1];
      var p := puts[|puts| - 1];
      var was := After(bs, before);
      DepthInvariant(bs, before);
      PutDepth(bs, was, p);
      DepthStep(bs, TotalBlocks(was.tree), |was.tree|, |was.mem|, Flushes(bs, before), |before|,
                TotalBlocks(db.tree), |db.tree|, |db.mem|, if Flushing(bs, was, p) then 1 else 0);
    }
  }

  lemma SpawnDepth(bs: nat)
    ensures DepthOk(bs, TotalBlocks(Spawn().tree), |Spawn().tree|, |Spawn().mem|, 0, 0)
  {
    assert TotalBlocks([[]]) == 0;
  }

  /** Depth is logarithmic in the number of puts: F flushes leave at most F blocks, a store of
      n >= 2 levels has seen at least 2 * 10^(n-2) flushes of `bs` pairs each, and so the size
      limit of its last level is at most ten times the number of puts. */
  lemma DepthBound(bs: nat, puts: Puts)
    requires bs >= 1 && KeysOk(puts)
    ensures var t, f := After(bs, puts).tree, Flushes(bs, puts);
            && TotalBlocks(t) <= f && bs * f <= |puts|
            && (|t| >= 2 ==> Cap(|t| - 2) <= f && bs * Cap(|t| - 1) <= 10 * bs * f <= 10 * |puts|)
  {
    hide TotalBlocks, After, Flushes, TreeOk, MemOk;
    DepthInvariant(bs, puts);
    var t, f := After(bs, puts).tree, Flushes(bs, puts);
    var m := |After(bs, puts).mem|;
    assert bs * f <= bs * f + m;
    if |t| >= 2 {
      assert Cap(|t| - 1) == 10 * Cap(|t| - 2);
      DepthSize(bs, Cap(|t| - 2), f, |puts|);
    }
  }

  lemma DepthSize(bs: nat, cap: nat, f: nat, puts: nat)
    requires cap <= f && bs * f <= puts
    ensures bs * (10 * cap) <= 10 * bs * f <= 10 * puts
  {
    assert bs * (10 * cap) == 10 * (bs * cap);
    assert bs * cap <= bs * f;
    assert 10 * bs * f == 10 * (bs * f);
  }

  // ----- an undisciplined put -----

  /** A flush into an empty L0 only moves the memtable there. */
  lemma FlushIntoEmptyL0(bs: nat, db: Db, k: Key)
    requires DbOk(bs, db) && |db.mem| >= bs && db.tree[0] == []
    ensures Flush(bs, db) == Db(map[], db.tree[0 := [SortedPairs(db.mem)]])
    ensures Find(SortedPairs(db.mem), k) == MemGet(db.mem, k)
  {
    hide TreeOk, SortedPairs, Appended;
    FlushAppends(bs, db);
    AppendedFind(bs, db, k);
    assert [] + [SortedPairs(db.mem)] == [SortedPairs(db.mem)];
  }

  /** A flush into a filled L0 over a small L1 merges by timestamp, whatever the order of puts. */
  lemma FlushIntoL1(bs: nat, db: Db, k: Key)
    requires DbOk(bs, db) && |db.mem| >= bs && |db.tree| <= 2 && |db.tree[0]| == 1
    requires |db.tree| == 2 ==> |db.tree[1]| + 2 < Cap(1)
    ensures var r := Flush(bs, db);
            var l1 := if |db.tree| == 2 then db.tree[1] else [];
            && r.mem == map[] && |r.tree| == 2 && r.tree[0] == [] && |r.tree[1]| <= |l1| + 2
            && FindRun(r.tree[1], k)
            == Newer(Newer(Find(db.tree[0][0], k), MemGet(db.mem, k)), FindRun(l1, k))
  {
    hide SortedPairs, Find, FindRun, MergeRuns, Cap, RunOk, BlockOk;
    FlushAppends(bs, db);
    AppendedFind(bs, db, k);
    var t := Append(db.tree, SortedPairs(db.mem));
    CompactSource(bs, t);
    FullL0Find(bs, t, k);
    var s := MergeAll(bs, t[0]);
    var l1 := Below(t)[0];
    ShortRunOk(bs, [t[0][0]]);
    ShortRunOk(bs, [t[0][1]]);
    MergeRunsOk(bs, [t[0][0]], [t[0][1]]);
    SmallPush(bs, Below(t), s, 1);
    MergeRunsFind(bs, s, l1, k);
    MergeRunsOk(bs, s, l1);
  }

  lemma SmallPush(bs: nat, t: Tree, s: Run, d: nat)
    requires bs >= 1 && |t| == 1 && TreeOk(bs, t, d) && SourceOk(bs, s, d) && |s| + |t[0]| < Cap(d)
    ensures Push(bs, t, s, d) == [MergeRuns(bs, s, t[0])] && RunOk(bs, t[0]) && RunOk(bs, s)
  {
  }

  /** With block size 1 the second put flushes "a" at timestamp 5; the third is a stale put of "a". */
  function StalePuts(): Puts {
    [Payload("a", "new", 5, ""), Payload("b", "", 1, ""), Payload("a", "stale", 3, ""),
     Payload("c", "", 1, ""), Payload("d", "", 1, "")]
  }

  lemma NewKey(bs: nat, puts: Puts, n: nat, db: Db, room: Db)
    requires bs >= 1 && KeysOk(puts) && n < |puts| && After(bs, puts[..n]) == db
    requires puts[n].key !in db.mem && room == MakeRoom(bs, db)
    ensures After(bs, puts[..n + 1]) == room.(mem := room.mem[puts[n].key := puts[n]])
    ensures DbOk(bs, After(bs, puts[..n + 1]))
  {
    AfterLast(bs, puts, n);
  }

  /** After the first two puts "a" is at timestamp 5 in L0. */
  lemma StaleStart()
    ensures var db := After(1, StalePuts()[..2]);
            && DbOk(1, db) && db.mem == map["b" := StalePuts()[1]] && |db.tree| == 1 && |db.tree[0]| == 1
            && Find(db.tree[0][0], "a") == Some(StalePuts()[0])
  {
    hide TreeOk, Flush, Put, SortedPairs, Find, DbOk;
    var puts := StalePuts();
    SpawnOk(1);
    assert puts[..0] == [] && After(1, []) == Spawn();
    NewKey(1, puts, 0, Spawn(), Spawn());
    var db1 := After(1, puts[..1]);
    assert db1.mem == map["a" := puts[0]];
    FlushIntoEmptyL0(1, db1, "a");
    NewKey(1, puts, 1, db1, Flush(1, db1));
  }

  /** A stale put made after its key has left the memtable is accepted and shadows newer data. */
  lemma StalePutShadows()
    ensures var puts := StalePuts()[..3];
            && KeysOk(puts)
            && Get(After(1, puts), "a") == Some(StalePuts()[2])
            && NewestPut(puts, "a") == Some(StalePuts()[0])
  {
    hide TreeOk, Flush, Put, DbOk, After, TreeGet;
    var puts := StalePuts();
    StaleStart();
    NewKey(1, puts, 2, After(1, puts[..2]), Flush(1, After(1, puts[..2])));
    assert puts[..3][..2] == puts[..2] && puts[..2][..1] == puts[..1] && puts[..1][..0] == [];
    assert NewestPut(puts[..1], "a") == Some(puts[0]);
    assert NewestPut(puts[..2], "a") == Some(puts[0]);
  }

  /** After four, the stale version is in L0 over the newer one in L1. */
  lemma StaleMiddle()
    ensures var db := After(1, StalePuts()[..4]);
            && DbOk(1, db) && db.mem == map["c" := StalePuts()[3]] && |db.tree| == 2 && |db.tree[0]| == 1
            && Find(db.tree[0][0], "a") == Some(StalePuts()[2]) == FindRun(db.tree[0], "a")
            && FindRun(db.tree[1], "a") == Some(StalePuts()[0]) && |db.tree[1]| <= 2
  {
    hide TreeOk, Flush, Put, SortedPairs, Find, FindRun, DbOk, After;
    var puts := StalePuts();
    StaleStart();
    var db2 := After(1, puts[..2]);
    FlushIntoL1(1, db2, "a");
    FindRunNone([], "a");
    NewKey(1, puts, 2, db2, Flush(1, db2));
    var db3 := After(1, puts[..3]);
    FlushIntoEmptyL0(1, db3, "a");
    NewKey(1, puts, 3, db3, Flush(1, db3));
    OneBlock(SortedPairs(db3.mem), "a");
  }

  lemma OneBlock(b: Block, k: Key)
    ensures FindRun([b], k) == Find(b, k)
  {
    assert FindRun([b], k) == Or(Find(b, k), FindRun([], k));
  }

  /** The shadowing put of `StalePutShadows` is not even stable: after it, a put of another key
      brings the newer value of "a" back. So an undisciplined put also breaks the rule that a put
      leaves other keys alone. */
  lemma StaleAnswerFlips()
    ensures KeysOk(StalePuts()) && StalePuts()[4].key != "a"
    ensures Get(After(1, StalePuts()[..4]), "a") == Some(StalePuts()[2])
    ensures Get(After(1, StalePuts()[..5]), "a") == Some(StalePuts()[0])
  {
    hide TreeOk, Flush, Put, SortedPairs, Find, FindRun, DbOk, After, TreeGet;
    var puts := StalePuts();
    StaleMiddle();
    var db4 := After(1, puts[..4]);
    FlushIntoL1(1, db4, "a");
    NewKey(1, puts, 4, db4, Flush(1, db4));
    FindRunNone([], "a");
    GetIsVisible(1, db4, "a");
    GetIsVisible(1, After(1, puts[..5]), "a");
  }
}
