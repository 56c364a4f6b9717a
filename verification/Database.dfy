/** Memtable and levels together: flush, put and get as functions, and what one flush or one put
    does to the answers of lookups. */
module Database {
  import opened Wrappers
  import opened Keys
  import opened Payloads
  import opened Runs
  import opened Compaction

  type Table = map<Key, Payload>

  datatype Db = Db(mem: Table, tree: Tree)

  /** The ordered map a memtable is kept in, an object that the memtable changes. */
  class PairMap {
    var pairs: Table

    constructor ()
      ensures pairs == map[]
    {
      pairs := map[];
    }
  }

  /** States of the levels, with one memtable over all of them. */
  function Under(mem: Table, ts: seq<Tree>): (r: seq<Db>)
    ensures |r| == |ts| && forall i :: 0 <= i < |r| ==> r[i] == Db(mem, ts[i])
  {
    seq(|ts|, i requires 0 <= i < |ts| => Db(mem, ts[i]))
  }

  lemma UnderConcat(mem: Table, a: seq<Tree>, b: seq<Tree>)
    ensures Under(mem, a + b) == Under(mem, a) + Under(mem, b)
  {
  }

  lemma UnderSteps(was: seq<Db>, mem: Table, a: seq<Tree>, b: seq<Tree>, t: Tree)
    ensures was + Under(mem, a) + Under(mem, b) + [Db(mem, t)] == was + Under(mem, a + b + [t])
  {
  }

  lemma UnderOne(mem: Table, t: Tree)
    ensures Under(mem, [t]) == [Db(mem, t)] && Under(mem, []) == []
  {
  }

  /** The memtable: at most `bs` pairs, each stored under its own nonempty key. */
  ghost predicate MemOk(bs: nat, mem: Table) {
    |mem| <= bs && forall k :: k in mem ==> mem[k].key == k && k != ""
  }

  ghost predicate DbOk(bs: nat, db: Db) {
    bs >= 1 && MemOk(bs, db.mem) && db.tree != [] && TreeOk(bs, db.tree, 0)
  }

  function MemGet(mem: Table, k: Key): Option<Payload> {
    if k in mem then Some(mem[k]) else None
  }

  // ----- flush -----

  /** The pairs of the memtable in key order. */
  ghost function SortedPairs(mem: Table): Block {
    if mem.Keys == {} then []
    else var k := Least(mem.Keys); [mem[k]] + SortedPairs(mem - {k})
  }

  lemma {:induction false} SortedPairsFind(mem: Table, k: Key)
    requires forall j :: j in mem ==> mem[j].key == j
    ensures Find(SortedPairs(mem), k) == MemGet(mem, k)
    ensures |SortedPairs(mem)| == |mem|
  {
    if mem.Keys != {} {
      var j := Least(mem.Keys);
      var rest := mem - {j};
      assert |mem| == |rest| + 1 by {
        assert mem == rest[j := mem[j]];
      }
      SortedPairsFind(rest, k);
      assert SortedPairs(mem)[1..] == SortedPairs(rest);
    }
  }

  lemma {:induction false} SortedPairsSorted(mem: Table)
    requires forall j :: j in mem ==> mem[j].key == j
    ensures Sorted(SortedPairs(mem))
    ensures forall p :: p in SortedPairs(mem) ==> p.key in mem
  {
    if mem.Keys != {} {
      var j := Least(mem.Keys);
      var rest := mem - {j};
      SortedPairsSorted(rest);
      forall p | p in SortedPairs(rest)
        ensures Less(j, p.key)
      {
        assert AtMost(j, p.key);
        Trichotomy(j, p.key);
      }
      SortedCons(mem[j], SortedPairs(rest));
    }
  }

  lemma FlushAppends(bs: nat, db: Db)
    requires DbOk(bs, db) && |db.mem| >= bs
    ensures BlockOk(bs, SortedPairs(db.mem))
    ensures Appended(bs, Append(db.tree, SortedPairs(db.mem)))
    ensures |db.tree[0]| <= 1
  {
    hide Sorted, SortedPairs;
    SortedPairsFind(db.mem, "");
    SortedPairsSorted(db.mem);
    AddBlockAppends(bs, db.tree, 0, SortedPairs(db.mem));
    assert |db.tree[0]| < Cap(0 + 0);
  }

  /** `write_out_if_full` on a full memtable. */
  ghost function Flush(bs: nat, db: Db): (r: Db)
    requires DbOk(bs, db) && |db.mem| >= bs
    ensures DbOk(bs, r) && r.mem == map[]
  {
    hide TreeOk, Appended;
    FlushAppends(bs, db);
    var t := Append(db.tree, SortedPairs(db.mem));
    CompactOk(bs, t);
    Db(map[], Compact(bs, t))
  }

  /** The states the levels pass through while there is room to be made: the block appended,
      then each step of the compaction. */
  ghost function FlushSteps(bs: nat, db: Db): seq<Tree>
    requires DbOk(bs, db)
  {
    if |db.mem| < bs then []
    else
      FlushAppends(bs, db);
      var t := Append(db.tree, SortedPairs(db.mem));
      [t] + CompactStates(bs, t)
  }

  /** Every state a flush passes through: the memtable keeps its pairs until the last step. */
  ghost function FlushStates(bs: nat, db: Db): set<Db>
    requires DbOk(bs, db) && |db.mem| >= bs
  {
    (set u | u in FlushSteps(bs, db) :: Db(db.mem, u)) + {Flush(bs, db)}
  }

  /** Every state in which room is made: the memtable keeps its pairs until the levels are done. */
  ghost function RoomStates(bs: nat, db: Db): seq<Db>
    requires DbOk(bs, db)
  {
    if |db.mem| < bs then [] else Under(db.mem, FlushSteps(bs, db)) + [Flush(bs, db)]
  }

  // ----- put and get -----

  /** The timestamp filter: only a key still in the memtable is compared. */
  predicate Accepts(mem: Table, p: Payload) {
    p.key in mem ==> p.timestamp > mem[p.key].timestamp
  }

  ghost function MakeRoom(bs: nat, db: Db): (r: Db)
    requires DbOk(bs, db)
    ensures DbOk(bs, r) && |r.mem| < bs
  {
    if |db.mem| >= bs then Flush(bs, db) else db
  }

  /** `CapsuleDB::put`. */
  ghost function Put(bs: nat, db: Db, p: Payload): (r: Db)
    requires DbOk(bs, db) && p.key != ""
    ensures DbOk(bs, r)
  {
    if p.key in db.mem then
      assert (db.mem[p.key := p]).Keys == db.mem.Keys;
      if Accepts(db.mem, p) then db.(mem := db.mem[p.key := p]) else db
    else
      var d := MakeRoom(bs, db);
      assert |d.mem[p.key := p]| <= |d.mem| + 1;
      d.(mem := d.mem[p.key := p])
  }

  /** Every state a put leads through, the last one included. */
  ghost function PutStates(bs: nat, db: Db, p: Payload): seq<Db>
    requires DbOk(bs, db) && p.key != ""
  {
    (if p.key in db.mem then [] else RoomStates(bs, db)) + if Accepts(db.mem, p) then [Put(bs, db, p)] else []
  }

  /** `CapsuleDB::get`. */
  function Get(db: Db, k: Key): Option<Payload> {
    Or(MemGet(db.mem, k), TreeGet(db.tree, k, 0))
  }

  /** The version of `k` found by scanning the memtable and then every pair of every level. */
  function Visible(db: Db, k: Key): Option<Payload> {
    Or(MemGet(db.mem, k), TreeFind(db.tree, k))
  }

  /** Between operations the shortcuts of `get` find what the full scan finds. */
  lemma GetIsVisible(bs: nat, db: Db, k: Key)
    requires DbOk(bs, db)
    ensures Get(db, k) == Visible(db, k)
  {
    TailRunsOk(bs, db.tree, 0);
    TreeGetIsFind(bs, db.tree, k, 0);
  }

  lemma {:induction false} TreeFindKey(t: Tree, k: Key)
    ensures TreeFind(t, k).Some? ==> TreeFind(t, k).value.key == k
  {
    if t != [] {
      FindRunIsScan(t[0], k);
      FindSound(Flatten(t[0]), k);
      TreeFindKey(t[1..], k);
    }
  }

  /** When a put flushes: only for a new key and a full memtable. The memtable then holds the new pair
      alone, and otherwise gains it, or keeps what it had. */
  lemma PutFlushesWhenFull(bs: nat, db: Db, p: Payload)
    requires DbOk(bs, db) && p.key != ""
    ensures var r, flushed := Put(bs, db, p), p.key !in db.mem && |db.mem| == bs;
            && (if flushed then |r.mem| == 1 && PutStates(bs, db, p) != [r] else r.tree == db.tree)
            && (forall k :: k in r.mem <==> k == p.key || (k in db.mem && !flushed))
            && (forall k :: k in r.mem && k != p.key ==> r.mem[k] == db.mem[k])
            && (r.mem[p.key] == if p.key in db.mem && p.timestamp <= db.mem[p.key].timestamp
                                then db.mem[p.key] else p)
  {
    hide TreeOk, FlushSteps;
    assert (map[p.key := p]).Keys == {p.key};
  }

  // ----- one flush -----

  /** Every version of `k` that is stored, visible or not. */
  function AllVersions(db: Db, k: Key): set<Payload> {
    OptionSet(MemGet(db.mem, k)) + Versions(db.tree, k)
  }

  /** The answer for `k` is later than every other version that is stored. The hidden versions may
      lie in any order. */
  ghost predicate Topmost(db: Db, k: Key) {
    Tops(Visible(db, k), AllVersions(db, k))
  }

  /** `Topmost`, but for one tie that does no harm: the memtable's version may be as old as that of
      L0, since a merge of L0 with a flushed block keeps the block's version. */
  ghost predicate Settled(db: Db, k: Key)
    requires db.tree != []
  {
    var l0 := FindRun(db.tree[0], k);
    && Newer(l0, MemGet(db.mem, k)) == Or(MemGet(db.mem, k), l0)
    && Tops(Visible(db, k), Versions(db.tree[1..], k))
  }

  /** Memtable, L0, and the rest. */
  lemma AllVersionsParts(db: Db, k: Key)
    requires db.tree != []
    ensures AllVersions(db, k)
         == OptionSet(MemGet(db.mem, k)) + OptionSet(FindRun(db.tree[0], k)) + Versions(db.tree[1..], k)
  {
  }

  /** The two differ by that tie only. */
  lemma TopmostIsSettled(db: Db, k: Key)
    requires db.tree != []
    ensures Topmost(db, k)
       <==> Settled(db, k) && Tops(Visible(db, k), OptionSet(FindRun(db.tree[0], k)))
  {
    AllVersionsParts(db, k);
  }

  /** L0 and what lies below it, before and after the append. */
  lemma AppendedFind(bs: nat, db: Db, k: Key)
    requires DbOk(bs, db) && |db.mem| >= bs
    ensures |db.tree[0]| <= 1
    ensures var b := SortedPairs(db.mem);
            var t := Append(db.tree, b);
            && Find(b, k) == MemGet(db.mem, k)
            && t[1..] == db.tree[1..]
            && |t[0]| == |db.tree[0]| + 1
            && (|t[0]| == 1 ==> t[0] == [b] && FindRun(t[0], k) == Find(b, k)
                                && FindRun(db.tree[0], k) == None)
            && (|t[0]| == 2 ==> t[0][0] == db.tree[0][0] && t[0][1] == b
                                && FindRun(db.tree[0], k) == Find(t[0][0], k))
  {
    hide RunOk, SortedPairs, Find;
    FlushAppends(bs, db);
    var b := SortedPairs(db.mem);
    SortedPairsFind(db.mem, k);
    assert FindRun([b], k) == Or(Find(b, k), FindRun([], k));
    assert [] + [b] == [b];
    if |db.tree[0]| == 1 {
      assert db.tree[0] == [db.tree[0][0]];
      assert FindRun(db.tree[0], k) == Or(Find(db.tree[0][0], k), FindRun([], k));
    }
  }

  /** A flush keeps a settled answer, and keeps it settled. */
  lemma FlushKeeps(bs: nat, db: Db, k: Key)
    requires DbOk(bs, db) && |db.mem| >= bs && Settled(db, k)
    ensures Visible(Flush(bs, db), k) == Visible(db, k)
    ensures Settled(Flush(bs, db), k)
  {
    hide TreeOk, Appended, RunOk, BlockOk, SortedPairs, Find, FindRun, MergeAll, Push, Tops;
    FlushAppends(bs, db);
    AppendedFind(bs, db, k);
    var t := Append(db.tree, SortedPairs(db.mem));
    if |t[0]| == 2 {
      CompactFind(bs, t, k);
      CompactKeys(bs, t, k);
      TopsFewer(Visible(db, k), Versions(t[1..], k), Versions(Compact(bs, t)[1..], k));
    }
  }

  /** What tops some versions tops fewer of them, and itself. */
  lemma TopsFewer(o: Option<Payload>, ws: set<Payload>, fewer: set<Payload>)
    requires Tops(o, ws) && fewer <= OptionSet(o) + ws
    ensures Tops(o, fewer)
  {
  }

  /** No gap: in every state a flush passes through, `get` answers for `k` as it did before. */
  lemma FlushNoGap(bs: nat, db: Db, u: Db, k: Key)
    requires DbOk(bs, db) && |db.mem| >= bs && Settled(db, k)
    requires u in FlushStates(bs, db)
    ensures Get(u, k) == Get(db, k)
  {
    hide TreeOk, Appended, RunOk, BlockOk, SortedPairs, Find, FindRun, Compact, CompactStates, LevelGet;
    GetIsVisible(bs, db, k);
    if u == Flush(bs, db) {
      FlushKeeps(bs, db, k);
      GetIsVisible(bs, u, k);
    } else if k !in db.mem {
      FlushAppends(bs, db);
      AppendedFind(bs, db, k);
      var t := Append(db.tree, SortedPairs(db.mem));
      if |t[0]| == 2 {
        CompactNoGap(bs, t, u.tree, k);
      } else {
        ShortL0NoGap(bs, db, u, k);
      }
    }
  }

  /** The same when the append does not fill L0, so that no compaction follows. */
  lemma ShortL0NoGap(bs: nat, db: Db, u: Db, k: Key)
    requires DbOk(bs, db) && |db.mem| >= bs && u in FlushStates(bs, db) && u != Flush(bs, db)
    requires k !in db.mem && |db.tree[0]| == 0
    ensures Get(u, k) == Visible(db, k)
  {
    hide RunOk, BlockOk, SortedPairs, Find, FindRun, Compact, LevelGet, TreeFind, TreeGet;
    FlushAppends(bs, db);
    AppendedFind(bs, db, k);
    var t := Append(db.tree, SortedPairs(db.mem));
    assert u == Db(db.mem, t);
    CompactOk(bs, t);
    ShortCompact(bs, t);
    TailRunsOk(bs, t, 0);
    TreeGetIsFind(bs, t, k, 0);
    assert TreeFind(t, k) == Or(FindRun(t[0], k), TreeFind(t[1..], k)) by {
      TreeFindUnfold(t, k);
    }
    TreeFindUnfold(db.tree, k);
  }

  lemma TreeFindUnfold(t: Tree, k: Key)
    requires t != []
    ensures TreeFind(t, k) == Or(FindRun(t[0], k), TreeFind(t[1..], k))
  {
  }

  /** Whatever the timestamps, a flush loses and invents no key and no version. */
  lemma FlushKeys(bs: nat, db: Db, k: Key)
    requires DbOk(bs, db) && |db.mem| >= bs
    ensures Visible(Flush(bs, db), k).Some? <==> Visible(db, k).Some?
    ensures Versions(Flush(bs, db).tree, k) <= OptionSet(MemGet(db.mem, k)) + Versions(db.tree, k)
  {
    hide TreeOk, Appended, RunOk, BlockOk, SortedPairs, Find, FindRun, MergeAll, Push;
    FlushAppends(bs, db);
    AppendedFind(bs, db, k);
    var t := Append(db.tree, SortedPairs(db.mem));
    if |t[0]| == 2 {
      CompactKeys(bs, t, k);
    }
  }

  // ----- one put -----

  /** A put that the last-writer-wins reading of timestamps allows: the key is still in the
      memtable (so its timestamp is checked), or its timestamp exceeds the visible one. Putting
      the visible payload once more is harmless too. */
  predicate Disciplined(db: Db, p: Payload) {
    || p.key in db.mem
    || Visible(db, p.key).None?
    || p.timestamp > Visible(db, p.key).value.timestamp
    || p == Visible(db, p.key).value
  }

  /** The register every key should be: a later timestamp replaces the value. */
  function NewestWins(was: Option<Payload>, p: Payload): Option<Payload> {
    if was.None? || p.timestamp > was.value.timestamp then Some(p) else was
  }

  /** A put leaves every other key alone whose answer is settled. */
  lemma PutFrame(bs: nat, db: Db, p: Payload, k: Key)
    requires DbOk(bs, db) && p.key != "" && k != p.key && Settled(db, k)
    ensures Visible(Put(bs, db, p), k) == Visible(db, k)
    ensures Settled(Put(bs, db, p), k)
  {
    hide TreeOk, Flush, TreeFind, Versions, FindRun, Tops;
    if p.key !in db.mem && |db.mem| >= bs {
      FlushKeeps(bs, db, k);
    }
  }

  /** A put makes its key the newest-wins register exactly when it is disciplined; then it also
      leaves the answer settled. */
  lemma PutIsNewestWins(bs: nat, db: Db, p: Payload)
    requires DbOk(bs, db) && p.key != "" && Settled(db, p.key)
    ensures Visible(Put(bs, db, p), p.key) == NewestWins(Visible(db, p.key), p) <==> Disciplined(db, p)
    ensures Disciplined(db, p) ==> Settled(Put(bs, db, p), p.key)
  {
    hide Flush, Versions, TreeOk, FindRun;
    if p.key !in db.mem && |db.mem| >= bs {
      FlushKeeps(bs, db, p.key);
    }
  }

  /** Whatever was put before, a put later than every stored version of its key becomes the answer
      and settles it. */
  lemma PutSettles(bs: nat, db: Db, p: Payload)
    requires DbOk(bs, db) && p.key != "" && forall w :: w in AllVersions(db, p.key) ==> p.timestamp > w.timestamp
    ensures Visible(Put(bs, db, p), p.key) == Some(p)
    ensures Topmost(Put(bs, db, p), p.key) && Settled(Put(bs, db, p), p.key)
  {
    hide Flush, Versions, TreeOk, FindRun, TreeFind, Settled;
    var was := AllVersions(db, p.key);
    assert Tops(Some(p), was) && (p.key in db.mem ==> db.mem[p.key] in was);
    hide Tops, AllVersions;
    PutKeys(bs, db, p, p.key);
    TopsFewer(Some(p), was, AllVersions(Put(bs, db, p), p.key));
    TopmostIsSettled(Put(bs, db, p), p.key);
  }

  /** Whatever the timestamps, a put adds its key and no other, and no version but its own. */
  lemma PutKeys(bs: nat, db: Db, p: Payload, k: Key)
    requires DbOk(bs, db) && p.key != ""
    ensures Visible(Put(bs, db, p), k).Some? <==> Visible(db, k).Some? || k == p.key
    ensures AllVersions(Put(bs, db, p), k)
         <= AllVersions(db, k) + (if k == p.key then {p} else {})
  {
    hide DbOk, Flush, TreeFind, Versions;
    if p.key !in db.mem && |db.mem| >= bs {
      FlushKeys(bs, db, k);
    }
  }
}
