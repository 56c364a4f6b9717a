/** Blocks in memory, and the append-only store they are written to. */
module Capsule {
  import opened Keys
  import opened Payloads
  import opened Runs

  /** What the engine passes around as a block hash: "" for none, "Bad level", or the name a
      write returns, which the write counter determines. */
  datatype BlockName = Absent | BadLevel | Name(counter: nat)

  datatype BlockHeader = BlockHeader(hash: BlockName, minKey: Key, maxKey: Key)

  /** The message a block is written as. */
  datatype BlockMessage = BlockMessage(counter: nat, level: int, startKey: Key, endKey: Key, kvpairs: seq<Payload>)

  type Files = map<BlockName, BlockMessage>

  // ----- the recorded range of a block -----

  datatype KeyRange = KeyRange(lo: Key, hi: Key)

  const NO_RANGE := KeyRange("", "")

  /** One `addKVPair`: "" stands for a bound not yet set. */
  function Widen(r: KeyRange, k: Key): KeyRange {
    KeyRange(Min(if r.lo == "" then k else r.lo, k), Max(if r.hi == "" then k else r.hi, k))
  }

  function WidenAll(r: KeyRange, s: seq<Payload>): KeyRange {
    if s == [] then r else Widen(WidenAll(r, s[..|s| - 1]), s[|s| - 1].key)
  }

  lemma WidenAllEmpty(r: KeyRange)
    ensures WidenAll(r, []) == r
  {
  }

  lemma WidenAllAdd(r: KeyRange, s: seq<Payload>, p: Payload)
    ensures WidenAll(r, s + [p]) == Widen(WidenAll(r, s), p.key)
  {
    assert (s + [p])[..|s|] == s;
  }

  predicate Covers(r: KeyRange, k: Key) {
    AtMost(r.lo, k) && AtMost(k, r.hi)
  }

  lemma NonemptyAbove(k: Key)
    requires k != ""
    ensures Less("", k) && !Less(k, "")
  {
  }

  /** The pairs added after the last one with an empty key; all of them if there is none. */
  function AfterEmpty(s: seq<Payload>): (u: seq<Payload>)
    ensures |u| <= |s|
    ensures u == s <==> forall p :: p in s ==> p.key != ""
    ensures forall p :: p in u ==> p in s && p.key != ""
  {
    if s == [] then []
    else
      var last := s[|s| - 1];
      assert s == s[..|s| - 1] + [last];
      if last.key == "" then [] else AfterEmpty(s[..|s| - 1]) + [last]
  }

  /** `x` is the upper bound after `s` has been added to a range that ended at `hi`: the largest key
      of all. */
  ghost predicate IsHigh(x: Key, hi: Key, s: seq<Payload>) {
    && (x == hi || exists p :: p in s && p.key == x)
    && AtMost(hi, x) && forall p :: p in s ==> AtMost(p.key, x)
  }

  /** `x` is the lower bound after `s` has been added to a range that started at `lo`. An empty key
      unsets it, so only what was added since counts. */
  ghost predicate IsLow(x: Key, lo: Key, s: seq<Payload>) {
    var u := AfterEmpty(s);
    if u == [] then x == if s == [] then lo else ""
    else
      && x != ""
      && ((u == s && x == lo) || exists p :: p in u && p.key == x)
      && (u == s && lo != "" ==> AtMost(x, lo)) && forall p :: p in u ==> AtMost(x, p.key)
  }

  lemma MinOf(a: Key, b: Key, x: Key)
    ensures AtMost(Min(a, b), a) && AtMost(Min(a, b), b)
    ensures AtMost(a, x) ==> AtMost(Min(a, b), x)
  {
    Irreflexive(a);
    Irreflexive(b);
    if Less(b, a) {
      Asymmetric(b, a);
      if AtMost(a, x) && Less(x, b) {
        Transitive(x, b, a);
      }
    }
  }

  lemma MaxOf(a: Key, b: Key, x: Key)
    ensures AtMost(a, Max(a, b)) && AtMost(b, Max(a, b))
    ensures AtMost(x, a) ==> AtMost(x, Max(a, b))
  {
    Irreflexive(a);
    Irreflexive(b);
    if Less(a, b) {
      Asymmetric(a, b);
      if AtMost(x, a) && Less(b, x) {
        Transitive(a, b, x);
      }
    }
  }

  /** The recorded range, for any pairs in any order. */
  lemma {:induction false} WidenAllIs(r: KeyRange, s: seq<Payload>)
    ensures IsHigh(WidenAll(r, s).hi, r.hi, s) && IsLow(WidenAll(r, s).lo, r.lo, s)
  {
    hide LessFrom;
    Irreflexive(r.hi);
    if s != [] {
      var before, last := s[..|s| - 1], s[|s| - 1];
      assert s == before + [last];
      var v := WidenAll(r, before);
      WidenAllIs(r, before);
      WidenHigh(v, r.hi, before, last);
      WidenLow(v, r.lo, before, last);
    }
  }

  lemma WidenHigh(v: KeyRange, hi: Key, before: seq<Payload>, last: Payload)
    requires IsHigh(v.hi, hi, before)
    ensures IsHigh(Widen(v, last.key).hi, hi, before + [last])
  {
    hide LessFrom;
    var k := last.key;
    Irreflexive(k);
    if k != "" {
      NonemptyAbove(k);
    }
    assert Widen(v, k).hi == Max(v.hi, k);
    MaxOf(v.hi, k, hi);
    forall p | p in before + [last]
      ensures AtMost(p.key, Max(v.hi, k))
    {
      MaxOf(v.hi, k, p.key);
    }
    assert last in before + [last];
  }

  lemma WidenLow(v: KeyRange, lo: Key, before: seq<Payload>, last: Payload)
    requires IsLow(v.lo, lo, before)
    ensures IsLow(Widen(v, last.key).lo, lo, before + [last])
  {
    hide LessFrom;
    var s, k := before + [last], last.key;
    assert s[..|s| - 1] == before && last in s;
    Irreflexive(k);
    if k == "" {
      assert AfterEmpty(s) == [];
      if v.lo != "" {
        NonemptyAbove(v.lo);
      }
    } else {
      var u := AfterEmpty(before);
      assert AfterEmpty(s) == u + [last] && last in u + [last];
      assert u + [last] == s <==> u == before;
      MinOf(v.lo, k, lo);
      forall p | p in u
        ensures AtMost(Min(v.lo, k), p.key)
      {
        MinOf(v.lo, k, p.key);
      }
    }
  }

  /** Re-adding the pairs leaves a lower bound as it was: it covers the pairs after the last empty key
      and, if there is an empty key, is one of them. */
  ghost predicate LowKept(lo: Key, s: seq<Payload>) {
    var u := AfterEmpty(s);
    if u == [] then s == [] || lo == ""
    else
      && lo != "" && (forall p :: p in u ==> AtMost(lo, p.key))
      && (u == s || exists p :: p in u && p.key == lo)
  }

  /** Exactly when a block's recorded range is the same after it is read back. */
  lemma ReAddExact(r: KeyRange, s: seq<Payload>)
    ensures WidenAll(r, s) == r <==> LowKept(r.lo, s) && forall p :: p in s ==> AtMost(p.key, r.hi)
  {
    hide LessFrom;
    var w := WidenAll(r, s);
    WidenAllIs(r, s);
    if forall p :: p in s ==> AtMost(p.key, r.hi) {
      Trichotomy(w.hi, r.hi);
    }
    if LowKept(r.lo, s) && AfterEmpty(s) != [] {
      Trichotomy(w.lo, r.lo);
    }
    if w.lo == r.lo {
      Irreflexive(r.lo);
    }
  }

  /** For a block without empty keys: when the range is set and covers every key. */
  lemma ReAddNonempty(r: KeyRange, s: seq<Payload>)
    requires forall p :: p in s ==> p.key != ""
    ensures WidenAll(r, s) == r
       <==> s == [] || (r.lo != "" && r.hi != "" && forall p :: p in s ==> Covers(r, p.key))
  {
    ReAddExact(r, s);
    if s != [] {
      NonemptyAbove(s[0].key);
      assert s[0] in s;
    }
  }

  /** The range recorded while a sorted block is filled is its first and last key. */
  lemma {:induction false} WidenAllSorted(s: seq<Payload>)
    requires s != [] && Sorted(s) && forall p :: p in s ==> p.key != ""
    ensures WidenAll(NO_RANGE, s) == KeyRange(MinKey(s), MaxKey(s))
  {
    var last := s[|s| - 1];
    var before := s[..|s| - 1];
    assert s == before + [last];
    Irreflexive(last.key);
    if before != [] {
      WidenAllSorted(before);
      assert before[0] in s && before[|before| - 1] in s;
      Asymmetric(s[0].key, last.key);
      Asymmetric(before[|before| - 1].key, last.key);
    }
  }

  /** Filled in any order, a block records a range that covers all of its keys exactly when no key is
      empty, or the last one added is. */
  lemma FilledCovers(s: seq<Payload>)
    ensures (forall p :: p in s ==> Covers(WidenAll(NO_RANGE, s), p.key)) <==> AfterEmpty(s) == s || AfterEmpty(s) == []
  {
    hide LessFrom;
    var w, u := WidenAll(NO_RANGE, s), AfterEmpty(s);
    WidenAllIs(NO_RANGE, s);
    if u == [] {
      forall p | p in s
        ensures AtMost(w.lo, p.key)
      {
        Irreflexive("");
        if p.key != "" {
          NonemptyAbove(p.key);
        }
      }
    } else if u != s {
      var p :| p in s && p.key == "";
      NonemptyAbove(w.lo);
    }
  }

  /** Why keys are not empty. The next key replaces an empty minimum, which reads as "not yet set": a
      block filled in key order covers all of its keys exactly when its first key is not empty or
      is its only one. */
  lemma SortedCovers(s: seq<Payload>)
    requires s != [] && Sorted(s)
    ensures (forall p :: p in s ==> Covers(WidenAll(NO_RANGE, s), p.key)) <==> |s| == 1 || s[0].key != ""
  {
    FilledCovers(s);
    forall i | 0 < i < |s|
      ensures s[i].key != ""
    {
      assert Less(s[0].key, s[i].key);
    }
    if |s| == 1 {
      assert s[..0] == [];
    } else {
      assert s[|s| - 1].key != "" && AfterEmpty(s) != [];
    }
  }

  // ----- headers and the blocks they name -----

  /** The pairs a header's block holds. */
  function PairsOf(files: Files, h: BlockHeader): Block {
    if h.hash in files then files[h.hash].kvpairs else []
  }

  /** The data of a list of headers. */
  function RunOf(files: Files, hs: seq<BlockHeader>): (run: Run)
    ensures |run| == |hs| && forall i :: 0 <= i < |hs| ==> run[i] == PairsOf(files, hs[i])
  {
    seq(|hs|, i requires 0 <= i < |hs| => PairsOf(files, hs[i]))
  }

  /** A header names a written block and gives its true first and last key, as does the block
      itself. */
  predicate HeaderOk(files: Files, h: BlockHeader) {
    && h.hash in files && h.hash.Name?
    && files[h.hash].kvpairs != []
    && h.minKey == files[h.hash].startKey == MinKey(files[h.hash].kvpairs) != ""
    && h.maxKey == files[h.hash].endKey == MaxKey(files[h.hash].kvpairs) != ""
  }

  ghost predicate HeadersOk(files: Files, hs: seq<BlockHeader>) {
    forall h :: h in hs ==> HeaderOk(files, h)
  }

  /** The blocks were written for level `level`. */
  ghost predicate LabelsOk(files: Files, level: int, hs: seq<BlockHeader>) {
    forall h :: h in hs ==> h.hash in files && files[h.hash].level == level
  }

  /** Nothing that was written before has changed. */
  ghost predicate Extends(was: Files, now: Files) {
    forall n :: n in was ==> n in now && now[n] == was[n]
  }

  lemma ExtendsTransitive(a: Files, b: Files, c: Files)
    requires Extends(a, b) && Extends(b, c)
    ensures Extends(a, c)
  {
  }

  lemma ExtendsReflexive(a: Files)
    ensures Extends(a, a)
  {
  }

  lemma ExtendsKeeps(was: Files, now: Files, level: int, hs: seq<BlockHeader>)
    requires Extends(was, now)
    ensures HeadersOk(was, hs) ==> HeadersOk(now, hs) && RunOf(now, hs) == RunOf(was, hs)
    ensures LabelsOk(was, level, hs) ==> LabelsOk(now, level, hs)
  {
    if HeadersOk(was, hs) {
      forall i | 0 <= i < |hs|
        ensures PairsOf(now, hs[i]) == PairsOf(was, hs[i])
      {
        assert hs[i] in hs;
      }
      assert RunOf(now, hs) == RunOf(was, hs);
    }
  }

  lemma RunOfConcat(files: Files, a: seq<BlockHeader>, b: seq<BlockHeader>)
    ensures RunOf(files, a + b) == RunOf(files, a) + RunOf(files, b)
  {
  }

  lemma RunOfEmpty(files: Files)
    ensures RunOf(files, []) == []
  {
  }

  lemma RunOfSlice(files: Files, hs: seq<BlockHeader>, lo: nat, hi: nat)
    requires lo <= hi <= |hs|
    ensures RunOf(files, hs[lo..hi]) == RunOf(files, hs)[lo..hi]
  {
  }

  lemma HeaderKeys(files: Files, hs: seq<BlockHeader>)
    requires HeadersOk(files, hs)
    ensures var run := RunOf(files, hs);
            forall i :: 0 <= i < |hs| ==>
              run[i] != [] && MinKey(run[i]) == hs[i].minKey != "" && MaxKey(run[i]) == hs[i].maxKey != ""
  {
    forall i | 0 <= i < |hs|
      ensures HeaderOk(files, hs[i])
    {
      assert hs[i] in hs;
    }
  }

  /** A `CapsuleBlock` under construction, or read back. */
  class CapsuleBlock {
    var level: int
    var startKey: Key
    var endKey: Key
    var kvPairs: seq<Payload>

    constructor (l: int)
      ensures level == l && startKey == "" && endKey == "" && kvPairs == []
    {
      level := l;
      startKey := "";
      endKey := "";
      kvPairs := [];
    }

    ghost function Range(): KeyRange
      reads this
    {
      KeyRange(startKey, endKey)
    }

    /** What the block is written as, but for the counter. */
    ghost function Message(counter: nat): BlockMessage
      reads this
    {
      BlockMessage(counter, level, startKey, endKey, kvPairs)
    }

    method AddKVPair(element: Payload)
      modifies this
      ensures kvPairs == old(kvPairs) + [element] && level == old(level)
      ensures Range() == Widen(old(Range()), element.key)
    {
      kvPairs := kvPairs + [element];
      if startKey == "" {
        startKey := element.key;
      }
      if endKey == "" {
        endKey := element.key;
      }
      startKey := Min(startKey, element.key);
      endKey := Max(endKey, element.key);
    }

    method SetMinKey(k: Key)
      modifies this`startKey
      ensures startKey == k
    {
      startKey := k;
    }

    method SetMaxKey(k: Key)
      modifies this`endKey
      ensures endKey == k
    {
      endKey := k;
    }

    method WriteOut(store: CapsuleStore) returns (hash: BlockName)
      requires store.Valid()
      modifies store
      ensures store.Valid() && hash == Name(old(store.counter)) && hash !in old(store.files)
      ensures store.files == old(store.files)[hash := Message(hash.counter)]
      ensures store.counter == old(store.counter) + 1
      ensures Extends(old(store.files), store.files)
    {
      hash := store.PutCapsuleBlock(this);
    }
  }

  /** The files, and the counter that keeps their names apart. */
  class CapsuleStore {
    var counter: nat
    var files: Files

    constructor ()
      ensures Valid() && files == map[]
    {
      counter := 0;
      files := map[];
    }

    /** Every name in use was given by an earlier write. */
    ghost predicate Valid()
      reads this
    {
      forall n :: n in files ==> n.Name? && n.counter < counter && files[n].counter == n.counter
    }

    /** A write gives a name never used before, so no earlier name changes its block. */
    method PutCapsuleBlock(block: CapsuleBlock) returns (hash: BlockName)
      requires Valid()
      modifies this
      ensures Valid() && hash == Name(old(counter)) && hash !in old(files)
      ensures files == old(files)[hash := block.Message(hash.counter)]
      ensures counter == old(counter) + 1
      ensures Extends(old(files), files)
    {
      var message := BlockMessage(counter, block.level, block.startKey, block.endKey, []);
      counter := counter + 1;
      for i := 0 to |block.kvPairs|
        invariant message == BlockMessage(old(counter), block.level, block.startKey, block.endKey, block.kvPairs[..i])
        invariant counter == old(counter) + 1 && files == old(files)
      {
        message := message.(kvpairs := message.kvpairs + [block.kvPairs[i]]);
      }
      assert block.kvPairs[..|block.kvPairs|] == block.kvPairs;
      hash := Name(message.counter);
      files := files[hash := message];
    }

    /** Reading rebuilds the block by re-adding its pairs. `null` stands for the exception thrown
        when there is no such file. */
    method GetCapsuleBlock(hash: BlockName) returns (block: CapsuleBlock?)
      ensures block == null <==> hash !in files
      ensures block != null ==> fresh(block)
      ensures block != null ==>
                var m := files[hash];
                && block.level == m.level && block.kvPairs == m.kvpairs
                && block.Range() == WidenAll(KeyRange(m.startKey, m.endKey), m.kvpairs)
    {
      if hash !in files {
        return null;
      }
      var m := files[hash];
      var actual := new CapsuleBlock(m.level);
      actual.SetMinKey(m.startKey);
      actual.SetMaxKey(m.endKey);
      for i := 0 to |m.kvpairs|
        invariant fresh(actual)
        invariant actual.level == m.level && actual.kvPairs == m.kvpairs[..i]
        invariant actual.Range() == WidenAll(KeyRange(m.startKey, m.endKey), m.kvpairs[..i])
      {
        assert m.kvpairs[..i + 1][..i] == m.kvpairs[..i];
        actual.AddKVPair(m.kvpairs[i]);
      }
      assert m.kvpairs[..|m.kvpairs|] == m.kvpairs;
      block := actual;
    }

    /** `readIn` of a block that was written: the block comes back as it was written exactly when
        re-adding its pairs leaves its recorded range alone, as it does if there are no empty keys
        and the range covers them all. */
    method ReadIn(hash: BlockName) returns (block: CapsuleBlock)
      requires hash in files
      ensures fresh(block) && block.kvPairs == files[hash].kvpairs && block.level == files[hash].level
      ensures var m := files[hash];
              block.Message(m.counter) == m
              <==> LowKept(m.startKey, m.kvpairs) && forall p :: p in m.kvpairs ==> AtMost(p.key, m.endKey)
      ensures var m := files[hash];
              (forall p :: p in m.kvpairs ==> p.key != "") ==>
                (block.Message(m.counter) == m
                 <==> m.kvpairs == [] || (m.startKey != "" && m.endKey != ""
                        && forall p :: p in m.kvpairs ==> Covers(KeyRange(m.startKey, m.endKey), p.key)))
    {
      block := GetCapsuleBlock(hash);
      ghost var m := files[hash];
      ReAddExact(KeyRange(m.startKey, m.endKey), m.kvpairs);
      if forall p :: p in m.kvpairs ==> p.key != "" {
        ReAddNonempty(KeyRange(m.startKey, m.endKey), m.kvpairs);
      }
    }
  }
}
