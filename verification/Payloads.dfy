/** Key-value payloads, linear search among them, and the sorted merge of two lists. */
module Payloads {
  import opened Wrappers
  import opened Keys

  /** `kvs_payload`. Timestamps are 64-bit in the engine and only ever compared. */
  datatype Payload = Payload(key: Key, value: string, timestamp: int, msgType: string)

  /** Linear search: the first pair with key `k`. The reference for every faster lookup. */
  function Find(s: seq<Payload>, k: Key): Option<Payload> {
    if s == [] then None
    else if s[0].key == k then Some(s[0])
    else Find(s[1..], k)
  }

  /** Strictly increasing keys. */
  ghost predicate Sorted(s: seq<Payload>) {
    forall i, j :: 0 <= i < j < |s| ==> Less(s[i].key, s[j].key)
  }

  /** Which of two versions of one key a merge keeps: the later timestamp, the second on ties. */
  function Newer(a: Option<Payload>, b: Option<Payload>): Option<Payload> {
    if a.None? then b
    else if b.None? then a
    else if b.value.timestamp >= a.value.timestamp then b
    else a
  }

  // ----- linear search -----

  lemma {:induction false} FindConcat(a: seq<Payload>, b: seq<Payload>, k: Key)
    ensures Find(a + b, k) == Or(Find(a, k), Find(b, k))
  {
    if a == [] {
      assert a + b == b;
    } else {
      assert (a + b)[1..] == a[1..] + b;
      FindConcat(a[1..], b, k);
    }
  }

  lemma {:induction false} FindSound(s: seq<Payload>, k: Key)
    ensures Find(s, k).Some? ==> Find(s, k).value in s && Find(s, k).value.key == k
    ensures Find(s, k).None? <==> forall p :: p in s ==> p.key != k
  {
    if s != [] {
      assert s == [s[0]] + s[1..];
      FindSound(s[1..], k);
    }
  }

  /** In a sorted list every pair is the answer for its own key. */
  lemma {:induction false} FindSorted(s: seq<Payload>, i: nat)
    requires Sorted(s) && i < |s|
    ensures Find(s, s[i].key) == Some(s[i])
  {
    if i > 0 {
      Asymmetric(s[0].key, s[i].key);
      FindSorted(s[1..], i - 1);
    }
  }

  /** A key below the whole of a list is not in it. */
  lemma FindBelow(s: seq<Payload>, k: Key)
    requires Sorted(s) && (s != [] ==> Less(k, s[0].key))
    ensures Find(s, k) == None
  {
    FindSound(s, k);
    forall p | p in s
      ensures p.key != k
    {
      var i :| 0 <= i < |s| && s[i] == p;
      if i > 0 {
        Transitive(k, s[0].key, s[i].key);
      }
      Asymmetric(k, p.key);
    }
  }

  lemma SortedCons(p: Payload, s: seq<Payload>)
    requires Sorted(s) && forall q :: q in s ==> Less(p.key, q.key)
    ensures Sorted([p] + s)
  {
  }

  // ----- sorting the pairs of a block -----

  function InsertPair(p: Payload, s: seq<Payload>): seq<Payload> {
    if s == [] || !Less(s[0].key, p.key) then [p] + s else [s[0]] + InsertPair(p, s[1..])
  }

  /** `std::sort` with `comparePayloads`: by key. */
  function SortPairs(s: seq<Payload>): seq<Payload> {
    if s == [] then [] else InsertPair(s[0], SortPairs(s[1..]))
  }

  /** Keys do not decrease; equal keys are allowed. */
  ghost predicate Ascending(s: seq<Payload>) {
    forall i, j :: 0 <= i < j < |s| ==> AtMost(s[i].key, s[j].key)
  }

  /** Sorting any list: the same pairs, in ascending order of their keys. */
  lemma {:induction false} SortPairsSorts(s: seq<Payload>)
    ensures multiset(SortPairs(s)) == multiset(s) && Ascending(SortPairs(s))
  {
    if s != [] {
      assert s == [s[0]] + s[1..];
      SortPairsSorts(s[1..]);
      InsertPairSorts(s[0], SortPairs(s[1..]));
    }
  }

  lemma {:induction false} InsertPairSorts(p: Payload, s: seq<Payload>)
    requires Ascending(s)
    ensures multiset(InsertPair(p, s)) == multiset([p] + s) && Ascending(InsertPair(p, s))
    ensures forall k :: AtMost(k, p.key) && (s != [] ==> AtMost(k, s[0].key)) ==> AtMost(k, InsertPair(p, s)[0].key)
  {
    var r := InsertPair(p, s);
    Irreflexive(p.key);
    if s == [] || !Less(s[0].key, p.key) {
      forall j | 0 < j < |r|
        ensures AtMost(p.key, r[j].key)
      {
        if j > 1 {
          AtMostTransitive(p.key, s[0].key, s[j - 1].key);
        }
      }
    } else {
      assert s == [s[0]] + s[1..];
      InsertPairSorts(p, s[1..]);
      Asymmetric(s[0].key, p.key);
      var rest := InsertPair(p, s[1..]);
      assert AtMost(s[0].key, rest[0].key);
      forall j | 0 < j < |r|
        ensures AtMost(s[0].key, r[j].key)
      {
        if j > 1 {
          AtMostTransitive(s[0].key, rest[0].key, rest[j - 1].key);
        }
      }
    }
  }

  lemma {:induction false} SortPairsSorted(s: seq<Payload>)
    requires Sorted(s)
    ensures SortPairs(s) == s
  {
    if s != [] {
      SortPairsSorted(s[1..]);
      if |s| > 1 {
        Asymmetric(s[0].key, s[1].key);
      }
    }
  }

  // ----- merging two sorted lists -----

  /** The pairs `CapsuleIndex::merge` emits, in order, before they are cut into blocks. */
  function MergeFlat(x: seq<Payload>, y: seq<Payload>): seq<Payload>
    decreases |x| + |y|
  {
    if x == [] then y
    else if y == [] then x
    else if Less(y[0].key, x[0].key) then [y[0]] + MergeFlat(x, y[1..])
    else if Less(x[0].key, y[0].key) then [x[0]] + MergeFlat(x[1..], y)
    else [if y[0].timestamp >= x[0].timestamp then y[0] else x[0]] + MergeFlat(x[1..], y[1..])
  }

  lemma {:induction false} MergeFlatMembers(x: seq<Payload>, y: seq<Payload>)
    ensures forall p :: p in MergeFlat(x, y) ==> p in x || p in y
    ensures |x| <= |MergeFlat(x, y)| <= |x| + |y|
    decreases |x| + |y|
  {
    if x != [] && y != [] {
      if Less(y[0].key, x[0].key) {
        MergeFlatMembers(x, y[1..]);
      } else if Less(x[0].key, y[0].key) {
        MergeFlatMembers(x[1..], y);
      } else {
        MergeFlatMembers(x[1..], y[1..]);
      }
    }
  }

  /** Of two pairs with one key the merge keeps the later one; of two with the same timestamp, the one
      from the second list. */
  lemma MergeFlatPicks(x: seq<Payload>, y: seq<Payload>, p: Payload, q: Payload)
    requires Sorted(x) && Sorted(y) && p in x && q in y && p.key == q.key
    ensures Find(MergeFlat(x, y), p.key) == Some(if q.timestamp >= p.timestamp then q else p)
  {
    var i :| 0 <= i < |x| && x[i] == p;
    var j :| 0 <= j < |y| && y[j] == q;
    FindSorted(x, i);
    FindSorted(y, j);
    MergeFlatFind(x, y, p.key);
  }

  lemma HeadIsLeast(s: seq<Payload>, k: Key)
    requires Sorted(s) && (s != [] ==> Less(k, s[0].key))
    ensures forall p :: p in s ==> Less(k, p.key)
  {
    forall p | p in s
      ensures Less(k, p.key)
    {
      var i :| 0 <= i < |s| && s[i] == p;
      if i > 0 {
        Transitive(k, s[0].key, s[i].key);
      }
    }
  }

  /** Consing the least head onto the merge of what remains keeps the result sorted. */
  lemma MergeFlatCons(p: Payload, x: seq<Payload>, y: seq<Payload>)
    requires Sorted(x) && Sorted(y) && Sorted(MergeFlat(x, y))
    requires (x != [] ==> Less(p.key, x[0].key)) && (y != [] ==> Less(p.key, y[0].key))
    ensures Sorted([p] + MergeFlat(x, y))
  {
    MergeFlatMembers(x, y);
    HeadIsLeast(x, p.key);
    HeadIsLeast(y, p.key);
    SortedCons(p, MergeFlat(x, y));
  }

  lemma {:induction false} MergeFlatSorted(x: seq<Payload>, y: seq<Payload>)
    requires Sorted(x) && Sorted(y)
    ensures Sorted(MergeFlat(x, y))
    decreases |x| + |y|
  {
    if x != [] && y != [] {
      if Less(y[0].key, x[0].key) {
        MergeFlatSorted(x, y[1..]);
        MergeFlatCons(y[0], x, y[1..]);
      } else if Less(x[0].key, y[0].key) {
        MergeFlatSorted(x[1..], y);
        MergeFlatCons(x[0], x[1..], y);
      } else {
        Trichotomy(x[0].key, y[0].key);
        MergeFlatSorted(x[1..], y[1..]);
        var p := if y[0].timestamp >= x[0].timestamp then y[0] else x[0];
        MergeFlatCons(p, x[1..], y[1..]);
      }
    }
  }

  /** What a lookup in the merge finds: the later version of the key, from either side. */
  lemma {:induction false} MergeFlatFind(x: seq<Payload>, y: seq<Payload>, k: Key)
    requires Sorted(x) && Sorted(y)
    ensures Find(MergeFlat(x, y), k) == Newer(Find(x, k), Find(y, k))
    decreases |x| + |y|
  {
    if x != [] && y != [] {
      var m := MergeFlat(x, y);
      assert m != [];
      if Less(y[0].key, x[0].key) {
        assert m[1..] == MergeFlat(x, y[1..]);
        FindBelow(x, y[0].key);
        MergeFlatFind(x, y[1..], k);
      } else if Less(x[0].key, y[0].key) {
        assert m[1..] == MergeFlat(x[1..], y);
        FindBelow(y, x[0].key);
        MergeFlatFind(x[1..], y, k);
      } else {
        Trichotomy(x[0].key, y[0].key);
        assert m[1..] == MergeFlat(x[1..], y[1..]);
        MergeFlatFind(x[1..], y[1..], k);
      }
    }
  }
}
