/** The Bloom filter and its compressible variant. A plain filter is one whose list of sizes never
    grows beyond its first entry. The hash is an arbitrary function of key and salt. */
module Bloom {
  import opened Wrappers
  import opened Keys

  const BITS_PER_CHAR := 8

  /** `bit_mask`. */
  function Mask(b: nat): bv8
    requires b < 8
  {
    if b == 0 then 0x01 else if b == 1 then 0x02 else if b == 2 then 0x04 else if b == 3 then 0x08
    else if b == 4 then 0x10 else if b == 5 then 0x20 else if b == 6 then 0x40 else 0x80
  }

  /** Bit `b` counts from the least significant one. */
  lemma MaskIsShift(b: nat)
    requires b < 8
    ensures Mask(b) == (1 as bv8) << b
  {
  }

  // ----- the bits of one byte -----

  predicate CellBit(x: bv8, b: nat)
    requires b < 8
  {
    x & Mask(b) == Mask(b)
  }

  function OrCell(x: bv8, y: bv8): bv8 {
    x | y
  }

  function AndCell(x: bv8, y: bv8): bv8 {
    x & y
  }

  lemma CellOr(x: bv8, y: bv8, b: nat)
    requires b < 8
    ensures CellBit(OrCell(x, y), b) <==> CellBit(x, b) || CellBit(y, b)
  {
  }

  lemma CellAnd(x: bv8, y: bv8, b: nat)
    requires b < 8
    ensures CellBit(AndCell(x, y), b) <==> CellBit(x, b) && CellBit(y, b)
  {
  }

  lemma CellMask(b: nat, c: nat)
    requires b < 8 && c < 8
    ensures CellBit(Mask(b), c) <==> b == c
  {
  }

  lemma CellsEqual(x: bv8, y: bv8)
    requires forall c :: 0 <= c < 8 ==> CellBit(x, c) == CellBit(y, c)
    ensures x == y
  {
    assert CellBit(x, 0) == CellBit(y, 0) && CellBit(x, 1) == CellBit(y, 1);
    assert CellBit(x, 2) == CellBit(y, 2) && CellBit(x, 3) == CellBit(y, 3);
    assert CellBit(x, 4) == CellBit(y, 4) && CellBit(x, 5) == CellBit(y, 5);
    assert CellBit(x, 6) == CellBit(y, 6) && CellBit(x, 7) == CellBit(y, 7);
  }

  // ----- the bits of a table -----

  predicate BitAt(t: seq<bv8>, i: nat)
    requires i < 8 * |t|
  {
    CellBit(t[i / 8], i % 8)
  }

  ghost function Bits(t: seq<bv8>): set<nat> {
    set i: nat | 0 <= i < 8 * |t| && BitAt(t, i)
  }

  /** A table is determined by its bits. */
  lemma BitsDetermineTable(s: seq<bv8>, t: seq<bv8>)
    requires |s| == |t| && Bits(s) == Bits(t)
    ensures s == t
  {
    hide CellBit, Mask;
    forall j | 0 <= j < |s|
      ensures s[j] == t[j]
    {
      forall c | 0 <= c < 8
        ensures CellBit(s[j], c) == CellBit(t[j], c)
      {
        var i := 8 * j + c;
        assert BitAt(s, i) <==> i in Bits(s);
        assert BitAt(t, i) <==> i in Bits(t);
      }
      CellsEqual(s[j], t[j]);
    }
  }

  /** Setting one bit. */
  lemma SetBit(t: seq<bv8>, i: nat)
    requires i < 8 * |t|
    ensures Bits(t[i / 8 := OrCell(t[i / 8], Mask(i % 8))]) == Bits(t) + {i}
  {
    hide CellBit, Mask, OrCell;
    var u := t[i / 8 := OrCell(t[i / 8], Mask(i % 8))];
    forall j: nat | j < 8 * |t|
      ensures BitAt(u, j) <==> BitAt(t, j) || j == i
    {
      CellOr(t[i / 8], Mask(i % 8), j % 8);
      CellMask(i % 8, j % 8);
    }
  }

  function OrTable(s: seq<bv8>, t: seq<bv8>): seq<bv8>
    requires |s| == |t|
  {
    seq(|s|, j requires 0 <= j < |s| => OrCell(s[j], t[j]))
  }

  function AndTable(s: seq<bv8>, t: seq<bv8>): seq<bv8>
    requires |s| == |t|
  {
    seq(|s|, j requires 0 <= j < |s| => AndCell(s[j], t[j]))
  }

  /** The byte-by-byte or, and, of two tables. */
  lemma CombineBits(s: seq<bv8>, t: seq<bv8>)
    requires |s| == |t|
    ensures Bits(OrTable(s, t)) == Bits(s) + Bits(t)
    ensures Bits(AndTable(s, t)) == Bits(s) * Bits(t)
  {
    hide CellBit, Mask, OrCell, AndCell;
    forall i: nat | i < 8 * |s|
      ensures BitAt(OrTable(s, t), i) <==> BitAt(s, i) || BitAt(t, i)
      ensures BitAt(AndTable(s, t), i) <==> BitAt(s, i) && BitAt(t, i)
    {
      CellOr(s[i / 8], t[i / 8], i % 8);
      CellAnd(s[i / 8], t[i / 8], i % 8);
    }
  }

  // ----- indices -----

  type Size = n: nat | n > 0 witness 1

  /** `compute_indices`: the hash reduced by every size in turn. */
  function Chain(h: nat, sizes: seq<Size>): nat {
    if sizes == [] then h else Chain(h, sizes[..|sizes| - 1]) % sizes[|sizes| - 1]
  }

  /** The index of a hash: in a plain filter its remainder by the size, and after each compression the
      index so far, reduced by the new size. */
  lemma ChainIs(h: nat, sizes: seq<Size>, n: Size)
    ensures Chain(h, [n]) == h % n
    ensures Chain(h, sizes + [n]) == Chain(h, sizes) % n
  {
    assert [n][..0] == [] && (sizes + [n])[..|sizes|] == sizes;
  }

  type Hash = (Key, nat) -> nat

  /** The bits of one key. */
  ghost function Positions(hash: Hash, salts: seq<nat>, key: Key, sizes: seq<Size>): set<nat> {
    set i | 0 <= i < |salts| :: Chain(hash(key, salts[i]), sizes)
  }

  /** The bits of a filter into which exactly `keys` were inserted under the sizes `sizes`. */
  ghost function Built(hash: Hash, salts: seq<nat>, keys: set<Key>, sizes: seq<Size>): set<nat> {
    set k, p | k in keys && p in Positions(hash, salts, k, sizes) :: p
  }

  lemma BuiltUnion(hash: Hash, salts: seq<nat>, a: set<Key>, b: set<Key>, sizes: seq<Size>)
    ensures Built(hash, salts, a + b, sizes) == Built(hash, salts, a, sizes) + Built(hash, salts, b, sizes)
  {
    hide Chain, Positions;
  }

  lemma BuiltOne(hash: Hash, salts: seq<nat>, key: Key, sizes: seq<Size>)
    ensures Built(hash, salts, {key}, sizes) == Positions(hash, salts, key, sizes)
  {
    hide Chain, Positions;
  }

  lemma BuiltWithin(hash: Hash, salts: seq<nat>, keys: set<Key>, sizes: seq<Size>, bits: set<nat>)
    ensures Built(hash, salts, keys, sizes) <= bits
       <==> forall k :: k in keys ==> Positions(hash, salts, k, sizes) <= bits
  {
    hide Chain, Positions;
    if Built(hash, salts, keys, sizes) <= bits {
      forall k, p | k in keys && p in Positions(hash, salts, k, sizes)
        ensures p in bits
      {
        assert p in Built(hash, salts, keys, sizes);
      }
    }
  }

  lemma PositionsNone(hash: Hash, key: Key, sizes: seq<Size>)
    ensures Positions(hash, [], key, sizes) == {}
  {
  }

  lemma PositionsNext(hash: Hash, salts: seq<nat>, i: nat, key: Key, sizes: seq<Size>)
    requires i < |salts|
    ensures Positions(hash, salts[..i + 1], key, sizes)
         == Positions(hash, salts[..i], key, sizes) + {Chain(hash(key, salts[i]), sizes)}
    ensures Chain(hash(key, salts[i]), sizes) in Positions(hash, salts, key, sizes)
  {
    hide Chain;
    assert forall j :: 0 <= j < i ==> salts[..i + 1][j] == salts[..i][j] == salts[j];
    assert salts[..i + 1][i] == salts[i];
  }

  /** Every bit position reduced once more. */
  ghost function Reduce(bits: set<nat>, n: Size): set<nat> {
    set p | p in bits :: p % n
  }

  lemma PositionsReduced(hash: Hash, salts: seq<nat>, key: Key, sizes: seq<Size>, n: Size)
    ensures Positions(hash, salts, key, sizes + [n]) == Reduce(Positions(hash, salts, key, sizes), n)
  {
    forall i | 0 <= i < |salts|
      ensures Chain(hash(key, salts[i]), sizes + [n]) == Chain(hash(key, salts[i]), sizes) % n
    {
      assert (sizes + [n])[..|sizes|] == sizes;
    }
    hide Chain;
    forall p | p in Positions(hash, salts, key, sizes + [n])
      ensures p in Reduce(Positions(hash, salts, key, sizes), n)
    {
      var i :| 0 <= i < |salts| && p == Chain(hash(key, salts[i]), sizes + [n]);
      assert Chain(hash(key, salts[i]), sizes) in Positions(hash, salts, key, sizes);
    }
  }

  /** One more size reduces the whole table once more. */
  lemma BuiltReduced(hash: Hash, salts: seq<nat>, keys: set<Key>, sizes: seq<Size>, n: Size)
    ensures Built(hash, salts, keys, sizes + [n]) == Reduce(Built(hash, salts, keys, sizes), n)
  {
    hide Chain, Positions;
    forall k | k in keys
      ensures Positions(hash, salts, k, sizes + [n]) == Reduce(Positions(hash, salts, k, sizes), n)
    {
      PositionsReduced(hash, salts, k, sizes, n);
    }
    var r := Reduce(Built(hash, salts, keys, sizes), n);
    forall x | x in r
      ensures x in Built(hash, salts, keys, sizes + [n])
    {
      var p :| p in Built(hash, salts, keys, sizes) && x == p % n;
      var k :| k in keys && p in Positions(hash, salts, k, sizes);
      assert x in Positions(hash, salts, k, sizes + [n]);
    }
    forall x | x in Built(hash, salts, keys, sizes + [n])
      ensures x in r
    {
      var k :| k in keys && x in Positions(hash, salts, k, sizes + [n]);
      var p :| p in Positions(hash, salts, k, sizes) && x == p % n;
      assert p in Built(hash, salts, keys, sizes);
    }
  }

  // ----- folding -----

  /** The part of a table beyond the first `n` bytes or-ed onto the front. */
  function Fold(t: seq<bv8>, n: nat): seq<bv8>
    requires n <= |t| <= 2 * n
  {
    seq(n, j requires 0 <= j < n => if n + j < |t| then OrCell(t[j], t[n + j]) else t[j])
  }

  /** A bit of the folded table comes from the same bit, or from one table size above it. */
  lemma FoldedBit(t: seq<bv8>, n: nat, i: nat)
    requires 0 < n <= |t| <= 2 * n && i < 8 * n
    ensures i in Bits(Fold(t, n)) <==> i in Bits(t) || 8 * n + i in Bits(t)
  {
    hide CellBit, Mask, OrCell;
    var f := Fold(t, n);
    assert (8 * n + i) / 8 == n + i / 8 && (8 * n + i) % 8 == i % 8;
    assert i in Bits(f) <==> BitAt(f, i);
    assert i in Bits(t) <==> BitAt(t, i);
    if n + i / 8 < |t| {
      CellOr(t[i / 8], t[n + i / 8], i % 8);
      assert 8 * n + i in Bits(t) <==> BitAt(t, 8 * n + i);
    } else {
      assert 8 * n + i !in Bits(t);
    }
  }

  /** Reducing an index below twice the size. */
  lemma ModOnce(p: nat, m: Size)
    requires p < 2 * m
    ensures p % m == if p < m then p else p - m
  {
    if p >= m {
      assert p == m + (p - m);
      ModStep(p - m, m);
    }
  }

  lemma ModStep(r: nat, m: Size)
    requires r < m
    ensures (m + r) % m == r
  {
  }

  /** Folding reduces every set bit modulo the new size. */
  lemma FoldBits(t: seq<bv8>, n: nat)
    requires 0 < n <= |t| <= 2 * n
    ensures Bits(Fold(t, n)) == Reduce(Bits(t), 8 * n)
  {
    hide BitAt;
    var m: Size := 8 * n;
    var f, r := Bits(Fold(t, n)), Reduce(Bits(t), m);
    forall i | i in f
      ensures i in r
    {
      FoldedBit(t, n, i);
      ModOnce(i, m);
      ModOnce(m + i, m);
      if i in Bits(t) {
        assert i % m in r;
      } else {
        assert (m + i) % m in r;
      }
    }
    forall x | x in r
      ensures x in f
    {
      var p :| p in Bits(t) && x == p % m;
      ModOnce(p, m);
      FoldedBit(t, n, x);
    }
  }

  function Shrunk(original: nat, percentage: real): int {
    (original as real * (1.0 - percentage / 100.0)).Floor
  }

  /** `compress`: the size asked for, cut to whole bytes, if it is a smaller one. */
  function NewSize(original: nat, percentage: real): Option<nat> {
    if percentage < 0.0 || percentage >= 100.0 then None
    else
      var cut := Shrunk(original, percentage);
      var n := cut - cut % BITS_PER_CHAR;
      if BITS_PER_CHAR > n || n >= original then None else Some(n)
  }

  /** Cells of the new table the fold writes, from its front on: one for each whole byte by which the
      old table is longer. */
  function FoldWrites(original: nat, n: nat): int {
    (original - n) / BITS_PER_CHAR
  }

  /** The fold stays within the new table. */
  predicate FoldFits(original: nat, n: nat) {
    FoldWrites(original, n) <= n / BITS_PER_CHAR
  }

  /** Bytes kept of `m`, before rounding. */
  function Share(m: nat, percentage: real): real {
    m as real * (1.0 - percentage / 100.0)
  }

  /** Rounding down to bits and then to bytes is rounding down to bytes. */
  lemma FloorTwice(x: real, y: real)
    requires y == 8.0 * x
    ensures y.Floor - y.Floor % BITS_PER_CHAR == 8 * x.Floor
  {
    assert 8 * x.Floor <= y.Floor < 8 * x.Floor + 8;
  }

  lemma ShrunkBytes(m: nat, percentage: real)
    ensures var cut := Shrunk(8 * m, percentage); cut - cut % BITS_PER_CHAR == 8 * Share(m, percentage).Floor
  {
    var share := 1.0 - percentage / 100.0;
    assert (8 * m) as real * share == 8.0 * (m as real * share);
    FloorTwice(Share(m, percentage), (8 * m) as real * share);
    assert Shrunk(8 * m, percentage) == ((8 * m) as real * share).Floor;
  }

  lemma ShareTimes(m: nat, percentage: real)
    ensures 100.0 * Share(m, percentage) == 100.0 * m as real - m as real * percentage
  {
  }

  /** The requests that are refused: nothing to remove, everything to remove, or less than one byte
      to keep. */
  lemma RefusedExactly(m: nat, percentage: real)
    ensures NewSize(8 * m, percentage).None?
       <==> percentage <= 0.0 || percentage >= 100.0 || m as real * (100.0 - percentage) < 100.0
  {
    hide Shrunk, Share;
    ShrunkBytes(m, percentage);
    ShareTimes(m, percentage);
    if m == 0 {
      assert m as real * (100.0 - percentage) == 0.0;
    } else {
      RoundedShare(m, percentage);
    }
  }

  lemma RoundedShare(m: nat, percentage: real)
    requires m >= 1
    ensures Share(m, percentage).Floor < m <==> percentage > 0.0
    ensures 1 <= Share(m, percentage).Floor <==> m as real * (100.0 - percentage) >= 100.0
  {
    hide Share;
    ShareTimes(m, percentage);
    assert percentage > 0.0 ==> m as real * percentage > 0.0;
    assert percentage <= 0.0 ==> m as real * percentage <= 0.0;
    assert m as real * (100.0 - percentage) == 100.0 * m as real - m as real * percentage;
  }

  /** Of the others, those whose fold stays within the new table: the part removed must be at most
      half of the table, the odd byte of a table not counted. */
  predicate Foldable(m: nat, percentage: real) {
    m as real * percentage <= 50.0 * (m - m % 2) as real
  }

  lemma FoldFitsExactly(m: nat, percentage: real)
    ensures var n := NewSize(8 * m, percentage);
            n.Some? ==> (FoldFits(8 * m, n.value) <==> 8 * m <= 2 * n.value)
                        && (FoldFits(8 * m, n.value) <==> Foldable(m, percentage))
  {
    hide Shrunk, Share;
    ShrunkBytes(m, percentage);
    ShareTimes(m, percentage);
    var n := NewSize(8 * m, percentage);
    if n.Some? {
      var bytes := Share(m, percentage).Floor;
      assert n.value == 8 * bytes;
      HalfRounded(m, bytes);
      assert m <= 2 * bytes <==> Share(m, percentage) >= ((m + m % 2) / 2) as real;
    }
  }

  lemma HalfRounded(m: nat, bytes: int)
    ensures m <= 2 * bytes <==> (m + m % 2) / 2 <= bytes
    ensures 2 * ((m + m % 2) / 2) == m + m % 2
    ensures (8 * m - 8 * bytes) / BITS_PER_CHAR == m - bytes
  {
  }

  lemma ScaleMonotone(x: real, a: real, b: real)
    requires x >= 0.0 && a <= b
    ensures x * a <= x * b
  {
  }

  lemma ScaleStrict(x: real, a: real, b: real)
    requires x > 0.0 && a < b
    ensures x * a < x * b
  {
  }

  /** In particular: removing at most half of an even number of bytes fits. */
  lemma HalvingFolds(m: nat, percentage: real)
    requires m % 2 == 0 && percentage <= 50.0
    ensures NewSize(8 * m, percentage).Some? ==> FoldFits(8 * m, NewSize(8 * m, percentage).value)
  {
    hide FoldFits, NewSize;
    FoldFitsExactly(m, percentage);
    ScaleMonotone(m as real, percentage, 50.0);
  }

  /** Removing more than half never fits, whatever the size of the table. */
  lemma MoreThanHalfOverruns(m: nat, percentage: real)
    requires m >= 1 && percentage > 50.0
    ensures NewSize(8 * m, percentage).Some? ==> !FoldFits(8 * m, NewSize(8 * m, percentage).value)
  {
    hide FoldFits, NewSize;
    FoldFitsExactly(m, percentage);
    ScaleStrict(m as real, 50.0, percentage);
    assert (m - m % 2) as real <= m as real;
  }

  /** Nor does removing just half of an odd number of bytes: three become one, and the fold makes two
      writes into it. */
  lemma HalvingCanOverrun()
    ensures NewSize(24, 50.0) == Some(8) && FoldWrites(24, 8) == 2 && !FoldFits(24, 8)
  {
    assert Shrunk(24, 50.0) == 12;
  }

  /** The size that is granted: the part to be kept, rounded down to whole bytes. */
  lemma NewSizeIs(original: nat, percentage: real)
    requires NewSize(original, percentage).Some?
    ensures var n := NewSize(original, percentage).value;
            n % BITS_PER_CHAR == 0
            && n as real <= original as real * (1.0 - percentage / 100.0) < (n + BITS_PER_CHAR) as real
  {
    assert Shrunk(original, percentage) as real <= original as real * (1.0 - percentage / 100.0);
  }

  lemma NewSizeShape(original: nat, percentage: real)
    requires original % BITS_PER_CHAR == 0
    ensures var n := NewSize(original, percentage);
            n.Some? ==> BITS_PER_CHAR <= n.value < original && n.value % BITS_PER_CHAR == 0
  {
  }

  lemma ReduceMonotone(a: set<nat>, b: set<nat>, n: Size)
    requires a <= b
    ensures Reduce(a, n) <= Reduce(b, n)
  {
  }

  class BloomFilter {
    const hash: Hash
    const salts: seq<nat>
    const saltCount: nat
    const tableSize: nat
    const randomSeed: nat
    var bitTable: array<bv8>
    var insertedElementCount: nat
    var sizeList: seq<Size>
    /** Keys the filter must answer for. */
    ghost var members: set<Key>

    /** The sizes are whole bytes, the table has the last one, and every member's bits are set. */
    ghost predicate Valid()
      reads this, bitTable
    {
      && sizeList != [] && sizeList[0] == tableSize
      && (forall m :: m in sizeList ==> m % BITS_PER_CHAR == 0)
      && sizeList[|sizeList| - 1] == 8 * bitTable.Length
      && Built(hash, salts, members, sizeList) <= Bits(bitTable[..])
    }

    /** No other bit is set: the table is the one that inserting the members directly, with the
        present list of sizes, would have built. */
    ghost predicate Exact()
      requires Valid()
      reads this, bitTable
    {
      Bits(bitTable[..]) == Built(hash, salts, members, sizeList)
    }

    constructor (h: Hash, ss: seq<nat>, size: nat, seed: nat)
      requires size > 0 && size % BITS_PER_CHAR == 0
      ensures Valid() && Exact() && members == {} && sizeList == [size] && tableSize == size
      ensures hash == h && salts == ss && saltCount == |ss| && randomSeed == seed && insertedElementCount == 0
      ensures fresh(bitTable)
    {
      hash, salts, saltCount, tableSize, randomSeed := h, ss, |ss|, size, seed;
      bitTable := new bv8[size / BITS_PER_CHAR](_ => 0);
      insertedElementCount := 0;
      sizeList := [size];
      members := {};
      new;
      forall i: nat | i < 8 * |bitTable[..]|
        ensures !BitAt(bitTable[..], i)
      {
        assert bitTable[..][i / 8] == 0;
      }
    }

    /** The loop that reduces a hash by every size. */
    method ComputeIndices(h: nat) returns (bitIndex: nat, bit: nat)
      requires sizeList != []
      ensures bitIndex == Chain(h, sizeList) && bitIndex < sizeList[|sizeList| - 1]
      ensures |sizeList| == 1 ==> bitIndex == h % sizeList[0]
      ensures |sizeList| > 1 ==>
                bitIndex == Chain(h, sizeList[..|sizeList| - 1]) % sizeList[|sizeList| - 1]
      ensures bit == bitIndex % BITS_PER_CHAR
    {
      ChainIs(h, sizeList[..|sizeList| - 1], sizeList[|sizeList| - 1]);
      assert sizeList == sizeList[..|sizeList| - 1] + [sizeList[|sizeList| - 1]];
      bitIndex := h;
      for i := 0 to |sizeList|
        invariant bitIndex == Chain(h, sizeList[..i])
        invariant i > 0 ==> bitIndex < sizeList[i - 1]
      {
        assert sizeList[..i + 1][..i] == sizeList[..i];
        bitIndex := bitIndex % sizeList[i];
      }
      assert sizeList[..|sizeList|] == sizeList;
      bit := bitIndex % BITS_PER_CHAR;
    }

    /** Some member has the index `p` in a plain filter. */
    ghost predicate Marked(p: nat)
      requires tableSize > 0
      reads this
    {
      exists m, j :: m in members && 0 <= j < |salts| && hash(m, salts[j]) % tableSize == p
    }

    ghost predicate AllMarked(key: Key)
      requires tableSize > 0
      reads this
    {
      forall i :: 0 <= i < |salts| ==> Marked(hash(key, salts[i]) % tableSize)
    }

    /** A plain exact filter says yes only to a key each of whose indexes is one of a member. */
    lemma PlainHits(key: Key)
      requires Valid() && Exact() && sizeList == [tableSize]
      ensures Positions(hash, salts, key, sizeList) <= Bits(bitTable[..]) <==> AllMarked(key)
    {
      hide Bits, Chain;
      forall h: nat
        ensures Chain(h, sizeList) == h % tableSize
      {
        ChainIs(h, [], tableSize);
      }
      forall p: nat
        ensures p in Built(hash, salts, members, sizeList) <==> Marked(p)
      {
        if p in Built(hash, salts, members, sizeList) {
          var m :| m in members && p in Positions(hash, salts, m, sizeList);
          var j :| 0 <= j < |salts| && Chain(hash(m, salts[j]), sizeList) == p;
          assert hash(m, salts[j]) % tableSize == p;
        }
        if Marked(p) {
          var m, j :| m in members && 0 <= j < |salts| && hash(m, salts[j]) % tableSize == p;
          assert Chain(hash(m, salts[j]), sizeList) in Positions(hash, salts, m, sizeList);
        }
      }
      forall i | 0 <= i < |salts|
        ensures hash(key, salts[i]) % tableSize in Positions(hash, salts, key, sizeList)
      {
        assert Chain(hash(key, salts[i]), sizeList) in Positions(hash, salts, key, sizeList);
      }
    }

    method Insert(key: Key)
      requires Valid()
      modifies this`insertedElementCount, this`members, bitTable
      ensures Valid() && members == old(members) + {key}
      ensures Bits(bitTable[..]) == old(Bits(bitTable[..])) + Positions(hash, salts, key, sizeList)
      ensures old(Exact()) ==> Exact()
      ensures insertedElementCount == old(insertedElementCount) + 1
    {
      hide Chain, Mask, CellBit, OrCell, BitAt, Built, Positions;
      ghost var was := Bits(bitTable[..]);
      PositionsNone(hash, key, sizeList);
      assert salts[..0] == [];
      for i := 0 to |salts|
        modifies bitTable
        invariant Bits(bitTable[..]) == was + Positions(hash, salts[..i], key, sizeList)
      {
        var bitIndex, bit := ComputeIndices(hash(key, salts[i]));
        ghost var t := bitTable[..];
        SetBit(t, bitIndex);
        bitTable[bitIndex / BITS_PER_CHAR] := OrCell(bitTable[bitIndex / BITS_PER_CHAR], Mask(bit));
        assert bitTable[..] == t[bitIndex / 8 := OrCell(t[bitIndex / 8], Mask(bitIndex % 8))];
        PositionsNext(hash, salts, i, key, sizeList);
      }
      assert salts[..|salts|] == salts;
      BuiltOne(hash, salts, key, sizeList);
      BuiltUnion(hash, salts, members, {key}, sizeList);
      members := members + {key};
      insertedElementCount := insertedElementCount + 1;
    }

    method Contains(key: Key) returns (found: bool)
      requires Valid()
      ensures found <==> Positions(hash, salts, key, sizeList) <= Bits(bitTable[..])
      ensures key in members ==> found
      ensures Exact() && sizeList == [tableSize] ==> (found <==> AllMarked(key))
    {
      hide AllMarked, Marked, Exact;
      if Exact() && sizeList == [tableSize] {
        PlainHits(key);
      }
      hide Chain, Mask, CellBit, Built, Positions;
      BuiltOne(hash, salts, key, sizeList);
      BuiltUnion(hash, salts, members, {key}, sizeList);
      assert key in members ==> members + {key} == members;
      PositionsNone(hash, key, sizeList);
      assert salts[..0] == [];
      for i := 0 to |salts|
        invariant Positions(hash, salts[..i], key, sizeList) <= Bits(bitTable[..])
      {
        PositionsNext(hash, salts, i, key, sizeList);
        var bitIndex, bit := ComputeIndices(hash(key, salts[i]));
        if !CellBit(bitTable[bitIndex / BITS_PER_CHAR], bit) {
          assert !BitAt(bitTable[..], bitIndex);
          assert bitIndex in Positions(hash, salts, key, sizeList);
          return false;
        }
        assert BitAt(bitTable[..], bitIndex);
      }
      assert salts[..|salts|] == salts;
      return true;
    }

    /** Folds the table onto a smaller one, if the request is not refused. The fold is one pass over
        the new table, so a request that is granted must be one that fits (`FoldFitsExactly`). */
    method Compress(percentage: real) returns (ok: bool)
      requires Valid()
      requires NewSize(sizeList[|sizeList| - 1], percentage).Some? ==> Foldable(bitTable.Length, percentage)
      modifies this`bitTable, this`sizeList
      ensures Valid() && members == old(members)
      ensures ok <==> NewSize(old(sizeList[|sizeList| - 1]), percentage).Some?
      ensures sizeList == old(sizeList) + if ok then [NewSize(old(sizeList[|sizeList| - 1]), percentage).value] else []
      ensures !ok ==> bitTable == old(bitTable)
      ensures ok ==>
                var was, now := old(sizeList[|sizeList| - 1]), sizeList[|sizeList| - 1];
                now % BITS_PER_CHAR == 0
                && now as real <= was as real * (1.0 - percentage / 100.0) < (now + BITS_PER_CHAR) as real
      ensures ok ==> bitTable.Length <= old(bitTable.Length) <= 2 * bitTable.Length
      ensures ok ==> fresh(bitTable) && bitTable[..] == Fold(old(bitTable[..]), bitTable.Length)
      ensures old(Exact()) ==> Exact()
    {
      hide Chain, Mask, Bits, Built, Reduce, OrCell, Fold, NewSize, Foldable, FoldFits;
      var original := sizeList[|sizeList| - 1];
      var smaller := NewSize(original, percentage);
      if smaller.None? {
        return false;
      }
      NewSizeShape(original, percentage);
      NewSizeIs(original, percentage);
      var newSize: Size := smaller.value;
      FoldFitsExactly(bitTable.Length, percentage);
      var raw := newSize / BITS_PER_CHAR;
      var tmp := FoldTable(raw);
      FoldBits(bitTable[..], raw);
      BuiltReduced(hash, salts, members, sizeList, newSize);
      ReduceMonotone(Built(hash, salts, members, sizeList), Bits(bitTable[..]), newSize);
      bitTable := tmp;
      sizeList := sizeList + [newSize];
      return true;
    }

    /** The folding loop: one pass of the old table's tail over a copy of its front. */
    method FoldTable(raw: nat) returns (tmp: array<bv8>)
      requires 0 < raw <= bitTable.Length <= 2 * raw
      ensures fresh(tmp) && tmp.Length == raw && tmp[..] == Fold(bitTable[..], raw)
    {
      hide OrCell;
      tmp := new bv8[raw](i requires 0 <= i < raw reads this, bitTable =>
                            if i < bitTable.Length then bitTable[i] else 0);
      var itr := raw;
      while itr != bitTable.Length
        modifies tmp
        invariant raw <= itr <= bitTable.Length
        invariant forall j :: 0 <= j < itr - raw ==> tmp[j] == OrCell(bitTable[j], bitTable[raw + j])
        invariant forall j :: itr - raw <= j < raw ==> tmp[j] == bitTable[j]
        decreases bitTable.Length - itr
      {
        tmp[itr - raw] := OrCell(tmp[itr - raw], bitTable[itr]);
        itr := itr + 1;
      }
    }

    /** Same salt count, table size and seed: what the set operations test. */
    predicate SameParameters(f: BloomFilter) {
      saltCount == f.saltCount && tableSize == f.tableSize && randomSeed == f.randomSeed
    }

    /** Both filters use one hash, and where the parameters agree, so do the salts, and the set
        operations find a cell of `f` for each of their own. The lists of sizes may differ. */
    ghost predicate Compatible(f: BloomFilter)
      reads this, f
    {
      hash == f.hash && (SameParameters(f) ==> salts == f.salts && bitTable.Length <= f.bitTable.Length)
    }

    predicate HasCell(i: nat)
      reads this`bitTable
    {
      i < bitTable.Length
    }

    /** The set operations read one cell of `f` for each of their own. All of those exist exactly when
        `f` is at least as large, as it is when the lists of sizes are equal. */
    lemma ReadsWithin(f: BloomFilter)
      requires Valid() && f.Valid()
      ensures (forall i :: HasCell(i) ==> f.HasCell(i))
         <==> sizeList[|sizeList| - 1] <= f.sizeList[|f.sizeList| - 1]
      ensures bitTable.Length <= f.bitTable.Length <==> sizeList[|sizeList| - 1] <= f.sizeList[|f.sizeList| - 1]
    {
      hide Built, Bits;
      assert bitTable.Length > 0 && HasCell(bitTable.Length - 1);
    }

    /** `|=`. The filter goes on answering for its own keys, and answers for those of `f` if both were
        compressed alike. */
    method UnionWith(f: BloomFilter)
      requires Valid() && f.Valid() && Compatible(f)
      modifies this`members, bitTable
      ensures Valid()
      ensures members == old(members) + if SameParameters(f) && sizeList == f.sizeList then old(f.members) else {}
      ensures SameParameters(f) ==>
                Bits(bitTable[..]) == old(Bits(bitTable[..]) + Bits(f.bitTable[..bitTable.Length]))
      ensures saltCount != f.saltCount || tableSize != f.tableSize || randomSeed != f.randomSeed ==>
                bitTable[..] == old(bitTable[..]) && members == old(members)
      ensures old(Exact() && f.Exact()) && (SameParameters(f) ==> sizeList == f.sizeList) ==> Exact()
    {
      hide Chain, Mask, Bits, Built, OrCell, AndCell;
      if saltCount == f.saltCount && tableSize == f.tableSize && randomSeed == f.randomSeed {
        ghost var s, t := bitTable[..], f.bitTable[..bitTable.Length];
        assert sizeList == f.sizeList ==> t == f.bitTable[..];
        CombineBits(s, t);
        for i := 0 to bitTable.Length
          modifies bitTable
          invariant forall j :: i <= j < bitTable.Length ==> f.bitTable[j] == t[j]
          invariant forall j :: 0 <= j < i ==> bitTable[j] == OrCell(s[j], t[j])
          invariant forall j :: i <= j < bitTable.Length ==> bitTable[j] == s[j]
        {
          bitTable[i] := OrCell(bitTable[i], f.bitTable[i]);
        }
        assert bitTable[..] == OrTable(s, t);
        if sizeList == f.sizeList {
          BuiltUnion(hash, salts, members, f.members, sizeList);
          members := members + f.members;
        }
      }
    }

    /** `&=`. The filter goes on answering for exactly those of its keys whose bits `f` has too: for
        every key inserted in both, if both were compressed alike. */
    method IntersectWith(f: BloomFilter)
      requires Valid() && f.Valid() && Compatible(f)
      modifies this`members, bitTable
      ensures Valid()
      ensures members == if !SameParameters(f) then old(members)
                         else set k | k in old(members)
                                      && Positions(hash, salts, k, sizeList) <= old(Bits(f.bitTable[..bitTable.Length]))
      ensures sizeList == f.sizeList ==> old(members) * old(f.members) <= members
      ensures SameParameters(f) ==>
                Bits(bitTable[..]) == old(Bits(bitTable[..]) * Bits(f.bitTable[..bitTable.Length]))
      ensures saltCount != f.saltCount || tableSize != f.tableSize || randomSeed != f.randomSeed ==>
                bitTable[..] == old(bitTable[..]) && members == old(members)
    {
      hide Chain, Mask, Bits, Built, OrCell, AndCell, Positions;
      if saltCount == f.saltCount && tableSize == f.tableSize && randomSeed == f.randomSeed {
        ghost var s, t := bitTable[..], f.bitTable[..bitTable.Length];
        assert sizeList == f.sizeList ==> t == f.bitTable[..];
        BuiltWithin(hash, salts, members, sizeList, Bits(s));
        BuiltWithin(hash, salts, f.members, f.sizeList, Bits(f.bitTable[..]));
        CombineBits(s, t);
        for i := 0 to bitTable.Length
          modifies bitTable
          invariant forall j :: i <= j < bitTable.Length ==> f.bitTable[j] == t[j]
          invariant forall j :: 0 <= j < i ==> bitTable[j] == AndCell(s[j], t[j])
          invariant forall j :: i <= j < bitTable.Length ==> bitTable[j] == s[j]
        {
          bitTable[i] := AndCell(bitTable[i], f.bitTable[i]);
        }
        assert bitTable[..] == AndTable(s, t);
        members := set k | k in members && Positions(hash, salts, k, sizeList) <= Bits(t);
        BuiltWithin(hash, salts, members, sizeList, Bits(s) * Bits(t));
      }
    }
  }

  /** Two exact filters with the same members under the same sizes have the same table, however
      their inserts and compressions were interleaved. */
  lemma ExactTablesEqual(f: BloomFilter, g: BloomFilter)
    requires f.Valid() && g.Valid() && f.Exact() && g.Exact()
    requires f.hash == g.hash && f.salts == g.salts && f.members == g.members && f.sizeList == g.sizeList
    ensures f.bitTable[..] == g.bitTable[..]
  {
    BitsDetermineTable(f.bitTable[..], g.bitTable[..]);
  }
}
