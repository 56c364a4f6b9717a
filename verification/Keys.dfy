/** Keys are strings, compared as `std::string::operator<` compares them: lexicographically,
    a proper prefix first. The empty string is the engine's "absent" sentinel. */
module Keys {
  type Key = string

  /** Comparison of `a` and `b` from position `i` on, both having matched before it. */
  predicate LessFrom(a: Key, b: Key, i: nat)
    requires i <= |a| && i <= |b|
    decreases |a| - i
  {
    i < |b| && (i == |a| || a[i] < b[i] || (a[i] == b[i] && LessFrom(a, b, i + 1)))
  }

  predicate Less(a: Key, b: Key) {
    LessFrom(a, b, 0)
  }

  predicate AtMost(a: Key, b: Key) {
    !Less(b, a)
  }

  function Min(a: Key, b: Key): Key {
    if Less(b, a) then b else a
  }

  function Max(a: Key, b: Key): Key {
    if Less(a, b) then b else a
  }

  // ----- the order meant -----

  /** `a` is smaller than `b`: after a common start it ends where `b` goes on, or has the smaller
      character where they first differ. */
  lemma LessIsLexicographic(a: Key, b: Key)
    ensures Less(a, b)
       <==> exists n :: 0 <= n < |b| && n <= |a| && a[..n] == b[..n] && (n == |a| || a[n] < b[n])
  {
    LessFromIs(a, b, 0);
  }

  lemma {:induction false} LessFromIs(a: Key, b: Key, i: nat)
    requires i <= |a| && i <= |b| && a[..i] == b[..i]
    ensures LessFrom(a, b, i)
       <==> exists n :: i <= n < |b| && n <= |a| && a[..n] == b[..n] && (n == |a| || a[n] < b[n])
    decreases |a| - i
  {
    if i < |a| && i < |b| && a[i] == b[i] {
      assert a[..i + 1] == a[..i] + [a[i]] && b[..i + 1] == b[..i] + [b[i]];
      LessFromIs(a, b, i + 1);
    } else if i < |b| {
      forall n | i < n < |b| && n <= |a|
        ensures a[..n] != b[..n]
      {
        assert a[..n][i] == a[i] && b[..n][i] == b[i];
      }
      if i == |a| || a[i] < b[i] {
        assert a[..i] == b[..i];
      }
    }
  }

  lemma AtMostIsLessOrEqual(a: Key, b: Key)
    ensures AtMost(a, b) <==> Less(a, b) || a == b
  {
    Trichotomy(a, b);
    Irreflexive(a);
    if Less(a, b) {
      Asymmetric(a, b);
    }
  }

  // ----- Less is a strict total order -----

  lemma {:induction false} Irreflexive(a: Key, i: nat := 0)
    requires i <= |a|
    ensures !LessFrom(a, a, i)
    decreases |a| - i
  {
    if i < |a| {
      Irreflexive(a, i + 1);
    }
  }

  lemma {:induction false} Transitive(a: Key, b: Key, c: Key, i: nat := 0)
    requires i <= |a| && i <= |b| && i <= |c|
    requires LessFrom(a, b, i) && LessFrom(b, c, i)
    ensures LessFrom(a, c, i)
    decreases |a| - i
  {
    if i < |a| && a[i] == b[i] == c[i] {
      Transitive(a, b, c, i + 1);
    }
  }

  lemma {:induction false} Trichotomy(a: Key, b: Key, i: nat := 0)
    requires i <= |a| && i <= |b| && a[..i] == b[..i]
    ensures LessFrom(a, b, i) || LessFrom(b, a, i) || a == b
    decreases |a| - i
  {
    if i < |a| && i < |b| && a[i] == b[i] {
      assert a[..i + 1] == a[..i] + [a[i]] && b[..i + 1] == b[..i] + [b[i]];
      Trichotomy(a, b, i + 1);
    } else if i == |a| == |b| {
      assert a == a[..i] && b == b[..i];
    }
  }

  lemma Asymmetric(a: Key, b: Key)
    requires Less(a, b)
    ensures !Less(b, a) && a != b
  {
    Irreflexive(a);
    if Less(b, a) {
      Transitive(a, b, a);
    }
  }

  /** `a <= b < c` gives `a < c`. */
  lemma AtMostLess(a: Key, b: Key, c: Key)
    requires AtMost(a, b) && Less(b, c)
    ensures Less(a, c)
  {
    Trichotomy(a, b);
    if a != b {
      Transitive(a, b, c);
    }
  }

  /** `a < b <= c` gives `a < c`. */
  lemma LessAtMost(a: Key, b: Key, c: Key)
    requires Less(a, b) && AtMost(b, c)
    ensures Less(a, c)
  {
    Trichotomy(b, c);
    if b != c {
      Transitive(a, b, c);
    }
  }

  lemma AtMostTransitive(a: Key, b: Key, c: Key)
    requires AtMost(a, b) && AtMost(b, c)
    ensures AtMost(a, c)
  {
    if Less(c, a) {
      LessAtMost(c, a, b);
    }
  }

  // ----- the least key of a set: where an ordered-map iteration starts -----

  ghost predicate IsLeast(k: Key, ks: set<Key>) {
    k in ks && forall j :: j in ks ==> AtMost(k, j)
  }

  lemma {:induction false} LeastExists(ks: set<Key>)
    requires ks != {}
    ensures exists k :: IsLeast(k, ks)
  {
    var a :| a in ks;
    Irreflexive(a);
    if ks == {a} {
      assert IsLeast(a, ks);
    } else {
      LeastExists(ks - {a});
      var b :| IsLeast(b, ks - {a});
      if Less(a, b) {
        forall j | j in ks
          ensures AtMost(a, j)
        {
          if Less(j, a) {
            assert j in ks - {a};
            Transitive(j, a, b);
          }
        }
        assert IsLeast(a, ks);
      } else {
        assert IsLeast(b, ks);
      }
    }
  }

  lemma LeastUnique(ks: set<Key>, a: Key, b: Key)
    requires IsLeast(a, ks) && IsLeast(b, ks)
    ensures a == b
  {
    Trichotomy(a, b);
  }

  ghost function Least(ks: set<Key>): (k: Key)
    requires ks != {}
    ensures IsLeast(k, ks)
  {
    LeastExists(ks);
    var k :| IsLeast(k, ks);
    k
  }
}
