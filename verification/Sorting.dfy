/**
 The order in which the scheduler lists node keys: `sort.Strings` on Go strings.

 `Sort` is the method the loops call.  `SortedKeys` is the only strictly increasing listing of a
 set of keys, so every caller that sorts the keys of a Go map gets a listing that does not depend
 on the random iteration order of that map.
 */
module Sorting {
  type Key = string

  /** Lexicographic order by code point, which is Go's byte order on valid UTF-8. */
  predicate Leq(a: Key, b: Key) {
    a == [] || (b != [] && (a[0] < b[0] || (a[0] == b[0] && Leq(a[1..], b[1..]))))
  }

  /** At position `i` the two keys differ for the first time, and there `a` has the smaller character. */
  ghost predicate DifferAt(a: Key, b: Key, i: nat) {
    i < |a| && i < |b| && a[..i] == b[..i] && a[i] < b[i]
  }

  lemma DifferLater(a: Key, b: Key, i: nat)
    requires a != [] && b != [] && a[0] == b[0]
    ensures DifferAt(a[1..], b[1..], i) <==> DifferAt(a, b, i + 1)
  {
    if i + 1 < |a| && i + 1 < |b| {
      assert a[..i + 1] == [a[0]] + a[1..][..i] && b[..i + 1] == [b[0]] + b[1..][..i];
      assert a[1..][..i] == a[..i + 1][1..] && b[1..][..i] == b[..i + 1][1..];
    }
  }

  /** The order is that of a dictionary: a prefix comes first, and otherwise the first difference decides. */
  lemma {:induction false} LeqIff(a: Key, b: Key)
    ensures Leq(a, b) <==> a <= b || exists i: nat :: DifferAt(a, b, i)
  {
    if a != [] && b != [] {
      if a[0] == b[0] {
        LeqIff(a[1..], b[1..]);
        assert a <= b <==> a[1..] <= b[1..] by { assert a == [a[0]] + a[1..] && b == [b[0]] + b[1..]; }
        forall i: nat { DifferLater(a, b, i); }
        if i: nat :| DifferAt(a, b, i) {
          assert i > 0;
          assert DifferAt(a[1..], b[1..], i - 1);
        }
        if i: nat :| DifferAt(a[1..], b[1..], i) {
          assert DifferAt(a, b, i + 1);
        }
      } else {
        assert a[0] < b[0] ==> DifferAt(a, b, 0);
      }
    } else {
      assert a == [] ==> a <= b;
    }
  }

  lemma {:induction false} LeqTotal(a: Key, b: Key)
    ensures Leq(a, b) || Leq(b, a)
    ensures Leq(a, b) && Leq(b, a) ==> a == b
  {
    if a != [] && b != [] && a[0] == b[0] {
      LeqTotal(a[1..], b[1..]);
      assert a == [a[0]] + a[1..] && b == [b[0]] + b[1..];
    }
  }

  lemma {:induction false} LeqTransitive(a: Key, b: Key, c: Key)
    requires Leq(a, b) && Leq(b, c)
    ensures Leq(a, c)
  {
    if a != [] && a[0] == b[0] == c[0] {
      LeqTransitive(a[1..], b[1..], c[1..]);
    }
  }

  ghost predicate Sorted(s: seq<Key>) {
    forall i, j :: 0 <= i < j < |s| ==> Leq(s[i], s[j])
  }

  ghost predicate Distinct<T>(s: seq<T>) {
    forall i, j :: 0 <= i < j < |s| ==> s[i] != s[j]
  }

  ghost function Elems<T>(s: seq<T>): set<T> {
    set x | x in s
  }

  lemma ElemsHead<T>(s: seq<T>)
    requires s != []
    ensures Elems(s) == {s[0]} + Elems(s[1..])
    ensures Distinct(s) ==> s[0] !in Elems(s[1..]) && Distinct(s[1..])
  {
    assert s == [s[0]] + s[1..];
  }

  lemma ElemsConcat<T>(a: seq<T>, b: seq<T>)
    ensures Elems(a + b) == Elems(a) + Elems(b)
    ensures Distinct(a) && Distinct(b) && Elems(a) !! Elems(b) ==> Distinct(a + b)
  {
    forall i, j | 0 <= i < |a| && 0 <= j < |b| && Elems(a) !! Elems(b) ensures a[i] != b[j] {
      assert a[i] in Elems(a) && b[j] in Elems(b);
    }
  }

  lemma ElemsSnoc<T>(a: seq<T>, x: T)
    ensures Elems(a + [x]) == Elems(a) + {x}
    ensures Distinct(a) && x !in Elems(a) ==> Distinct(a + [x])
  {
    ElemsConcat(a, [x]);
    assert Elems([x]) == {x};
  }

  lemma {:induction false} DistinctCard<T>(s: seq<T>)
    requires Distinct(s)
    ensures |Elems(s)| == |s|
  {
    if s == [] {
      assert Elems(s) == {};
    } else {
      var last := |s| - 1;
      DistinctCard(s[..last]);
      assert s == s[..last] + [s[last]];
      assert Elems(s) == Elems(s[..last]) + {s[last]};
    }
  }

  ghost predicate IsLeast(s: set<Key>, m: Key) {
    m in s && forall x :: x in s ==> Leq(m, x)
  }

  lemma {:induction false} LeastExists(s: set<Key>)
    requires s != {}
    ensures exists m :: IsLeast(s, m)
  {
    var x :| x in s;
    LeqTotal(x, x);
    if s == {x} {
      assert IsLeast(s, x);
    } else {
      LeastExists(s - {x});
      var r :| IsLeast(s - {x}, r);
      LeqTotal(x, r);
      var m := if Leq(x, r) then x else r;
      forall y | y in s ensures Leq(m, y) {
        if y != x && m == x { LeqTransitive(x, r, y); }
      }
      assert IsLeast(s, m);
    }
  }

  /** The strictly increasing listing of a set of keys. */
  ghost function SortedKeys(s: set<Key>): (r: seq<Key>)
    ensures Elems(r) == s && Distinct(r)
  {
    if s == {} then []
    else
      LeastExists(s);
      var m :| IsLeast(s, m);
      var rest := SortedKeys(s - {m});
      assert Elems([m] + rest) == {m} + Elems(rest);
      assert forall x :: x in rest ==> x in Elems(rest);
      [m] + rest
  }

  lemma {:induction false} SortedKeysSorted(s: set<Key>)
    ensures Sorted(SortedKeys(s))
  {
    if s != {} {
      LeastExists(s);
      var r := SortedKeys(s);
      assert IsLeast(s, r[0]) && r[1..] == SortedKeys(s - {r[0]});
      SortedKeysSorted(s - {r[0]});
      forall i | 0 < i < |r| ensures Leq(r[0], r[i]) {
        assert r[i] in Elems(r);
      }
    }
  }

  /** There is only one such listing: sorting forgets the order in which keys were collected. */
  lemma {:induction false} SortedUnique(s: seq<Key>)
    requires Sorted(s) && Distinct(s)
    ensures s == SortedKeys(Elems(s))
  {
    if s == [] {
    } else {
      var keys := Elems(s);
      assert s[0] in keys;
      var m := SortedKeys(keys)[0];
      assert m in SortedKeys(keys) && m in keys;
      assert IsLeast(keys, s[0]) by { LeqTotal(s[0], s[0]); }
      LeqTotal(s[0], m);
      assert Elems(s[1..]) == keys - {m};
      SortedUnique(s[1..]);
    }
  }

  lemma InsertSorted(r: seq<Key>, j: nat, x: Key)
    requires Sorted(r) && j <= |r| && (j > 0 ==> Leq(r[j - 1], x))
    requires forall k :: j <= k < |r| ==> Leq(x, r[k])
    ensures Sorted(r[..j] + [x] + r[j..])
  {
    forall k | 0 <= k < j ensures Leq(r[k], x) {
      if k < j - 1 { LeqTransitive(r[k], r[j - 1], x); }
    }
  }

  lemma InsertElements<T>(r: seq<T>, j: nat, s: seq<T>, i: nat)
    requires j <= |r| && i < |s| && multiset(r) == multiset(s[..i])
    ensures multiset(r[..j] + [s[i]] + r[j..]) == multiset(s[..i + 1])
  {
    assert s[..i + 1] == s[..i] + [s[i]];
    assert r == r[..j] + r[j..];
  }

  /** `sort.Strings`, as an insertion sort. */
  method Sort(s: seq<Key>) returns (r: seq<Key>)
    ensures Sorted(r) && multiset(r) == multiset(s)
  {
    r := [];
    for i := 0 to |s|
      invariant Sorted(r) && multiset(r) == multiset(s[..i])
    {
      var j := |r|;
      while j > 0 && !Leq(r[j - 1], s[i])
        invariant 0 <= j <= |r|
        invariant forall k :: j <= k < |r| ==> Leq(s[i], r[k])
      {
        LeqTotal(r[j - 1], s[i]);
        j := j - 1;
      }
      InsertSorted(r, j, s[i]);
      InsertElements(r, j, s, i);
      r := r[..j] + [s[i]] + r[j..];
    }
    assert s[..|s|] == s;
  }

  /** Sorting a duplicate-free list gives the canonical listing of its elements. */
  method SortDistinct(s: seq<Key>) returns (r: seq<Key>)
    requires Distinct(s)
    ensures r == SortedKeys(Elems(s))
  {
    r := Sort(s);
    SameMultisetDistinct(s, r);
    SortedUnique(r);
  }

  lemma {:induction false} SameMultisetDistinct<T>(s: seq<T>, r: seq<T>)
    requires Distinct(s) && multiset(r) == multiset(s)
    ensures Distinct(r) && Elems(r) == Elems(s)
  {
    forall x ensures x in r <==> x in s {
      assert x in r <==> x in multiset(r);
      assert x in s <==> x in multiset(s);
    }
    forall i, j | 0 <= i < j < |r| ensures r[i] != r[j] {
      if r[i] == r[j] {
        var x := r[i];
        assert r == r[..i] + [x] + r[i + 1..j] + [x] + r[j + 1..];
        assert multiset(r)[x] >= 2;
        CountDistinct(s, x);
      }
    }
  }

  lemma {:induction false} CountDistinct<T>(s: seq<T>, x: T)
    requires Distinct(s)
    ensures multiset(s)[x] <= 1
  {
    if s != [] {
      assert s == [s[0]] + s[1..];
      CountDistinct(s[1..], x);
      if s[0] == x { assert x !in s[1..]; assert x !in multiset(s[1..]); }
    }
  }
}
