/** Counting the entries of a map that are in a given state, one step at a time. */
module Counting {
  ghost function Where<V>(m: map<int, V>, p: V -> bool): set<int> {
    set k | k in m && p(m[k])
  }

  /** When one entry changes, the count changes by what that entry gives up and gains. */
  lemma WhereChange<V>(m: map<int, V>, k: int, v: V, p: V -> bool)
    requires k in m
    ensures |Where(m[k := v], p)| == |Where(m, p)| - (if p(m[k]) then 1 else 0) + if p(v) then 1 else 0
  {
    var before, after := Where(m, p), Where(m[k := v], p);
    assert before - {k} == after - {k};
    assert k in before ==> before == (before - {k}) + {k};
    assert k in after ==> after == (after - {k}) + {k};
  }

  lemma WhereAdd<V>(m: map<int, V>, k: int, v: V, p: V -> bool)
    requires k !in m
    ensures |Where(m[k := v], p)| == |Where(m, p)| + if p(v) then 1 else 0
  {
    var before, after := Where(m, p), Where(m[k := v], p);
    if p(v) {
      assert after == before + {k};
    } else {
      assert after == before;
    }
  }

  lemma WhereRemove<V>(m: map<int, V>, k: int, p: V -> bool)
    requires k in m
    ensures |Where(m - {k}, p)| == |Where(m, p)| - if p(m[k]) then 1 else 0
  {
    var before, after := Where(m, p), Where(m - {k}, p);
    assert after == before - {k};
    assert k in before <==> p(m[k]);
  }

  lemma WhereNone<V>(m: map<int, V>, p: V -> bool)
    requires forall k :: k in m ==> !p(m[k])
    ensures Where(m, p) == {}
  {
    forall k ensures k !in Where(m, p) {}
  }

  lemma WhereAtMost<V>(m: map<int, V>, p: V -> bool)
    ensures |Where(m, p)| <= |m|
  {
    Subset(Where(m, p), m.Keys);
  }

  lemma Subset<T>(a: set<T>, b: set<T>)
    requires a <= b
    ensures |a| <= |b|
  {
    assert b == a + (b - a);
  }

  lemma Member<T>(s: set<T>) returns (x: T)
    requires s != {}
    ensures x in s
  {
    x :| x in s;
  }

  lemma HasMember(s: set<int>)
    requires s != {}
    ensures exists x :: x in s
  {
    var x := Member(s);
  }

  // ---------- Weights ----------

  /** The credits of the listed keys, added up. */
  ghost function Total<V>(keys: set<int>, m: map<int, V>, credit: V -> nat): nat {
    if keys == {} then 0
    else
      HasMember(keys);
      var k :| k in keys;
      Total(keys - {k}, m, credit) + if k in m then credit(m[k]) else 0
  }

  lemma {:induction false} TotalWithout<V>(keys: set<int>, m: map<int, V>, credit: V -> nat, k: int)
    requires k in keys
    ensures Total(keys, m, credit) == Total(keys - {k}, m, credit) + if k in m then credit(m[k]) else 0
    decreases |keys|
  {
    var x :| x in keys && Total(keys, m, credit) == Total(keys - {x}, m, credit) + if x in m then credit(m[x]) else 0;
    if x != k {
      TotalWithout(keys - {x}, m, credit, k);
      TotalWithout(keys - {k}, m, credit, x);
      assert keys - {x} - {k} == keys - {k} - {x};
    }
  }

  lemma {:induction false} TotalAgrees<V>(keys: set<int>, a: map<int, V>, b: map<int, V>, credit: V -> nat)
    requires forall k :: k in keys ==> k in a && k in b && a[k] == b[k]
    ensures Total(keys, a, credit) == Total(keys, b, credit)
    decreases |keys|
  {
    if keys != {} {
      var k := Member(keys);
      TotalWithout(keys, a, credit, k);
      TotalWithout(keys, b, credit, k);
      TotalAgrees(keys - {k}, a, b, credit);
    }
  }

  /** When one value changes, the total changes by the difference of its credits. */
  lemma TotalChange<V>(m: map<int, V>, k: int, v: V, credit: V -> nat)
    requires k in m
    ensures m[k := v].Keys == m.Keys
    ensures Total(m.Keys, m[k := v], credit) + credit(m[k]) == Total(m.Keys, m, credit) + credit(v)
  {
    assert m[k := v].Keys == m.Keys;
    TotalWithout(m.Keys, m, credit, k);
    TotalWithout(m.Keys, m[k := v], credit, k);
    TotalAgrees(m.Keys - {k}, m, m[k := v], credit);
  }
}
