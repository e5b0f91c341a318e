/**
 What is under way for a task: the jobs in the worker pool, the outcomes in the buffer of the `done`
 channel, and the retry timers.  All three are lists, so a node may be listed more than once.
 */
module Traffic {
  /** What a list of entries says of each key; a later entry hides an earlier one. */
  function Table<K, V>(entries: seq<(K, V)>): map<K, V> {
    if entries == [] then map[]
    else Table(entries[..|entries| - 1])[entries[|entries| - 1].0 := entries[|entries| - 1].1]
  }

  /** No key is listed twice. */
  ghost predicate Once<K, V>(entries: seq<(K, V)>) {
    forall i, j :: 0 <= i < j < |entries| ==> entries[i].0 != entries[j].0
  }

  lemma {:induction false} TableKeys<K, V>(entries: seq<(K, V)>)
    ensures forall i :: 0 <= i < |entries| ==> entries[i].0 in Table(entries)
    ensures forall k :: k in Table(entries) ==> exists i :: 0 <= i < |entries| && entries[i].0 == k
  {
    if entries != [] {
      var n := |entries| - 1;
      TableKeys(entries[..n]);
      forall k | k in Table(entries) ensures exists i :: 0 <= i < |entries| && entries[i].0 == k {
        if k != entries[n].0 {
          var i :| 0 <= i < n && entries[..n][i].0 == k;
          assert entries[i].0 == k;
        }
      }
    }
  }

  lemma TableAdd<K, V>(entries: seq<(K, V)>, k: K, v: V)
    ensures Table(entries + [(k, v)]) == Table(entries)[k := v]
    ensures Once(entries) && k !in Table(entries) ==> Once(entries + [(k, v)])
  {
    assert (entries + [(k, v)])[..|entries|] == entries;
    TableKeys(entries);
  }

  lemma {:induction false} TableAt<K, V>(entries: seq<(K, V)>, i: nat)
    requires Once(entries) && i < |entries|
    ensures entries[i].0 in Table(entries) && Table(entries)[entries[i].0] == entries[i].1
  {
    if i < |entries| - 1 {
      TableAt(entries[..|entries| - 1], i);
    }
  }

  /** As many entries as keys. */
  lemma {:induction false} TableSize<K, V>(entries: seq<(K, V)>)
    requires Once(entries)
    ensures |Table(entries).Keys| == |entries|
  {
    if entries != [] {
      var n := |entries| - 1;
      TableSize(entries[..n]);
      TableKeys(entries[..n]);
      assert Table(entries).Keys == Table(entries[..n]).Keys + {entries[n].0};
    }
  }

  /** Taking an entry out takes its key out. */
  lemma Taken<K, V>(entries: seq<(K, V)>, i: nat)
    requires Once(entries) && i < |entries|
    ensures var rest := entries[..i] + entries[i + 1..];
      && entries[i].0 in Table(entries) && Table(entries)[entries[i].0] == entries[i].1
      && Once(rest) && entries[i].0 !in Table(rest) && Table(rest) == Table(entries) - {entries[i].0}
  {
    TableAt(entries, i);
    TableRemove(entries, i);
    Without(entries, i);
  }

  lemma Without<K, V>(entries: seq<(K, V)>, i: nat)
    requires Once(entries) && i < |entries|
    ensures Once(entries[..i] + entries[i + 1..])
    ensures entries[i].0 !in Table(entries[..i] + entries[i + 1..])
  {
    var rest := entries[..i] + entries[i + 1..];
    assert forall j :: 0 <= j < |rest| ==> rest[j] == entries[if j < i then j else j + 1];
    TableKeys(rest);
  }

  lemma {:induction false} TableRemove<K, V>(entries: seq<(K, V)>, i: nat)
    requires Once(entries) && i < |entries|
    ensures Table(entries[..i] + entries[i + 1..]) == Table(entries) - {entries[i].0}
  {
    var n := |entries| - 1;
    if i == n {
      assert entries[..i] + entries[i + 1..] == entries[..n];
      TableKeys(entries[..n]);
    } else {
      TableRemove(entries[..n], i);
      assert (entries[..i] + entries[i + 1..])[..n - 1] == entries[..n][..i] + entries[..n][i + 1..];
      assert (entries[..i] + entries[i + 1..])[n - 1] == entries[n];
    }
  }
}
