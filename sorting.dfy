/** `sorted()` over a set of strings and the "later assignment wins" dict
    that every script builds before sorting its keys. */
module Sorting {
  import opened Text

  /** Each element is below every later one: sorted, and no repeats. */
  predicate StrictlyAscending(s: seq<string>) {
    forall i, j :: 0 <= i < j < |s| ==> Below(s[i], s[j])
  }

  /** Places x into an ascending sequence that lacks it. */
  function Insert(s: seq<string>, x: string): (r: seq<string>)
    requires StrictlyAscending(s) && x !in s
    ensures StrictlyAscending(r)
    ensures |r| == |s| + 1
    ensures forall y :: y in r <==> y in s || y == x
  {
    if s == [] then [x]
    else if Below(x, s[0]) then
      forall j | 0 <= j < |s| ensures Below(x, s[j]) {
        if j > 0 { BelowTransitive(x, s[0], s[j]); }
      }
      [x] + s
    else
      BelowTotal(x, s[0]);
      var t := Insert(s[1..], x);
      assert forall y :: y in t ==> Below(s[0], y) by {
        forall y | y in t ensures Below(s[0], y) {
          if y != x {
            var j :| 0 <= j < |s[1..]| && s[1..][j] == y;
            assert s[j + 1] == y;
          }
        }
      }
      [s[0]] + t
  }

  /** Two ascending sequences with the same elements are equal: sorting a
      set has one answer. */
  lemma {:induction false} AscendingUnique(a: seq<string>, b: seq<string>)
    requires StrictlyAscending(a) && StrictlyAscending(b)
    requires forall x :: x in a <==> x in b
    ensures a == b
    decreases |a|
  {
    assert a != [] ==> a[0] in b;
    assert b != [] ==> b[0] in a;
    if a != [] && b != [] {
      if a[0] != b[0] {
        var i :| 0 <= i < |a| && a[i] == b[0];
        var j :| 0 <= j < |b| && b[j] == a[0];
        assert Below(a[0], b[0]) && Below(b[0], a[0]);
        BelowAsymmetric(a[0], b[0]);
      }
      forall x ensures x in a[1..] <==> x in b[1..] {
        if x in a[1..] {
          var i :| 1 <= i < |a| && a[i] == x;
          BelowAsymmetric(a[0], a[i]);
          assert x in a && x in b;
          var j :| 0 <= j < |b| && b[j] == x;
          assert j != 0;
          assert b[1..][j - 1] == x;
        }
        if x in b[1..] {
          var j :| 1 <= j < |b| && b[j] == x;
          BelowAsymmetric(b[0], b[j]);
          assert x in b && x in a;
          var i :| 0 <= i < |a| && a[i] == x;
          assert i != 0;
          assert a[1..][i - 1] == x;
        }
      }
      AscendingUnique(a[1..], b[1..]);
      assert a == [a[0]] + a[1..] && b == [b[0]] + b[1..];
    }
  }

  /** The value of `sorted(s)` for a set of strings. */
  ghost function SortSet(s: set<string>): (r: seq<string>)
    ensures StrictlyAscending(r)
    ensures forall x :: x in r <==> x in s
    ensures |r| == |s|
    decreases |s|
  {
    if s == {} then []
    else
      var x :| x in s;
      Insert(SortSet(s - {x}), x)
  }

  /** `sorted(keys)`, computed by inserting the keys one at a time. */
  method SortedKeys(keys: set<string>) returns (r: seq<string>)
    ensures r == SortSet(keys)
  {
    r := [];
    var rest := keys;
    while rest != {}
      invariant rest <= keys
      invariant StrictlyAscending(r)
      invariant forall x :: x in r <==> x in keys && x !in rest
      decreases |rest|
    {
      var x :| x in rest;
      r := Insert(r, x);
      rest := rest - {x};
    }
    AscendingUnique(r, SortSet(keys));
  }

  /** The dict `d` after `for (k, v) in pairs: d[k] = v`. */
  function LastWins<K, V>(pairs: seq<(K, V)>): (d: map<K, V>)
    decreases |pairs|
  {
    if pairs == [] then map[]
    else
      var last := pairs[|pairs| - 1];
      LastWins(pairs[..|pairs| - 1])[last.0 := last.1]
  }

  /** Position i holds the last pair with key k. */
  ghost predicate LastWith<K, V>(pairs: seq<(K, V)>, k: K, i: int) {
    0 <= i < |pairs| && pairs[i].0 == k &&
    forall j :: i < j < |pairs| ==> pairs[j].0 != k
  }

  /** A key is in the dict exactly when some pair carries it, and its value
      is the one of the last such pair. */
  lemma {:induction false} LastWinsSpec<K, V>(pairs: seq<(K, V)>, k: K)
    ensures k in LastWins(pairs) <==> exists i :: 0 <= i < |pairs| && pairs[i].0 == k
    ensures k in LastWins(pairs) ==>
      exists i :: LastWith(pairs, k, i) && pairs[i].1 == LastWins(pairs)[k]
    decreases |pairs|
  {
    if pairs != [] {
      var n := |pairs| - 1;
      var init := pairs[..n];
      LastWinsSpec(init, k);
      if pairs[n].0 == k {
        assert LastWith(pairs, k, n);
      } else if k in LastWins(init) {
        var i :| LastWith(init, k, i) && init[i].1 == LastWins(init)[k];
        assert LastWith(pairs, k, i);
      }
      if exists i :: 0 <= i < |pairs| && pairs[i].0 == k {
        var i :| 0 <= i < |pairs| && pairs[i].0 == k;
        if i < n {
          assert init[i].0 == k;
        }
      }
    }
  }

  /** The dict has no more keys than there were assignments. */
  lemma {:induction false} LastWinsSize<K, V>(pairs: seq<(K, V)>)
    ensures |LastWins(pairs)| <= |pairs|
    decreases |pairs|
  {
    if pairs != [] {
      var n := |pairs| - 1;
      LastWinsSize(pairs[..n]);
      var m := LastWins(pairs[..n]);
      assert LastWins(pairs).Keys == m.Keys + {pairs[n].0};
    }
  }
}
