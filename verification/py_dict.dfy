/**
 Python's insertion-ordered `dict`, as an association list. Assigning to a
 key that is already present keeps the key where it was and replaces its
 value; a new key goes to the end. Iterating `.values()` walks the list.
 */
module PyDict {
  import opened Wrappers
  import opened PySeq

  function Keys<K, V>(d: seq<(K, V)>): seq<K> {
    seq(|d|, i requires 0 <= i < |d| => d[i].0)
  }

  function Values<K, V>(d: seq<(K, V)>): seq<V> {
    seq(|d|, i requires 0 <= i < |d| => d[i].1)
  }

  /** No element occurs twice. */
  predicate Distinct<K(==)>(ks: seq<K>) {
    forall i, j :: 0 <= i < j < |ks| ==> ks[i] != ks[j]
  }

  predicate UniqueKeys<K(==), V>(d: seq<(K, V)>) {
    Distinct(Keys(d))
  }

  /** `d.get(k)`. */
  function Get<K(==), V>(d: seq<(K, V)>, k: K): Option<V> {
    if |d| == 0 then None else if d[0].0 == k then Some(d[0].1) else Get(d[1..], k)
  }

  /** A key that `get` finds sits at some position of the dict, holding that value. */
  lemma {:induction false} GetFound<K, V>(d: seq<(K, V)>, k: K)
    requires Get(d, k).Some?
    ensures exists i :: 0 <= i < |d| && d[i] == (k, Get(d, k).value)
    decreases |d|
  {
    if d[0].0 != k {
      GetFound(d[1..], k);
      var i :| 0 <= i < |d[1..]| && d[1..][i] == (k, Get(d[1..], k).value);
      assert d[i + 1] == d[1..][i];
    }
  }

  /** With unique keys, every entry is what `get` finds for its key. */
  lemma {:induction false} GetAt<K, V>(d: seq<(K, V)>, i: nat)
    requires UniqueKeys(d) && i < |d|
    ensures Get(d, d[i].0) == Some(d[i].1)
    decreases i
  {
    if i > 0 {
      assert Keys(d)[0] != Keys(d)[i];
      assert Keys(d[1..]) == Keys(d)[1..];
      assert d[1..][i - 1] == d[i];
      GetAt(d[1..], i - 1);
    }
  }

  /** `d[k] = v`. */
  function Store<K(==,!new), V>(d: seq<(K, V)>, k: K, v: V): (r: seq<(K, V)>)
    ensures Get(r, k) == Some(v)
    ensures forall k' :: k' != k ==> Get(r, k') == Get(d, k')
    ensures k in Keys(d) ==> Keys(r) == Keys(d)
    ensures k !in Keys(d) ==> r == d + [(k, v)] && Keys(r) == Keys(d) + [k]
    decreases |d|
  {
    if |d| == 0 then
      assert Keys([(k, v)]) == [k];
      [(k, v)]
    else if d[0].0 == k then
      assert Keys(d)[0] == k;
      assert Keys([(k, v)] + d[1..]) == Keys(d);
      [(k, v)] + d[1..]
    else
      var rest := Store(d[1..], k, v);
      assert Keys(d[1..]) == Keys(d)[1..];
      assert Keys(d)[0] == d[0].0;
      var r := [d[0]] + rest;
      assert Keys(r) == [d[0].0] + Keys(rest);
      if k in Keys(d[1..]) then
        assert Keys(r) == Keys(d);
        r
      else
        assert [d[0]] + (d[1..] + [(k, v)]) == d + [(k, v)];
        assert Keys(d + [(k, v)]) == Keys(d) + [k];
        r
  }

  /** Assignment keeps keys unique. */
  lemma StoreKeepsUnique<K(!new), V>(d: seq<(K, V)>, k: K, v: V)
    requires UniqueKeys(d)
    ensures UniqueKeys(Store(d, k, v))
  {
    var ks := Keys(d);
    if k !in ks {
      var ks' := Keys(Store(d, k, v));
      assert ks' == ks + [k];
      forall i, j | 0 <= i < j < |ks'| ensures ks'[i] != ks'[j] {
        if j == |ks| {
          assert ks'[i] == ks[i];
        } else {
          assert ks'[i] == ks[i] && ks'[j] == ks[j];
        }
      }
    }
  }

  /** The last index at which `k` occurs in `ks`. */
  function LastIndex<K(==,!new)>(ks: seq<K>, k: K): (i: nat)
    requires k in ks
    ensures i < |ks| && ks[i] == k
    ensures forall j :: i < j < |ks| ==> ks[j] != k
  {
    if ks[|ks| - 1] == k then |ks| - 1
    else
      assert k in ks[..|ks| - 1] by {
        var m :| 0 <= m < |ks| && ks[m] == k;
        assert ks[..|ks| - 1][m] == k;
      }
      LastIndex(ks[..|ks| - 1], k)
  }

  /** A key other than the last one occurs in the list exactly when it occurs
      before the end, and then at the same last index. */
  lemma LastIndexBeforeLast<K(!new)>(ks: seq<K>, k: K)
    requires |ks| > 0 && k != ks[|ks| - 1]
    ensures k in ks <==> k in ks[..|ks| - 1]
    ensures k in ks ==> LastIndex(ks, k) == LastIndex(ks[..|ks| - 1], k)
  {
    assert ks == ks[..|ks| - 1] + [ks[|ks| - 1]];
  }

  /** `{k: v for k, v in zip(ks, vs)}` or the equivalent assignment loop. */
  function FromPairs<K(==,!new), V>(ks: seq<K>, vs: seq<V>): seq<(K, V)>
    requires |ks| == |vs|
  {
    if |ks| == 0 then []
    else Store(FromPairs(ks[..|ks| - 1], vs[..|vs| - 1]), ks[|ks| - 1], vs[|vs| - 1])
  }

  /** Built from pairs, a dict has each distinct key once and exactly the keys given. */
  lemma {:induction false} FromPairsKeys<K(!new), V>(ks: seq<K>, vs: seq<V>)
    requires |ks| == |vs|
    ensures UniqueKeys(FromPairs(ks, vs))
    ensures forall k :: k in Keys(FromPairs(ks, vs)) <==> k in ks
    decreases |ks|
  {
    if |ks| > 0 {
      var n := |ks| - 1;
      FromPairsKeys(ks[..n], vs[..n]);
      StoreKeepsUnique(FromPairs(ks[..n], vs[..n]), ks[n], vs[n]);
      assert ks == ks[..n] + [ks[n]];
    }
  }

  /** Each key of a dict built from pairs holds the value paired with its LAST occurrence. */
  lemma {:induction false} FromPairsGet<K(!new), V>(ks: seq<K>, vs: seq<V>, k: K)
    requires |ks| == |vs|
    ensures k in ks ==> Get(FromPairs(ks, vs), k) == Some(vs[LastIndex(ks, k)])
    ensures k !in ks ==> Get(FromPairs(ks, vs), k) == None
    decreases |ks|
  {
    if |ks| > 0 {
      var n := |ks| - 1;
      var d' := FromPairs(ks[..n], vs[..n]);
      assert FromPairs(ks, vs) == Store(d', ks[n], vs[n]);
      if k == ks[n] {
        assert LastIndex(ks, k) == n;
      } else {
        FromPairsGet(ks[..n], vs[..n], k);
        assert Get(FromPairs(ks, vs), k) == Get(d', k);
        LastIndexBeforeLast(ks, k);
        if k in ks {
          assert vs[..n][LastIndex(ks, k)] == vs[LastIndex(ks, k)];
        }
      }
    }
  }

  /** With pairwise-distinct keys, the dict is the pairs themselves, in order. */
  lemma {:induction false} FromDistinctPairs<K(!new), V>(ks: seq<K>, vs: seq<V>)
    requires |ks| == |vs|
    requires forall i, j :: 0 <= i < j < |ks| ==> ks[i] != ks[j]
    ensures FromPairs(ks, vs) == seq(|ks|, i requires 0 <= i < |ks| => (ks[i], vs[i]))
    decreases |ks|
  {
    if |ks| > 0 {
      var n := |ks| - 1;
      var ks', vs' := ks[..n], vs[..n];
      LastKeyIsNew(ks);
      FromDistinctPairs(ks', vs');
      var d' := FromPairs(ks', vs');
      KeysOfPairs(ks', vs');
      assert FromPairs(ks, vs) == Store(d', ks[n], vs[n]);
      AppendPair(ks, vs);
    }
  }

  /** In a list without repetitions the last element does not occur before
      it, and the elements before it are without repetitions too. */
  lemma LastKeyIsNew<K>(ks: seq<K>)
    requires |ks| > 0
    requires forall i, j :: 0 <= i < j < |ks| ==> ks[i] != ks[j]
    ensures ks[|ks| - 1] !in ks[..|ks| - 1]
    ensures var p := ks[..|ks| - 1]; forall i, j :: 0 <= i < j < |p| ==> p[i] != p[j]
  {
    var n := |ks| - 1;
    forall i | 0 <= i < n ensures ks[..n][i] != ks[n] { assert ks[..n][i] == ks[i]; }
  }

  /** The keys of zipped pairs are the first list. */
  lemma KeysOfPairs<K, V>(ks: seq<K>, vs: seq<V>)
    requires |ks| == |vs|
    ensures Keys(seq(|ks|, i requires 0 <= i < |ks| => (ks[i], vs[i]))) == ks
  {
  }

  /** The zipped pairs of two lists are the zipped pairs of their prefixes plus the last pair. */
  lemma AppendPair<K, V>(ks: seq<K>, vs: seq<V>)
    requires |ks| == |vs| > 0
    ensures var n := |ks| - 1;
            seq(n, i requires 0 <= i < n => (ks[..n][i], vs[..n][i])) + [(ks[n], vs[n])]
              == seq(|ks|, i requires 0 <= i < |ks| => (ks[i], vs[i]))
  {
    var n := |ks| - 1;
    var r := seq(n, i requires 0 <= i < n => (ks[..n][i], vs[..n][i])) + [(ks[n], vs[n])];
    var target := seq(|ks|, i requires 0 <= i < |ks| => (ks[i], vs[i]));
    forall i | 0 <= i < |ks| ensures r[i] == target[i] {
      if i < n {
        assert ks[..n][i] == ks[i] && vs[..n][i] == vs[i];
      }
    }
  }

  /** Storing a list value grows the values' total length by at most that list's length. */
  lemma {:induction false} StoreSumLengths<K(!new), T>(d: seq<(K, seq<T>)>, k: K, v: seq<T>)
    ensures SumLengths(Values(Store(d, k, v))) <= SumLengths(Values(d)) + |v|
    decreases |d|
  {
    if |d| > 0 {
      assert Values(d)[1..] == Values(d[1..]);
      if d[0].0 == k {
        assert Values([(k, v)] + d[1..])[1..] == Values(d[1..]);
      } else {
        StoreSumLengths(d[1..], k, v);
        var r := Store(d, k, v);
        assert Values(r)[1..] == Values(Store(d[1..], k, v));
      }
    }
  }

  /** A dict built from pairs of lists holds at most as many elements as the lists together. */
  lemma {:induction false} FromPairsSumLengths<K(!new), T>(ks: seq<K>, vs: seq<seq<T>>)
    requires |ks| == |vs|
    ensures SumLengths(Values(FromPairs(ks, vs))) <= SumLengths(vs)
    decreases |ks|
  {
    if |ks| > 0 {
      var n := |ks| - 1;
      FromPairsSumLengths(ks[..n], vs[..n]);
      StoreSumLengths(FromPairs(ks[..n], vs[..n]), ks[n], vs[n]);
      assert vs == vs[..n] + [vs[n]];
      SumLengthsAppend(vs[..n], vs[n]);
    }
  }
}
