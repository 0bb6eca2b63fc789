/** Python list slicing and the flattening of nested lists that `asyncio.gather`
    over a list of per-language task lists amounts to. */
module PySeq {

  /** `s[:stop]`: a negative `stop` counts from the end; an overlong one is clamped. */
  function SlicePrefix<T>(s: seq<T>, stop: int): (r: seq<T>)
    ensures |r| <= |s|
    ensures 0 <= stop ==> |r| == if stop < |s| then stop else |s|
    ensures stop < 0 ==> |r| == if |s| + stop > 0 then |s| + stop else 0
    ensures r == s[..|r|]
  {
    if stop >= 0 then
      (if stop < |s| then s[..stop] else s)
    else
      (if |s| + stop > 0 then s[..|s| + stop] else [])
  }

  function SumLengths<T>(xss: seq<seq<T>>): nat {
    if |xss| == 0 then 0 else |xss[0]| + SumLengths(xss[1..])
  }

  /** Concatenation of all inner lists, in order. */
  function Flatten<T>(xss: seq<seq<T>>): (r: seq<T>)
    ensures |r| == SumLengths(xss)
  {
    if |xss| == 0 then [] else xss[0] + Flatten(xss[1..])
  }

  /** Position in the flattened list at which inner list `i` begins. */
  function Offset<T>(xss: seq<seq<T>>, i: nat): nat
    requires i <= |xss|
  {
    if i == 0 then 0 else |xss[0]| + Offset(xss[1..], i - 1)
  }

  /** Inner list `i` occupies positions `Offset(i) .. Offset(i) + |xss[i]|` of the flattened list. */
  lemma {:induction false} FlattenIndex<T>(xss: seq<seq<T>>, i: nat, j: nat)
    requires i < |xss| && j < |xss[i]|
    ensures Offset(xss, i) + j < |Flatten(xss)|
    ensures Flatten(xss)[Offset(xss, i) + j] == xss[i][j]
    decreases i
  {
    if i > 0 {
      FlattenIndex(xss[1..], i - 1, j);
    }
  }

  /** Inner list `i` ends within the flattened list. */
  lemma {:induction false} OffsetBound<T>(xss: seq<seq<T>>, i: nat)
    requires i < |xss|
    ensures Offset(xss, i) + |xss[i]| <= SumLengths(xss)
    decreases i
  {
    if i > 0 {
      OffsetBound(xss[1..], i - 1);
    }
  }

  /** Offsets depend only on the inner lists' lengths. */
  lemma {:induction false} OffsetByLengths<T, U>(xss: seq<seq<T>>, yss: seq<seq<U>>, i: nat)
    requires |xss| == |yss| && i <= |xss|
    requires forall k :: 0 <= k < |xss| ==> |xss[k]| == |yss[k]|
    ensures Offset(xss, i) == Offset(yss, i)
    decreases i
  {
    if i > 0 {
      assert |xss[0]| == |yss[0]|;
      OffsetByLengths(xss[1..], yss[1..], i - 1);
    }
  }

  /** Lists of the same shape as `yss` flattened: position `Offset(yss, i) + j`
      holds element `j` of list `i`. */
  lemma FlattenIndexShaped<T, U>(xss: seq<seq<T>>, yss: seq<seq<U>>, i: nat, j: nat)
    requires |xss| == |yss|
    requires forall k :: 0 <= k < |xss| ==> |xss[k]| == |yss[k]|
    requires i < |xss| && j < |xss[i]|
    ensures Offset(yss, i) + j < |Flatten(xss)|
    ensures Flatten(xss)[Offset(yss, i) + j] == xss[i][j]
  {
    OffsetByLengths(xss, yss, i);
    FlattenIndex(xss, i, j);
  }

  /** If the flattened lists are a prefix of `ys`, element `j` of list `i`
      sits at position `Offset(i) + j` of `ys`. */
  lemma FlattenPrefixAt<T, U>(xss: seq<seq<T>>, yss: seq<seq<U>>, ys: seq<T>, i: nat, j: nat)
    requires |xss| == |yss|
    requires forall k :: 0 <= k < |xss| ==> |xss[k]| == |yss[k]|
    requires SumLengths(yss) <= |ys| && Flatten(xss) == ys[..SumLengths(yss)]
    requires i < |xss| && j < |xss[i]|
    ensures Offset(yss, i) + j < |ys|
    ensures ys[Offset(yss, i) + j] == xss[i][j]
  {
    FlattenIndexShaped(xss, yss, i, j);
    assert ys[..SumLengths(yss)][Offset(yss, i) + j] == ys[Offset(yss, i) + j];
  }

  lemma {:induction false} SumLengthsAppend<T>(xss: seq<seq<T>>, ys: seq<T>)
    ensures SumLengths(xss + [ys]) == SumLengths(xss) + |ys|
    decreases |xss|
  {
    if |xss| > 0 {
      assert (xss + [ys])[1..] == xss[1..] + [ys];
      SumLengthsAppend(xss[1..], ys);
    }
  }
}
