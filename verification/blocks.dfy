/**
 * Grouping a list into consecutive blocks of a fixed size, the list
 * comprehension `[s[i:i + n] for i in range(0, len(s), n)]` used by the
 * chunker and by the text utilities.
 */
module Blocks {
  import opened PyStr

  function GroupBlocks<T>(s: seq<T>, n: nat): (r: seq<seq<T>>)
    requires n > 0
    ensures forall k :: 0 <= k < |r| ==> 1 <= |r[k]| <= n
    ensures forall k :: 0 <= k < |r| - 1 ==> |r[k]| == n
    decreases |s|
  {
    if |s| == 0 then []
    else if |s| <= n then [s]
    else [s[..n]] + GroupBlocks(s[n..], n)
  }

  /** The blocks, concatenated, are the input: nothing is lost, duplicated or reordered. */
  lemma {:induction false} GroupBlocksFlatten<T>(s: seq<T>, n: nat)
    requires n > 0
    ensures Flatten(GroupBlocks(s, n)) == s
    decreases |s|
  {
    if 0 < |s| <= n {
      assert Flatten([s]) == s + Flatten([]);
    } else if |s| > n {
      var rest := GroupBlocks(s[n..], n);
      GroupBlocksFlatten(s[n..], n);
      assert Flatten([s[..n]] + rest) == s[..n] + Flatten(rest);
      assert s[..n] + s[n..] == s;
    }
  }

  /** `k * n`, written so that it unfolds one block at a time. */
  function Offset(k: nat, n: nat): (r: nat)
  {
    if k == 0 then 0 else Offset(k - 1, n) + n
  }

  lemma {:induction false} OffsetIsProduct(k: nat, n: nat)
    ensures Offset(k, n) == k * n
  {
    if k > 0 {
      OffsetIsProduct(k - 1, n);
      MulStep(k, n);
    }
  }

  lemma MulStep(k: nat, n: nat)
    requires k >= 1
    ensures k * n == (k - 1) * n + n
  {
  }

  lemma GroupBlocksSplit<T>(s: seq<T>, n: nat)
    requires n > 0 && |s| > n
    ensures GroupBlocks(s, n) == [s[..n]] + GroupBlocks(s[n..], n)
  {
  }

  lemma DropSlice<T>(s: seq<T>, n: nat, a: nat, b: nat)
    requires n <= |s| && a <= b <= |s| - n
    ensures s[n..][a..b] == s[a + n..b + n]
  {
    assert forall i :: 0 <= i < b - a ==> s[n..][a..b][i] == s[a + n + i];
  }

  /** Where block `k` ends: `k * n + n`, cut at the end of the input. */
  function BlockEnd(k: nat, n: nat, len: nat): nat
  {
    if Offset(k, n) + n <= len then Offset(k, n) + n else len
  }

  lemma {:induction false} GroupBlockAt<T>(s: seq<T>, n: nat, k: nat)
    requires n > 0
    requires k < |GroupBlocks(s, n)|
    ensures Offset(k, n) < BlockEnd(k, n, |s|) <= |s|
    ensures GroupBlocks(s, n)[k] == s[Offset(k, n)..BlockEnd(k, n, |s|)]
    decreases |s|
  {
    if |s| <= n {
      assert GroupBlocks(s, n) == [s];
    } else {
      GroupBlocksSplit(s, n);
      if k > 0 {
        var t := s[n..];
        GroupBlockAt(t, n, k - 1);
        var a := Offset(k - 1, n);
        assert Offset(k, n) == a + n;
        assert BlockEnd(k, n, |s|) == BlockEnd(k - 1, n, |t|) + n;
        DropSlice(s, n, a, BlockEnd(k - 1, n, |t|));
      }
    }
  }

  /** Block `k` is the Python slice `s[k*n : k*n + n]`. */
  lemma GroupBlocksAreSlices<T>(s: seq<T>, n: nat, k: nat)
    requires n > 0
    requires k < |GroupBlocks(s, n)|
    ensures k * n < |s|
    ensures GroupBlocks(s, n)[k] == PySlice(s, k * n, k * n + n)
  {
    GroupBlockAt(s, n, k);
    OffsetIsProduct(k, n);
    var o := Offset(k, n);
    assert SliceIndex(o, |s|) == o;
    assert SliceIndex(o + n, |s|) == BlockEnd(k, n, |s|);
  }
}
