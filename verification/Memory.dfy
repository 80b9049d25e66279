/** Bytes in place: copying into an array, stated as an overwrite of its contents. */
module Memory {
  import opened Words

  function Overwrite(s: seq<byte>, at: nat, b: seq<byte>): (r: seq<byte>)
    requires at + |b| <= |s|
    ensures |r| == |s|
  {
    s[..at] + b + s[at + |b|..]
  }

  /** Bytes outside the overwritten range stay, bytes inside are the new ones. */
  lemma OverwriteSlice(s: seq<byte>, at: nat, b: seq<byte>, i: nat, j: nat)
    requires at + |b| <= |s| && i <= j <= |s|
    ensures j <= at || at + |b| <= i ==> Overwrite(s, at, b)[i..j] == s[i..j]
    ensures at <= i && j <= at + |b| ==> Overwrite(s, at, b)[i..j] == b[i - at..j - at]
  {
    var r := Overwrite(s, at, b);
    assert forall k :: 0 <= k < |s| ==> r[k] == if at <= k < at + |b| then b[k - at] else s[k];
    if j <= at || at + |b| <= i {
      assert r[i..j] == s[i..j];
    } else if at <= i && j <= at + |b| {
      assert r[i..j] == b[i - at..j - at];
    }
  }

  /** Slices of slices, adjacent slices, and slices of equal prefixes. */
  lemma SubSlice(s: seq<byte>, lo: nat, hi: nat, i: nat, j: nat)
    requires lo <= hi <= |s| && i <= j <= hi - lo
    ensures s[lo..hi][i..j] == s[lo + i..lo + j]
  {
    var a, b := s[lo..hi][i..j], s[lo + i..lo + j];
    assert forall k :: 0 <= k < |a| ==> a[k] == b[k];
  }

  lemma AdjacentSlices(a: seq<byte>, i: nat, j: nat, k: nat)
    requires i <= j <= k <= |a|
    ensures a[i..j] + a[j..k] == a[i..k]
  {
  }

  lemma SameFront(a: seq<byte>, b: seq<byte>, i: nat, j: nat)
    requires i <= j <= |a| && j <= |b| && a[..j] == b[..j]
    ensures a[i..j] == b[i..j]
  {
  }

  /** memmove within one array. */
  method MemMove(a: array<byte>, dst: nat, src: nat, n: nat)
    requires dst + n <= a.Length && src + n <= a.Length
    modifies a
    ensures a[..] == Overwrite(old(a[..]), dst, old(a[..])[src..src + n])
  {
    forall i | 0 <= i < n {
      a[dst + i] := a[src + i];
    }
  }

  /** memcpy of bytes held elsewhere. */
  method CopyIn(a: array<byte>, dst: nat, b: seq<byte>)
    requires dst + |b| <= a.Length
    modifies a
    ensures a[..] == Overwrite(old(a[..]), dst, b)
  {
    forall i | 0 <= i < |b| {
      a[dst + i] := b[i];
    }
  }
}
