/** Bytes, and slices of sequences. */
module ByteStrings {

  newtype Byte = x: int | 0 <= x < 256

  /** What the drivers return, negated, when copying from or to the user fails. */
  const EFAULT := 14

  function Min(x: nat, y: nat): nat {
    if x < y then x else y
  }

  lemma Slices<T>(s: seq<T>, a: nat, b: nat, c: nat)
    requires a <= b <= c <= |s|
    ensures s[a..b] + s[b..c] == s[a..c]
  {
  }

  lemma SliceOfTail<T>(s: seq<T>, k: nat, a: nat, b: nat)
    requires k + a <= k + b <= |s|
    ensures s[k..][a..b] == s[k + a..k + b]
  {
  }

  lemma Associates<T>(a: seq<T>, b: seq<T>, c: seq<T>)
    ensures a + (b + c) == a + b + c
  {
  }

  lemma SliceAfterPrefix<T>(s: seq<T>, p: seq<T>, b: seq<T>, n: nat)
    requires |p| + |b| <= |s| && s[..|p| + |b|] == p + b && n <= |b|
    ensures s[|p|..|p| + n] == b[..n]
  {
    forall k | 0 <= k < n ensures s[|p| + k] == b[k] {
      assert s[|p| + k] == (p + b)[|p| + k];
    }
  }
}
