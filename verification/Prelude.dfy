/** Names every module shares: optional values, bytes, the 64-bit limit, and the
    equalities between slices that the proofs keep using. */
module Prelude {

  datatype Option<+T> = None | Some(value: T)

  type Byte = b: int | 0 <= b < 256
  type Bytes = seq<Byte>

  const U64_MAX: nat := 0xFFFF_FFFF_FFFF_FFFF

  lemma Reassociate<T>(a: seq<T>, b: seq<T>, c: seq<T>)
    ensures a + b + c == a + (b + c)
  {
  }

  lemma SliceBlock<T>(s: seq<T>, i: nat, j: nat)
    requires i < j <= |s|
    ensures s[i..] == [s[i]] + (s[i + 1..j] + s[j..])
    ensures s[..j] == s[..i] + ([s[i]] + s[i + 1..j])
  {
  }

  lemma SliceReplaced<T>(s: seq<T>, i: nat, j: nat, mid: seq<T>)
    requires i < j <= |s|
    ensures var t := s[..i + 1] + mid + s[j..];
            t[i..] == [s[i]] + (mid + s[j..]) && t[..i] == s[..i]
  {
  }

  lemma SliceHead<T>(s: seq<T>, k: nat)
    requires s != [] && k <= |s[1..]|
    ensures s == [s[0]] + s[1..][..k] + s[1..][k..]
    ensures s == [s[0]] + (s[1..][..k] + s[1..][k..])
  {
  }

  lemma SliceTwo<T>(s: seq<T>, i: nat, j: nat)
    requires i <= j <= |s|
    ensures s[i..] == s[i..j] + s[j..]
    ensures s == s[..i] + s[i..]
  {
  }

  /** The last `k` elements of a tail are the last `k` of the whole. */
  lemma SuffixOfTail<T>(s: seq<T>, t: nat, k: nat)
    requires t + k <= |s|
    ensures s[t..][|s| - t - k..] == s[|s| - k..]
  {
  }

  lemma SliceMiddle<T>(a: seq<T>, b: seq<T>, c: seq<T>, i: nat, n: nat)
    requires i + n <= |b|
    ensures (a + (b + c))[|a| + i..|a| + i + n] == b[i..i + n]
  {
  }

  lemma Regroup<T>(a: seq<T>, b: seq<T>, c: seq<T>, d: seq<T>)
    ensures a + (b + (c + d)) == (a + (b + c)) + d
  {
  }
}
