/** Slices and concatenations of sequences. */
module Seqs {

  lemma Assoc<T>(a: seq<T>, b: seq<T>, c: seq<T>)
    ensures a + b + c == a + (b + c)
  {}

  lemma NothingBehind<T>(a: seq<T>)
    ensures a + [] == a && [] + a == a
  {}

  lemma Halves<T>(a: seq<T>, b: seq<T>)
    ensures (a + b)[..|a|] == a && (a + b)[|a|..] == b
  {}

  lemma Slices<T>(s: seq<T>, i: nat, j: nat, k: nat)
    requires i <= j <= k <= |s|
    ensures s[i..k] == s[i..j] + s[j..k]
  {}

  lemma ThreeParts<T>(s: seq<T>, i: nat, j: nat)
    requires i <= j <= |s|
    ensures s == s[..i] + (s[i..j] + s[j..])
  {
    assert s[i..] == s[i..j] + s[j..];
  }

  lemma Middle<T>(a: seq<T>, b: seq<T>, c: seq<T>)
    ensures (a + (b + c))[|a|..|a| + |b|] == b
  {}

  lemma SplitTriple<T>(a: seq<T>, b: seq<T>, c: seq<T>)
    ensures (a + b + c)[..|a|] == a && (a + b + c)[|a|..] == b + c && (a + b + c)[|a| + |b|..] == c
  {}

  /** A slice of a slice. */
  lemma Inner<T>(s: seq<T>, i: nat, j: nat, m: nat, n: nat)
    requires i <= j <= |s| && m <= n <= j - i
    ensures s[i..j][m..n] == s[i + m..i + n]
  {
    var x, y := s[i..j][m..n], s[i + m..i + n];
    forall k | 0 <= k < n - m ensures x[k] == y[k] {
      assert x[k] == s[i..j][m + k] == s[i + (m + k)];
    }
    assert x == y;
  }

  /** A slice of a prefix. */
  lemma InPrefix<T>(m: seq<T>, d: seq<T>, i: nat, j: nat)
    requires |d| <= |m| && m[..|d|] == d && i <= j <= |d|
    ensures m[i..j] == d[i..j]
  {
    assert forall k | 0 <= k < j - i :: m[i..j][k] == m[..|d|][i + k];
  }
}
