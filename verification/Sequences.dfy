/** Facts about concatenation that inductive proofs over sequences need by name. */
module Sequences {
  lemma ConcatAssociative<T>(a: seq<T>, b: seq<T>, c: seq<T>)
    ensures (a + b) + c == a + (b + c)
  {
  }

  lemma ConcatHead<T>(a: seq<T>, b: seq<T>)
    requires a != []
    ensures (a + b)[0] == a[0] && (a + b)[1..] == a[1..] + b
  {
  }

  lemma CutAt<T>(s: seq<T>, n: nat)
    requires 0 < n <= |s|
    ensures s == s[..n] + s[n..] && s[..n] != [] && s[..n][n - 1] == s[n - 1]
  {
  }
}
