/** Facts about concatenation that proofs by recursion over sequences use. */
module Sequences {

  lemma Assoc<T>(a: seq<T>, b: seq<T>, c: seq<T>)
    ensures a + (b + c) == a + b + c
  {
  }

  lemma Uncons<T>(a: seq<T>, b: seq<T>)
    requires a != []
    ensures (a + b)[0] == a[0] && (a + b)[1..] == a[1..] + b
  {
  }

  lemma Suffix<T>(s: seq<T>, i: nat)
    requires i < |s|
    ensures s[i..] != [] && s[i..][0] == s[i] && s[i..][1..] == s[i + 1..]
  {
  }

  lemma Snoc<T>(s: seq<T>)
    requires s != []
    ensures s == s[..|s| - 1] + [s[|s| - 1]]
  {
  }

  /** Positions below n, each once, in rising order. */
  predicate Rising(at: seq<nat>, n: nat) {
    forall j :: 0 <= j < |at| ==> at[j] < n && (j > 0 ==> at[j - 1] < at[j])
  }

  lemma Empty<T>(a: seq<T>)
    ensures a + [] == a == [] + a
  {
  }
}
