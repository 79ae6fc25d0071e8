/** Facts about slices and concatenation that the proofs name instead of rediscovering. */
module Seqs {

  lemma {:induction false} SlicePush<T>(s: seq<T>, a: nat, b: nat)
    requires a <= b < |s|
    ensures s[a..b + 1] == s[a..b] + [s[b]]
  {
  }

  lemma {:induction false} PrefixPush<T>(s: seq<T>, i: nat)
    requires i < |s|
    ensures s[..i + 1] == s[..i] + [s[i]]
  {
  }

  lemma {:induction false} WholePrefix<T>(s: seq<T>)
    ensures s[..|s|] == s
  {
  }

  lemma {:induction false} LastSplit<T>(s: seq<T>)
    requires s != []
    ensures s == s[..|s| - 1] + [s[|s| - 1]]
  {
  }

  lemma {:induction false} Associates<T>(a: seq<T>, b: seq<T>, c: seq<T>)
    ensures a + b + c == a + (b + c)
  {
  }

  lemma {:induction false} Unit<T>(a: seq<T>)
    ensures a + [] == a && [] + a == a
  {
  }
}
