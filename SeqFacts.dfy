/** Small facts about sequences, stated once so that larger proofs can cite them instead of
    asking the solver to rediscover them. */
module SeqFacts {
  lemma AppendAssoc<T>(x: seq<T>, y: seq<T>, z: seq<T>)
    ensures x + (y + z) == (x + y) + z
  {
  }

  lemma AppendEmpty<T>(x: seq<T>)
    ensures x + [] == x && [] + x == x
  {
  }

  /** Dropping `i` elements and then `j` more drops `i + j`. */
  lemma DropDrop<T>(s: seq<T>, i: nat, j: nat)
    requires i + j <= |s|
    ensures s[i..][j..] == s[i + j..]
  {
  }

  /** The first `i + 1` elements are the first `i` and then element `i`. */
  lemma TakeOneMore<T>(s: seq<T>, i: nat)
    requires i < |s|
    ensures s[..i + 1] == s[..i] + [s[i]]
  {
  }

  /** The first element and the rest make up the whole. */
  lemma ConsRest<T>(s: seq<T>)
    requires s != []
    ensures s == [s[0]] + s[1..]
  {
  }

  /** Dropping the length of a prefix leaves what followed it. */
  lemma DropPrefix<T>(x: seq<T>, y: seq<T>)
    ensures (x + y)[|x|..] == y && (x + y)[..|x|] == x
  {
  }

  /** `sub` is `s` with some elements left out and the others kept in their order. */
  predicate Subsequence<T(==)>(sub: seq<T>, s: seq<T>)
    decreases |s|
  {
    sub == [] || (s != [] && ((sub[0] == s[0] && Subsequence(sub[1..], s[1..])) || Subsequence(sub, s[1..])))
  }
}
