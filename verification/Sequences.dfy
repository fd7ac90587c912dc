/** Bounded tails of sequences, used by the policy revisions and the log buffer alike. */
module Sequences {
  /** The last n elements, or all of them if there are fewer. */
  function Last<T>(s: seq<T>, n: nat): seq<T> {
    if |s| <= n then s else s[|s| - n..]
  }

  /** It is the end of s, as long as s has that many. */
  lemma LastIsSuffix<T>(s: seq<T>, n: nat)
    ensures Last(s, n) == s[|s| - |Last(s, n)|..] && |Last(s, n)| == if |s| < n then |s| else n
  {
  }

  /** Trimming early loses nothing that a later trim would keep. */
  lemma LastOfConcat<T>(a: seq<T>, b: seq<T>, n: nat)
    ensures Last(Last(a, n) + b, n) == Last(a + b, n)
  {
  }

  /** s with every occurrence of x left out. */
  function Without<T(==)>(s: seq<T>, x: T): seq<T> {
    if s == [] then [] else (if s[0] == x then [] else [s[0]]) + Without(s[1..], x)
  }
}
