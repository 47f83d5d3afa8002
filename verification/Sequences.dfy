/** Regrouping of concatenations, apart from what is concatenated. */
module Sequences {

  lemma {:induction false} Assoc<T>(x: seq<T>, y: seq<T>, z: seq<T>)
    ensures (x + y) + z == x + (y + z)
  {
  }

  lemma {:induction false} Assoc4<T>(w: seq<T>, x: seq<T>, y: seq<T>, z: seq<T>)
    ensures w + x + y + z == w + (x + (y + z))
  {
  }

  lemma {:induction false} NothingAdded<T>(x: seq<T>)
    ensures x + [] == x && [] + x == x
  {
  }

  /** A part of one of two joined sequences. */
  lemma {:induction false} SliceOfFront<T>(x: seq<T>, y: seq<T>, i: nat, j: nat)
    requires i <= j <= |x|
    ensures (x + y)[i..j] == x[i..j]
  {
  }

  lemma {:induction false} SliceOfBack<T>(x: seq<T>, y: seq<T>, i: nat, j: nat)
    requires |x| <= i <= j <= |x| + |y|
    ensures (x + y)[i..j] == y[i - |x|..j - |x|]
  {
  }

  lemma {:induction false} PartsOfSlice<T>(s: seq<T>, i: nat, j: nat, k: nat)
    requires i <= j <= |s| && k <= j - i
    ensures s[i..j][..k] == s[i..i + k] && s[i..j][k..] == s[i + k..j]
  {
  }

  predicate IsSuffix<T(==)>(x: seq<T>, s: seq<T>) {
    |x| <= |s| && x == s[|s| - |x|..]
  }

  lemma {:induction false} SuffixOfRest<T>(x: seq<T>, s: seq<T>)
    requires s != [] && IsSuffix(x, s[1..])
    ensures IsSuffix(x, s)
    ensures s[..|s| - |x|] == [s[0]] + s[1..][..|s| - 1 - |x|]
  {
  }

  lemma {:induction false} SuffixAndLast<T>(x: seq<T>, s: seq<T>)
    requires s != [] && IsSuffix(x, s[..|s| - 1])
    ensures IsSuffix(x + [s[|s| - 1]], s)
  {
  }

  lemma {:induction false} AtSlice<T>(s: seq<T>, i: nat, j: nat, k: nat)
    requires i <= j <= |s| && k < j - i
    ensures s[i..j][k] == s[i + k]
  {
  }
}
