/** Slices of slices. */
module Sequences {
  lemma DropDrop<T>(t: seq<T>, a: nat, b: nat)
    requires a + b <= |t|
    ensures t[a..][b..] == t[a + b..]
  {
  }

  lemma TakeOfDrop<T>(t: seq<T>, a: nat, b: nat)
    requires a <= b <= |t|
    ensures t[a..][..b - a] == t[a..b]
  {
  }

  lemma DropOfTake<T>(t: seq<T>, a: nat, b: nat)
    requires a <= b <= |t|
    ensures t[..b][a..] == t[a..b]
  {
  }

  lemma TakeOfSlice<T>(t: seq<T>, a: nat, b: nat, n: nat)
    requires a + n <= b <= |t|
    ensures t[a..b][..n] == t[a..a + n]
  {
  }

  lemma SlicesJoin<T>(t: seq<T>, a: nat, b: nat, c: nat)
    requires a <= b <= c <= |t|
    ensures t[a..b] + t[b..c] == t[a..c]
  {
  }
}
