/** Facts about concatenation and slices that proofs about byte streams use over and over. */
module Sequences {
  lemma Regroup<T>(a: seq<T>, b: seq<T>, c: seq<T>)
    ensures a + (b + c) == (a + b) + c
  {
  }

  lemma Parts<T>(a: seq<T>, b: seq<T>)
    ensures (a + b)[..|a|] == a && (a + b)[|a|..] == b
  {
  }

  lemma SliceOfFirst<T>(a: seq<T>, b: seq<T>, m: nat, n: nat)
    requires m <= n <= |a|
    ensures (a + b)[m..n] == a[m..n]
  {
  }

  lemma SliceTwice<T>(s: seq<T>, m: nat, n: nat)
    requires m + n <= |s|
    ensures s[m..][..n] == s[m..m + n] && s[m..][n..] == s[m + n..]
  {
  }

  lemma PrefixGrows<T>(s: seq<T>, m: nat, n: nat)
    requires m + n <= |s|
    ensures s[..m + n] == s[..m] + s[m..m + n]
  {
  }

  lemma PrefixAndRest<T>(a: seq<T>, s: seq<T>)
    requires a <= s
    ensures s == a + s[|a|..]
  {
  }

  lemma FirstAndRest<T>(s: seq<T>)
    requires |s| > 0
    ensures s == [s[0]] + s[1..]
  {
  }

  lemma FirstOfSum<T>(a: seq<T>, b: seq<T>)
    requires |a| > 0
    ensures a + b == [a[0]] + (a[1..] + b)
  {
  }

  lemma SameFirstAndRest<T>(a: seq<T>, b: seq<T>)
    requires |a| > 0 && |b| > 0 && a[0] == b[0] && a[1..] == b[1..]
    ensures a == b
  {
    FirstAndRest(a);
    FirstAndRest(b);
  }

  lemma DropsRest<T>(first: T, rest: seq<T>)
    ensures ([first] + rest)[1..] == rest
  {
  }
}
