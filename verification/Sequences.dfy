/** Equations between slices and concatenations, stated once so that proofs can cite them, and the least and
greatest element of a sequence. */
module Sequences {
  lemma Assoc<T>(a: seq<T>, b: seq<T>, c: seq<T>)
    ensures (a + b) + c == a + (b + c)
  {}

  lemma HeadTail<T>(s: seq<T>)
    ensures s != [] ==> s == [s[0]] + s[1..]
  {}

  lemma ConsParts<T>(x: T, s: seq<T>)
    ensures ([x] + s)[0] == x && ([x] + s)[1..] == s
  {}

  lemma DropDrop<T>(s: seq<T>, i: nat, j: nat)
    ensures i + j <= |s| ==> s[i..][j..] == s[i + j..]
  {}

  lemma TakeSplit<T>(s: seq<T>, i: nat, j: nat)
    ensures i + j <= |s| ==> s[..i + j] == s[..i] + s[i..][..j]
  {}

  lemma TakeDrop<T>(s: seq<T>, i: nat)
    ensures i <= |s| ==> s == s[..i] + s[i..]
  {}

  /** The tail of a prefix is a prefix of the tail. */
  lemma TailOfTake<T>(s: seq<T>, k: nat)
    ensures 0 < k <= |s| ==> s[..k][0] == s[0] && s[..k][1..] == s[1..][..k - 1]
  {}

  lemma TailOfConcat<T>(s: seq<T>, t: seq<T>)
    ensures s != [] ==> (s + t)[0] == s[0] && (s + t)[1..] == s[1..] + t
  {}

  lemma ConcatParts<T>(a: seq<T>, b: seq<T>)
    ensures (a + b)[..|a|] == a && (a + b)[|a|..] == b
  {}

  lemma DropConcat<T>(a: seq<T>, b: seq<T>, j: nat)
    ensures j <= |a| ==> (a + b)[j..] == a[j..] + b && (a + b)[..j] == a[..j]
  {}

  lemma SliceCons<T>(s: seq<T>, i: nat, j: nat)
    ensures i < j <= |s| ==> s[i..j] == [s[i]] + s[i + 1..j]
  {}

  lemma SliceSplit<T>(s: seq<T>, i: nat, j: nat, k: nat)
    ensures i <= j <= k <= |s| ==> s[i..k] == s[i..j] + s[j..k]
  {}

  lemma SliceOfTail<T>(s: seq<T>, i: nat, n: nat)
    ensures i + n <= |s| ==> s[i..][..n] == s[i..i + n]
  {}

  lemma ConsDrop<T>(x: T, s: seq<T>, n: nat)
    ensures n <= |s| ==> ([x] + s)[n + 1..] == s[n..]
  {}

  lemma SliceJoin<T>(s: seq<T>, i: nat, j: nat)
    ensures i <= j <= |s| ==> s[i..] == s[i..j] + s[j..]
  {}

  lemma TakeSnoc<T>(s: seq<T>, k: nat)
    ensures k < |s| ==> s[..k + 1] == s[..k] + [s[k]]
  {}

  lemma FirstOnly<T>(s: seq<T>)
    ensures s != [] ==> s[..0] == [] && s[..1] == [s[0]] && [s[0]][1..] == []
  {}

  function MinOf(s: seq<real>): (m: real)
    requires s != []
    ensures m in s && forall x :: x in s ==> m <= x
  {
    if |s| == 1 then s[0]
    else var rest := MinOf(s[1..]);
         assert forall x :: x in s ==> x == s[0] || x in s[1..];
         if s[0] <= rest then s[0] else rest
  }

  function MaxOf(s: seq<real>): (m: real)
    requires s != []
    ensures m in s && forall x :: x in s ==> x <= m
  {
    if |s| == 1 then s[0]
    else var rest := MaxOf(s[1..]);
         assert forall x :: x in s ==> x == s[0] || x in s[1..];
         if s[0] >= rest then s[0] else rest
  }
}
