/** Facts about sequences used by the result mapping and the dispatcher. */
module Seqs {

  /** No element occurs twice. */
  ghost predicate Distinct<T>(s: seq<T>) {
    forall i, j :: 0 <= i < j < |s| ==> s[i] != s[j]
  }

  /** Index of the first occurrence of `x` in `s`. */
  function FirstIndex<T(==)>(s: seq<T>, x: T): (i: nat)
    requires x in s
    ensures i < |s| && s[i] == x && x !in s[..i]
  {
    if s[0] == x then 0
    else
      var k := FirstIndex(s[1..], x);
      assert s[..k + 1] == [s[0]] + s[1..][..k];
      1 + k
  }

  /** Index of the last occurrence of `x` in `s`. */
  function LastIndex<T(==)>(s: seq<T>, x: T): (i: nat)
    requires x in s
    ensures i < |s| && s[i] == x && x !in s[i + 1..]
  {
    if s[|s| - 1] == x then |s| - 1
    else
      var k := LastIndex(s[..|s| - 1], x);
      assert s[k + 1..] == s[..|s| - 1][k + 1..] + [s[|s| - 1]];
      k
  }

  /** An element that is already present keeps its first index when more is appended. */
  lemma FirstIndexAppend<T>(s: seq<T>, t: seq<T>, x: T)
    requires x in s
    ensures x in s + t && FirstIndex(s + t, x) == FirstIndex(s, x)
  {
    var i := FirstIndex(s, x);
    assert (s + t)[..i] == s[..i];
    FirstIndexUnique(s + t, x, i);
  }

  /** The first index is the only index of `x` with no `x` before it. */
  lemma FirstIndexUnique<T>(s: seq<T>, x: T, k: nat)
    requires k < |s| && s[k] == x && x !in s[..k]
    ensures FirstIndex(s, x) == k
  {
  }

  /** Appending `y` makes `y`'s last index the new end and leaves every other last index alone. */
  lemma LastIndexSnoc<T>(s: seq<T>, y: T, x: T)
    requires x in s + [y]
    ensures LastIndex(s + [y], x) == if x == y then |s| else LastIndex(s, x)
  {
    var t := s + [y];
    assert t[..|t| - 1] == s;
  }

  /** Appending a new element keeps a sequence distinct. */
  lemma DistinctSnoc<T>(s: seq<T>, x: T)
    requires Distinct(s) && x !in s
    ensures Distinct(s + [x])
  {
  }

  /** In a sequence without repeats every element occurs exactly once. */
  lemma {:induction false} DistinctOnce<T>(s: seq<T>, x: T)
    requires Distinct(s)
    requires x in s
    ensures multiset(s)[x] == 1
  {
    if s[0] == x {
      assert x !in s[1..];
      assert s == [s[0]] + s[1..];
    } else {
      assert s == [s[0]] + s[1..];
      DistinctOnce(s[1..], x);
    }
  }

  /** `ks` lists elements of `s`, ordered by where each first occurs in `s`. */
  ghost predicate InFirstSeenOrder<T>(ks: seq<T>, s: seq<T>) {
    && (forall i :: 0 <= i < |ks| ==> ks[i] in s)
    && (forall i, j :: 0 <= i < j < |ks| ==> FirstIndex(s, ks[i]) < FirstIndex(s, ks[j]))
  }

  /** Appending to `s` does not disturb a first-seen order. */
  lemma FirstSeenExtend<T>(ks: seq<T>, s: seq<T>, t: seq<T>)
    requires InFirstSeenOrder(ks, s)
    ensures InFirstSeenOrder(ks, s + t)
  {
    forall i | 0 <= i < |ks|
      ensures FirstIndex(s + t, ks[i]) == FirstIndex(s, ks[i])
    {
      FirstIndexAppend(s, t, ks[i]);
    }
  }

  /** An element seen for the first time goes after all earlier ones. */
  lemma FirstSeenAddNew<T>(ks: seq<T>, s: seq<T>, u: T)
    requires InFirstSeenOrder(ks, s)
    requires u !in s
    ensures InFirstSeenOrder(ks + [u], s + [u])
  {
    FirstSeenExtend(ks, s, [u]);
    FirstIndexUnique(s + [u], u, |s|);
    forall i | 0 <= i < |ks|
      ensures FirstIndex(s + [u], ks[i]) < |s|
    {
    }
  }
}
