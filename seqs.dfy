/** The array combinators the application relies on (`map`, `filter`, `some`,
    `findIndex`), each defined once with a pointwise contract. */
module Seqs {

  /** `r` is `s` with some elements left out, the rest kept in their order. */
  ghost predicate IsSubsequence<T>(r: seq<T>, s: seq<T>)
    decreases |s|
  {
    r == [] ||
    (s != [] &&
     ((r[0] == s[0] && IsSubsequence(r[1..], s[1..])) || IsSubsequence(r, s[1..])))
  }

  /** `Array.prototype.map`. */
  function Map<T, U>(f: T -> U, s: seq<T>): (r: seq<U>)
    ensures |r| == |s|
    ensures forall i :: 0 <= i < |s| ==> r[i] == f(s[i])
  {
    if s == [] then [] else [f(s[0])] + Map(f, s[1..])
  }

  /** `Array.prototype.filter`: exactly the elements that pass, in their order. */
  function Filter<T>(p: T -> bool, s: seq<T>): (r: seq<T>)
    ensures |r| <= |s|
    ensures forall i :: 0 <= i < |r| ==> p(r[i])
    ensures IsSubsequence(r, s)
  {
    if s == [] then []
    else if p(s[0]) then [s[0]] + Filter(p, s[1..])
    else Filter(p, s[1..])
  }

  /** `Array.prototype.some`. */
  predicate Any<T>(p: T -> bool, s: seq<T>)
  {
    exists i :: 0 <= i < |s| && p(s[i])
  }

  /** `Array.prototype.findIndex`: the first index whose element passes, or -1. */
  function FindIndex<T>(p: T -> bool, s: seq<T>): (k: int)
    ensures -1 <= k < |s|
    ensures k == -1 <==> forall i :: 0 <= i < |s| ==> !p(s[i])
    ensures 0 <= k ==> p(s[k]) && forall i :: 0 <= i < k ==> !p(s[i])
  {
    if s == [] then -1
    else if p(s[0]) then 0
    else
      var k := FindIndex(p, s[1..]);
      if k == -1 then -1 else k + 1
  }

  /** Every element of a subsequence occurs in the sequence. */
  lemma {:induction false} SubsequenceMembers<T>(r: seq<T>, s: seq<T>)
    requires IsSubsequence(r, s)
    ensures forall i :: 0 <= i < |r| ==> r[i] in s
    decreases |s|
  {
    if r != [] {
      if r[0] == s[0] && IsSubsequence(r[1..], s[1..]) {
        SubsequenceMembers(r[1..], s[1..]);
        assert forall i :: 1 <= i < |r| ==> r[i] == r[1..][i - 1];
      } else {
        SubsequenceMembers(r, s[1..]);
      }
    }
  }

  /** Filtering keeps every element that passes. */
  lemma {:induction false} FilterKeeps<T>(p: T -> bool, s: seq<T>, i: int)
    requires 0 <= i < |s| && p(s[i])
    ensures s[i] in Filter(p, s)
  {
    if i > 0 {
      assert s[1..][i - 1] == s[i];
      FilterKeeps(p, s[1..], i - 1);
    }
  }

  /** A filtered sequence is empty exactly when no element passes. */
  /** Every passing element survives the filter. */
  lemma FilterKeepsAll<T>(p: T -> bool, s: seq<T>)
    ensures forall i :: 0 <= i < |s| && p(s[i]) ==> s[i] in Filter(p, s)
  {
    forall i | 0 <= i < |s| && p(s[i]) ensures s[i] in Filter(p, s) {
      FilterKeeps(p, s, i);
    }
  }

  lemma FilterEmptyIff<T>(p: T -> bool, s: seq<T>)
    ensures Filter(p, s) != [] <==> Any(p, s)
  {
    var r := Filter(p, s);
    if Any(p, s) {
      var i :| 0 <= i < |s| && p(s[i]);
      FilterKeeps(p, s, i);
    } else if r != [] {
      SubsequenceMembers(r, s);
    }
  }

  /** Filtering distributes over concatenation. */
  lemma {:induction false} FilterAppend<T>(p: T -> bool, a: seq<T>, b: seq<T>)
    ensures Filter(p, a + b) == Filter(p, a) + Filter(p, b)
  {
    if a != [] {
      assert (a + b)[1..] == a[1..] + b;
      FilterAppend(p, a[1..], b);
    } else {
      assert a + b == b;
    }
  }

  /** Filtering with a predicate every element passes changes nothing. */
  lemma {:induction false} FilterAll<T>(p: T -> bool, s: seq<T>)
    requires forall i :: 0 <= i < |s| ==> p(s[i])
    ensures Filter(p, s) == s
  {
    if s != [] {
      FilterAll(p, s[1..]);
    }
  }

  /** Filtering out one failing element between passing ones leaves the rest. */
  lemma FilterDropsOne<T>(p: T -> bool, before: seq<T>, x: T, after: seq<T>)
    requires forall i :: 0 <= i < |before| ==> p(before[i])
    requires forall i :: 0 <= i < |after| ==> p(after[i])
    requires !p(x)
    ensures Filter(p, before + [x] + after) == before + after
  {
    var bx := before + [x];
    FilterAll(p, before);
    FilterAll(p, after);
    FilterAppend(p, bx, after);
    FilterAppend(p, before, [x]);
    assert [x][1..] == [];
    assert Filter(p, [x]) == [];
    assert Filter(p, bx) == before;
  }

  /** Filtering out the only failing element removes it and keeps the rest in order. */
  lemma FilterDropsAt<T>(p: T -> bool, s: seq<T>, k: int)
    requires 0 <= k < |s| && !p(s[k])
    requires forall i :: 0 <= i < |s| && i != k ==> p(s[i])
    ensures Filter(p, s) == s[..k] + s[k + 1..]
  {
    var before, after := s[..k], s[k + 1..];
    assert s == before + [s[k]] + after;
    forall i | 0 <= i < |before| ensures p(before[i]) {
      assert before[i] == s[i];
    }
    forall i | 0 <= i < |after| ensures p(after[i]) {
      assert after[i] == s[k + 1 + i];
    }
    FilterDropsOne(p, before, s[k], after);
  }
}
