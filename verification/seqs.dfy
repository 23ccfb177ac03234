/**
 * The two array operations the pages rely on, `Array.prototype.find` and
 * `Array.prototype.filter`, stated over sequences with a predicate argument.
 */
module Seqs {
  import opened Wrappers

  /** Position of the first element satisfying p (`findIndex`); None when no element does. */
  function FirstWhere<T>(s: seq<T>, p: T -> bool): (r: Option<nat>)
    ensures r.Some? ==> r.value < |s| && p(s[r.value])
    ensures r.Some? ==> forall j :: 0 <= j < r.value ==> !p(s[j])
    ensures r.None? <==> forall j :: 0 <= j < |s| ==> !p(s[j])
  {
    if |s| == 0 then None
    else if p(s[0]) then Some(0)
    else
      match FirstWhere(s[1..], p)
      case None => None
      case Some(k) => Some(k + 1)
  }

  /** `s.find(p)`: the first element satisfying p, or None (`undefined`). */
  function Find<T>(s: seq<T>, p: T -> bool): (r: Option<T>)
    ensures r.None? <==> forall j :: 0 <= j < |s| ==> !p(s[j])
    ensures r.Some? ==> exists i :: 0 <= i < |s| && s[i] == r.value && p(s[i]) && forall j :: 0 <= j < i ==> !p(s[j])
  {
    match FirstWhere(s, p)
    case None => None
    case Some(i) => Some(s[i])
  }

  /** Number of elements of s satisfying p. */
  function CountWhere<T>(s: seq<T>, p: T -> bool): nat {
    if |s| == 0 then 0 else (if p(s[0]) then 1 else 0) + CountWhere(s[1..], p)
  }

  /** a can be obtained from b by deleting elements, keeping the rest in order. */
  predicate IsSubsequence<T(==)>(a: seq<T>, b: seq<T>) {
    if |a| == 0 then true
    else if |b| == 0 then false
    else (a[0] == b[0] && IsSubsequence(a[1..], b[1..])) || IsSubsequence(a, b[1..])
  }

  /** Every element satisfies p exactly when all of them count. */
  lemma {:induction false} CountAll<T>(s: seq<T>, p: T -> bool)
    requires forall i :: 0 <= i < |s| ==> p(s[i])
    ensures CountWhere(s, p) == |s|
  {
    if |s| > 0 {
      CountAll(s[1..], p);
    }
  }

  /** Every sequence is a subsequence of itself. */
  lemma {:induction false} SubsequenceReflexive<T>(s: seq<T>)
    ensures IsSubsequence(s, s)
  {
    if |s| > 0 {
      SubsequenceReflexive(s[1..]);
    }
  }

  /** `s.filter(p)`: the elements satisfying p, in their original order, duplicates kept. */
  function Filter<T(==)>(s: seq<T>, p: T -> bool): (r: seq<T>)
    ensures forall i :: 0 <= i < |r| ==> p(r[i])
    ensures forall i :: 0 <= i < |s| && p(s[i]) ==> s[i] in r
    ensures IsSubsequence(r, s)
    ensures |r| == CountWhere(s, p)
  {
    if |s| == 0 then []
    else
      var rest := Filter(s[1..], p);
      assert forall i :: 1 <= i < |s| && p(s[i]) ==> s[1..][i - 1] in rest;
      if p(s[0]) then
        var r := [s[0]] + rest;
        assert r[1..] == rest;
        r
      else rest
  }

  /** A subsequence made only of elements satisfying p is no longer than the count of such elements. */
  lemma {:induction false} SubsequenceCountBound<T>(a: seq<T>, b: seq<T>, p: T -> bool)
    requires IsSubsequence(a, b)
    requires forall i :: 0 <= i < |a| ==> p(a[i])
    ensures |a| <= CountWhere(b, p)
  {
    if |a| > 0 {
      if a[0] == b[0] && IsSubsequence(a[1..], b[1..]) {
        SubsequenceCountBound(a[1..], b[1..], p);
      } else {
        SubsequenceCountBound(a, b[1..], p);
      }
    }
  }

  /**
   * The filter is the ONLY subsequence of s made of elements satisfying p that
   * contains as many elements as s has satisfying ones: nothing added,
   * nothing reordered, nothing deduplicated.
   */
  lemma {:induction false} FilterUnique<T>(s: seq<T>, p: T -> bool, r: seq<T>)
    requires IsSubsequence(r, s)
    requires forall i :: 0 <= i < |r| ==> p(r[i])
    requires |r| == CountWhere(s, p)
    ensures r == Filter(s, p)
  {
    if |s| == 0 {
    } else if !p(s[0]) {
      if |r| > 0 {
        assert r[0] != s[0];
      }
      FilterUnique(s[1..], p, r);
    } else {
      if IsSubsequence(r, s[1..]) {
        SubsequenceCountBound(r, s[1..], p);
        assert false;
      }
      assert r[0] == s[0] && IsSubsequence(r[1..], s[1..]);
      FilterUnique(s[1..], p, r[1..]);
      assert r == [s[0]] + r[1..];
    }
  }

  /** Both directions: r is the filter of s exactly when it has the three defining properties. */
  lemma FilterCharacterized<T>(s: seq<T>, p: T -> bool, r: seq<T>)
    ensures r == Filter(s, p) <==>
              IsSubsequence(r, s) && (forall i :: 0 <= i < |r| ==> p(r[i])) && |r| == CountWhere(s, p)
  {
    if IsSubsequence(r, s) && (forall i :: 0 <= i < |r| ==> p(r[i])) && |r| == CountWhere(s, p) {
      FilterUnique(s, p, r);
    }
  }
}
