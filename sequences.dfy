/**
 * The two array operations the event catalog is built from, on sequences:
 * `Array.prototype.find` (first element, in index order, that satisfies a
 * predicate, or undefined) and `Array.prototype.filter` (the elements that
 * satisfy a predicate, in their original order).
 */
module Sequences {
  import opened Wrappers

  /** `i` is the first index of `s` whose element satisfies `p`. */
  ghost predicate IsFirstMatch<T>(s: seq<T>, p: T -> bool, i: int) {
    0 <= i < |s| && p(s[i]) && forall j :: 0 <= j < i ==> !p(s[j])
  }

  /** `s.find(p)`: scans from index 0 and stops at the first match. */
  function Find<T>(s: seq<T>, p: T -> bool): (r: Option<T>)
    ensures r.None? <==> forall i :: 0 <= i < |s| ==> !p(s[i])
    ensures r.Some? ==> r.value in s && p(r.value)
  {
    if |s| == 0 then None
    else if p(s[0]) then Some(s[0])
    else Find(s[1..], p)
  }

  /** Whatever matches first is what `Find` returns, and `Find` returns only that. */
  lemma {:induction false} FindReturnsFirstMatch<T>(s: seq<T>, p: T -> bool, i: int)
    requires IsFirstMatch(s, p, i)
    ensures Find(s, p) == Some(s[i])
  {
    if i > 0 {
      assert !p(s[0]);
      assert IsFirstMatch(s[1..], p, i - 1) by {
        forall j | 0 <= j < i - 1 ensures !p(s[1..][j]) {
          assert s[1..][j] == s[j + 1];
        }
      }
      FindReturnsFirstMatch(s[1..], p, i - 1);
    }
  }

  /** A successful `Find` always comes from some first matching index. */
  lemma {:induction false} FindHasFirstMatch<T>(s: seq<T>, p: T -> bool) returns (i: int)
    requires Find(s, p).Some?
    ensures IsFirstMatch(s, p, i) && Find(s, p) == Some(s[i])
  {
    if p(s[0]) {
      i := 0;
    } else {
      var k := FindHasFirstMatch(s[1..], p);
      i := k + 1;
      forall j | 0 <= j < i ensures !p(s[j]) {
        if j > 0 { assert s[j] == s[1..][j - 1]; }
      }
    }
  }

  /** `s.filter(p)`. */
  function Filter<T>(s: seq<T>, p: T -> bool): (r: seq<T>)
    ensures |r| <= |s|
    ensures forall k :: 0 <= k < |r| ==> r[k] in s && p(r[k])
    ensures forall k :: 0 <= k < |s| && p(s[k]) ==> s[k] in r
  {
    if |s| == 0 then []
    else if p(s[0]) then [s[0]] + Filter(s[1..], p)
    else Filter(s[1..], p)
  }

  /** One step of `Filter`: the head is kept exactly when it satisfies `p`. */
  lemma FilterStep<T>(s: seq<T>, p: T -> bool)
    requires |s| > 0
    ensures Filter(s, p) == (if p(s[0]) then [s[0]] else []) + Filter(s[1..], p)
  {
  }

  /** `Filter` on a sequence of four, written out element by element. */
  lemma FilterOfFour<T>(s: seq<T>, p: T -> bool)
    requires |s| == 4
    ensures Filter(s, p) ==
      (if p(s[0]) then [s[0]] else []) + ((if p(s[1]) then [s[1]] else []) +
      ((if p(s[2]) then [s[2]] else []) + (if p(s[3]) then [s[3]] else [])))
  {
    var t1, t2, t3 := s[1..], s[2..], s[3..];
    assert t1[1..] == t2 && t2[1..] == t3 && t3[1..] == [];
    var a0, a1 := if p(s[0]) then [s[0]] else [], if p(s[1]) then [s[1]] else [];
    var a2, a3 := if p(s[2]) then [s[2]] else [], if p(s[3]) then [s[3]] else [];
    FilterStep(t3, p);
    assert Filter(t3, p) == a3;
    FilterStep(t2, p);
    assert Filter(t2, p) == a2 + a3;
    FilterStep(t1, p);
    assert Filter(t1, p) == a1 + (a2 + a3);
    FilterStep(s, p);
    assert Filter(s, p) == a0 + (a1 + (a2 + a3));
  }

  /**
   * `idx` lists, in strictly increasing order, positions of `b` whose elements
   * spell out `a`.
   */
  ghost predicate Embeds<T>(a: seq<T>, b: seq<T>, idx: seq<nat>) {
    && |idx| == |a|
    && (forall k :: 0 <= k < |idx| ==> idx[k] < |b| && b[idx[k]] == a[k])
    && (forall k, l :: 0 <= k < l < |idx| ==> idx[k] < idx[l])
  }

  /** `a` is obtained from `b` by deleting elements: same relative order. */
  ghost predicate IsSubsequence<T>(a: seq<T>, b: seq<T>) {
    exists idx: seq<nat> :: Embeds(a, b, idx)
  }

  ghost function Shift(idx: seq<nat>): (r: seq<nat>)
    ensures |r| == |idx| && forall k :: 0 <= k < |idx| ==> r[k] == idx[k] + 1
  {
    seq(|idx|, k requires 0 <= k < |idx| => idx[k] + 1)
  }

  /** An embedding into the tail of `b` is an embedding into `b`, one position on. */
  lemma EmbedsSkip<T>(a: seq<T>, b: seq<T>, idx: seq<nat>)
    requires |b| > 0 && Embeds(a, b[1..], idx)
    ensures Embeds(a, b, Shift(idx))
  {
    var r := Shift(idx);
    forall k | 0 <= k < |r| ensures r[k] < |b| && b[r[k]] == a[k] {
      assert b[r[k]] == b[1..][idx[k]];
    }
  }

  /** Matching the head of `b` with a new first element extends an embedding. */
  lemma EmbedsCons<T>(a: seq<T>, b: seq<T>, idx: seq<nat>)
    requires |b| > 0 && Embeds(a, b[1..], idx)
    ensures Embeds([b[0]] + a, b, [0] + Shift(idx))
  {
    EmbedsSkip(a, b, idx);
    var r, a' := [0] + Shift(idx), [b[0]] + a;
    forall k | 0 < k < |r| ensures r[k] < |b| && b[r[k]] == a'[k] {
      assert r[k] == Shift(idx)[k - 1] && a'[k] == a[k - 1];
    }
  }

  /** Filtering keeps the order of what it keeps. */
  lemma {:induction false} FilterIsSubsequence<T>(s: seq<T>, p: T -> bool)
    ensures IsSubsequence(Filter(s, p), s)
  {
    if |s| == 0 {
      assert Embeds(Filter(s, p), s, []);
    } else {
      FilterIsSubsequence(s[1..], p);
      var idx :| Embeds(Filter(s[1..], p), s[1..], idx);
      if p(s[0]) {
        EmbedsCons(Filter(s[1..], p), s, idx);
        assert Embeds(Filter(s, p), s, [0] + Shift(idx));
      } else {
        EmbedsSkip(Filter(s[1..], p), s, idx);
        assert Embeds(Filter(s, p), s, Shift(idx));
      }
    }
  }

  /**
   * Filtering keeps every element that satisfies `p` as often as it occurs,
   * and no other element.
   */
  lemma {:induction false} FilterMultiplicity<T>(s: seq<T>, p: T -> bool, x: T)
    ensures multiset(Filter(s, p))[x] == if p(x) then multiset(s)[x] else 0
  {
    if |s| > 0 {
      FilterMultiplicity(s[1..], p, x);
      assert s == [s[0]] + s[1..];
    }
  }

  /**
   * Filtering by `p` and by its negation `q` splits `s`: the two results have
   * no element in common, their lengths add up to `|s|`, and together they
   * hold every element of `s` exactly as often as `s` does.
   */
  lemma {:induction false} FilterPartition<T>(s: seq<T>, p: T -> bool, q: T -> bool)
    requires forall x :: q(x) <==> !p(x)
    ensures |Filter(s, p)| + |Filter(s, q)| == |s|
    ensures multiset(Filter(s, p)) + multiset(Filter(s, q)) == multiset(s)
    ensures forall x :: !(x in Filter(s, p) && x in Filter(s, q))
  {
    if |s| > 0 {
      FilterPartition(s[1..], p, q);
      assert s == [s[0]] + s[1..];
    }
  }
}
