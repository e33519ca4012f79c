/** Sequence helpers shared by the JavaScript and the Rust string models:
    substring search and whitespace trimming over any element type. */
module Seqs {

  /** `t` occurs in `s` as a contiguous block starting at index `k`. */
  predicate OccursAt<T(==)>(s: seq<T>, t: seq<T>, k: int) {
    0 <= k && k + |t| <= |s| && s[k..k + |t|] == t
  }

  /** Substring search, as JavaScript's `String.prototype.includes`. */
  predicate Includes<T(==)>(s: seq<T>, t: seq<T>) {
    exists k | 0 <= k <= |s| - |t| :: OccursAt(s, t, k)
  }

  /** Every element of `s` in the index range [lo, hi) is blank. */
  ghost predicate AllBlank<T>(s: seq<T>, lo: int, hi: int, blank: T -> bool) {
    forall i | 0 <= lo <= i < hi <= |s| :: blank(s[i])
  }

  /** Substring search is transitive: a block of a block of `s` is a block
      of `s`. */
  lemma IncludesTransitive<T>(s: seq<T>, t: seq<T>, u: seq<T>)
    requires Includes(s, t) && Includes(t, u)
    ensures Includes(s, u)
  {
    var k1 :| 0 <= k1 <= |s| - |t| && OccursAt(s, t, k1);
    var k2 :| 0 <= k2 <= |t| - |u| && OccursAt(t, u, k2);
    forall i | 0 <= i < |u| ensures s[k1 + k2 + i] == u[i] {
      assert t[k2 + i] == u[i];
      assert s[k1..k1 + |t|][k2 + i] == t[k2 + i];
    }
    assert s[k1 + k2..k1 + k2 + |u|] == u;
    assert OccursAt(s, u, k1 + k2);
  }

  /** The index of the first non-blank element at or after `i`, or `|s|`
      when there is none. */
  function SkipBlanks<T>(s: seq<T>, i: nat, blank: T -> bool): (k: nat)
    requires i <= |s|
    ensures i <= k <= |s| && AllBlank(s, i, k, blank)
    ensures k < |s| ==> !blank(s[k])
    decreases |s| - i
  {
    if i < |s| && blank(s[i]) then SkipBlanks(s, i + 1, blank) else i
  }

  /** The end of the last non-blank element of `s[lo..j]`, or `lo` when
      there is none. */
  function BackOverBlanks<T>(s: seq<T>, lo: nat, j: nat, blank: T -> bool): (e: nat)
    requires lo <= j <= |s|
    ensures lo <= e <= j && AllBlank(s, e, j, blank)
    ensures e > lo ==> !blank(s[e - 1])
    decreases j
  {
    if j > lo && blank(s[j - 1]) then BackOverBlanks(s, lo, j - 1, blank) else j
  }

  /** `r` is the block of `s` starting at `k` and everything around it is blank. */
  ghost predicate TrimmedAt<T>(s: seq<T>, r: seq<T>, k: int, blank: T -> bool) {
    && 0 <= k && k + |r| <= |s|
    && s[k..k + |r|] == r
    && AllBlank(s, 0, k, blank)
    && AllBlank(s, k + |r|, |s|, blank)
  }

  /** Where the trimmed block starts: the number of leading blanks. */
  function TrimOffset<T>(s: seq<T>, blank: T -> bool): (k: nat)
    ensures k <= |s| && AllBlank(s, 0, k, blank)
    ensures k < |s| ==> !blank(s[k])
  {
    SkipBlanks(s, 0, blank)
  }

  /** Drops blank elements at both ends (`trim` in JavaScript and Rust):
      the block at the trim offset, with only blanks around it. */
  function Trim<T>(s: seq<T>, blank: T -> bool): (r: seq<T>)
    ensures TrimmedAt(s, r, TrimOffset(s, blank), blank)
    ensures r == [] || (!blank(r[0]) && !blank(r[|r| - 1]))
  {
    var k := TrimOffset(s, blank);
    s[k..BackOverBlanks(s, k, |s|, blank)]
  }

  /** Trimming a second time changes nothing. */
  lemma TrimIdempotent<T>(s: seq<T>, blank: T -> bool)
    ensures Trim(Trim(s, blank), blank) == Trim(s, blank)
  {
    var r := Trim(s, blank);
    assert TrimOffset(r, blank) == 0;
    assert BackOverBlanks(r, 0, |r|, blank) == |r|;
  }

  /** A sequence made only of blanks trims to the empty sequence. */
  lemma TrimAllBlank<T>(s: seq<T>, blank: T -> bool)
    requires forall i | 0 <= i < |s| :: blank(s[i])
    ensures Trim(s, blank) == []
  {
    assert TrimOffset(s, blank) == |s|;
  }

  /** Two sequences whose elements are blank at the same positions have
      their first non-blank element at the same index. */
  lemma {:induction false} SkipCorresponds<A, B>(a: seq<A>, b: seq<B>, i: nat, pa: A -> bool, pb: B -> bool)
    requires i <= |a| == |b| && forall j | 0 <= j < |a| :: pa(a[j]) == pb(b[j])
    ensures SkipBlanks(a, i, pa) == SkipBlanks(b, i, pb)
    decreases |a| - i
  {
    if i < |a| && pa(a[i]) {
      SkipCorresponds(a, b, i + 1, pa, pb);
    }
  }

  /** The same for the last non-blank element. */
  lemma {:induction false} BackCorresponds<A, B>(a: seq<A>, b: seq<B>, lo: nat, j: nat, pa: A -> bool, pb: B -> bool)
    requires lo <= j <= |a| == |b| && forall i | 0 <= i < |a| :: pa(a[i]) == pb(b[i])
    ensures BackOverBlanks(a, lo, j, pa) == BackOverBlanks(b, lo, j, pb)
    decreases j
  {
    if j > lo && pa(a[j - 1]) {
      BackCorresponds(a, b, lo, j - 1, pa, pb);
    }
  }

  /** Two sequences blank at the same positions trim to blocks of the same
      length at the same offset. */
  lemma TrimCorresponds<A, B>(a: seq<A>, b: seq<B>, pa: A -> bool, pb: B -> bool)
    requires |a| == |b| && forall i | 0 <= i < |a| :: pa(a[i]) == pb(b[i])
    ensures TrimOffset(a, pa) == TrimOffset(b, pb)
    ensures |Trim(a, pa)| == |Trim(b, pb)|
  {
    SkipCorresponds(a, b, 0, pa, pb);
    BackCorresponds(a, b, TrimOffset(a, pa), |a|, pa, pb);
  }

  /** The first `n` elements, or all of `s` when it is shorter
      (JavaScript's `substring(0, n)` for `n >= 0`). */
  function Take<T>(s: seq<T>, n: nat): (r: seq<T>)
    ensures |r| == if n <= |s| then n else |s|
    ensures r == s[..|r|]
  {
    if n <= |s| then s[..n] else s
  }

  /** `a` can be obtained from `b` by deleting elements (greedy matching
      decides this). */
  ghost predicate IsSubsequence<T>(a: seq<T>, b: seq<T>)
    decreases |b|
  {
    a == [] || (b != [] && if a[0] == b[0] then IsSubsequence(a[1..], b[1..]) else IsSubsequence(a, b[1..]))
  }

  /** The elements of `s` that satisfy `p`, in their original order
      (JavaScript's `Array.prototype.filter`, SQL's `WHERE`). */
  function Filter<T>(s: seq<T>, p: T -> bool): (r: seq<T>)
    ensures |r| <= |s|
    ensures forall i | 0 <= i < |r| :: p(r[i]) && r[i] in s
    ensures forall i | 0 <= i < |s| && p(s[i]) :: s[i] in r
  {
    if s == [] then []
    else if p(s[0]) then [s[0]] + Filter(s[1..], p)
    else Filter(s[1..], p)
  }

  /** A filter keeps the survivors in their original order. */
  lemma {:induction false} FilterIsSubsequence<T>(s: seq<T>, p: T -> bool)
    ensures IsSubsequence(Filter(s, p), s)
  {
    if s != [] {
      FilterIsSubsequence(s[1..], p);
      var r := Filter(s, p);
      if p(s[0]) {
        assert r[0] == s[0] && r[1..] == Filter(s[1..], p);
      } else if r != [] {
        assert p(r[0]);
        assert r[0] != s[0];
      }
    }
  }

  /** Filtering distributes over concatenation, so it keeps relative order. */
  lemma {:induction false} FilterAppend<T>(a: seq<T>, b: seq<T>, p: T -> bool)
    ensures Filter(a + b, p) == Filter(a, p) + Filter(b, p)
  {
    if a == [] {
      assert a + b == b;
    } else {
      var ab := a + b;
      assert ab != [] && ab[0] == a[0] && ab[1..] == a[1..] + b;
      FilterAppend(a[1..], b, p);
      if p(a[0]) {
        calc {
          Filter(ab, p);
          [a[0]] + Filter(a[1..] + b, p);
          [a[0]] + (Filter(a[1..], p) + Filter(b, p));
          ([a[0]] + Filter(a[1..], p)) + Filter(b, p);
          Filter(a, p) + Filter(b, p);
        }
      } else {
        calc {
          Filter(ab, p);
          Filter(a[1..] + b, p);
          Filter(a[1..], p) + Filter(b, p);
          Filter(a, p) + Filter(b, p);
        }
      }
    }
  }

  /** A filter keeps everything exactly when every element passes. */
  lemma {:induction false} FilterAll<T>(s: seq<T>, p: T -> bool)
    ensures Filter(s, p) == s <==> forall i | 0 <= i < |s| :: p(s[i])
  {
    if s != [] {
      FilterAll(s[1..], p);
    }
  }

  /** Filtering by `q` after filtering by a weaker `p` is filtering by `q`. */
  lemma {:induction false} FilterFilter<T>(s: seq<T>, p: T -> bool, q: T -> bool)
    requires forall x | x in s :: q(x) ==> p(x)
    ensures Filter(Filter(s, p), q) == Filter(s, q)
  {
    if s != [] {
      FilterFilter(s[1..], p, q);
    }
  }

  /** A filter keeps nothing when no element passes. */
  lemma {:induction false} FilterNone<T>(s: seq<T>, p: T -> bool)
    requires forall i | 0 <= i < |s| :: !p(s[i])
    ensures Filter(s, p) == []
  {
    if s != [] {
      FilterNone(s[1..], p);
    }
  }
}
