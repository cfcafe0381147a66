/** `Array.prototype.filter` and `includes`, and the facts about them that the model relies on. */
module Seqs {

  /** `xs.filter(p)`. */
  function Filter<T>(xs: seq<T>, p: T -> bool): (r: seq<T>)
    ensures |r| <= |xs|
    ensures forall k :: 0 <= k < |r| ==> p(r[k])
  {
    if xs == [] then []
    else (if p(xs[0]) then [xs[0]] else []) + Filter(xs[1..], p)
  }

  /** `a` can be obtained from `b` by deleting elements, keeping the order of the rest. */
  predicate IsSubsequence<T(==)>(a: seq<T>, b: seq<T>)
    decreases |b|
  {
    a == [] || (b != [] && ((a[0] == b[0] && IsSubsequence(a[1..], b[1..])) || IsSubsequence(a, b[1..])))
  }

  /** An element is kept exactly when it is in the input and passes the test. */
  lemma {:induction false} FilterMembership<T>(xs: seq<T>, p: T -> bool, x: T)
    ensures x in Filter(xs, p) <==> x in xs && p(x)
    decreases |xs|
  {
    if xs != [] {
      FilterMembership(xs[1..], p, x);
      assert xs == [xs[0]] + xs[1..];
    }
  }

  /** The kept elements appear in the input's order. */
  lemma {:induction false} FilterIsSubsequence<T>(xs: seq<T>, p: T -> bool)
    ensures IsSubsequence(Filter(xs, p), xs)
    decreases |xs|
  {
    if xs != [] {
      FilterIsSubsequence(xs[1..], p);
      var rest := Filter(xs[1..], p);
      if p(xs[0]) {
        assert ([xs[0]] + rest)[1..] == rest;
      } else {
        assert Filter(xs, p) == rest;
      }
    }
  }

  /** Filtering a concatenation filters each part. */
  lemma {:induction false} FilterAppend<T>(xs: seq<T>, ys: seq<T>, p: T -> bool)
    ensures Filter(xs + ys, p) == Filter(xs, p) + Filter(ys, p)
    decreases |xs|
  {
    if xs != [] {
      var head := if p(xs[0]) then [xs[0]] else [];
      FilterAppend(xs[1..], ys, p);
      assert (xs + ys)[0] == xs[0];
      assert (xs + ys)[1..] == xs[1..] + ys;
      assert Filter(xs + ys, p) == head + Filter(xs[1..] + ys, p);
      assert Filter(xs, p) == head + Filter(xs[1..], p);
      assert head + (Filter(xs[1..], p) + Filter(ys, p)) == (head + Filter(xs[1..], p)) + Filter(ys, p);
    } else {
      assert xs + ys == ys;
    }
  }

  /** When every element passes, the filter returns the input unchanged. */
  lemma {:induction false} FilterKeepsAll<T>(xs: seq<T>, p: T -> bool)
    requires forall i :: 0 <= i < |xs| ==> p(xs[i])
    ensures Filter(xs, p) == xs
    decreases |xs|
  {
    if xs != [] {
      FilterKeepsAll(xs[1..], p);
      assert xs == [xs[0]] + xs[1..];
    }
  }

  /** `s.includes(t)` on strings, and its analogue on any sequence: `t` occurs in `s` at some position. */
  predicate Includes<T(==)>(s: seq<T>, t: seq<T>)
    decreases |s|
  {
    t <= s || (s != [] && Includes(s[1..], t))
  }

  /** `Includes` means an occurrence at some index, and every occurrence counts. */
  lemma {:induction false} IncludesAt<T>(s: seq<T>, t: seq<T>, k: nat)
    requires k + |t| <= |s| && s[k..k + |t|] == t
    ensures Includes(s, t)
    decreases k
  {
    if k > 0 {
      assert s[1..][k - 1..k - 1 + |t|] == t;
      IncludesAt(s[1..], t, k - 1);
    }
  }

  /** Conversely, `Includes` finds an occurrence at some index. */
  lemma {:induction false} IncludesHasIndex<T>(s: seq<T>, t: seq<T>) returns (k: nat)
    requires Includes(s, t)
    ensures k + |t| <= |s| && s[k..k + |t|] == t
    decreases |s|
  {
    if t <= s {
      k := 0;
    } else {
      var j := IncludesHasIndex(s[1..], t);
      assert s[1..][j..j + |t|] == s[j + 1..j + 1 + |t|];
      k := j + 1;
    }
  }

  /** Every sequence includes the empty one. */
  lemma IncludesEmpty<T>(s: seq<T>)
    ensures Includes(s, [])
  {
  }

  /** A sequence includes itself. */
  lemma IncludesSelf<T>(s: seq<T>)
    ensures Includes(s, s)
  {
  }

  /** Elements appended after an occurrence keep it. */
  lemma {:induction false} IncludesAppendRight<T>(s: seq<T>, u: seq<T>, t: seq<T>)
    requires Includes(s, t)
    ensures Includes(s + u, t)
    decreases |s|
  {
    if t <= s {
      assert (s + u)[..|t|] == s[..|t|];
    } else {
      IncludesAppendRight(s[1..], u, t);
      assert (s + u)[1..] == s[1..] + u;
    }
  }

  /** Elements prepended before an occurrence keep it. */
  lemma {:induction false} IncludesAppendLeft<T>(u: seq<T>, s: seq<T>, t: seq<T>)
    requires Includes(s, t)
    ensures Includes(u + s, t)
    decreases |u|
  {
    if u == [] {
      assert u + s == s;
    } else {
      IncludesAppendLeft(u[1..], s, t);
      assert (u + s)[1..] == u[1..] + s;
    }
  }

  /** An occurrence is no longer than the sequence, and one of equal length is the sequence itself. */
  lemma {:induction false} IncludesLength<T>(s: seq<T>, t: seq<T>)
    requires Includes(s, t)
    ensures |t| <= |s| && (|t| == |s| ==> t == s)
    decreases |s|
  {
    if !(t <= s) {
      IncludesLength(s[1..], t);
    }
  }

  /** Every element of an occurrence is an element of the sequence. */
  lemma {:induction false} IncludesElement<T>(s: seq<T>, t: seq<T>, c: T)
    requires Includes(s, t) && c in t
    ensures c in s
    decreases |s|
  {
    if t <= s {
      var k :| 0 <= k < |t| && t[k] == c;
      assert s[k] == c;
    } else {
      IncludesElement(s[1..], t, c);
    }
  }
}
