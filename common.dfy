/** The few JavaScript array operations the components rely on, as functions
    over sequences: `Array.prototype.filter`, `slice(0, k)`, and the order
    relation "is an order-preserving subsequence of" that states what a filter
    promises. `Option` stands for `T | null` / `NaN`. */
module Common {

  datatype Option<+T> = None | Some(value: T)

  function Min(a: int, b: int): int { if a <= b then a else b }

  /** The set of elements of a sequence. */
  function Elements<T>(s: seq<T>): set<T> { set x | x in s }

  /** `a` can be obtained from `b` by deleting elements, keeping the order. */
  predicate IsSubsequence<T(==)>(a: seq<T>, b: seq<T>)
    decreases |b|
  {
    if a == [] then true
    else if b == [] then false
    else (a[0] == b[0] && IsSubsequence(a[1..], b[1..])) || IsSubsequence(a, b[1..])
  }

  predicate NoDuplicates<T(==)>(s: seq<T>) {
    forall i, j :: 0 <= i < j < |s| ==> s[i] != s[j]
  }

  /** `s.filter(p)`: the elements of `s` that satisfy `p`, in their order. */
  function Filter<T(==)>(p: T -> bool, s: seq<T>): (r: seq<T>)
    ensures |r| <= |s|
  {
    if s == [] then []
    else if p(s[0]) then [s[0]] + Filter(p, s[1..])
    else Filter(p, s[1..])
  }

  /** An element is in the filtered list exactly when it is in the input and
      passes the predicate. */
  lemma {:induction false} FilterMembers<T>(p: T -> bool, s: seq<T>)
    ensures forall x :: x in Filter(p, s) ==> x in s && p(x)
    ensures forall x :: x in s && p(x) ==> x in Filter(p, s)
  {
    if s != [] {
      FilterMembers(p, s[1..]);
    }
  }

  /** What `filter` keeps, it keeps in order. */
  lemma {:induction false} FilterIsSubsequence<T>(p: T -> bool, s: seq<T>)
    ensures IsSubsequence(Filter(p, s), s)
  {
    if s != [] {
      FilterIsSubsequence(p, s[1..]);
      if p(s[0]) {
        assert Filter(p, s) == [s[0]] + Filter(p, s[1..]);
      } else {
        SubsequenceGrow(Filter(p, s), s[1..], s[0]);
        assert [s[0]] + s[1..] == s;
      }
    }
  }

  /** `s.slice(0, k)` for a non-negative `k`. */
  function Take<T>(s: seq<T>, k: nat): (r: seq<T>)
    ensures r <= s
    ensures |r| == Min(k, |s|)
  {
    if k <= |s| then s[..k] else s
  }

  /** A filter that every element passes gives back its input. */
  lemma {:induction false} FilterKeepsAll<T>(p: T -> bool, s: seq<T>)
    requires forall x :: x in s ==> p(x)
    ensures Filter(p, s) == s
  {
    if s != [] {
      FilterKeepsAll(p, s[1..]);
    }
  }

  /** Two predicates that agree on the elements of `s` filter it alike. */
  lemma {:induction false} FilterCongruent<T>(p: T -> bool, q: T -> bool, s: seq<T>)
    requires forall x :: x in s ==> p(x) == q(x)
    ensures Filter(p, s) == Filter(q, s)
  {
    if s != [] {
      FilterCongruent(p, q, s[1..]);
    }
  }

  /** Filtering with a stronger predicate keeps a subsequence of what the
      weaker one keeps. */
  lemma {:induction false} FilterStronger<T>(p: T -> bool, q: T -> bool, s: seq<T>)
    requires forall x :: x in s && p(x) ==> q(x)
    ensures IsSubsequence(Filter(p, s), Filter(q, s))
  {
    if s != [] {
      FilterStronger(p, q, s[1..]);
      if p(s[0]) {
        assert Filter(p, s) == [s[0]] + Filter(p, s[1..]);
        assert Filter(q, s) == [s[0]] + Filter(q, s[1..]);
      } else if q(s[0]) {
        var fq := Filter(q, s);
        assert fq == [s[0]] + Filter(q, s[1..]);
        assert fq[1..] == Filter(q, s[1..]);
        SubsequenceGrow(Filter(p, s), Filter(q, s[1..]), s[0]);
      }
    }
  }

  /** Each element of the input that a filter keeps appears in the output as
      many times as in the input: a filter drops only the elements that fail. */
  lemma {:induction false} FilterCount<T>(p: T -> bool, s: seq<T>, x: T)
    ensures multiset(Filter(p, s))[x] == if p(x) then multiset(s)[x] else 0
  {
    if s != [] {
      FilterCount(p, s[1..], x);
      assert s == [s[0]] + s[1..];
      if p(s[0]) {
        assert Filter(p, s) == [s[0]] + Filter(p, s[1..]);
      }
    }
  }

  /** Filtering a concatenation filters each part. */
  lemma {:induction false} FilterAppend<T>(p: T -> bool, a: seq<T>, b: seq<T>)
    ensures Filter(p, a + b) == Filter(p, a) + Filter(p, b)
  {
    if a == [] {
      assert a + b == b;
    } else {
      assert (a + b)[1..] == a[1..] + b;
      FilterAppend(p, a[1..], b);
    }
  }

  /** `[x]` when `b` holds, the empty list otherwise. */
  function OneIf<T>(b: bool, x: T): seq<T> { if b then [x] else [] }

  /** What a filter keeps of one element. */
  function Kept<T>(p: T -> bool, x: T): seq<T> { OneIf(p(x), x) }

  lemma FilterCons<T>(p: T -> bool, x: T, t: seq<T>)
    ensures Filter(p, [x] + t) == Kept(p, x) + Filter(p, t)
  {
    assert ([x] + t)[1..] == t;
  }

  /** Filtering a five-element list decides each element on its own, in order. */
  lemma FilterFive<T>(p: T -> bool, a: T, b: T, c: T, d: T, e: T)
    ensures Filter(p, [a, b, c, d, e])
         == Kept(p, a) + (Kept(p, b) + (Kept(p, c) + (Kept(p, d) + Kept(p, e))))
  {
    var s5 := [a, b, c, d, e];
    var s4, s3, s2, s1 := s5[1..], s5[2..], s5[3..], s5[4..];
    assert s5 == [a] + s4 && s4 == [b] + s3 && s3 == [c] + s2 && s2 == [d] + s1 && s1 == [e] + [];
    FilterCons(p, e, []);
    assert Filter(p, s1) == Kept(p, e) + [];
    FilterCons(p, d, s1);
    FilterCons(p, c, s2);
    FilterCons(p, b, s3);
    FilterCons(p, a, s4);
  }

  /** A five-element list filtered, when it is known what the filter keeps of
      each element. */
  lemma FilterFiveDecided<T>(p: T -> bool, s: seq<T>, b0: bool, b1: bool, b2: bool, b3: bool, b4: bool)
    requires |s| == 5
    requires p(s[0]) == b0 && p(s[1]) == b1 && p(s[2]) == b2 && p(s[3]) == b3 && p(s[4]) == b4
    ensures Filter(p, s)
         == OneIf(b0, s[0]) + (OneIf(b1, s[1]) + (OneIf(b2, s[2]) + (OneIf(b3, s[3]) + OneIf(b4, s[4]))))
  {
    FilterFive(p, s[0], s[1], s[2], s[3], s[4]);
    assert s == [s[0], s[1], s[2], s[3], s[4]];
  }

  /** A filter no element passes gives the empty list. */
  lemma FilterDropsAll<T>(p: T -> bool, s: seq<T>)
    requires forall x :: x in s ==> !p(x)
    ensures Filter(p, s) == []
  {
  }

  /** Filtering keeps a list free of duplicates. */
  lemma {:induction false} FilterNoDuplicates<T>(p: T -> bool, s: seq<T>)
    requires NoDuplicates(s)
    ensures NoDuplicates(Filter(p, s))
  {
    if s != [] {
      assert NoDuplicates(s[1..]) by {
        forall i, j | 0 <= i < j < |s| - 1 ensures s[1..][i] != s[1..][j] {
          assert s[1..][i] == s[i + 1] && s[1..][j] == s[j + 1];
        }
      }
      FilterNoDuplicates(p, s[1..]);
      if p(s[0]) {
        var t := Filter(p, s[1..]);
        FilterMembers(p, s[1..]);
        assert s[0] !in s[1..] by {
          forall k | 0 <= k < |s| - 1 ensures s[1..][k] != s[0] {
            assert s[1..][k] == s[k + 1];
          }
        }
        ConsNoDuplicates(s[0], t);
      }
    }
  }

  lemma ConsNoDuplicates<T>(x: T, t: seq<T>)
    requires x !in t && NoDuplicates(t)
    ensures NoDuplicates([x] + t)
  {
    var s := [x] + t;
    forall i, j | 0 <= i < j < |s| ensures s[i] != s[j] {
      assert s[j] == t[j - 1];
      if i > 0 {
        assert s[i] == t[i - 1];
      }
    }
  }

  /** A subsequence of `b` is also one of `b` with an element put in front. */
  lemma {:induction false} SubsequenceGrow<T>(a: seq<T>, b: seq<T>, x: T)
    requires IsSubsequence(a, b)
    ensures IsSubsequence(a, [x] + b)
  {
    if a != [] {
      assert ([x] + b)[1..] == b;
    }
  }

  /** A prefix of a subsequence of `b` is a subsequence of `b`. */
  lemma {:induction false} PrefixOfSubsequence<T>(c: seq<T>, a: seq<T>, b: seq<T>)
    requires c <= a && IsSubsequence(a, b)
    ensures IsSubsequence(c, b)
    decreases |b|
  {
    if c != [] {
      assert a != [] && b != [];
      if a[0] == b[0] && IsSubsequence(a[1..], b[1..]) {
        PrefixOfSubsequence(c[1..], a[1..], b[1..]);
      } else {
        PrefixOfSubsequence(c, a, b[1..]);
      }
    }
  }
}
