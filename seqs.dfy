// Order-preserving filtering of sequences: the `Array.prototype.filter`
// that every list page and every table query of the application applies.

module Seqs {

  /** `xs` is an order-preserving subsequence of `ys`. */
  ghost predicate IsSubsequence<T>(xs: seq<T>, ys: seq<T>)
    decreases |ys|
  {
    if xs == [] then true
    else if ys == [] then false
    else if xs[0] == ys[0] then IsSubsequence(xs[1..], ys[1..])
    else IsSubsequence(xs, ys[1..])
  }

  /** The elements of `s` that satisfy `keep`, in their original order. */
  function Keep<T>(s: seq<T>, keep: T -> bool): (r: seq<T>)
    ensures |r| <= |s|
  {
    if s == [] then []
    else if keep(s[0]) then [s[0]] + Keep(s[1..], keep)
    else Keep(s[1..], keep)
  }

  /** An element is kept exactly when it occurs in the input and satisfies the predicate. */
  lemma {:induction false} KeepMembership<T>(s: seq<T>, keep: T -> bool, x: T)
    ensures x in Keep(s, keep) <==> x in s && keep(x)
  {
    if s != [] {
      KeepMembership(s[1..], keep, x);
      assert s == [s[0]] + s[1..];
    }
  }

  /** The kept elements form an order-preserving subsequence of the input. */
  lemma {:induction false} KeepIsSubsequence<T>(s: seq<T>, keep: T -> bool)
    ensures IsSubsequence(Keep(s, keep), s)
  {
    if s != [] {
      KeepIsSubsequence(s[1..], keep);
      if keep(s[0]) {
        assert Keep(s, keep)[1..] == Keep(s[1..], keep);
      } else {
        SubsequenceOfTail(Keep(s, keep), s);
      }
    }
  }

  /** A subsequence of the tail is a subsequence of the whole. */
  lemma {:induction false} SubsequenceOfTail<T>(xs: seq<T>, ys: seq<T>)
    requires ys != [] && IsSubsequence(xs, ys[1..])
    ensures IsSubsequence(xs, ys)
    decreases |ys|, |xs|
  {
    if xs != [] && xs[0] == ys[0] {
      SubsequenceDropHead(xs, ys[1..]);
    }
  }

  /** Dropping the first element of a subsequence keeps it a subsequence. */
  lemma {:induction false} SubsequenceDropHead<T>(xs: seq<T>, ys: seq<T>)
    requires xs != [] && IsSubsequence(xs, ys)
    ensures IsSubsequence(xs[1..], ys)
    decreases |ys|, |xs|
  {
    if xs[0] != ys[0] {
      SubsequenceDropHead(xs, ys[1..]);
    }
    if xs[1..] != [] {
      SubsequenceOfTail(xs[1..], ys);
    }
  }

  /** A predicate that holds everywhere keeps the whole sequence. */
  lemma {:induction false} KeepAll<T>(s: seq<T>, keep: T -> bool)
    requires forall x :: x in s ==> keep(x)
    ensures Keep(s, keep) == s
  {
    if s != [] {
      KeepAll(s[1..], keep);
      assert s == [s[0]] + s[1..];
    }
  }

  /** Two predicates that agree on the elements of `s` keep the same elements. */
  lemma {:induction false} KeepCongruent<T>(s: seq<T>, p: T -> bool, q: T -> bool)
    requires forall x :: x in s ==> p(x) == q(x)
    ensures Keep(s, p) == Keep(s, q)
  {
    if s != [] {
      KeepCongruent(s[1..], p, q);
    }
  }

  /** Filtering twice is filtering once by the conjunction. */
  lemma {:induction false} KeepKeep<T>(s: seq<T>, p: T -> bool, q: T -> bool, pq: T -> bool)
    requires forall x :: x in s ==> pq(x) == (p(x) && q(x))
    ensures Keep(Keep(s, p), q) == Keep(s, pq)
  {
    if s != [] {
      KeepKeep(s[1..], p, q, pq);
    }
  }

  /** No element occurs twice (what `if (!list.includes(x)) list.push(x)` maintains). */
  ghost predicate Distinct<T>(s: seq<T>)
  {
    forall i, j :: 0 <= i < j < |s| ==> s[i] != s[j]
  }

  /** A sequence has at least as many positions as distinct elements, and exactly as
      many when no element repeats. */
  lemma {:induction false} ElementCount<T>(s: seq<T>)
    ensures |set x | x in s| <= |s|
    ensures Distinct(s) ==> |set x | x in s| == |s|
  {
    if s != [] {
      ElementCount(s[1..]);
      assert (set x | x in s) == {s[0]} + (set x | x in s[1..]);
      if Distinct(s) {
        assert Distinct(s[1..]);
        assert s[0] !in (set x | x in s[1..]);
      }
    }
  }

  /** A distinct list drawn from a distinct pool is as long as the pool exactly when it
      holds every member of the pool. */
  lemma FullWhenComplete<T>(s: seq<T>, pool: seq<T>)
    requires Distinct(s) && Distinct(pool)
    requires forall x :: x in s ==> x in pool
    ensures |s| == |pool| <==> forall x :: x in pool ==> x in s
  {
    var have, want := set x | x in s, set x | x in pool;
    ElementCount(s);
    ElementCount(pool);
    assert have <= want;
    assert want == have + (want - have);
    if |s| == |pool| {
      assert want - have == {};
      forall x | x in pool ensures x in s {
        assert x in want;
      }
    }
  }

  /** Everything a filter promises: exactly the elements that pass, in their order. */
  lemma KeepMeaning<T>(s: seq<T>, keep: T -> bool)
    ensures forall x :: x in Keep(s, keep) <==> x in s && keep(x)
    ensures IsSubsequence(Keep(s, keep), s)
  {
    forall x ensures x in Keep(s, keep) <==> x in s && keep(x) {
      KeepMembership(s, keep, x);
    }
    KeepIsSubsequence(s, keep);
  }
}
