/** List filtering as JavaScript's `Array.prototype.filter` does it, and the
    facts about it that the product page relies on. */
module SeqFacts {

  /** `r` holds every value of `xs` that satisfies `keep` as many times as
      `xs` does, and no other value. */
  ghost predicate KeepsCounts<T(!new)>(keep: T -> bool, xs: seq<T>, r: seq<T>)
  {
    forall x :: multiset(r)[x] == if keep(x) then multiset(xs)[x] else 0
  }

  /** The elements of `xs` that satisfy `keep`, in their original order. */
  function Filter<T(!new)>(keep: T -> bool, xs: seq<T>): (r: seq<T>)
    ensures |r| <= |xs|
    ensures forall x :: x in r <==> x in xs && keep(x)
  {
    if |xs| == 0 then []
    else if keep(xs[0]) then [xs[0]] + Filter(keep, xs[1..])
    else Filter(keep, xs[1..])
  }

  /** A filter keeps each passing value as many times as the list holds it,
      duplicates included, and drops every other value. */
  lemma {:induction false} FilterKeepsCounts<T(!new)>(keep: T -> bool, xs: seq<T>)
    ensures KeepsCounts(keep, xs, Filter(keep, xs))
  {
    if |xs| > 0 {
      FilterKeepsCounts(keep, xs[1..]);
      assert xs == [xs[0]] + xs[1..];
    }
  }

  /** `sub` is obtained from `xs` by deleting elements, without reordering. */
  predicate IsSubsequence<T(==)>(sub: seq<T>, xs: seq<T>)
  {
    if |sub| == 0 then true
    else if |xs| == 0 then false
    else if sub[0] == xs[0] then IsSubsequence(sub[1..], xs[1..])
    else IsSubsequence(sub, xs[1..])
  }

  lemma {:induction false} SubsequenceRefl<T(!new)>(xs: seq<T>)
    ensures IsSubsequence(xs, xs)
  {
    if |xs| > 0 {
      SubsequenceRefl(xs[1..]);
    }
  }

  /** Dropping the first element of a subsequence keeps it a subsequence. */
  lemma {:induction false} SubsequenceDropFirst<T(!new)>(a: seq<T>, xs: seq<T>)
    requires |a| > 0 && IsSubsequence(a, xs)
    ensures IsSubsequence(a[1..], xs)
    decreases |xs|
  {
    if a[0] == xs[0] {
      SubsequenceOfTail(a[1..], xs);
    } else {
      SubsequenceDropFirst(a, xs[1..]);
      SubsequenceOfTail(a[1..], xs);
    }
  }

  /** A subsequence of a list's tail is a subsequence of the list. */
  lemma {:induction false} SubsequenceOfTail<T(!new)>(a: seq<T>, xs: seq<T>)
    requires |xs| > 0 && IsSubsequence(a, xs[1..])
    ensures IsSubsequence(a, xs)
    decreases |xs|, 0
  {
    if |a| > 0 && a[0] == xs[0] {
      SubsequenceDropFirst(a, xs[1..]);
    }
  }

  lemma {:induction false} SubsequenceTrans<T(!new)>(a: seq<T>, b: seq<T>, c: seq<T>)
    requires IsSubsequence(a, b) && IsSubsequence(b, c)
    ensures IsSubsequence(a, c)
    decreases |c|
  {
    if |a| == 0 {
    } else if |c| == 0 {
    } else if b[0] == c[0] {
      if a[0] == b[0] {
        SubsequenceTrans(a[1..], b[1..], c[1..]);
      } else {
        SubsequenceTrans(a, b[1..], c[1..]);
        SubsequenceOfTail(a, c);
      }
    } else {
      SubsequenceTrans(a, b, c[1..]);
      SubsequenceOfTail(a, c);
    }
  }

  /** A filtered list keeps the order of its source. */
  lemma {:induction false} FilterIsSubsequence<T(!new)>(keep: T -> bool, xs: seq<T>)
    ensures IsSubsequence(Filter(keep, xs), xs)
  {
    if |xs| > 0 {
      FilterIsSubsequence(keep, xs[1..]);
      if keep(xs[0]) {
        assert Filter(keep, xs)[1..] == Filter(keep, xs[1..]);
      }
    }
  }

  /** A filter removes nothing from a list all of whose elements pass. */
  lemma {:induction false} FilterAllPass<T(!new)>(keep: T -> bool, xs: seq<T>)
    requires forall i :: 0 <= i < |xs| ==> keep(xs[i])
    ensures Filter(keep, xs) == xs
  {
    if |xs| > 0 {
      FilterAllPass(keep, xs[1..]);
    }
  }

  /** Filtering twice by the same predicate is filtering once. */
  lemma FilterIdempotent<T(!new)>(keep: T -> bool, xs: seq<T>)
    ensures Filter(keep, Filter(keep, xs)) == Filter(keep, xs)
  {
    var r := Filter(keep, xs);
    assert forall i :: 0 <= i < |r| ==> r[i] in r;
    FilterAllPass(keep, r);
  }

  /** Filtering by `a` then by `b` is filtering by their conjunction. */
  lemma {:induction false} FilterFilter<T(!new)>(a: T -> bool, b: T -> bool, ab: T -> bool, xs: seq<T>)
    requires forall x :: ab(x) == (a(x) && b(x))
    ensures Filter(b, Filter(a, xs)) == Filter(ab, xs)
  {
    if |xs| > 0 {
      FilterFilter(a, b, ab, xs[1..]);
    }
  }

  /** Two complementary predicates split a list without loss or overlap. */
  lemma {:induction false} FilterPartition<T(!new)>(a: T -> bool, b: T -> bool, xs: seq<T>)
    requires forall x :: a(x) != b(x)
    ensures |Filter(a, xs)| + |Filter(b, xs)| == |xs|
    ensures multiset(Filter(a, xs)) + multiset(Filter(b, xs)) == multiset(xs)
  {
    if |xs| > 0 {
      FilterPartition(a, b, xs[1..]);
      assert xs == [xs[0]] + xs[1..];
    }
  }

  /** A predicate that no element satisfies leaves nothing. */
  lemma {:induction false} FilterNonePass<T(!new)>(keep: T -> bool, xs: seq<T>)
    requires forall x :: !keep(x)
    ensures Filter(keep, xs) == []
  {
    if |xs| > 0 {
      FilterNonePass(keep, xs[1..]);
    }
  }
}
