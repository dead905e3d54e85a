/**
 * LINQ's `Where` and JavaScript's `Array.prototype.filter` on sequences, with the
 * facts the query model needs: the result is an order-preserving subsequence that
 * keeps exactly the accepted elements, filtering is idempotent, and two filters in
 * a row are one filter on the conjunction.
 */
module Seqs {

  /** `r` is obtained from `s` by deleting elements, keeping the order of the rest. */
  ghost predicate IsSubsequence<T>(r: seq<T>, s: seq<T>)
    decreases |s|
  {
    if r == [] then true
    else if s == [] then false
    else (r[0] == s[0] && IsSubsequence(r[1..], s[1..])) || IsSubsequence(r, s[1..])
  }

  /** The elements of `s` that satisfy `keep`, in their original order. */
  function Where<T>(s: seq<T>, keep: T -> bool): (r: seq<T>)
    ensures |r| <= |s|
  {
    if s == [] then []
    else if keep(s[0]) then [s[0]] + Where(s[1..], keep)
    else Where(s[1..], keep)
  }

  /** `Where` only deletes elements and never reorders them. */
  lemma {:induction false} WhereSubsequence<T>(s: seq<T>, keep: T -> bool)
    ensures IsSubsequence(Where(s, keep), s)
  {
    if s != [] {
      WhereSubsequence(s[1..], keep);
      if keep(s[0]) {
        var r := Where(s, keep);
        assert r[0] == s[0] && r[1..] == Where(s[1..], keep);
      }
    }
  }

  /** `Where` keeps every occurrence of an accepted element and no occurrence of a rejected one. */
  lemma {:induction false} WhereCount<T>(s: seq<T>, keep: T -> bool, x: T)
    ensures multiset(Where(s, keep))[x] == if keep(x) then multiset(s)[x] else 0
  {
    if s != [] {
      WhereCount(s[1..], keep, x);
      assert s == [s[0]] + s[1..];
    }
  }

  /** An element is in a `Where` result exactly when it is in the input and accepted. */
  lemma WhereMembership<T>(s: seq<T>, keep: T -> bool, x: T)
    ensures x in Where(s, keep) <==> x in s && keep(x)
  {
    WhereCount(s, keep, x);
    assert x in Where(s, keep) <==> x in multiset(Where(s, keep));
  }

  /** A predicate that accepts everything changes nothing. */
  lemma {:induction false} WhereAll<T(!new)>(s: seq<T>, keep: T -> bool)
    requires forall x :: keep(x)
    ensures Where(s, keep) == s
  {
    if s != [] {
      WhereAll(s[1..], keep);
    }
  }

  /** Filtering depends only on what the predicate says of each element. */
  lemma {:induction false} WhereExtensional<T(!new)>(s: seq<T>, p: T -> bool, q: T -> bool)
    requires forall x :: p(x) == q(x)
    ensures Where(s, p) == Where(s, q)
  {
    if s != [] {
      WhereExtensional(s[1..], p, q);
    }
  }

  /** Two filters in a row are one filter on the conjunction `both`. */
  lemma {:induction false} WhereWhere<T(!new)>(s: seq<T>, p: T -> bool, q: T -> bool, both: T -> bool)
    requires forall x :: both(x) == (p(x) && q(x))
    ensures Where(Where(s, p), q) == Where(s, both)
  {
    if s != [] {
      WhereWhere(s[1..], p, q, both);
      if p(s[0]) {
        var w := Where(s[1..], p);
        assert Where(s, p) == [s[0]] + w;
        assert ([s[0]] + w)[0] == s[0] && ([s[0]] + w)[1..] == w;
      }
    }
  }

  /** Applying the same filter twice is applying it once. */
  lemma WhereIdempotent<T(!new)>(s: seq<T>, p: T -> bool)
    ensures Where(Where(s, p), p) == Where(s, p)
  {
    WhereWhere(s, p, p, p);
  }

  /** A filter and its complement split the input: together they keep every element exactly once. */
  lemma WherePartition<T(!new)>(s: seq<T>, p: T -> bool, q: T -> bool)
    requires forall x :: q(x) == !p(x)
    ensures multiset(Where(s, p)) + multiset(Where(s, q)) == multiset(s)
    ensures multiset(Where(s, p)) * multiset(Where(s, q)) == multiset{}
  {
    var a, b := multiset(Where(s, p)), multiset(Where(s, q));
    forall x ensures (a + b)[x] == multiset(s)[x] && (a * b)[x] == 0 {
      WhereCount(s, p, x);
      WhereCount(s, q, x);
    }
  }

  /** Filtering distributes over concatenation, which is what "order preserved" means for a whole list. */
  lemma {:induction false} WhereAppend<T>(a: seq<T>, b: seq<T>, p: T -> bool)
    ensures Where(a + b, p) == Where(a, p) + Where(b, p)
  {
    if a == [] {
      assert a + b == b;
    } else {
      var ab := a + b;
      assert ab[0] == a[0] && ab[1..] == a[1..] + b;
      WhereAppend(a[1..], b, p);
    }
  }
}
