/** Order-preserving filtering of a table and counting rows by a condition:
    the `WHERE` and `COUNT(*)` of the queries, with the facts the list and
    prune properties are proved from. */
module Counting {

  function Filter<T(!new)>(s: seq<T>, p: T -> bool): (r: seq<T>)
    ensures |r| <= |s|
    ensures forall x :: x in r <==> x in s && p(x)
  {
    if s == [] then [] else (if p(s[0]) then [s[0]] else []) + Filter(s[1..], p)
  }

  lemma {:induction false} FilterAppend<T(!new)>(s: seq<T>, t: seq<T>, p: T -> bool)
    ensures Filter(s + t, p) == Filter(s, p) + Filter(t, p)
  {
    if s != [] {
      assert (s + t)[0] == s[0];
      assert (s + t)[1..] == s[1..] + t;
      FilterAppend(s[1..], t, p);
      var head := if p(s[0]) then [s[0]] else [];
      calc {
        Filter(s + t, p);
        head + Filter(s[1..] + t, p);
        head + (Filter(s[1..], p) + Filter(t, p));
        (head + Filter(s[1..], p)) + Filter(t, p);
      }
    } else {
      assert s + t == t;
    }
  }

  /** Filters that agree on the elements of `s` give the same result. */
  lemma {:induction false} FilterSame<T(!new)>(s: seq<T>, p: T -> bool, q: T -> bool)
    requires forall x :: x in s ==> p(x) == q(x)
    ensures Filter(s, p) == Filter(s, q)
  {
    if s != [] {
      assert forall x :: x in s[1..] ==> x in s;
      FilterSame(s[1..], p, q);
    }
  }

  lemma {:induction false} FilterAll<T(!new)>(s: seq<T>, p: T -> bool)
    requires forall x :: x in s ==> p(x)
    ensures Filter(s, p) == s
  {
    if s != [] {
      assert forall x :: x in s[1..] ==> x in s;
      FilterAll(s[1..], p);
    }
  }

  lemma {:induction false} FilterNone<T(!new)>(s: seq<T>, p: T -> bool)
    requires forall x :: x in s ==> !p(x)
    ensures Filter(s, p) == []
  {
    if s != [] {
      assert forall x :: x in s[1..] ==> x in s;
      FilterNone(s[1..], p);
    }
  }

  /** Filtering by `p` then by `q` filters by their conjunction `pq`. */
  lemma {:induction false} FilterFilter<T(!new)>(s: seq<T>, p: T -> bool, q: T -> bool, pq: T -> bool)
    requires forall x :: x in s ==> pq(x) == (p(x) && q(x))
    ensures Filter(Filter(s, p), q) == Filter(s, pq)
  {
    if s != [] {
      assert forall x :: x in s[1..] ==> x in s;
      FilterFilter(s[1..], p, q, pq);
      var head := if p(s[0]) then [s[0]] else [];
      FilterAppend(head, Filter(s[1..], p), q);
      if p(s[0]) {
        assert Filter(head, q) == (if q(s[0]) then [s[0]] else []) + Filter(head[1..], q);
        assert head[1..] == [];
      }
    }
  }

  /** On the elements of `s`, `p` implies `q`: no more `p`s than `q`s. */
  lemma {:induction false} CountMono<T(!new)>(s: seq<T>, p: T -> bool, q: T -> bool)
    requires forall x :: x in s && p(x) ==> q(x)
    ensures |Filter(s, p)| <= |Filter(s, q)|
  {
    if s != [] {
      assert forall x :: x in s[1..] ==> x in s;
      CountMono(s[1..], p, q);
    }
  }

  /** ... and strictly fewer when some element of `s` is a `q` but not a `p`. */
  lemma {:induction false} CountStrict<T(!new)>(s: seq<T>, p: T -> bool, q: T -> bool, w: T)
    requires forall x :: x in s && p(x) ==> q(x)
    requires w in s && q(w) && !p(w)
    ensures |Filter(s, p)| < |Filter(s, q)|
  {
    assert forall x :: x in s[1..] ==> x in s;
    if s[0] == w {
      CountMono(s[1..], p, q);
    } else {
      CountStrict(s[1..], p, q, w);
    }
  }

  /** Every `p` is an `a` or a `b`: the `p`s number at most the `a`s plus the `b`s. */
  lemma {:induction false} CountUnion<T(!new)>(s: seq<T>, p: T -> bool, a: T -> bool, b: T -> bool)
    requires forall x :: x in s && p(x) ==> a(x) || b(x)
    ensures |Filter(s, p)| <= |Filter(s, a)| + |Filter(s, b)|
  {
    if s != [] {
      assert forall x :: x in s[1..] ==> x in s;
      CountUnion(s[1..], p, a, b);
    }
  }

  /** Splitting the `p`s by `q`. */
  lemma {:induction false} CountSplit<T(!new)>(s: seq<T>, p: T -> bool, pq: T -> bool, pnq: T -> bool)
    requires forall x :: x in s ==> pq(x) == (p(x) && pq(x)) && pnq(x) == (p(x) && !pq(x))
    ensures |Filter(s, p)| == |Filter(s, pq)| + |Filter(s, pnq)|
  {
    if s != [] {
      assert forall x :: x in s[1..] ==> x in s;
      CountSplit(s[1..], p, pq, pnq);
    }
  }
}
