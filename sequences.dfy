/** Order-preserving filtering (LINQ `Where`) and a stable sort over a comparator (LINQ
    `OrderBy`), with the facts the product search relies on: both keep every element, the sort
    orders, and filtering commutes with sorting. */
module Sequences {

  /** `le` is a total preorder: any two elements compare, and comparisons chain. */
  ghost predicate TotalPreorder<T(!new)>(le: (T, T) -> bool) {
    && (forall a, b :: le(a, b) || le(b, a))
    && (forall a, b, c :: le(a, b) && le(b, c) ==> le(a, c))
  }

  /** Every element compares `le` with every later one. */
  predicate SortedBy<T>(s: seq<T>, le: (T, T) -> bool) {
    forall i, j :: 0 <= i < j < |s| ==> le(s[i], s[j])
  }

  /** The elements of `s` satisfying `p`, in their original order. */
  function Filter<T>(s: seq<T>, p: T -> bool): (r: seq<T>)
    ensures |r| <= |s|
  {
    if s == [] then []
    else if p(s[0]) then [s[0]] + Filter(s[1..], p)
    else Filter(s[1..], p)
  }

  /** An element is kept exactly when it is in `s` and satisfies `p`. */
  lemma {:induction false} FilterMembers<T>(s: seq<T>, p: T -> bool, x: T)
    ensures x in Filter(s, p) <==> x in s && p(x)
  {
    if s != [] {
      FilterMembers(s[1..], p, x);
      assert s == [s[0]] + s[1..];
    }
  }

  lemma FilterMembersAll<T(!new)>(s: seq<T>, p: T -> bool)
    ensures forall x :: x in Filter(s, p) <==> x in s && p(x)
  {
    forall x ensures x in Filter(s, p) <==> x in s && p(x) {
      FilterMembers(s, p, x);
    }
  }

  /** Puts `x` before the first element it compares `le` with. */
  function Insert<T>(x: T, s: seq<T>, le: (T, T) -> bool): (r: seq<T>)
    ensures multiset(r) == multiset(s) + multiset{x}
  {
    if s == [] then [x]
    else if le(x, s[0]) then [x] + s
    else
      assert s == [s[0]] + s[1..];
      [s[0]] + Insert(x, s[1..], le)
  }

  /** The insertion puts `x` at one position and keeps the rest in order. */
  lemma {:induction false} InsertSplits<T>(x: T, s: seq<T>, le: (T, T) -> bool) returns (i: nat)
    ensures i <= |s| && Insert(x, s, le) == s[..i] + [x] + s[i..]
  {
    if s == [] || le(x, s[0]) {
      i := 0;
    } else {
      var j := InsertSplits(x, s[1..], le);
      i := j + 1;
      assert s[..i] == [s[0]] + s[1..][..j];
      assert s[i..] == s[1..][j..];
    }
  }

  /** Stable insertion sort: of two elements that compare both ways, the earlier one stays first. */
  function Sort<T>(s: seq<T>, le: (T, T) -> bool): (r: seq<T>)
    ensures multiset(r) == multiset(s)
  {
    if s == [] then [] else
      assert s == [s[0]] + s[1..];
      Insert(s[0], Sort(s[1..], le), le)
  }

  lemma {:induction false} InsertSorted<T(!new)>(x: T, s: seq<T>, le: (T, T) -> bool)
    requires TotalPreorder(le) && SortedBy(s, le)
    ensures SortedBy(Insert(x, s, le), le)
  {
    if s != [] && !le(x, s[0]) {
      InsertSorted(x, s[1..], le);
      var r := Insert(x, s, le);
      var t := Insert(x, s[1..], le);
      assert r == [s[0]] + t;
      forall j | 0 < j < |r| ensures le(r[0], r[j]) {
        assert r[j] in multiset(t);
        assert r[j] == x || r[j] in s[1..];
      }
    }
  }

  /** The sort orders its result. */
  lemma {:induction false} SortSorted<T(!new)>(s: seq<T>, le: (T, T) -> bool)
    requires TotalPreorder(le)
    ensures SortedBy(Sort(s, le), le)
  {
    if s != [] {
      SortSorted(s[1..], le);
      InsertSorted(s[0], Sort(s[1..], le), le);
    }
  }

  /** Sorting an already sorted sequence leaves it unchanged. */
  lemma {:induction false} SortOfSorted<T>(s: seq<T>, le: (T, T) -> bool)
    requires SortedBy(s, le)
    ensures Sort(s, le) == s
  {
    if s != [] {
      SortOfSorted(s[1..], le);
      assert s == [s[0]] + s[1..];
    }
  }

  /** Filtering keeps a sorted sequence sorted. */
  lemma {:induction false} FilterSorted<T>(s: seq<T>, p: T -> bool, le: (T, T) -> bool)
    requires SortedBy(s, le)
    ensures SortedBy(Filter(s, p), le)
  {
    if s != [] {
      FilterSorted(s[1..], p, le);
      var r := Filter(s, p);
      if p(s[0]) {
        forall j | 0 < j < |r| ensures le(r[0], r[j]) {
          assert r[j] in Filter(s[1..], p);
          FilterMembers(s[1..], p, r[j]);
        }
      }
    }
  }

  lemma {:induction false} FilterInsert<T(!new)>(x: T, t: seq<T>, p: T -> bool, le: (T, T) -> bool)
    requires TotalPreorder(le) && SortedBy(t, le)
    ensures Filter(Insert(x, t, le), p) == if p(x) then Insert(x, Filter(t, p), le) else Filter(t, p)
  {
    if t == [] {
    } else if le(x, t[0]) {
      assert Insert(x, t, le) == [x] + t;
      assert ([x] + t)[1..] == t;
      if p(x) {
        var f := Filter(t, p);
        if f != [] {
          FilterMembers(t, p, f[0]);
          assert f[0] in t;
          assert le(t[0], f[0]) by {
            var k :| 0 <= k < |t| && t[k] == f[0];
            assert k == 0 || le(t[0], t[k]);
          }
        }
      }
    } else {
      assert t[1..] == t[1..];
      FilterInsert(x, t[1..], p, le);
      assert Insert(x, t, le) == [t[0]] + Insert(x, t[1..], le);
      assert ([t[0]] + Insert(x, t[1..], le))[1..] == Insert(x, t[1..], le);
      assert SortedBy(t[1..], le);
    }
  }

  /** Filtering a sorted sequence gives the same as sorting the filtered sequence: it does not
      matter whether a selection is made before or after a stable sort. */
  lemma {:induction false} FilterSort<T(!new)>(s: seq<T>, p: T -> bool, le: (T, T) -> bool)
    requires TotalPreorder(le)
    ensures Filter(Sort(s, le), p) == Sort(Filter(s, p), le)
  {
    if s != [] {
      FilterSort(s[1..], p, le);
      SortSorted(s[1..], le);
      FilterInsert(s[0], Sort(s[1..], le), p, le);
    }
  }

  /** Two filters in a row select what one filter by their conjunction selects. */
  lemma {:induction false} FilterFilter<T>(s: seq<T>, f: T -> bool, g: T -> bool, h: T -> bool)
    requires forall x :: x in s ==> h(x) == (f(x) && g(x))
    ensures Filter(Filter(s, f), g) == Filter(s, h)
  {
    if s != [] {
      FilterFilter(s[1..], f, g, h);
      FilterAppend([s[0]], Filter(s[1..], f), g);
      assert s[0] in s;
    }
  }

  /** Filtering by two predicates that agree on `s` selects the same elements. */
  lemma {:induction false} FilterCongruent<T>(s: seq<T>, f: T -> bool, g: T -> bool)
    requires forall x :: x in s ==> f(x) == g(x)
    ensures Filter(s, f) == Filter(s, g)
  {
    if s != [] {
      assert s[0] in s;
      FilterCongruent(s[1..], f, g);
    }
  }

  lemma {:induction false} FilterAppend<T>(a: seq<T>, b: seq<T>, p: T -> bool)
    ensures Filter(a + b, p) == Filter(a, p) + Filter(b, p)
  {
    if a != [] {
      assert (a + b)[0] == a[0];
      assert (a + b)[1..] == a[1..] + b;
      FilterAppend(a[1..], b, p);
    } else {
      assert a + b == b;
    }
  }

  /** A predicate and its complement split `s`: each element lands in exactly one part. */
  lemma {:induction false} FilterComplement<T>(s: seq<T>, p: T -> bool, q: T -> bool)
    requires forall x :: x in s ==> q(x) == !p(x)
    ensures multiset(Filter(s, p)) + multiset(Filter(s, q)) == multiset(s)
  {
    if s != [] {
      assert s[0] in s;
      FilterComplement(s[1..], p, q);
      assert s == [s[0]] + s[1..];
    }
  }

  /** Filtering by a predicate all elements satisfy changes nothing. */
  lemma {:induction false} FilterAll<T>(s: seq<T>, p: T -> bool)
    requires forall x :: x in s ==> p(x)
    ensures Filter(s, p) == s
  {
    if s != [] {
      assert s[0] in s;
      FilterAll(s[1..], p);
      assert s == [s[0]] + s[1..];
    }
  }

  /** Filtering by a predicate no element satisfies leaves nothing. */
  /** Filtering keeps at most the copies the sequence holds. */
  lemma {:induction false} FilterSubMultiset<T>(s: seq<T>, p: T -> bool)
    ensures multiset(Filter(s, p)) <= multiset(s)
  {
    if s != [] {
      FilterSubMultiset(s[1..], p);
      assert s == [s[0]] + s[1..];
    }
  }

  lemma {:induction false} FilterNone<T>(s: seq<T>, p: T -> bool)
    requires forall x :: x in s ==> !p(x)
    ensures Filter(s, p) == []
  {
    if s != [] {
      assert s[0] in s;
      FilterNone(s[1..], p);
    }
  }
}
