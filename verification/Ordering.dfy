/** Sorting with a comparison, and the order `strings.Compare` and `slices.Sort` use on strings. */
module Ordering {

  ghost predicate TotalOrder<T(!new)>(le: (T, T) -> bool) {
    && (forall x, y :: le(x, y) || le(y, x))
    && (forall x, y, z :: le(x, y) && le(y, z) ==> le(x, z))
  }

  ghost predicate AntiSymmetric<T(!new)>(le: (T, T) -> bool) {
    forall x, y :: le(x, y) && le(y, x) ==> x == y
  }

  ghost predicate Sorted<T>(s: seq<T>, le: (T, T) -> bool) {
    forall i, j :: 0 <= i < j < |s| ==> le(s[i], s[j])
  }

  function Insert<T>(x: T, s: seq<T>, le: (T, T) -> bool): (r: seq<T>) {
    if s == [] then [x]
    else if le(x, s[0]) then [x] + s
    else [s[0]] + Insert(x, s[1..], le)
  }

  function Sort<T>(s: seq<T>, le: (T, T) -> bool): (r: seq<T>) {
    if s == [] then [] else Insert(s[0], Sort(s[1..], le), le)
  }

  lemma {:induction false} InsertPermutes<T>(x: T, s: seq<T>, le: (T, T) -> bool)
    ensures multiset(Insert(x, s, le)) == multiset([x] + s)
  {
    if s != [] && !le(x, s[0]) {
      InsertPermutes(x, s[1..], le);
      assert s == [s[0]] + s[1..];
    }
  }

  lemma {:induction false} SortPermutes<T>(s: seq<T>, le: (T, T) -> bool)
    ensures multiset(Sort(s, le)) == multiset(s)
  {
    if s != [] {
      SortPermutes(s[1..], le);
      InsertPermutes(s[0], Sort(s[1..], le), le);
      assert s == [s[0]] + s[1..];
    }
  }

  lemma {:induction false} InsertSorts<T(!new)>(x: T, s: seq<T>, le: (T, T) -> bool)
    requires TotalOrder(le) && Sorted(s, le)
    ensures Sorted(Insert(x, s, le), le)
  {
    if s != [] && !le(x, s[0]) {
      InsertSorts(x, s[1..], le);
      InsertPermutes(x, s[1..], le);
      var r := Insert(x, s[1..], le);
      forall i | 0 <= i < |r|
        ensures le(s[0], r[i])
      {
        assert r[i] in multiset(r);
        assert r[i] in multiset([x] + s[1..]);
      }
    } else if s != [] {
      forall i | 0 <= i < |s|
        ensures le(x, s[i])
      {
        assert i > 0 ==> le(s[0], s[i]);
      }
    }
  }

  lemma {:induction false} SortSorts<T(!new)>(s: seq<T>, le: (T, T) -> bool)
    requires TotalOrder(le)
    ensures Sorted(Sort(s, le), le)
  {
    if s != [] {
      SortSorts(s[1..], le);
      InsertSorts(s[0], Sort(s[1..], le), le);
    }
  }

  /** A sorted arrangement is unique when the order tells all elements apart. */
  lemma {:induction false} SortedUnique<T(!new)>(a: seq<T>, b: seq<T>, le: (T, T) -> bool)
    requires TotalOrder(le) && AntiSymmetric(le) && Sorted(a, le) && Sorted(b, le) && multiset(a) == multiset(b)
    ensures a == b
  {
    assert |a| == |multiset(a)| == |multiset(b)| == |b|;
    if a != [] {
      FirstIsLeast(a, b, le);
      FirstIsLeast(b, a, le);
      assert a == [a[0]] + a[1..] && b == [b[0]] + b[1..];
      assert multiset(a[1..]) == multiset(a) - multiset{a[0]};
      assert multiset(b[1..]) == multiset(b) - multiset{b[0]};
      SortedUnique(a[1..], b[1..], le);
    }
  }

  lemma {:induction false} FirstIsLeast<T(!new)>(a: seq<T>, b: seq<T>, le: (T, T) -> bool)
    requires TotalOrder(le) && Sorted(a, le) && multiset(a) == multiset(b) && a != [] && b != []
    ensures le(a[0], b[0])
  {
    assert b[0] in multiset(b);
    assert b[0] in multiset(a);
    var i :| 0 <= i < |a| && a[i] == b[0];
    assert le(a[0], a[0]);
  }

  /** Sorting forgets the order of the input. */
  lemma {:induction false} SortOfPermutation<T(!new)>(a: seq<T>, b: seq<T>, le: (T, T) -> bool)
    requires TotalOrder(le) && AntiSymmetric(le) && multiset(a) == multiset(b)
    ensures Sort(a, le) == Sort(b, le)
  {
    SortPermutes(a, le);
    SortPermutes(b, le);
    SortSorts(a, le);
    SortSorts(b, le);
    SortedUnique(Sort(a, le), Sort(b, le), le);
  }

  // ---------- sequences without repetition ----------

  predicate Distinct<T(==)>(s: seq<T>) {
    forall i, j :: 0 <= i < j < |s| ==> s[i] != s[j]
  }

  lemma {:induction false} DistinctCounts<T>(s: seq<T>, t: T)
    requires Distinct(s)
    ensures multiset(s)[t] <= 1
  {
    if s != [] {
      DistinctCounts(s[1..], t);
      assert s == [s[0]] + s[1..];
      if t == s[0] {
        assert t !in s[1..];
        assert t !in multiset(s[1..]);
      }
    }
  }

  lemma {:induction false} PermutationKeepsDistinct<T>(a: seq<T>, b: seq<T>)
    requires Distinct(a) && multiset(a) == multiset(b)
    ensures Distinct(b)
  {
    forall i, j | 0 <= i < j < |b|
      ensures b[i] != b[j]
    {
      DistinctCounts(a, b[j]);
      assert b == b[..j] + b[j..];
      assert b[i] in b[..j] && b[j] in b[j..];
      assert multiset(b)[b[j]] == multiset(b[..j])[b[j]] + multiset(b[j..])[b[j]];
      assert b[i] in multiset(b[..j]) && b[j] in multiset(b[j..]);
    }
  }

  // ---------- strings ----------

  predicate StringLeq(a: string, b: string) {
    if a == "" then true
    else if b == "" then false
    else if a[0] != b[0] then a[0] < b[0]
    else StringLeq(a[1..], b[1..])
  }

  lemma {:induction false} StringLeqTotal(a: string, b: string)
    ensures StringLeq(a, b) || StringLeq(b, a)
  {
    if a != "" && b != "" && a[0] == b[0] {
      StringLeqTotal(a[1..], b[1..]);
    }
  }

  lemma {:induction false} StringLeqAntiSymmetric(a: string, b: string)
    requires StringLeq(a, b) && StringLeq(b, a)
    ensures a == b
  {
    if a != "" && b != "" {
      StringLeqAntiSymmetric(a[1..], b[1..]);
      assert a == [a[0]] + a[1..] && b == [b[0]] + b[1..];
    }
  }

  lemma {:induction false} StringLeqTransitive(a: string, b: string, c: string)
    requires StringLeq(a, b) && StringLeq(b, c)
    ensures StringLeq(a, c)
  {
    if a != "" && a[0] == b[0] == c[0] {
      StringLeqTransitive(a[1..], b[1..], c[1..]);
    }
  }

  lemma {:induction false} StringOrder()
    ensures TotalOrder(StringLeq) && AntiSymmetric(StringLeq)
  {
    forall x, y
      ensures StringLeq(x, y) || StringLeq(y, x)
      ensures StringLeq(x, y) && StringLeq(y, x) ==> x == y
    {
      StringLeqTotal(x, y);
      if StringLeq(x, y) && StringLeq(y, x) {
        StringLeqAntiSymmetric(x, y);
      }
    }
    forall x, y, z | StringLeq(x, y) && StringLeq(y, z)
      ensures StringLeq(x, z)
    {
      StringLeqTransitive(x, y, z);
    }
  }

  /** The first difference decides, and a beginning comes before the whole. */
  lemma {:induction false} FirstDifference(front: string, x: char, a: string, y: char, b: string)
    ensures x != y ==> (StringLeq(front + [x] + a, front + [y] + b) <==> x < y)
    ensures StringLeq(front, front + a)
  {
    if front == "" {
      assert "" + [x] + a == [x] + a && "" + [y] + b == [y] + b;
    } else {
      assert (front + [x] + a)[1..] == front[1..] + [x] + a && (front + [y] + b)[1..] == front[1..] + [y] + b;
      assert (front + a)[1..] == front[1..] + a;
      FirstDifference(front[1..], x, a, y, b);
    }
  }
}
