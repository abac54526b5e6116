/** Stable sorting over an order given as a value, as the source's `sorted(..., key=...)` calls
    and SQL `ORDER BY` clauses use it, and the two uniqueness facts every module rests on. */
module Sorting {

  ghost predicate TotalPreorder<T(!new)>(leq: (T, T) -> bool)
  {
    && (forall a, b :: leq(a, b) || leq(b, a))
    && (forall a, b, c :: leq(a, b) && leq(b, c) ==> leq(a, c))
  }

  ghost predicate Sorted<T>(s: seq<T>, leq: (T, T) -> bool)
  {
    forall i, j :: 0 <= i < j < |s| ==> leq(s[i], s[j])
  }

  /** No two members of `s` tie without being the same value. */
  ghost predicate KeysIdentify<T>(s: seq<T>, leq: (T, T) -> bool)
  {
    forall x, y :: x in s && y in s && leq(x, y) && leq(y, x) ==> x == y
  }

  function Insert<T>(x: T, s: seq<T>, leq: (T, T) -> bool): (r: seq<T>)
    ensures multiset(r) == multiset([x] + s)
  {
    if s == [] || leq(x, s[0]) then
      [x] + s
    else
      assert s == [s[0]] + s[1..];
      [s[0]] + Insert(x, s[1..], leq)
  }

  /** Insertion sort from the right: equal elements keep their input order. */
  function Sort<T>(s: seq<T>, leq: (T, T) -> bool): (r: seq<T>)
    ensures multiset(r) == multiset(s)
    ensures |r| == |s|
  {
    if s == [] then []
    else
      assert s == [s[0]] + s[1..];
      var r := Insert(s[0], Sort(s[1..], leq), leq);
      assert multiset(r) == multiset(s);
      MultisetLength(r, s);
      r
  }

  lemma MultisetLength<T>(a: seq<T>, b: seq<T>)
    requires multiset(a) == multiset(b)
    ensures |a| == |b|
  {
    assert |multiset(a)| == |a| && |multiset(b)| == |b|;
  }

  lemma SameMembers<T>(a: seq<T>, b: seq<T>)
    requires multiset(a) == multiset(b)
    ensures forall x :: x in a <==> x in b
  {
    assert forall x :: x in a <==> x in multiset(a);
    assert forall x :: x in b <==> x in multiset(b);
  }

  lemma SortMembers<T>(s: seq<T>, leq: (T, T) -> bool)
    ensures forall x :: x in s <==> x in Sort(s, leq)
  {
    SameMembers(s, Sort(s, leq));
  }

  lemma {:induction false} InsertSorted<T(!new)>(x: T, s: seq<T>, leq: (T, T) -> bool)
    requires TotalPreorder(leq) && Sorted(s, leq)
    ensures Sorted(Insert(x, s, leq), leq)
  {
    if s == [] || leq(x, s[0]) {
      assert Insert(x, s, leq) == [x] + s;
    } else {
      var r := Insert(x, s[1..], leq);
      InsertSorted(x, s[1..], leq);
      SameMembers(r, [x] + s[1..]);
      assert Insert(x, s, leq) == [s[0]] + r;
      forall i, j | 0 <= i < j < |r| + 1
        ensures leq(([s[0]] + r)[i], ([s[0]] + r)[j])
      {
        if i == 0 {
          assert r[j - 1] in r;
          assert r[j - 1] in [x] + s[1..];
        }
      }
    }
  }

  lemma {:induction false} SortSorted<T(!new)>(s: seq<T>, leq: (T, T) -> bool)
    requires TotalPreorder(leq)
    ensures Sorted(Sort(s, leq), leq)
  {
    if s != [] {
      SortSorted(s[1..], leq);
      InsertSorted(s[0], Sort(s[1..], leq), leq);
    }
  }

  lemma SameTails<T>(a: seq<T>, b: seq<T>)
    requires a != [] && b != [] && a[0] == b[0] && multiset(a) == multiset(b)
    ensures multiset(a[1..]) == multiset(b[1..])
  {
    assert a == [a[0]] + a[1..] && b == [b[0]] + b[1..];
    assert multiset(a[1..]) == multiset(a) - multiset{a[0]};
    assert multiset(b[1..]) == multiset(b) - multiset{b[0]};
  }

  lemma SameHeads<T(!new)>(a: seq<T>, b: seq<T>, leq: (T, T) -> bool)
    requires TotalPreorder(leq) && Sorted(a, leq) && Sorted(b, leq)
    requires a != [] && b != [] && (forall x :: x in a <==> x in b) && KeysIdentify(a, leq)
    ensures a[0] == b[0]
  {
    assert a[0] in a && b[0] in b;
    var i :| 0 <= i < |a| && a[i] == b[0];
    var j :| 0 <= j < |b| && b[j] == a[0];
    assert leq(a[0], a[i]) && leq(b[0], b[j]);
  }

  /** Two sorted arrangements of the same elements are equal when ties are identical. */
  lemma {:induction false} SortedUnique<T(!new)>(a: seq<T>, b: seq<T>, leq: (T, T) -> bool)
    requires TotalPreorder(leq) && Sorted(a, leq) && Sorted(b, leq)
    requires multiset(a) == multiset(b) && KeysIdentify(a, leq)
    ensures a == b
  {
    MultisetLength(a, b);
    if a != [] {
      SameMembers(a, b);
      SameHeads(a, b, leq);
      SameTails(a, b);
      SortedUnique(a[1..], b[1..], leq);
      assert a == [a[0]] + a[1..] && b == [b[0]] + b[1..];
    }
  }

  /** Sorting forgets the input order exactly when ties are identical. */
  lemma SortPermutation<T(!new)>(a: seq<T>, b: seq<T>, leq: (T, T) -> bool)
    requires TotalPreorder(leq) && multiset(a) == multiset(b) && KeysIdentify(a, leq)
    ensures Sort(a, leq) == Sort(b, leq)
  {
    SortSorted(a, leq);
    SortSorted(b, leq);
    SortMembers(a, leq);
    SortedUnique(Sort(a, leq), Sort(b, leq), leq);
  }

  /** A sorted duplicate-free sequence is determined by its set of members. */
  lemma {:induction false} StrictUnique<T(!new)>(a: seq<T>, b: seq<T>, leq: (T, T) -> bool)
    requires Sorted(a, leq) && Sorted(b, leq) && KeysIdentify(a, leq)
    requires forall i, j :: 0 <= i < j < |a| ==> a[i] != a[j]
    requires forall i, j :: 0 <= i < j < |b| ==> b[i] != b[j]
    requires forall x :: x in a <==> x in b
    ensures a == b
  {
    assert |a| > 0 ==> a[0] in a;
    assert |b| > 0 ==> b[0] in b;
    if a != [] {
      assert a[0] == b[0];
      forall x ensures x in a[1..] <==> x in b[1..] {
        assert x in a[1..] <==> x in a && x != a[0];
        assert x in b[1..] <==> x in b && x != b[0];
      }
      StrictUnique(a[1..], b[1..], leq);
    }
  }

  ghost predicate CompareAlike<T(!new)>(s: seq<T>, leq: (T, T) -> bool, leq': (T, T) -> bool)
  {
    forall x, y :: x in s && y in s ==> (leq(x, y) <==> leq'(x, y))
  }

  /** An arrangement sorted under two orders without ties tells them to compare alike. */
  lemma SortedTwiceAlike<T(!new)>(a: seq<T>, leq: (T, T) -> bool, leq': (T, T) -> bool)
    requires Sorted(a, leq) && Sorted(a, leq') && KeysIdentify(a, leq) && KeysIdentify(a, leq')
    requires TotalPreorder(leq) && TotalPreorder(leq')
    ensures CompareAlike(a, leq, leq')
  {
    forall x, y | x in a && y in a ensures leq(x, y) <==> leq'(x, y) {
      var i :| 0 <= i < |a| && a[i] == x;
      var j :| 0 <= j < |a| && a[j] == y;
      if i < j {
        assert leq(x, y) && leq'(x, y);
      } else if j < i {
        assert leq(y, x) && leq'(y, x);
      }
    }
  }

  lemma AlikeIsSorted<T(!new)>(b: seq<T>, leq: (T, T) -> bool, leq': (T, T) -> bool)
    requires Sorted(b, leq') && CompareAlike(b, leq, leq')
    ensures Sorted(b, leq)
  {
    forall i, j | 0 <= i < j < |b| ensures leq(b[i], b[j]) {
      assert b[i] in b && b[j] in b;
    }
  }

  lemma AlikeSorts<T(!new)>(s: seq<T>, leq: (T, T) -> bool, leq': (T, T) -> bool)
    requires TotalPreorder(leq) && TotalPreorder(leq') && KeysIdentify(s, leq) && CompareAlike(s, leq, leq')
    ensures Sort(s, leq) == Sort(s, leq')
  {
    SortSorted(s, leq);
    SortSorted(s, leq');
    SortMembers(s, leq);
    SortMembers(s, leq');
    AlikeIsSorted(Sort(s, leq'), leq, leq');
    SortedUnique(Sort(s, leq), Sort(s, leq'), leq);
  }

  /** Two orders without ties sort a sequence alike exactly when they compare its members alike. */
  lemma SortsAgreeIff<T(!new)>(s: seq<T>, leq: (T, T) -> bool, leq': (T, T) -> bool)
    requires TotalPreorder(leq) && TotalPreorder(leq') && KeysIdentify(s, leq) && KeysIdentify(s, leq')
    ensures Sort(s, leq) == Sort(s, leq') <==> CompareAlike(s, leq, leq')
  {
    if Sort(s, leq) == Sort(s, leq') {
      SortSorted(s, leq);
      SortSorted(s, leq');
      SortMembers(s, leq);
      SortedTwiceAlike(Sort(s, leq), leq, leq');
    }
    if CompareAlike(s, leq, leq') {
      AlikeSorts(s, leq, leq');
    }
  }
}
