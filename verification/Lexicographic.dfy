/** Python's ordering of strings and of tuples of strings. */
module Lexicographic {
  import opened Sorting

  predicate LexLeq<T(==)>(a: seq<T>, b: seq<T>, leq: (T, T) -> bool)
  {
    if a == [] then true
    else if b == [] then false
    else if a[0] == b[0] then LexLeq(a[1..], b[1..], leq)
    else leq(a[0], b[0])
  }

  ghost predicate Antisymmetric<T(!new)>(leq: (T, T) -> bool)
  {
    forall a, b :: leq(a, b) && leq(b, a) ==> a == b
  }

  lemma {:induction false} LexTotal<T(!new)>(a: seq<T>, b: seq<T>, leq: (T, T) -> bool)
    requires TotalPreorder(leq)
    ensures LexLeq(a, b, leq) || LexLeq(b, a, leq)
  {
    if a != [] && b != [] && a[0] == b[0] {
      LexTotal(a[1..], b[1..], leq);
    }
  }

  lemma {:induction false} LexTransitive<T(!new)>(a: seq<T>, b: seq<T>, c: seq<T>, leq: (T, T) -> bool)
    requires TotalPreorder(leq) && Antisymmetric(leq)
    requires LexLeq(a, b, leq) && LexLeq(b, c, leq)
    ensures LexLeq(a, c, leq)
  {
    if a != [] && a[0] == b[0] == c[0] {
      LexTransitive(a[1..], b[1..], c[1..], leq);
    }
  }

  lemma {:induction false} LexAntisymmetric<T(!new)>(a: seq<T>, b: seq<T>, leq: (T, T) -> bool)
    requires TotalPreorder(leq) && Antisymmetric(leq)
    requires LexLeq(a, b, leq) && LexLeq(b, a, leq)
    ensures a == b
  {
    if a != [] && b != [] {
      LexAntisymmetric(a[1..], b[1..], leq);
      assert a == [a[0]] + a[1..] && b == [b[0]] + b[1..];
    }
  }

  predicate CharLeq(a: char, b: char)
  {
    a <= b
  }

  predicate StringLeq(a: string, b: string)
  {
    LexLeq(a, b, CharLeq)
  }

  predicate StringsLeq(a: seq<string>, b: seq<string>)
  {
    LexLeq(a, b, StringLeq)
  }

  lemma StringOrder()
    ensures TotalPreorder(StringLeq) && Antisymmetric(StringLeq)
  {
    forall a, b ensures StringLeq(a, b) || StringLeq(b, a) { LexTotal(a, b, CharLeq); }
    forall a, b, c | StringLeq(a, b) && StringLeq(b, c) ensures StringLeq(a, c) { LexTransitive(a, b, c, CharLeq); }
    forall a, b | StringLeq(a, b) && StringLeq(b, a) ensures a == b { LexAntisymmetric(a, b, CharLeq); }
  }

  lemma StringsOrder()
    ensures TotalPreorder(StringsLeq) && Antisymmetric(StringsLeq)
  {
    StringOrder();
    forall a, b ensures StringsLeq(a, b) || StringsLeq(b, a) { LexTotal(a, b, StringLeq); }
    forall a, b, c | StringsLeq(a, b) && StringsLeq(b, c) ensures StringsLeq(a, c) {
      LexTransitive(a, b, c, StringLeq);
    }
    forall a, b | StringsLeq(a, b) && StringsLeq(b, a) ensures a == b { LexAntisymmetric(a, b, StringLeq); }
  }
}
