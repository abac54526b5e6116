/** Binary nDCG (recommendation_api/app/metrics.py, ai_pipeline/evaluate.py): three implementations over
    an abstract discount, and pairwise AUC. */
module Ndcg {
  import opened Collections
  import opened Options

  type Item = nat

  /** The weight of each 0-based rank; `1 / log2(rank + 2)` is one such discount. */
  type Discount = nat -> real

  ghost predicate Discounts(w: Discount)
  {
    (forall i: nat :: w(i) > 0.0) && (forall i: nat, j: nat :: i < j ==> w(i) > w(j))
  }

  /** The weights of the ranks that hold a hit. */
  function Gain(labels: seq<bool>, w: Discount): real
  {
    if labels == [] then 0.0
    else Gain(labels[..|labels| - 1], w) + if labels[|labels| - 1] then w(|labels| - 1) else 0.0
  }

  function Hits(labels: seq<bool>): (n: nat)
    ensures n <= |labels|
  {
    if labels == [] then 0
    else Hits(labels[..|labels| - 1]) + if labels[|labels| - 1] then 1 else 0
  }

  /** The gain of `n` hits at the first `n` ranks. */
  function Ideal(n: nat, w: Discount): real
  {
    if n == 0 then 0.0 else Ideal(n - 1, w) + w(n - 1)
  }

  /** Python's `s[:k]`, which counts a negative `k` from the end. */
  function Slice<T>(s: seq<T>, k: int): seq<T>
  {
    if k >= |s| then s else if k >= 0 then s[..k] else if -k <= |s| then s[..|s| + k] else []
  }

  function Labels(ranked: seq<Item>, relevant: set<Item>): (r: seq<bool>)
    ensures |r| == |ranked|
  {
    seq(|ranked|, i requires 0 <= i < |ranked| => ranked[i] in relevant)
  }

  // ---------------------------------------------------------------- the three implementations

  /** `ndcg_at_k`; None is a `ValueError`. */
  function NdcgAtK(ranked: seq<Item>, relevant: set<Item>, k: int, w: Discount): Option<real>
  {
    if k <= 0 then None
    else if relevant == {} then Some(0.0)
    else
      var ideal := Ideal(Smaller(k, |relevant|), w);
      Some(if ideal != 0.0 then Gain(Labels(Slice(ranked, k), relevant), w) / ideal else 0.0)
  }

  /** `_ndcg`; None is a `ZeroDivisionError`. */
  function NdcgOfSet(ranked: seq<Item>, relevant: set<Item>, k: int, w: Discount): Option<real>
  {
    if relevant == {} then Some(0.0)
    else
      var ideal := Ideal(Larger(0, Smaller(k, |relevant|)), w);
      if ideal == 0.0 then None else Some(Gain(Labels(Slice(ranked, k), relevant), w) / ideal)
  }

  /** `_ndcg_binary`. */
  function NdcgOfLabels(labels: seq<bool>, k: int, w: Discount): real
  {
    if Hits(labels) == 0 then 0.0
    else
      var ideal := Ideal(Larger(0, Smaller(k, Hits(labels))), w);
      if ideal != 0.0 then Gain(Slice(labels, k), w) / ideal else 0.0
  }

  // ---------------------------------------------------------------- gains

  lemma {:induction false} IdealPositive(n: nat, w: Discount)
    requires Discounts(w)
    ensures Ideal(n, w) >= 0.0 && (n > 0 ==> Ideal(n, w) > 0.0)
  {
    if n > 0 {
      IdealPositive(n - 1, w);
    }
  }

  lemma {:induction false} IdealGrows(m: nat, n: nat, w: Discount)
    requires Discounts(w) && m <= n
    ensures Ideal(m, w) <= Ideal(n, w) && (m < n ==> Ideal(m, w) < Ideal(n, w))
    decreases n
  {
    if m < n {
      IdealGrows(m, n - 1, w);
    }
  }

  /** All hits come before all misses. */
  ghost predicate HitsFirst(labels: seq<bool>)
  {
    forall i | 0 <= i < |labels| :: labels[i] <==> i < Hits(labels)
  }

  /** The ideal gain bounds the gain of as many hits anywhere, and only hits at the front reach it. */
  lemma {:induction false} GainBound(labels: seq<bool>, w: Discount)
    requires Discounts(w)
    ensures 0.0 <= Gain(labels, w) <= Ideal(Hits(labels), w)
    ensures Gain(labels, w) == Ideal(Hits(labels), w) <==> HitsFirst(labels)
    decreases |labels|
  {
    if labels != [] {
      var init, n := labels[..|labels| - 1], |labels| - 1;
      GainBound(init, w);
      FrontSnoc(labels);
      assert Hits(init) < n ==> w(Hits(init)) > w(n);
      assert labels[n] ==> Ideal(Hits(labels), w) == Ideal(Hits(init), w) + w(Hits(init));
    }
  }

  lemma FrontSnoc(labels: seq<bool>)
    requires labels != []
    ensures var init, n := labels[..|labels| - 1], |labels| - 1;
            HitsFirst(labels) <==> HitsFirst(init) && (labels[n] ==> Hits(init) == n)
  {
    var init, n := labels[..|labels| - 1], |labels| - 1;
    forall i | 0 <= i < n ensures init[i] == labels[i] {}
    if HitsFirst(labels) {
      if labels[n] {
        assert forall i | 0 <= i < n :: init[i] <==> i < Hits(labels);
        assert Hits(labels) == n + 1;
      }
      assert HitsFirst(init);
    }
    if HitsFirst(init) && (labels[n] ==> Hits(init) == n) {
      forall i | 0 <= i <= n ensures labels[i] <==> i < Hits(labels) {}
    }
  }

  // ---------------------------------------------------------------- distinct rankings

  function Found(ranked: seq<Item>, relevant: set<Item>): set<Item>
  {
    set item | item in ranked && item in relevant
  }

  lemma LabelsSnoc(ranked: seq<Item>, relevant: set<Item>)
    requires ranked != []
    ensures Labels(ranked, relevant)[..|ranked| - 1] == Labels(ranked[..|ranked| - 1], relevant)
  {
  }

  /** A distinct ranking hits each relevant item it holds once. */
  lemma {:induction false} HitsAreFound(ranked: seq<Item>, relevant: set<Item>)
    requires Distinct(ranked)
    ensures Hits(Labels(ranked, relevant)) == |Found(ranked, relevant)| <= |relevant|
    decreases |ranked|
  {
    if ranked != [] {
      var init, last := ranked[..|ranked| - 1], ranked[|ranked| - 1];
      HitsAreFound(init, relevant);
      LabelsSnoc(ranked, relevant);
      assert ranked == init + [last];
      assert Found(ranked, relevant) == Found(init, relevant) + (if last in relevant then {last} else {});
    }
    SubsetCount(Found(ranked, relevant), relevant);
  }

  lemma {:induction false} HitsOfPrefix(labels: seq<bool>, k: nat)
    requires k <= |labels|
    ensures Hits(labels[..k]) <= Hits(labels)
    ensures Hits(labels) - Hits(labels[..k]) <= |labels| - k
    decreases |labels|
  {
    if k < |labels| {
      HitsOfPrefix(labels[..|labels| - 1], k);
      assert labels[..|labels| - 1][..k] == labels[..k];
    } else {
      assert labels[..k] == labels;
    }
  }

  lemma SliceLabels(ranked: seq<Item>, relevant: set<Item>, k: int)
    ensures Labels(Slice(ranked, k), relevant) == Slice(Labels(ranked, relevant), k)
  {
  }

  // ---------------------------------------------------------------- what the score means

  /** The quotient of a gain by an ideal over at least as many hits. */
  lemma Normalised(labels: seq<bool>, n: nat, w: Discount)
    requires Discounts(w) && 0 < n && Hits(labels) <= n && Ideal(n, w) > 0.0
    ensures 0.0 <= Gain(labels, w) / Ideal(n, w) <= 1.0
    ensures Gain(labels, w) / Ideal(n, w) == 1.0 <==> Hits(labels) == n && HitsFirst(labels)
  {
    var gain, bound, ideal := Gain(labels, w), Ideal(Hits(labels), w), Ideal(n, w);
    GainBound(labels, w);
    IdealPositive(n, w);
    IdealGrows(Hits(labels), n, w);
    Quotient(gain, ideal);
  }

  lemma Quotient(a: real, b: real)
    requires 0.0 <= a <= b && b > 0.0
    ensures 0.0 <= a / b <= 1.0
    ensures a / b == 1.0 <==> a == b
  {
    assert a / b * b == a;
  }

  /** On a distinct ranking nDCG is a normalised score, and it is 1 exactly when the first
      `min(k, |relevant|)` ranks exist and are all hits. */
  lemma NdcgIsNormalised(ranked: seq<Item>, relevant: set<Item>, k: int, w: Discount)
    requires Discounts(w) && Distinct(ranked) && relevant != {} && k > 0
    ensures NdcgAtK(ranked, relevant, k, w).Some?
            && NdcgOfSet(ranked, relevant, k, w) == NdcgAtK(ranked, relevant, k, w)
    ensures 0.0 <= NdcgAtK(ranked, relevant, k, w).value <= 1.0
    ensures NdcgAtK(ranked, relevant, k, w).value == 1.0 <==> FrontAllHits(ranked, relevant, Smaller(k, |relevant|))
  {
    var n: nat := Smaller(k, |relevant|);
    var top := Slice(ranked, k);
    NotEmpty(relevant);
    HitsAreFound(top, relevant);
    IdealPositive(n, w);
    Normalised(Labels(top, relevant), n, w);
    FrontIff(ranked, relevant, k);
  }

  lemma NotEmpty(relevant: set<Item>)
    requires relevant != {}
    ensures |relevant| > 0
  {
  }

  ghost predicate FrontAllHits(ranked: seq<Item>, relevant: set<Item>, n: nat)
  {
    n <= |ranked| && forall i | 0 <= i < n :: ranked[i] in relevant
  }

  lemma FrontIff(ranked: seq<Item>, relevant: set<Item>, k: int)
    requires Distinct(ranked) && k > 0
    ensures var top, n := Labels(Slice(ranked, k), relevant), Smaller(k, |relevant|);
            Hits(top) == n && HitsFirst(top) <==> FrontAllHits(ranked, relevant, n)
  {
    var slice, n: nat := Slice(ranked, k), Smaller(k, |relevant|);
    var top := Labels(slice, relevant);
    HitsAreFound(slice, relevant);
    assert |slice| <= k && forall i | 0 <= i < |slice| :: slice[i] == ranked[i];
    FrontHits(top, n);
    if FrontAllHits(ranked, relevant, n) {
      assert forall i | 0 <= i < n :: top[i];
    }
    if n <= |top| && forall i | 0 <= i < n :: top[i] {
      forall i | 0 <= i < n ensures ranked[i] in relevant {
        assert top[i];
      }
    }
  }

  /** With at most `n` hits in all, they are `n` and come first exactly when the first `n` ranks hit. */
  lemma FrontHits(top: seq<bool>, n: nat)
    requires Hits(top) <= n
    ensures Hits(top) == n && HitsFirst(top) <==> n <= |top| && forall i | 0 <= i < n :: top[i]
  {
    if n <= |top| && forall i | 0 <= i < n :: top[i] {
      AllHits(top[..n]);
      HitsOfPrefix(top, n);
      forall i | n <= i < |top| ensures !top[i] {
        NoHitAfter(top, n, i);
      }
    }
  }

  lemma NoHitAfter(top: seq<bool>, n: nat, i: nat)
    requires n <= i < |top| && Hits(top) <= n == Hits(top[..n])
    ensures !top[i]
  {
    HitsSnoc(top, i);
    HitsOfPrefix(top[..i], n);
    assert top[..i][..n] == top[..n];
    HitsOfPrefix(top, i + 1);
  }

  lemma HitsSnoc(labels: seq<bool>, i: nat)
    requires i < |labels|
    ensures Hits(labels[..i + 1]) == Hits(labels[..i]) + if labels[i] then 1 else 0
  {
    assert labels[..i + 1][..i] == labels[..i];
  }

  lemma {:induction false} AllHits(labels: seq<bool>)
    requires forall i | 0 <= i < |labels| :: labels[i]
    ensures Hits(labels) == |labels|
    decreases |labels|
  {
    if labels != [] {
      AllHits(labels[..|labels| - 1]);
    }
  }

  /** The label form agrees with the set form on a distinct ranking exactly when nothing relevant is in
      the top `k`, or the ranking holds at least `k` relevant items or all of them. */
  lemma LabelsAgreeIff(ranked: seq<Item>, relevant: set<Item>, k: int, w: Discount)
    requires Discounts(w) && Distinct(ranked) && relevant != {} && k > 0
    ensures Some(NdcgOfLabels(Labels(ranked, relevant), k, w)) == NdcgAtK(ranked, relevant, k, w)
        <==> || Found(Slice(ranked, k), relevant) == {}
             || k <= |Found(ranked, relevant)|
             || relevant <= Found(ranked, relevant)
  {
    var labels, top := Labels(ranked, relevant), Slice(ranked, k);
    NotEmpty(relevant);
    SliceLabels(ranked, relevant, k);
    HitsAreFound(ranked, relevant);
    HitsAreFound(top, relevant);
    SubsetCount(Found(ranked, relevant), relevant);
    SliceHits(labels, k);
    LabelsAgree(labels, k, |relevant|, w);
    assert Hits(Slice(labels, k)) == 0 <==> Found(top, relevant) == {};
    if relevant <= Found(ranked, relevant) {
      SubsetCount(relevant, Found(ranked, relevant));
    }
    assert Hits(labels) == |relevant| <==> relevant <= Found(ranked, relevant);
    assert NdcgAtK(ranked, relevant, k, w) == Some(Gain(Slice(labels, k), w) / Ideal(Smaller(k, |relevant|), w));
  }

  lemma SliceHits(labels: seq<bool>, k: int)
    requires k > 0
    ensures Hits(Slice(labels, k)) <= Hits(labels)
  {
    if k < |labels| {
      HitsOfPrefix(labels, k);
    }
  }

  lemma LabelsAgree(labels: seq<bool>, k: int, size: nat, w: Discount)
    requires Discounts(w) && k > 0 && 0 < size && Hits(Slice(labels, k)) <= Hits(labels) <= size
    ensures Ideal(Smaller(k, size), w) > 0.0
    ensures NdcgOfLabels(labels, k, w) == Gain(Slice(labels, k), w) / Ideal(Smaller(k, size), w)
        <==> Hits(Slice(labels, k)) == 0 || k <= Hits(labels) || Hits(labels) == size
  {
    var gain, m: nat, n: nat := Gain(Slice(labels, k), w), Smaller(k, Hits(labels)), Smaller(k, size);
    GainZeroIff(Slice(labels, k), w);
    IdealPositive(n, w);
    if Hits(labels) > 0 {
      QuotientsAgree(gain, m, n, w);
    }
  }

  lemma QuotientsAgree(gain: real, m: nat, n: nat, w: Discount)
    requires Discounts(w) && gain >= 0.0 && 0 < m <= n
    ensures Ideal(m, w) > 0.0 && Ideal(n, w) > 0.0
    ensures gain / Ideal(m, w) == gain / Ideal(n, w) <==> gain == 0.0 || m == n
  {
    IdealPositive(m, w);
    IdealGrows(m, n, w);
    if gain > 0.0 {
      SameQuotient(gain, Ideal(m, w), Ideal(n, w));
    }
  }

  lemma SameQuotient(a: real, b: real, c: real)
    requires a > 0.0 && b > 0.0 && c > 0.0
    ensures a / b == a / c <==> b == c
  {
    assert a / b * b == a && a / c * c == a;
  }

  lemma {:induction false} GainZeroIff(labels: seq<bool>, w: Discount)
    requires Discounts(w)
    ensures Gain(labels, w) >= 0.0
    ensures Gain(labels, w) == 0.0 <==> Hits(labels) == 0
    decreases |labels|
  {
    if labels != [] {
      GainZeroIff(labels[..|labels| - 1], w);
    }
  }

  /** One of two relevant items found at the first rank: perfect by the labels, not by the set. */
  lemma LabelsMissAnItem(w: Discount)
    requires Discounts(w)
    ensures NdcgOfLabels(Labels([0], {0, 1}), 2, w) == 1.0
    ensures NdcgAtK([0], {0, 1}, 2, w).Some? && NdcgAtK([0], {0, 1}, 2, w).value < 1.0
  {
    var ranked: seq<Item>, relevant: set<Item> := [0], {0, 1};
    assert |relevant| == 2;
    OneHit(w);
    assert Labels(ranked, relevant) == [true];
    assert Ideal(2, w) == Ideal(1, w) + w(1);
    Quotient(w(0), w(0) + w(1));
  }

  lemma OneHit(w: Discount)
    requires Discounts(w)
    ensures Gain([true], w) == Ideal(1, w) == w(0) && Hits([true]) == 1
  {
    assert [true][..0] == [];
    assert Gain([], w) == 0.0 && Hits([]) == 0 && Ideal(0, w) == 0.0;
  }

  // ---------------------------------------------------------------- repeated items

  /** A relevant item ranked twice scores above 1, whatever the discount. */
  lemma RepeatExceeds(item: Item, w: Discount)
    requires Discounts(w)
    ensures NdcgAtK([item, item], {item}, 2, w).Some? && NdcgAtK([item, item], {item}, 2, w).value > 1.0
  {
    var ranked, relevant := [item, item], {item};
    OneHit(w);
    assert [true, true][..1] == [true];
    assert Labels(ranked, relevant) == [true, true];
    Above(w(0) + w(1), w(0));
  }

  lemma LateHits(w: Discount)
    ensures Gain([false, false, true, true], w) == w(2) + w(3) && Hits([false, false, true, true]) == 2
  {
    var labels := [false, false, true, true];
    assert labels[..3] == [false, false, true];
    assert [false, false, true][..2] == [false, false];
    assert [false, false][..1] == [false] && [false][..0] == [];
    assert Gain([], w) == 0.0 && Gain([false], w) == 0.0 && Gain([false, false], w) == 0.0;
    assert Hits([false]) == 0 && Hits([false, false]) == 0 && Hits([false, false, true]) == 1;
    assert Gain([false, false, true], w) == w(2);
  }

  /** Under `1 / log2(rank + 2)`, which is 1 at the first rank and 1/2 at the third, the same item ranked
      twice from the third rank on stays below 1: for one discount a bound on hits is enough, not needed. */
  lemma LateRepeatStaysBelow(item: Item, x: Item, y: Item, w: Discount)
    requires Discounts(w) && w(0) == 1.0 && w(2) == 0.5 && x != item && y != item
    ensures Hits(Labels([x, y, item, item], {item})) == 2
    ensures NdcgAtK([x, y, item, item], {item}, 4, w).Some? && NdcgAtK([x, y, item, item], {item}, 4, w).value < 1.0
  {
    assert Labels([x, y, item, item], {item}) == [false, false, true, true];
    LateHits(w);
    OneHit(w);
  }

  /** A discount that hardly falls: `1 + 1 / (size + rank)`. */
  function Flat(size: nat): Discount
    requires size > 0
  {
    (i: nat) => FlatAt(size, i)
  }

  function FlatAt(size: nat, i: nat): real
    requires size > 0
  {
    1.0 + 1.0 / ((size + i) as real)
  }

  lemma FlatFalls(size: nat, i: nat, j: nat)
    requires size > 0 && i < j
    ensures 1.0 < FlatAt(size, j) < FlatAt(size, i) <= 1.0 + 1.0 / (size as real)
  {
    Reciprocal((size + i) as real, (size + j) as real);
    Reciprocal(size as real, (size + i) as real);
  }

  lemma Reciprocal(a: real, b: real)
    requires 0.0 < a <= b
    ensures 0.0 < 1.0 / b <= 1.0 / a
    ensures a < b ==> 1.0 / b < 1.0 / a
  {
    var x, y := 1.0 / a, 1.0 / b;
    assert x * a == 1.0 && y * b == 1.0;
    assert (x - y) * (a * b) == (x * a) * b - (y * b) * a == b - a;
    SignOfFactor(x - y, a * b);
  }

  lemma SignOfFactor(p: real, q: real)
    requires q > 0.0
    ensures p * q >= 0.0 ==> p >= 0.0
    ensures p * q > 0.0 ==> p > 0.0
  {
  }

  lemma FlatDiscounts(size: nat)
    requires size > 0
    ensures Discounts(Flat(size))
  {
    forall i: nat ensures Flat(size)(i) > 0.0 {
      FlatFalls(size, i, i + 1);
    }
    forall i: nat, j: nat | i < j ensures Flat(size)(i) > Flat(size)(j) {
      FlatFalls(size, i, j);
    }
  }

  lemma {:induction false} FlatIdeal(size: nat, n: nat)
    requires 0 < size
    ensures Ideal(n, Flat(size)) <= n as real * (1.0 + 1.0 / (size as real))
  {
    if n > 0 {
      FlatIdeal(size, n - 1);
      FlatFalls(size, n - 1, n);
    }
  }

  lemma {:induction false} FlatGain(labels: seq<bool>, size: nat)
    requires 0 < size
    ensures Gain(labels, Flat(size)) >= Hits(labels) as real
    ensures Hits(labels) > 0 ==> Gain(labels, Flat(size)) > Hits(labels) as real
    decreases |labels|
  {
    if labels != [] {
      FlatGain(labels[..|labels| - 1], size);
      FlatFalls(size, |labels| - 1, |labels|);
    }
  }

  /** Without distinctness: the score stays within 1 under every discount exactly when the top `k` does
      not hit more often than there are relevant items. */
  lemma BoundedIff(ranked: seq<Item>, relevant: set<Item>, k: int)
    requires relevant != {} && k > 0
    ensures (forall w | Discounts(w) :: AtMostOne(NdcgAtK(ranked, relevant, k, w)))
        <==> Hits(Labels(Slice(ranked, k), relevant)) <= |relevant|
  {
    var top, n: nat := Labels(Slice(ranked, k), relevant), Smaller(k, |relevant|);
    NotEmpty(relevant);
    if Hits(top) <= |relevant| {
      forall w | Discounts(w) ensures AtMostOne(NdcgAtK(ranked, relevant, k, w)) {
        IdealPositive(n, w);
        Normalised(top, n, w);
      }
    } else {
      FlatDiscounts(|relevant|);
      Exceeds(top, |relevant|);
      assert !AtMostOne(NdcgAtK(ranked, relevant, k, Flat(|relevant|)));
    }
  }

  predicate AtMostOne(score: Option<real>)
  {
    score.Some? && score.value <= 1.0
  }

  lemma Exceeds(top: seq<bool>, size: nat)
    requires Hits(top) > size > 0
    ensures Ideal(size, Flat(size)) > 0.0 && Gain(top, Flat(size)) / Ideal(size, Flat(size)) > 1.0
  {
    FlatGain(top, size);
    FlatIdeal(size, size);
    FlatDiscounts(size);
    IdealPositive(size, Flat(size));
    OneMore(size as real);
    Above(Gain(top, Flat(size)), Ideal(size, Flat(size)));
  }

  lemma OneMore(x: real)
    requires x > 0.0
    ensures x * (1.0 + 1.0 / x) == x + 1.0
  {
  }

  lemma Above(a: real, b: real)
    requires a > b > 0.0
    ensures a / b > 1.0
  {
    assert a / b * b == a;
    SignOfFactor(a / b - 1.0, b);
  }

  // ---------------------------------------------------------------- the edges

  /** Without relevant items every form is 0; a cut that is not positive is an error for the first form, and
      for the second as soon as something is relevant. */
  lemma Edges(ranked: seq<Item>, relevant: set<Item>, k: int, w: Discount)
    requires Discounts(w)
    ensures NdcgAtK(ranked, relevant, k, w) == None <==> k < 1
    ensures relevant == {} && k >= 1 ==> NdcgAtK(ranked, relevant, k, w) == Some(0.0)
    ensures relevant == {} ==> NdcgOfSet(ranked, relevant, k, w) == Some(0.0)
    ensures NdcgOfSet(ranked, relevant, k, w) == None <==> relevant != {} && k < 1
    ensures forall labels :: true !in labels || k < 1 ==> NdcgOfLabels(labels, k, w) == 0.0
  {
    if relevant != {} {
      NotEmpty(relevant);
    }
    IdealPositive(Larger(0, Smaller(k, |relevant|)), w);
    forall labels | true !in labels || k < 1 ensures NdcgOfLabels(labels, k, w) == 0.0 {
      if true !in labels {
        NoHits(labels);
      }
    }
  }

  lemma {:induction false} NoHits(labels: seq<bool>)
    requires true !in labels
    ensures Hits(labels) == 0
    decreases |labels|
  {
    if labels != [] {
      NoHits(labels[..|labels| - 1]);
    }
  }

}
