/** Pairwise AUC (recommendation_api/app/metrics.py, ai_pipeline/evaluate.py). */
module Auc {
  import opened Options

  function Credit(positive: real, negative: real): real
  {
    if positive > negative then 1.0 else if positive == negative then 0.5 else 0.0
  }

  function Row(positive: real, negatives: seq<real>): real
  {
    if negatives == [] then 0.0 else Credit(positive, negatives[0]) + Row(positive, negatives[1..])
  }

  /** The credit over all pairs. */
  function Total(positives: seq<real>, negatives: seq<real>): real
  {
    if positives == [] then 0.0 else Row(positives[0], negatives) + Total(positives[1..], negatives)
  }

  /** The scores whose label satisfies a test, in order. */
  function Chosen(pairs: seq<(real, int)>, test: int -> bool): (r: seq<real>)
    ensures |r| <= |pairs|
  {
    if pairs == [] then []
    else (if test(pairs[0].1) then [pairs[0].0] else []) + Chosen(pairs[1..], test)
  }

  function Ratio(positives: seq<real>, negatives: seq<real>): Option<real>
  {
    if positives == [] || negatives == [] then None
    else Some(Total(positives, negatives) / (|positives| * |negatives|) as real)
  }

  /** `_pairwise_auc`: a label counts as positive when it is not zero. */
  function PairwiseAuc(pairs: seq<(real, int)>): Option<real>
  {
    Ratio(Chosen(pairs, y => y != 0), Chosen(pairs, y => y == 0))
  }

  datatype Answer = ValueError | Value(auc: Option<real>)

  function Zip(scores: seq<real>, labels: seq<int>): seq<(real, int)>
    requires |scores| == |labels|
  {
    seq(|scores|, i requires 0 <= i < |scores| => (scores[i], labels[i]))
  }

  /** `impression_auc` refuses unequal lengths and labels other than 0 and 1. */
  function ImpressionAuc(scores: seq<real>, labels: seq<int>): Answer
  {
    if |scores| != |labels| || exists y :: y in labels && y != 0 && y != 1 then ValueError
    else
      var pairs := Zip(scores, labels);
      Value(Ratio(Chosen(pairs, y => y == 1), Chosen(pairs, y => y == 0)))
  }

  // ---------------------------------------------------------------- sums over pairs

  lemma {:induction false} TotalSplit(positives: seq<real>, head: real, rest: seq<real>)
    ensures Total(positives, [head] + rest) == Total(positives, [head]) + Total(positives, rest)
    decreases |positives|
  {
    if positives != [] {
      TotalSplit(positives[1..], head, rest);
      assert ([head] + rest)[1..] == rest;
      assert Row(positives[0], [head]) == Credit(positives[0], head);
    }
  }

  lemma {:induction false} RowAndColumn(x: real, s: seq<real>)
    ensures Row(x, s) + Total(s, [x]) == |s| as real
    decreases |s|
  {
    if s != [] {
      RowAndColumn(x, s[1..]);
      assert Row(s[0], [x]) == Credit(s[0], x);
    }
  }

  /** Each pair's two credits add to one. */
  lemma {:induction false} CreditsAdd(a: seq<real>, b: seq<real>)
    ensures Total(a, b) + Total(b, a) == |a| as real * |b| as real
    decreases |a|
  {
    if a == [] {
      NoColumns(b);
    } else {
      assert a == [a[0]] + a[1..];
      TotalSplit(b, a[0], a[1..]);
      RowAndColumn(a[0], b);
      CreditsAdd(a[1..], b);
      assert |a| as real * |b| as real == |a[1..]| as real * |b| as real + |b| as real;
    }
  }

  lemma {:induction false} NoColumns(s: seq<real>)
    ensures Total(s, []) == 0.0
    decreases |s|
  {
    if s != [] {
      NoColumns(s[1..]);
    }
  }

  ghost predicate AllBelow(a: seq<real>, b: seq<real>)
  {
    forall x, y | x in a && y in b :: x < y
  }

  lemma {:induction false} RowZeroIff(x: real, s: seq<real>)
    ensures Row(x, s) >= 0.0
    ensures Row(x, s) == 0.0 <==> forall y | y in s :: x < y
    decreases |s|
  {
    if s != [] {
      RowZeroIff(x, s[1..]);
      assert s[0] in s && forall y :: y in s <==> y == s[0] || y in s[1..];
    }
  }

  lemma {:induction false} TotalZeroIff(a: seq<real>, b: seq<real>)
    ensures Total(a, b) >= 0.0
    ensures Total(a, b) == 0.0 <==> AllBelow(a, b)
    decreases |a|
  {
    if a != [] {
      RowZeroIff(a[0], b);
      TotalZeroIff(a[1..], b);
      assert a[0] in a && forall x :: x in a <==> x == a[0] || x in a[1..];
    }
  }

  // ---------------------------------------------------------------- what the score means

  lemma Pairs(a: seq<real>, b: seq<real>)
    requires a != [] && b != []
    ensures (|a| * |b|) as real == |a| as real * |b| as real > 0.0
  {
    assert |a| * |b| > 0;
  }

  lemma Share(x: real, y: real, n: real)
    requires n > 0.0 && x >= 0.0 && y >= 0.0 && x + y == n
    ensures 0.0 <= x / n <= 1.0 && x / n == 1.0 - y / n
    ensures x / n == 1.0 <==> y == 0.0
  {
    assert x / n * n == x && y / n * n == y;
    assert x / n + y / n == (x + y) / n == 1.0;
  }

  /** Swapping the classes complements the score; it lies in [0, 1] and is 1 exactly when every positive
      scores above every negative. */
  lemma AucMeaning(positives: seq<real>, negatives: seq<real>)
    requires positives != [] && negatives != []
    ensures Ratio(positives, negatives).Some? && Ratio(negatives, positives).Some?
    ensures 0.0 <= Ratio(positives, negatives).value <= 1.0
    ensures Ratio(positives, negatives).value == 1.0 - Ratio(negatives, positives).value
    ensures Ratio(positives, negatives).value == 1.0 <==> AllBelow(negatives, positives)
  {
    CreditsAdd(positives, negatives);
    Pairs(positives, negatives);
    TotalZeroIff(positives, negatives);
    TotalZeroIff(negatives, positives);
    assert |positives| * |negatives| == |negatives| * |positives|;
    Share(Total(positives, negatives), Total(negatives, positives), (|positives| * |negatives|) as real);
  }

  lemma {:induction false} ChosenAlike(pairs: seq<(real, int)>, test: int -> bool, test': int -> bool)
    requires forall pair | pair in pairs :: test(pair.1) == test'(pair.1)
    ensures Chosen(pairs, test) == Chosen(pairs, test')
    decreases |pairs|
  {
    if pairs != [] {
      assert pairs[0] in pairs;
      ChosenAlike(pairs[1..], test, test');
    }
  }

  lemma {:induction false} ChosenMembers(pairs: seq<(real, int)>, test: int -> bool, x: real)
    ensures x in Chosen(pairs, test) <==> exists i :: 0 <= i < |pairs| && pairs[i].0 == x && test(pairs[i].1)
    decreases |pairs|
  {
    if pairs != [] {
      ChosenMembers(pairs[1..], test, x);
      if i :| 0 <= i < |pairs| && pairs[i].0 == x && test(pairs[i].1) && i > 0 {
        assert pairs[1..][i - 1] == pairs[i];
      }
      if i :| 0 <= i < |pairs[1..]| && pairs[1..][i].0 == x && test(pairs[1..][i].1) {
        assert pairs[i + 1] == pairs[1..][i];
      }
    }
  }

  ghost predicate Binary(labels: seq<int>)
  {
    forall y | y in labels :: y == 0 || y == 1
  }

  /** Every score labelled `y` is above every score labelled `z`. */
  ghost predicate Separated(scores: seq<real>, labels: seq<int>, y: int, z: int)
    requires |scores| == |labels|
  {
    forall i, j | 0 <= i < |labels| && 0 <= j < |labels| && labels[i] == y && labels[j] == z :: scores[j] < scores[i]
  }

  /** Some slot labelled `y` has the score `x`. */
  ghost predicate Scores(scores: seq<real>, labels: seq<int>, y: int, x: real)
    requires |scores| == |labels|
  {
    exists i :: 0 <= i < |labels| && scores[i] == x && labels[i] == y
  }

  lemma ChosenOfLabel(scores: seq<real>, labels: seq<int>, y: int)
    requires |scores| == |labels|
    ensures var chosen := Chosen(Zip(scores, labels), l => l == y);
            && (forall x :: x in chosen <==> Scores(scores, labels, y, x))
            && (y in labels ==> chosen != [])
  {
    var pairs := Zip(scores, labels);
    var chosen := Chosen(pairs, l => l == y);
    forall x ensures x in chosen <==> Scores(scores, labels, y, x) {
      ChosenMembers(pairs, l => l == y, x);
      if i :| 0 <= i < |labels| && scores[i] == x && labels[i] == y {
        assert pairs[i].0 == x;
      }
    }
    if y in labels {
      var i :| 0 <= i < |labels| && labels[i] == y;
      assert Scores(scores, labels, y, scores[i]);
      assert scores[i] in chosen;
    }
  }

  lemma BelowIsSeparated(scores: seq<real>, labels: seq<int>, y: int, z: int)
    requires |scores| == |labels|
    ensures AllBelow(Chosen(Zip(scores, labels), l => l == z), Chosen(Zip(scores, labels), l => l == y))
       <==> Separated(scores, labels, y, z)
  {
    ChosenOfLabel(scores, labels, y);
    ChosenOfLabel(scores, labels, z);
    var above, below := Chosen(Zip(scores, labels), l => l == y), Chosen(Zip(scores, labels), l => l == z);
    if AllBelow(below, above) {
      forall i, j | 0 <= i < |labels| && 0 <= j < |labels| && labels[i] == y && labels[j] == z
        ensures scores[j] < scores[i]
      {
        assert Scores(scores, labels, y, scores[i]) && Scores(scores, labels, z, scores[j]);
        assert scores[i] in above && scores[j] in below;
      }
    }
  }

  /** On binary labels with both classes present the two implementations give one score in [0, 1], and it
      is 1 exactly when every positive scores above every negative, 0 when every one scores below. */
  lemma ImplementationsMean(scores: seq<real>, labels: seq<int>)
    requires |scores| == |labels| && Binary(labels) && 0 in labels && 1 in labels
    ensures var auc := PairwiseAuc(Zip(scores, labels));
            && auc.Some? && ImpressionAuc(scores, labels) == Value(auc) && 0.0 <= auc.value <= 1.0
            && (auc.value == 1.0 <==> Separated(scores, labels, 1, 0))
            && (auc.value == 0.0 <==> Separated(scores, labels, 0, 1))
  {
    var pairs := Zip(scores, labels);
    forall pair | pair in pairs ensures (pair.1 != 0) == (pair.1 == 1) {
      assert pair.1 in labels;
    }
    ChosenAlike(pairs, y => y != 0, y => y == 1);
    ChosenOfLabel(scores, labels, 0);
    ChosenOfLabel(scores, labels, 1);
    var positives, negatives := Chosen(pairs, y => y == 1), Chosen(pairs, y => y == 0);
    AucMeaning(positives, negatives);
    AucMeaning(negatives, positives);
    BelowIsSeparated(scores, labels, 1, 0);
    BelowIsSeparated(scores, labels, 0, 1);
  }
}
