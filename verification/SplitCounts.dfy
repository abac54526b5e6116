/** How many requests each split gets, in which order the rows come out, and where a cut goes when it has
    to move. */
module SplitCounts {
  import opened Collections
  import opened Sorting
  import opened Splits
  import opened SplitTheorems

  // ---------------------------------------------------------------- shares of a number of requests

  /** The nearest integer, the even one of two. */
  predicate IsRounded(x: real, r: int)
  {
    && -0.5 <= x - r as real <= 0.5
    && (x - r as real == 0.5 || x - r as real == -0.5 ==> r % 2 == 0)
  }

  lemma RoundedIs(x: real, r: int)
    requires IsRounded(x, r)
    ensures RoundHalfEven(x) == r
  {
    var f := x.Floor;
    assert f as real <= x < f as real + 1.0;
    assert f - 1 <= r <= f + 1;
  }

  function OneAtLeast(r: int): int
  {
    if r < 1 then 1 else r
  }

  /** The test share of `n` requests, of which `forTest` is the rounded number. */
  function TestCount(forTest: int): int
  {
    OneAtLeast(forTest)
  }

  /** The validation share: at least one of three or more, and less when it would leave no training data. */
  function ValidationCount(n: int, forTest: int, forValidation: int): int
  {
    var wanted := if n < 3 then 0 else OneAtLeast(forValidation);
    if TestCount(forTest) + wanted < n then wanted
    else if TestCount(forTest) + 1 < n then n - TestCount(forTest) - 1
    else 0
  }

  lemma BoundariesAreCounts(
      n: nat, trainFraction: real, validationFraction: real, forTest: int, forValidation: int)
    requires IsRounded(n as real * (1.0 - trainFraction - validationFraction), forTest)
    requires IsRounded(n as real * validationFraction, forValidation)
    ensures Boundaries(n, trainFraction, validationFraction)
         == (n - ValidationCount(n, forTest, forValidation) - TestCount(forTest), n - TestCount(forTest))
  {
    RoundedIs(n as real * (1.0 - trainFraction - validationFraction), forTest);
    RoundedIs(n as real * validationFraction, forValidation);
  }

  // ---------------------------------------------------------------- cuts that need not move

  ghost predicate NoTies(times: seq<int>)
  {
    forall i, j | 0 <= i < j < |times| :: times[i] != times[j]
  }

  lemma SnapStays(boundary: int, times: seq<int>, preferLeft: bool)
    requires NoTies(times) && 0 <= boundary <= |times|
    ensures Snap(boundary, times, preferLeft) == boundary
  {
  }

  lemma SnapDownStays(times: seq<int>, c: int, low: nat)
    requires NoTies(times) && 0 <= c <= |times|
    ensures SnapDown(times, c, low) == c
  {
  }

  // ---------------------------------------------------------------- counting requests

  ghost function RequestsOf(rows: seq<Row>): set<nat>
  {
    set row | row in rows :: row.request
  }

  ghost function RequestsIn(out: seq<Row>, s: Split): set<nat>
  {
    set row | row in out && row.split == s :: row.request
  }

  /** Requests of different rows are served at different times. */
  ghost predicate DistinctTimes(rows: seq<Row>)
  {
    forall a, b | a in rows && b in rows && a.request != b.request :: TimeOf(rows, a.request) != TimeOf(rows, b.request)
  }

  lemma OrderedRequests(rows: seq<Row>)
    ensures forall q :: q in Ordered(rows) <==> q in RequestsOf(rows)
    ensures |Ordered(rows)| == |RequestsOf(rows)|
  {
    var o := Ordered(rows);
    RequestsFacts(rows);
    SortMembers(Requests(rows), GroupOrder(rows));
    OrderedFacts(rows);
    forall q ensures q in o <==> q in RequestsOf(rows) {}
    SetOfDistinct(o, RequestsOf(rows));
  }

  lemma {:induction false} SetOfDistinct(s: seq<nat>, members: set<nat>)
    requires (forall i, j | 0 <= i < j < |s| :: s[i] != s[j]) && forall q :: q in s <==> q in members
    ensures |s| == |members|
    decreases |s|
  {
    if s != [] {
      var init, last := s[..|s| - 1], s[|s| - 1];
      assert s == init + [last];
      SetOfDistinct(init, members - {last});
    } else {
      assert members == {};
    }
  }

  lemma TimesDiffer(rows: seq<Row>)
    requires DistinctTimes(rows)
    ensures NoTies(GroupTimes(rows))
  {
    var o := Ordered(rows);
    OrderedFacts(rows);
    OrderedRequests(rows);
    forall i, j | 0 <= i < j < |o| ensures GroupTimes(rows)[i] != GroupTimes(rows)[j] {
      assert o[i] in o && o[j] in o;
      var a :| a in rows && a.request == o[i];
      var b :| b in rows && b.request == o[j];
    }
  }

  /** Every row is placed, and every place has a row. */
  ghost predicate CutOf(out: seq<Row>, ordered: seq<nat>, t: nat, v: nat)
  {
    && (forall row | row in out :: HasPlace(row, ordered, t, v))
    && forall i | 0 <= i < |ordered| :: HasRow(out, ordered, t, v, i)
  }

  ghost predicate HasPlace(row: Row, ordered: seq<nat>, t: nat, v: nat)
  {
    exists i :: Placed(row, ordered, t, v, i)
  }

  ghost predicate HasRow(out: seq<Row>, ordered: seq<nat>, t: nat, v: nat, i: int)
  {
    exists row :: row in out && Placed(row, ordered, t, v, i)
  }

  lemma CutIsCutOf(rows: seq<Row>, t: nat, v: nat, leq: (Row, Row) -> bool)
    ensures CutOf(Cut(rows, (t, v), leq), Ordered(rows), t, v)
  {
    var out, o := Cut(rows, (t, v), leq), Ordered(rows);
    forall row | row in out ensures HasPlace(row, o, t, v) {
      CutPlaces(rows, t, v, leq, row);
    }
    forall i | 0 <= i < |o| ensures HasRow(out, o, t, v, i) {
      var row := PlacedRow(rows, t, v, leq, i);
      assert Placed(row, o, t, v, i);
    }
  }

  /** Every ordered request has a row with its place's split. */
  lemma PlacedRow(rows: seq<Row>, t: nat, v: nat, leq: (Row, Row) -> bool, i: nat) returns (row: Row)
    requires i < |Ordered(rows)|
    ensures row in Cut(rows, (t, v), leq) && row.request == Ordered(rows)[i] && row.split == SplitAt(i, t, v)
  {
    var o := Ordered(rows);
    OrderedRequests(rows);
    assert o[i] in o;
    var original :| original in rows && original.request == o[i];
    GroupMembers(rows, o[i]);
    row := AssignedRow(rows, o, |o|, t, v, i, original);
    SortMembers(Assign(rows, o, |o|, t, v), leq);
  }

  lemma {:induction false} AssignedRow(
      rows: seq<Row>, ordered: seq<nat>, n: nat, t: int, v: int, i: nat, original: Row) returns (row: Row)
    requires i < n <= |ordered| && original in GroupOf(rows, ordered[i])
    ensures row in Assign(rows, ordered, n, t, v) && row.request == original.request && row.split == SplitAt(i, t, v)
    decreases n
  {
    if i < n - 1 {
      row := AssignedRow(rows, ordered, n - 1, t, v, i, original);
    } else {
      var group := GroupOf(rows, ordered[i]);
      var tagged := WithSplit(group, SplitAt(i, t, v));
      var k :| 0 <= k < |group| && group[k] == original;
      row := tagged[k];
      assert row in tagged;
    }
  }

  ghost predicate IsStretch(n: nat, t: nat, v: nat, s: Split, start: nat, end: nat)
  {
    start <= end <= n && forall i | 0 <= i < n :: SplitAt(i, t, v) == s <==> start <= i < end
  }

  /** The requests of one split are those of a stretch of the ordered ones. */
  lemma StretchIsSplit(out: seq<Row>, o: seq<nat>, t: nat, v: nat, s: Split, start: nat, end: nat)
    requires CutOf(out, o, t, v) && IsStretch(|o|, t, v, s, start, end)
    requires forall i, j | 0 <= i < j < |o| :: o[i] != o[j]
    ensures |RequestsIn(out, s)| == end - start
  {
    var stretch := o[start..end];
    forall q ensures q in stretch <==> q in RequestsIn(out, s) {
      if q in RequestsIn(out, s) {
        var row :| row in out && row.split == s && row.request == q;
        assert HasPlace(row, o, t, v);
        var i :| Placed(row, o, t, v, i);
        assert stretch[i - start] == q;
      }
      if q in stretch {
        var i :| 0 <= i < end - start && stretch[i] == q;
        assert HasRow(out, o, t, v, start + i);
        var row :| row in out && Placed(row, o, t, v, start + i);
        assert row.request == q && row.split == s;
      }
    }
    SetOfDistinct(stretch, RequestsIn(out, s));
  }

  ghost predicate HasCounts(out: seq<Row>, n: int, forTest: int, forValidation: int)
  {
    && |RequestsIn(out, Test)| == TestCount(forTest)
    && |RequestsIn(out, Validation)| == ValidationCount(n, forTest, forValidation)
    && |RequestsIn(out, Train)| == n - ValidationCount(n, forTest, forValidation) - TestCount(forTest)
  }

  lemma CutCounts(out: seq<Row>, o: seq<nat>, t: nat, v: nat)
    requires CutOf(out, o, t, v) && t <= v <= |o| && forall i, j | 0 <= i < j < |o| :: o[i] != o[j]
    ensures |RequestsIn(out, Train)| == t && |RequestsIn(out, Validation)| == v - t
    ensures |RequestsIn(out, Test)| == |o| - v
  {
    StretchIsSplit(out, o, t, v, Train, 0, t);
    StretchIsSplit(out, o, t, v, Validation, t, v);
    StretchIsSplit(out, o, t, v, Test, v, |o|);
  }

  /** Fractions that the callers accept, requests at different times, and the rounded shares of their number. */
  ghost predicate Shares(
      rows: seq<Row>, trainFraction: real, validationFraction: real, n: nat, forTest: int, forValidation: int)
  {
    && ValidFractions(trainFraction, validationFraction) && DistinctTimes(rows) && n == |RequestsOf(rows)| >= 2
    && IsRounded(n as real * (1.0 - trainFraction - validationFraction), forTest)
    && IsRounded(n as real * validationFraction, forValidation)
  }

  /** Neither splitter moves a cut then. */
  lemma CutsStay(
      rows: seq<Row>, trainFraction: real, validationFraction: real, n: nat, forTest: int, forValidation: int)
    returns (t: nat, v: nat)
    requires Shares(rows, trainFraction, validationFraction, n, forTest, forValidation)
    ensures |Ordered(rows)| == n && t <= v <= n
    ensures t == n - ValidationCount(n, forTest, forValidation) - TestCount(forTest) && v == n - TestCount(forTest)
    ensures RankingCuts(rows, trainFraction, validationFraction) == (t, v)
    ensures LegacyCuts(rows, trainFraction, validationFraction) == (t, v)
  {
    OrderedRequests(rows);
    TimesDiffer(rows);
    t, v := BoundariesFor(n, trainFraction, validationFraction, forTest, forValidation);
    RankingCutsStay(rows, trainFraction, validationFraction, t, v);
    LegacyCutsStay(rows, trainFraction, validationFraction, t, v);
  }

  lemma BoundariesFor(n: nat, trainFraction: real, validationFraction: real, forTest: int, forValidation: int)
    returns (t: nat, v: nat)
    requires n >= 2 && ValidFractions(trainFraction, validationFraction)
    requires IsRounded(n as real * (1.0 - trainFraction - validationFraction), forTest)
    requires IsRounded(n as real * validationFraction, forValidation)
    ensures Boundaries(n, trainFraction, validationFraction) == (t, v) && t <= v <= n
    ensures t == n - ValidationCount(n, forTest, forValidation) - TestCount(forTest) && v == n - TestCount(forTest)
  {
    BoundariesInRange(n, trainFraction, validationFraction);
    BoundariesAreCounts(n, trainFraction, validationFraction, forTest, forValidation);
    t, v := n - ValidationCount(n, forTest, forValidation) - TestCount(forTest), n - TestCount(forTest);
  }

  lemma RankingCutsStay(rows: seq<Row>, trainFraction: real, validationFraction: real, t: nat, v: nat)
    requires NoTies(GroupTimes(rows)) && t <= v <= |GroupTimes(rows)|
    requires Boundaries(|GroupTimes(rows)|, trainFraction, validationFraction) == (t, v)
    ensures RankingCuts(rows, trainFraction, validationFraction) == (t, v)
  {
    SnapStays(t, GroupTimes(rows), true);
    SnapStays(v, GroupTimes(rows), false);
  }

  lemma LegacyCutsStay(rows: seq<Row>, trainFraction: real, validationFraction: real, t: nat, v: nat)
    requires ValidFractions(trainFraction, validationFraction) && |GroupTimes(rows)| >= 2
    requires NoTies(GroupTimes(rows)) && t <= v <= |GroupTimes(rows)|
    requires Boundaries(|GroupTimes(rows)|, trainFraction, validationFraction) == (t, v)
    ensures LegacyCuts(rows, trainFraction, validationFraction) == (t, v)
  {
    SnapDownStays(GroupTimes(rows), t, 0);
    SnapDownStays(GroupTimes(rows), v, t);
  }

  lemma CountsOfCut(rows: seq<Row>, t: nat, v: nat, leq: (Row, Row) -> bool, n: nat, forTest: int, forValidation: int)
    requires t <= v <= n == |Ordered(rows)|
    requires t == n - ValidationCount(n, forTest, forValidation) - TestCount(forTest) && v == n - TestCount(forTest)
    ensures HasCounts(Cut(rows, (t, v), leq), n, forTest, forValidation)
  {
    CutIsCutOf(rows, t, v, leq);
    OrderedFacts(rows);
    CutCounts(Cut(rows, (t, v), leq), Ordered(rows), t, v);
  }

  /** When no two requests share a time, the test split has the rounded remaining share of the requests, at
      least one; validation its rounded share, at least one of three or more; and training the rest. */
  lemma RankingSplitCounts(
      rows: seq<Row>, trainFraction: real, validationFraction: real, n: nat, forTest: int, forValidation: int)
    requires Shares(rows, trainFraction, validationFraction, n, forTest, forValidation)
    ensures HasCounts(RankingSplit(rows, trainFraction, validationFraction), n, forTest, forValidation)
  {
    var t, v := CutsStay(rows, trainFraction, validationFraction, n, forTest, forValidation);
    CountsOfCut(rows, t, v, RankingLeq, n, forTest, forValidation);
  }

  /** The same of the older splitter. */
  lemma LegacySplitCounts(
      rows: seq<Row>, trainFraction: real, validationFraction: real, n: nat, forTest: int, forValidation: int)
    requires Shares(rows, trainFraction, validationFraction, n, forTest, forValidation)
    ensures HasCounts(LegacySplit(rows, trainFraction, validationFraction), n, forTest, forValidation)
  {
    var t, v := CutsStay(rows, trainFraction, validationFraction, n, forTest, forValidation);
    CountsOfCut(rows, t, v, VisibleLeq, n, forTest, forValidation);
  }

  // ---------------------------------------------------------------- the order of the rows

  /** Ranking rows come out by the instant served, then position, then sample id. */
  lemma RankingSplitOrder(rows: seq<Row>, trainFraction: real, validationFraction: real, i: nat, j: nat)
    requires |RequestsOf(rows)| >= 2 && i < j < |RankingSplit(rows, trainFraction, validationFraction)|
    ensures var a, b := RankingSplit(rows, trainFraction, validationFraction)[i],
                        RankingSplit(rows, trainFraction, validationFraction)[j];
            && a.servedAt <= b.servedAt
            && (a.servedAt == b.servedAt ==> a.position <= b.position)
            && (a.servedAt == b.servedAt && a.position == b.position ==> a.sampleId <= b.sampleId)
  {
    OrderedRequests(rows);
    var cuts, o := RankingCuts(rows, trainFraction, validationFraction), Ordered(rows);
    RankingOrder();
    SortSorted(Assign(rows, o, |o|, cuts.0, cuts.1), RankingLeq);
  }

  lemma RankingOrder()
    ensures TotalPreorder(RankingLeq) && TotalPreorder(VisibleLeq)
  {
  }

  /** The older splitter's rows by the instant visible, then sample id. */
  lemma LegacySplitOrder(rows: seq<Row>, trainFraction: real, validationFraction: real, i: nat, j: nat)
    requires ValidFractions(trainFraction, validationFraction)
    requires |RequestsOf(rows)| >= 2 && i < j < |LegacySplit(rows, trainFraction, validationFraction)|
    ensures var a, b := LegacySplit(rows, trainFraction, validationFraction)[i],
                        LegacySplit(rows, trainFraction, validationFraction)[j];
            a.visibleAt <= b.visibleAt && (a.visibleAt == b.visibleAt ==> a.sampleId <= b.sampleId)
  {
    OrderedRequests(rows);
    var cuts, o := LegacyCuts(rows, trainFraction, validationFraction), Ordered(rows);
    RankingOrder();
    SortSorted(Assign(rows, o, |o|, cuts.0, cuts.1), VisibleLeq);
  }

  // ---------------------------------------------------------------- where a cut moves to

  ghost predicate Inside(times: seq<int>, c: int)
  {
    0 < c < |times| && times[c - 1] != times[c]
  }

  function Far(a: int, b: int): int
  {
    if a < b then b - a else a - b
  }

  /** A cut inside moves to the nearest place between two different times, of two equally near ones the
      earlier; when all times are equal, everything goes to the side that must not be empty. */
  lemma SnapMoves(boundary: int, times: seq<int>, preferLeft: bool)
    requires 0 < boundary < |times|
    ensures var r := Snap(boundary, times, preferLeft);
            if exists c :: Inside(times, c) then
              && Inside(times, r)
              && forall c | Inside(times, c) :: Far(r, boundary) <= Far(c, boundary)
                                                && (Far(r, boundary) == Far(c, boundary) ==> r <= c)
            else r == if preferLeft then |times| else 0
  {
    var r := Snap(boundary, times, preferLeft);
    forall c | Inside(times, c) && c != r
      ensures Inside(times, r) && Far(r, boundary) <= Far(c, boundary)
      ensures Far(r, boundary) == Far(c, boundary) ==> r <= c
    {
      SnapIsBest(boundary, times, preferLeft, c);
    }
    if !Inside(times, r) {
      assert r == 0 || r == |times|;
      if r == 0 && preferLeft {
        SnapIsBest(boundary, times, preferLeft, |times|);
      }
      if r == |times| && !preferLeft {
        SnapIsBest(boundary, times, preferLeft, 0);
      }
    }
  }
}
