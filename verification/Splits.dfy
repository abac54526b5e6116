/** Chronological dataset splitting: where a cut may fall, which cut is chosen, and what the split
    rows are guaranteed to be. */
module Splits {
  import opened Collections
  import opened Sorting

  datatype Split = Train | Validation | Test

  datatype Row = Row(
    sampleId: nat, request: nat, servedAt: int, visibleAt: int, position: int, split: Split)

  // ---------------------------------------------------------------- cuts between equal times

  /** A cut that separates no two equal neighbours. */
  predicate TieFree(times: seq<int>, c: int)
  {
    0 <= c <= |times| && (c == 0 || c == |times| || times[c - 1] != times[c])
  }

  function LeftCut(times: seq<int>, c: nat): (l: nat)
    requires c <= |times|
    ensures l <= c && TieFree(times, l)
    ensures forall d | l < d <= c :: !TieFree(times, d)
  {
    if TieFree(times, c) then c else LeftCut(times, c - 1)
  }

  function RightCut(times: seq<int>, c: nat): (r: nat)
    requires c <= |times|
    ensures c <= r <= |times| && TieFree(times, r)
    ensures forall d | c <= d < r :: !TieFree(times, d)
    decreases |times| - c
  {
    if TieFree(times, c) then c else RightCut(times, c + 1)
  }

  function Populated(n: nat, c: int): int
  {
    (if c > 0 then 1 else 0) + (if c < n then 1 else 0)
  }

  function Preferred(n: nat, c: int, preferLeft: bool): int
  {
    if preferLeft then (if c > 0 then 1 else 0) else (if c < n then 1 else 0)
  }

  function Distance(a: int, b: int): int
  {
    if a < b then b - a else a - b
  }

  /** `score(c) < score(d)`: more populated sides, then the preferred side, then nearer, then smaller. */
  predicate BetterCut(n: nat, boundary: int, preferLeft: bool, c: int, d: int)
  {
    if Populated(n, c) != Populated(n, d) then Populated(n, c) > Populated(n, d)
    else if Preferred(n, c, preferLeft) != Preferred(n, d, preferLeft) then
      Preferred(n, c, preferLeft) > Preferred(n, d, preferLeft)
    else if Distance(c, boundary) != Distance(d, boundary) then Distance(c, boundary) < Distance(d, boundary)
    else c < d
  }

  function Snap(boundary: int, times: seq<int>, preferLeft: bool): (r: nat)
    ensures r <= |times| && TieFree(times, r)
  {
    var n := |times|;
    if boundary <= 0 then 0
    else if boundary >= n then n
    else
      var l, r := LeftCut(times, boundary), RightCut(times, boundary);
      if BetterCut(n, boundary, preferLeft, r, l) then r else l
  }

  method SnapSplitBoundary(boundary: int, times: seq<int>, preferLeft: bool) returns (cut: nat)
    ensures cut == Snap(boundary, times, preferLeft)
  {
    var n := |times|;
    if boundary <= 0 {
      return 0;
    }
    if boundary >= n {
      return n;
    }
    if times[boundary - 1] != times[boundary] {
      return boundary;
    }
    var left := boundary;
    while 0 < left < n && times[left - 1] == times[left]
      invariant 0 <= left <= boundary && LeftCut(times, left) == LeftCut(times, boundary)
      decreases left
    {
      left := left - 1;
    }
    var right := boundary;
    while 0 < right < n && times[right - 1] == times[right]
      invariant boundary <= right <= n && RightCut(times, right) == RightCut(times, boundary)
      decreases n - right
    {
      right := right + 1;
    }
    cut := if BetterCut(n, boundary, preferLeft, right, left) then right else left;
  }

  /** For an interior boundary the result beats every other tie-free cut of the whole sequence: both
      sides populated if that is possible at all, then nearest, the smaller one on equal distance. */
  lemma SnapIsBest(boundary: int, times: seq<int>, preferLeft: bool, c: int)
    requires 0 < boundary < |times| && TieFree(times, c) && c != Snap(boundary, times, preferLeft)
    ensures BetterCut(|times|, boundary, preferLeft, Snap(boundary, times, preferLeft), c)
  {
    var l, r := LeftCut(times, boundary), RightCut(times, boundary);
    assert c <= l || c >= r;
  }

  /** Both sides are non-empty whenever the times hold two different values. */
  lemma SnapSeparates(boundary: int, times: seq<int>, preferLeft: bool, i: nat, j: nat)
    requires 0 < boundary < |times| && i < j < |times| && times[i] != times[j]
    ensures 0 < Snap(boundary, times, preferLeft) < |times|
  {
    var c := FindCut(times, i, j);
    if c != Snap(boundary, times, preferLeft) {
      SnapIsBest(boundary, times, preferLeft, c);
    }
  }

  lemma {:induction false} FindCut(times: seq<int>, i: nat, j: nat) returns (c: nat)
    requires i < j < |times| && times[i] != times[j]
    ensures i < c <= j && TieFree(times, c)
    decreases j - i
  {
    if times[j - 1] != times[j] {
      c := j;
    } else {
      c := FindCut(times, i, j - 1);
    }
  }

  // ---------------------------------------------------------------- how many groups each split asks for

  /** Python's `round` of a number halfway between two integers goes to the even one. */
  function RoundHalfEven(x: real): int
  {
    var f := x.Floor;
    var d := x - f as real;
    if d < 0.5 then f else if d > 0.5 then f + 1 else if f % 2 == 0 then f else f + 1
  }

  /** (train_end, validation_end) before any snapping. */
  function Boundaries(n: nat, trainFraction: real, validationFraction: real): (int, int)
  {
    var test := Larger(1, RoundHalfEven(n as real * (1.0 - trainFraction - validationFraction)));
    var wanted := if n >= 3 then Larger(1, RoundHalfEven(n as real * validationFraction)) else 0;
    var validation := if test + wanted >= n then Larger(0, n - test - 1) else wanted;
    (n - validation - test, n - test)
  }

  /** What both callers validate before splitting. */
  predicate ValidFractions(trainFraction: real, validationFraction: real)
  {
    0.0 < trainFraction && 0.0 < validationFraction && trainFraction + validationFraction < 1.0
  }

  lemma RoundWithin(n: nat, x: real)
    requires 0.0 <= x <= 1.0
    ensures 0 <= RoundHalfEven(n as real * x) <= n
  {
    var y := n as real * x;
    ScaleWithin(n as real, x);
    assert 0 <= y.Floor <= n;
    assert y.Floor == n ==> y == n as real;
  }

  lemma ScaleWithin(n: real, x: real)
    requires n >= 0.0 && 0.0 <= x <= 1.0
    ensures 0.0 <= n * x <= n
  {
    assert n * x + n * (1.0 - x) == n;
  }

  lemma BoundariesInRange(n: nat, trainFraction: real, validationFraction: real)
    requires n >= 2 && ValidFractions(trainFraction, validationFraction)
    ensures var (t, v) := Boundaries(n, trainFraction, validationFraction); 0 <= t <= v < n
  {
    RoundWithin(n, 1.0 - trainFraction - validationFraction);
    RoundWithin(n, validationFraction);
  }

  // ---------------------------------------------------------------- grouping

  /** `grouped[row.request]`, in input order. */
  function GroupOf(rows: seq<Row>, request: nat): seq<Row>
  {
    if rows == [] then []
    else
      var last := rows[|rows| - 1];
      GroupOf(rows[..|rows| - 1], request) + if last.request == request then [last] else []
  }

  /** The distinct requests in first-appearance order: the keys of the insertion-ordered dictionary. */
  function Requests(rows: seq<Row>): seq<nat>
  {
    if rows == [] then []
    else
      var init := Requests(rows[..|rows| - 1]);
      var last := rows[|rows| - 1];
      if last.request in init then init else init + [last.request]
  }

  lemma {:induction false} RequestsFacts(rows: seq<Row>)
    ensures forall i, j | 0 <= i < j < |Requests(rows)| :: Requests(rows)[i] != Requests(rows)[j]
    ensures forall row | row in rows :: row.request in Requests(rows)
    ensures forall q | q in Requests(rows) :: exists row :: row in rows && row.request == q
  {
    if rows != [] {
      var init, all := Requests(rows[..|rows| - 1]), Requests(rows);
      RequestsFacts(rows[..|rows| - 1]);
      assert rows == rows[..|rows| - 1] + [rows[|rows| - 1]];
      forall i, j | 0 <= i < j < |all| ensures all[i] != all[j] {
        if j == |init| { assert init[i] in init; }
      }
    }
  }

  lemma {:induction false} GroupMembers(rows: seq<Row>, request: nat)
    ensures forall row :: row in GroupOf(rows, request) <==> row in rows && row.request == request
  {
    if rows != [] {
      GroupMembers(rows[..|rows| - 1], request);
      assert rows == rows[..|rows| - 1] + [rows[|rows| - 1]];
    }
  }

  function MinServed(rows: seq<Row>): (t: int)
    requires rows != []
    ensures exists row :: row in rows && row.servedAt == t
    ensures forall row | row in rows :: t <= row.servedAt
  {
    assert rows == [rows[0]] + rows[1..];
    if |rows| == 1 then rows[0].servedAt
    else
      var rest := MinServed(rows[1..]);
      if rows[0].servedAt < rest then rows[0].servedAt else rest
  }

  /** A request's time: the earliest `served_at` of its rows. */
  function TimeOf(rows: seq<Row>, request: nat): int
  {
    var g := GroupOf(rows, request);
    if g == [] then 0 else MinServed(g)
  }

  function GroupOrder(rows: seq<Row>): (nat, nat) -> bool
  {
    (a: nat, b: nat) =>
      TimeOf(rows, a) < TimeOf(rows, b) || (TimeOf(rows, a) == TimeOf(rows, b) && a <= b)
  }

  lemma GroupOrderTotal(rows: seq<Row>)
    ensures TotalPreorder(GroupOrder(rows))
  {}

  /** `ordered_groups`, by request. */
  function Ordered(rows: seq<Row>): seq<nat>
  {
    Sort(Requests(rows), GroupOrder(rows))
  }

  function GroupTimes(rows: seq<Row>): (t: seq<int>)
    ensures |t| == |Ordered(rows)|
  {
    var o := Ordered(rows);
    seq(|o|, i requires 0 <= i < |o| => TimeOf(rows, o[i]))
  }

  // ---------------------------------------------------------------- assigning splits

  function SplitAt(i: int, trainEnd: int, validationEnd: int): Split
  {
    if i < trainEnd then Train else if i < validationEnd then Validation else Test
  }

  function WithSplit(rows: seq<Row>, s: Split): seq<Row>
  {
    seq(|rows|, i requires 0 <= i < |rows| => rows[i].(split := s))
  }

  /** The first `n` groups in order, each given the split of its index. */
  function Assign(rows: seq<Row>, ordered: seq<nat>, n: nat, trainEnd: int, validationEnd: int): seq<Row>
    requires n <= |ordered|
  {
    if n == 0 then []
    else
      Assign(rows, ordered, n - 1, trainEnd, validationEnd)
      + WithSplit(GroupOf(rows, ordered[n - 1]), SplitAt(n - 1, trainEnd, validationEnd))
  }

  predicate RankingLeq(a: Row, b: Row)
  {
    if a.servedAt != b.servedAt then a.servedAt < b.servedAt
    else if a.position != b.position then a.position < b.position
    else a.sampleId <= b.sampleId
  }

  predicate VisibleLeq(a: Row, b: Row)
  {
    a.visibleAt < b.visibleAt || (a.visibleAt == b.visibleAt && a.sampleId <= b.sampleId)
  }

  /** The cuts `_split_ranking_rows` uses. */
  function RankingCuts(rows: seq<Row>, trainFraction: real, validationFraction: real): (int, int)
  {
    var times := GroupTimes(rows);
    var (t, v) := Boundaries(|times|, trainFraction, validationFraction);
    var trainEnd, validationEnd := Snap(t, times, true), Snap(v, times, false);
    (trainEnd, Larger(trainEnd, validationEnd))
  }

  function SnapDown(times: seq<int>, c: int, low: nat): (r: int)
    ensures r <= c && (low <= c ==> low <= r)
    decreases c - low
  {
    if low < c < |times| && times[c - 1] == times[c] then SnapDown(times, c - 1, low) else c
  }

  /** The cuts `_split_rows` uses: only ever moved towards the start. */
  function LegacyCuts(rows: seq<Row>, trainFraction: real, validationFraction: real): (int, int)
    requires ValidFractions(trainFraction, validationFraction) && |GroupTimes(rows)| >= 2
  {
    var times := GroupTimes(rows);
    BoundariesInRange(|times|, trainFraction, validationFraction);
    var (t, v) := Boundaries(|times|, trainFraction, validationFraction);
    var trainEnd := SnapDown(times, t, 0);
    (trainEnd, Larger(trainEnd, SnapDown(times, v, trainEnd)))
  }

  /** A single group is all training data. */
  function Lone(rows: seq<Row>): seq<Row>
  {
    if rows == [] then [] else WithSplit(GroupOf(rows, rows[0].request), Train)
  }

  function Cut(rows: seq<Row>, cuts: (int, int), leq: (Row, Row) -> bool): seq<Row>
  {
    var o := Ordered(rows);
    Sort(Assign(rows, o, |o|, cuts.0, cuts.1), leq)
  }

  function RankingSplit(rows: seq<Row>, trainFraction: real, validationFraction: real): seq<Row>
  {
    if |GroupTimes(rows)| < 2 then Lone(rows)
    else Cut(rows, RankingCuts(rows, trainFraction, validationFraction), RankingLeq)
  }

  function LegacySplit(rows: seq<Row>, trainFraction: real, validationFraction: real): seq<Row>
    requires ValidFractions(trainFraction, validationFraction)
  {
    if |GroupTimes(rows)| < 2 then Lone(rows)
    else Cut(rows, LegacyCuts(rows, trainFraction, validationFraction), VisibleLeq)
  }

  lemma {:induction false} GroupEmpty(rows: seq<Row>, q: nat)
    requires q !in Requests(rows)
    ensures GroupOf(rows, q) == []
  {
    if rows != [] {
      GroupEmpty(rows[..|rows| - 1], q);
    }
  }

  /** The dictionary after one more row. */
  lemma GroupStep(rows: seq<Row>, i: nat)
    requires i < |rows|
    ensures Requests(rows[..i + 1])
         == if rows[i].request in Requests(rows[..i])
             then Requests(rows[..i]) else Requests(rows[..i]) + [rows[i].request]
    ensures forall q ::
              GroupOf(rows[..i + 1], q) == GroupOf(rows[..i], q) + (if rows[i].request == q then [rows[i]] else [])
    ensures rows[i].request !in Requests(rows[..i]) ==> GroupOf(rows[..i], rows[i].request) == []
  {
    assert rows[..i + 1][..i] == rows[..i];
    if rows[i].request !in Requests(rows[..i]) {
      GroupEmpty(rows[..i], rows[i].request);
    }
  }

  method GroupRows(rows: seq<Row>) returns (keys: seq<nat>, grouped: map<nat, seq<Row>>)
    ensures keys == Requests(rows)
    ensures forall q | q in keys :: q in grouped && grouped[q] == GroupOf(rows, q)
  {
    keys, grouped := [], map[];
    for i := 0 to |rows|
      invariant keys == Requests(rows[..i])
      invariant forall q :: q in keys <==> q in grouped
      invariant forall q | q in grouped :: grouped[q] == GroupOf(rows[..i], q)
    {
      var row := rows[i];
      GroupStep(rows, i);
      if row.request !in grouped {
        keys := keys + [row.request];
        grouped := grouped[row.request := [row]];
      } else {
        grouped := grouped[row.request := grouped[row.request] + [row]];
      }
    }
    assert rows[..|rows|] == rows;
  }

  /** The loop that walks the ordered groups and tags their rows. */
  method AssignSplits(
      ordered: seq<nat>, grouped: map<nat, seq<Row>>, trainEnd: int, validationEnd: int, ghost rows: seq<Row>)
    returns (out: seq<Row>)
    requires forall q | q in ordered :: q in grouped && grouped[q] == GroupOf(rows, q)
    ensures out == Assign(rows, ordered, |ordered|, trainEnd, validationEnd)
  {
    out := [];
    for index := 0 to |ordered|
      invariant out == Assign(rows, ordered, index, trainEnd, validationEnd)
    {
      assert ordered[index] in ordered;
      var split := if index < trainEnd then Train else if index < validationEnd then Validation else Test;
      out := out + WithSplit(grouped[ordered[index]], split);
    }
  }

  lemma LoneGroup(rows: seq<Row>)
    requires |Requests(rows)| < 2
    ensures rows == [] <==> Requests(rows) == []
    ensures rows != [] ==> Requests(rows) == [rows[0].request]
  {
    RequestsFacts(rows);
    if rows != [] {
      assert rows[0] in rows;
    }
  }

  /** The common front half: group, order the groups by time, and take their times. */
  method OrderGroups(rows: seq<Row>) returns (ordered: seq<nat>, grouped: map<nat, seq<Row>>, times: seq<int>)
    ensures ordered == Ordered(rows) && times == GroupTimes(rows)
    ensures forall q | q in ordered :: q in grouped && grouped[q] == GroupOf(rows, q)
    ensures |ordered| < 2 ==> |Requests(rows)| < 2 && ordered == Requests(rows)
  {
    var keys;
    keys, grouped := GroupRows(rows);
    ordered := Sort(keys, GroupOrder(rows));
    SortMembers(keys, GroupOrder(rows));
    times := GroupTimes(rows);
    if |ordered| == 1 {
      assert ordered[0] in ordered && keys[0] in keys;
    }
  }

  /** Fewer than two groups: everything trains. */
  method SplitLone(rows: seq<Row>, ordered: seq<nat>, grouped: map<nat, seq<Row>>) returns (out: seq<Row>)
    requires |Requests(rows)| < 2 && ordered == Requests(rows)
    requires forall q | q in ordered :: q in grouped && grouped[q] == GroupOf(rows, q)
    ensures out == Lone(rows)
  {
    LoneGroup(rows);
    if |ordered| == 0 {
      return [];
    }
    assert ordered[0] in ordered;
    out := WithSplit(grouped[ordered[0]], Train);
  }

  method SplitRankingRows(rows: seq<Row>, trainFraction: real, validationFraction: real) returns (out: seq<Row>)
    requires ValidFractions(trainFraction, validationFraction)
    ensures out == RankingSplit(rows, trainFraction, validationFraction)
  {
    var ordered, grouped, times := OrderGroups(rows);
    if |ordered| < 2 {
      out := SplitLone(rows, ordered, grouped);
      return;
    }
    var trainEnd, validationEnd := PlaceRankingCuts(rows, times, trainFraction, validationFraction);
    var tagged := AssignSplits(ordered, grouped, trainEnd, validationEnd, rows);
    out := Sort(tagged, RankingLeq);
  }

  method PlaceRankingCuts(rows: seq<Row>, times: seq<int>, trainFraction: real, validationFraction: real)
    returns (trainEnd: int, validationEnd: int)
    requires times == GroupTimes(rows)
    ensures (trainEnd, validationEnd) == RankingCuts(rows, trainFraction, validationFraction)
  {
    var (t, v) := Boundaries(|times|, trainFraction, validationFraction);
    trainEnd := SnapSplitBoundary(t, times, true);
    validationEnd := SnapSplitBoundary(v, times, false);
    validationEnd := if validationEnd < trainEnd then trainEnd else validationEnd;
  }

  method MoveDown(times: seq<int>, start: int, low: nat) returns (c: int)
    requires 0 <= start < |times|
    ensures c == SnapDown(times, start, low)
  {
    c := start;
    while low < c < |times| && times[c - 1] == times[c]
      invariant c <= start && SnapDown(times, c, low) == SnapDown(times, start, low)
      decreases c - low
    {
      c := c - 1;
    }
  }

  method SplitRows(rows: seq<Row>, trainFraction: real, validationFraction: real) returns (out: seq<Row>)
    requires ValidFractions(trainFraction, validationFraction)
    ensures out == LegacySplit(rows, trainFraction, validationFraction)
  {
    var ordered, grouped, times := OrderGroups(rows);
    if |ordered| < 2 {
      out := SplitLone(rows, ordered, grouped);
      return;
    }
    var trainEnd, validationEnd := PlaceLegacyCuts(rows, times, trainFraction, validationFraction);
    var tagged := AssignSplits(ordered, grouped, trainEnd, validationEnd, rows);
    out := Sort(tagged, VisibleLeq);
  }

  method PlaceLegacyCuts(rows: seq<Row>, times: seq<int>, trainFraction: real, validationFraction: real)
    returns (trainEnd: int, validationEnd: int)
    requires ValidFractions(trainFraction, validationFraction) && times == GroupTimes(rows) && |times| >= 2
    ensures (trainEnd, validationEnd) == LegacyCuts(rows, trainFraction, validationFraction)
  {
    BoundariesInRange(|times|, trainFraction, validationFraction);
    var (t, v) := Boundaries(|times|, trainFraction, validationFraction);
    trainEnd := MoveDown(times, t, 0);
    validationEnd := MoveDown(times, v, trainEnd);
    validationEnd := if validationEnd < trainEnd then trainEnd else validationEnd;
  }
}
