/** Both splitters conserve the rows, keep requests whole, and are strictly chronological. */
module SplitTheorems {
  import opened Collections
  import opened Sorting
  import opened Splits

  /** A row with its split forgotten. */
  function Erase(row: Row): Row
  {
    row.(split := Train)
  }

  function EraseAll(rows: seq<Row>): (r: seq<Row>)
    ensures |r| == |rows|
  {
    seq(|rows|, i requires 0 <= i < |rows| => Erase(rows[i]))
  }

  function Rank(s: Split): nat
  {
    match s case Train => 0 case Validation => 1 case Test => 2
  }

  /** The output is the input with only `split` changed. */
  ghost predicate Conserves(rows: seq<Row>, out: seq<Row>)
  {
    multiset(EraseAll(out)) == multiset(EraseAll(rows))
  }

  /** Each request lies in one split. */
  ghost predicate Atomic(out: seq<Row>)
  {
    forall a, b | a in out && b in out && a.request == b.request :: a.split == b.split
  }

  /** A request of an earlier split is strictly older than every request of a later one. */
  ghost predicate Chronological(rows: seq<Row>, out: seq<Row>)
  {
    forall a, b | a in out && b in out && Rank(a.split) < Rank(b.split) ::
      TimeOf(rows, a.request) < TimeOf(rows, b.request)
  }

  ghost predicate GoodSplit(rows: seq<Row>, out: seq<Row>)
  {
    Conserves(rows, out) && Atomic(out) && Chronological(rows, out)
  }

  // ---------------------------------------------------------------- conservation

  lemma {:induction false} EraseAppend(a: seq<Row>, b: seq<Row>)
    ensures EraseAll(a + b) == EraseAll(a) + EraseAll(b)
  {}

  lemma EraseWithSplit(rows: seq<Row>, s: Split)
    ensures EraseAll(WithSplit(rows, s)) == EraseAll(rows)
  {}

  lemma {:induction false} ErasePermutation(a: seq<Row>, b: seq<Row>)
    requires multiset(a) == multiset(b)
    ensures multiset(EraseAll(a)) == multiset(EraseAll(b))
    decreases |a|
  {
    MultisetLength(a, b);
    if a != [] {
      assert a[0] in multiset(b);
      var i :| 0 <= i < |b| && b[i] == a[0];
      EraseOut(a, 0);
      EraseOut(b, i);
      assert a[..0] + a[1..] == a[1..];
      SameRest(a, b, i);
      ErasePermutation(a[1..], b[..i] + b[i + 1..]);
    }
  }

  lemma EraseOut(rows: seq<Row>, i: nat)
    requires i < |rows|
    ensures multiset(EraseAll(rows)) == multiset(EraseAll([rows[i]])) + multiset(EraseAll(rows[..i] + rows[i + 1..]))
  {
    var before, one, after := rows[..i], [rows[i]], rows[i + 1..];
    assert rows == before + (one + after);
    EraseAppend(before, one + after);
    EraseAppend(one, after);
    EraseAppend(before, after);
  }

  /** The rows of the requests in `chosen`. */
  function RowsOf(rows: seq<Row>, chosen: set<nat>): seq<Row>
  {
    if rows == [] then []
    else
      RowsOf(rows[..|rows| - 1], chosen)
      + if rows[|rows| - 1].request in chosen then [rows[|rows| - 1]] else []
  }

  lemma {:induction false} RowsOfSplit(rows: seq<Row>, chosen: set<nat>, q: nat)
    requires q !in chosen
    ensures multiset(RowsOf(rows, chosen + {q})) == multiset(RowsOf(rows, chosen)) + multiset(GroupOf(rows, q))
  {
    if rows != [] {
      RowsOfSplit(rows[..|rows| - 1], chosen, q);
    }
  }

  lemma {:induction false} RowsOfAll(rows: seq<Row>, chosen: set<nat>)
    requires forall row | row in rows :: row.request in chosen
    ensures RowsOf(rows, chosen) == rows
  {
    if rows != [] {
      assert rows == rows[..|rows| - 1] + [rows[|rows| - 1]];
      RowsOfAll(rows[..|rows| - 1], chosen);
    }
  }

  lemma {:induction false} RowsOfNone(rows: seq<Row>)
    ensures RowsOf(rows, {}) == []
  {
    if rows != [] { RowsOfNone(rows[..|rows| - 1]); }
  }

  ghost function FirstOf(ordered: seq<nat>, n: nat): set<nat>
    requires n <= |ordered|
  {
    set i | 0 <= i < n :: ordered[i]
  }

  lemma {:induction false} AssignConserves(rows: seq<Row>, ordered: seq<nat>, n: nat, t: int, v: int)
    requires n <= |ordered| && forall i, j | 0 <= i < j < |ordered| :: ordered[i] != ordered[j]
    ensures multiset(EraseAll(Assign(rows, ordered, n, t, v))) == multiset(EraseAll(RowsOf(rows, FirstOf(ordered, n))))
  {
    if n == 0 {
      assert FirstOf(ordered, 0) == {};
      RowsOfNone(rows);
    } else {
      AssignConserves(rows, ordered, n - 1, t, v);
      var group := GroupOf(rows, ordered[n - 1]);
      var before := FirstOf(ordered, n - 1);
      assert FirstOf(ordered, n) == before + {ordered[n - 1]};
      RowsOfSplit(rows, before, ordered[n - 1]);
      EraseAppend(Assign(rows, ordered, n - 1, t, v), WithSplit(group, SplitAt(n - 1, t, v)));
      EraseWithSplit(group, SplitAt(n - 1, t, v));
      EraseAppend(RowsOf(rows, before), group);
      assert multiset(RowsOf(rows, FirstOf(ordered, n))) == multiset(RowsOf(rows, before) + group);
      ErasePermutation(RowsOf(rows, FirstOf(ordered, n)), RowsOf(rows, before) + group);
    }
  }

  // ---------------------------------------------------------------- which split a row gets

  /** Every assigned row carries the split of its request's index. */
  lemma {:induction false} AssignMembers(rows: seq<Row>, ordered: seq<nat>, n: nat, t: int, v: int)
    requires n <= |ordered|
    ensures forall row | row in Assign(rows, ordered, n, t, v) ::
              exists i :: 0 <= i < n && ordered[i] == row.request && row.split == SplitAt(i, t, v)
  {
    if n > 0 {
      AssignMembers(rows, ordered, n - 1, t, v);
      GroupMembers(rows, ordered[n - 1]);
      var group := GroupOf(rows, ordered[n - 1]);
      var tagged := WithSplit(group, SplitAt(n - 1, t, v));
      forall row | row in Assign(rows, ordered, n, t, v)
        ensures exists i :: 0 <= i < n && ordered[i] == row.request && row.split == SplitAt(i, t, v)
      {
        if row in tagged {
          var k :| 0 <= k < |tagged| && tagged[k] == row;
          assert group[k] in group;
          assert ordered[n - 1] == row.request && row.split == SplitAt(n - 1, t, v);
        }
      }
    }
  }

  lemma OrderedFacts(rows: seq<Row>)
    ensures var o := Ordered(rows);
            && (forall i, j | 0 <= i < j < |o| :: o[i] != o[j])
            && (forall row | row in rows :: row.request in o)
            && (forall i, j | 0 <= i < j < |o| :: GroupTimes(rows)[i] <= GroupTimes(rows)[j])
  {
    var o := Ordered(rows);
    RequestsFacts(rows);
    GroupOrderTotal(rows);
    SortSorted(Requests(rows), GroupOrder(rows));
    SortMembers(Requests(rows), GroupOrder(rows));
    PermutedDistinct(o, Requests(rows));
    forall i, j | 0 <= i < j < |o| ensures GroupTimes(rows)[i] <= GroupTimes(rows)[j] {
      assert GroupOrder(rows)(o[i], o[j]);
    }
  }

  /** A tie-free cut of sorted times separates them strictly. */
  lemma CutSeparates(times: seq<int>, c: nat, i: nat, j: nat)
    requires forall k, l | 0 <= k < l < |times| :: times[k] <= times[l]
    requires TieFree(times, c) && i < c <= j < |times|
    ensures times[i] < times[j]
  {
    assert times[i] <= times[c - 1] && times[c - 1] <= times[c] && times[c] <= times[j];
  }

  lemma CutConserves(rows: seq<Row>, t: int, v: int, leq: (Row, Row) -> bool)
    ensures Conserves(rows, Cut(rows, (t, v), leq))
  {
    var o := Ordered(rows);
    var tagged := Assign(rows, o, |o|, t, v);
    OrderedFacts(rows);
    AssignConserves(rows, o, |o|, t, v);
    forall row | row in rows ensures row.request in FirstOf(o, |o|) {
      assert row.request in o;
    }
    RowsOfAll(rows, FirstOf(o, |o|));
    ErasePermutation(Cut(rows, (t, v), leq), tagged);
  }

  /** Two rows of a cut whose splits differ come from strictly ordered groups. */
  lemma CutOrders(rows: seq<Row>, t: nat, v: nat, i: nat, j: nat)
    requires t <= v && TieFree(GroupTimes(rows), t) && TieFree(GroupTimes(rows), v)
    requires i < |Ordered(rows)| && j < |Ordered(rows)| && Rank(SplitAt(i, t, v)) < Rank(SplitAt(j, t, v))
    ensures TimeOf(rows, Ordered(rows)[i]) < TimeOf(rows, Ordered(rows)[j])
  {
    OrderedFacts(rows);
    CutSeparates(GroupTimes(rows), if i < t then t else v, i, j);
  }

  ghost predicate Placed(row: Row, ordered: seq<nat>, t: int, v: int, i: int)
  {
    0 <= i < |ordered| && ordered[i] == row.request && row.split == SplitAt(i, t, v)
  }

  lemma CutPlaces(rows: seq<Row>, t: int, v: int, leq: (Row, Row) -> bool, row: Row)
    requires row in Cut(rows, (t, v), leq)
    ensures exists i :: Placed(row, Ordered(rows), t, v, i)
  {
    var o := Ordered(rows);
    SortMembers(Assign(rows, o, |o|, t, v), leq);
    AssignMembers(rows, o, |o|, t, v);
    var i :| 0 <= i < |o| && o[i] == row.request && row.split == SplitAt(i, t, v);
    assert Placed(row, o, t, v, i);
  }

  /** Any pair of tie-free cuts in order gives a good split. */
  lemma CutIsGood(rows: seq<Row>, t: nat, v: nat, leq: (Row, Row) -> bool)
    requires t <= v && TieFree(GroupTimes(rows), t) && TieFree(GroupTimes(rows), v)
    ensures GoodSplit(rows, Cut(rows, (t, v), leq))
  {
    var o, out := Ordered(rows), Cut(rows, (t, v), leq);
    CutConserves(rows, t, v, leq);
    OrderedFacts(rows);
    forall a, b | a in out && b in out
      ensures a.request == b.request ==> a.split == b.split
      ensures Rank(a.split) < Rank(b.split) ==> TimeOf(rows, a.request) < TimeOf(rows, b.request)
    {
      CutPlaces(rows, t, v, leq, a);
      CutPlaces(rows, t, v, leq, b);
      var i :| Placed(a, o, t, v, i);
      var j :| Placed(b, o, t, v, j);
      if Rank(a.split) < Rank(b.split) {
        CutOrders(rows, t, v, i, j);
      }
    }
  }

  lemma LoneConserves(rows: seq<Row>)
    requires rows != [] && Requests(rows) == [rows[0].request]
    ensures Conserves(rows, Lone(rows))
    ensures forall row | row in rows :: row.request == rows[0].request
  {
    var q := rows[0].request;
    RequestsFacts(rows);
    forall row | row in rows ensures row.request in {q} {
      assert row.request in Requests(rows);
    }
    RowsOfAll(rows, {q});
    RowsOfNone(rows);
    RowsOfSplit(rows, {}, q);
    assert {} + {q} == {q};
    ErasePermutation(rows, GroupOf(rows, q));
    EraseWithSplit(GroupOf(rows, q), Train);
  }

  lemma LoneIsGood(rows: seq<Row>)
    requires |Requests(rows)| < 2
    ensures GoodSplit(rows, Lone(rows))
  {
    LoneGroup(rows);
    if rows != [] {
      LoneConserves(rows);
      assert forall row | row in Lone(rows) :: row.split == Train;
    }
  }

  /** The ranking splitter: conserving, atomic, strictly chronological, for every input. */
  lemma RankingSplitIsGood(rows: seq<Row>, trainFraction: real, validationFraction: real)
    ensures GoodSplit(rows, RankingSplit(rows, trainFraction, validationFraction))
  {
    MultisetLength(Ordered(rows), Requests(rows));
    if |GroupTimes(rows)| < 2 {
      LoneIsGood(rows);
    } else {
      var cuts := RankingCuts(rows, trainFraction, validationFraction);
      CutIsGood(rows, cuts.0, cuts.1, RankingLeq);
    }
  }

  lemma {:induction false} SnapDownTieFree(times: seq<int>, c: int, low: nat)
    requires low <= c <= |times| && TieFree(times, low)
    ensures TieFree(times, SnapDown(times, c, low))
    decreases c - low
  {
    if low < c < |times| && times[c - 1] == times[c] {
      SnapDownTieFree(times, c - 1, low);
    }
  }

  /** The older splitter, whose assertions can therefore never fire. */
  lemma LegacySplitIsGood(rows: seq<Row>, trainFraction: real, validationFraction: real)
    requires ValidFractions(trainFraction, validationFraction)
    ensures GoodSplit(rows, LegacySplit(rows, trainFraction, validationFraction))
  {
    MultisetLength(Ordered(rows), Requests(rows));
    if |GroupTimes(rows)| < 2 {
      LoneIsGood(rows);
    } else {
      var times := GroupTimes(rows);
      var (t, v) := Boundaries(|times|, trainFraction, validationFraction);
      BoundariesInRange(|times|, trainFraction, validationFraction);
      SnapDownTieFree(times, t, 0);
      SnapDownTieFree(times, v, SnapDown(times, t, 0));
      var cuts := LegacyCuts(rows, trainFraction, validationFraction);
      CutIsGood(rows, cuts.0, cuts.1, VisibleLeq);
    }
  }

  // ---------------------------------------------------------------- the validator's split checks

  /** The rows of one request share `served_at`, as request validation demands. */
  ghost predicate UniformRequests(rows: seq<Row>)
  {
    forall a, b | a in rows && b in rows && a.request == b.request :: a.servedAt == b.servedAt
  }

  /** `validate_dataset_v2`: a request group crosses splits, or some earlier split holds a time later
      than a time of a later split. */
  ghost predicate SplitChecksFire(out: seq<Row>)
  {
    || (exists a, b :: a in out && b in out && a.request == b.request && a.split != b.split)
    || (exists a, b :: a in out && b in out && Rank(a.split) < Rank(b.split) && a.servedAt > b.servedAt)
  }

  lemma UniformTime(rows: seq<Row>, row: Row)
    requires UniformRequests(rows) && row in rows
    ensures TimeOf(rows, row.request) == row.servedAt
  {
    GroupMembers(rows, row.request);
    assert row in GroupOf(rows, row.request);
  }

  lemma ConservedMember(rows: seq<Row>, out: seq<Row>, row: Row)
    requires Conserves(rows, out) && row in out
    ensures exists original :: original in rows && Erase(original) == Erase(row)
  {
    var i :| 0 <= i < |out| && out[i] == row;
    assert EraseAll(out)[i] in EraseAll(out);
    SameMembers(EraseAll(out), EraseAll(rows));
    var j :| 0 <= j < |rows| && EraseAll(rows)[j] == Erase(row);
    assert rows[j] in rows;
  }

  /** On a good split of validated requests every row of an earlier split was served strictly before
      every row of a later one, no timestamp crosses splits, and the validator finds nothing. */
  lemma GoodSplitPassesValidation(rows: seq<Row>, out: seq<Row>)
    requires GoodSplit(rows, out) && UniformRequests(rows)
    ensures forall a, b | a in out && b in out && Rank(a.split) < Rank(b.split) :: a.servedAt < b.servedAt
    ensures forall a, b | a in out && b in out && a.servedAt == b.servedAt :: a.split == b.split
    ensures !SplitChecksFire(out)
  {
    forall a | a in out ensures TimeOf(rows, a.request) == a.servedAt {
      ConservedMember(rows, out, a);
      var original :| original in rows && Erase(original) == Erase(a);
      UniformTime(rows, original);
    }
    forall a, b | a in out && b in out && a.servedAt == b.servedAt ensures a.split == b.split {
      assert Rank(a.split) == Rank(b.split);
    }
  }
}
