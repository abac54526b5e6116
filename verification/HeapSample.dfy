/** Bounded-memory sampling: one pass with a heap of `limit` items equals sorting the whole file. */
module HeapSample {
  import opened Collections
  import opened Options
  import opened Sorting

  /** A raw line, named by its rank in byte order. */
  type Line = nat

  /** The functions of one line that the sampler evaluates: whether it has five fields, whether the
      caller excludes it, and its hash priority. */
  datatype Source = Source(wellFormed: Line -> bool, excluded: Line -> bool, priority: Line -> nat)

  datatype Sample = Sample(rows: seq<Line>, requests: nat, excluded: int)

  /** The heap's order on items `(-priority, line)`. */
  predicate ItemLeq(src: Source, a: Line, b: Line)
  {
    src.priority(b) < src.priority(a) || (src.priority(a) == src.priority(b) && a <= b)
  }

  function Ascending(src: Source): (Line, Line) -> bool
  {
    (a: Line, b: Line) => ItemLeq(src, a, b)
  }

  function Descending(src: Source): (Line, Line) -> bool
  {
    (a: Line, b: Line) => ItemLeq(src, b, a)
  }

  function Kept(lines: seq<Line>, src: Source): (r: seq<Line>)
    ensures |r| <= |lines|
  {
    if lines == [] then []
    else
      var last := lines[|lines| - 1];
      Kept(lines[..|lines| - 1], src) + if src.excluded(last) then [] else [last]
  }

  /** The heap: its least item first. Pushing keeps it ordered; replacing drops the least item. */
  function HeapPush(src: Source, heap: seq<Line>, item: Line): seq<Line>
  {
    Insert(item, heap, Ascending(src))
  }

  function HeapReplace(src: Source, heap: seq<Line>, item: Line): seq<Line>
    requires heap != []
  {
    Insert(item, heap[1..], Ascending(src))
  }

  /** None is a `ValueError`: a bad limit, a malformed line, or too few requests. */
  function SortAndTake(lines: seq<Line>, limit: int, src: Source): Option<Sample>
  {
    Take(AllWellFormed(lines, src), |lines|, Sort(Kept(lines, src), Descending(src)), limit)
  }

  function Take(wellFormed: bool, requests: nat, sorted: seq<Line>, limit: int): Option<Sample>
  {
    if limit < 1 || !wellFormed || |sorted| < limit then None
    else Some(Sample(FirstN(sorted, limit), requests, requests - |sorted|))
  }

  predicate AllWellFormed(lines: seq<Line>, src: Source)
  {
    forall line | line in lines :: src.wellFormed(line)
  }

  /** The `limit` lowest-priority kept lines, in order. */
  function Lowest(lines: seq<Line>, limit: nat, src: Source): seq<Line>
  {
    FirstN(Sort(Kept(lines, src), Descending(src)), limit)
  }

  ghost predicate StrictOrder(leq: (Line, Line) -> bool)
  {
    TotalPreorder(leq) && forall a, b :: leq(a, b) && leq(b, a) ==> a == b
  }

  lemma Orders(src: Source)
    ensures StrictOrder(Ascending(src)) && StrictOrder(Descending(src))
  {
    forall a, b, c | ItemLeq(src, a, b) && ItemLeq(src, b, c) ensures ItemLeq(src, a, c) {}
    forall a, b ensures Ascending(src)(a, b) == ItemLeq(src, a, b) && Descending(src)(a, b) == ItemLeq(src, b, a) {}
  }

  /** Sorting one more item is inserting it. */
  lemma SortSnoc(s: seq<Line>, x: Line, leq: (Line, Line) -> bool)
    requires StrictOrder(leq)
    ensures Sort(s + [x], leq) == Insert(x, Sort(s, leq), leq)
  {
    SortSorted(s + [x], leq);
    SortSorted(s, leq);
    InsertSorted(x, Sort(s, leq), leq);
    assert multiset(Insert(x, Sort(s, leq), leq)) == multiset([x] + Sort(s, leq));
    SortedUnique(Sort(s + [x], leq), Insert(x, Sort(s, leq), leq), leq);
  }

  lemma LargestCons(head: Line, s: seq<Line>, n: nat)
    requires n <= |s|
    ensures LastN([head] + s, n) == LastN(s, n)
  {
    assert ([head] + s)[|s| + 1 - n..] == s[|s| - n..];
  }

  /** Keeping the `n` largest commutes with inserting: push while there is room, replace the least
      when the newcomer exceeds it, ignore it otherwise. */
  lemma {:induction false} LargestInsert(s: seq<Line>, x: Line, n: nat, leq: (Line, Line) -> bool)
    requires Sorted(s, leq) && n > 0 && TotalPreorder(leq)
    ensures LastN(Insert(x, s, leq), n)
         == if |s| < n then Insert(x, s, leq)
            else if !leq(x, LastN(s, n)[0]) then Insert(x, LastN(s, n)[1..], leq)
            else LastN(s, n)
    decreases |s|
  {
    MultisetLength(Insert(x, s, leq), [x] + s);
    if |s| >= n && leq(x, s[0]) {
      LargestCons(x, s, n);
      assert leq(x, LastN(s, n)[0]);
    } else if |s| > n {
      assert s == [s[0]] + s[1..];
      LargestCons(s[0], s[1..], n);
      MultisetLength(Insert(x, s[1..], leq), [x] + s[1..]);
      LargestCons(s[0], Insert(x, s[1..], leq), n);
      LargestInsert(s[1..], x, n, leq);
    } else if |s| == n {
      assert s[0..] == s;
      MultisetLength(Insert(x, s[1..], leq), [x] + s[1..]);
      LargestCons(s[0], Insert(x, s[1..], leq), n);
    }
  }

  /** The heap's contents after the lines read so far. */
  function HeapAfter(lines: seq<Line>, limit: nat, src: Source): seq<Line>
  {
    LastN(Sort(Kept(lines, src), Ascending(src)), limit)
  }

  lemma HeapStep(lines: seq<Line>, line: Line, limit: nat, src: Source)
    requires limit > 0
    ensures var heap := HeapAfter(lines, limit, src);
            HeapAfter(lines + [line], limit, src)
            == (if src.excluded(line) then heap
                else if |heap| < limit then HeapPush(src, heap, line)
                else if !ItemLeq(src, line, heap[0]) then HeapReplace(src, heap, line)
                else heap)
  {
    var leq, kept := Ascending(src), Kept(lines, src);
    assert (lines + [line])[..|lines|] == lines;
    Orders(src);
    if !src.excluded(line) {
      SortSnoc(kept, line, leq);
      SortSorted(kept, leq);
      LargestInsert(Sort(kept, leq), line, limit, leq);
    } else {
      assert kept + [] == kept;
    }
  }

  /** One turn of the loop: skip an excluded line, push, replace the least item, or ignore. */
  method Consider(
      heap: seq<Line>, line: Line, limit: nat, src: Source, ghost before: seq<Line>)
    returns (next: seq<Line>)
    requires limit > 0 && heap == HeapAfter(before, limit, src) && !src.excluded(line)
    ensures next == HeapAfter(before + [line], limit, src)
  {
    HeapStep(before, line, limit, src);
    next := heap;
    if |heap| < limit {
      next := HeapPush(src, heap, line);
    } else if !ItemLeq(src, line, heap[0]) {
      next := HeapReplace(src, heap, line);
    }
  }

  lemma OneMoreLine(lines: seq<Line>, count: nat, limit: nat, src: Source)
    requires count < |lines| && limit > 0
    ensures lines[..count + 1] == lines[..count] + [lines[count]]
    ensures |Kept(lines[..count + 1], src)| == |Kept(lines[..count], src)| + if src.excluded(lines[count]) then 0 else 1
    ensures src.excluded(lines[count])
            ==> HeapAfter(lines[..count + 1], limit, src) == HeapAfter(lines[..count], limit, src)
  {
    assert lines[..count + 1] == lines[..count] + [lines[count]];
    assert lines[..count + 1][..count] == lines[..count];
    HeapStep(lines[..count], lines[count], limit, src);
  }

  lemma WellFormedSnoc(lines: seq<Line>, count: nat, src: Source)
    requires count < |lines|
    ensures AllWellFormed(lines[..count + 1], src)
            <==> AllWellFormed(lines[..count], src) && src.wellFormed(lines[count])
    ensures !src.wellFormed(lines[count]) ==> !AllWellFormed(lines, src)
  {
    assert lines[..count + 1] == lines[..count] + [lines[count]];
    assert lines[count] in lines;
  }

  /** The pass over the file; None at a malformed line. */
  method ReadLines(lines: seq<Line>, limit: nat, src: Source) returns (read: Option<(seq<Line>, nat)>)
    requires limit > 0
    ensures read.Some? <==> AllWellFormed(lines, src)
    ensures read.Some? ==> read.value.0 == HeapAfter(lines, limit, src) && read.value.1 + |Kept(lines, src)| == |lines|
  {
    var heap: seq<Line>, excluded: nat := [], 0;
    for count := 0 to |lines|
      invariant AllWellFormed(lines[..count], src)
      invariant excluded + |Kept(lines[..count], src)| == count
      invariant heap == HeapAfter(lines[..count], limit, src)
    {
      var line := lines[count];
      OneMoreLine(lines, count, limit, src);
      WellFormedSnoc(lines, count, src);
      if !src.wellFormed(line) {
        return None;
      }
      if src.excluded(line) {
        excluded := excluded + 1;
      } else {
        heap := Consider(heap, line, limit, src, lines[..count]);
      }
    }
    assert lines[..|lines|] == lines;
    return Some((heap, excluded));
  }

  method SampleBehaviors(lines: seq<Line>, limit: int, src: Source) returns (sample: Option<Sample>)
    ensures sample == SortAndTake(lines, limit, src)
  {
    if limit < 1 {
      return None;
    }
    var read := ReadLines(lines, limit, src);
    if read.None? || |lines| - read.value.1 < limit {
      return None;
    }
    HeapReadsOut(lines, limit, src);
    return Some(Sample(Sort(read.value.0, Descending(src)), |lines|, read.value.1));
  }

  lemma ReverseSorted(s: seq<Line>, src: Source)
    requires Sorted(s, Ascending(src))
    ensures Sorted(Reverse(s), Descending(src))
  {
    var r := Reverse(s);
    forall i, j | 0 <= i < j < |r| ensures Descending(src)(r[i], r[j]) {
      assert Ascending(src)(s[|s| - 1 - j], s[|s| - 1 - i]);
    }
  }

  lemma DescendingOfSorted(s: seq<Line>, t: seq<Line>, src: Source)
    requires Sorted(s, Ascending(src)) && multiset(s) == multiset(t)
    ensures Sort(t, Descending(src)) == Reverse(s)
  {
    Orders(src);
    ReverseMultiset(s);
    ReverseSorted(s, src);
    SortSorted(t, Descending(src));
    SortedUnique(Sort(t, Descending(src)), Reverse(s), Descending(src));
  }

  lemma LargestSorted(up: seq<Line>, n: nat, leq: (Line, Line) -> bool)
    requires Sorted(up, leq) && n <= |up|
    ensures Sorted(LastN(up, n), leq)
  {
    assert LastN(up, n) == up[|up| - n..];
  }

  lemma {:induction false} LargestReversed(up: seq<Line>, n: nat)
    requires n <= |up|
    ensures Reverse(LastN(up, n)) == Reverse(up)[..n]
    decreases |up|
  {
    if n < |up| {
      assert up == [up[0]] + up[1..];
      LargestCons(up[0], up[1..], n);
      LargestReversed(up[1..], n);
      assert Reverse(up)[..n] == Reverse(up[1..])[..n];
    }
  }

  /** The heap, read out largest first, is the beginning of the whole kept file sorted that way. */
  lemma LargestDescending(kept: seq<Line>, limit: nat, src: Source)
    requires limit <= |kept|
    ensures Sort(LastN(Sort(kept, Ascending(src)), limit), Descending(src))
            == FirstN(Sort(kept, Descending(src)), limit)
  {
    Orders(src);
    var up := Sort(kept, Ascending(src));
    SortSorted(kept, Ascending(src));
    LargestSorted(up, limit, Ascending(src));
    LargestReversed(up, limit);
    DescendingOfSorted(up, kept, src);
    DescendingOfSorted(LastN(up, limit), LastN(up, limit), src);
  }

  lemma HeapReadsOut(lines: seq<Line>, limit: nat, src: Source)
    requires limit <= |Kept(lines, src)|
    ensures Sort(HeapAfter(lines, limit, src), Descending(src)) == Lowest(lines, limit, src)
  {
    LargestDescending(Kept(lines, src), limit, src);
  }

  // ---------------------------------------------------------------- what the sample is

  lemma {:induction false} KeptCount(lines: seq<Line>, src: Source, x: Line)
    ensures multiset(Kept(lines, src))[x] == if src.excluded(x) then 0 else multiset(lines)[x]
  {
    if lines != [] {
      KeptCount(lines[..|lines| - 1], src, x);
      assert lines == lines[..|lines| - 1] + [lines[|lines| - 1]];
    }
  }

  lemma KeptPermutation(a: seq<Line>, b: seq<Line>, src: Source)
    requires multiset(a) == multiset(b)
    ensures multiset(Kept(a, src)) == multiset(Kept(b, src))
  {
    forall x ensures multiset(Kept(a, src))[x] == multiset(Kept(b, src))[x] {
      KeptCount(a, src, x);
      KeptCount(b, src, x);
    }
  }

  /** The sample, and every error, is independent of the order of the lines in the file. */
  lemma SampleIgnoresLineOrder(a: seq<Line>, b: seq<Line>, limit: int, src: Source)
    requires multiset(a) == multiset(b)
    ensures SortAndTake(a, limit, src) == SortAndTake(b, limit, src)
  {
    SameChecks(a, b, src);
    SameLowest(a, b, src);
  }

  lemma SameChecks(a: seq<Line>, b: seq<Line>, src: Source)
    requires multiset(a) == multiset(b)
    ensures |a| == |b| && AllWellFormed(a, src) == AllWellFormed(b, src)
    ensures multiset(Kept(a, src)) == multiset(Kept(b, src))
  {
    SameMembers(a, b);
    MultisetLength(a, b);
    KeptPermutation(a, b, src);
  }

  lemma SameLowest(a: seq<Line>, b: seq<Line>, src: Source)
    requires multiset(Kept(a, src)) == multiset(Kept(b, src))
    ensures Sort(Kept(a, src), Descending(src)) == Sort(Kept(b, src), Descending(src))
  {
    Orders(src);
    SortPermutation(Kept(a, src), Kept(b, src), Descending(src));
  }

  /** Cutting a sorted sequence separates it into taken and left-out elements, in order. */
  lemma CutSorted(all: seq<Line>, limit: nat, leq: (Line, Line) -> bool)
    requires Sorted(all, leq) && limit <= |all|
    ensures multiset(all) == multiset(all[..limit]) + multiset(all[limit..])
    ensures forall row, line | row in all[..limit] && line in all[limit..] :: leq(row, line)
  {
    assert all == all[..limit] + all[limit..];
  }

  ghost predicate LowestOf(rows: seq<Line>, kept: seq<Line>, src: Source)
  {
    && multiset(rows) <= multiset(kept)
    && (forall i, j | 0 <= i < j < |rows| :: src.priority(rows[i]) <= src.priority(rows[j]))
    && (forall line, row | line in multiset(kept) - multiset(rows) && row in rows ::
          src.priority(row) <= src.priority(line))
  }

  lemma CutIsLowest(all: seq<Line>, kept: seq<Line>, limit: nat, src: Source)
    requires Sorted(all, Descending(src)) && multiset(all) == multiset(kept) && limit <= |all|
    ensures LowestOf(all[..limit], kept, src)
  {
    var rows, leq := all[..limit], Descending(src);
    CutSorted(all, limit, leq);
    forall i, j | 0 <= i < j < |rows| ensures src.priority(rows[i]) <= src.priority(rows[j]) {
      assert leq(all[i], all[j]);
    }
    forall line, row | line in multiset(kept) - multiset(rows) && row in rows
      ensures src.priority(row) <= src.priority(line)
    {
      assert line in multiset(all[limit..]);
      assert leq(row, line);
    }
  }

  /** The sample is a sub-multiset of the kept lines, of size `limit`, lowest priorities first, and no
      line left out has a lower priority than one taken. */
  lemma SampleIsLowest(lines: seq<Line>, limit: nat, src: Source)
    requires limit <= |Kept(lines, src)|
    ensures |Lowest(lines, limit, src)| == limit && LowestOf(Lowest(lines, limit, src), Kept(lines, src), src)
  {
    Orders(src);
    var all := Sort(Kept(lines, src), Descending(src));
    SortSorted(Kept(lines, src), Descending(src));
    CutIsLowest(all, Kept(lines, src), limit, src);
    assert |all| == limit ==> all[..limit] == all;
  }
}
