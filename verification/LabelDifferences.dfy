/** When exactly the Python and the Rust label of identified events are equal, and an input on which
    they are not. */
module LabelDifferences {
  import opened Collections
  import opened Options
  import opened Sorting
  import opened Lexicographic
  import opened Labels
  import opened LabelDerivation
  import opened LabelAgreement

  // ---------------------------------------------------------------- the conditions

  ghost predicate ReadableByPython(events: seq<Event>, t: Text)
  {
    && PyTimesReadable(t, events)
    && forall e | e in events :: !PyRaises(t, e)
  }

  ghost predicate OrdersAlike(events: seq<Event>, t: Text)
  {
    forall a, b | a in events && b in events :: PyLeq(t, a, b) <==> RustLeq(a, b)
  }

  ghost predicate PyReads(events: seq<Event>, t: Text, q: int)
  {
    exists e :: e in events && (PyKind(t, e) == View || PyKind(t, e) == Dwell) && PyQualified(t, e, q)
  }

  ghost predicate RustReads(events: seq<Event>, kindOf: string -> Kind, q: int)
  {
    exists e :: e in events && (RustKind(kindOf, e) == View || RustKind(kindOf, e) == Dwell) && RustQualified(e, q)
  }

  /** The events as Python processes them: once each, in its order. */
  ghost function Processed(events: seq<Event>, t: Text): seq<Event>
    requires Identified(events) && !Conflicting(events)
  {
    IdReaders(t);
    GatherIsMeant(events, PyId(t));
    var g := Gather(events, PyId(t));
    Sort(Values(g.unique, g.order), PyOrder(t))
  }

  /** Python can read every time and duration, timestamp texts compare as their instants, and both or
      neither see a qualified read unless something stronger decides. */
  ghost predicate Agreeing(events: seq<Event>, t: Text, q: int, processed: seq<Event>)
  {
    && ReadableByPython(events, t) && OrdersAlike(events, t)
    && ((PyReads(events, t, q) <==> RustReads(events, t.kindOf, q)) || Dominated(PyFacts(t, q, processed)))
  }

  ghost predicate KindsAlike(events: seq<Event>, t: Text)
  {
    forall e | e in events :: PyKind(t, e) == RustKind(t.kindOf, e)
  }

  // ---------------------------------------------------------------- one processed log

  lemma PyReadsAre(a: seq<Event>, t: Text, q: int)
    ensures Reads(PyFacts(t, q, a), |a|) <==> PyReads(a, t, q)
  {
    var f := PyFacts(t, q, a);
    if Reads(f, |a|) {
      var i :| 0 <= i < |a| && (f[i].kind == View || f[i].kind == Dwell) && f[i].qualified;
      assert a[i] in a;
    }
    if PyReads(a, t, q) {
      var e :| e in a && (PyKind(t, e) == View || PyKind(t, e) == Dwell) && PyQualified(t, e, q);
      var i :| 0 <= i < |a| && a[i] == e;
      assert f[i].qualified;
    }
  }

  lemma RustReadsAre(a: seq<Event>, kindOf: string -> Kind, q: int)
    ensures Reads(RustFacts(kindOf, q, a), |a|) <==> RustReads(a, kindOf, q)
  {
    var f := RustFacts(kindOf, q, a);
    if Reads(f, |a|) {
      var i :| 0 <= i < |a| && (f[i].kind == View || f[i].kind == Dwell) && f[i].qualified;
      assert a[i] in a;
    }
    if RustReads(a, kindOf, q) {
      var e :| e in a && (RustKind(kindOf, e) == View || RustKind(kindOf, e) == Dwell) && RustQualified(e, q);
      var i :| 0 <= i < |a| && a[i] == e;
      assert f[i].qualified;
    }
  }

  /** On one processed log the meanings are equal exactly when both or neither see a qualified read, or
      something stronger decides. */
  lemma MeaningsOnLog(a: seq<Event>, t: Text, q: int, closed: bool)
    requires KindsAlike(a, t)
    ensures Meaning(PyFacts(t, q, a), true, false, closed) == Meaning(RustFacts(t.kindOf, q, a), true, false, closed)
       <==> (PyReads(a, t, q) <==> RustReads(a, t.kindOf, q)) || Dominated(PyFacts(t, q, a))
  {
    var f, g := PyFacts(t, q, a), RustFacts(t.kindOf, q, a);
    forall i | 0 <= i < |f| ensures f[i].kind == g[i].kind {
      assert a[i] in a;
    }
    MeaningsAgreeIff(f, g, closed);
    PyReadsAre(a, t, q);
    RustReadsAre(a, t.kindOf, q);
  }

  // ---------------------------------------------------------------- two orders of the same events

  lemma SameIdsSameEvents(a: seq<Event>, b: seq<Event>, t: Text)
    requires |a| == |b| && Identified(a) && Identified(b)
    requires forall x, y | x in a && y in b && Field(x, EventId) == Field(y, EventId) :: x == y
    ensures PyIds(t, a) == RustIds(b) <==> a == b
  {
    if PyIds(t, a) == RustIds(b) {
      forall i | 0 <= i < |a| ensures a[i] == b[i] {
        assert a[i] in a && b[i] in b;
        assert PyIds(t, a)[i] == RustIds(b)[i];
      }
    }
    if a == b {
      forall i | 0 <= i < |a| ensures PyIds(t, a)[i] == RustIds(b)[i] {
        assert a[i] in a;
      }
    }
  }

  lemma SortedAlikeIff(va: seq<Event>, vb: seq<Event>, t: Text)
    requires Identified(va) && !Conflicting(va) && multiset(va) == multiset(vb)
    ensures Sort(va, PyOrder(t)) == Sort(vb, RustLeq) <==> OrdersAlike(va, t)
  {
    OrdersAgreeIff(t, va);
    RustIsOrder();
    IdsBreakTies(t, va);
    SortPermutation(va, vb, RustLeq);
  }

  lemma ReportsUnfold(va: seq<Event>, vb: seq<Event>, duplicates: nat, q: int, closed: bool, t: Text)
    requires |va| == |vb|
    ensures PyConclude(va, duplicates, true, q, closed, false, t) == RustConclude(vb, duplicates, q, closed, t.kindOf)
       <==> && PyTimesReadable(t, va) && PyDurationsReadable(t, Sort(va, PyOrder(t)))
            && PyIds(t, Sort(va, PyOrder(t))) == RustIds(Sort(vb, RustLeq))
            && Meaning(PyFacts(t, q, Sort(va, PyOrder(t))), true, false, closed)
               == Meaning(RustFacts(t.kindOf, q, Sort(vb, RustLeq)), true, false, closed)
  {
  }

  lemma SameReads(va: seq<Event>, a: seq<Event>, t: Text, q: int)
    requires forall e :: e in va <==> e in a
    ensures PyReads(va, t, q) <==> PyReads(a, t, q)
    ensures RustReads(va, t.kindOf, q) <==> RustReads(a, t.kindOf, q)
  {
  }

  lemma SameReadable(va: seq<Event>, a: seq<Event>, t: Text)
    requires forall e :: e in va <==> e in a
    ensures PyTimesReadable(t, va) && PyDurationsReadable(t, a) <==> ReadableByPython(va, t)
    ensures ReadableByPython(va, t) <==> ReadableByPython(a, t)
    ensures KindsAlike(va, t) <==> KindsAlike(a, t)
    ensures Identified(va) <==> Identified(a)
  {
  }

  lemma ProcessedIds(va: seq<Event>, vb: seq<Event>, t: Text)
    requires Identified(va) && !Conflicting(va) && multiset(va) == multiset(vb)
    ensures PyIds(t, Sort(va, PyOrder(t))) == RustIds(Sort(vb, RustLeq)) <==> Sort(va, PyOrder(t)) == Sort(vb, RustLeq)
  {
    SortMembers(va, PyOrder(t));
    SortMembers(vb, RustLeq);
    SameMembers(va, vb);
    MultisetLength(va, vb);
    SameIdsSameEvents(Sort(va, PyOrder(t)), Sort(vb, RustLeq), t);
  }

  lemma ReportsInOtherOrders(va: seq<Event>, vb: seq<Event>, duplicates: nat, q: int, closed: bool, t: Text)
    requires Identified(va) && !Conflicting(va) && multiset(va) == multiset(vb)
    requires Sort(va, PyOrder(t)) != Sort(vb, RustLeq)
    ensures PyConclude(va, duplicates, true, q, closed, false, t) != RustConclude(vb, duplicates, q, closed, t.kindOf)
  {
    MultisetLength(va, vb);
    ReportsUnfold(va, vb, duplicates, q, closed, t);
    ProcessedIds(va, vb, t);
  }

  lemma ReportsInOneOrder(
      va: seq<Event>, vb: seq<Event>, a: seq<Event>, duplicates: nat, q: int, closed: bool, t: Text)
    requires Identified(va) && !Conflicting(va) && multiset(va) == multiset(vb) && KindsAlike(a, t)
    requires a == Sort(va, PyOrder(t)) == Sort(vb, RustLeq)
    ensures PyConclude(va, duplicates, true, q, closed, false, t) == RustConclude(vb, duplicates, q, closed, t.kindOf)
       <==> && PyTimesReadable(t, va) && PyDurationsReadable(t, a)
            && ((PyReads(a, t, q) <==> RustReads(a, t.kindOf, q)) || Dominated(PyFacts(t, q, a)))
  {
    MultisetLength(va, vb);
    ReportsUnfold(va, vb, duplicates, q, closed, t);
    ProcessedIds(va, vb, t);
    MeaningsOnLog(a, t, q, closed);
  }

  /** The two reports of one gathering. */
  lemma ReportsEqualIff(va: seq<Event>, vb: seq<Event>, duplicates: nat, q: int, closed: bool, t: Text)
    requires Identified(va) && !Conflicting(va) && multiset(va) == multiset(vb) && KindsAlike(va, t)
    ensures PyConclude(va, duplicates, true, q, closed, false, t) == RustConclude(vb, duplicates, q, closed, t.kindOf)
       <==> Agreeing(va, t, q, Sort(va, PyOrder(t)))
  {
    var a := Sort(va, PyOrder(t));
    SortedAlikeIff(va, vb, t);
    if a == Sort(vb, RustLeq) {
      SortMembers(va, PyOrder(t));
      SameReadable(va, a, t);
      SameReads(va, a, t, q);
      ReportsInOneOrder(va, vb, a, duplicates, q, closed, t);
    } else {
      ReportsInOtherOrders(va, vb, duplicates, q, closed, t);
    }
  }

  lemma AgreeingAlike(events: seq<Event>, va: seq<Event>, t: Text, q: int, processed: seq<Event>)
    requires forall e :: e in va <==> e in events
    ensures Agreeing(events, t, q, processed) <==> Agreeing(va, t, q, processed)
  {
    SameReadable(events, va, t);
    SameReads(events, va, t, q);
    assert OrdersAlike(events, t) <==> OrdersAlike(va, t);
  }

  // ---------------------------------------------------------------- the theorem

  lemma GatheredLabels(raw: seq<Event>, defaults: Event, q: int, closed: bool, t: Text, hashOrder: seq<string>)
    requires Identified(MergeAll(defaults, raw)) && !Conflicting(MergeAll(defaults, raw))
            && MayYield(raw, defaults, hashOrder)
    ensures var g := Gather(MergeAll(defaults, raw), PyId(t));
            && GatherMeans(MergeAll(defaults, raw), g) && multiset(hashOrder) == multiset(g.order)
            && (forall id | id in hashOrder :: id in g.unique)
            && PyLabel(raw, defaults, true, q, closed, false, t)
               == (if q <= 0 then Rejected
                   else PyConclude(Values(g.unique, g.order), g.duplicates, true, q, closed, false, t))
            && RustLabel(raw, defaults, q, closed, t.kindOf, hashOrder)
               == (if q <= 0 then Rejected
                   else RustConclude(Values(g.unique, hashOrder), g.duplicates, q, closed, t.kindOf))
  {
    var events := MergeAll(defaults, raw);
    IdReaders(t);
    SameGather(events, PyId(t), RustId);
    GatherIsMeant(events, PyId(t));
    var g := Gather(events, PyId(t));
    SameMembers(hashOrder, g.order);
    AppendNothing(Values(g.unique, g.order), g.anonymous);
    AppendNothing(Values(g.unique, hashOrder), g.anonymous);
  }

  lemma ValuesOf(events: seq<Event>, t: Text, hashOrder: seq<string>)
    requires Identified(events) && !Conflicting(events)
    requires GatherMeans(events, Gather(events, PyId(t)))
            && multiset(hashOrder) == multiset(Gather(events, PyId(t)).order)
    ensures var g := Gather(events, PyId(t));
            && (forall id | id in hashOrder :: id in g.unique)
            && multiset(Values(g.unique, g.order)) == multiset(Values(g.unique, hashOrder))
            && (forall e :: e in Values(g.unique, g.order) <==> e in events)
  {
    var g := Gather(events, PyId(t));
    ValuesFacts(events, g, g.order);
    ValuesFacts(events, g, hashOrder);
    SameSetDistinct(Values(g.unique, g.order), Values(g.unique, hashOrder));
  }

  lemma UnconflictedLabels(raw: seq<Event>, defaults: Event, q: int, closed: bool, t: Text, hashOrder: seq<string>)
    requires Identified(MergeAll(defaults, raw)) && !Conflicting(MergeAll(defaults, raw))
    requires KindsAlike(MergeAll(defaults, raw), t) && MayYield(raw, defaults, hashOrder) && q > 0
    ensures PyLabel(raw, defaults, true, q, closed, false, t)
            == RustLabel(raw, defaults, q, closed, t.kindOf, hashOrder)
       <==> Agreeing(MergeAll(defaults, raw), t, q, Processed(MergeAll(defaults, raw), t))
  {
    var events := MergeAll(defaults, raw);
    GatheredLabels(raw, defaults, q, closed, t, hashOrder);
    ValuesOf(events, t, hashOrder);
    var g := Gather(events, PyId(t));
    var va := Values(g.unique, g.order);
    SameReadable(events, va, t);
    ReportsEqualIff(va, Values(g.unique, hashOrder), g.duplicates, q, closed, t);
    AgreeingAlike(events, va, t, q, Processed(events, t));
  }

  /** The Python and the Rust label of identified events of the same kinds are equal exactly when both
      reject, for a bad threshold or a conflict, or the two readings of the events agree. */
  lemma LabelsEqualIff(raw: seq<Event>, defaults: Event, q: int, closed: bool, t: Text, hashOrder: seq<string>)
    requires Identified(MergeAll(defaults, raw)) && KindsAlike(MergeAll(defaults, raw), t)
    requires MayYield(raw, defaults, hashOrder)
    ensures PyLabel(raw, defaults, true, q, closed, false, t)
            == RustLabel(raw, defaults, q, closed, t.kindOf, hashOrder)
       <==> || q <= 0 || Conflicting(MergeAll(defaults, raw))
            || Agreeing(MergeAll(defaults, raw), t, q, Processed(MergeAll(defaults, raw), t))
  {
    if Conflicting(MergeAll(defaults, raw)) {
      ConflictRejects(raw, defaults, q, closed, t, hashOrder);
    } else if q > 0 {
      UnconflictedLabels(raw, defaults, q, closed, t, hashOrder);
    }
  }

  lemma ConflictRejects(raw: seq<Event>, defaults: Event, q: int, closed: bool, t: Text, hashOrder: seq<string>)
    requires Identified(MergeAll(defaults, raw)) && Conflicting(MergeAll(defaults, raw))
    ensures PyLabel(raw, defaults, true, q, closed, false, t) == Rejected
    ensures RustLabel(raw, defaults, q, closed, t.kindOf, hashOrder) == Rejected
  {
    IdReaders(t);
    GatherIsMeant(MergeAll(defaults, raw), PyId(t));
    GatherIsMeant(MergeAll(defaults, raw), RustId);
  }

  // ---------------------------------------------------------------- inputs on which they differ

  lemma {:induction false} CommonPrefix(prefix: string, a: string, b: string)
    ensures StringLeq(prefix + a, prefix + b) <==> StringLeq(a, b)
    decreases |prefix|
  {
    if prefix == [] {
      assert prefix + a == a && prefix + b == b;
    } else {
      assert (prefix + a)[1..] == prefix[1..] + a && (prefix + b)[1..] == prefix[1..] + b;
      CommonPrefix(prefix[1..], a, b);
    }
  }

  function OnDate(date: string, time: string): string
  {
    date + time
  }

  /** Half past midnight at +01:00 is before midnight UTC, and sorts after it as text. */
  lemma OffsetTextSortsLate(date: string)
    ensures StringLeq(OnDate(date, "00:00Z"), OnDate(date, "00:30+01:00"))
    ensures OnDate(date, "00:00Z") != OnDate(date, "00:30+01:00")
  {
    var late, early := "00:00Z", "00:30+01:00";
    assert late == "00:" + "00Z" && early == "00:" + "30+01:00";
    assert StringLeq("00Z", "30+01:00");
    CommonPrefix("00:", "00Z", "30+01:00");
    CommonPrefix(date, late, early);
    assert |date + late| != |date + early|;
  }

  function Dated(id: string, time: string): Event
  {
    map[EventId := Str(id), OccurredAt := Str(time)]
  }

  /** Two events whose UTC offsets differ: Python orders them by instant, Rust by text, so the two
      processing orders, and with them the results, differ. */
  lemma OffsetsDisagree(
      t: Text, q: int, closed: bool, date: string, a: string, b: string, raw: seq<Event>, hashOrder: seq<string>)
    requires q > 0 && a != b && MayYield(raw, map[], hashOrder)
    requires raw == [Dated(a, OnDate(date, "00:30+01:00")), Dated(b, OnDate(date, "00:00Z"))]
    requires t.parseTime(OnDate(date, "00:30+01:00")).Some? && t.parseTime(OnDate(date, "00:00Z")).Some?
    requires t.parseTime(OnDate(date, "00:30+01:00")).value < t.parseTime(OnDate(date, "00:00Z")).value
    ensures PyLabel(raw, map[], true, q, closed, false, t) != RustLabel(raw, map[], q, closed, t.kindOf, hashOrder)
  {
    var x, y := Dated(a, OnDate(date, "00:30+01:00")), Dated(b, OnDate(date, "00:00Z"));
    PlainEvents(raw);
    var events := MergeAll(map[], raw);
    assert events == raw == [x, y];
    KindsWithoutType(events, t);
    assert Field(x, EventId) != Field(y, EventId);
    assert !Conflicting(events);
    OffsetTextSortsLate(date);
    OneWayOnly(x, y, t);
    assert x in events && y in events && !OrdersAlike(events, t);
    LabelsEqualIff(raw, map[], q, closed, t, hashOrder);
  }

  lemma PlainEvents(raw: seq<Event>)
    ensures MergeAll(map[], raw) == raw
  {
    forall i | 0 <= i < |raw| ensures MergeAll(map[], raw)[i] == raw[i] {
      assert map[] + raw[i] == raw[i];
    }
  }

  lemma KindsWithoutType(events: seq<Event>, t: Text)
    requires forall e | e in events :: EventType !in e
    ensures KindsAlike(events, t)
  {
  }

  lemma OneWayOnly(x: Event, y: Event, t: Text)
    requires Field(x, OccurredAt).Str? && Field(y, OccurredAt).Str? && Field(x, OccurredAt) != Field(y, OccurredAt)
    requires PyInstant(t, Field(x, OccurredAt)) < PyInstant(t, Field(y, OccurredAt))
    requires StringLeq(Field(y, OccurredAt).s, Field(x, OccurredAt).s)
    ensures PyLeq(t, x, y) && !RustLeq(x, y)
  {
    StringOrder();
  }

  lemma SomeOrder(raw: seq<Event>) returns (hashOrder: seq<string>)
    ensures MayYield(raw, map[], hashOrder)
  {
    var g := Gather(MergeAll(map[], raw), RustId);
    hashOrder := if g.Gathered? then g.order else [];
  }

  /** One event that Python cannot read: it rejects, and Rust does not. */
  lemma UnreadableDisagrees(t: Text, q: int, closed: bool, e: Event, raw: seq<Event>, hashOrder: seq<string>)
    requires q > 0 && raw == [e] && Field(e, EventId).Str? && MayYield(raw, map[], hashOrder) && PyRaises(t, e)
    ensures PyLabel(raw, map[], true, q, closed, false, t) == Rejected
    ensures RustLabel(raw, map[], q, closed, t.kindOf, hashOrder).Labelled?
  {
    PlainEvents(raw);
    var events := MergeAll(map[], raw);
    assert e in events && Identified(events) && !Conflicting(events);
    GatheredLabels(raw, map[], q, closed, t, hashOrder);
    ValuesOf(events, t, hashOrder);
    var g := Gather(events, PyId(t));
    SortMembers(Values(g.unique, g.order), PyOrder(t));
    assert e in Sort(Values(g.unique, g.order), PyOrder(t));
  }
}
