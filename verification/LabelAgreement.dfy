/** When the two label derivations agree, and that neither depends on the order of its input. */
module LabelAgreement {
  import opened Collections
  import opened Options
  import opened Sorting
  import opened Lexicographic
  import opened Labels
  import opened LabelDerivation

  /** Every event carries a string id. */
  ghost predicate Identified(events: seq<Event>)
  {
    forall e | e in events :: Field(e, EventId).Str?
  }

  function IdOf(e: Event): string
    requires Field(e, EventId).Str?
  {
    Field(e, EventId).s
  }

  ghost predicate NamesIds(idOf: Event -> Option<string>)
  {
    forall e: Event | Field(e, EventId).Str? :: idOf(e) == Some(IdOf(e))
  }

  /** Two events claim one id with different contents. */
  ghost predicate Conflicting(events: seq<Event>)
  {
    exists e, f :: e in events && f in events && Field(e, EventId) == Field(f, EventId) && e != f
  }

  /** What gathering identified events without a conflict yields. */
  ghost predicate GatherMeans(events: seq<Event>, g: Gathered)
    requires Identified(events)
  {
    && g.Gathered? && g.anonymous == [] && g.duplicates + |g.order| == |events|
    && (forall i, j | 0 <= i < j < |g.order| :: g.order[i] != g.order[j])
    && (forall id :: id in g.order <==> id in g.unique)
    && (forall e | e in events :: IdOf(e) in g.unique && g.unique[IdOf(e)] == e)
    && (forall id | id in g.unique :: g.unique[id] in events && Field(g.unique[id], EventId) == Str(id))
  }

  lemma GatherMeansStep(init: seq<Event>, last: Event, g: Gathered)
    requires Identified(init + [last]) && Identified(init) && GatherMeans(init, g)
    ensures var g' := GatherStep(g, last, Some(IdOf(last)));
            if IdOf(last) in g.unique && g.unique[IdOf(last)] != last then g' == Conflict
            else GatherMeans(init + [last], g')
  {
    assert last in init + [last];
  }

  lemma {:induction false} GatherIsMeant(events: seq<Event>, idOf: Event -> Option<string>)
    requires Identified(events) && NamesIds(idOf)
    ensures Gather(events, idOf).Conflict? <==> Conflicting(events)
    ensures !Conflicting(events) ==> GatherMeans(events, Gather(events, idOf))
  {
    if events != [] {
      var init, last := events[..|events| - 1], events[|events| - 1];
      assert events == init + [last];
      assert Identified(init);
      GatherIsMeant(init, idOf);
      if Conflicting(init) {
        var e, f :| e in init && f in init && Field(e, EventId) == Field(f, EventId) && e != f;
        assert e in events && f in events;
      } else {
        GatherMeansStep(init, last, Gather(init, idOf));
        ConflictStep(init, last, Gather(init, idOf));
      }
    }
  }

  lemma ConflictStep(init: seq<Event>, last: Event, g: Gathered)
    requires Identified(init + [last]) && Identified(init) && GatherMeans(init, g) && !Conflicting(init)
    ensures Conflicting(init + [last]) <==> IdOf(last) in g.unique && g.unique[IdOf(last)] != last
  {
    assert last in init + [last];
    if IdOf(last) in g.unique && g.unique[IdOf(last)] != last {
      var e := g.unique[IdOf(last)];
      assert e in init + [last];
    }
    if Conflicting(init + [last]) {
      var e, f :| e in init + [last] && f in init + [last] && Field(e, EventId) == Field(f, EventId) && e != f;
      assert (e == last && f in init) || (f == last && e in init);
    }
  }

  lemma ValuesFacts(events: seq<Event>, g: Gathered, order: seq<string>)
    requires Identified(events) && GatherMeans(events, g) && multiset(order) == multiset(g.order)
    ensures forall id | id in order :: id in g.unique
    ensures forall e :: e in Values(g.unique, order) <==> e in events
    ensures forall i, j | 0 <= i < j < |order| :: Values(g.unique, order)[i] != Values(g.unique, order)[j]
  {
    SameMembers(order, g.order);
    PermutedDistinct(order, g.order);
    var v := Values(g.unique, order);
    forall i, j | 0 <= i < j < |order| ensures v[i] != v[j] {
      assert order[i] in order && order[j] in order;
      assert Field(v[i], EventId) == Str(order[i]) && Field(v[j], EventId) == Str(order[j]);
    }
    forall e | e in v ensures e in events {
      var i :| 0 <= i < |v| && v[i] == e;
      assert order[i] in order;
    }
    forall e | e in events ensures e in v {
      assert IdOf(e) in order;
      var i :| 0 <= i < |order| && order[i] == IdOf(e);
      assert v[i] == e;
    }
  }

  // ---------------------------------------------------------------- the two processing orders

  lemma PyIsOrder(t: Text)
    ensures TotalPreorder(PyOrder(t))
  {
    StringOrder();
    forall a, b, c | PyLeq(t, a, b) && PyLeq(t, b, c) ensures PyLeq(t, a, c) {}
    forall a, b ensures PyLeq(t, a, b) || PyLeq(t, b, a) {}
    forall a, b ensures PyOrder(t)(a, b) == PyLeq(t, a, b) {}
  }

  lemma RustIsOrder()
    ensures TotalPreorder(RustLeq)
  {
    StringOrder();
    forall a, b, c | RustLeq(a, b) && RustLeq(b, c) ensures RustLeq(a, c) {}
    forall a, b ensures RustLeq(a, b) || RustLeq(b, a) {}
  }

  lemma IdsBreakTies(t: Text, s: seq<Event>)
    requires Identified(s) && !Conflicting(s)
    ensures KeysIdentify(s, PyOrder(t)) && KeysIdentify(s, RustLeq)
  {
    StringOrder();
    forall a, b | a in s && b in s && PyOrder(t)(a, b) && PyOrder(t)(b, a) ensures a == b {
      assert PyLeq(t, a, b) && PyLeq(t, b, a);
      assert Field(a, EventId) == Field(b, EventId);
    }
    forall a, b | a in s && b in s && RustLeq(a, b) && RustLeq(b, a) ensures a == b {
      assert Field(a, EventId) == Field(b, EventId);
    }
  }

  /** The two languages process identified events in the same order exactly when, on these events,
      timestamp texts compare as the instants they denote. */
  lemma OrdersAgreeIff(t: Text, s: seq<Event>)
    requires Identified(s) && !Conflicting(s)
    ensures Sort(s, PyOrder(t)) == Sort(s, RustLeq) <==>
              forall a, b | a in s && b in s :: PyLeq(t, a, b) <==> RustLeq(a, b)
  {
    PyIsOrder(t);
    RustIsOrder();
    IdsBreakTies(t, s);
    SortsAgreeIff(s, PyOrder(t), RustLeq);
    forall a, b ensures PyOrder(t)(a, b) == PyLeq(t, a, b) {}
  }

  // ---------------------------------------------------------------- the two duration readings

  /** Some candidate at least as strong as a qualified read, whatever the durations say. */
  ghost predicate Dominated(facts: seq<Fact>)
  {
    || Candidate(facts, true, false, StrongNegative)
    || Candidate(facts, true, false, StrongPositive)
    || Candidate(facts, true, false, Positive)
  }

  ghost predicate SameKinds(f: seq<Fact>, g: seq<Fact>)
  {
    |f| == |g| && forall i | 0 <= i < |f| :: f[i].kind == g[i].kind
  }

  lemma ActiveCarries(f: seq<Fact>, g: seq<Fact>, k: Kind)
    requires SameKinds(f, g) && Active(f, |f|, k)
    ensures Active(g, |g|, k)
  {
    var i :| 0 <= i < |f| && f[i].kind == k && forall j | i < j < |f| :: f[j].kind != UndoOf(k);
    assert g[i].kind == k;
    assert forall j | i < j < |g| :: g[j].kind == f[j].kind;
  }

  lemma HasCarries(f: seq<Fact>, g: seq<Fact>, k: Kind)
    requires SameKinds(f, g) && Has(f, |f|, k)
    ensures Has(g, |g|, k)
  {
    var i :| 0 <= i < |f| && f[i].kind == k;
    assert g[i].kind == k;
  }

  lemma SameKindsSameState(f: seq<Fact>, g: seq<Fact>, k: Kind)
    requires SameKinds(f, g)
    ensures Has(f, |f|, k) <==> Has(g, |g|, k)
    ensures Active(f, |f|, k) <==> Active(g, |g|, k)
  {
    if Has(f, |f|, k) { HasCarries(f, g, k); }
    if Has(g, |g|, k) { HasCarries(g, f, k); }
    if Active(f, |f|, k) { ActiveCarries(f, g, k); }
    if Active(g, |g|, k) { ActiveCarries(g, f, k); }
  }

  lemma SameKindsSameCandidates(f: seq<Fact>, g: seq<Fact>, s: Semantic)
    requires SameKinds(f, g) && s != QualifiedRead
    ensures Candidate(f, true, false, s) <==> Candidate(g, true, false, s)
  {
    SameKindsSameState(f, g, Report);
    SameKindsSameState(f, g, Hide);
    SameKindsSameState(f, g, Save);
    SameKindsSameState(f, g, Share);
    SameKindsSameState(f, g, Like);
    SameKindsSameState(f, g, Comment);
    SameKindsSameState(f, g, Click);
  }

  /** On one processed log the two v2 labels agree exactly when both or neither see a qualified read,
      or a stronger candidate decides anyway. */
  lemma MeaningsAgreeIff(f: seq<Fact>, g: seq<Fact>, closed: bool)
    requires SameKinds(f, g)
    ensures Meaning(f, true, false, closed) == Meaning(g, true, false, closed)
            <==> (Reads(f, |f|) <==> Reads(g, |g|)) || Dominated(f)
  {
    SameKindsSameCandidates(f, g, StrongNegative);
    SameKindsSameCandidates(f, g, StrongPositive);
    SameKindsSameCandidates(f, g, Positive);
    SameKindsSameCandidates(f, g, Clicked);
  }

  /** The languages read this event's type and duration alike. */
  ghost predicate ReadAlike(t: Text, q: int, e: Event)
  {
    && PyKind(t, e) == RustKind(t.kindOf, e)
    && !PyRaises(t, e)
    && ((PyKind(t, e) == View || PyKind(t, e) == Dwell) ==> (PyQualified(t, e, q) <==> RustQualified(e, q)))
  }

  /** `dwell_ms` beside a shorter `continuous_visible_ms` in the metadata, as the ingest stores a v1
      view: Python reads the metadata value first, Rust the top-level one. */
  lemma DurationsDisagree(t: Text, q: int, id: string, short: int, long: int)
    requires short < q <= long < 0x8000_0000_0000_0000 && 0 <= short
    ensures var e: Event := map[EventId := Str(id), EventType := Str("view"), DwellMs := Num(long),
                                Metadata := Obj(map[ContinuousVisibleMs := Num(short)])];
            !PyQualified(t, e, q) && RustQualified(e, q)
  {
    var e: Event := map[EventId := Str(id), EventType := Str("view"), DwellMs := Num(long),
                        Metadata := Obj(map[ContinuousVisibleMs := Num(short)])];
    assert PyValue(e, ContinuousVisibleMs) == Num(short);
    assert RustDuration(e) == Some(long);
  }

  // ---------------------------------------------------------------- the theorems

  /** Identified events whose times and durations both languages read alike. */
  ghost predicate Comparable(events: seq<Event>, t: Text, q: int)
  {
    && Identified(events)
    && (forall e | e in events :: ReadAlike(t, q, e))
    && (forall e | e in events :: PyTimeReadable(t, Field(e, OccurredAt)) && PyTimeReadable(t, Field(e, IngestedAt)))
    && (forall a, b | a in events && b in events :: PyLeq(t, a, b) <==> RustLeq(a, b))
  }

  lemma IdReaders(t: Text)
    ensures NamesIds(PyId(t)) && NamesIds(RustId)
  {}

  lemma SortedValuesAgree(events: seq<Event>, g: Gathered, order: seq<string>, t: Text, q: int)
    requires Comparable(events, t, q) && !Conflicting(events) && GatherMeans(events, g)
    requires multiset(order) == multiset(g.order)
    ensures forall id | id in order :: id in g.unique
    ensures Sort(Values(g.unique, g.order), PyOrder(t)) == Sort(Values(g.unique, order), RustLeq)
  {
    ValuesFacts(events, g, g.order);
    ValuesFacts(events, g, order);
    var a, b := Values(g.unique, g.order), Values(g.unique, order);
    SameSetDistinct(a, b);
    assert Identified(a) && !Conflicting(a);
    assert forall x, y | x in a && y in a :: PyLeq(t, x, y) <==> RustLeq(x, y);
    SortedAcross(t, a, b);
  }

  lemma SortedValuesMembers(events: seq<Event>, g: Gathered, order: seq<string>)
    requires Identified(events) && GatherMeans(events, g) && multiset(order) == multiset(g.order)
    ensures forall id | id in order :: id in g.unique
    ensures forall e | e in Sort(Values(g.unique, order), RustLeq) :: e in events
  {
    ValuesFacts(events, g, order);
    SortMembers(Values(g.unique, order), RustLeq);
  }

  /** Two arrangements of the same identified events sort alike under two orders that compare them alike. */
  lemma SortedAcross(t: Text, a: seq<Event>, b: seq<Event>)
    requires Identified(a) && !Conflicting(a) && multiset(a) == multiset(b)
    requires forall x, y | x in a && y in a :: PyLeq(t, x, y) <==> RustLeq(x, y)
    ensures Sort(a, PyOrder(t)) == Sort(b, RustLeq)
  {
    OrdersAgreeIff(t, a);
    RustIsOrder();
    IdsBreakTies(t, a);
    SortPermutation(a, b, RustLeq);
  }

  lemma SameIds(accepted: seq<Event>, t: Text)
    requires forall e | e in accepted :: Field(e, EventId).Str?
    ensures PyIds(t, accepted) == RustIds(accepted)
  {
    forall i | 0 <= i < |accepted| ensures PyIds(t, accepted)[i] == RustIds(accepted)[i] {
      assert accepted[i] in accepted;
    }
  }

  lemma SameFacts(accepted: seq<Event>, t: Text, q: int, closed: bool)
    requires forall e | e in accepted :: ReadAlike(t, q, e)
    ensures Meaning(PyFacts(t, q, accepted), true, false, closed)
            == Meaning(RustFacts(t.kindOf, q, accepted), true, false, closed)
  {
    var f, g := PyFacts(t, q, accepted), RustFacts(t.kindOf, q, accepted);
    forall i | 0 <= i < |accepted|
      ensures f[i].kind == g[i].kind
      ensures (f[i].kind == View || f[i].kind == Dwell) ==> f[i].qualified == g[i].qualified
    {
      assert accepted[i] in accepted;
    }
    if Reads(f, |f|) {
      var i :| 0 <= i < |f| && (f[i].kind == View || f[i].kind == Dwell) && f[i].qualified;
      assert g[i].qualified;
    }
    if Reads(g, |g|) {
      var i :| 0 <= i < |g| && (g[i].kind == View || g[i].kind == Dwell) && g[i].qualified;
      assert f[i].qualified;
    }
    MeaningsAgreeIff(f, g, closed);
  }

  lemma ConclusionsAgree(
      events: seq<Event>, g: Gathered, order: seq<string>, q: int, closed: bool, t: Text)
    requires Comparable(events, t, q) && !Conflicting(events) && GatherMeans(events, g)
    requires multiset(order) == multiset(g.order)
    ensures forall id | id in order :: id in g.unique
    ensures PyConclude(Values(g.unique, g.order), g.duplicates, true, q, closed, false, t)
         == RustConclude(Values(g.unique, order), g.duplicates, q, closed, t.kindOf)
  {
    SortedValuesAgree(events, g, order, t, q);
    SortedValuesMembers(events, g, order);
    ValuesFacts(events, g, g.order);
    SameIds(Sort(Values(g.unique, order), RustLeq), t);
    SameFacts(Sort(Values(g.unique, order), RustLeq), t, q, closed);
  }

  /** The contract both implementations claim: on comparable events the Python and the Rust label,
      target, counts and processing order are the same, or both reject, whatever order the Rust hash
      map happens to iterate in. */
  lemma PythonAndRustAgree(
      raw: seq<Event>, defaults: Event, q: int, closed: bool, t: Text, hashOrder: seq<string>)
    requires Comparable(MergeAll(defaults, raw), t, q)
    requires MayYield(raw, defaults, hashOrder)
    ensures PyLabel(raw, defaults, true, q, closed, false, t)
            == RustLabel(raw, defaults, q, closed, t.kindOf, hashOrder)
  {
    var events := MergeAll(defaults, raw);
    IdReaders(t);
    SameGather(events, PyId(t), RustId);
    GatherIsMeant(events, RustId);
    var g := Gather(events, RustId);
    if q > 0 && g.Gathered? {
      GatheredAgree(events, g, hashOrder, q, closed, t);
    }
  }

  lemma GatheredAgree(events: seq<Event>, g: Gathered, order: seq<string>, q: int, closed: bool, t: Text)
    requires Comparable(events, t, q) && !Conflicting(events) && GatherMeans(events, g)
    requires multiset(order) == multiset(g.order)
    ensures forall id | id in order :: id in g.unique
    ensures PyConclude(Values(g.unique, g.order) + g.anonymous, g.duplicates, true, q, closed, false, t)
         == RustConclude(Values(g.unique, order) + g.anonymous, g.duplicates, q, closed, t.kindOf)
  {
    ConclusionsAgree(events, g, order, q, closed, t);
    AppendNothing(Values(g.unique, g.order), g.anonymous);
    AppendNothing(Values(g.unique, order), g.anonymous);
  }

  lemma AppendNothing(s: seq<Event>, none: seq<Event>)
    requires none == []
    ensures s + none == s
  {
  }

  lemma {:induction false} SameGather(events: seq<Event>, idOf: Event -> Option<string>, idOf': Event -> Option<string>)
    requires Identified(events) && NamesIds(idOf) && NamesIds(idOf')
    ensures Gather(events, idOf) == Gather(events, idOf')
  {
    if events != [] {
      var init, last := events[..|events| - 1], events[|events| - 1];
      assert events == init + [last];
      assert last in events;
      SameGather(init, idOf, idOf');
    }
  }

  /** Reordered events gather the same values, which sort alike. */
  lemma SameAccepted(ea: seq<Event>, eb: seq<Event>, t: Text)
    requires multiset(ea) == multiset(eb) && Identified(ea) && !Conflicting(ea)
    ensures var ga, gb := Gather(ea, PyId(t)), Gather(eb, PyId(t));
            && Identified(eb) && GatherMeans(ea, ga) && GatherMeans(eb, gb)
            && ga.duplicates == gb.duplicates
            && Sort(Values(ga.unique, ga.order), PyOrder(t)) == Sort(Values(gb.unique, gb.order), PyOrder(t))
            && forall e :: e in Values(ga.unique, ga.order) <==> e in Values(gb.unique, gb.order)
  {
    SameMembers(ea, eb);
    MultisetLength(ea, eb);
    var va := GatheredValues(ea, t);
    var vb := GatheredValues(eb, t);
    SameValuesSort(va, vb, t);
  }

  /** What Python gathers: each event once, and every further copy counted as a duplicate. */
  lemma GatheredValues(events: seq<Event>, t: Text) returns (values: seq<Event>)
    requires Identified(events) && !Conflicting(events)
    ensures var g := Gather(events, PyId(t));
            && GatherMeans(events, g) && values == Values(g.unique, g.order)
            && Distinct(values) && g.duplicates + |values| == |events|
            && forall e :: e in values <==> e in events
  {
    IdReaders(t);
    GatherIsMeant(events, PyId(t));
    var g := Gather(events, PyId(t));
    ValuesFacts(events, g, g.order);
    values := Values(g.unique, g.order);
  }

  lemma SameValuesSort(va: seq<Event>, vb: seq<Event>, t: Text)
    requires Distinct(va) && Distinct(vb) && (forall e :: e in va <==> e in vb)
    requires Identified(va) && !Conflicting(va)
    ensures |va| == |vb| && Sort(va, PyOrder(t)) == Sort(vb, PyOrder(t))
  {
    SameSetDistinct(va, vb);
    MultisetLength(va, vb);
    PyIsOrder(t);
    IdsBreakTies(t, va);
    SortPermutation(va, vb, PyOrder(t));
  }

  lemma SameConclusion(
      va: seq<Event>, vb: seq<Event>, duplicates: nat, v2: bool, q: int, closed: bool, anyView: bool, t: Text)
    requires Sort(va, PyOrder(t)) == Sort(vb, PyOrder(t)) && forall e :: e in va <==> e in vb
    ensures PyConclude(va, duplicates, v2, q, closed, anyView, t)
            == PyConclude(vb, duplicates, v2, q, closed, anyView, t)
  {}

  /** The label of identified events without a conflict, as a conclusion over the gathered values. */
  lemma LabelOfGathered(
      raw: seq<Event>, defaults: Event, v2: bool, q: int, closed: bool, anyView: bool, t: Text) returns (o: Outcome)
    requires var events := MergeAll(defaults, raw);
             Identified(events) && !Conflicting(events)
    ensures PyLabel(raw, defaults, v2, q, closed, anyView, t) == if q <= 0 then Rejected else o
    ensures var g := Gather(MergeAll(defaults, raw), PyId(t));
            && GatherMeans(MergeAll(defaults, raw), g)
            && o == PyConclude(Values(g.unique, g.order), g.duplicates, v2, q, closed, anyView, t)
  {
    IdReaders(t);
    GatherIsMeant(MergeAll(defaults, raw), PyId(t));
    var g := Gather(MergeAll(defaults, raw), PyId(t));
    assert Values(g.unique, g.order) + g.anonymous == Values(g.unique, g.order);
    o := PyConclude(Values(g.unique, g.order), g.duplicates, v2, q, closed, anyView, t);
  }

  /** The label is a function of the identified events, not of their delivery order. */
  lemma LabelIsOrderFree(
      a: seq<Event>, b: seq<Event>, defaults: Event, v2: bool, q: int, closed: bool, anyView: bool, t: Text)
    requires multiset(MergeAll(defaults, a)) == multiset(MergeAll(defaults, b))
    requires Identified(MergeAll(defaults, a))
    ensures PyLabel(a, defaults, v2, q, closed, anyView, t) == PyLabel(b, defaults, v2, q, closed, anyView, t)
  {
    var ea, eb := MergeAll(defaults, a), MergeAll(defaults, b);
    if Conflicting(ea) {
      BothConflict(ea, eb, PyId(t), t);
    } else {
      ReorderedLabels(a, b, defaults, v2, q, closed, anyView, t);
    }
  }

  lemma ReorderedLabels(
      a: seq<Event>, b: seq<Event>, defaults: Event, v2: bool, q: int, closed: bool, anyView: bool, t: Text)
    requires multiset(MergeAll(defaults, a)) == multiset(MergeAll(defaults, b))
    requires Identified(MergeAll(defaults, a)) && !Conflicting(MergeAll(defaults, a))
    ensures PyLabel(a, defaults, v2, q, closed, anyView, t) == PyLabel(b, defaults, v2, q, closed, anyView, t)
  {
    var ea, eb := MergeAll(defaults, a), MergeAll(defaults, b);
    SameAccepted(ea, eb, t);
    SameMembers(ea, eb);
    var oa := LabelOfGathered(a, defaults, v2, q, closed, anyView, t);
    var ob := LabelOfGathered(b, defaults, v2, q, closed, anyView, t);
    var ga, gb := Gather(ea, PyId(t)), Gather(eb, PyId(t));
    SameConclusion(Values(ga.unique, ga.order), Values(gb.unique, gb.order), ga.duplicates, v2, q, closed, anyView, t);
  }

  lemma BothConflict(ea: seq<Event>, eb: seq<Event>, idOf: Event -> Option<string>, t: Text)
    requires multiset(ea) == multiset(eb) && Identified(ea) && Conflicting(ea) && idOf == PyId(t)
    ensures Gather(ea, idOf).Conflict? && Gather(eb, idOf).Conflict?
  {
    SameMembers(ea, eb);
    IdReaders(t);
    GatherIsMeant(ea, idOf);
    GatherIsMeant(eb, idOf);
  }
}
