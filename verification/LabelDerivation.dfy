/** The two implementations, each proved to compute the declarative meaning of what it reads. */
module LabelDerivation {
  import opened Options
  import opened Sorting
  import opened Lexicographic
  import opened Labels

  /** Text handling the derivations take as given: the event-name table (always `KindOf`, see `Named`),
      `datetime.fromisoformat`, the instant used for a missing timestamp, `int(str)`, and `str()` of a
      value that is no string. */
  datatype Text = Text(
    kindOf: string -> Kind, parseTime: string -> Option<int>, minTime: int, parseInt: string -> Option<int>,
    render: Json -> string)

  /** The text handling with the event names both languages use. */
  function Named(t: Text): Text
  {
    t.(kindOf := KindOf)
  }

  function MergeAll(defaults: Event, raw: seq<Event>): seq<Event>
  {
    seq(|raw|, i requires 0 <= i < |raw| => defaults + raw[i])
  }

  function Field(e: Event, name: Name): Json
  {
    if name in e then e[name] else Null
  }

  // ---------------------------------------------------------------- Python

  function PyStr(t: Text, j: Json): string
  {
    if j.Str? then j.s else t.render(j)
  }

  function PyIdText(t: Text, e: Event): string
  {
    if EventId in e then PyStr(t, e[EventId]) else ""
  }

  function PyId(t: Text): Event -> Option<string>
  {
    (e: Event) => if Field(e, EventId) == Null then None else Some(PyIdText(t, e))
  }

  predicate PyTimeReadable(t: Text, j: Json)
  {
    j.Str? ==> t.parseTime(j.s).Some?
  }

  function PyInstant(t: Text, j: Json): int
  {
    if j.Str? && t.parseTime(j.s).Some? then t.parseTime(j.s).value else t.minTime
  }

  predicate PyLeq(t: Text, a: Event, b: Event)
  {
    var a1, b1 := PyInstant(t, Field(a, OccurredAt)), PyInstant(t, Field(b, OccurredAt));
    var a2, b2 := PyInstant(t, Field(a, IngestedAt)), PyInstant(t, Field(b, IngestedAt));
    if a1 != b1 then a1 < b1
    else if a2 != b2 then a2 < b2
    else StringLeq(PyIdText(t, a), PyIdText(t, b))
  }

  function PyOrder(t: Text): (Event, Event) -> bool
  {
    (a: Event, b: Event) => PyLeq(t, a, b)
  }

  function PyKind(t: Text, e: Event): Kind
  {
    t.kindOf(if EventType in e then PyStr(t, e[EventType]) else "")
  }

  /** `_value`: the top-level field if it is there at all, else the metadata field. */
  function PyValue(e: Event, name: Name): Json
  {
    if name in e then e[name]
    else if Field(e, Metadata).Obj? then Field(Field(e, Metadata).fields, name)
    else Null
  }

  function PyDuration(e: Event): Json
  {
    if PyValue(e, ContinuousVisibleMs) != Null then PyValue(e, ContinuousVisibleMs)
    else PyValue(e, DwellMs)
  }

  /** `int(...)` of a float drops the fraction, towards zero. */
  function Truncated(x: real): int
  {
    if x >= 0.0 then x.Floor else -((-x).Floor)
  }

  /** `int(...)`; None when it raises. */
  function PyInt(t: Text, j: Json): Option<int>
  {
    match j
    case Num(n) => Some(n)
    case Real(x) => Some(Truncated(x))
    case Bool(b) => Some(if b then 1 else 0)
    case Str(s) => t.parseInt(s)
    case _ => None
  }

  predicate PyRaises(t: Text, e: Event)
  {
    (PyKind(t, e) == View || PyKind(t, e) == Dwell) && PyDuration(e) != Null && PyInt(t, PyDuration(e)).None?
  }

  predicate PyQualified(t: Text, e: Event, q: int)
  {
    var d := PyDuration(e);
    d != Null && PyInt(t, d).Some? && PyInt(t, d).value >= q
  }

  function PyFacts(t: Text, q: int, accepted: seq<Event>): seq<Fact>
  {
    seq(|accepted|, i requires 0 <= i < |accepted| => Fact(PyKind(t, accepted[i]), PyQualified(t, accepted[i], q)))
  }

  function PyIds(t: Text, accepted: seq<Event>): seq<string>
  {
    seq(|accepted|, i requires 0 <= i < |accepted| => PyIdText(t, accepted[i]))
  }

  ghost predicate PyTimesReadable(t: Text, all: seq<Event>)
  {
    forall e | e in all :: PyTimeReadable(t, Field(e, OccurredAt)) && PyTimeReadable(t, Field(e, IngestedAt))
  }

  ghost predicate PyDurationsReadable(t: Text, accepted: seq<Event>)
  {
    forall e | e in accepted :: !PyRaises(t, e)
  }

  /** Everything after de-duplication: sorting, resolving, reporting. */
  ghost function PyConclude(
      all: seq<Event>, duplicates: nat, v2: bool, q: int, closed: bool, anyView: bool, t: Text): Outcome
  {
    var accepted := Sort(all, PyOrder(t));
    if !PyTimesReadable(t, all) || !PyDurationsReadable(t, accepted) then Rejected
    else
      var s := Meaning(PyFacts(t, q, accepted), v2, anyView, closed);
      Labelled(LabelResult(s, TargetOf(s), |accepted|, duplicates, PyIds(t, accepted)))
  }

  ghost function PyLabel(
      raw: seq<Event>, defaults: Event, v2: bool, q: int, closed: bool, anyView: bool, t: Text): Outcome
  {
    var g := Gather(MergeAll(defaults, raw), PyId(t));
    if q <= 0 || g.Conflict? then Rejected
    else PyConclude(Values(g.unique, g.order) + g.anonymous, g.duplicates, v2, q, closed, anyView, t)
  }

  function PyFact(t: Text, q: int, e: Event): Fact
  {
    Fact(PyKind(t, e), PyQualified(t, e, q))
  }

  /** What one accepted event does to the loop's variables; None when its duration cannot be read as
      an integer. */
  method PyFoldStep(f: FoldState, e: Event, v2: bool, q: int, anyView: bool, t: Text) returns (next: Option<FoldState>)
    ensures next.None? <==> PyRaises(t, e)
    ensures next.Some? ==> next.value == FoldNext(f, PyFact(t, q, e), v2, anyView)
  {
    var active, irreversible, visible := f.active, f.flags, f.visible;
    var kind := PyKind(t, e);
    if Stateful(kind) {
      active := active[kind := true];
    } else if IsUndo(kind) {
      active := active[Undone(kind) := false];
    } else if kind == Visible {
      visible := true;
    } else if kind == Click {
      irreversible := irreversible + {Clicked};
    } else if kind == Comment {
      irreversible := irreversible + {Positive};
    } else if kind == Report {
      irreversible := irreversible + {StrongNegative};
    }
    if !v2 && anyView && kind == View {
      irreversible := irreversible + {Positive};
    }
    var duration := PyDuration(e);
    if (kind == View || kind == Dwell) && duration != Null {
      var ms := PyInt(t, duration);
      if ms.None? {
        return None;
      }
      if ms.value >= q {
        irreversible := irreversible + {if v2 then QualifiedRead else Positive};
      }
    }
    return Some(FoldState(active, irreversible, visible));
  }

  lemma ReadableSnoc(t: Text, accepted: seq<Event>, i: nat)
    requires i < |accepted|
    ensures PyDurationsReadable(t, accepted[..i + 1])
            <==> PyDurationsReadable(t, accepted[..i]) && !PyRaises(t, accepted[i])
    ensures PyRaises(t, accepted[i]) ==> !PyDurationsReadable(t, accepted)
  {
    assert accepted[..i + 1] == accepted[..i] + [accepted[i]];
  }

  /** The loop over the accepted events. */
  method PyFold(accepted: seq<Event>, v2: bool, q: int, anyView: bool, t: Text) returns (f: Option<FoldState>)
    ensures f.Some? <==> PyDurationsReadable(t, accepted)
    ensures f.Some? ==> f.value == FoldTo(PyFacts(t, q, accepted), |accepted|, v2, anyView)
  {
    ghost var facts := PyFacts(t, q, accepted);
    var state := FoldStart;
    for i := 0 to |accepted|
      invariant state == FoldTo(facts, i, v2, anyView)
      invariant PyDurationsReadable(t, accepted[..i])
    {
      ReadableSnoc(t, accepted, i);
      var next := PyFoldStep(state, accepted[i], v2, q, anyView, t);
      if next.None? {
        return None;
      }
      assert facts[i] == PyFact(t, q, accepted[i]);
      state := next.value;
    }
    assert accepted[..|accepted|] == accepted;
    return Some(state);
  }

  method PyResolve(accepted: seq<Event>, v2: bool, q: int, closed: bool, anyView: bool, t: Text)
    returns (s: Option<Semantic>)
    ensures s.Some? <==> PyDurationsReadable(t, accepted)
    ensures s.Some? ==> s.value == Meaning(PyFacts(t, q, accepted), v2, anyView, closed)
  {
    var f := PyFold(accepted, v2, q, anyView, t);
    if f.None? {
      return None;
    }
    FoldKeys(PyFacts(t, q, accepted), |accepted|, v2, anyView);
    var active, visible := f.value.active, f.value.visible;
    var candidates := f.value.flags;
    if active[Hide] {
      candidates := candidates + {StrongNegative};
    }
    if active[Save] || active[Share] {
      candidates := candidates + {StrongPositive};
    }
    if active[Like] {
      candidates := candidates + {Positive};
    }
    if !v2 && Clicked in candidates {
      candidates := candidates - {Clicked} + {Positive};
    }
    assert candidates == Resolved(f.value, v2);
    if visible {
      candidates := candidates + {Fallback(closed)};
    } else if candidates == {} {
      candidates := candidates + {Fallback(closed)};
    }
    StrongestIsMeaning(PyFacts(t, q, accepted), v2, anyView, closed, candidates);
    return Some(Strongest(candidates));
  }

  method DeriveLabel(raw: seq<Event>, defaults: Event, v2: bool, q: int, closed: bool, anyView: bool, t: Text)
    returns (r: Outcome)
    ensures r == PyLabel(raw, defaults, v2, q, closed, anyView, Named(t))
  {
    r := DeriveNamed(raw, defaults, v2, q, closed, anyView, Named(t));
  }

  method DeriveNamed(raw: seq<Event>, defaults: Event, v2: bool, q: int, closed: bool, anyView: bool, t: Text)
    returns (r: Outcome)
    ensures r == PyLabel(raw, defaults, v2, q, closed, anyView, t)
  {
    if q <= 0 {
      return Rejected;
    }
    var g := GatherEvents(MergeAll(defaults, raw), PyId(t));
    if g.Conflict? {
      return Rejected;
    }
    var all := Values(g.unique, g.order) + g.anonymous;
    if exists e | e in all :: !PyTimeReadable(t, Field(e, OccurredAt)) || !PyTimeReadable(t, Field(e, IngestedAt)) {
      return Rejected;
    }
    var accepted := Sort(all, PyOrder(t));
    var s := PyResolve(accepted, v2, q, closed, anyView, t);
    if s.None? {
      return Rejected;
    }
    return Labelled(LabelResult(s.value, TargetOf(s.value), |accepted|, g.duplicates, PyIds(t, accepted)));
  }

  // ---------------------------------------------------------------- Rust

  function RustText(e: Event, name: Name): string
  {
    if Field(e, name).Str? then Field(e, name).s else ""
  }

  function RustId(e: Event): Option<string>
  {
    if Field(e, EventId).Str? then Some(Field(e, EventId).s) else None
  }

  predicate RustLeq(a: Event, b: Event)
  {
    var a1, b1 := RustText(a, OccurredAt), RustText(b, OccurredAt);
    var a2, b2 := RustText(a, IngestedAt), RustText(b, IngestedAt);
    if a1 != b1 then StringLeq(a1, b1)
    else if a2 != b2 then StringLeq(a2, b2)
    else StringLeq(RustText(a, EventId), RustText(b, EventId))
  }

  function RustKind(kindOf: string -> Kind, e: Event): Kind
  {
    kindOf(RustText(e, EventType))
  }

  /** `Value::as_i64`. */
  function AsI64(j: Json): Option<int>
  {
    if j.Num? && -0x8000_0000_0000_0000 <= j.n < 0x8000_0000_0000_0000 then Some(j.n) else None
  }

  function RustDuration(e: Event): Option<int>
  {
    if AsI64(Field(e, ContinuousVisibleMs)).Some? then AsI64(Field(e, ContinuousVisibleMs))
    else if AsI64(Field(e, DwellMs)).Some? then AsI64(Field(e, DwellMs))
    else if Field(e, Metadata).Obj? then AsI64(Field(Field(e, Metadata).fields, ContinuousVisibleMs))
    else None
  }

  predicate RustQualified(e: Event, q: int)
  {
    RustDuration(e).Some? && RustDuration(e).value >= q
  }

  function RustFacts(kindOf: string -> Kind, q: int, accepted: seq<Event>): seq<Fact>
  {
    seq(|accepted|,
        i requires 0 <= i < |accepted| => Fact(RustKind(kindOf, accepted[i]), RustQualified(accepted[i], q)))
  }

  function RustIds(accepted: seq<Event>): seq<string>
  {
    seq(|accepted|, i requires 0 <= i < |accepted| => RustText(accepted[i], EventId))
  }

  ghost function RustConclude(
      all: seq<Event>, duplicates: nat, q: int, closed: bool, kindOf: string -> Kind): Outcome
  {
    var accepted := Sort(all, RustLeq);
    var s := Meaning(RustFacts(kindOf, q, accepted), true, false, closed);
    Labelled(LabelResult(s, TargetOf(s), |accepted|, duplicates, RustIds(accepted)))
  }

  /** The result when the hash map yields its values in the key order `hashOrder`. */
  ghost function RustLabel(
      raw: seq<Event>, defaults: Event, q: int, closed: bool, kindOf: string -> Kind, hashOrder: seq<string>): Outcome
  {
    var g := Gather(MergeAll(defaults, raw), RustId);
    if q <= 0 || g.Conflict? || multiset(hashOrder) != multiset(g.order) then Rejected
    else
      SameMembers(hashOrder, g.order);
      RustConclude(Values(g.unique, hashOrder) + g.anonymous, g.duplicates, q, closed, kindOf)
  }

  function RustFact(kindOf: string -> Kind, q: int, e: Event): Fact
  {
    Fact(RustKind(kindOf, e), RustQualified(e, q))
  }

  /** What one accepted event does to the loop's variables. */
  method RustFoldStep(f: FoldState, e: Event, q: int, kindOf: string -> Kind) returns (next: FoldState)
    requires f.active.Keys == {Like, Save, Share, Hide}
    ensures next == FoldNext(f, RustFact(kindOf, q, e), true, false)
  {
    var active, candidates, visible := f.active, f.flags, f.visible;
    var kind := RustKind(kindOf, e);
    if kind in active {
      active := active[kind := true];
    } else if IsUndo(kind) {
      active := active[Undone(kind) := false];
    } else {
      match kind {
        case Visible => visible := true;
        case Click => candidates := candidates + {Clicked};
        case Comment => candidates := candidates + {Positive};
        case Report => candidates := candidates + {StrongNegative};
        case _ =>
      }
    }
    if (kind == View || kind == Dwell) && RustQualified(e, q) {
      candidates := candidates + {QualifiedRead};
    }
    next := FoldState(active, candidates, visible);
  }

  method RustFold(accepted: seq<Event>, q: int, kindOf: string -> Kind) returns (f: FoldState)
    ensures f == FoldTo(RustFacts(kindOf, q, accepted), |accepted|, true, false)
  {
    ghost var facts := RustFacts(kindOf, q, accepted);
    f := FoldStart;
    for i := 0 to |accepted|
      invariant f == FoldTo(facts, i, true, false)
    {
      FoldKeys(facts, i, true, false);
      f := RustFoldStep(f, accepted[i], q, kindOf);
      assert facts[i] == RustFact(kindOf, q, accepted[i]);
    }
  }

  method RustResolve(accepted: seq<Event>, q: int, closed: bool, kindOf: string -> Kind) returns (s: Semantic)
    ensures s == Meaning(RustFacts(kindOf, q, accepted), true, false, closed)
  {
    var f := RustFold(accepted, q, kindOf);
    FoldKeys(RustFacts(kindOf, q, accepted), |accepted|, true, false);
    var candidates := f.flags;
    if f.active[Hide] {
      candidates := candidates + {StrongNegative};
    }
    if f.active[Save] || f.active[Share] {
      candidates := candidates + {StrongPositive};
    }
    if f.active[Like] {
      candidates := candidates + {Positive};
    }
    assert candidates == Resolved(f, true);
    if f.visible {
      candidates := candidates + {Fallback(closed)};
    }
    if candidates == {} {
      candidates := candidates + {Fallback(closed)};
    }
    StrongestIsMeaning(RustFacts(kindOf, q, accepted), true, false, closed, candidates);
    s := Strongest(candidates);
  }

  /** `r` is the result for some order in which the hash map may yield its values. */
  ghost predicate RustAnswers(
      raw: seq<Event>, defaults: Event, q: int, closed: bool, kindOf: string -> Kind, r: Outcome)
  {
    exists hashOrder :: MayYield(raw, defaults, hashOrder)
        && r == RustLabel(raw, defaults, q, closed, kindOf, hashOrder)
  }

  ghost predicate MayYield(raw: seq<Event>, defaults: Event, hashOrder: seq<string>)
  {
    var g := Gather(MergeAll(defaults, raw), RustId);
    g.Gathered? ==> multiset(hashOrder) == multiset(g.order)
  }

  /** `unique.into_values()`: the keys in any order. */
  method YieldKeys(keys: seq<string>) returns (hashOrder: seq<string>)
    ensures multiset(hashOrder) == multiset(keys)
  {
    var rest := multiset(keys);
    hashOrder := [];
    while rest != multiset{}
      invariant multiset(hashOrder) + rest == multiset(keys)
      decreases |rest|
    {
      var key :| key in rest;
      hashOrder := hashOrder + [key];
      rest := rest - multiset{key};
    }
  }

  method DeriveLabelV2(raw: seq<Event>, defaults: Event, q: int, closed: bool) returns (r: Outcome)
    ensures RustAnswers(raw, defaults, q, closed, KindOf, r)
  {
    r := DeriveV2Named(raw, defaults, q, closed, KindOf);
  }

  method DeriveV2Named(raw: seq<Event>, defaults: Event, q: int, closed: bool, kindOf: string -> Kind)
    returns (r: Outcome)
    ensures RustAnswers(raw, defaults, q, closed, kindOf, r)
  {
    var g := GatherEvents(MergeAll(defaults, raw), RustId);
    if q <= 0 || g.Conflict? {
      ghost var order := if g.Gathered? then g.order else [];
      assert MayYield(raw, defaults, order) && RustLabel(raw, defaults, q, closed, kindOf, order) == Rejected;
      return Rejected;
    }
    var order := YieldKeys(g.order);
    assert MayYield(raw, defaults, order);
    SameMembers(order, g.order);
    var accepted := Sort(Values(g.unique, order) + g.anonymous, RustLeq);
    var s := RustResolve(accepted, q, closed, kindOf);
    r := Labelled(LabelResult(s, TargetOf(s), |accepted|, g.duplicates, RustIds(accepted)));
    assert r == RustLabel(raw, defaults, q, closed, kindOf, order);
  }
}
