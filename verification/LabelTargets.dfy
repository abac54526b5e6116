/** Training targets in the source's own event names: what every labelled log is labelled with, in either
    language. */
module LabelTargets {
  import opened Options
  import opened Sorting
  import opened Labels
  import opened LabelDerivation
  import R = Replay
  import V = PreferenceVector
  import opened Lexicographic

  /** One accepted event: its type as written, and whether it lasted long enough to be read. */
  datatype Entry = Entry(text: string, longEnough: bool)

  ghost predicate Wrote(log: seq<Entry>, text: string)
  {
    exists i :: 0 <= i < |log| && log[i].text == text
  }

  /** Written, and not taken back later. */
  ghost predicate Stands(log: seq<Entry>, text: string, undo: string)
  {
    exists i :: 0 <= i < |log| && log[i].text == text && forall j | i < j < |log| :: log[j].text != undo
  }

  ghost predicate ReadLong(log: seq<Entry>)
  {
    exists i :: 0 <= i < |log| && (log[i].text == "view" || log[i].text == "dwell") && log[i].longEnough
  }

  ghost predicate Disliked(log: seq<Entry>)
  {
    Wrote(log, "report") || Stands(log, "hide", "unhide")
  }

  ghost predicate Kept(log: seq<Entry>)
  {
    Stands(log, "save", "unsave") || Stands(log, "share", "unshare")
  }

  /** A view of any length is a signal only to v1, and only when asked for. */
  ghost predicate Engaged(log: seq<Entry>, anyView: bool)
  {
    || Kept(log) || Stands(log, "like", "unlike") || Wrote(log, "comment") || Wrote(log, "click")
    || ReadLong(log) || (anyView && Wrote(log, "view"))
  }

  /** A dislike is 0, whatever else there is; else any engagement is 1; else nothing is 0 once the window is
      closed, and no example before. */
  ghost predicate IsTarget(log: seq<Entry>, anyView: bool, closed: bool, target: Option<int>)
  {
    if Disliked(log) then target == Some(0)
    else if Engaged(log, anyView) then target == Some(1)
    else if closed then target == Some(0)
    else target == None
  }

  // ---------------------------------------------------------------- names and kinds

  /** `facts` are the entries of `log`, with the kinds for the names. */
  ghost predicate Reads(log: seq<Entry>, facts: seq<Fact>)
  {
    && |facts| == |log|
    && forall i | 0 <= i < |log| :: facts[i].kind == KindOf(log[i].text) && facts[i].qualified == log[i].longEnough
  }

  lemma SignalNames(text: string)
    ensures KindOf(text) == Visible <==> text == "visible"
    ensures KindOf(text) == Click <==> text == "click"
    ensures KindOf(text) == Comment <==> text == "comment"
    ensures KindOf(text) == Report <==> text == "report"
    ensures KindOf(text) == View <==> text == "view"
    ensures KindOf(text) == Dwell <==> text == "dwell"
  {
  }

  lemma ActionNames(text: string)
    ensures KindOf(text) == Like <==> text == "like"
    ensures KindOf(text) == Save <==> text == "save"
    ensures KindOf(text) == Share <==> text == "share"
    ensures KindOf(text) == Hide <==> text == "hide"
  {
  }

  lemma UndoNames(text: string)
    ensures KindOf(text) == Unlike <==> text == "unlike"
    ensures KindOf(text) == Unsave <==> text == "unsave"
    ensures KindOf(text) == Unshare <==> text == "unshare"
    ensures KindOf(text) == Unhide <==> text == "unhide"
  {
  }

  lemma WroteIsHas(log: seq<Entry>, facts: seq<Fact>, text: string, k: Kind)
    requires Reads(log, facts) && forall s :: KindOf(s) == k <==> s == text
    ensures Has(facts, |facts|, k) <==> Wrote(log, text)
  {
    if Wrote(log, text) {
      var i :| 0 <= i < |log| && log[i].text == text;
      assert facts[i].kind == k;
    }
    if Has(facts, |facts|, k) {
      var i :| 0 <= i < |facts| && facts[i].kind == k;
      assert log[i].text == text;
    }
  }

  lemma StandsIsActive(log: seq<Entry>, facts: seq<Fact>, text: string, undo: string, k: Kind, u: Kind)
    requires Reads(log, facts) && u == UndoOf(k)
    requires (forall s :: KindOf(s) == k <==> s == text) && (forall s :: KindOf(s) == u <==> s == undo)
    ensures Active(facts, |facts|, k) <==> Stands(log, text, undo)
  {
    if Stands(log, text, undo) {
      var i :| 0 <= i < |log| && log[i].text == text && forall j | i < j < |log| :: log[j].text != undo;
      assert facts[i].kind == k && forall j | i < j < |facts| :: facts[j].kind != u;
    }
    if Active(facts, |facts|, k) {
      var i :| 0 <= i < |facts| && facts[i].kind == k && forall j | i < j < |facts| :: facts[j].kind != u;
      assert log[i].text == text && forall j | i < j < |log| :: log[j].text != undo;
    }
  }

  lemma ReadLongIsReads(log: seq<Entry>, facts: seq<Fact>)
    requires Reads(log, facts)
    ensures Labels.Reads(facts, |facts|) <==> ReadLong(log)
  {
    forall i | 0 <= i < |log|
      ensures facts[i].kind == View || facts[i].kind == Dwell <==> log[i].text == "view" || log[i].text == "dwell"
    {
      SignalNames(log[i].text);
    }
  }

  lemma AllNames()
    ensures forall s :: KindOf(s) == Click <==> s == "click"
    ensures forall s :: KindOf(s) == Comment <==> s == "comment"
    ensures forall s :: KindOf(s) == Report <==> s == "report"
    ensures forall s :: KindOf(s) == View <==> s == "view"
  {
    forall s
      ensures KindOf(s) == Click <==> s == "click"
      ensures KindOf(s) == Comment <==> s == "comment"
      ensures KindOf(s) == Report <==> s == "report"
      ensures KindOf(s) == View <==> s == "view"
    {
      SignalNames(s);
    }
  }

  lemma AllActions()
    ensures (forall s :: KindOf(s) == Like <==> s == "like") && (forall s :: KindOf(s) == Unlike <==> s == "unlike")
    ensures (forall s :: KindOf(s) == Save <==> s == "save") && (forall s :: KindOf(s) == Unsave <==> s == "unsave")
    ensures (forall s :: KindOf(s) == Share <==> s == "share")
    ensures (forall s :: KindOf(s) == Unshare <==> s == "unshare")
    ensures (forall s :: KindOf(s) == Hide <==> s == "hide") && (forall s :: KindOf(s) == Unhide <==> s == "unhide")
  {
    forall s
      ensures (KindOf(s) == Like <==> s == "like") && (KindOf(s) == Save <==> s == "save")
      ensures (KindOf(s) == Share <==> s == "share") && (KindOf(s) == Hide <==> s == "hide")
    {
      ActionNames(s);
    }
    forall s
      ensures (KindOf(s) == Unlike <==> s == "unlike") && (KindOf(s) == Unsave <==> s == "unsave")
      ensures (KindOf(s) == Unshare <==> s == "unshare") && (KindOf(s) == Unhide <==> s == "unhide")
    {
      UndoNames(s);
    }
  }

  // ---------------------------------------------------------------- the target of a log

  lemma SignalsInNames(log: seq<Entry>, facts: seq<Fact>)
    requires Reads(log, facts)
    ensures Has(facts, |facts|, Click) <==> Wrote(log, "click")
    ensures Has(facts, |facts|, Comment) <==> Wrote(log, "comment")
    ensures Has(facts, |facts|, Report) <==> Wrote(log, "report")
    ensures Has(facts, |facts|, View) <==> Wrote(log, "view")
  {
    AllNames();
    WroteIsHas(log, facts, "click", Click);
    WroteIsHas(log, facts, "comment", Comment);
    WroteIsHas(log, facts, "report", Report);
    WroteIsHas(log, facts, "view", View);
  }

  lemma ActionsInNames(log: seq<Entry>, facts: seq<Fact>)
    requires Reads(log, facts)
    ensures Active(facts, |facts|, Like) <==> Stands(log, "like", "unlike")
    ensures Active(facts, |facts|, Save) <==> Stands(log, "save", "unsave")
    ensures Active(facts, |facts|, Share) <==> Stands(log, "share", "unshare")
    ensures Active(facts, |facts|, Hide) <==> Stands(log, "hide", "unhide")
  {
    AllActions();
    StandsIsActive(log, facts, "like", "unlike", Like, Unlike);
    StandsIsActive(log, facts, "save", "unsave", Save, Unsave);
    StandsIsActive(log, facts, "share", "unshare", Share, Unshare);
    StandsIsActive(log, facts, "hide", "unhide", Hide, Unhide);
  }

  lemma DislikeInNames(log: seq<Entry>, facts: seq<Fact>, v2: bool, anyView: bool)
    requires Reads(log, facts)
    ensures Candidate(facts, v2, anyView, StrongNegative) <==> Disliked(log)
  {
    SignalsInNames(log, facts);
    ActionsInNames(log, facts);
  }

  lemma KeptInNames(log: seq<Entry>, facts: seq<Fact>, v2: bool, anyView: bool)
    requires Reads(log, facts)
    ensures Candidate(facts, v2, anyView, StrongPositive) <==> Kept(log)
  {
    ActionsInNames(log, facts);
  }

  lemma PositiveInNames(log: seq<Entry>, facts: seq<Fact>, v2: bool, anyView: bool)
    requires Reads(log, facts)
    ensures Candidate(facts, v2, anyView, Positive) <==>
      || Wrote(log, "comment") || Stands(log, "like", "unlike")
      || (!v2 && (Wrote(log, "click") || ReadLong(log) || (anyView && Wrote(log, "view"))))
  {
    SignalsInNames(log, facts);
    ActionsInNames(log, facts);
    ReadLongIsReads(log, facts);
  }

  /** The signals that label v2 tells apart and label v1 takes together. */
  lemma WeakInNames(log: seq<Entry>, facts: seq<Fact>, v2: bool, anyView: bool)
    requires Reads(log, facts)
    ensures Candidate(facts, v2, anyView, QualifiedRead) <==> v2 && ReadLong(log)
    ensures Candidate(facts, v2, anyView, Clicked) <==> v2 && Wrote(log, "click")
  {
    SignalsInNames(log, facts);
    ReadLongIsReads(log, facts);
  }

  lemma EngagedInNames(log: seq<Entry>, facts: seq<Fact>, v2: bool, anyView: bool)
    requires Reads(log, facts)
    ensures || Candidate(facts, v2, anyView, StrongPositive) || Candidate(facts, v2, anyView, Positive)
            || Candidate(facts, v2, anyView, QualifiedRead) || Candidate(facts, v2, anyView, Clicked)
       <==> Engaged(log, !v2 && anyView)
  {
    KeptInNames(log, facts, v2, anyView);
    PositiveInNames(log, facts, v2, anyView);
    WeakInNames(log, facts, v2, anyView);
  }

  /** The strongest candidate's target, in terms of what is among the candidates. */
  lemma TargetOfCandidates(facts: seq<Fact>, v2: bool, anyView: bool, closed: bool, disliked: bool, engaged: bool)
    requires disliked <==> Candidate(facts, v2, anyView, StrongNegative)
    requires engaged <==>
      || Candidate(facts, v2, anyView, StrongPositive) || Candidate(facts, v2, anyView, Positive)
      || Candidate(facts, v2, anyView, QualifiedRead) || Candidate(facts, v2, anyView, Clicked)
    ensures TargetOf(Meaning(facts, v2, anyView, closed)) ==
            if disliked then Some(0) else if engaged then Some(1) else if closed then Some(0) else None
  {
  }

  lemma TargetOfMeaning(log: seq<Entry>, facts: seq<Fact>, v2: bool, anyView: bool, closed: bool)
    requires Reads(log, facts)
    ensures IsTarget(log, !v2 && anyView, closed, TargetOf(Meaning(facts, v2, anyView, closed)))
  {
    DislikeInNames(log, facts, v2, anyView);
    EngagedInNames(log, facts, v2, anyView);
    TargetOfCandidates(facts, v2, anyView, closed, Disliked(log), Engaged(log, !v2 && anyView));
  }

  // ---------------------------------------------------------------- both languages

  /** The events that Python accepts, in its order. */
  ghost predicate PyAccepts(raw: seq<Event>, defaults: Event, t: Text, accepted: seq<Event>)
  {
    var g := Gather(MergeAll(defaults, raw), PyId(t));
    g.Gathered? && accepted == Sort(Values(g.unique, g.order) + g.anonymous, PyOrder(t))
  }

  function PyTypeText(t: Text, e: Event): string
  {
    if EventType in e then PyStr(t, e[EventType]) else ""
  }

  function PyLog(t: Text, q: int, accepted: seq<Event>): (log: seq<Entry>)
    ensures |log| == |accepted|
    ensures forall i | 0 <= i < |log| :: log[i] == Entry(PyTypeText(t, accepted[i]), PyQualified(t, accepted[i], q))
  {
    seq(|accepted|, i requires 0 <= i < |accepted| => Entry(PyTypeText(t, accepted[i]), PyQualified(t, accepted[i], q)))
  }

  lemma PyLogReads(t: Text, q: int, accepted: seq<Event>)
    ensures Reads(PyLog(t, q, accepted), PyFacts(Named(t), q, accepted))
  {
    var log, facts := PyLog(t, q, accepted), PyFacts(Named(t), q, accepted);
    forall i | 0 <= i < |log| ensures facts[i].kind == KindOf(log[i].text) && facts[i].qualified == log[i].longEnough {
      assert facts[i] == Fact(PyKind(Named(t), accepted[i]), PyQualified(Named(t), accepted[i], q));
    }
  }

  /** Every log that Python labels gets the target of its accepted events. */
  lemma PythonTarget(
      raw: seq<Event>, defaults: Event, v2: bool, q: int, closed: bool, anyView: bool, t: Text, r: LabelResult)
    returns (accepted: seq<Event>)
    requires PyLabel(raw, defaults, v2, q, closed, anyView, Named(t)) == Labelled(r)
    ensures PyAccepts(raw, defaults, Named(t), accepted) && r.accepted == |accepted|
    ensures IsTarget(PyLog(t, q, accepted), !v2 && anyView, closed, r.target)
  {
    var g := Gather(MergeAll(defaults, raw), PyId(Named(t)));
    accepted := Sort(Values(g.unique, g.order) + g.anonymous, PyOrder(Named(t)));
    PyLogReads(t, q, accepted);
    TargetOfMeaning(PyLog(t, q, accepted), PyFacts(Named(t), q, accepted), v2, anyView, closed);
  }

  /** The events that Rust accepts, in its order, for some order of its hash map. */
  ghost predicate RustAccepts(raw: seq<Event>, defaults: Event, accepted: seq<Event>)
  {
    var g := Gather(MergeAll(defaults, raw), RustId);
    g.Gathered? && exists hashOrder :: YieldsInOrder(g, hashOrder, accepted)
  }

  ghost predicate YieldsInOrder(g: Gathered, hashOrder: seq<string>, accepted: seq<Event>)
  {
    && g.Gathered? && multiset(hashOrder) == multiset(g.order) && (forall id | id in hashOrder :: id in g.unique)
    && accepted == Sort(Values(g.unique, hashOrder) + g.anonymous, RustLeq)
  }

  function RustLog(q: int, accepted: seq<Event>): (log: seq<Entry>)
    ensures |log| == |accepted|
    ensures forall i | 0 <= i < |log| ::
              log[i] == Entry(RustText(accepted[i], EventType), RustQualified(accepted[i], q))
  {
    seq(|accepted|,
        i requires 0 <= i < |accepted| => Entry(RustText(accepted[i], EventType), RustQualified(accepted[i], q)))
  }

  lemma RustLogReads(q: int, accepted: seq<Event>)
    ensures Reads(RustLog(q, accepted), RustFacts(KindOf, q, accepted))
  {
    var log, facts := RustLog(q, accepted), RustFacts(KindOf, q, accepted);
    forall i | 0 <= i < |log| ensures facts[i].kind == KindOf(log[i].text) && facts[i].qualified == log[i].longEnough {
      assert facts[i] == Fact(RustKind(KindOf, accepted[i]), RustQualified(accepted[i], q));
    }
  }

  /** Whatever the hash map yields, every log that Rust labels gets the target of its accepted events. */
  lemma RustTarget(raw: seq<Event>, defaults: Event, q: int, closed: bool, r: LabelResult)
    returns (accepted: seq<Event>)
    requires RustAnswers(raw, defaults, q, closed, KindOf, Labelled(r))
    ensures RustAccepts(raw, defaults, accepted) && r.accepted == |accepted|
    ensures IsTarget(RustLog(q, accepted), false, closed, r.target)
  {
    var hashOrder :|
      MayYield(raw, defaults, hashOrder) && Labelled(r) == RustLabel(raw, defaults, q, closed, KindOf, hashOrder);
    var g := Gather(MergeAll(defaults, raw), RustId);
    SameMembers(hashOrder, g.order);
    accepted := Sort(Values(g.unique, hashOrder) + g.anonymous, RustLeq);
    assert YieldsInOrder(g, hashOrder, accepted);
    RustLogReads(q, accepted);
    TargetOfMeaning(RustLog(q, accepted), RustFacts(KindOf, q, accepted), true, false, closed);
  }

  // ---------------------------------------------------------------- the order of processing

  lemma PyOrders(t: Text)
    ensures TotalPreorder(PyOrder(t)) && TotalPreorder(RustLeq)
  {
    StringOrder();
    forall a, b, c | PyOrder(t)(a, b) && PyOrder(t)(b, c) ensures PyOrder(t)(a, c) {}
    forall a, b, c | RustLeq(a, b) && RustLeq(b, c) ensures RustLeq(a, c) {}
  }

  /** Python accepts by the instant of the event, then of its ingestion, then by the text of its id. */
  lemma PythonOrder(raw: seq<Event>, defaults: Event, t: Text, accepted: seq<Event>, i: nat, j: nat)
    requires PyAccepts(raw, defaults, t, accepted) && i < j < |accepted|
    ensures var a, b := accepted[i], accepted[j];
            var at, bt := PyInstant(t, Field(a, OccurredAt)), PyInstant(t, Field(b, OccurredAt));
            var ai, bi := PyInstant(t, Field(a, IngestedAt)), PyInstant(t, Field(b, IngestedAt));
            && at <= bt && (at == bt ==> ai <= bi)
            && (at == bt && ai == bi ==> StringLeq(PyIdText(t, a), PyIdText(t, b)))
  {
    var g := Gather(MergeAll(defaults, raw), PyId(t));
    PyOrders(t);
    SortSorted(Values(g.unique, g.order) + g.anonymous, PyOrder(t));
    assert PyOrder(t)(accepted[i], accepted[j]);
  }

  /** Rust by the text of the event's time, then of its ingestion's, then of its id. */
  lemma RustOrder(raw: seq<Event>, defaults: Event, t: Text, accepted: seq<Event>, i: nat, j: nat)
    requires RustAccepts(raw, defaults, accepted) && i < j < |accepted|
    ensures var a, b := accepted[i], accepted[j];
            && StringLeq(RustText(a, OccurredAt), RustText(b, OccurredAt))
            && (RustText(a, OccurredAt) == RustText(b, OccurredAt) ==>
                  && StringLeq(RustText(a, IngestedAt), RustText(b, IngestedAt))
                  && (RustText(a, IngestedAt) == RustText(b, IngestedAt) ==>
                        StringLeq(RustText(a, EventId), RustText(b, EventId))))
  {
    var g := Gather(MergeAll(defaults, raw), RustId);
    var hashOrder :| YieldsInOrder(g, hashOrder, accepted);
    PyOrders(t);
    StringOrder();
    SortSorted(Values(g.unique, hashOrder) + g.anonymous, RustLeq);
    assert RustLeq(accepted[i], accepted[j]);
  }

  // ---------------------------------------------------------------- what is read as a duration

  /** What the field holds in the metadata, if there are any. */
  function InMetadata(e: Event, name: Name): Json
  {
    if Metadata in e && e[Metadata].Obj? && name in e[Metadata].fields then e[Metadata].fields[name] else Null
  }

  /** Python reads the visible duration, else the dwell; each from the event, or from its metadata if the event
      does not have the field at all. */
  lemma PythonReads(e: Event)
    ensures var visible := if ContinuousVisibleMs in e then e[ContinuousVisibleMs]
                           else InMetadata(e, ContinuousVisibleMs);
            var dwell := if DwellMs in e then e[DwellMs] else InMetadata(e, DwellMs);
            PyDuration(e) == if visible == Null then dwell else visible
  {
  }

  /** It takes integers as they are, cuts fractions off towards zero, reads booleans as 1 and 0, and leaves
      texts to the parser. */
  lemma PythonInteger(t: Text, j: Json)
    ensures j.Num? ==> PyInt(t, j) == Some(j.n)
    ensures j.Bool? ==> PyInt(t, j) == Some(if j.b then 1 else 0)
    ensures j.Str? ==> PyInt(t, j) == t.parseInt(j.s)
    ensures j.Null? || j.Arr? || j.Obj? ==> PyInt(t, j) == None
    ensures j.Real? ==>
      && PyInt(t, j).Some?
      && var n := PyInt(t, j).value;
         (j.x >= 0.0 ==> n as real <= j.x < n as real + 1.0) && (j.x <= 0.0 ==> n as real - 1.0 < j.x <= n as real)
  {
  }

  /** A 64-bit integer. */
  predicate IsLong(j: Json)
  {
    j.Num? && -9223372036854775808 <= j.n && j.n <= 9223372036854775807
  }

  function OwnField(e: Event, name: Name): Json
  {
    if name in e then e[name] else Null
  }

  /** Rust reads the first 64-bit integer among the event's visible duration, its dwell, and the visible
      duration of its metadata. */
  lemma RustReads(e: Event)
    ensures var visible, dwell, noted := OwnField(e, ContinuousVisibleMs), OwnField(e, DwellMs),
                                         InMetadata(e, ContinuousVisibleMs);
            && (IsLong(visible) ==> RustDuration(e) == Some(visible.n))
            && (!IsLong(visible) && IsLong(dwell) ==> RustDuration(e) == Some(dwell.n))
            && (!IsLong(visible) && !IsLong(dwell) && IsLong(noted) ==> RustDuration(e) == Some(noted.n))
            && (!IsLong(visible) && !IsLong(dwell) && !IsLong(noted) ==> RustDuration(e) == None)
  {
  }

  /** Long enough means at least the threshold. */
  lemma LongEnough(e: Event, q: int, t: Text)
    ensures RustQualified(e, q) <==> RustDuration(e).Some? && !(RustDuration(e).value < q)
    ensures PyQualified(t, e, q) <==>
      PyDuration(e) != Null && PyInt(t, PyDuration(e)).Some? && !(PyInt(t, PyDuration(e)).value < q)
  {
  }

  /** The names by which the replay breaks its last ties are those that the labels read. */
  lemma ReplayNames(t: R.CanonicalType)
    requires !t.Other?
    ensures t != R.QualifiedRead ==> KindOf(V.TypeName(t)) != OtherKind
    ensures KindOf(V.TypeName(t)) == (match t
      case View => View case Dwell => Dwell case Visible => Visible case Click => Click
      case QualifiedRead => OtherKind case Report => Report case Comment => Comment
      case Like => Like case Save => Save case Share => Share case Hide => Hide
      case Unlike => Unlike case Unsave => Unsave case Unshare => Unshare case Unhide => Unhide)
    ensures t == R.QualifiedRead ==> V.TypeName(t) == "qualified_read"
  {
  }
}
