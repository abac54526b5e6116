/** Label derivation, twice: the Python `derive_label` and the Rust `derive_label_v2`, over the JSON
    events both read. What is not JSON text handling is one declarative meaning of a processed log. */
module Labels {
  import opened Options
  import opened Sorting

  /** Object keys; the ones the derivations read have names of their own. */
  datatype Name =
    | EventId | EventType | OccurredAt | IngestedAt | DwellMs | ContinuousVisibleMs | Metadata
    | OtherName(text: string)

  datatype Json =
    | Null | Bool(b: bool) | Num(n: int) | Real(x: real) | Str(s: string) | Arr(items: seq<Json>)
    | Obj(fields: map<Name, Json>)

  /** An event object after the defaults were merged in. */
  type Event = map<Name, Json>

  datatype Kind =
    | Like | Save | Share | Hide | Unlike | Unsave | Unshare | Unhide
    | Visible | Click | Comment | Report | View | Dwell | OtherKind

  function KindOf(text: string): Kind
  {
    match text
    case "like" => Like case "save" => Save case "share" => Share case "hide" => Hide
    case "unlike" => Unlike case "unsave" => Unsave case "unshare" => Unshare case "unhide" => Unhide
    case "visible" => Visible case "click" => Click case "comment" => Comment case "report" => Report
    case "view" => View case "dwell" => Dwell
    case _ => OtherKind
  }

  datatype Semantic = StrongNegative | StrongPositive | Positive | QualifiedRead | Clicked | Negative | Exposure

  datatype LabelResult = LabelResult(
    semantic: Semantic, target: Option<int>, accepted: nat, deduplicated: nat, order: seq<string>)

  /** Rejected stands for Python's raised errors and Rust's `Err`. */
  datatype Outcome = Rejected | Labelled(result: LabelResult)

  // ---------------------------------------------------------------- the meaning of a processed log

  /** What a label depends on, event by event, in processing order. */
  datatype Fact = Fact(kind: Kind, qualified: bool)

  function UndoOf(k: Kind): Kind
  {
    match k
    case Like => Unlike case Save => Unsave case Share => Unshare case Hide => Unhide
    case _ => OtherKind
  }

  /** Among the first `n` facts some action `k` has no undo after it. */
  ghost predicate Active(facts: seq<Fact>, n: nat, k: Kind)
    requires n <= |facts|
  {
    exists i :: 0 <= i < n && facts[i].kind == k && forall j | i < j < n :: facts[j].kind != UndoOf(k)
  }

  ghost predicate Has(facts: seq<Fact>, n: nat, k: Kind)
    requires n <= |facts|
  {
    exists i :: 0 <= i < n && facts[i].kind == k
  }

  ghost predicate Reads(facts: seq<Fact>, n: nat)
    requires n <= |facts|
  {
    exists i :: 0 <= i < n && (facts[i].kind == View || facts[i].kind == Dwell) && facts[i].qualified
  }

  /** The candidates other than the fallback, for label v2 and for label v1. */
  ghost predicate Candidate(facts: seq<Fact>, v2: bool, anyView: bool, s: Semantic)
  {
    var n := |facts|;
    match s
    case StrongNegative => Has(facts, n, Report) || Active(facts, n, Hide)
    case StrongPositive => Active(facts, n, Save) || Active(facts, n, Share)
    case Positive =>
      Has(facts, n, Comment) || Active(facts, n, Like)
      || (!v2 && (Has(facts, n, Click) || Reads(facts, n) || (anyView && Has(facts, n, View))))
    case QualifiedRead => v2 && Reads(facts, n)
    case Clicked => v2 && Has(facts, n, Click)
    case Negative => false
    case Exposure => false
  }

  /** The strongest candidate; without one, the fallback of an open or a closed label window. */
  ghost function Meaning(facts: seq<Fact>, v2: bool, anyView: bool, closed: bool): Semantic
  {
    if Candidate(facts, v2, anyView, StrongNegative) then StrongNegative
    else if Candidate(facts, v2, anyView, StrongPositive) then StrongPositive
    else if Candidate(facts, v2, anyView, Positive) then Positive
    else if Candidate(facts, v2, anyView, QualifiedRead) then QualifiedRead
    else if Candidate(facts, v2, anyView, Clicked) then Clicked
    else if closed then Negative else Exposure
  }

  function TargetOf(s: Semantic): Option<int>
  {
    match s
    case Exposure => None
    case Clicked | QualifiedRead | Positive | StrongPositive => Some(1)
    case _ => Some(0)
  }

  /** `next(item for item in PRECEDENCE if item in candidates)`. */
  function Strongest(candidates: set<Semantic>): (s: Semantic)
    requires candidates != {}
    ensures s in candidates
  {
    if StrongNegative in candidates then StrongNegative
    else if StrongPositive in candidates then StrongPositive
    else if Positive in candidates then Positive
    else if QualifiedRead in candidates then QualifiedRead
    else if Clicked in candidates then Clicked
    else if Negative in candidates then Negative
    else
      assert Exposure in candidates by { var c :| c in candidates; assert c == Exposure; }
      Exposure
  }

  // ---------------------------------------------------------------- one more fact

  lemma ActiveStep(facts: seq<Fact>, n: nat, k: Kind)
    requires n < |facts| && Stateful(k)
    ensures Active(facts, n + 1, k) <==> facts[n].kind == k || (Active(facts, n, k) && facts[n].kind != UndoOf(k))
  {
    if Active(facts, n + 1, k) && facts[n].kind != k {
      var i :| 0 <= i < n + 1 && facts[i].kind == k && forall j | i < j < n + 1 :: facts[j].kind != UndoOf(k);
      assert 0 <= i < n && facts[i].kind == k;
    }
    if Active(facts, n, k) && facts[n].kind != UndoOf(k) {
      var i :| 0 <= i < n && facts[i].kind == k && forall j | i < j < n :: facts[j].kind != UndoOf(k);
      assert forall j | i < j < n + 1 :: facts[j].kind != UndoOf(k);
    }
  }

  predicate Stateful(k: Kind)
  {
    k == Like || k == Save || k == Share || k == Hide
  }

  lemma HasStep(facts: seq<Fact>, n: nat, k: Kind)
    requires n < |facts|
    ensures Has(facts, n + 1, k) <==> facts[n].kind == k || Has(facts, n, k)
  {}

  lemma ReadsStep(facts: seq<Fact>, n: nat)
    requires n < |facts|
    ensures Reads(facts, n + 1) <==>
              Reads(facts, n) || ((facts[n].kind == View || facts[n].kind == Dwell) && facts[n].qualified)
  {}

  /** The variables of the resolution loop, in either language. */
  datatype FoldState = FoldState(active: map<Kind, bool>, flags: set<Semantic>, visible: bool)

  const FoldStart := FoldState(map[Like := false, Save := false, Share := false, Hide := false], {}, false)

  ghost predicate ActiveMeans(facts: seq<Fact>, n: nat, active: map<Kind, bool>)
    requires n <= |facts|
  {
    active.Keys == {Like, Save, Share, Hide} && forall k | Stateful(k) :: active[k] <==> Active(facts, n, k)
  }

  ghost predicate FlagsMean(facts: seq<Fact>, n: nat, flags: set<Semantic>, v2: bool, anyView: bool)
    requires n <= |facts|
  {
    && flags <= {StrongNegative, Positive, QualifiedRead, Clicked}
    && (StrongNegative in flags <==> Has(facts, n, Report))
    && (Clicked in flags <==> Has(facts, n, Click))
    && (QualifiedRead in flags <==> v2 && Reads(facts, n))
    && (Positive in flags <==>
          Has(facts, n, Comment) || (!v2 && (Reads(facts, n) || (anyView && Has(facts, n, View)))))
  }

  ghost predicate FoldMeans(facts: seq<Fact>, n: nat, f: FoldState, v2: bool, anyView: bool)
    requires n <= |facts|
  {
    ActiveMeans(facts, n, f.active) && FlagsMean(facts, n, f.flags, v2, anyView)
        && (f.visible <==> Has(facts, n, Visible))
  }

  function Undone(k: Kind): Kind
  {
    match k
    case Unlike => Like case Unsave => Save case Unshare => Share case _ => Hide
  }

  predicate IsUndo(k: Kind)
  {
    k == Unlike || k == Unsave || k == Unshare || k == Unhide
  }

  function NextActive(active: map<Kind, bool>, k: Kind): map<Kind, bool>
  {
    if Stateful(k) then active[k := true] else if IsUndo(k) then active[Undone(k) := false] else active
  }

  function NextFlags(flags: set<Semantic>, fact: Fact, v2: bool, anyView: bool): set<Semantic>
  {
    var k := fact.kind;
    flags
    + (if k == Click then {Clicked}
       else if k == Comment then {Positive}
       else if k == Report then {StrongNegative}
       else {})
    + (if !v2 && anyView && k == View then {Positive} else {})
    + (if (k == View || k == Dwell) && fact.qualified then {if v2 then QualifiedRead else Positive} else {})
  }

  lemma NextActiveMeans(facts: seq<Fact>, n: nat, active: map<Kind, bool>)
    requires n < |facts| && ActiveMeans(facts, n, active)
    ensures ActiveMeans(facts, n + 1, NextActive(active, facts[n].kind))
  {
    var next := NextActive(active, facts[n].kind);
    forall k | Stateful(k) ensures next[k] <==> Active(facts, n + 1, k) {
      ActiveStep(facts, n, k);
    }
  }

  lemma NextFlagsMean(facts: seq<Fact>, n: nat, flags: set<Semantic>, v2: bool, anyView: bool)
    requires n < |facts| && FlagsMean(facts, n, flags, v2, anyView)
    ensures FlagsMean(facts, n + 1, NextFlags(flags, facts[n], v2, anyView), v2, anyView)
  {
    HasStep(facts, n, Report);
    HasStep(facts, n, Click);
    HasStep(facts, n, Comment);
    HasStep(facts, n, View);
    ReadsStep(facts, n);
  }

  function FoldNext(f: FoldState, fact: Fact, v2: bool, anyView: bool): FoldState
  {
    FoldState(NextActive(f.active, fact.kind), NextFlags(f.flags, fact, v2, anyView), f.visible || fact.kind == Visible)
  }

  /** The loop's variables after `n` facts. */
  function FoldTo(facts: seq<Fact>, n: nat, v2: bool, anyView: bool): FoldState
    requires n <= |facts|
  {
    if n == 0 then FoldStart else FoldNext(FoldTo(facts, n - 1, v2, anyView), facts[n - 1], v2, anyView)
  }

  lemma {:induction false} FoldIsMeant(facts: seq<Fact>, n: nat, v2: bool, anyView: bool)
    requires n <= |facts|
    ensures FoldMeans(facts, n, FoldTo(facts, n, v2, anyView), v2, anyView)
  {
    if n > 0 {
      FoldIsMeant(facts, n - 1, v2, anyView);
      var f := FoldTo(facts, n - 1, v2, anyView);
      NextActiveMeans(facts, n - 1, f.active);
      NextFlagsMean(facts, n - 1, f.flags, v2, anyView);
      HasStep(facts, n - 1, Visible);
    }
  }

  function Fallback(closed: bool): Semantic
  {
    if closed then Negative else Exposure
  }

  /** The candidate set after the loop, before any fallback. */
  function Resolved(f: FoldState, v2: bool): set<Semantic>
    requires f.active.Keys == {Like, Save, Share, Hide}
  {
    var c := f.flags
      + (if f.active[Hide] then {StrongNegative} else {})
      + (if f.active[Save] || f.active[Share] then {StrongPositive} else {})
      + (if f.active[Like] then {Positive} else {});
    if !v2 && Clicked in c then c - {Clicked} + {Positive} else c
  }

  lemma NextKeys(f: FoldState, fact: Fact, v2: bool, anyView: bool)
    requires f.active.Keys == {Like, Save, Share, Hide} && f.flags <= {StrongNegative, Positive, QualifiedRead, Clicked}
    ensures FoldNext(f, fact, v2, anyView).active.Keys == {Like, Save, Share, Hide}
    ensures FoldNext(f, fact, v2, anyView).flags <= {StrongNegative, Positive, QualifiedRead, Clicked}
  {}

  lemma {:induction false} FoldKeys(facts: seq<Fact>, n: nat, v2: bool, anyView: bool)
    requires n <= |facts|
    ensures FoldTo(facts, n, v2, anyView).active.Keys == {Like, Save, Share, Hide}
    ensures FoldTo(facts, n, v2, anyView).flags <= {StrongNegative, Positive, QualifiedRead, Clicked}
  {
    if n > 0 {
      FoldKeys(facts, n - 1, v2, anyView);
      NextKeys(FoldTo(facts, n - 1, v2, anyView), facts[n - 1], v2, anyView);
    }
  }

  /** Membership in the candidate set, in terms of the loop's variables alone. */
  lemma ResolvedMembers(f: FoldState, v2: bool)
    requires f.active.Keys == {Like, Save, Share, Hide}
    requires f.flags <= {StrongNegative, Positive, QualifiedRead, Clicked}
    ensures var c := Resolved(f, v2);
            && (StrongNegative in c <==> StrongNegative in f.flags || f.active[Hide])
            && (StrongPositive in c <==> f.active[Save] || f.active[Share])
            && (Positive in c <==> Positive in f.flags || f.active[Like] || (!v2 && Clicked in f.flags))
            && (QualifiedRead in c <==> QualifiedRead in f.flags)
            && (Clicked in c <==> v2 && Clicked in f.flags)
            && Negative !in c && Exposure !in c
  {}

  lemma ResolvedIsCandidates(facts: seq<Fact>, v2: bool, anyView: bool, s: Semantic)
    requires FoldTo(facts, |facts|, v2, anyView).active.Keys == {Like, Save, Share, Hide}
    ensures s in Resolved(FoldTo(facts, |facts|, v2, anyView), v2) <==> Candidate(facts, v2, anyView, s)
  {
    var f := FoldTo(facts, |facts|, v2, anyView);
    FoldKeys(facts, |facts|, v2, anyView);
    ResolvedMembers(f, v2);
    FoldIsMeant(facts, |facts|, v2, anyView);
    MeansCandidates(facts, f, v2, anyView, s, Resolved(f, v2));
  }

  lemma MeansCandidates(facts: seq<Fact>, f: FoldState, v2: bool, anyView: bool, s: Semantic, c: set<Semantic>)
    requires FoldMeans(facts, |facts|, f, v2, anyView)
    requires StrongNegative in c <==> StrongNegative in f.flags || f.active[Hide]
    requires StrongPositive in c <==> f.active[Save] || f.active[Share]
    requires Positive in c <==> Positive in f.flags || f.active[Like] || (!v2 && Clicked in f.flags)
    requires QualifiedRead in c <==> QualifiedRead in f.flags
    requires Clicked in c <==> v2 && Clicked in f.flags
    requires Negative !in c && Exposure !in c
    ensures s in c <==> Candidate(facts, v2, anyView, s)
  {
    assert Stateful(Hide) && Stateful(Save) && Stateful(Share) && Stateful(Like);
  }

  /** The strongest candidate, with the fallback added when visible or when there is none, is the
      label's meaning. */
  lemma StrongestIsMeaning(facts: seq<Fact>, v2: bool, anyView: bool, closed: bool, candidates: set<Semantic>)
    requires FoldTo(facts, |facts|, v2, anyView).active.Keys == {Like, Save, Share, Hide}
    requires var c := Resolved(FoldTo(facts, |facts|, v2, anyView), v2);
             candidates == c + {Fallback(closed)} || (candidates == c && c != {})
    ensures Strongest(candidates) == Meaning(facts, v2, anyView, closed)
  {
    forall s ensures s in Resolved(FoldTo(facts, |facts|, v2, anyView), v2) <==> Candidate(facts, v2, anyView, s) {
      ResolvedIsCandidates(facts, v2, anyView, s);
    }
  }

  // ---------------------------------------------------------------- de-duplication by event id

  datatype Gathered =
    | Conflict
    | Gathered(unique: map<string, Event>, order: seq<string>, anonymous: seq<Event>, duplicates: nat)

  function GatherStep(g: Gathered, e: Event, id: Option<string>): Gathered
  {
    match g
    case Conflict => Conflict
    case Gathered(u, o, a, d) =>
      if id.None? then Gathered(u, o, a + [e], d)
      else if id.value !in u then Gathered(u[id.value := e], o + [id.value], a, d)
      else if u[id.value] == e then Gathered(u, o, a, d + 1)
      else Conflict
  }

  function Gather(events: seq<Event>, idOf: Event -> Option<string>): (g: Gathered)
    ensures g.Gathered? ==> forall id | id in g.order :: id in g.unique
  {
    if events == [] then Gathered(map[], [], [], 0)
    else
      var last := events[|events| - 1];
      GatherStep(Gather(events[..|events| - 1], idOf), last, idOf(last))
  }

  method GatherEvents(events: seq<Event>, idOf: Event -> Option<string>) returns (g: Gathered)
    ensures g == Gather(events, idOf)
  {
    var unique: map<string, Event>, order: seq<string>, anonymous: seq<Event>, duplicates: nat := map[], [], [], 0;
    for i := 0 to |events|
      invariant Gathered(unique, order, anonymous, duplicates) == Gather(events[..i], idOf)
    {
      assert events[..i + 1][..i] == events[..i];
      var e := events[i];
      var id := idOf(e);
      if id.None? {
        anonymous := anonymous + [e];
      } else if id.value !in unique {
        unique := unique[id.value := e];
        order := order + [id.value];
      } else if unique[id.value] == e {
        duplicates := duplicates + 1;
      } else {
        assert Gather(events[..i + 1], idOf) == Conflict;
        ConflictStays(events, i + 1, idOf);
        return Conflict;
      }
    }
    assert events[..|events|] == events;
    g := Gathered(unique, order, anonymous, duplicates);
  }

  lemma {:induction false} ConflictStays(events: seq<Event>, i: nat, idOf: Event -> Option<string>)
    requires i <= |events| && Gather(events[..i], idOf) == Conflict
    ensures Gather(events, idOf) == Conflict
    decreases |events| - i
  {
    if i < |events| {
      assert events[..i + 1][..i] == events[..i];
      ConflictStays(events, i + 1, idOf);
    } else {
      assert events[..i] == events;
    }
  }

  function Values(unique: map<string, Event>, order: seq<string>): (r: seq<Event>)
    requires forall id | id in order :: id in unique
    ensures |r| == |order|
  {
    seq(|order|, i requires 0 <= i < |order| => unique[order[i]])
  }
}
