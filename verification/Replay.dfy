/** The v2 preference vector: canonical events, sorted and de-duplicated, replayed by an automaton
    into bounded channels. This module holds the automaton and what it means declaratively. */
module Replay {
  import opened Collections
  import opened Options

  datatype CanonicalType =
    | View | Dwell | Visible | Click | QualifiedRead | Report | Comment
    | Like | Save | Share | Hide
    | Unlike | Unsave | Unshare | Unhide
    | Other(name: string)

  /** `destroys` is `read_trigger == "destroy"`. */
  datatype PreferenceEvent = PreferenceEvent(
    eventId: nat,
    postId: nat,
    eventType: CanonicalType,
    topics: seq<string>,
    occurredAt: int,
    impressionId: Option<nat>,
    sessionId: Option<nat>,
    visitId: Option<nat>,
    dwellMs: Option<int>,
    destroys: bool)

  const DIRECT_READ_VISIT_GAP: int := 3600

  function CanonicalWeight(t: CanonicalType): Option<real>
  {
    match t
    case Click => Some(1.0)
    case QualifiedRead => Some(0.5)
    case Like => Some(1.5)
    case Save | Share => Some(2.5)
    case Hide => Some(-2.0)
    case Report => Some(-5.0)
    case Comment => Some(1.0)
    case _ => None
  }

  function Reverses(t: CanonicalType): Option<CanonicalType>
  {
    match t
    case Unlike => Some(Like)
    case Unsave => Some(Save)
    case Unshare => Some(Share)
    case Unhide => Some(Hide)
    case _ => None
  }

  predicate Stateful(t: CanonicalType)
  {
    t == Like || t == Save || t == Share || t == Hide
  }

  predicate IsRead(e: PreferenceEvent)
  {
    e.eventType == View || e.eventType == Dwell
  }

  predicate Qualified(e: PreferenceEvent, q: int)
  {
    e.dwellMs.Some? && e.dwellMs.value >= q
  }

  // ---------------------------------------------------------------- the automaton

  /** An open direct-entry visit. */
  datatype Visit = Visit(lastEventAt: int, qualifiedCounted: bool, viewSeen: bool, maxDwellMs: int)

  /** The replay's variables; events are named by their index in the replayed sequence. */
  datatype Replayed = Replayed(
    active: map<(nat, CanonicalType), nat>,
    additive: seq<nat>,
    seenImpressions: set<nat>,
    seenVisits: set<(Option<nat>, nat, nat)>,
    visits: map<(nat, nat), Visit>)

  const Start := Replayed(map[], [], {}, {}, map[])

  /** Whether this direct read starts a new visit, given the open one. */
  predicate StartsVisit(e: PreferenceEvent, visits: map<(nat, nat), Visit>, key: (nat, nat))
  {
    key !in visits
    || e.occurredAt - visits[key].lastEventAt > DIRECT_READ_VISIT_GAP
    || (e.eventType == View && visits[key].viewSeen)
    || (e.eventType == Dwell && e.dwellMs.Some? && e.dwellMs.value < visits[key].maxDwellMs)
  }

  /** The visit after this direct read, before a `destroy` closes it. */
  function Visited(e: PreferenceEvent, visits: map<(nat, nat), Visit>, key: (nat, nat), q: int): Visit
  {
    var v := if StartsVisit(e, visits, key) then Visit(e.occurredAt, false, false, 0) else visits[key];
    Visit(e.occurredAt,
          v.qualifiedCounted || Qualified(e, q),
          v.viewSeen || e.eventType == View,
          if e.dwellMs.Some? then Larger(v.maxDwellMs, e.dwellMs.value) else v.maxDwellMs)
  }

  predicate CountsInVisit(e: PreferenceEvent, visits: map<(nat, nat), Visit>, key: (nat, nat), q: int)
  {
    Qualified(e, q) && (StartsVisit(e, visits, key) || !visits[key].qualifiedCounted)
  }

  function ReadStep(e: PreferenceEvent, n: nat, r: Replayed, q: int): Replayed
  {
    if e.impressionId.Some? then
      if Qualified(e, q) && e.impressionId.value !in r.seenImpressions then
        r.(seenImpressions := r.seenImpressions + {e.impressionId.value}, additive := r.additive + [n])
      else r
    else if e.visitId.Some? then
      var key := (e.sessionId, e.postId, e.visitId.value);
      if Qualified(e, q) && key !in r.seenVisits then
        r.(seenVisits := r.seenVisits + {key}, additive := r.additive + [n])
      else r
    else if e.sessionId.None? then
      if Qualified(e, q) then r.(additive := r.additive + [n]) else r
    else
      var key := (e.sessionId.value, e.postId);
      r.(visits := if e.destroys then r.visits - {key} else r.visits[key := Visited(e, r.visits, key, q)],
         additive := if CountsInVisit(e, r.visits, key, q) then r.additive + [n] else r.additive)
  }

  function ReplayStep(e: PreferenceEvent, n: nat, r: Replayed, q: int): Replayed
  {
    if IsRead(e) then ReadStep(e, n, r, q)
    else if Stateful(e.eventType) then r.(active := r.active[(e.postId, e.eventType) := n])
    else if Reverses(e.eventType).Some? then
      r.(active := r.active - {(e.postId, Reverses(e.eventType).value)})
    else if CanonicalWeight(e.eventType).Some? then r.(additive := r.additive + [n])
    else r
  }

  function ReplayTo(u: seq<PreferenceEvent>, n: nat, q: int): Replayed
    requires n <= |u|
  {
    if n == 0 then Start else ReplayStep(u[n - 1], n - 1, ReplayTo(u, n - 1, q), q)
  }

  // ---------------------------------------------------------------- the declarative meaning

  /** Event `j` overrides an earlier stateful event `i`: same post, same action or its reversal. */
  predicate Overrides(u: seq<PreferenceEvent>, j: nat, i: nat)
    requires i < |u| && j < |u|
  {
    u[j].postId == u[i].postId
    && (u[j].eventType == u[i].eventType || Reverses(u[j].eventType) == Some(u[i].eventType))
  }

  /** A like, save, share or hide that nothing later repeats or reverses. */
  ghost predicate Stands(u: seq<PreferenceEvent>, n: nat, i: nat)
    requires i < n <= |u|
  {
    Stateful(u[i].eventType) && forall j | i < j < n :: !Overrides(u, j, i)
  }

  /** A click, comment, report or raw qualified read always counts. */
  predicate AlwaysCounts(e: PreferenceEvent)
  {
    !IsRead(e) && !Stateful(e.eventType) && Reverses(e.eventType).None? && CanonicalWeight(e.eventType).Some?
  }

  predicate ReadOfImpression(e: PreferenceEvent, impression: nat, q: int)
  {
    IsRead(e) && e.impressionId == Some(impression) && Qualified(e, q)
  }

  predicate ReadOfVisit(e: PreferenceEvent, key: (Option<nat>, nat, nat), q: int)
  {
    IsRead(e) && e.impressionId.None? && e.visitId == Some(key.2) && e.sessionId == key.0 && e.postId == key.1
    && Qualified(e, q)
  }

  /** A read with neither impression nor visit id, in a session: grouped by session and post. */
  predicate Direct(e: PreferenceEvent, key: (nat, nat))
  {
    IsRead(e) && e.impressionId.None? && e.visitId.None? && e.sessionId == Some(key.0) && e.postId == key.1
  }

  /** The last direct read of `key` before `n`, or -1. */
  function LastDirect(u: seq<PreferenceEvent>, n: nat, key: (nat, nat)): (p: int)
    requires n <= |u|
    ensures -1 <= p < n && (p >= 0 ==> Direct(u[p], key))
    ensures forall j | p < j < n :: !Direct(u[j], key)
  {
    if n == 0 then -1
    else if Direct(u[n - 1], key) then n - 1
    else LastDirect(u, n - 1, key)
  }

  /** Where the direct visit that contains event `i` begins. */
  ghost function VisitStart(u: seq<PreferenceEvent>, i: nat, key: (nat, nat)): (s: nat)
    requires i < |u| && Direct(u[i], key)
    ensures s <= i
    decreases i, 1
  {
    var p := LastDirect(u, i, key);
    if p < 0 || Breaks(u, p, i, key) then i else VisitStart(u, p, key)
  }

  /** The events of the visit that contains `p`, up to `p`. */
  ghost predicate InVisit(u: seq<PreferenceEvent>, p: nat, key: (nat, nat), j: int)
    requires p < |u| && Direct(u[p], key)
    decreases p, 2
  {
    VisitStart(u, p, key) <= j <= p && Direct(u[j], key)
  }

  /** Direct read `i` does not belong to the visit of its predecessor `p`: that one was destroyed, or
      lies more than an hour back, or `i` is a second view, or a dwell shorter than one already seen. */
  ghost predicate Breaks(u: seq<PreferenceEvent>, p: nat, i: nat, key: (nat, nat))
    requires p < i < |u| && Direct(u[p], key) && Direct(u[i], key)
    decreases i, 0
  {
    || u[p].destroys
    || u[i].occurredAt - u[p].occurredAt > DIRECT_READ_VISIT_GAP
    || (u[i].eventType == View && exists j :: InVisit(u, p, key, j) && u[j].eventType == View)
    || (u[i].eventType == Dwell && u[i].dwellMs.Some?
        && (u[i].dwellMs.value < 0
            || exists j :: InVisit(u, p, key, j) && u[j].dwellMs.Some? && u[i].dwellMs.value < u[j].dwellMs.value))
  }

  /** The read events that contribute: the first qualified read of each impression, of each explicit
      visit and of each direct visit, and every qualified read without any identity. */
  ghost predicate ReadCounts(u: seq<PreferenceEvent>, i: nat, q: int)
    requires i < |u|
  {
    var e := u[i];
    && IsRead(e) && Qualified(e, q)
    && if e.impressionId.Some? then
         forall j | 0 <= j < i :: !ReadOfImpression(u[j], e.impressionId.value, q)
       else if e.visitId.Some? then
         forall j | 0 <= j < i :: !ReadOfVisit(u[j], (e.sessionId, e.postId, e.visitId.value), q)
       else if e.sessionId.None? then true
       else
         var key := (e.sessionId.value, e.postId);
         forall j | 0 <= j < i && InVisit(u, i, key, j) :: !Qualified(u[j], q)
  }

  ghost predicate Contributes(u: seq<PreferenceEvent>, i: nat, q: int)
    requires i < |u|
  {
    Stands(u, |u|, i) || AlwaysCounts(u[i]) || ReadCounts(u, i, q)
  }

  ghost function Contributing(u: seq<PreferenceEvent>, q: int): set<nat>
  {
    set i: nat | i < |u| && Contributes(u, i, q)
  }

  // ---------------------------------------------------------------- active state

  ghost predicate ActiveMeans(u: seq<PreferenceEvent>, n: nat, active: map<(nat, CanonicalType), nat>)
    requires n <= |u|
  {
    && (forall key | key in active ::
          active[key] < n && key == (u[active[key]].postId, u[active[key]].eventType) && Stands(u, n, active[key]))
    && (forall i: nat | i < n && Stands(u, n, i) ::
          (u[i].postId, u[i].eventType) in active && active[(u[i].postId, u[i].eventType)] == i)
  }

  lemma StandsStep(u: seq<PreferenceEvent>, m: nat, i: nat)
    requires i < m < |u|
    ensures Stands(u, m + 1, i) <==> Stands(u, m, i) && !Overrides(u, m, i)
  {}

  function ActiveAfter(e: PreferenceEvent, m: nat, active: map<(nat, CanonicalType), nat>)
    : map<(nat, CanonicalType), nat>
  {
    if Stateful(e.eventType) then active[(e.postId, e.eventType) := m]
    else if Reverses(e.eventType).Some? then active - {(e.postId, Reverses(e.eventType).value)}
    else active
  }

  lemma ActiveStep(
      u: seq<PreferenceEvent>, m: nat, n: nat,
      before: map<(nat, CanonicalType), nat>, after: map<(nat, CanonicalType), nat>)
    requires n == m + 1 <= |u| && ActiveMeans(u, m, before) && after == ActiveAfter(u[m], m, before)
    ensures ActiveMeans(u, n, after)
  {
    forall key | key in after
      ensures after[key] <= m && key == (u[after[key]].postId, u[after[key]].eventType) && Stands(u, m + 1, after[key])
    {
      if after[key] != m {
        StandsStep(u, m, before[key]);
      }
    }
    forall i: nat | i <= m && Stands(u, m + 1, i)
      ensures (u[i].postId, u[i].eventType) in after && after[(u[i].postId, u[i].eventType)] == i
    {
      if i < m {
        StandsStep(u, m, i);
      }
    }
  }

  function ActiveTo(u: seq<PreferenceEvent>, n: nat): map<(nat, CanonicalType), nat>
    requires n <= |u|
  {
    if n == 0 then map[] else ActiveAfter(u[n - 1], n - 1, ActiveTo(u, n - 1))
  }

  lemma {:induction false} ReplayActs(u: seq<PreferenceEvent>, n: nat, q: int)
    requires n <= |u|
    ensures ReplayTo(u, n, q).active == ActiveTo(u, n)
  {
    if n > 0 {
      ReplayActs(u, n - 1, q);
    }
  }

  lemma {:induction false} ActiveToMeans(u: seq<PreferenceEvent>, n: nat)
    requires n <= |u|
    ensures ActiveMeans(u, n, ActiveTo(u, n))
  {
    if n > 0 {
      ActiveToMeans(u, n - 1);
      ActiveStep(u, n - 1, n, ActiveTo(u, n - 1), ActiveTo(u, n));
    }
  }

  lemma ActiveIsMeant(u: seq<PreferenceEvent>, n: nat, q: int)
    requires n <= |u|
    ensures ActiveMeans(u, n, ReplayTo(u, n, q).active)
  {
    ReplayActs(u, n, q);
    ActiveToMeans(u, n);
  }

  // ---------------------------------------------------------------- seen identities

  ghost predicate SeenMeans(u: seq<PreferenceEvent>, n: nat, q: int, r: Replayed)
    requires n <= |u|
  {
    && (forall x :: x in r.seenImpressions <==> exists j :: 0 <= j < n && ReadOfImpression(u[j], x, q))
    && (forall key :: key in r.seenVisits <==> exists j :: 0 <= j < n && ReadOfVisit(u[j], key, q))
  }

  lemma {:induction false} SeenIsMeant(u: seq<PreferenceEvent>, n: nat, q: int)
    requires n <= |u|
    ensures SeenMeans(u, n, q, ReplayTo(u, n, q))
  {
    if n > 0 {
      var m := n - 1;
      SeenIsMeant(u, m, q);
      var before, after := ReplayTo(u, m, q), ReplayTo(u, n, q);
      forall x ensures x in after.seenImpressions <==> exists j :: 0 <= j < n && ReadOfImpression(u[j], x, q) {
        assert x in after.seenImpressions <==> x in before.seenImpressions || ReadOfImpression(u[m], x, q);
      }
      forall key ensures key in after.seenVisits <==> exists j :: 0 <= j < n && ReadOfVisit(u[j], key, q) {
        assert key in after.seenVisits <==> key in before.seenVisits || ReadOfVisit(u[m], key, q);
      }
    }
  }

  // ---------------------------------------------------------------- direct visits

  /** The open visit record summarises exactly the events of that visit. */
  ghost predicate Summarises(u: seq<PreferenceEvent>, p: nat, key: (nat, nat), q: int, v: Visit)
    requires p < |u| && Direct(u[p], key)
  {
    && v.lastEventAt == u[p].occurredAt
    && (v.qualifiedCounted <==> exists j :: InVisit(u, p, key, j) && Qualified(u[j], q))
    && (v.viewSeen <==> exists j :: InVisit(u, p, key, j) && u[j].eventType == View)
    && IsMaxDwell(u, p, key, v.maxDwellMs)
  }

  ghost predicate IsMaxDwell(u: seq<PreferenceEvent>, p: nat, key: (nat, nat), m: int)
    requires p < |u| && Direct(u[p], key)
  {
    && m >= 0
    && (forall j | InVisit(u, p, key, j) && u[j].dwellMs.Some? :: u[j].dwellMs.value <= m)
    && (m == 0 || exists j :: InVisit(u, p, key, j) && u[j].dwellMs == Some(m))
  }

  ghost predicate VisitMeans(u: seq<PreferenceEvent>, n: nat, key: (nat, nat), q: int, visits: map<(nat, nat), Visit>)
    requires n <= |u|
  {
    var p := LastDirect(u, n, key);
    if p < 0 || u[p].destroys then key !in visits
    else key in visits && Summarises(u, p, key, q, visits[key])
  }

  /** The automaton opens a visit exactly where the declarative segmentation breaks. */
  lemma StartsMeansBreaks(u: seq<PreferenceEvent>, i: nat, key: (nat, nat), q: int, visits: map<(nat, nat), Visit>)
    requires i < |u| && Direct(u[i], key) && VisitMeans(u, i, key, q, visits)
    ensures var p := LastDirect(u, i, key);
            StartsVisit(u[i], visits, key) <==> p < 0 || Breaks(u, p, i, key)
  {}

  /** The visit of `i` is `i` alone after a break, and otherwise its predecessor's visit plus `i`. */
  lemma VisitGrows(u: seq<PreferenceEvent>, i: nat, key: (nat, nat))
    requires i < |u| && Direct(u[i], key)
    ensures var p := LastDirect(u, i, key);
            if p < 0 || Breaks(u, p, i, key) then forall j :: InVisit(u, i, key, j) <==> j == i
            else forall j :: InVisit(u, i, key, j) <==> j == i || InVisit(u, p, key, j)
  {
    var p := LastDirect(u, i, key);
    if p < 0 || Breaks(u, p, i, key) {
      assert VisitStart(u, i, key) == i;
    } else {
      assert VisitStart(u, i, key) == VisitStart(u, p, key);
      forall j ensures InVisit(u, i, key, j) <==> j == i || InVisit(u, p, key, j) {}
    }
  }

  lemma VisitedSummarises(u: seq<PreferenceEvent>, i: nat, key: (nat, nat), q: int, visits: map<(nat, nat), Visit>)
    requires i < |u| && Direct(u[i], key) && VisitMeans(u, i, key, q, visits)
    ensures Summarises(u, i, key, q, Visited(u[i], visits, key, q))
    ensures CountsInVisit(u[i], visits, key, q) <==> ReadCounts(u, i, q)
  {
    var p := LastDirect(u, i, key);
    StartsMeansBreaks(u, i, key, q, visits);
    VisitGrows(u, i, key);
    assert InVisit(u, i, key, i);
    var v := Visited(u[i], visits, key, q);
    if !StartsVisit(u[i], visits, key) {
      var w := visits[key];
      assert Summarises(u, p, key, q, w);
      assert v.qualifiedCounted <==> exists j :: InVisit(u, i, key, j) && Qualified(u[j], q);
      if w.maxDwellMs != 0 {
        var j :| InVisit(u, p, key, j) && u[j].dwellMs == Some(w.maxDwellMs);
        assert InVisit(u, i, key, j);
      }
      assert IsMaxDwell(u, i, key, v.maxDwellMs);
    } else {
      assert IsMaxDwell(u, i, key, v.maxDwellMs);
    }
  }

  lemma StepVisits(e: PreferenceEvent, m: nat, r: Replayed, key: (nat, nat), q: int)
    ensures Direct(e, key) ==>
      ReplayStep(e, m, r, q).visits
      == if e.destroys then r.visits - {key} else r.visits[key := Visited(e, r.visits, key, q)]
    ensures !Direct(e, key) ==>
      var visits := ReplayStep(e, m, r, q).visits;
      (key in visits <==> key in r.visits) && (key in visits ==> visits[key] == r.visits[key])
  {
  }

  lemma VisitStep(
      u: seq<PreferenceEvent>, m: nat, n: nat, key: (nat, nat), q: int,
      before: map<(nat, nat), Visit>, after: map<(nat, nat), Visit>)
    requires n == m + 1 <= |u| && VisitMeans(u, m, key, q, before)
    requires Direct(u[m], key) ==>
      after == if u[m].destroys then before - {key} else before[key := Visited(u[m], before, key, q)]
    requires !Direct(u[m], key) ==>
      (key in after <==> key in before) && (key in after ==> after[key] == before[key])
    ensures VisitMeans(u, n, key, q, after)
  {
    if Direct(u[m], key) {
      VisitedSummarises(u, m, key, q, before);
      assert LastDirect(u, n, key) == m;
    } else {
      assert LastDirect(u, n, key) == LastDirect(u, m, key);
    }
  }

  lemma {:induction false} VisitIsMeant(u: seq<PreferenceEvent>, n: nat, key: (nat, nat), q: int)
    requires n <= |u|
    ensures VisitMeans(u, n, key, q, ReplayTo(u, n, q).visits)
  {
    if n > 0 {
      VisitIsMeant(u, n - 1, key, q);
      StepVisits(u[n - 1], n - 1, ReplayTo(u, n - 1, q), key, q);
      VisitStep(u, n - 1, n, key, q, ReplayTo(u, n - 1, q).visits, ReplayTo(u, n, q).visits);
    }
  }

  // ---------------------------------------------------------------- additive contributions

  ghost predicate AdditiveMeans(u: seq<PreferenceEvent>, n: nat, q: int, additive: seq<nat>)
    requires n <= |u|
  {
    && (forall k, l | 0 <= k < l < |additive| :: additive[k] < additive[l])
    && (forall i: nat :: i in additive <==> i < n && (AlwaysCounts(u[i]) || ReadCounts(u, i, q)))
  }

  lemma ReadStepMeans(u: seq<PreferenceEvent>, m: nat, q: int)
    requires m < |u| && IsRead(u[m])
    ensures var before := ReplayTo(u, m, q).additive;
            ReplayTo(u, m + 1, q).additive == if ReadCounts(u, m, q) then before + [m] else before
  {
    SeenIsMeant(u, m, q);
    var e := u[m];
    if e.impressionId.None? && e.visitId.None? && e.sessionId.Some? {
      var key := (e.sessionId.value, e.postId);
      VisitIsMeant(u, m, key, q);
      VisitedSummarises(u, m, key, q, ReplayTo(u, m, q).visits);
    }
  }

  predicate Chosen(e: PreferenceEvent, readCounts: bool)
  {
    AlwaysCounts(e) || readCounts
  }

  /** The contributing indices before `n`, in order. */
  ghost function Additives(u: seq<PreferenceEvent>, n: nat, q: int): seq<nat>
    requires n <= |u|
  {
    if n == 0 then []
    else Additives(u, n - 1, q) + if Chosen(u[n - 1], ReadCounts(u, n - 1, q)) then [n - 1] else []
  }

  lemma StepAdditive(u: seq<PreferenceEvent>, m: nat, q: int)
    requires m < |u|
    ensures ReplayTo(u, m + 1, q).additive
         == ReplayTo(u, m, q).additive + if Chosen(u[m], ReadCounts(u, m, q)) then [m] else []
  {
    if IsRead(u[m]) {
      ReadStepMeans(u, m, q);
    }
  }

  lemma {:induction false} ReplayAdds(u: seq<PreferenceEvent>, n: nat, q: int)
    requires n <= |u|
    ensures ReplayTo(u, n, q).additive == Additives(u, n, q)
  {
    if n > 0 {
      ReplayAdds(u, n - 1, q);
      StepAdditive(u, n - 1, q);
    }
  }

  lemma {:induction false} AdditivesAscend(u: seq<PreferenceEvent>, n: nat, q: int)
    requires n <= |u|
    ensures forall k | 0 <= k < |Additives(u, n, q)| :: Additives(u, n, q)[k] < n
    ensures forall k, l | 0 <= k < l < |Additives(u, n, q)| :: Additives(u, n, q)[k] < Additives(u, n, q)[l]
  {
    if n > 0 {
      AdditivesAscend(u, n - 1, q);
    }
  }

  lemma {:induction false} AdditivesAre(u: seq<PreferenceEvent>, n: nat, q: int, i: nat)
    requires n <= |u|
    ensures i in Additives(u, n, q) <==> i < n && Chosen(u[i], ReadCounts(u, i, q))
  {
    if n > 0 {
      AdditivesAre(u, n - 1, q, i);
    }
  }

  lemma AdditiveIsMeant(u: seq<PreferenceEvent>, n: nat, q: int)
    requires n <= |u|
    ensures AdditiveMeans(u, n, q, ReplayTo(u, n, q).additive)
  {
    ReplayAdds(u, n, q);
    AdditivesAscend(u, n, q);
    forall i: nat
      ensures i in Additives(u, n, q) <==> i < n && (AlwaysCounts(u[i]) || ReadCounts(u, i, q))
    {
      AdditivesAre(u, n, q, i);
    }
  }

  // ---------------------------------------------------------------- visits in numbers

  /** A view and then a long enough dwell, of one post in one session and of no impression or visit id: the
      dwell counts by itself exactly when the view did not, or left, or was more than 3600 seconds before. */
  lemma DwellAfterView(u: seq<PreferenceEvent>, q: int, key: (nat, nat))
    requires |u| == 2 && Direct(u[0], key) && Direct(u[1], key) && u[0].eventType == View && u[1].eventType == Dwell
    requires Qualified(u[1], q) && u[1].dwellMs.value >= 0
    requires u[0].dwellMs.Some? ==> u[0].dwellMs.value <= u[1].dwellMs.value
    ensures 1 in Contributing(u, q)
       <==> || u[0].dwellMs.None? || u[0].dwellMs.value < q || u[0].destroys
            || u[1].occurredAt > u[0].occurredAt + 3600
  {
    assert LastDirect(u, 1, key) == 0;
    assert VisitStart(u, 0, key) == 0;
    assert InVisit(u, 0, key, 0);
    assert forall j | InVisit(u, 0, key, j) :: j == 0;
    assert Breaks(u, 0, 1, key) <==> u[0].destroys || u[1].occurredAt - u[0].occurredAt > DIRECT_READ_VISIT_GAP;
    assert InVisit(u, 1, key, 0) <==> !Breaks(u, 0, 1, key);
    assert Contributes(u, 1, q) <==> ReadCounts(u, 1, q);
  }

}
