/** `build_preference_vector_v2`: sort, de-duplicate, replay, accumulate. The methods follow the
    source's loops; `Builds` says what vector a set of events stands for. */
module PreferenceVector {
  import opened Collections
  import opened Options
  import opened Sorting
  import opened Lexicographic
  import opened TopicVectors
  import opened Replay

  datatype PreferenceVectorV2 = PreferenceVectorV2(
    positive: Vector, negative: Vector, referenceAt: int, sourceEventCount: nat)

  /** `decay(age, halfLife)` stands for `exp2(-age / halfLife)`. */
  datatype Params = Params(
    halfLifeHours: real, channelBound: real, qualifiedReadMs: int, decay: (int, real) -> real)

  // ---------------------------------------------------------------- order and identity

  function TypeName(t: CanonicalType): string
  {
    match t
    case View => "view" case Dwell => "dwell" case Visible => "visible" case Click => "click"
    case QualifiedRead => "qualified_read" case Report => "report" case Comment => "comment"
    case Like => "like" case Save => "save" case Share => "share" case Hide => "hide"
    case Unlike => "unlike" case Unsave => "unsave" case Unshare => "unshare" case Unhide => "unhide"
    case Other(name) => name
  }

  predicate TailLeq(a: PreferenceEvent, b: PreferenceEvent)
  {
    if TypeName(a.eventType) == TypeName(b.eventType) then StringsLeq(a.topics, b.topics)
    else StringLeq(TypeName(a.eventType), TypeName(b.eventType))
  }

  /** The sort key (occurred_at, event_id, post_id, event_type, topics). */
  predicate EventLeq(a: PreferenceEvent, b: PreferenceEvent)
  {
    if a.occurredAt != b.occurredAt then a.occurredAt < b.occurredAt
    else if a.eventId != b.eventId then a.eventId < b.eventId
    else if a.postId != b.postId then a.postId < b.postId
    else TailLeq(a, b)
  }

  lemma EventOrder()
    ensures TotalPreorder(EventLeq)
  {
    StringOrder();
    StringsOrder();
    forall a, b, c | TailLeq(a, b) && TailLeq(b, c) ensures TailLeq(a, c) {}
    forall a, b, c | EventLeq(a, b) && EventLeq(b, c) ensures EventLeq(a, c) {}
  }

  function Dedupe(s: seq<PreferenceEvent>, seen: set<nat>, ref: int): (r: seq<PreferenceEvent>)
    ensures forall e | e in r :: e in s && e.eventId !in seen && e.occurredAt <= ref
    decreases |s|
  {
    if s == [] then []
    else if s[0].eventId in seen || s[0].occurredAt > ref then Dedupe(s[1..], seen, ref)
    else [s[0]] + Dedupe(s[1..], seen + {s[0].eventId}, ref)
  }

  function Unique(events: seq<PreferenceEvent>, ref: int): seq<PreferenceEvent>
  {
    Dedupe(Sort(events, EventLeq), {}, ref)
  }

  function LatestTime(events: seq<PreferenceEvent>): (t: int)
    requires events != []
    ensures forall e | e in events :: e.occurredAt <= t
    ensures exists e :: e in events && e.occurredAt == t
  {
    if |events| == 1 then
      assert events[0] in events;
      events[0].occurredAt
    else
      assert events == [events[0]] + events[1..];
      Larger(LatestTime(events[1..]), events[0].occurredAt)
  }

  function Reference(events: seq<PreferenceEvent>, referenceAt: Option<int>, now: int): int
  {
    if referenceAt.Some? then referenceAt.value else if events == [] then now else LatestTime(events)
  }

  // ---------------------------------------------------------------- what a vector means

  function ContributionWeight(e: PreferenceEvent): real
  {
    if IsRead(e) then 0.5
    else if CanonicalWeight(e.eventType).Some? then CanonicalWeight(e.eventType).value else 0.0
  }

  function Amount(e: PreferenceEvent, ref: int, p: Params): real
  {
    ContributionWeight(e) * p.decay(Larger(0, ref - e.occurredAt), p.halfLifeHours)
  }

  function NonEmpty(topics: seq<string>): seq<string>
  {
    if topics == [] then []
    else (if topics[0] == "" then [] else [topics[0]]) + NonEmpty(topics[1..])
  }

  function TopicsOf(e: PreferenceEvent): (r: seq<string>)
    ensures r != []
  {
    if NonEmpty(e.topics) == [] then ["general"] else NonEmpty(e.topics)
  }

  function Abs(x: real): real
  {
    if x < 0.0 then -x else x
  }

  function EventShare(e: PreferenceEvent, ref: int, p: Params): (r: real)
    ensures r >= 0.0
  {
    Abs(Amount(e, ref, p)) / |TopicsOf(e)| as real
  }

  /** What one contributing event adds to `topic` of the positive or the negative channel. */
  function Contribution(e: PreferenceEvent, ref: int, p: Params, positive: bool, topic: string): real
  {
    if (Amount(e, ref, p) > 0.0) == positive then Spread(TopicsOf(e), topic, EventShare(e, ref, p)) else 0.0
  }

  ghost function ChannelSum(
      u: seq<PreferenceEvent>, chosen: set<nat>, n: nat, ref: int, p: Params, positive: bool, topic: string): real
    requires n <= |u|
  {
    if n == 0 then 0.0
    else
      ChannelSum(u, chosen, n - 1, ref, p, positive, topic)
      + (if n - 1 in chosen then Contribution(u[n - 1], ref, p, positive, topic) else 0.0)
  }

  function Least(a: real, b: real): real
  {
    if a < b then a else b
  }

  /** Each entry is the sum of the contributing shares cut off at the bound; no entry is zero. */
  ghost predicate ChannelIs(m: Vector, u: seq<PreferenceEvent>, ref: int, p: Params, positive: bool)
  {
    forall topic ::
      var total := ChannelSum(u, Contributing(u, p.qualifiedReadMs), |u|, ref, p, positive, topic);
      (topic in m <==> total > 0.0) && (topic in m ==> m[topic] == Least(p.channelBound, total))
  }

  /** `v` is the vector of `events`: the declaratively contributing events, summed per channel. */
  ghost predicate Builds(
      events: seq<PreferenceEvent>, referenceAt: Option<int>, now: int, p: Params, v: PreferenceVectorV2)
  {
    var ref := Reference(events, referenceAt, now);
    var u := Unique(events, ref);
    && v.referenceAt == ref
    && v.sourceEventCount == |Contributing(u, p.qualifiedReadMs)|
    && ChannelIs(v.positive, u, ref, p, true)
    && ChannelIs(v.negative, u, ref, p, false)
  }

  // ---------------------------------------------------------------- the loops

  method UniqueEvents(ordered: seq<PreferenceEvent>, ref: int) returns (unique: seq<PreferenceEvent>)
    ensures unique == Dedupe(ordered, {}, ref)
  {
    unique := [];
    var seen: set<nat> := {};
    for i := 0 to |ordered|
      invariant unique + Dedupe(ordered[i..], seen, ref) == Dedupe(ordered, {}, ref)
    {
      assert ordered[i..][1..] == ordered[i + 1..];
      var e := ordered[i];
      if !(e.eventId in seen || e.occurredAt > ref) {
        ghost var rest := Dedupe(ordered[i + 1..], seen + {e.eventId}, ref);
        assert unique + ([e] + rest) == unique + [e] + rest;
        seen := seen + {e.eventId};
        unique := unique + [e];
      }
    }
  }

  ghost function Indices(idx: seq<nat>): set<nat>
  {
    set i | i in idx
  }

  /** The view/dwell branch of the loop body: whether the read counts, and the updated identities. */
  method ReplayRead(
      e: PreferenceEvent, q: int, seenImpressions: set<nat>, seenVisits: set<(Option<nat>, nat, nat)>,
      visits: map<(nat, nat), Visit>, ghost n: nat, ghost r: Replayed)
    returns (
      counts: bool, impressions: set<nat>, explicit: set<(Option<nat>, nat, nat)>, direct: map<(nat, nat), Visit>)
    requires seenImpressions == r.seenImpressions && seenVisits == r.seenVisits && visits == r.visits
    ensures ReadStep(e, n, r, q)
         == r.(seenImpressions := impressions, seenVisits := explicit, visits := direct,
               additive := if counts then r.additive + [n] else r.additive)
  {
    counts, impressions, explicit, direct := false, seenImpressions, seenVisits, visits;
    var qualified := Qualified(e, q);
    if e.impressionId.Some? {
      if qualified && e.impressionId.value !in impressions {
        impressions := impressions + {e.impressionId.value};
        counts := true;
      }
    } else if e.visitId.Some? {
      var key := (e.sessionId, e.postId, e.visitId.value);
      if qualified && key !in explicit {
        explicit := explicit + {key};
        counts := true;
      }
    } else if e.sessionId.None? {
      counts := qualified;
    } else {
      var key := (e.sessionId.value, e.postId);
      var visit := if StartsVisit(e, visits, key) then Visit(e.occurredAt, false, false, 0) else visits[key];
      visit := visit.(lastEventAt := e.occurredAt);
      if e.eventType == View {
        visit := visit.(viewSeen := true);
      }
      if e.dwellMs.Some? {
        visit := visit.(maxDwellMs := Larger(visit.maxDwellMs, e.dwellMs.value));
      }
      if qualified && !visit.qualifiedCounted {
        counts := true;
        visit := visit.(qualifiedCounted := true);
      }
      direct := if e.destroys then direct - {key} else direct[key := visit];
    }
  }

  ghost predicate NamesAdditive(additive: seq<PreferenceEvent>, r: Replayed, u: seq<PreferenceEvent>)
  {
    |additive| == |r.additive|
    && forall k | 0 <= k < |additive| :: r.additive[k] < |u| && additive[k] == u[r.additive[k]]
  }

  ghost predicate NamesActive(active: map<(nat, CanonicalType), PreferenceEvent>, r: Replayed, u: seq<PreferenceEvent>)
  {
    active.Keys == r.active.Keys
    && forall key | key in r.active :: r.active[key] < |u| && active[key] == u[r.active[key]]
  }

  lemma AdditiveNext(
      additive: seq<PreferenceEvent>, r: Replayed, r': Replayed, u: seq<PreferenceEvent>, e: PreferenceEvent)
    requires NamesAdditive(additive, r, u)
    ensures r'.additive == r.additive ==> NamesAdditive(additive, r', u + [e])
    ensures r'.additive == r.additive + [|u|] ==> NamesAdditive(additive + [e], r', u + [e])
  {
  }

  lemma ActiveNext(
      active: map<(nat, CanonicalType), PreferenceEvent>, r: Replayed, r': Replayed, u: seq<PreferenceEvent>,
      e: PreferenceEvent, key: (nat, CanonicalType))
    requires NamesActive(active, r, u)
    ensures r'.active == r.active ==> NamesActive(active, r', u + [e])
    ensures r'.active == r.active[key := |u|] ==> NamesActive(active[key := e], r', u + [e])
    ensures r'.active == r.active - {key} ==> NamesActive(active - {key}, r', u + [e])
  {
  }

  /** The replay loop. What it leaves in `additive` and `active` are the events the automaton names by
      index. */
  method ReplayEvents(u: seq<PreferenceEvent>, q: int)
    returns (additive: seq<PreferenceEvent>, active: map<(nat, CanonicalType), PreferenceEvent>)
    ensures NamesAdditive(additive, ReplayTo(u, |u|, q), u) && NamesActive(active, ReplayTo(u, |u|, q), u)
  {
    additive, active := [], map[];
    var seenImpressions: set<nat>, seenVisits: set<(Option<nat>, nat, nat)> := {}, {};
    var visits: map<(nat, nat), Visit> := map[];
    ghost var r := Start;
    for n := 0 to |u|
      invariant r == ReplayTo(u, n, q)
      invariant seenImpressions == r.seenImpressions && seenVisits == r.seenVisits && visits == r.visits
      invariant NamesAdditive(additive, r, u[..n]) && NamesActive(active, r, u[..n])
    {
      var e := u[n];
      var key := (e.postId, if Reverses(e.eventType).Some? then Reverses(e.eventType).value else e.eventType);
      ghost var before := r;
      r := ReplayStep(e, n, r, q);
      assert u[..n + 1] == u[..n] + [e];
      AdditiveNext(additive, before, r, u[..n], e);
      ActiveNext(active, before, r, u[..n], e, key);
      if IsRead(e) {
        var counts;
        counts, seenImpressions, seenVisits, visits := ReplayRead(e, q, seenImpressions, seenVisits, visits, n, before);
        if counts {
          additive := additive + [e];
        }
      } else if Stateful(e.eventType) {
        active := active[key := e];
      } else if Reverses(e.eventType).Some? {
        active := active - {key};
      } else if CanonicalWeight(e.eventType).Some? {
        additive := additive + [e];
      }
    }
    assert u[..|u|] == u;
  }

  /** No index is named twice by the additive list and the active map. */
  ghost predicate NamedOnce(r: Replayed)
  {
    && (forall k, l | 0 <= k < l < |r.additive| :: r.additive[k] != r.additive[l])
    && (forall key | key in r.active :: r.active[key] !in r.additive)
    && (forall key, other | key in r.active && other in r.active && key != other :: r.active[key] != r.active[other])
  }

  lemma ReplayNamesOnce(u: seq<PreferenceEvent>, q: int)
    ensures NamedOnce(ReplayTo(u, |u|, q))
  {
    var r := ReplayTo(u, |u|, q);
    AdditiveIsMeant(u, |u|, q);
    ActiveIsMeant(u, |u|, q);
    forall key | key in r.active ensures r.active[key] !in r.additive {
      assert Stateful(u[r.active[key]].eventType);
    }
  }

  ghost predicate ActiveIn(r: Replayed, done: set<(nat, CanonicalType)>, i: nat)
  {
    exists key :: key in done && key in r.active && r.active[key] == i
  }

  /** `additive + [... for event in active.items()]`; the ghost result holds the indices. */
  method AppendActive(
      additive: seq<PreferenceEvent>, active: map<(nat, CanonicalType), PreferenceEvent>,
      ghost r: Replayed, ghost u: seq<PreferenceEvent>)
    returns (contributions: seq<PreferenceEvent>, ghost idx: seq<nat>)
    requires NamedOnce(r) && NamesAdditive(additive, r, u) && NamesActive(active, r, u)
    ensures |contributions| == |idx|
    ensures forall k | 0 <= k < |idx| :: idx[k] < |u| && contributions[k] == u[idx[k]]
    ensures forall k, l | 0 <= k < l < |idx| :: idx[k] != idx[l]
    ensures forall i: nat :: i in idx <==> i in r.additive || ActiveIn(r, r.active.Keys, i)
  {
    contributions, idx := additive, r.additive;
    var keys := active.Keys;
    ghost var done: set<(nat, CanonicalType)> := {};
    while keys != {}
      invariant done !! keys && done + keys == r.active.Keys
      invariant |contributions| == |idx|
      invariant forall k | 0 <= k < |idx| :: idx[k] < |u| && contributions[k] == u[idx[k]]
      invariant forall k, l | 0 <= k < l < |idx| :: idx[k] != idx[l]
      invariant forall i: nat :: i in idx <==> i in r.additive || ActiveIn(r, done, i)
      decreases keys
    {
      var key :| key in keys;
      ghost var j := r.active[key];
      assert !ActiveIn(r, done, j);
      assert forall i: nat :: ActiveIn(r, done + {key}, i) <==> i == j || ActiveIn(r, done, i);
      contributions := contributions + [active[key]];
      idx := idx + [j];
      keys, done := keys - {key}, done + {key};
    }
  }

  method Contributions(u: seq<PreferenceEvent>, q: int)
    returns (contributions: seq<PreferenceEvent>, ghost idx: seq<nat>)
    ensures |contributions| == |idx|
    ensures forall k | 0 <= k < |idx| :: idx[k] < |u| && contributions[k] == u[idx[k]]
    ensures forall k, l | 0 <= k < l < |idx| :: idx[k] != idx[l]
    ensures Indices(idx) == Contributing(u, q)
  {
    var additive, active := ReplayEvents(u, q);
    ReplayNamesOnce(u, q);
    contributions, idx := AppendActive(additive, active, ReplayTo(u, |u|, q), u);
    ContributingIndices(u, q, idx);
  }

  lemma ContributingIndices(u: seq<PreferenceEvent>, q: int, idx: seq<nat>)
    requires var r := ReplayTo(u, |u|, q);
             forall i: nat :: i in idx <==> i in r.additive || ActiveIn(r, r.active.Keys, i)
    ensures Indices(idx) == Contributing(u, q)
  {
    var r := ReplayTo(u, |u|, q);
    AdditiveIsMeant(u, |u|, q);
    ActiveIsMeant(u, |u|, q);
    forall i: nat ensures i in Indices(idx) <==> i in Contributing(u, q) {
      if i < |u| && Stands(u, |u|, i) {
        assert r.active[(u[i].postId, u[i].eventType)] == i;
        assert ActiveIn(r, r.active.Keys, i);
      }
    }
  }

  function AddSaturating(channel: Vector, topics: seq<string>, share: real, bound: real): Vector
    decreases |topics|
  {
    if topics == [] then channel
    else AddSaturating(channel[topics[0] := Least(bound, Get(channel, topics[0]) + share)], topics[1..], share, bound)
  }

  method AddShares(channel: Vector, topics: seq<string>, share: real, bound: real) returns (r: Vector)
    ensures r == AddSaturating(channel, topics, share, bound)
  {
    r := channel;
    for i := 0 to |topics|
      invariant AddSaturating(r, topics[i..], share, bound) == AddSaturating(channel, topics, share, bound)
    {
      assert topics[i..][1..] == topics[i + 1..];
      r := r[topics[i] := Least(bound, Get(r, topics[i]) + share)];
    }
  }

  /** Saturating at every step is saturating once, because shares are non-negative. */
  lemma {:induction false} AddSaturatingAt(
      channel: Vector, topics: seq<string>, share: real, bound: real, topic: string)
    requires share >= 0.0 && Get(channel, topic) <= bound
    ensures Get(AddSaturating(channel, topics, share, bound), topic)
         == Least(bound, Get(channel, topic) + Spread(topics, topic, share))
    decreases |topics|
  {
    if topics != [] {
      SpreadNonNegative(topics[1..], topic, share);
      AddSaturatingAt(channel[topics[0] := Least(bound, Get(channel, topics[0]) + share)], topics[1..], share, bound,
          topic);
    }
  }

  lemma {:induction false} ChannelSumAdd(
      u: seq<PreferenceEvent>, chosen: set<nat>, i: nat, n: nat, ref: int, p: Params, positive: bool, topic: string)
    requires n <= |u| && i !in chosen
    ensures ChannelSum(u, chosen + {i}, n, ref, p, positive, topic)
         == ChannelSum(u, chosen, n, ref, p, positive, topic)
            + if i < n then Contribution(u[i], ref, p, positive, topic) else 0.0
  {
    if n > 0 {
      ChannelSumAdd(u, chosen, i, n - 1, ref, p, positive, topic);
    }
  }

  lemma {:induction false} ChannelSumEmpty(
      u: seq<PreferenceEvent>, n: nat, ref: int, p: Params, positive: bool, topic: string)
    requires n <= |u|
    ensures ChannelSum(u, {}, n, ref, p, positive, topic) == 0.0
  {
    if n > 0 { ChannelSumEmpty(u, n - 1, ref, p, positive, topic); }
  }

  ghost function Firsts(idx: seq<nat>, k: nat): set<nat>
    requires k <= |idx|
  {
    set l | 0 <= l < k :: idx[l]
  }

  /** The channel holds the saturated sums over the chosen events so far. */
  ghost predicate Holds(m: Vector, u: seq<PreferenceEvent>, chosen: set<nat>, ref: int, p: Params, positive: bool)
  {
    forall topic :: Get(m, topic) == Least(p.channelBound, ChannelSum(u, chosen, |u|, ref, p, positive, topic))
  }

  lemma HoldsStep(
      m: Vector, m': Vector, u: seq<PreferenceEvent>, chosen: set<nat>, i: nat, ref: int, p: Params, positive: bool)
    requires i < |u| && i !in chosen && p.channelBound > 0.0 && Holds(m, u, chosen, ref, p, positive)
    requires m' == if (Amount(u[i], ref, p) > 0.0) == positive
                   then AddSaturating(m, TopicsOf(u[i]), EventShare(u[i], ref, p), p.channelBound) else m
    ensures Holds(m', u, chosen + {i}, ref, p, positive)
  {
    forall topic
      ensures Get(m', topic) == Least(p.channelBound, ChannelSum(u, chosen + {i}, |u|, ref, p, positive, topic))
    {
      ChannelSumAdd(u, chosen, i, |u|, ref, p, positive, topic);
      SpreadNonNegative(TopicsOf(u[i]), topic, EventShare(u[i], ref, p));
      AddSaturatingAt(m, TopicsOf(u[i]), EventShare(u[i], ref, p), p.channelBound, topic);
    }
  }

  method Accumulate(
      contributions: seq<PreferenceEvent>, ref: int, p: Params, ghost u: seq<PreferenceEvent>, ghost idx: seq<nat>)
    returns (positive: Vector, negative: Vector)
    requires p.channelBound > 0.0 && |contributions| == |idx|
    requires forall k | 0 <= k < |idx| :: idx[k] < |u| && contributions[k] == u[idx[k]]
    requires forall k, l | 0 <= k < l < |idx| :: idx[k] != idx[l]
    ensures Holds(positive, u, Indices(idx), ref, p, true)
    ensures Holds(negative, u, Indices(idx), ref, p, false)
  {
    positive, negative := map[], map[];
    assert Firsts(idx, 0) == {};
    forall topic, sign ensures ChannelSum(u, {}, |u|, ref, p, sign, topic) == 0.0 {
      ChannelSumEmpty(u, |u|, ref, p, sign, topic);
    }
    for k := 0 to |contributions|
      invariant Holds(positive, u, Firsts(idx, k), ref, p, true)
      invariant Holds(negative, u, Firsts(idx, k), ref, p, false)
    {
      var e := contributions[k];
      ghost var positive0, negative0 := positive, negative;
      if Amount(e, ref, p) > 0.0 {
        positive := AddShares(positive, TopicsOf(e), EventShare(e, ref, p), p.channelBound);
      } else {
        negative := AddShares(negative, TopicsOf(e), EventShare(e, ref, p), p.channelBound);
      }
      assert Firsts(idx, k + 1) == Firsts(idx, k) + {idx[k]};
      HoldsStep(positive0, positive, u, Firsts(idx, k), idx[k], ref, p, true);
      HoldsStep(negative0, negative, u, Firsts(idx, k), idx[k], ref, p, false);
    }
    assert Firsts(idx, |idx|) == Indices(idx);
  }

  function Rounded(channel: Vector): Vector
  {
    map t | t in channel && channel[t] > 0.0 :: channel[t]
  }

  lemma {:induction false} IndexCount(idx: seq<nat>)
    requires forall k, l | 0 <= k < l < |idx| :: idx[k] != idx[l]
    ensures |Indices(idx)| == |idx|
  {
    if idx != [] {
      IndexCount(idx[1..]);
      assert idx == [idx[0]] + idx[1..];
      assert Indices(idx) == {idx[0]} + Indices(idx[1..]);
    }
  }

  lemma RoundedIsChannel(m: Vector, u: seq<PreferenceEvent>, ref: int, p: Params, positive: bool)
    requires p.channelBound > 0.0 && Holds(m, u, Contributing(u, p.qualifiedReadMs), ref, p, positive)
    ensures ChannelIs(Rounded(m), u, ref, p, positive)
  {
    forall topic
      ensures var total := ChannelSum(u, Contributing(u, p.qualifiedReadMs), |u|, ref, p, positive, topic);
              (topic in Rounded(m) <==> total > 0.0)
              && (topic in Rounded(m) ==> Rounded(m)[topic] == Least(p.channelBound, total))
    {
      assert Get(m, topic)
          == Least(p.channelBound, ChannelSum(u, Contributing(u, p.qualifiedReadMs), |u|, ref, p, positive, topic));
    }
  }

  /** None is the `ValueError` for a non-positive half-life or bound. */
  method BuildPreferenceVectorV2(events: seq<PreferenceEvent>, referenceAt: Option<int>, now: int, p: Params)
    returns (v: Option<PreferenceVectorV2>)
    ensures v.None? <==> p.halfLifeHours <= 0.0 || p.channelBound <= 0.0
    ensures v.Some? ==> Builds(events, referenceAt, now, p, v.value)
  {
    if p.halfLifeHours <= 0.0 || p.channelBound <= 0.0 {
      return None;
    }
    var ref := Reference(events, referenceAt, now);
    var unique := UniqueEvents(Sort(events, EventLeq), ref);
    var contributions, idx := Contributions(unique, p.qualifiedReadMs);
    var positive, negative := Accumulate(contributions, ref, p, unique, idx);
    IndexCount(idx);
    RoundedIsChannel(positive, unique, ref, p, true);
    RoundedIsChannel(negative, unique, ref, p, false);
    return Some(PreferenceVectorV2(Rounded(positive), Rounded(negative), ref, |contributions|));
  }

  // ---------------------------------------------------------------- only the set of events matters

  /** `e` is the least event of its id in `s`. */
  ghost predicate LeastOfId(s: seq<PreferenceEvent>, e: PreferenceEvent)
  {
    e in s && forall f | f in s && f.eventId == e.eventId :: EventLeq(e, f)
  }

  lemma LeastOfTail(s: seq<PreferenceEvent>, e: PreferenceEvent)
    requires s != [] && Sorted(s, EventLeq) && KeysIdentify(s, EventLeq)
    ensures e.eventId == s[0].eventId ==> (LeastOfId(s, e) <==> e == s[0])
    ensures e.eventId != s[0].eventId ==> (LeastOfId(s, e) <==> LeastOfId(s[1..], e))
  {
    EventOrder();
    assert s[0] in s && s == [s[0]] + s[1..];
    forall f | f in s ensures EventLeq(s[0], f) {
      var k :| 0 <= k < |s| && s[k] == f;
    }
  }

  /** De-duplication keeps, for each id, the least eligible event under the sort key. */
  lemma {:induction false} DedupeKeepsLeast(s: seq<PreferenceEvent>, seen: set<nat>, ref: int, e: PreferenceEvent)
    requires Sorted(s, EventLeq) && KeysIdentify(s, EventLeq)
    ensures e in Dedupe(s, seen, ref) <==> LeastOfId(s, e) && e.eventId !in seen && e.occurredAt <= ref
    decreases |s|
  {
    if s != [] {
      LeastOfTail(s, e);
      if s[0].occurredAt > ref && e in s {
        LaterStaysLate(s, e, ref);
      }
      if s[0].eventId in seen || s[0].occurredAt > ref {
        DedupeKeepsLeast(s[1..], seen, ref, e);
      } else {
        DedupeKeepsLeast(s[1..], seen + {s[0].eventId}, ref, e);
      }
    }
  }

  /** After an event past the reference come only such events. */
  lemma LaterStaysLate(s: seq<PreferenceEvent>, e: PreferenceEvent, ref: int)
    requires s != [] && Sorted(s, EventLeq) && s[0].occurredAt > ref && e in s
    ensures e.occurredAt > ref
  {
    var k :| 0 <= k < |s| && s[k] == e;
    assert k > 0 ==> EventLeq(s[0], s[k]);
  }

  lemma {:induction false} DedupeSorted(s: seq<PreferenceEvent>, seen: set<nat>, ref: int)
    requires Sorted(s, EventLeq)
    ensures Sorted(Dedupe(s, seen, ref), EventLeq)
    decreases |s|
  {
    if s != [] {
      if s[0].eventId in seen || s[0].occurredAt > ref {
        DedupeSorted(s[1..], seen, ref);
      } else {
        var rest := Dedupe(s[1..], seen + {s[0].eventId}, ref);
        DedupeSorted(s[1..], seen + {s[0].eventId}, ref);
        forall j | 0 <= j < |rest| ensures EventLeq(s[0], rest[j]) {
          assert rest[j] in rest && rest[j] in s[1..];
          var k :| 0 <= k < |s[1..]| && s[1..][k] == rest[j];
          assert s[k + 1] == rest[j];
        }
      }
    }
  }

  lemma {:induction false} DedupeDistinct(s: seq<PreferenceEvent>, seen: set<nat>, ref: int)
    ensures forall i, j | 0 <= i < j < |Dedupe(s, seen, ref)| ::
              Dedupe(s, seen, ref)[i].eventId != Dedupe(s, seen, ref)[j].eventId
    decreases |s|
  {
    if s != [] {
      if s[0].eventId in seen || s[0].occurredAt > ref {
        DedupeDistinct(s[1..], seen, ref);
      } else {
        var rest := Dedupe(s[1..], seen + {s[0].eventId}, ref);
        DedupeDistinct(s[1..], seen + {s[0].eventId}, ref);
        forall j | 0 <= j < |rest| ensures s[0].eventId != rest[j].eventId {
          assert rest[j] in rest;
        }
      }
    }
  }

  lemma UniqueMeans(a: seq<PreferenceEvent>, ref: int, e: PreferenceEvent)
    requires KeysIdentify(a, EventLeq)
    ensures e in Unique(a, ref) <==> LeastOfId(a, e) && e.occurredAt <= ref
  {
    EventOrder();
    SortSorted(a, EventLeq);
    SortMembers(a, EventLeq);
    DedupeKeepsLeast(Sort(a, EventLeq), {}, ref, e);
  }

  lemma SameUniqueMembers(a: seq<PreferenceEvent>, b: seq<PreferenceEvent>, ref: int)
    requires (forall e :: e in a <==> e in b) && KeysIdentify(a, EventLeq)
    ensures forall e :: e in Unique(a, ref) <==> e in Unique(b, ref)
  {
    forall e ensures e in Unique(a, ref) <==> e in Unique(b, ref) {
      UniqueMeans(a, ref, e);
      UniqueMeans(b, ref, e);
    }
  }

  lemma UniqueKeys(a: seq<PreferenceEvent>, ref: int)
    requires KeysIdentify(a, EventLeq)
    ensures KeysIdentify(Unique(a, ref), EventLeq)
  {
    forall e | e in Unique(a, ref) ensures e in a {
      UniqueMeans(a, ref, e);
    }
  }

  lemma UniqueDependsOnSet(a: seq<PreferenceEvent>, b: seq<PreferenceEvent>, ref: int)
    requires forall e :: e in a <==> e in b
    requires KeysIdentify(a, EventLeq)
    ensures Unique(a, ref) == Unique(b, ref)
  {
    SameUniqueMembers(a, b, ref);
    UniqueKeys(a, ref);
    UniqueShape(a, ref);
    UniqueShape(b, ref);
    StrictUnique(Unique(a, ref), Unique(b, ref), EventLeq);
  }

  lemma ChannelsEqual(m: Vector, n: Vector, u: seq<PreferenceEvent>, ref: int, p: Params, positive: bool)
    requires ChannelIs(m, u, ref, p, positive) && ChannelIs(n, u, ref, p, positive)
    ensures m == n
  {
    forall topic ensures topic in m <==> topic in n {
      var total := ChannelSum(u, Contributing(u, p.qualifiedReadMs), |u|, ref, p, positive, topic);
    }
    assert m.Keys == n.Keys;
  }

  lemma SameReference(
      a: seq<PreferenceEvent>, b: seq<PreferenceEvent>, referenceAt: Option<int>, nowA: int, nowB: int)
    requires a != [] && forall e :: e in a <==> e in b
    ensures Reference(a, referenceAt, nowA) == Reference(b, referenceAt, nowB)
  {
    assert a[0] in a && a[0] in b;
  }

  /** Permuting or repeating the events of a non-empty input changes nothing, as long as the sort key
      tells different events apart (event ids that identify events are enough). */
  lemma VectorDependsOnSet(
      a: seq<PreferenceEvent>, b: seq<PreferenceEvent>, referenceAt: Option<int>, nowA: int, nowB: int, p: Params,
      v: PreferenceVectorV2, w: PreferenceVectorV2)
    requires a != [] && (forall e :: e in a <==> e in b) && KeysIdentify(a, EventLeq)
    requires Builds(a, referenceAt, nowA, p, v) && Builds(b, referenceAt, nowB, p, w)
    ensures v == w
  {
    var ref := Reference(a, referenceAt, nowA);
    SameReference(a, b, referenceAt, nowA, nowB);
    UniqueDependsOnSet(a, b, ref);
    ChannelsEqual(v.positive, w.positive, Unique(a, ref), ref, p, true);
    ChannelsEqual(v.negative, w.negative, Unique(a, ref), ref, p, false);
  }

  // ---------------------------------------------------------------- conflicting duplicates

  /** `e` is a least eligible event for its id. */
  ghost predicate LeastForId(a: seq<PreferenceEvent>, e: PreferenceEvent, ref: int)
  {
    e in a && e.occurredAt <= ref && forall f | f in a && f.eventId == e.eventId :: EventLeq(e, f)
  }

  /** No id has two different least eligible events. */
  ghost predicate ConflictsResolved(a: seq<PreferenceEvent>, ref: int)
  {
    forall e, f | LeastForId(a, e, ref) && LeastForId(a, f, ref) && e.eventId == f.eventId :: e == f
  }

  lemma HeadIsLeast(s: seq<PreferenceEvent>)
    requires Sorted(s, EventLeq) && s != []
    ensures forall f | f in s[1..] :: EventLeq(s[0], f)
    ensures EventLeq(s[0], s[0])
  {
    EventOrder();
    forall f | f in s[1..] ensures EventLeq(s[0], f) {
      var k :| 0 <= k < |s[1..]| && s[1..][k] == f;
      assert s[k + 1] == f;
    }
  }

  lemma {:induction false} DedupeTakesLeast(s: seq<PreferenceEvent>, seen: set<nat>, ref: int, e: PreferenceEvent)
    requires Sorted(s, EventLeq) && e in Dedupe(s, seen, ref)
    ensures LeastForId(s, e, ref) && e.eventId !in seen
    decreases |s|
  {
    HeadIsLeast(s);
    var rest := s[1..];
    assert s == [s[0]] + rest;
    if s[0].eventId in seen || s[0].occurredAt > ref {
      DedupeTakesLeast(rest, seen, ref, e);
    } else if e in Dedupe(rest, seen + {s[0].eventId}, ref) {
      DedupeTakesLeast(rest, seen + {s[0].eventId}, ref, e);
    }
  }

  lemma {:induction false} DedupeKeepsId(s: seq<PreferenceEvent>, seen: set<nat>, ref: int, e: PreferenceEvent)
    returns (f: PreferenceEvent)
    requires Sorted(s, EventLeq) && LeastForId(s, e, ref) && e.eventId !in seen
    ensures f in Dedupe(s, seen, ref) && f.eventId == e.eventId
    decreases |s|
  {
    var rest := s[1..];
    assert s == [s[0]] + rest;
    if e.eventId == s[0].eventId {
      assert EventLeq(e, s[0]);
      HeadIsLeast(s);
      f := s[0];
    } else {
      var seen' := if s[0].eventId in seen || s[0].occurredAt > ref then seen else seen + {s[0].eventId};
      f := DedupeKeepsId(rest, seen', ref, e);
    }
  }

  lemma SameLeast(a: seq<PreferenceEvent>, b: seq<PreferenceEvent>, e: PreferenceEvent, ref: int)
    requires multiset(a) == multiset(b)
    ensures LeastForId(a, e, ref) <==> LeastForId(b, e, ref)
  {
    SameMembers(a, b);
  }

  lemma UniqueMember(a: seq<PreferenceEvent>, ref: int, e: PreferenceEvent)
    ensures e in Unique(a, ref) ==> LeastForId(a, e, ref)
    ensures ConflictsResolved(a, ref) && LeastForId(a, e, ref) ==> e in Unique(a, ref)
  {
    EventOrder();
    var s := Sort(a, EventLeq);
    SortSorted(a, EventLeq);
    SameLeast(a, s, e, ref);
    if e in Unique(a, ref) {
      DedupeTakesLeast(s, {}, ref, e);
    }
    if ConflictsResolved(a, ref) && LeastForId(a, e, ref) {
      var f := DedupeKeepsId(s, {}, ref, e);
      DedupeTakesLeast(s, {}, ref, f);
      SameLeast(a, s, f, ref);
    }
  }

  lemma UniqueShape(a: seq<PreferenceEvent>, ref: int)
    ensures Sorted(Unique(a, ref), EventLeq)
    ensures forall i, j | 0 <= i < j < |Unique(a, ref)| :: Unique(a, ref)[i].eventId != Unique(a, ref)[j].eventId
  {
    EventOrder();
    SortSorted(a, EventLeq);
    DedupeSorted(Sort(a, EventLeq), {}, ref);
    DedupeDistinct(Sort(a, EventLeq), {}, ref);
  }

  /** A least event placed first in the input survives de-duplication: the sort is stable. */
  lemma {:induction false} FirstOfTiesWins(e: PreferenceEvent, s: seq<PreferenceEvent>, seen: set<nat>, ref: int)
    requires e.eventId !in seen && e.occurredAt <= ref
    requires forall f | f in s && f.eventId == e.eventId :: EventLeq(e, f)
    ensures e in Dedupe(Insert(e, s, EventLeq), seen, ref)
    decreases |s|
  {
    if s != [] && !EventLeq(e, s[0]) {
      assert s[0] in s;
      var seen' := if s[0].eventId in seen || s[0].occurredAt > ref then seen else seen + {s[0].eventId};
      FirstOfTiesWins(e, s[1..], seen', ref);
      assert Insert(e, s, EventLeq)[1..] == Insert(e, s[1..], EventLeq);
    }
  }

  lemma MovedToFront(a: seq<PreferenceEvent>, e: PreferenceEvent, ref: int) returns (b: seq<PreferenceEvent>)
    requires LeastForId(a, e, ref)
    ensures multiset(b) == multiset(a) && e in Unique(b, ref)
  {
    var i :| 0 <= i < |a| && a[i] == e;
    var rest := a[..i] + a[i + 1..];
    b := [e] + rest;
    assert a == a[..i] + ([a[i]] + a[i + 1..]);
    assert b[1..] == rest;
    SortMembers(rest, EventLeq);
    FirstOfTiesWins(e, Sort(rest, EventLeq), {}, ref);
  }

  /** Rebuilding from the same rows in another order replays the same events exactly when no id has
      two different least events. The comment beside the sort promises it without the condition. */
  lemma ReplayOrderFreeIff(a: seq<PreferenceEvent>, ref: int)
    ensures (forall b | multiset(b) == multiset(a) :: Unique(b, ref) == Unique(a, ref)) <==> ConflictsResolved(a, ref)
  {
    if ConflictsResolved(a, ref) {
      forall b | multiset(b) == multiset(a) ensures Unique(b, ref) == Unique(a, ref) {
        ResolvedIsOrderFree(a, b, ref);
      }
    } else {
      var be, bf := UnresolvedShows(a, ref);
    }
  }

  /** Two arrangements of an unresolved conflict that replay differently. */
  lemma UnresolvedShows(a: seq<PreferenceEvent>, ref: int) returns (be: seq<PreferenceEvent>, bf: seq<PreferenceEvent>)
    requires !ConflictsResolved(a, ref)
    ensures multiset(be) == multiset(a) == multiset(bf) && Unique(be, ref) != Unique(bf, ref)
  {
    var e, f :| LeastForId(a, e, ref) && LeastForId(a, f, ref) && e.eventId == f.eventId && e != f;
    be := MovedToFront(a, e, ref);
    bf := MovedToFront(a, f, ref);
    if f in Unique(be, ref) {
      OnePerId(be, ref, e, f);
    }
  }

  lemma OnePerId(a: seq<PreferenceEvent>, ref: int, e: PreferenceEvent, f: PreferenceEvent)
    requires e in Unique(a, ref) && f in Unique(a, ref) && e.eventId == f.eventId
    ensures e == f
  {
    UniqueShape(a, ref);
    var u := Unique(a, ref);
    var i :| 0 <= i < |u| && u[i] == e;
    var j :| 0 <= j < |u| && u[j] == f;
    assert i == j;
  }

  lemma ResolvedAlike(a: seq<PreferenceEvent>, b: seq<PreferenceEvent>, ref: int)
    requires multiset(b) == multiset(a) && ConflictsResolved(a, ref)
    ensures forall e :: e in Unique(a, ref) <==> e in Unique(b, ref)
  {
    forall e, f | LeastForId(b, e, ref) && LeastForId(b, f, ref) && e.eventId == f.eventId ensures e == f {
      SameLeast(a, b, e, ref);
      SameLeast(a, b, f, ref);
    }
    forall e ensures e in Unique(a, ref) <==> e in Unique(b, ref) {
      UniqueMember(a, ref, e);
      UniqueMember(b, ref, e);
      SameLeast(a, b, e, ref);
    }
  }

  lemma ReplayedKeys(a: seq<PreferenceEvent>, ref: int)
    ensures KeysIdentify(Unique(a, ref), EventLeq)
  {
    forall x, y | x in Unique(a, ref) && y in Unique(a, ref) && EventLeq(x, y) && EventLeq(y, x) ensures x == y {
      OnePerId(a, ref, x, y);
    }
  }

  lemma ResolvedIsOrderFree(a: seq<PreferenceEvent>, b: seq<PreferenceEvent>, ref: int)
    requires multiset(b) == multiset(a) && ConflictsResolved(a, ref)
    ensures Unique(b, ref) == Unique(a, ref)
  {
    ResolvedAlike(a, b, ref);
    ReplayedKeys(a, ref);
    UniqueShape(a, ref);
    UniqueShape(b, ref);
    StrictUnique(Unique(a, ref), Unique(b, ref), EventLeq);
  }

  lemma FirstOfPair(x: PreferenceEvent, y: PreferenceEvent, ref: int)
    requires EventLeq(x, y) && x.eventId == y.eventId && x.occurredAt <= ref
    ensures Unique([x, y], ref) == [x]
  {
    assert [x, y][1..] == [y] && [y][1..] == [];
    assert Sort([], EventLeq) == [];
    assert Sort([y], EventLeq) == [y];
    assert Sort([x, y], EventLeq) == [x] + [y];
    assert ([x] + [y])[1..] == [y];
    assert Dedupe([y], {} + {x.eventId}, ref) == [];
  }

  lemma SingleImpressionRead(e: PreferenceEvent, q: int)
    requires e.eventType == View && e.impressionId.Some?
    ensures Contributing([e], q) == if Qualified(e, q) then {0} else {}
  {
    var u := [e];
    assert Contributes(u, 0, q) <==> Qualified(e, q) by {
      assert ReadCounts(u, 0, q) <==> Qualified(e, q);
      assert !Stands(u, 1, 0) && !AlwaysCounts(e);
    }
    forall i: nat ensures i in Contributing(u, q) <==> i == 0 && Qualified(e, q) {}
  }

  /** Two rows with one id that differ only in dwell: which one is read first decides the vector. */
  lemma ConflictingDwellExample(q: int)
    requires q > 0
    ensures var e := PreferenceEvent(1, 1, View, [], 0, Some(1), None, None, Some(q), false);
            var f := e.(dwellMs := Some(0));
            Contributing(Unique([e, f], 0), q) == {0} && Contributing(Unique([f, e], 0), q) == {}
  {
    var e := PreferenceEvent(1, 1, View, [], 0, Some(1), None, None, Some(q), false);
    var f := e.(dwellMs := Some(0));
    assert StringsLeq([], []);
    FirstOfPair(e, f, 0);
    FirstOfPair(f, e, 0);
    SingleImpressionRead(e, q);
    SingleImpressionRead(f, q);
  }

  // ---------------------------------------------------------------- the reader accepts every vector

  /** `_numeric_channel`: every weight between 0 and 10. */
  predicate NumericChannel(channel: Vector)
  {
    forall t | t in channel :: 0.0 <= channel[t] <= 10.0
  }

  lemma DecoderAccepts(
      events: seq<PreferenceEvent>, referenceAt: Option<int>, now: int, p: Params, v: PreferenceVectorV2)
    requires Builds(events, referenceAt, now, p, v) && 0.0 < p.channelBound <= 10.0
    ensures NumericChannel(v.positive) && NumericChannel(v.negative)
  {
    var ref := Reference(events, referenceAt, now);
    var u := Unique(events, ref);
    forall t | t in v.positive ensures 0.0 <= v.positive[t] <= 10.0 {
      var total := ChannelSum(u, Contributing(u, p.qualifiedReadMs), |u|, ref, p, true, t);
    }
    forall t | t in v.negative ensures 0.0 <= v.negative[t] <= 10.0 {
      var total := ChannelSum(u, Contributing(u, p.qualifiedReadMs), |u|, ref, p, false, t);
    }
  }
}
