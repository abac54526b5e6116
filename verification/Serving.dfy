/** Preference vectors at serving time: the projection of a stored vector to a later instant, and its
    blend with declared topics, which the worker and the API implement separately
    (workers/feature_store_worker/app/features.py, recommendation_api/app/db.py). */
module Serving {
  import opened Collections
  import opened Options
  import opened Sorting
  import opened TopicVectors
  import opened Replay
  import opened PreferenceVector

  /** What the proofs use of `exp2(-age / halfLife)`. */
  ghost predicate Decays(p: Params)
  {
    && (forall a: nat :: FactorIsShare(p, a))
    && (forall a: nat, b: nat :: FactorsMultiply(p, a, b))
  }

  predicate FactorIsShare(p: Params, a: nat)
  {
    0.0 < p.decay(a, p.halfLifeHours) <= 1.0
  }

  predicate FactorsMultiply(p: Params, a: nat, b: nat)
  {
    p.decay(a + b, p.halfLifeHours) == p.decay(a, p.halfLifeHours) * p.decay(b, p.halfLifeHours)
  }

  function Times(x: real, factor: real): real
  {
    x * factor
  }

  function Scaled(channel: Vector, factor: real): Vector
  {
    map topic | topic in channel :: Times(channel[topic], factor)
  }

  function Factor(p: Params, from: int, to: int): real
  {
    p.decay(Larger(0, to - from), p.halfLifeHours)
  }

  /** `decay_preference_vector` in exact arithmetic. */
  function DecayPreferenceVector(v: PreferenceVectorV2, at: int, p: Params): PreferenceVectorV2
  {
    PreferenceVectorV2(Scaled(v.positive, Factor(p, v.referenceAt, at)),
        Scaled(v.negative, Factor(p, v.referenceAt, at)),
                       Larger(at, v.referenceAt), v.sourceEventCount)
  }

  // ---------------------------------------------------------------- projecting against rebuilding

  lemma {:induction false} SpreadScale(topics: seq<string>, topic: string, share: real, f: real, scaled: real)
    requires scaled == Times(share, f)
    ensures Spread(topics, topic, scaled) == Times(Spread(topics, topic, share), f)
    decreases |topics|
  {
    if topics != [] {
      SpreadScale(topics[1..], topic, share, f, scaled);
      SumOfScaled(if topics[0] == topic then share else 0.0, Spread(topics[1..], topic, share), f,
                  if topics[0] == topic then scaled else 0.0, Spread(topics[1..], topic, scaled));
    }
  }

  lemma SumOfScaled(a: real, b: real, f: real, af: real, bf: real)
    requires af == Times(a, f) && bf == Times(b, f)
    ensures af + bf == Times(a + b, f)
  {
  }

  lemma FactorWithin(p: Params, ref: int, at: int)
    requires Decays(p)
    ensures 0.0 < Factor(p, ref, at) <= 1.0
  {
    assert FactorIsShare(p, Larger(0, at - ref));
  }

  lemma AmountScales(e: PreferenceEvent, ref: int, at: int, p: Params)
    requires Decays(p) && e.occurredAt <= ref <= at
    ensures Amount(e, at, p) == Times(Amount(e, ref, p), Factor(p, ref, at))
  {
    var early: nat, late: nat := ref - e.occurredAt, at - ref;
    assert FactorsMultiply(p, early, late);
    assert at - e.occurredAt == early + late;
    Regroup(ContributionWeight(e), p.decay(early, p.halfLifeHours), p.decay(late, p.halfLifeHours),
        p.decay(early + late, p.halfLifeHours));
  }

  lemma Regroup(w: real, x: real, y: real, xy: real)
    requires xy == x * y
    ensures w * xy == w * x * y
  {
  }

  lemma ScaledShare(a: real, f: real, n: real, af: real)
    requires f > 0.0 && n > 0.0 && af == Times(a, f)
    ensures af > 0.0 <==> a > 0.0
    ensures Abs(af) / n == Times(Abs(a) / n, f)
  {
    assert Abs(af) == Abs(a) * f;
  }

  lemma ContributionScales(e: PreferenceEvent, ref: int, at: int, p: Params, positive: bool, topic: string)
    requires Decays(p) && e.occurredAt <= ref <= at
    ensures Contribution(e, at, p, positive, topic)
            == Times(Contribution(e, ref, p, positive, topic), Factor(p, ref, at))
  {
    var f := Factor(p, ref, at);
    AmountScales(e, ref, at, p);
    FactorWithin(p, ref, at);
    ScaledShare(Amount(e, ref, p), f, |TopicsOf(e)| as real, Amount(e, at, p));
    SpreadScale(TopicsOf(e), topic, EventShare(e, ref, p), f, EventShare(e, at, p));
  }

  ghost function Term(
      u: seq<PreferenceEvent>, chosen: set<nat>, i: nat, ref: int, p: Params, positive: bool, topic: string): real
    requires i < |u|
  {
    if i in chosen then Contribution(u[i], ref, p, positive, topic) else 0.0
  }

  lemma TermScales(
      u: seq<PreferenceEvent>, chosen: set<nat>, i: nat, ref: int, at: int, p: Params, positive: bool, topic: string)
    requires i < |u| && Decays(p) && u[i].occurredAt <= ref <= at
    ensures Term(u, chosen, i, at, p, positive, topic)
            == Times(Term(u, chosen, i, ref, p, positive, topic), Factor(p, ref, at))
  {
    ContributionScales(u[i], ref, at, p, positive, topic);
  }

  lemma {:induction false} SumScales(
      u: seq<PreferenceEvent>, chosen: set<nat>, n: nat, ref: int, at: int, p: Params, positive: bool, topic: string)
    requires n <= |u| && Decays(p) && ref <= at && forall e | e in u :: e.occurredAt <= ref
    ensures ChannelSum(u, chosen, n, at, p, positive, topic)
            == Times(ChannelSum(u, chosen, n, ref, p, positive, topic), Factor(p, ref, at))
  {
    if n > 0 {
      SumScales(u, chosen, n - 1, ref, at, p, positive, topic);
      TermScales(u, chosen, n - 1, ref, at, p, positive, topic);
      SumOfScaled(ChannelSum(u, chosen, n - 1, ref, p, positive, topic),
          Term(u, chosen, n - 1, ref, p, positive, topic), Factor(p, ref, at),
                  ChannelSum(u, chosen, n - 1, at, p, positive, topic), Term(u, chosen, n - 1, at, p, positive, topic));
    }
  }

  /** A channel stays clear of its bound. */
  ghost predicate Unsaturated(u: seq<PreferenceEvent>, ref: int, p: Params, positive: bool)
  {
    forall topic :: Evidence(u, ref, p, positive, topic) <= p.channelBound
  }

  lemma CutScales(total: real, bound: real, f: real, later: real)
    requires 0.0 < f <= 1.0 && bound > 0.0 && total > 0.0 && later == Times(total, f)
    ensures Times(Least(bound, total), f) == Least(bound, later) <==> f == 1.0 || total <= bound
    ensures later > 0.0
  {
    var cut := Times(bound, f);
    TimesOrder(0.0, total, f);
    TimesShrinks(bound, f);
    if total > bound {
      TimesOrder(bound, total, f);
      assert cut < later && cut <= bound && (f < 1.0 ==> cut < bound);
    } else {
      if total < bound { TimesOrder(total, bound, f); }
      assert later <= cut <= bound;
    }
  }

  lemma TimesOrder(x: real, y: real, f: real)
    requires x < y && f > 0.0
    ensures Times(x, f) < Times(y, f) && Times(0.0, f) == 0.0
  {
  }

  lemma TimesShrinks(x: real, f: real)
    requires x > 0.0 && 0.0 < f <= 1.0
    ensures Times(x, f) <= x && (f < 1.0 ==> Times(x, f) < x) && (f == 1.0 ==> Times(x, f) == x)
  {
  }

  ghost function Evidence(u: seq<PreferenceEvent>, ref: int, p: Params, positive: bool, topic: string): real
  {
    ChannelSum(u, Contributing(u, p.qualifiedReadMs), |u|, ref, p, positive, topic)
  }

  lemma TopicProjects(
      m: Vector, m': Vector, u: seq<PreferenceEvent>, ref: int, at: int, p: Params, positive: bool, topic: string)
    requires Decays(p) && p.channelBound > 0.0 && ref <= at && forall e | e in u :: e.occurredAt <= ref
    requires ChannelIs(m, u, ref, p, positive) && ChannelIs(m', u, at, p, positive)
    ensures topic in m <==> topic in m'
    ensures topic in m ==>
      (Scaled(m, Factor(p, ref, at))[topic] == m'[topic]
       <==> Factor(p, ref, at) == 1.0 || Evidence(u, ref, p, positive, topic) <= p.channelBound)
    ensures topic !in m ==> Evidence(u, ref, p, positive, topic) <= p.channelBound
  {
    var total, f := Evidence(u, ref, p, positive, topic), Factor(p, ref, at);
    FactorWithin(p, ref, at);
    SumScales(u, Contributing(u, p.qualifiedReadMs), |u|, ref, at, p, positive, topic);
    if total > 0.0 {
      CutScales(total, p.channelBound, f, Evidence(u, at, p, positive, topic));
    } else {
      NotPositive(total, f, Evidence(u, at, p, positive, topic));
    }
  }

  lemma NotPositive(x: real, f: real, xf: real)
    requires x <= 0.0 && f > 0.0 && xf == Times(x, f)
    ensures xf <= 0.0
  {
  }

  lemma ChannelProjectsIff(
      m: Vector, m': Vector, u: seq<PreferenceEvent>, ref: int, at: int, p: Params, positive: bool)
    requires Decays(p) && p.channelBound > 0.0 && ref <= at && forall e | e in u :: e.occurredAt <= ref
    requires ChannelIs(m, u, ref, p, positive) && ChannelIs(m', u, at, p, positive)
    ensures Scaled(m, Factor(p, ref, at)) == m' <==> Factor(p, ref, at) == 1.0 || Unsaturated(u, ref, p, positive)
  {
    var f := Factor(p, ref, at);
    if f == 1.0 || Unsaturated(u, ref, p, positive) {
      forall topic
        ensures topic in m <==> topic in m'
        ensures topic in m ==> Scaled(m, f)[topic] == m'[topic]
      {
        TopicProjects(m, m', u, ref, at, p, positive, topic);
        assert Unsaturated(u, ref, p, positive) ==> Evidence(u, ref, p, positive, topic) <= p.channelBound;
      }
      assert Scaled(m, f).Keys == m'.Keys;
    } else {
      var topic :| Evidence(u, ref, p, positive, topic) > p.channelBound;
      TopicProjects(m, m', u, ref, at, p, positive, topic);
    }
  }

  lemma {:induction false} DedupeAlike(s: seq<PreferenceEvent>, seen: set<nat>, ref: int, at: int)
    requires ref <= at && forall e | e in s :: e.occurredAt <= ref
    ensures Dedupe(s, seen, ref) == Dedupe(s, seen, at)
    decreases |s|
  {
    if s != [] {
      assert s[0] in s && forall e | e in s[1..] :: e in s;
      if s[0].eventId in seen {
        DedupeAlike(s[1..], seen, ref, at);
      } else {
        DedupeAlike(s[1..], seen + {s[0].eventId}, ref, at);
      }
    }
  }

  lemma SameUnique(events: seq<PreferenceEvent>, ref: int, at: int)
    requires ref <= at && forall e | e in events :: e.occurredAt <= ref
    ensures Unique(events, ref) == Unique(events, at)
  {
    SortMembers(events, EventLeq);
    DedupeAlike(Sort(events, EventLeq), {}, ref, at);
  }

  /** Projecting a stored vector forward gives the vector a rebuild at that instant would give exactly
      when nothing decays or no entry's evidence exceeds the bound: a cut entry decays from the bound
      although the evidence behind it is still larger. */
  lemma ProjectionIsRebuildIff(
      events: seq<PreferenceEvent>, ref: int, at: int, now: int, p: Params, v: PreferenceVectorV2,
      w: PreferenceVectorV2)
    requires Decays(p) && p.channelBound > 0.0 && ref <= at && forall e | e in events :: e.occurredAt <= ref
    requires Builds(events, Some(ref), now, p, v) && Builds(events, Some(at), now, p, w)
    ensures DecayPreferenceVector(v, at, p) == w
       <==> || Factor(p, ref, at) == 1.0
            || (Unsaturated(Unique(events, ref), ref, p, true) && Unsaturated(Unique(events, ref), ref, p, false))
  {
    var u := Unique(events, ref);
    SameUnique(events, ref, at);
    forall e | e in u ensures e.occurredAt <= ref {
      UniqueMember(events, ref, e);
    }
    ChannelProjectsIff(v.positive, w.positive, u, ref, at, p, true);
    ChannelProjectsIff(v.negative, w.negative, u, ref, at, p, false);
  }

  lemma NoDecayAtOnce(p: Params)
    requires Decays(p)
    ensures p.decay(0, p.halfLifeHours) == 1.0
  {
    var none: nat := 0;
    assert FactorIsShare(p, none) && FactorsMultiply(p, none, none);
    assert none + none == none;
    OnlyOneIsItsSquare(p.decay(none, p.halfLifeHours), p.decay(none + none, p.halfLifeHours));
  }

  lemma OnlyOneIsItsSquare(x: real, square: real)
    requires x > 0.0 && square == x * x && square == x
    ensures x == 1.0
  {
  }

  /** A report at instant 0 of a post about one topic. */
  predicate IsReport(e: PreferenceEvent)
  {
    e.eventType == Report && e.topics == ["news"] && e.occurredAt == 0
  }

  lemma ReportWeighs(e: PreferenceEvent, p: Params)
    requires Decays(p) && IsReport(e)
    ensures Contribution(e, 0, p, false, "news") == 5.0
  {
    NoDecayAtOnce(p);
    var topics, rest := e.topics, e.topics[1..];
    assert rest == [] && NonEmpty(rest) == [];
    assert topics[0] != "" && NonEmpty(topics) == topics;
    assert TopicsOf(e) == topics && |topics| == 1;
    assert ContributionWeight(e) == -5.0 && Amount(e, 0, p) == -5.0;
    assert Spread(rest, "news", 5.0) == 0.0 && Spread(topics, "news", 5.0) == 5.0;
  }

  lemma {:induction false} ReportsAddUp(u: seq<PreferenceEvent>, chosen: set<nat>, n: nat, p: Params)
    requires Decays(p) && n <= |u| && forall i | 0 <= i < n :: IsReport(u[i]) && i in chosen
    ensures ChannelSum(u, chosen, n, 0, p, false, "news") == 5.0 * n as real
  {
    if n > 0 {
      ReportsAddUp(u, chosen, n - 1, p);
      ReportWeighs(u[n - 1], p);
    }
  }

  lemma ReportsContribute(u: seq<PreferenceEvent>, q: int)
    requires forall i | 0 <= i < |u| :: IsReport(u[i])
    ensures forall i | 0 <= i < |u| :: i in Contributing(u, q)
  {
    forall i | 0 <= i < |u| ensures Contributes(u, i, q) {
      assert IsReport(u[i]);
    }
  }

  /** De-duplication leaves reports with different ids as they are, up to order. */
  lemma ReportsAreUnique(events: seq<PreferenceEvent>)
    requires forall e | e in events :: IsReport(e)
    requires forall i, j | 0 <= i < j < |events| :: events[i].eventId != events[j].eventId
    ensures forall i | 0 <= i < |Unique(events, 0)| :: IsReport(Unique(events, 0)[i])
    ensures |Unique(events, 0)| == |events|
  {
    var u := Unique(events, 0);
    forall e, f | e in events && f in events && e.eventId == f.eventId ensures e == f {
      var i :| 0 <= i < |events| && events[i] == e;
      var j :| 0 <= j < |events| && events[j] == f;
    }
    EventOrder();
    forall e ensures e in u <==> e in events {
      UniqueMeans(events, 0, e);
    }
    UniqueShape(events, 0);
    SameSetDistinct(u, events);
    MultisetLength(u, events);
    forall i | 0 <= i < |u| ensures IsReport(u[i]) {
      assert u[i] in u;
    }
  }

  lemma ReportsExceed(u: seq<PreferenceEvent>, p: Params)
    requires Decays(p) && p.channelBound < 5.0 * |u| as real && forall i | 0 <= i < |u| :: IsReport(u[i])
    ensures !Unsaturated(u, 0, p, false)
  {
    ReportsContribute(u, p.qualifiedReadMs);
    ReportsAddUp(u, Contributing(u, p.qualifiedReadMs), |u|, p);
    assert Evidence(u, 0, p, false, "news") > p.channelBound;
  }

  /** Reports of one topic, together weighing more than the bound (three, for a bound of 10): their entry
      starts at the bound, so the projection falls below the rebuilt entry as soon as anything decays. */
  lemma SaturatedReports(
      events: seq<PreferenceEvent>, at: int, now: int, p: Params, v: PreferenceVectorV2, w: PreferenceVectorV2)
    requires forall e | e in events :: IsReport(e)
    requires forall i, j | 0 <= i < j < |events| :: events[i].eventId != events[j].eventId
    requires Decays(p) && 0.0 < p.channelBound < 5.0 * |events| as real && 0 <= at && Factor(p, 0, at) != 1.0
    requires Builds(events, Some(0), now, p, v) && Builds(events, Some(at), now, p, w)
    ensures DecayPreferenceVector(v, at, p) != w
  {
    ReportsAreUnique(events);
    ReportsExceed(Unique(events, 0), p);
    ProjectionIsRebuildIff(events, 0, at, now, p, v, w);
  }

  // ---------------------------------------------------------------- sums over a channel

  /** `sum(channel.values())` */
  ghost function Sum(channel: Vector): real
    decreases channel
  {
    if channel == map[] then 0.0
    else
      var topic :| topic in channel;
      channel[topic] + Sum(channel - {topic})
  }

  /** The sum does not depend on the order of the entries. */
  lemma {:induction false} SumOut(channel: Vector, topic: string)
    requires topic in channel
    ensures Sum(channel) == channel[topic] + Sum(channel - {topic})
    decreases channel
  {
    var first :| first in channel && Sum(channel) == channel[first] + Sum(channel - {first});
    if first != topic {
      SumOut(channel - {first}, topic);
      SumOut(channel - {topic}, first);
      assert channel - {first} - {topic} == channel - {topic} - {first};
    }
  }

  lemma ScaledWithout(channel: Vector, f: real, topic: string)
    ensures Scaled(channel, f) - {topic} == Scaled(channel - {topic}, f)
  {
    var a, b := Scaled(channel, f) - {topic}, Scaled(channel - {topic}, f);
    assert a.Keys == b.Keys;
    forall t | t in a ensures a[t] == b[t] {}
  }

  lemma {:induction false} SumScaled(channel: Vector, f: real)
    ensures Sum(Scaled(channel, f)) == Times(Sum(channel), f)
    decreases channel
  {
    if topic :| topic in channel {
      SumOut(channel, topic);
      SumOut(Scaled(channel, f), topic);
      ScaledWithout(channel, f, topic);
      SumScaled(channel - {topic}, f);
      SumOfScaled(channel[topic], Sum(channel - {topic}), f, Scaled(channel, f)[topic],
          Sum(Scaled(channel - {topic}, f)));
    } else {
      assert channel == map[] && Scaled(channel, f) == map[];
    }
  }

  ghost predicate NonNegative(channel: Vector)
  {
    forall topic | topic in channel :: channel[topic] >= 0.0
  }

  lemma {:induction false} SumBounds(channel: Vector)
    requires NonNegative(channel)
    ensures Sum(channel) >= 0.0
    ensures forall topic | topic in channel :: channel[topic] <= Sum(channel)
    decreases channel
  {
    if channel != map[] {
      var first :| first in channel;
      SumOut(channel, first);
      SumBounds(channel - {first});
      forall topic | topic in channel ensures channel[topic] <= Sum(channel) {
        if topic != first {
          assert (channel - {first})[topic] == channel[topic];
        }
      }
    }
  }

  // ---------------------------------------------------------------- the two normalisations

  /** The API's `_normalize`. */
  ghost function ApiNormalize(channel: Vector): Vector
  {
    var total := Sum(channel);
    if total > 0.0 then map topic | topic in channel :: channel[topic] / total else map[]
  }

  function Positives(channel: Vector): Vector
  {
    map topic | topic in channel :: if channel[topic] < 0.0 then 0.0 else channel[topic]
  }

  /** The worker's `_normalize`: negative values count as zero, and only positive ones stay. */
  ghost function WorkerNormalize(channel: Vector): Vector
  {
    var total := Sum(Positives(channel));
    if total <= 0.0 then map[] else map topic | topic in channel && channel[topic] > 0.0 :: channel[topic] / total
  }

  /** Both give every topic the same share of the total of the positive values, in [0, 1]. */
  lemma NormalizeAlike(channel: Vector, topic: string)
    ensures Get(ApiNormalize(Positives(channel)), topic) == Get(WorkerNormalize(channel), topic)
    ensures 0.0 <= Get(WorkerNormalize(channel), topic) <= 1.0
  {
    var positives := Positives(channel);
    SumBounds(positives);
    if topic in channel && Sum(positives) > 0.0 {
      ShareWithin(positives[topic], Sum(positives));
    }
  }

  lemma PositivesSame(channel: Vector)
    requires NonNegative(channel)
    ensures Positives(channel) == channel
  {
  }

  lemma ShareWithin(part: real, total: real)
    requires 0.0 <= part <= total && total > 0.0
    ensures 0.0 <= part / total <= 1.0
    ensures part == 0.0 ==> part / total == 0.0
  {
    assert part / total * total == part;
  }

  /** Decay cancels out of the shares. */
  lemma NormalizeCancels(channel: Vector, f: real)
    requires NonNegative(channel) && f > 0.0
    ensures ApiNormalize(Scaled(channel, f)) == ApiNormalize(channel)
  {
    SumScaled(channel, f);
    SumBounds(channel);
    ScaledShares(channel, f, Sum(channel), Sum(Scaled(channel, f)));
  }

  lemma ScaledShares(channel: Vector, f: real, total: real, later: real)
    requires f > 0.0 && total >= 0.0 && later == Times(total, f)
    ensures later > 0.0 <==> total > 0.0
    ensures total > 0.0 ==>
      ((map topic | topic in Scaled(channel, f) :: Scaled(channel, f)[topic] / later)
       == (map topic | topic in channel :: channel[topic] / total))
  {
    if total > 0.0 {
      Cancel(0.0, total, f, 0.0, later);
      forall topic | topic in channel ensures Scaled(channel, f)[topic] / later == channel[topic] / total {
        Cancel(channel[topic], total, f, Scaled(channel, f)[topic], later);
      }
      assert Scaled(channel, f).Keys == channel.Keys;
    }
  }

  lemma Cancel(a: real, b: real, f: real, af: real, bf: real)
    requires b > 0.0 && f > 0.0 && af == Times(a, f) && bf == Times(b, f)
    ensures bf > 0.0 && af / bf == a / b
  {
    assert a / b * bf == a * f;
  }

  // ---------------------------------------------------------------- the two blends

  datatype Blend = Blend(behavior: real, declared: real)
  {
    ghost predicate Usable()
    {
      behavior >= 0.0 && declared >= 0.0 && behavior + declared > 0.0
    }
  }

  function BehaviorPart(b: Blend, confidence: real): real
    requires b.behavior + b.declared > 0.0
  {
    Times(b.behavior / (b.behavior + b.declared), confidence)
  }

  function DeclaredPart(b: Blend): real
    requires b.behavior + b.declared > 0.0
  {
    b.declared / (b.behavior + b.declared)
  }

  function DeclaredShare(declared: set<string>): Vector
  {
    var named := declared - {""};
    map topic | topic in named :: 1.0 / |named| as real
  }

  function Cut(x: real): (r: real)
    ensures 0.0 <= r <= 1.0 && (x <= 0.0 ==> r == 0.0) && (x >= 1.0 ==> r == 1.0) && (0.0 <= x <= 1.0 ==> r == x)
  {
    if x < 0.0 then 0.0 else if x > 1.0 then 1.0 else x
  }

  function Mix(c: real, d: real, liked: real, disliked: real, declared: real): real
  {
    c * (liked - disliked) + d * declared
  }

  /** The weight both blends are meant to give a topic. */
  ghost function Weight(
      positive: Vector, negative: Vector, declared: set<string>, b: Blend, confidence: real, topic: string): real
    requires b.behavior + b.declared > 0.0
  {
    Mix(BehaviorPart(b, confidence), DeclaredPart(b),
        Get(ApiNormalize(positive), topic), Get(ApiNormalize(negative), topic), Get(DeclaredShare(declared), topic))
  }

  /** `m` holds exactly the weights that are not zero. */
  ghost predicate IsBlend(
      m: Vector, positive: Vector, negative: Vector, declared: set<string>, b: Blend, confidence: real)
    requires b.behavior + b.declared > 0.0
  {
    NoZeros(m) && forall topic :: Get(m, topic) == Weight(positive, negative, declared, b, confidence, topic)
  }

  ghost predicate NoZeros(m: Vector)
  {
    forall topic | topic in m :: m[topic] != 0.0
  }

  function WithoutZeros(channel: Vector): (r: Vector)
    ensures NoZeros(r) && forall topic :: Get(r, topic) == Get(channel, topic)
  {
    map topic | topic in channel && channel[topic] != 0.0 :: channel[topic]
  }

  /** Adds a channel times a coefficient into `merged`, one topic after another. */
  method AddChannel(merged: Vector, channel: Vector, coefficient: real) returns (next: Vector)
    ensures forall topic :: Get(next, topic) == Get(merged, topic) + coefficient * Get(channel, topic)
  {
    next := merged;
    var todo := channel.Keys;
    while todo != {}
      invariant todo <= channel.Keys
      invariant forall topic ::
                  Get(next, topic)
                  == Get(merged, topic) + if topic in todo then 0.0 else coefficient * Get(channel, topic)
      decreases todo
    {
      var topic :| topic in todo;
      next := next[topic := Get(next, topic) + coefficient * channel[topic]];
      todo := todo - {topic};
    }
  }

  lemma MixAdds(c: real, d: real, x: real, y: real, z: real)
    ensures c * x + -c * y + d * z == Mix(c, d, x, y, z)
  {
  }

  /** The common end of both functions, over channels already normalised. */
  method Merge(positive: Vector, negative: Vector, declared: set<string>, c: real, d: real) returns (m: Vector)
    ensures NoZeros(m)
    ensures forall topic ::
              Get(m, topic)
              == Mix(c, d, Get(positive, topic), Get(negative, topic), Get(DeclaredShare(declared), topic))
  {
    var named := DeclaredShare(declared);
    var added := AddChannel(map[], positive, c);
    var taken := AddChannel(added, negative, -c);
    var merged := AddChannel(taken, named, d);
    forall topic
      ensures Get(merged, topic) == Mix(c, d, Get(positive, topic), Get(negative, topic), Get(named, topic))
    {
      MixAdds(c, d, Get(positive, topic), Get(negative, topic), Get(named, topic));
    }
    m := WithoutZeros(merged);
  }

  method SumValues(channel: Vector) returns (total: real)
    ensures total == Sum(channel)
  {
    total := 0.0;
    var rest := channel;
    while rest != map[]
      invariant total + Sum(rest) == Sum(channel)
      decreases rest
    {
      var topic :| topic in rest;
      SumOut(rest, topic);
      total := total + rest[topic];
      rest := rest - {topic};
    }
  }

  method NormalizeInApi(channel: Vector) returns (r: Vector)
    ensures r == ApiNormalize(channel)
  {
    var total := SumValues(channel);
    r := if total > 0.0 then map topic | topic in channel :: channel[topic] / total else map[];
  }

  method NormalizeInWorker(channel: Vector) returns (r: Vector)
    ensures r == WorkerNormalize(channel)
  {
    var total := SumValues(Positives(channel));
    r := if total <= 0.0 then map[] else map topic | topic in channel && channel[topic] > 0.0 :: channel[topic] / total;
  }

  /** `blend_preference_channels`; None is its `ValueError`. */
  method BlendPreferenceChannels(positive: Vector, negative: Vector, declared: set<string>, b: Blend, confidence: real)
    returns (r: Option<Vector>)
    ensures r.None? <==> b.behavior < 0.0 || b.declared < 0.0
    ensures r.Some? && b.behavior + b.declared <= 0.0 ==> r.value == map[]
    ensures r.Some? && b.behavior + b.declared > 0.0
            ==> IsBlend(r.value, Positives(positive), Positives(negative), declared, b, Cut(confidence))
  {
    if b.behavior < 0.0 || b.declared < 0.0 {
      return None;
    }
    if b.behavior + b.declared <= 0.0 {
      return Some(map[]);
    }
    var m := BlendNormalized(positive, negative, declared, BehaviorPart(b, Cut(confidence)), DeclaredPart(b));
    return Some(m);
  }

  method BlendNormalized(
      positive: Vector, negative: Vector, declared: set<string>, c: real, d: real)
    returns (m: Vector)
    ensures NoZeros(m)
    ensures forall topic ::
              Get(m, topic) == Mix(c, d, Get(ApiNormalize(Positives(positive)), topic),
                                   Get(ApiNormalize(Positives(negative)), topic), Get(DeclaredShare(declared), topic))
  {
    var positiveNorm := NormalizeInWorker(positive);
    var negativeNorm := NormalizeInWorker(negative);
    m := Merge(positiveNorm, negativeNorm, declared, c, d);
    forall topic
      ensures Get(positiveNorm, topic) == Get(ApiNormalize(Positives(positive)), topic)
      ensures Get(negativeNorm, topic) == Get(ApiNormalize(Positives(negative)), topic)
    {
      NormalizeAlike(positive, topic);
      NormalizeAlike(negative, topic);
    }
  }

  function Greatest(a: real, b: real): real
  {
    if a < b then b else a
  }

  /** How far the serving side trusts evidence of these two totals. */
  function Trust(liked: real, disliked: real, saturation: real): real
    requires saturation > 0.0
  {
    Least(1.0, Greatest(liked, disliked) / saturation)
  }

  ghost function Confidence(v: PreferenceVectorV2, factor: real, saturation: real): real
    requires saturation > 0.0
  {
    Trust(Times(Sum(v.positive), factor), Times(Sum(v.negative), factor), saturation)
  }

  predicate Refused(v: PreferenceVectorV2, p: Params, b: Blend, saturation: real)
  {
    || p.halfLifeHours <= 0.0 || saturation <= 0.0 || b.behavior < 0.0 || b.declared < 0.0
    || !NumericChannel(v.positive) || !NumericChannel(v.negative)
  }

  /** `merge_preference_vector_v2`; None is its `ValueError`. The blend is that of the channels as
      stored: serving later only lowers the confidence. */
  method MergePreferenceVectorV2(
      v: PreferenceVectorV2, declared: set<string>, at: int, p: Params, b: Blend, saturation: real)
    returns (r: Option<Vector>)
    requires p.halfLifeHours > 0.0 ==> Decays(p)
    ensures r.None? <==>
      || p.halfLifeHours <= 0.0 || saturation <= 0.0 || b.behavior < 0.0 || b.declared < 0.0
      || (exists topic :: topic in v.positive && (v.positive[topic] < 0.0 || v.positive[topic] > 10.0))
      || (exists topic :: topic in v.negative && (v.negative[topic] < 0.0 || v.negative[topic] > 10.0))
    ensures r.Some? && b.behavior + b.declared <= 0.0 ==> r.value == map[]
    ensures r.Some? && b.behavior + b.declared > 0.0 ==>
      IsBlend(r.value, v.positive, v.negative, declared, b, Confidence(v, Factor(p, v.referenceAt, at), saturation))
  {
    if Refused(v, p, b, saturation) {
      return None;
    }
    var factor := Factor(p, v.referenceAt, at);
    FactorWithin(p, v.referenceAt, at);
    var positive, negative := Scaled(v.positive, factor), Scaled(v.negative, factor);
    var liked := SumValues(positive);
    var disliked := SumValues(negative);
    var confidence := TrustDecayed(v, factor, saturation, liked, disliked);
    if b.behavior + b.declared <= 0.0 {
      return Some(map[]);
    }
    var m := MergeDecayed(v, factor, declared, BehaviorPart(b, confidence), DeclaredPart(b));
    return Some(m);
  }

  method TrustDecayed(
      v: PreferenceVectorV2, factor: real, saturation: real, liked: real, disliked: real)
    returns (confidence: real)
    requires saturation > 0.0 && liked == Sum(Scaled(v.positive, factor)) && disliked == Sum(Scaled(v.negative, factor))
    ensures confidence == Confidence(v, factor, saturation)
  {
    SumScaled(v.positive, factor);
    SumScaled(v.negative, factor);
    confidence := Trust(liked, disliked, saturation);
  }

  method MergeDecayed(v: PreferenceVectorV2, factor: real, declared: set<string>, c: real, d: real) returns (m: Vector)
    requires NumericChannel(v.positive) && NumericChannel(v.negative) && factor > 0.0
    ensures NoZeros(m)
    ensures forall topic ::
              Get(m, topic) == Mix(c, d, Get(ApiNormalize(v.positive), topic),
                                   Get(ApiNormalize(v.negative), topic), Get(DeclaredShare(declared), topic))
  {
    var positiveNorm := NormalizeInApi(Scaled(v.positive, factor));
    var negativeNorm := NormalizeInApi(Scaled(v.negative, factor));
    NormalizeCancels(v.positive, factor);
    NormalizeCancels(v.negative, factor);
    m := Merge(positiveNorm, negativeNorm, declared, c, d);
  }

  // ---------------------------------------------------------------- what the blends have in common

  lemma SameEntries(m: Vector, m': Vector)
    requires NoZeros(m) && NoZeros(m') && forall topic :: Get(m, topic) == Get(m', topic)
    ensures m == m'
  {
    forall topic ensures topic in m <==> topic in m' {
      assert Get(m, topic) == Get(m', topic);
    }
    forall topic | topic in m ensures m[topic] == m'[topic] {
      assert Get(m, topic) == Get(m', topic);
    }
  }

  /** The API's merge of a stored vector is the worker's blend of that vector projected to the serving
      time, at the same confidence. */
  lemma ApiMergeIsWorkerBlend(
      v: PreferenceVectorV2, declared: set<string>, at: int, p: Params, b: Blend, confidence: real, merged: Vector,
      blended: Vector)
    requires Decays(p) && NonNegative(v.positive) && NonNegative(v.negative) && b.behavior + b.declared > 0.0
    requires IsBlend(merged, v.positive, v.negative, declared, b, confidence)
    requires var w := DecayPreferenceVector(v, at, p);
             IsBlend(blended, Positives(w.positive), Positives(w.negative), declared, b, confidence)
    ensures merged == blended
  {
    var f := Factor(p, v.referenceAt, at);
    FactorWithin(p, v.referenceAt, at);
    NormalizeCancels(v.positive, f);
    NormalizeCancels(v.negative, f);
    ScaledStaysNonNegative(v.positive, f);
    ScaledStaysNonNegative(v.negative, f);
    forall topic ensures Get(merged, topic) == Get(blended, topic) {
      assert Get(merged, topic) == Weight(v.positive, v.negative, declared, b, confidence, topic);
      assert Get(blended, topic)
          == Weight(Scaled(v.positive, f), Scaled(v.negative, f), declared, b, confidence, topic);
    }
    SameEntries(merged, blended);
  }

  lemma ScaledStaysNonNegative(channel: Vector, f: real)
    requires NonNegative(channel) && f > 0.0
    ensures Positives(Scaled(channel, f)) == Scaled(channel, f)
  {
    forall topic | topic in channel ensures Scaled(channel, f)[topic] >= 0.0 {
      if channel[topic] > 0.0 { TimesOrder(0.0, channel[topic], f); }
    }
    PositivesSame(Scaled(channel, f));
  }

  /** Every blended weight lies in [-1, 1]. */
  lemma BlendWithin(
      m: Vector, positive: Vector, negative: Vector, declared: set<string>, b: Blend, confidence: real, topic: string)
    requires b.Usable() && 0.0 <= confidence <= 1.0
    requires NonNegative(positive) && NonNegative(negative) && IsBlend(m, positive, negative, declared, b, confidence)
    ensures -1.0 <= Get(m, topic) <= 1.0
  {
    NormalizeAlike(positive, topic);
    NormalizeAlike(negative, topic);
    PositivesSame(positive);
    PositivesSame(negative);
    DeclaredWithin(declared, topic);
    PartsWithin(b, confidence);
    MixWithin(BehaviorPart(b, confidence), DeclaredPart(b), Get(ApiNormalize(positive), topic),
        Get(ApiNormalize(negative), topic),
              Get(DeclaredShare(declared), topic));
    assert Get(m, topic) == Weight(positive, negative, declared, b, confidence, topic);
  }

  lemma DeclaredWithin(declared: set<string>, topic: string)
    ensures 0.0 <= Get(DeclaredShare(declared), topic) <= 1.0
  {
    if topic in declared - {""} {
      ShareWithin(1.0, |declared - {""}| as real);
    }
  }

  lemma PartsWithin(b: Blend, confidence: real)
    requires b.Usable() && 0.0 <= confidence <= 1.0
    ensures 0.0 <= BehaviorPart(b, confidence) && 0.0 <= DeclaredPart(b)
            && BehaviorPart(b, confidence) + DeclaredPart(b) <= 1.0
  {
    var total := b.behavior + b.declared;
    ShareWithin(b.behavior, total);
    ShareWithin(b.declared, total);
    SharesAdd(b.behavior, b.declared, total, b.behavior / total, b.declared / total);
    PartsOf(b.behavior / total, b.declared / total, confidence);
  }

  lemma PartsOf(x: real, y: real, c: real)
    requires 0.0 <= x && 0.0 <= y && x + y == 1.0 && 0.0 <= c <= 1.0
    ensures 0.0 <= Times(x, c) && Times(x, c) + y <= 1.0
  {
    Shrinks(x, c);
  }

  lemma SharesAdd(x: real, y: real, total: real, a: real, b: real)
    requires total > 0.0 && x + y == total && a == x / total && b == y / total
    ensures a + b == 1.0
  {
    assert Times(a, total) == x && Times(b, total) == y;
    SumOfScaled(a, b, total, x, y);
    IsOne(a + b, total);
  }

  lemma IsOne(q: real, total: real)
    requires total > 0.0 && Times(q, total) == total
    ensures q == 1.0
  {
    assert (q - 1.0) * total == 0.0;
  }

  lemma Shrinks(x: real, c: real)
    requires 0.0 <= x && 0.0 <= c <= 1.0
    ensures 0.0 <= Times(x, c) <= x
  {
    assert x * (1.0 - c) >= 0.0;
    assert x * c + x * (1.0 - c) == x;
  }

  lemma MixTimes(c: real, d: real, x: real, y: real, z: real)
    ensures Times(c, x) - Times(c, y) + Times(d, z) == Mix(c, d, x, y, z)
  {
  }

  lemma MixWithin(c: real, d: real, x: real, y: real, z: real)
    requires 0.0 <= c && 0.0 <= d && c + d <= 1.0
    requires 0.0 <= x <= 1.0 && 0.0 <= y <= 1.0 && 0.0 <= z <= 1.0
    ensures -1.0 <= Mix(c, d, x, y, z) <= 1.0
  {
    Shrinks(c, x);
    Shrinks(c, y);
    Shrinks(d, z);
    MixTimes(c, d, x, y, z);
    Bounds(Times(c, x), Times(c, y), Times(d, z), c, d);
  }

  lemma Bounds(cx: real, cy: real, dz: real, c: real, d: real)
    requires 0.0 <= cx <= c && 0.0 <= cy <= c && 0.0 <= dz <= d && c + d <= 1.0
    ensures -1.0 <= cx - cy + dz <= 1.0
  {
  }

  // ---------------------------------------------------------------- the blend in numbers

  /** A topic's part of a channel. */
  ghost function PartOf(channel: Vector, topic: string): real
  {
    if topic in channel && Sum(channel) > 0.0 then channel[topic] / Sum(channel) else 0.0
  }

  lemma NormalizedIsPart(channel: Vector, topic: string)
    ensures Get(ApiNormalize(channel), topic) == PartOf(channel, topic)
  {
  }

  lemma MixWithoutDeclared(share: real, confidence: real, d: real, liked: real, disliked: real)
    ensures Mix(Times(share, confidence), d, liked, disliked, 0.0) == share * confidence * (liked - disliked)
  {
  }

  lemma BlendAt(
      m: Vector, positive: Vector, negative: Vector, declared: set<string>, b: Blend, confidence: real, topic: string)
    requires b.behavior + b.declared > 0.0 && IsBlend(m, positive, negative, declared, b, confidence)
    ensures Get(m, topic) == Mix(Times(b.behavior / (b.behavior + b.declared), confidence), DeclaredPart(b),
                                 PartOf(positive, topic), PartOf(negative, topic), Get(DeclaredShare(declared), topic))
  {
    assert Get(m, topic) == Weight(positive, negative, declared, b, confidence, topic);
    NormalizedIsPart(positive, topic);
    NormalizedIsPart(negative, topic);
  }

  /** Without declared topics: the behaviour's share of the coefficients, as far as it is trusted, times what
      the topic is of the positive channel less what it is of the negative one. */
  lemma BehaviorOnly(m: Vector, positive: Vector, negative: Vector, b: Blend, confidence: real, topic: string)
    requires b.behavior + b.declared > 0.0 && IsBlend(m, positive, negative, {}, b, confidence)
    ensures Get(m, topic)
         == b.behavior / (b.behavior + b.declared) * confidence * (PartOf(positive, topic) - PartOf(negative, topic))
  {
    BlendAt(m, positive, negative, {}, b, confidence, topic);
    MixWithoutDeclared(b.behavior / (b.behavior + b.declared), confidence, DeclaredPart(b),
                       PartOf(positive, topic), PartOf(negative, topic));
  }

  /** Without behaviour: each of the `n` declared topics, the empty name aside, gets an even part of the
      declared share of the coefficients. */
  lemma DeclaredOnly(m: Vector, declared: set<string>, b: Blend, confidence: real, topic: string, n: nat)
    requires b.behavior + b.declared > 0.0 && IsBlend(m, map[], map[], declared, b, confidence)
    requires n == |declared - {""}|
    ensures Get(m, topic)
         == if topic in declared && topic != "" then b.declared / (b.behavior + b.declared) * (1.0 / n as real) else 0.0
  {
    assert Get(m, topic) == Weight(map[], map[], declared, b, confidence, topic);
    assert Get(ApiNormalize(map[]), topic) == 0.0;
  }

  /** Evidence is trusted in full once either channel reaches the saturation, and in proportion to the larger
      one below. */
  lemma TrustInNumbers(liked: real, disliked: real, saturation: real)
    requires saturation > 0.0
    ensures liked >= saturation || disliked >= saturation ==> Trust(liked, disliked, saturation) == 1.0
    ensures liked < saturation && disliked < saturation ==>
              Trust(liked, disliked, saturation) * saturation == if liked < disliked then disliked else liked
  {
    var larger := Greatest(liked, disliked);
    var quotient := larger / saturation;
    assert quotient * saturation == larger;
    if larger < saturation {
      assert quotient < 1.0;
    } else {
      assert quotient >= 1.0;
    }
  }

}
