/** The v2 vector in numbers: what one canonical event builds. */
module EventWeights {
  import opened Collections
  import opened Options
  import opened Sorting
  import opened TopicVectors
  import opened Replay
  import opened PreferenceVector
  import T = TurnWeights
  import Serving

  /** The points of an event: a read has some when it is long enough. */
  function Points(e: PreferenceEvent, q: int): real
  {
    match e.eventType
    case View => if e.dwellMs.Some? && e.dwellMs.value >= q then 0.5 else 0.0
    case Dwell => if e.dwellMs.Some? && e.dwellMs.value >= q then 0.5 else 0.0
    case Click => 1.0
    case QualifiedRead => 0.5
    case Like => 1.5
    case Save => 2.5
    case Share => 2.5
    case Hide => -2.0
    case Report => -5.0
    case Comment => 1.0
    case _ => 0.0
  }

  /** How often the event names a topic, the empty name not counting. */
  function Named(e: PreferenceEvent, topic: string): nat
  {
    if topic == "" then 0 else multiset(e.topics)[topic]
  }

  /** How many non-empty names it has. */
  function Names(e: PreferenceEvent): nat
  {
    var names := multiset(e.topics);
    assert names[""] <= |names| == |e.topics|;
    |e.topics| - names[""]
  }

  /** An even part of `amount` for every time the topic is named; all of it for "general" without names. */
  function Part(amount: real, e: PreferenceEvent, topic: string): real
  {
    if Names(e) == 0 then if topic == "general" then amount else 0.0
    else T.Parts(amount, Named(e, topic), Names(e))
  }

  // ---------------------------------------------------------------- the topics of an event

  lemma {:induction false} NonEmptyCounts(topics: seq<string>, topic: string)
    ensures multiset(NonEmpty(topics))[topic] == if topic == "" then 0 else multiset(topics)[topic]
    ensures |NonEmpty(topics)| == |topics| - multiset(topics)[""]
    decreases |topics|
  {
    if topics != [] {
      NonEmptyCounts(topics[1..], topic);
      assert topics == [topics[0]] + topics[1..];
    }
  }

  lemma TopicsCount(e: PreferenceEvent, topic: string)
    ensures Names(e) >= 0
    ensures Names(e) == 0 ==> TopicsOf(e) == ["general"]
    ensures Names(e) > 0 ==> |TopicsOf(e)| == Names(e) && multiset(TopicsOf(e))[topic] == Named(e, topic)
  {
    NonEmptyCounts(e.topics, topic);
  }

  lemma Alone(topic: string, delta: real, general: seq<string>)
    requires general == ["general"]
    ensures Spread(general, topic, delta) == if topic == "general" then delta else 0.0
  {
    var rest := general[1..];
    assert rest == [] && Spread(rest, topic, delta) == 0.0;
  }

  /** The share, spread over the event's topics. */
  lemma SpreadIsPart(e: PreferenceEvent, topic: string, amount: real, share: real)
    requires share == amount / |TopicsOf(e)| as real
    ensures Spread(TopicsOf(e), topic, share) == Part(amount, e, topic)
  {
    TopicsCount(e, topic);
    if Names(e) == 0 {
      Alone(topic, share, TopicsOf(e));
    } else {
      T.SpreadIsPart(TopicsOf(e), topic, amount, share);
      assert T.Part(amount, TopicsOf(e), topic) == T.Parts(amount, Named(e, topic), Names(e));
    }
  }

  // ---------------------------------------------------------------- one event

  lemma OneIsUnique(events: seq<PreferenceEvent>, ref: int)
    requires |events| == 1 && events[0].occurredAt <= ref
    ensures Unique(events, ref) == events
  {
    var none := events[1..];
    assert none == [] && Sort(none, EventLeq) == [];
    assert Sort(events, EventLeq) == events;
    assert Dedupe(none, {} + {events[0].eventId}, ref) == [];
  }

  lemma OneContributes(u: seq<PreferenceEvent>, q: int)
    requires |u| == 1
    ensures Contributing(u, q) == if Points(u[0], q) != 0.0 then {0} else {}
  {
    var e := u[0];
    assert Stands(u, 1, 0) <==> Stateful(e.eventType);
    assert IsRead(e) ==> (ReadCounts(u, 0, q) <==> Qualified(e, q));
    assert Contributes(u, 0, q) <==> Points(e, q) != 0.0;
    forall i: nat ensures i in Contributing(u, q) <==> i == 0 && Points(e, q) != 0.0 {}
  }

  lemma PointsAreWeight(e: PreferenceEvent, q: int)
    requires Points(e, q) != 0.0
    ensures ContributionWeight(e) == Points(e, q)
  {
  }

  lemma Sign(weight: real, factor: real, amount: real)
    requires factor > 0.0 && amount == weight * factor
    ensures (amount > 0.0 <==> weight > 0.0) && (amount < 0.0 <==> weight < 0.0)
  {
  }

  /** The event's points times the decay since it happened. */
  predicate IsAmount(e: PreferenceEvent, ref: int, p: Params, amount: real)
  {
    && e.occurredAt <= ref && p.decay(ref - e.occurredAt, p.halfLifeHours) > 0.0
    && amount == Points(e, p.qualifiedReadMs) * p.decay(ref - e.occurredAt, p.halfLifeHours)
  }

  lemma AmountInNumbers(e: PreferenceEvent, ref: int, p: Params, amount: real)
    requires IsAmount(e, ref, p, amount)
    ensures amount != 0.0 <==> Points(e, p.qualifiedReadMs) != 0.0
    ensures amount != 0.0 ==> Amount(e, ref, p) == amount
  {
    Sign(Points(e, p.qualifiedReadMs), p.decay(ref - e.occurredAt, p.halfLifeHours), amount);
    if amount != 0.0 {
      PointsAreWeight(e, p.qualifiedReadMs);
    }
  }

  /** What one contributing event adds to a channel. */
  lemma ContributionInNumbers(e: PreferenceEvent, ref: int, p: Params, positive: bool, topic: string, amount: real)
    requires IsAmount(e, ref, p, amount) && amount != 0.0
    ensures Contribution(e, ref, p, positive, topic)
         == if (amount > 0.0) == positive then Part(Abs(amount), e, topic) else 0.0
  {
    AmountInNumbers(e, ref, p, amount);
    SpreadIsPart(e, topic, Abs(amount), EventShare(e, ref, p));
  }

  lemma ChannelOfOne(u: seq<PreferenceEvent>, ref: int, p: Params, positive: bool, topic: string)
    requires |u| == 1
    ensures ChannelSum(u, Contributing(u, p.qualifiedReadMs), 1, ref, p, positive, topic)
         == if Points(u[0], p.qualifiedReadMs) != 0.0 then Contribution(u[0], ref, p, positive, topic) else 0.0
  {
    OneContributes(u, p.qualifiedReadMs);
    assert ChannelSum(u, Contributing(u, p.qualifiedReadMs), 0, ref, p, positive, topic) == 0.0;
  }

  lemma PartIsNotNegative(amount: real, e: PreferenceEvent, topic: string)
    requires amount >= 0.0
    ensures Part(amount, e, topic) >= 0.0
  {
    if Names(e) > 0 {
      NotNegative(amount, Named(e, topic) as real, Names(e) as real);
    }
  }

  lemma NotNegative(a: real, n: real, size: real)
    requires a >= 0.0 && n >= 0.0 && size > 0.0
    ensures a * n / size >= 0.0
  {
    assert a * n >= 0.0;
  }

  lemma Entry(m: Vector, u: seq<PreferenceEvent>, ref: int, p: Params, positive: bool, topic: string)
    requires ChannelIs(m, u, ref, p, positive) && p.channelBound > 0.0
    ensures var total := ChannelSum(u, Contributing(u, p.qualifiedReadMs), |u|, ref, p, positive, topic);
            Get(m, topic) == if total > 0.0 then Least(p.channelBound, total) else 0.0
  {
  }

  lemma OneEventChannel(
      m: Vector, u: seq<PreferenceEvent>, ref: int, p: Params, positive: bool, amount: real, topic: string)
    requires |u| == 1 && IsAmount(u[0], ref, p, amount) && p.channelBound > 0.0 && ChannelIs(m, u, ref, p, positive)
    ensures Get(m, topic)
         == if amount != 0.0 && (amount > 0.0) == positive then Least(p.channelBound, Part(Abs(amount), u[0], topic))
            else 0.0
  {
    Entry(m, u, ref, p, positive, topic);
    ChannelOfOne(u, ref, p, positive, topic);
    AmountInNumbers(u[0], ref, p, amount);
    if amount != 0.0 {
      ContributionInNumbers(u[0], ref, p, positive, topic, amount);
      PartIsNotNegative(Abs(amount), u[0], topic);
    }
  }

  lemma BuildsOne(events: seq<PreferenceEvent>, ref: int, now: int, p: Params, v: PreferenceVectorV2)
    requires |events| == 1 && events[0].occurredAt <= ref && Builds(events, Some(ref), now, p, v)
    ensures ChannelIs(v.positive, events, ref, p, true) && ChannelIs(v.negative, events, ref, p, false)
    ensures v.sourceEventCount == (if Points(events[0], p.qualifiedReadMs) != 0.0 then 1 else 0) && v.referenceAt == ref
  {
    OneIsUnique(events, ref);
    OneContributes(events, p.qualifiedReadMs);
  }

  lemma OneEventChannels(
      positive: Vector, negative: Vector, events: seq<PreferenceEvent>, ref: int, p: Params, amount: real,
      topic: string)
    requires |events| == 1 && IsAmount(events[0], ref, p, amount) && p.channelBound > 0.0
    requires ChannelIs(positive, events, ref, p, true) && ChannelIs(negative, events, ref, p, false)
    ensures Get(positive, topic)
         == if amount > 0.0 then Least(p.channelBound, Part(amount, events[0], topic)) else 0.0
    ensures Get(negative, topic)
         == if amount < 0.0 then Least(p.channelBound, Part(-amount, events[0], topic)) else 0.0
  {
    OneEventChannel(positive, events, ref, p, true, amount, topic);
    OneEventChannel(negative, events, ref, p, false, amount, topic);
  }

  /** The vector of one event, at any later reference: its points times the decay since it happened, split
      evenly over its topics, in the channel of its sign and cut at the bound; nothing without points. */
  lemma OneEventVector(
      events: seq<PreferenceEvent>, ref: int, now: int, p: Params, v: PreferenceVectorV2, amount: real, topic: string)
    requires |events| == 1 && IsAmount(events[0], ref, p, amount) && p.channelBound > 0.0
    requires Builds(events, Some(ref), now, p, v)
    ensures Get(v.positive, topic)
         == if amount > 0.0 then Least(p.channelBound, Part(amount, events[0], topic)) else 0.0
    ensures Get(v.negative, topic)
         == if amount < 0.0 then Least(p.channelBound, Part(-amount, events[0], topic)) else 0.0
    ensures v.referenceAt == ref && v.sourceEventCount == if amount != 0.0 then 1 else 0
  {
    BuildsOne(events, ref, now, p, v);
    AmountInNumbers(events[0], ref, p, amount);
    OneEventChannels(v.positive, v.negative, events, ref, p, amount, topic);
  }

  /** Parts over the different names add up to as many parts as there are names. */
  lemma {:induction false} PartsAddUp(amount: real, names: multiset<string>, size: nat)
    requires size > 0
    ensures SumOfParts(amount, names, size) == T.Parts(amount, |names|, size)
    decreases |names|
  {
    if names == multiset{} {
      NoPart(amount, size);
    } else {
      var topic :| topic in names;
      var rest := names[topic := 0];
      PartsAddUp(amount, rest, size);
      MoreParts(amount, names[topic], |rest|, size);
      assert names == rest + multiset{}[topic := names[topic]];
      assert |names| == |rest| + names[topic];
      SumOfPartsOut(amount, names, size, topic);
    }
  }

  /** `T.Parts(amount, names[topic], size)` summed over the different names. */
  ghost function SumOfParts(amount: real, names: multiset<string>, size: nat): real
    requires size > 0
    decreases |names|
  {
    if names == multiset{} then 0.0
    else
      var topic :| topic in names;
      assert names == names[topic := 0] + multiset{}[topic := names[topic]];
      T.Parts(amount, names[topic], size) + SumOfParts(amount, names[topic := 0], size)
  }

  lemma NoPart(amount: real, size: nat)
    requires size > 0
    ensures T.Parts(amount, 0, size) == 0.0
  {
  }

  lemma MoreParts(amount: real, a: nat, b: nat, size: nat)
    requires size > 0
    ensures T.Parts(amount, a, size) + T.Parts(amount, b, size) == T.Parts(amount, a + b, size)
  {
    var d := size as real;
    assert amount * (a + b) as real == amount * a as real + amount * b as real;
  }

  lemma {:induction false} SumOfPartsOut(amount: real, names: multiset<string>, size: nat, topic: string)
    requires size > 0 && topic in names
    ensures SumOfParts(amount, names, size)
         == T.Parts(amount, names[topic], size) + SumOfParts(amount, names[topic := 0], size)
    decreases |names|
  {
    var first :| first in names && SumOfParts(amount, names, size)
      == T.Parts(amount, names[first], size) + SumOfParts(amount, names[first := 0], size);
    if first != topic {
      assert names == names[first := 0] + multiset{}[first := names[first]];
      assert names == names[topic := 0] + multiset{}[topic := names[topic]];
      SumOfPartsOut(amount, names[first := 0], size, topic);
      SumOfPartsOut(amount, names[topic := 0], size, first);
      assert names[first := 0][topic := 0] == names[topic := 0][first := 0];
    }
  }

  // ---------------------------------------------------------------- the whole amount

  /** The names an event's amount is split over, and their number. */
  function Split(e: PreferenceEvent): (names: multiset<string>)
    ensures |names| > 0
  {
    if Names(e) == 0 then multiset{"general"} else
      var names := multiset(e.topics);
      assert names == names["" := 0] + multiset{}["" := names[""]];
      names["" := 0]
  }

  lemma PartOfSplit(amount: real, e: PreferenceEvent, topic: string)
    ensures Part(amount, e, topic) == T.Parts(amount, Split(e)[topic], |Split(e)|)
  {
    if Names(e) == 0 {
      NoPart(amount, 1);
    } else {
      var names := multiset(e.topics);
      assert names == names["" := 0] + multiset{}["" := names[""]];
    }
  }

  lemma QuotientWithin(product: real, amount: real, size: real)
    requires size > 0.0 && 0.0 <= product <= amount * size
    ensures 0.0 <= product / size <= amount
    ensures product / size > 0.0 <==> product > 0.0
  {
    var q := product / size;
    assert q * size == product;
    assert (q - amount) * size == product - amount * size;
    assert q > amount ==> (q - amount) * size > 0.0;
    assert q > 0.0 ==> q * size > 0.0;
    assert q < 0.0 ==> (0.0 - q) * size > 0.0;
    assert (0.0 - q) * size == 0.0 - product;
  }

  lemma PartWithin(amount: real, n: nat, size: nat)
    requires amount > 0.0 && n <= size && size > 0
    ensures 0.0 <= T.Parts(amount, n, size) <= amount
    ensures T.Parts(amount, n, size) > 0.0 <==> n > 0
    ensures n == size ==> T.Parts(amount, n, size) == amount
  {
    var x, d := n as real, size as real;
    assert amount * (d - x) >= 0.0;
    assert amount * d - amount * x == amount * (d - x);
    assert n > 0 <==> amount * x > 0.0;
    QuotientWithin(amount * x, amount, d);
    assert n == size ==> T.Parts(amount, n, size) == amount * d / d;
  }

  lemma {:induction false} SumIsParts(m: Vector, amount: real, names: multiset<string>, size: nat)
    requires amount > 0.0 && 0 < size && |names| <= size
    requires forall t :: (t in m <==> t in names) && (t in m ==> m[t] == T.Parts(amount, names[t], size))
    ensures Serving.Sum(m) == SumOfParts(amount, names, size)
    decreases |names|
  {
    if names == multiset{} {
      assert m == map[];
    } else {
      var topic :| topic in names;
      var rest := names[topic := 0];
      assert names == rest + multiset{}[topic := names[topic]];
      Serving.SumOut(m, topic);
      SumOfPartsOut(amount, names, size, topic);
      SumIsParts(m - {topic}, amount, rest, size);
    }
  }

  lemma ChannelIsParts(m: Vector, u: seq<PreferenceEvent>, ref: int, p: Params, positive: bool, amount: real)
    requires |u| == 1 && IsAmount(u[0], ref, p, amount) && ChannelIs(m, u, ref, p, positive)
    requires 0.0 < Abs(amount) <= p.channelBound && (amount > 0.0) == positive
    ensures var names := Split(u[0]);
            forall t :: (t in m <==> t in names) && (t in m ==> m[t] == T.Parts(Abs(amount), names[t], |names|))
  {
    var e := u[0];
    var names := Split(e);
    AmountInNumbers(e, ref, p, amount);
    forall t ensures (t in m <==> t in names) && (t in m ==> m[t] == T.Parts(Abs(amount), names[t], |names|)) {
      assert names[t] <= |names|;
      ChannelOfOne(u, ref, p, positive, t);
      ContributionInNumbers(e, ref, p, positive, t, amount);
      PartOfSplit(Abs(amount), e, t);
      PartWithin(Abs(amount), names[t], |names|);
    }
  }

  lemma NothingElse(m: Vector, u: seq<PreferenceEvent>, ref: int, p: Params, positive: bool, amount: real)
    requires |u| == 1 && IsAmount(u[0], ref, p, amount) && ChannelIs(m, u, ref, p, positive)
    requires amount == 0.0 || (amount > 0.0) != positive
    ensures m == map[]
  {
    AmountInNumbers(u[0], ref, p, amount);
    forall t ensures t !in m {
      ChannelOfOne(u, ref, p, positive, t);
      if amount != 0.0 {
        ContributionInNumbers(u[0], ref, p, positive, t, amount);
      }
    }
  }

  lemma ChannelAddsUp(m: Vector, u: seq<PreferenceEvent>, ref: int, p: Params, positive: bool, amount: real)
    requires |u| == 1 && IsAmount(u[0], ref, p, amount) && ChannelIs(m, u, ref, p, positive)
    requires Abs(amount) <= p.channelBound
    ensures Serving.Sum(m) == if amount != 0.0 && (amount > 0.0) == positive then Abs(amount) else 0.0
  {
    if amount != 0.0 && (amount > 0.0) == positive {
      var names := Split(u[0]);
      ChannelIsParts(m, u, ref, p, positive, amount);
      SumIsParts(m, Abs(amount), names, |names|);
      PartsAddUp(Abs(amount), names, |names|);
      PartWithin(Abs(amount), |names|, |names|);
    } else {
      NothingElse(m, u, ref, p, positive, amount);
    }
  }

  /** However many topics an event has, the entries of its vector add up to its points times the decay. */
  lemma OneEventAddsUp(events: seq<PreferenceEvent>, ref: int, now: int, p: Params, v: PreferenceVectorV2, amount: real)
    requires |events| == 1 && IsAmount(events[0], ref, p, amount) && Abs(amount) <= p.channelBound
    requires Builds(events, Some(ref), now, p, v)
    ensures Serving.Sum(v.positive) == if amount > 0.0 then amount else 0.0
    ensures Serving.Sum(v.negative) == if amount < 0.0 then -amount else 0.0
  {
    BuildsOne(events, ref, now, p, v);
    ChannelAddsUp(v.positive, events, ref, p, true, amount);
    ChannelAddsUp(v.negative, events, ref, p, false, amount);
  }
}
