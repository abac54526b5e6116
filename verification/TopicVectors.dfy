/** Topic-weight vectors, with a missing topic read as 0. */
module TopicVectors {
  type Vector = map<string, real>

  function Get(vec: Vector, topic: string): real
  {
    if topic in vec then vec[topic] else 0.0
  }

  /** `delta` once for every occurrence of `topic`. */
  function Spread(topics: seq<string>, topic: string, delta: real): real
  {
    if topics == [] then 0.0
    else (if topics[0] == topic then delta else 0.0) + Spread(topics[1..], topic, delta)
  }

  lemma {:induction false} SpreadZero(topics: seq<string>, topic: string)
    ensures Spread(topics, topic, 0.0) == 0.0
  {
    if topics != [] { SpreadZero(topics[1..], topic); }
  }

  lemma {:induction false} SpreadNegate(topics: seq<string>, topic: string, delta: real)
    ensures Spread(topics, topic, -delta) == -Spread(topics, topic, delta)
  {
    if topics != [] { SpreadNegate(topics[1..], topic, delta); }
  }

  lemma {:induction false} SpreadNonNegative(topics: seq<string>, topic: string, delta: real)
    requires delta >= 0.0
    ensures Spread(topics, topic, delta) >= 0.0
  {
    if topics != [] { SpreadNonNegative(topics[1..], topic, delta); }
  }
}
