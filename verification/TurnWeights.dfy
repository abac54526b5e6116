/** The v1 vector in numbers: what one turn of the worker moves, read off the posts' rows. */
module TurnWeights {
  import opened Collections
  import opened Options
  import opened TopicVectors
  import opened FeatureWorker

  /** The points of an event type. */
  function Points(t: EventType): real
  {
    match t
    case Liked => 1.5
    case Unliked => -1.5
    case Saved => 2.5
    case Unsaved => -2.5
    case Shared => 2.5
    case Unshared => -2.5
    case Hidden => -2.0
    case Reported => -5.0
    case Commented => 1.0
    case CommentReplied => 0.7
    case Viewed => 0.5
    case QualifiedRead => 0.5
    case _ => 0.0
  }

  /** A post counts under its topics if one of them says something, else under its tags if it has any, else
      under its topics all the same, and without any of these, or unknown, under "general". */
  function TopicsUnder(posts: map<nat, PostRow>, post: Option<nat>): (topics: seq<string>)
    ensures topics != []
  {
    if post.None? || post.value !in posts then ["general"]
    else
      var row := posts[post.value];
      if exists t | t in row.topics :: t !in {"", "general"} then row.topics
      else if row.tags != [] then row.tags
      else if row.topics != [] then row.topics
      else ["general"]
  }

  function Occurrences(topics: seq<string>, topic: string): nat
  {
    multiset(topics)[topic]
  }

  /** `n` of `size` even parts. */
  function Parts(points: real, n: nat, size: nat): real
    requires size > 0
  {
    points * n as real / size as real
  }

  /** An even part of the points for every time the topic is named. */
  function Part(points: real, topics: seq<string>, topic: string): real
    requires topics != []
  {
    Parts(points, Occurrences(topics, topic), |topics|)
  }

  /** What events move the weight of `topic` by. */
  function Moved(posts: map<nat, PostRow>, events: seq<Envelope>, topic: string): real
  {
    if events == [] then 0.0
    else
      Part(Points(events[0].eventType), TopicsUnder(posts, events[0].postId), topic) + Moved(posts, events[1..], topic)
  }

  function Scaled(n: nat, delta: real): real
  {
    n as real * delta
  }

  lemma ScaledStep(n: nat, delta: real)
    ensures Scaled(0, delta) == 0.0 && Scaled(n + 1, delta) == delta + Scaled(n, delta)
  {
  }

  lemma {:induction false} SpreadCounts(topics: seq<string>, topic: string, delta: real)
    ensures Spread(topics, topic, delta) == Scaled(Occurrences(topics, topic), delta)
    decreases |topics|
  {
    if topics == [] {
      ScaledStep(0, delta);
    } else {
      var rest := topics[1..];
      SpreadCounts(rest, topic, delta);
      ScaledStep(Occurrences(rest, topic), delta);
      assert topics == [topics[0]] + rest;
      assert Occurrences(topics, topic) == Occurrences(rest, topic) + if topics[0] == topic then 1 else 0;
    }
  }

  lemma PointsAreWeights(t: EventType)
    ensures Points(t) == if Weight(t).Some? then Weight(t).value else 0.0
  {
  }

  lemma EvenPart(n: nat, points: real, size: nat)
    requires size > 0
    ensures Scaled(n, points / size as real) == Parts(points, n, size)
  {
    var d := size as real;
    var x, y := Scaled(n, points / d), points * n as real / d;
    assert points / d * d == points;
    assert x * d == n as real * (points / d * d) == points * n as real;
    assert y * d == points * n as real;
    assert (x - y) * d == 0.0;
  }

  lemma TopicsAgree(posts: map<nat, PostRow>, post: Option<nat>)
    ensures Effective(ResolveTopics(posts, post)) == TopicsUnder(posts, post)
  {
  }

  lemma SpreadIsPart(topics: seq<string>, topic: string, points: real, delta: real)
    requires topics != [] && delta == points / |topics| as real
    ensures Spread(topics, topic, delta) == Part(points, topics, topic)
  {
    SpreadCounts(topics, topic, delta);
    EvenPart(Occurrences(topics, topic), points, |topics|);
  }

  lemma DeltaIsEven(topics: seq<string>, t: EventType)
    ensures Delta(topics, t) == Points(t) / |Effective(topics)| as real
  {
    PointsAreWeights(t);
  }

  lemma ShareIsPart(posts: map<nat, PostRow>, c: Claim, post: Option<nat>, topic: string)
    requires c.topics == ResolveTopics(posts, post)
    ensures Share(c, topic) == Part(Points(c.eventType), TopicsUnder(posts, post), topic)
  {
    TopicsAgree(posts, post);
    DeltaIsEven(c.topics, c.eventType);
    SpreadIsPart(Effective(c.topics), topic, Points(c.eventType), Delta(c.topics, c.eventType));
  }

  lemma {:induction false} TotalIsMoved(db: Db, user: nat, events: seq<Envelope>, topic: string)
    requires Identified(events)
    ensures Total(MakeClaims(db, user, events), topic) == Moved(db.posts, events, topic)
    decreases |events|
  {
    if events != [] {
      var claims, rest := MakeClaims(db, user, events), events[1..];
      assert events[0] in events && forall env | env in rest :: env in events;
      assert claims[1..] == MakeClaims(db, user, rest);
      ShareIsPart(db.posts, claims[0], events[0].postId, topic);
      TotalIsMoved(db, user, rest, topic);
    }
  }

  lemma {:induction false} ObservedMovesNothing(posts: map<nat, PostRow>, events: seq<Envelope>, topic: string)
    requires forall env | env in events :: env.eventType == ViewObserved
    ensures Moved(posts, events, topic) == 0.0
    decreases |events|
  {
    if events != [] {
      assert events[0] in events && forall env | env in events[1..] :: env in events;
      ObservedMovesNothing(posts, events[1..], topic);
    }
  }

  /** A committed turn of a living user moves each topic's stored weight by the points of the events it
      claims, split evenly over the topics of their posts. */
  lemma TurnMoves(db: Db, user: nat, events: seq<Envelope>, topic: string)
    requires Identified(events) && user in db.users
    ensures Get(VectorOf(CommitUser(db, user, events), user), topic)
         == Get(VectorOf(db, user), topic) + Moved(db.posts, Fresh(db.receipts, events), topic)
  {
    var news := Fresh(db.receipts, events);
    if exists env | env in news :: env.eventType != ViewObserved {
      FoldIsTotal(VectorOf(db, user), MakeClaims(db, user, news), topic);
      TotalIsMoved(db, user, news, topic);
    } else {
      ObservedMovesNothing(db.posts, news, topic);
    }
  }

  /** One fresh event moves each topic by its points over the number of its post's topics, as often as the
      topic is named among them. */
  lemma FreshEventMoves(db: Db, user: nat, events: seq<Envelope>, env: Envelope, topic: string)
    requires events == [env] && env.eventId.Uuid? && env.eventId.id !in db.receipts && user in db.users
    ensures Identified(events)
    ensures Get(VectorOf(CommitUser(db, user, events), user), topic)
         == Get(VectorOf(db, user), topic) + Part(Points(env.eventType), TopicsUnder(db.posts, env.postId), topic)
  {
    FreshAlone(db.receipts, events);
    TurnMoves(db, user, events, topic);
    MovedAlone(db.posts, events, topic);
  }

  /** Different topics get equal parts, and what is not named gets none. */
  lemma PartsAreEven(points: real, topics: seq<string>, topic: string)
    requires topics != [] && forall i, j | 0 <= i < j < |topics| :: topics[i] != topics[j]
    ensures Part(points, topics, topic) == if topic in topics then points / |topics| as real else 0.0
  {
    OnceEach(topics, topic);
  }

  lemma FreshAlone(receipts: set<nat>, events: seq<Envelope>)
    requires |events| == 1 && Identified(events) && events[0].eventId.id !in receipts
    ensures Fresh(receipts, events) == events
  {
    var rest := events[1..];
    assert rest == [] && Fresh(receipts + {events[0].eventId.id}, rest) == [];
  }

  lemma MovedAlone(posts: map<nat, PostRow>, events: seq<Envelope>, topic: string)
    requires |events| == 1
    ensures Moved(posts, events, topic)
         == Part(Points(events[0].eventType), TopicsUnder(posts, events[0].postId), topic)
  {
    var rest := events[1..];
    assert rest == [] && Moved(posts, rest, topic) == 0.0;
  }

  /** Another user's turn, or a deleted user's, moves nothing. */
  lemma OthersDoNotMove(db: Db, user: nat, events: seq<Envelope>, other: nat)
    requires Identified(events) && (other != user || user !in db.users)
    ensures VectorOf(CommitUser(db, user, events), other) == VectorOf(db, other)
  {
  }
}
