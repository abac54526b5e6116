/** The feature-store worker: classifying Kafka envelopes, claiming receipts, and folding topic
    deltas into the v1 preference vector. Scores are exact reals; timestamps do not matter here. */
module FeatureWorker {
  import opened Collections
  import opened Options
  import opened TopicVectors

  /** A JSON field that should hold a UUID: absent, present but not a UUID, or a UUID. */
  datatype UuidField = Missing | Malformed | Uuid(id: nat)

  datatype Version = NoVersion | Version1 | Version2 | OtherVersion

  datatype EventType =
    | Click | ViewObserved | Dwell | Unhide | Viewed | QualifiedRead
    | Liked | Unliked | Saved | Unsaved | Shared | Unshared
    | Hidden | Reported | Commented | CommentReplied
    | Visible
    | OtherType(name: string)

  datatype Envelope = Envelope(
    eventType: EventType,
    version: Version,
    eventId: UuidField,
    userId: UuidField,
    reporterId: UuidField,
    commenterId: UuidField,
    postId: Option<nat>,
    durationMs: Option<int>)

  /** A row of `posts`, as far as topic resolution reads it. */
  datatype PostRow = PostRow(topics: seq<string>, tags: seq<string>)

  /** What one receipt did. The table keeps the id; the rest is history the theorems speak about. */
  datatype Claim = Claim(id: nat, user: nat, eventType: EventType, topics: seq<string>, applied: bool)

  datatype Db = Db(
    receipts: set<nat>,
    claims: seq<Claim>,
    vectors: map<nat, Vector>,
    users: set<nat>,
    posts: map<nat, PostRow>)

  // ---------------------------------------------------------------- classification

  /** The WEIGHTS table; None for a type that is not a key of it. */
  function Weight(t: EventType): Option<real>
  {
    match t
    case Click | ViewObserved | Dwell | Unhide => Some(0.0)
    case Viewed | QualifiedRead => Some(0.5)
    case Liked => Some(1.5)
    case Unliked => Some(-1.5)
    case Saved | Shared => Some(2.5)
    case Unsaved | Unshared => Some(-2.5)
    case Hidden => Some(-2.0)
    case Reported => Some(-5.0)
    case Commented => Some(1.0)
    case CommentReplied => Some(0.7)
    case Visible | OtherType(_) => None
  }

  /** The first identity field that is present decides, even when it is malformed. */
  function ExtractUser(env: Envelope): Option<nat>
  {
    var field :=
      if env.userId != Missing then env.userId
      else if env.reporterId != Missing then env.reporterId
      else env.commenterId;
    if field.Uuid? then Some(field.id) else None
  }

  predicate ValidFeatureEvent(env: Envelope, qualifiedReadMs: int)
  {
    match env.eventType
    case Viewed => env.version == NoVersion || env.version == Version1
    case QualifiedRead =>
      env.version == Version2 && env.durationMs.Some? && env.durationMs.value >= qualifiedReadMs
    case _ => true
  }

  datatype Disposition = Ignored | Unknown | Invalid | Routed(user: nat, id: nat)

  function Classify(env: Envelope, qualifiedReadMs: int): Disposition
  {
    if env.eventType == Visible then Ignored
    else if Weight(env.eventType).None? then Unknown
    else if !ValidFeatureEvent(env, qualifiedReadMs) then Invalid
    else if ExtractUser(env).None? then
      if env.userId == env.reporterId == env.commenterId == Missing then Unknown else Invalid
    else if !env.eventId.Uuid? then Unknown
    else Routed(ExtractUser(env).value, env.eventId.id)
  }

  predicate RoutedTo(env: Envelope, user: nat, qualifiedReadMs: int)
  {
    var d := Classify(env, qualifiedReadMs);
    d.Routed? && d.user == user
  }

  // ---------------------------------------------------------------- topic deltas

  predicate Meaningful(topics: seq<string>)
  {
    exists t | t in topics :: t != "" && t != "general"
  }

  function ResolveTopics(posts: map<nat, PostRow>, post: Option<nat>): seq<string>
  {
    if post.None? || post.value !in posts then []
    else
      var row := posts[post.value];
      if Meaningful(row.topics) || row.tags == [] then row.topics else row.tags
  }

  function AddEach(vec: Vector, topics: seq<string>, delta: real): Vector
    decreases |topics|
  {
    if topics == [] then vec
    else AddEach(vec[topics[0] := Get(vec, topics[0]) + delta], topics[1..], delta)
  }

  function Effective(topics: seq<string>): (r: seq<string>)
    ensures r != []
  {
    if topics == [] then ["general"] else topics
  }

  /** The weight split evenly across the topics; a type without a weight moves nothing. */
  function Delta(topics: seq<string>, t: EventType): real
  {
    (if Weight(t).Some? then Weight(t).value else 0.0) / |Effective(topics)| as real
  }

  function ApplyTopicDelta(vec: Vector, topics: seq<string>, t: EventType): Vector
  {
    var delta := Delta(topics, t);
    if delta == 0.0 then vec else AddEach(vec, Effective(topics), delta)
  }

  function Fold(vec: Vector, claims: seq<Claim>): Vector
    decreases |claims|
  {
    if claims == [] then vec
    else Fold(ApplyTopicDelta(vec, claims[0].topics, claims[0].eventType), claims[1..])
  }

  /** The claims of `user` that were applied, in claim order. */
  function AppliedTo(claims: seq<Claim>, user: nat): seq<Claim>
  {
    if claims == [] then []
    else
      (if claims[0].user == user && claims[0].applied then [claims[0]] else [])
      + AppliedTo(claims[1..], user)
  }

  function VectorOf(db: Db, user: nat): Vector
  {
    if user in db.vectors then db.vectors[user] else map[]
  }

  // ---------------------------------------------------------------- one user's transaction

  predicate Identified(events: seq<Envelope>)
  {
    forall env | env in events :: env.eventId.Uuid?
  }

  /** The envelopes that insert a new receipt: first occurrence of an id that has none yet. */
  function Fresh(receipts: set<nat>, events: seq<Envelope>): (r: seq<Envelope>)
    requires Identified(events)
    ensures forall env | env in r :: env in events && env.eventId.id !in receipts
    decreases |events|
  {
    if events == [] then []
    else
      var id := events[0].eventId.id;
      if id in receipts then Fresh(receipts, events[1..])
      else [events[0]] + Fresh(receipts + {id}, events[1..])
  }

  function Ids(events: seq<Envelope>): set<nat>
    requires Identified(events)
  {
    set env | env in events :: env.eventId.id
  }

  function MakeClaims(db: Db, user: nat, events: seq<Envelope>): (r: seq<Claim>)
    requires Identified(events)
    ensures |r| == |events|
  {
    seq(|events|, i requires 0 <= i < |events| =>
      Claim(events[i].eventId.id, user, events[i].eventType,
            ResolveTopics(db.posts, events[i].postId), user in db.users))
  }

  /** The database after the transaction of `_apply_for_user` commits. */
  function CommitUser(db: Db, user: nat, events: seq<Envelope>): Db
    requires Identified(events)
  {
    var news := Fresh(db.receipts, events);
    var claims := MakeClaims(db, user, news);
    db.(receipts := db.receipts + Ids(news),
        claims := db.claims + claims,
        vectors := if user in db.users && exists env | env in news :: env.eventType != ViewObserved
                   then db.vectors[user := Fold(VectorOf(db, user), claims)]
                   else db.vectors)
  }

  /** How one user's turn can end: rolled back, committed but the cache refresh raised, or done. */
  datatype Outcome = RolledBack | CacheFailed | Completed

  datatype Batch = Batch(user: nat, events: seq<Envelope>)

  predicate BatchWellRouted(b: Batch, qualifiedReadMs: int)
  {
    forall env | env in b.events :: RoutedTo(env, b.user, qualifiedReadMs)
  }

  predicate WellRouted(batches: seq<Batch>, qualifiedReadMs: int)
  {
    forall b | b in batches :: BatchWellRouted(b, qualifiedReadMs)
  }

  /** One pass of the per-user loop: the new database and the events to re-queue. */
  function Settle(db: Db, b: Batch, outcome: Outcome): (Db, seq<Envelope>)
    requires Identified(b.events)
  {
    (if outcome.RolledBack? then db else CommitUser(db, b.user, b.events),
     if outcome.Completed? then [] else b.events)
  }

  function SettleAll(db: Db, batches: seq<Batch>, outcomes: nat -> Outcome, q: int): (Db, seq<Envelope>)
    requires WellRouted(batches, q)
    decreases |batches|
  {
    if batches == [] then (db, [])
    else
      assert BatchWellRouted(batches[0], q);
      var (db1, failed1) := Settle(db, batches[0], outcomes(batches[0].user));
      assert WellRouted(batches[1..], q);
      var (db2, failed2) := SettleAll(db1, batches[1..], outcomes, q);
      (db2, failed1 + failed2)
  }

  // ---------------------------------------------------------------- grouping by user

  /** `per_user[user].append(env)` on an insertion-ordered dictionary. */
  function AddTo(groups: seq<Batch>, user: nat, env: Envelope): seq<Batch>
  {
    if groups == [] then [Batch(user, [env])]
    else if groups[0].user == user then [groups[0].(events := groups[0].events + [env])] + groups[1..]
    else [groups[0]] + AddTo(groups[1..], user, env)
  }

  function RouteAll(events: seq<Envelope>, q: int): seq<Batch>
  {
    if events == [] then []
    else
      var groups := RouteAll(events[..|events| - 1], q);
      var env := events[|events| - 1];
      var d := Classify(env, q);
      if d.Routed? then AddTo(groups, d.user, env) else groups
  }

  function EventsOf(batches: seq<Batch>): seq<Envelope>
  {
    if batches == [] then [] else batches[0].events + EventsOf(batches[1..])
  }

  lemma {:induction false} AddToFacts(groups: seq<Batch>, user: nat, env: Envelope, q: int)
    requires WellRouted(groups, q) && RoutedTo(env, user, q)
    ensures WellRouted(AddTo(groups, user, env), q)
    ensures multiset(EventsOf(AddTo(groups, user, env))) == multiset(EventsOf(groups)) + multiset{env}
  {
    if groups == [] {
      assert EventsOf([Batch(user, [env])]) == [env] + [];
    } else if groups[0].user == user {
      var g := groups[0].(events := groups[0].events + [env]);
      assert BatchWellRouted(groups[0], q);
      assert BatchWellRouted(g, q);
      assert ([g] + groups[1..])[1..] == groups[1..];
    } else {
      assert BatchWellRouted(groups[0], q);
      AddToFacts(groups[1..], user, env, q);
      var rest := AddTo(groups[1..], user, env);
      assert ([groups[0]] + rest)[1..] == rest;
    }
  }

  /** No user twice, and no batch without events. */
  predicate Grouped(groups: seq<Batch>)
  {
    && (forall i, j | 0 <= i < j < |groups| :: groups[i].user != groups[j].user)
    && (forall b | b in groups :: b.events != [])
  }

  /** The events of `user` in a grouping, in order. */
  function EventsUnder(groups: seq<Batch>, user: nat): seq<Envelope>
  {
    if groups == [] then []
    else if groups[0].user == user then groups[0].events
    else EventsUnder(groups[1..], user)
  }

  lemma {:induction false} AddToUsers(groups: seq<Batch>, user: nat, env: Envelope)
    requires forall i, j | 0 <= i < j < |groups| :: groups[i].user != groups[j].user
    ensures var next := AddTo(groups, user, env);
            && (forall i, j | 0 <= i < j < |next| :: next[i].user != next[j].user)
            && (forall b | b in next :: b.user == user || exists g :: g in groups && g.user == b.user)
    decreases |groups|
  {
    if groups != [] && groups[0].user != user {
      AddToUsers(groups[1..], user, env);
      var rest := AddTo(groups[1..], user, env);
      forall j | 0 <= j < |rest| ensures rest[j].user != groups[0].user {
        assert rest[j] in rest;
      }
    }
  }

  lemma {:induction false} AddToFills(groups: seq<Batch>, user: nat, env: Envelope)
    requires forall b | b in groups :: b.events != []
    ensures forall b | b in AddTo(groups, user, env) :: b.events != []
    decreases |groups|
  {
    if groups != [] && groups[0].user != user {
      AddToFills(groups[1..], user, env);
    }
  }

  lemma {:induction false} AddToUnder(groups: seq<Batch>, user: nat, env: Envelope, u: nat)
    ensures EventsUnder(AddTo(groups, user, env), u) == EventsUnder(groups, u) + if u == user then [env] else []
    decreases |groups|
  {
    if groups != [] && groups[0].user != user {
      AddToUnder(groups[1..], user, env, u);
    }
  }

  lemma {:induction false} RouteAllGroups(events: seq<Envelope>, q: int)
    ensures Grouped(RouteAll(events, q))
    decreases |events|
  {
    if events != [] {
      var init, d := events[..|events| - 1], Classify(events[|events| - 1], q);
      RouteAllGroups(init, q);
      if d.Routed? {
        AddToUsers(RouteAll(init, q), d.user, events[|events| - 1]);
        AddToFills(RouteAll(init, q), d.user, events[|events| - 1]);
      }
    }
  }

  /** The events the worker accepts for `user`, in order. */
  function RoutedOf(events: seq<Envelope>, user: nat, q: int): seq<Envelope>
  {
    if events == [] then []
    else
      var env := events[|events| - 1];
      RoutedOf(events[..|events| - 1], user, q) + if RoutedTo(env, user, q) then [env] else []
  }

  /** The events the worker accepts, in order. */
  function RoutedIn(events: seq<Envelope>, q: int): seq<Envelope>
  {
    if events == [] then []
    else
      var env := events[|events| - 1];
      RoutedIn(events[..|events| - 1], q) + if Classify(env, q).Routed? then [env] else []
  }

  lemma {:induction false} RoutedInMembers(events: seq<Envelope>, q: int)
    ensures forall env :: env in RoutedIn(events, q) <==> env in events && Classify(env, q).Routed?
    decreases |events|
  {
    if events != [] {
      RoutedInMembers(events[..|events| - 1], q);
      assert events == events[..|events| - 1] + [events[|events| - 1]];
    }
  }

  lemma {:induction false} RouteAllUnder(events: seq<Envelope>, q: int, user: nat)
    ensures EventsUnder(RouteAll(events, q), user) == RoutedOf(events, user, q)
    decreases |events|
  {
    if events != [] {
      var init, env := events[..|events| - 1], events[|events| - 1];
      RouteAllUnder(init, q, user);
      if Classify(env, q).Routed? {
        AddToUnder(RouteAll(init, q), Classify(env, q).user, env, user);
      }
    }
  }

  lemma {:induction false} RouteAllKeeps(events: seq<Envelope>, q: int)
    ensures WellRouted(RouteAll(events, q), q)
    ensures multiset(EventsOf(RouteAll(events, q))) == multiset(RoutedIn(events, q))
    decreases |events|
  {
    if events != [] {
      var init, last := events[..|events| - 1], events[|events| - 1];
      RouteAllKeeps(init, q);
      var d := Classify(last, q);
      if d.Routed? {
        AddToFacts(RouteAll(init, q), d.user, last, q);
      }
    }
  }

  /** Grouping keeps exactly the routed events, none dropped or doubled, each user's in one non-empty
      batch of its own and in their order. */
  lemma RouteAllFacts(events: seq<Envelope>, q: int)
    ensures WellRouted(RouteAll(events, q), q) && Grouped(RouteAll(events, q))
    ensures multiset(EventsOf(RouteAll(events, q))) == multiset(RoutedIn(events, q))
    ensures forall user :: EventsUnder(RouteAll(events, q), user) == RoutedOf(events, user, q)
    ensures forall env :: env in EventsOf(RouteAll(events, q)) <==> env in events && Classify(env, q).Routed?
  {
    RouteAllKeeps(events, q);
    RouteAllGroups(events, q);
    forall user ensures EventsUnder(RouteAll(events, q), user) == RoutedOf(events, user, q) {
      RouteAllUnder(events, q, user);
    }
    RoutedInMembers(events, q);
    var kept := EventsOf(RouteAll(events, q));
    assert forall env :: env in kept <==> env in multiset(kept);
    assert forall env :: env in RoutedIn(events, q) <==> env in multiset(RoutedIn(events, q));
  }

  lemma WellRoutedIdentified(b: Batch, q: int)
    requires BatchWellRouted(b, q)
    ensures Identified(b.events)
  {}

  // ---------------------------------------------------------------- exactly-once bookkeeping

  predicate DistinctIds(claims: seq<Claim>)
  {
    forall i, j | 0 <= i < j < |claims| :: claims[i].id != claims[j].id
  }

  /** Receipts name the claims, no id is claimed twice, and every living user's vector is the fold
      of the deltas of that user's applied claims in claim order. */
  ghost predicate LedgerInv(db: Db)
  {
    && ReceiptsNameClaims(db)
    && DistinctIds(db.claims)
    && db.vectors.Keys <= db.users
    && VectorsFold(db)
  }

  ghost predicate ReceiptsNameClaims(db: Db)
  {
    db.receipts == set c | c in db.claims :: c.id
  }

  ghost predicate VectorsFold(db: Db)
  {
    forall u | u in db.users :: VectorOf(db, u) == Fold(map[], AppliedTo(db.claims, u))
  }

  lemma {:induction false} FreshFacts(receipts: set<nat>, events: seq<Envelope>)
    requires Identified(events)
    ensures Ids(Fresh(receipts, events)) == Ids(events) - receipts
    ensures forall i, j | 0 <= i < j < |Fresh(receipts, events)| ::
              Fresh(receipts, events)[i].eventId.id != Fresh(receipts, events)[j].eventId.id
    decreases |events|
  {
    if events != [] {
      var id := events[0].eventId.id;
      assert Ids(events) == {id} + Ids(events[1..]) by {
        assert events == [events[0]] + events[1..];
      }
      if id in receipts {
        FreshFacts(receipts, events[1..]);
      } else {
        FreshFacts(receipts + {id}, events[1..]);
        var rest := Fresh(receipts + {id}, events[1..]);
        assert Ids([events[0]] + rest) == {id} + Ids(rest);
        forall i, j | 0 <= i < j < 1 + |rest|
          ensures ([events[0]] + rest)[i].eventId.id != ([events[0]] + rest)[j].eventId.id
        {
          if i == 0 { assert rest[j - 1] in rest; }
        }
      }
    }
  }

  lemma {:induction false} FoldAppend(vec: Vector, a: seq<Claim>, b: seq<Claim>)
    ensures Fold(vec, a + b) == Fold(Fold(vec, a), b)
    decreases |a|
  {
    if a == [] {
      assert a + b == b;
    } else {
      assert (a + b)[1..] == a[1..] + b;
      FoldAppend(ApplyTopicDelta(vec, a[0].topics, a[0].eventType), a[1..], b);
    }
  }

  lemma {:induction false} AppliedAppend(a: seq<Claim>, b: seq<Claim>, user: nat)
    ensures AppliedTo(a + b, user) == AppliedTo(a, user) + AppliedTo(b, user)
  {
    if a == [] {
      assert a + b == b;
    } else {
      assert (a + b)[1..] == a[1..] + b;
      AppliedAppend(a[1..], b, user);
    }
  }

  lemma {:induction false} AppliedAll(claims: seq<Claim>, owner: nat, applied: bool, user: nat)
    requires forall c | c in claims :: c.user == owner && c.applied == applied
    ensures AppliedTo(claims, user) == if user == owner && applied then claims else []
  {
    if claims != [] {
      assert claims[0] in claims;
      AppliedAll(claims[1..], owner, applied, user);
      assert claims == [claims[0]] + claims[1..];
    }
  }

  lemma {:induction false} FoldZero(vec: Vector, claims: seq<Claim>)
    requires forall c | c in claims :: c.eventType == ViewObserved
    ensures Fold(vec, claims) == vec
  {
    if claims != [] {
      assert claims[0] in claims;
      FoldZero(vec, claims[1..]);
    }
  }

  lemma MakeClaimsFacts(db: Db, user: nat, events: seq<Envelope>)
    requires Identified(events)
    ensures forall c | c in MakeClaims(db, user, events) :: c.user == user && c.applied == (user in db.users)
    ensures (forall env | env in events :: env.eventType == ViewObserved)
              ==> forall c | c in MakeClaims(db, user, events) :: c.eventType == ViewObserved
    ensures forall i | 0 <= i < |events| :: MakeClaims(db, user, events)[i].id == events[i].eventId.id
  {
    forall c | c in MakeClaims(db, user, events)
      ensures exists i :: 0 <= i < |events| && c == MakeClaims(db, user, events)[i] && events[i] in events
    {
      var i :| 0 <= i < |events| && MakeClaims(db, user, events)[i] == c;
      assert events[i] in events;
    }
  }

  lemma DistinctAppend(a: seq<Claim>, b: seq<Claim>, receipts: set<nat>)
    requires DistinctIds(a) && DistinctIds(b)
    requires receipts == (set c | c in a :: c.id) && forall c | c in b :: c.id !in receipts
    ensures DistinctIds(a + b)
  {
    forall i, j | 0 <= i < j < |a + b| ensures (a + b)[i].id != (a + b)[j].id {
      if i < |a| <= j {
        assert a[i] in a && b[j - |a|] in b;
      }
    }
  }

  /** The vector column of one committed transaction, before the ledger is considered. */
  lemma CommitVectorOf(db: Db, user: nat, events: seq<Envelope>)
    requires Identified(events) && user in db.users
    ensures VectorOf(CommitUser(db, user, events), user)
         == Fold(VectorOf(db, user), MakeClaims(db, user, Fresh(db.receipts, events)))
  {
    var news := Fresh(db.receipts, events);
    if forall env | env in news :: env.eventType == ViewObserved {
      MakeClaimsFacts(db, user, news);
      FoldZero(VectorOf(db, user), MakeClaims(db, user, news));
    }
  }

  lemma LedgerExtends(old_: seq<Claim>, new_: seq<Claim>, owner: nat, applied: bool, u: nat, vec: Vector)
    requires forall c | c in new_ :: c.user == owner && c.applied == applied
    requires vec == Fold(map[], AppliedTo(old_, u))
    ensures u == owner && applied ==> Fold(vec, new_) == Fold(map[], AppliedTo(old_ + new_, u))
    ensures !(u == owner && applied) ==> vec == Fold(map[], AppliedTo(old_ + new_, u))
  {
    AppliedAppend(old_, new_, u);
    AppliedAll(new_, owner, applied, u);
    if u == owner && applied {
      FoldAppend(map[], AppliedTo(old_, u), new_);
    } else {
      assert AppliedTo(old_, u) + [] == AppliedTo(old_, u);
    }
  }

  lemma CommitVector(db: Db, user: nat, events: seq<Envelope>, u: nat)
    requires Identified(events) && u in db.users
    requires VectorOf(db, u) == Fold(map[], AppliedTo(db.claims, u))
    ensures VectorOf(CommitUser(db, user, events), u)
         == Fold(map[], AppliedTo(CommitUser(db, user, events).claims, u))
  {
    var news := Fresh(db.receipts, events);
    MakeClaimsFacts(db, user, news);
    LedgerExtends(db.claims, MakeClaims(db, user, news), user, user in db.users, u, VectorOf(db, u));
    if u == user {
      CommitVectorOf(db, user, events);
    }
  }

  lemma CommitVectorsFold(db: Db, user: nat, events: seq<Envelope>)
    requires Identified(events) && VectorsFold(db)
    ensures VectorsFold(CommitUser(db, user, events))
  {
    forall u | u in db.users
      ensures VectorOf(CommitUser(db, user, events), u)
           == Fold(map[], AppliedTo(CommitUser(db, user, events).claims, u))
    {
      CommitVector(db, user, events, u);
    }
  }

  lemma CommitClaims(db: Db, user: nat, events: seq<Envelope>)
    requires Identified(events) && ReceiptsNameClaims(db) && DistinctIds(db.claims)
    ensures ReceiptsNameClaims(CommitUser(db, user, events))
    ensures DistinctIds(CommitUser(db, user, events).claims)
    ensures CommitUser(db, user, events).receipts == db.receipts + Ids(events)
  {
    var news := Fresh(db.receipts, events);
    var claims := MakeClaims(db, user, news);
    FreshFacts(db.receipts, events);
    MakeClaimsFacts(db, user, news);
    CommitReceipts(db, news, claims);
    forall c | c in claims ensures c.id !in db.receipts {
      var i :| 0 <= i < |claims| && claims[i] == c;
      assert news[i] in news;
    }
    DistinctAppend(db.claims, claims, db.receipts);
  }

  /** A committed transaction keeps the ledger exact and leaves every other user's vector alone. */
  lemma CommitKeepsLedger(db: Db, user: nat, events: seq<Envelope>)
    requires Identified(events) && LedgerInv(db)
    ensures LedgerInv(CommitUser(db, user, events))
    ensures CommitUser(db, user, events).receipts == db.receipts + Ids(events)
    ensures forall u | u != user :: VectorOf(CommitUser(db, user, events), u) == VectorOf(db, u)
  {
    CommitVectorsFold(db, user, events);
    CommitClaims(db, user, events);
  }

  lemma CommitReceipts(db: Db, news: seq<Envelope>, claims: seq<Claim>)
    requires Identified(news) && |claims| == |news|
    requires forall i | 0 <= i < |news| :: claims[i].id == news[i].eventId.id
    requires db.receipts == (set c | c in db.claims :: c.id)
    ensures db.receipts + Ids(news) == (set c | c in db.claims + claims :: c.id)
  {
    var all := set c | c in db.claims + claims :: c.id;
    forall id | id in db.receipts + Ids(news) ensures id in all {
      if id in Ids(news) {
        var env :| env in news && env.eventId.id == id;
        var i :| 0 <= i < |news| && news[i] == env;
        assert claims[i] in db.claims + claims;
      } else {
        var c :| c in db.claims && c.id == id;
        assert c in db.claims + claims;
      }
    }
    forall id | id in all ensures id in db.receipts + Ids(news) {
      var c :| c in db.claims + claims && c.id == id;
      if c !in db.claims {
        var i :| 0 <= i < |claims| && claims[i] == c;
        assert news[i] in news;
      }
    }
  }

  // ---------------------------------------------------------------- delivery order does not matter

  /** What one claim contributes to one topic. */
  function Share(c: Claim, topic: string): real
  {
    Spread(Effective(c.topics), topic, Delta(c.topics, c.eventType))
  }

  function Total(claims: seq<Claim>, topic: string): real
    decreases |claims|
  {
    if claims == [] then 0.0 else Share(claims[0], topic) + Total(claims[1..], topic)
  }

  lemma {:induction false} AddEachAt(vec: Vector, topics: seq<string>, delta: real, topic: string)
    ensures Get(AddEach(vec, topics, delta), topic) == Get(vec, topic) + Spread(topics, topic, delta)
    decreases |topics|
  {
    if topics != [] {
      AddEachAt(vec[topics[0] := Get(vec, topics[0]) + delta], topics[1..], delta, topic);
    }
  }

  lemma ApplyAt(vec: Vector, c: Claim, topic: string)
    ensures Get(ApplyTopicDelta(vec, c.topics, c.eventType), topic) == Get(vec, topic) + Share(c, topic)
  {
    AddEachAt(vec, Effective(c.topics), Delta(c.topics, c.eventType), topic);
    SpreadZero(Effective(c.topics), topic);
  }

  /** A folded vector is, topic by topic, the sum of the claims' shares. */
  lemma {:induction false} FoldIsTotal(vec: Vector, claims: seq<Claim>, topic: string)
    ensures Get(Fold(vec, claims), topic) == Get(vec, topic) + Total(claims, topic)
    decreases |claims|
  {
    if claims != [] {
      ApplyAt(vec, claims[0], topic);
      FoldIsTotal(ApplyTopicDelta(vec, claims[0].topics, claims[0].eventType), claims[1..], topic);
    }
  }

  lemma {:induction false} TotalAppend(a: seq<Claim>, b: seq<Claim>, topic: string)
    ensures Total(a + b, topic) == Total(a, topic) + Total(b, topic)
    decreases |a|
  {
    if a == [] {
      assert a + b == b;
    } else {
      assert (a + b)[1..] == a[1..] + b;
      TotalAppend(a[1..], b, topic);
    }
  }

  /** Whatever order redelivery and retries claim the same events in, the vector is the same. */
  lemma {:induction false} ClaimOrderIrrelevant(a: seq<Claim>, b: seq<Claim>, topic: string)
    requires multiset(a) == multiset(b)
    ensures Get(Fold(map[], a), topic) == Get(Fold(map[], b), topic)
  {
    FoldIsTotal(map[], a, topic);
    FoldIsTotal(map[], b, topic);
    TotalPermutation(a, b, topic);
  }

  /** One claim taken out of a sequence takes its share out of the total. */
  lemma TotalOut(b: seq<Claim>, i: nat, topic: string)
    requires i < |b|
    ensures Total(b, topic) == Share(b[i], topic) + Total(b[..i] + b[i + 1..], topic)
  {
    assert b == b[..i] + ([b[i]] + b[i + 1..]);
    TotalAppend(b[..i], b[i + 1..], topic);
    TotalAppend(b[..i], [b[i]] + b[i + 1..], topic);
    assert ([b[i]] + b[i + 1..])[1..] == b[i + 1..];
  }

  lemma {:induction false} TotalPermutation(a: seq<Claim>, b: seq<Claim>, topic: string)
    requires multiset(a) == multiset(b)
    ensures Total(a, topic) == Total(b, topic)
    decreases |a|
  {
    if a == [] {
      assert |multiset(b)| == |b|;
    } else {
      assert a[0] in multiset(a);
      assert a[0] in b;
      var i :| 0 <= i < |b| && b[i] == a[0];
      SameRest(a, b, i);
      TotalPermutation(a[1..], b[..i] + b[i + 1..], topic);
      TotalOut(b, i, topic);
    }
  }

  // ---------------------------------------------------------------- what is routed, and to whom

  /** The event names its user: the first of the three fields that is there holds it. */
  predicate Names(env: Envelope, user: nat)
  {
    || env.userId == Uuid(user)
    || (env.userId == Missing && env.reporterId == Uuid(user))
    || (env.userId == Missing && env.reporterId == Missing && env.commenterId == Uuid(user))
  }

  /** The worker knows the type, and the version and duration are those of the type. */
  predicate Acceptable(env: Envelope, qualifiedReadMs: int)
  {
    && env.eventType != Visible && !env.eventType.OtherType?
    && (env.eventType == Viewed ==> env.version == NoVersion || env.version == Version1)
    && (env.eventType == QualifiedRead ==>
          env.version == Version2 && env.durationMs.Some? && env.durationMs.value >= qualifiedReadMs)
  }

  /** An event goes to a user exactly when it is acceptable, names that user, and has an id. */
  lemma RoutedIff(env: Envelope, qualifiedReadMs: int, user: nat, id: nat)
    ensures Classify(env, qualifiedReadMs) == Routed(user, id)
       <==> Acceptable(env, qualifiedReadMs) && Names(env, user) && env.eventId == Uuid(id)
  {
  }

  /** What happens to the others: mere visibility is ignored; a type, an identity or an id that is not there
      makes an event unknown; what is there and unusable makes it invalid. */
  lemma NotRouted(env: Envelope, qualifiedReadMs: int)
    ensures Classify(env, qualifiedReadMs) == Ignored <==> env.eventType == Visible
    ensures Classify(env, qualifiedReadMs) == Unknown <==>
      || env.eventType.OtherType?
      || (Acceptable(env, qualifiedReadMs) && env.userId == Missing && env.reporterId == Missing
          && env.commenterId == Missing)
      || (Acceptable(env, qualifiedReadMs) && (exists user :: Names(env, user)) && !env.eventId.Uuid?)
  {
    if ExtractUser(env).Some? {
      assert Names(env, ExtractUser(env).value);
    }
  }

}
