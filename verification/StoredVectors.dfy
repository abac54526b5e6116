/** The stored v2 vector over whole runs: the delivery protocol together with the canonical rows that the
    same transactions write and the vectors that the worker's turns rebuild from them. */
module StoredVectors {
  import opened Collections
  import opened Options
  import opened Sorting
  import opened FeatureWorker
  import P = Pipeline
  import E = EndToEnd
  import R = Replay
  import V = PreferenceVector

  /** A row of `behavior_events`. */
  datatype Row = Row(
    id: nat, user: nat, post: nat, eventType: R.CanonicalType, snapshot: Option<seq<string>>, occurredAt: int,
    impressionId: Option<nat>, sessionId: Option<nat>, visitId: Option<nat>, dwellMs: Option<int>, destroys: bool)

  datatype State = State(pipe: P.State, rows: seq<Row>, v2: map<nat, V.PreferenceVectorV2>)

  /** What a transaction does besides its protocol step. One that only touches canonical rows or vectors
      goes with the cleanup that deletes nothing. */
  datatype Also =
    | Nothing
    | Writes(rows: seq<Row>)
    | Purges(ids: set<nat>)
    | Backfills(user: nat, vector: V.PreferenceVectorV2)
    | Rebuilds(vector: V.PreferenceVectorV2)

  datatype Step = Step(pipe: P.Step, also: Also)

  datatype Config = Config(qualifiedMs: int, params: V.Params)

  // ---------------------------------------------------------------- the canonical events

  function Without(topics: seq<string>, dropped: set<string>): seq<string>
  {
    if topics == [] then []
    else (if topics[0] in dropped then [] else [topics[0]]) + Without(topics[1..], dropped)
  }

  /** A snapshot decides, even an empty one; older rows fall back to the post's present topics or tags. */
  function TopicsOf(row: Row, post: PostRow): seq<string>
  {
    if row.snapshot.Some? then Without(row.snapshot.value, {""})
    else
      var topics, tags := Without(post.topics, {"", "general"}), Without(post.tags, {""});
      if topics != [] then topics else if tags != [] then tags else ["general"]
  }

  function EventOf(row: Row, post: PostRow): R.PreferenceEvent
  {
    R.PreferenceEvent(row.id, row.post, row.eventType, TopicsOf(row, post), row.occurredAt, row.impressionId,
                      row.sessionId, row.visitId, row.dwellMs, row.destroys)
  }

  /** `JOIN posts ... WHERE event.user_id = user`, in table order: the build sorts. */
  function Joined(rows: seq<Row>, posts: map<nat, PostRow>, user: nat): (events: seq<R.PreferenceEvent>)
  {
    if rows == [] then []
    else
      var last := rows[|rows| - 1];
      Joined(rows[..|rows| - 1], posts, user)
      + if last.user == user && last.post in posts then [EventOf(last, posts[last.post])] else []
  }

  function Canonical(s: State, user: nat): seq<R.PreferenceEvent>
  {
    Joined(s.rows, s.pipe.db.posts, user)
  }

  /** The vector is what a build of the events yields; the clock plays no part when there are some. */
  ghost predicate IsVectorOf(cfg: Config, events: seq<R.PreferenceEvent>, v: V.PreferenceVectorV2)
  {
    events != [] && V.Builds(events, None, 0, cfg.params, v)
  }

  // ---------------------------------------------------------------- the steps

  /** The turn applies an event other than `view_observed`. */
  ghost predicate Applies(db: Db, b: Batch)
  {
    && Identified(b.events) && b.user in db.users
    && exists env :: env in Fresh(db.receipts, b.events) && env.eventType != ViewObserved
  }

  /** The protocol step is a committed turn that rebuilds the vector of `user`. */
  ghost predicate TurnRebuilds(s: State, step: P.Step, user: nat)
  {
    && step.SettleUser? && !step.outcome.RolledBack? && s.pipe.phase.Flushing? && s.pipe.phase.pending != []
    && s.pipe.phase.pending[0].user == user && Applies(s.pipe.db, s.pipe.phase.pending[0]) && Canonical(s, user) != []
  }

  const TouchesNothing := P.Cleanup({})

  ghost predicate RebuildsOf(s: State, step: Step, user: nat)
  {
    if step.also.Backfills? then step.also.user == user else TurnRebuilds(s, step.pipe, user)
  }

  ghost predicate Enabled(cfg: Config, s: State, step: Step)
  {
    && P.Enabled(cfg.qualifiedMs, s.pipe, step.pipe)
    && match step.also
       case Nothing => forall user :: !TurnRebuilds(s, step.pipe, user)
       case Writes(rows) =>
         && (step.pipe.Enqueue? || step.pipe == TouchesNothing)
         && forall row | row in rows :: row.user in s.pipe.db.users
       case Purges(ids) => step.pipe == TouchesNothing
       case Backfills(user, vector) =>
         && step.pipe == TouchesNothing && user in s.pipe.db.users && user !in s.v2
         && IsVectorOf(cfg, Canonical(s, user), vector)
       case Rebuilds(vector) =>
         exists user :: TurnRebuilds(s, step.pipe, user) && IsVectorOf(cfg, Canonical(s, user), vector)
  }

  function Kept(rows: seq<Row>, users: set<nat>, ids: set<nat>): seq<Row>
  {
    if rows == [] then []
    else
      var last := rows[|rows| - 1];
      Kept(rows[..|rows| - 1], users, ids) + if last.user !in users && last.id !in ids then [last] else []
  }

  /** Deleting a user deletes its rows and its vector. */
  ghost function Apply(cfg: Config, s: State, step: Step): State
    requires Enabled(cfg, s, step)
  {
    var pipe := P.Apply(cfg.qualifiedMs, s.pipe, step.pipe);
    var gone := if step.pipe.DeleteUser? then {step.pipe.user} else {};
    match step.also
    case Nothing => State(pipe, Kept(s.rows, gone, {}), s.v2 - gone)
    case Writes(rows) => State(pipe, s.rows + rows, s.v2)
    case Purges(ids) => State(pipe, Kept(s.rows, {}, ids), s.v2)
    case Backfills(user, vector) => State(pipe, s.rows, s.v2[user := vector])
    case Rebuilds(vector) => State(pipe, s.rows, s.v2[s.pipe.phase.pending[0].user := vector])
  }

  ghost predicate Run(cfg: Config, trace: seq<State>, steps: seq<Step>)
  {
    && |trace| == |steps| + 1
    && P.Init(trace[0].pipe) && trace[0].rows == [] && trace[0].v2 == map[]
    && forall i | 0 <= i < |steps| :: Moves(cfg, trace[i], steps[i], trace[i + 1])
  }

  ghost predicate Moves(cfg: Config, s: State, step: Step, s': State)
  {
    Enabled(cfg, s, step) && s' == Apply(cfg, s, step)
  }

  // ---------------------------------------------------------------- the protocol's own run

  function Pipes(trace: seq<State>): (r: seq<P.State>)
    ensures |r| == |trace| && forall i | 0 <= i < |trace| :: r[i] == trace[i].pipe
  {
    seq(|trace|, i requires 0 <= i < |trace| => trace[i].pipe)
  }

  function PipeSteps(steps: seq<Step>): (r: seq<P.Step>)
    ensures |r| == |steps| && forall i | 0 <= i < |steps| :: r[i] == steps[i].pipe
  {
    seq(|steps|, i requires 0 <= i < |steps| => steps[i].pipe)
  }

  lemma PipesRun(cfg: Config, trace: seq<State>, steps: seq<Step>)
    requires Run(cfg, trace, steps)
    ensures P.Run(cfg.qualifiedMs, Pipes(trace), PipeSteps(steps))
  {
    var t, p := Pipes(trace), PipeSteps(steps);
    forall i | 0 <= i < |p| ensures P.Enabled(cfg.qualifiedMs, t[i], p[i])
        && t[i + 1] == P.Apply(cfg.qualifiedMs, t[i], p[i]) {
      assert Moves(cfg, trace[i], steps[i], trace[i + 1]);
    }
  }

  // ---------------------------------------------------------------- the last rebuild

  ghost predicate RebuildsAt(trace: seq<State>, steps: seq<Step>, m: int, user: nat)
  {
    0 <= m < |steps| && m < |trace| && RebuildsOf(trace[m], steps[m], user)
  }

  /** Among the first `n` steps, step `m` is the last that rebuilds the vector of `user`. */
  ghost predicate LastRebuild(trace: seq<State>, steps: seq<Step>, n: nat, user: nat, m: int)
  {
    m < n && RebuildsAt(trace, steps, m, user) && forall k | m < k < n :: !RebuildsAt(trace, steps, k, user)
  }

  ghost predicate EverRebuilt(trace: seq<State>, steps: seq<Step>, n: nat, user: nat)
  {
    exists m :: m < n && RebuildsAt(trace, steps, m, user)
  }

  /** The stored vectors of living users are those of their last rebuilds, and whoever had one was known. */
  ghost predicate VectorsInv(cfg: Config, trace: seq<State>, steps: seq<Step>, n: nat)
    requires n < |trace|
  {
    var s := trace[n];
    && s.v2.Keys <= s.pipe.db.users <= s.pipe.known
    && (forall user :: HasVectorIffRebuilt(trace, steps, n, user))
    && (forall user, m | LastRebuild(trace, steps, n, user, m) :: VectorIsAsOf(cfg, trace, n, user, m))
  }

  ghost predicate HasVectorIffRebuilt(trace: seq<State>, steps: seq<Step>, n: nat, user: nat)
    requires n < |trace|
  {
    var s := trace[n];
    && (EverRebuilt(trace, steps, n, user) ==> user in s.pipe.known)
    && (user in s.pipe.db.users ==> (user in s.v2 <==> EverRebuilt(trace, steps, n, user)))
  }

  /** In state `n` a living user's vector is the build of its canonical events in state `m`. */
  ghost predicate VectorIsAsOf(cfg: Config, trace: seq<State>, n: nat, user: nat, m: int)
    requires n < |trace|
  {
    user in trace[n].pipe.db.users ==>
      0 <= m < |trace| && user in trace[n].v2 && IsVectorOf(cfg, Canonical(trace[m], user), trace[n].v2[user])
  }

  /** What a step rebuilds is stored. */
  lemma RebuiltIsStored(cfg: Config, s: State, step: Step, user: nat)
    requires Enabled(cfg, s, step) && RebuildsOf(s, step, user)
    ensures var s' := Apply(cfg, s, step);
            user in s.pipe.db.users && user in s'.v2 && IsVectorOf(cfg, Canonical(s, user), s'.v2[user])
  {
    if step.also.Rebuilds? {
      var other :| TurnRebuilds(s, step.pipe, other) && IsVectorOf(cfg, Canonical(s, other), step.also.vector);
      assert other == user;
    }
  }

  /** Nothing else changes a living user's vector. */
  lemma OtherVectorsStay(cfg: Config, s: State, step: Step, user: nat)
    requires Enabled(cfg, s, step) && !RebuildsOf(s, step, user) && user in Apply(cfg, s, step).pipe.db.users
    ensures var s' := Apply(cfg, s, step);
            (user in s'.v2 <==> user in s.v2) && (user in s.v2 ==> s'.v2[user] == s.v2[user])
  {
  }

  lemma PipeUsers(q: int, s: P.State, step: P.Step)
    requires P.Enabled(q, s, step) && s.db.users <= s.known
    ensures var s' := P.Apply(q, s, step);
            && s'.db.users <= s'.known && s.known <= s'.known
            && (forall user | user in s'.db.users :: user in s.db.users || user !in s.known)
            && (forall user | user in s.db.users && !(step.DeleteUser? && step.user == user) :: user in s'.db.users)
  {
  }

  lemma StepUsers(cfg: Config, s: State, step: Step)
    requires Enabled(cfg, s, step) && s.v2.Keys <= s.pipe.db.users <= s.pipe.known
    ensures Apply(cfg, s, step).v2.Keys <= Apply(cfg, s, step).pipe.db.users
  {
    PipeUsers(cfg.qualifiedMs, s.pipe, step.pipe);
    var s' := Apply(cfg, s, step);
    forall user | user in s'.v2 ensures user in s'.pipe.db.users {
      if step.also.Rebuilds? {
        var other :| TurnRebuilds(s, step.pipe, other);
      }
    }
  }

  lemma EverRebuiltSnoc(trace: seq<State>, steps: seq<Step>, n: nat, user: nat)
    requires n < |steps| && n < |trace|
    ensures EverRebuilt(trace, steps, n + 1, user)
       <==> EverRebuilt(trace, steps, n, user) || RebuildsOf(trace[n], steps[n], user)
  {
    if RebuildsOf(trace[n], steps[n], user) {
      assert RebuildsAt(trace, steps, n, user);
    }
    if EverRebuilt(trace, steps, n, user) {
      var m :| m < n && RebuildsAt(trace, steps, m, user);
      assert m < n + 1 && RebuildsAt(trace, steps, m, user);
    }
  }

  lemma LastRebuildSnoc(trace: seq<State>, steps: seq<Step>, n: nat, user: nat, m: int)
    requires n < |steps| && n < |trace| && LastRebuild(trace, steps, n + 1, user, m)
    ensures if RebuildsOf(trace[n], steps[n], user) then m == n else LastRebuild(trace, steps, n, user, m)
  {
    if RebuildsOf(trace[n], steps[n], user) {
      assert RebuildsAt(trace, steps, n, user);
    }
  }

  lemma HasStays(cfg: Config, trace: seq<State>, steps: seq<Step>, n: nat, user: nat)
    requires n < |steps| && |trace| == |steps| + 1 && VectorsInv(cfg, trace, steps, n)
    requires Moves(cfg, trace[n], steps[n], trace[n + 1])
    ensures HasVectorIffRebuilt(trace, steps, n + 1, user)
  {
    assert HasVectorIffRebuilt(trace, steps, n, user);
    PipeUsers(cfg.qualifiedMs, trace[n].pipe, steps[n].pipe);
    EverRebuiltSnoc(trace, steps, n, user);
    if RebuildsOf(trace[n], steps[n], user) {
      RebuiltIsStored(cfg, trace[n], steps[n], user);
    } else if user in trace[n + 1].pipe.db.users {
      OtherVectorsStay(cfg, trace[n], steps[n], user);
    }
  }

  lemma LastStays(cfg: Config, trace: seq<State>, steps: seq<Step>, n: nat, user: nat, m: int)
    requires n < |steps| && |trace| == |steps| + 1 && VectorsInv(cfg, trace, steps, n)
    requires Moves(cfg, trace[n], steps[n], trace[n + 1]) && LastRebuild(trace, steps, n + 1, user, m)
    ensures VectorIsAsOf(cfg, trace, n + 1, user, m)
  {
    LastRebuildSnoc(trace, steps, n, user, m);
    if m == n {
      RebuiltIsStored(cfg, trace[n], steps[n], user);
    } else if user in trace[n + 1].pipe.db.users {
      OtherVectorsStay(cfg, trace[n], steps[n], user);
      assert HasVectorIffRebuilt(trace, steps, n, user) && VectorIsAsOf(cfg, trace, n, user, m);
      assert EverRebuilt(trace, steps, n, user);
      PipeUsers(cfg.qualifiedMs, trace[n].pipe, steps[n].pipe);
    }
  }

  lemma StepKeepsVectors(cfg: Config, trace: seq<State>, steps: seq<Step>, n: nat)
    requires n < |steps| && |trace| == |steps| + 1 && VectorsInv(cfg, trace, steps, n)
    requires Moves(cfg, trace[n], steps[n], trace[n + 1])
    ensures VectorsInv(cfg, trace, steps, n + 1)
  {
    StepUsers(cfg, trace[n], steps[n]);
    PipeUsers(cfg.qualifiedMs, trace[n].pipe, steps[n].pipe);
    var next := n + 1;
    forall user ensures HasVectorIffRebuilt(trace, steps, next, user) {
      HasStays(cfg, trace, steps, n, user);
    }
    forall user, m | LastRebuild(trace, steps, next, user, m) ensures VectorIsAsOf(cfg, trace, next, user, m) {
      LastStays(cfg, trace, steps, n, user, m);
    }
  }

  /** In every state of every run a living user has a stored v2 vector exactly when a turn or a backfill
      ever rebuilt it, and the vector is the build of the user's canonical rows as of the last one. */
  lemma {:induction false} StoredVectorIsLastRebuild(cfg: Config, trace: seq<State>, steps: seq<Step>, n: nat)
    requires Run(cfg, trace, steps) && n < |trace|
    ensures VectorsInv(cfg, trace, steps, n)
  {
    if n > 0 {
      StoredVectorIsLastRebuild(cfg, trace, steps, n - 1);
      assert Moves(cfg, trace[n - 1], steps[n - 1], trace[n]);
      StepKeepsVectors(cfg, trace, steps, n - 1);
    }
  }

  // ---------------------------------------------------------------- the topics of a row in words

  lemma {:induction false} WithoutCounts(topics: seq<string>, dropped: set<string>, topic: string)
    ensures multiset(Without(topics, dropped))[topic] == if topic in dropped then 0 else multiset(topics)[topic]
    decreases |topics|
  {
    if topics != [] {
      WithoutCounts(topics[1..], dropped, topic);
      assert topics == [topics[0]] + topics[1..];
    }
  }

  lemma NoneLeft(topics: seq<string>, dropped: set<string>)
    ensures Without(topics, dropped) == [] <==> forall t | t in topics :: t in dropped
  {
    var left := Without(topics, dropped);
    if left == [] {
      forall t | t in topics ensures t in dropped {
        WithoutCounts(topics, dropped, t);
        assert multiset(topics)[t] > 0;
      }
    } else {
      WithoutCounts(topics, dropped, left[0]);
      assert left[0] in multiset(left);
    }
  }

  /** A canonical row counts under its snapshot's topics, empty names aside, each as often as it is named. */
  lemma SnapshotTopics(row: Row, post: PostRow, topic: string)
    requires row.snapshot.Some?
    ensures multiset(TopicsOf(row, post))[topic] == if topic == "" then 0 else multiset(row.snapshot.value)[topic]
  {
    WithoutCounts(row.snapshot.value, {""}, topic);
  }

  /** A row without a snapshot counts under the post's present topics other than "" and "general", without any
      under its non-empty tags, and without these under "general". */
  lemma PresentTopics(row: Row, post: PostRow, topic: string)
    requires row.snapshot.None?
    ensures var n := multiset(TopicsOf(row, post))[topic];
            && (SomeNamed(post.topics, {"", "general"}) ==>
                  n == if topic in {"", "general"} then 0 else multiset(post.topics)[topic])
            && (!SomeNamed(post.topics, {"", "general"}) && SomeNamed(post.tags, {""}) ==>
                  n == if topic == "" then 0 else multiset(post.tags)[topic])
            && (!SomeNamed(post.topics, {"", "general"}) && !SomeNamed(post.tags, {""}) ==>
                  n == if topic == "general" then 1 else 0)
  {
    NoneLeft(post.topics, {"", "general"});
    NoneLeft(post.tags, {""});
    if SomeNamed(post.topics, {"", "general"}) {
      WithoutCounts(post.topics, {"", "general"}, topic);
    } else if SomeNamed(post.tags, {""}) {
      WithoutCounts(post.tags, {""}, topic);
    }
  }

  ghost predicate SomeNamed(topics: seq<string>, ignored: set<string>)
  {
    exists t :: t in topics && t !in ignored
  }
}
