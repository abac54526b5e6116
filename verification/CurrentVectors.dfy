/** When the stored v2 vector is current: once the protocol is at rest, after every write that a message
    announced; and when a row leaves it behind. */
module CurrentVectors {
  import opened Options
  import opened FeatureWorker
  import P = Pipeline
  import E = EndToEnd
  import R = Replay
  import V = PreferenceVector
  import opened StoredVectors

  // ---------------------------------------------------------------- receipts and records

  /** Every receipt is for the event id of some record. */
  ghost predicate ReceiptsInv(s: P.State)
  {
    forall id | id in s.db.receipts :: P.InLog(s.log, id)
  }

  lemma LogGrows(q: int, s: P.State, step: P.Step, id: nat)
    requires P.Enabled(q, s, step) && P.InLog(s.log, id)
    ensures P.InLog(P.Apply(q, s, step).log, id)
  {
    if step.Ack? {
      var row := s.outbox[s.holds[step.dispatcher].id];
      P.AppendKeeps(s.log, row.partition, Some(row.env));
    } else if step.ForeignRecord? {
      P.AppendKeeps(s.log, step.partition, step.record);
    }
  }

  /** A receipt appears only in a committed turn that holds an event of that id. */
  lemma FirstReceipt(q: int, s: P.State, step: P.Step, id: nat) returns (env: Envelope)
    requires P.Inv(q, s) && P.Enabled(q, s, step) && id !in s.db.receipts && id in P.Apply(q, s, step).db.receipts
    ensures step.SettleUser? && !step.outcome.RolledBack?
    ensures var b := s.phase.pending[0];
            && BatchWellRouted(b, q) && Identified(b.events)
            && env in Fresh(s.db.receipts, b.events) && env.eventId == Uuid(id) && E.InRecords(s.log, env)
  {
    var b := s.phase.pending[0];
    WellRoutedIdentified(b, q);
    env :| env in Fresh(s.db.receipts, b.events) && env.eventId.id == id;
    E.HeldIsRecorded(q, s, env);
  }

  lemma {:induction false} RunReceipts(q: int, trace: seq<P.State>, steps: seq<P.Step>, n: nat)
    requires P.Run(q, trace, steps) && n < |trace|
    ensures ReceiptsInv(trace[n])
  {
    if n > 0 {
      var s, s' := trace[n - 1], trace[n];
      RunReceipts(q, trace, steps, n - 1);
      P.EveryRunIsSafe(q, trace, steps, n - 1);
      forall id | id in s'.db.receipts ensures P.InLog(s'.log, id) {
        if id !in s.db.receipts {
          var env := FirstReceipt(q, s, steps[n - 1], id);
          RecordedIsInLog(s.log, env, id);
        }
        LogGrows(q, s, steps[n - 1], id);
      }
    }
  }

  lemma RecordedIsInLog(log: P.Log, env: Envelope, id: nat)
    requires E.InRecords(log, env) && env.eventId == Uuid(id)
    ensures P.InLog(log, id)
  {
    var p, i :| 0 <= p < |log| && 0 <= i < |log[p]| && log[p][i] == Some(env);
    assert P.Carries(log[p][i], id);
  }

  /** The step puts a record with event id `id` on its way. */
  predicate Produces(step: P.Step, id: nat)
  {
    (step.Enqueue? && step.env.eventId == Uuid(id))
    || (step.ForeignRecord? && step.record.Some? && step.record.value.eventId == Uuid(id))
  }

  ghost predicate OnlyAt(steps: seq<P.Step>, k: nat, id: nat)
  {
    forall j | 0 <= j < |steps| && j != k :: !Produces(steps[j], id)
  }

  lemma NoReceiptBefore(q: int, trace: seq<P.State>, steps: seq<P.Step>, k: nat, id: nat)
    requires P.Run(q, trace, steps) && k < |steps| && OnlyAt(steps, k, id)
    ensures id !in trace[k].db.receipts
  {
    RunReceipts(q, trace, steps, k);
    E.RunOrigins(q, trace, steps, k);
    if id in trace[k].db.receipts {
      var log := trace[k].log;
      var p, i :| 0 <= p < |log| && 0 <= i < |log[p]| && P.Carries(log[p][i], id);
      assert E.InRecords(log, log[p][i].value);
      assert false;
    }
  }

  lemma {:induction false} Crossing(trace: seq<P.State>, start: nat, end: nat, id: nat) returns (m: nat)
    requires start <= end < |trace| && id !in trace[start].db.receipts && id in trace[end].db.receipts
    ensures start <= m < end && id !in trace[m].db.receipts && id in trace[m + 1].db.receipts
    decreases end
  {
    if id in trace[end - 1].db.receipts {
      m := Crossing(trace, start, end - 1, id);
    } else {
      m := end - 1;
    }
  }

  lemma ReceiptAtRest(q: int, trace: seq<P.State>, steps: seq<P.Step>, s: P.State, k: nat, id: nat)
    requires P.Run(q, trace, steps) && s == trace[|steps|] && E.OutboxSent(s) && E.Quiet(s)
    requires k < |steps| && steps[k].Enqueue? && steps[k].env.eventId == Uuid(id) && OnlyAt(steps, k, id)
    requires Classify(steps[k].env, q).Routed?
    ensures id in s.db.receipts
  {
    var env := steps[k].env;
    E.RunOrigins(q, trace, steps, |steps|);
    P.EveryRunIsSafe(q, trace, steps, |steps|);
    E.EnqueuedIsRecorded(q, trace, steps, s, env, id);
    var p, i :| 0 <= p < |s.log| && 0 <= i < |s.log[p]| && s.log[p][i] == Some(env);
    assert P.Settled(q, s.db.receipts, s.log[p][i]);
  }

  // ---------------------------------------------------------------- an announced event leads to a rebuild

  /** Step `k` enqueues a message that the worker will apply for `user`, the only record with its id. */
  ghost predicate Announces(cfg: Config, steps: seq<Step>, k: nat, user: nat)
  {
    && k < |steps| && steps[k].pipe.Enqueue? && steps[k].pipe.env.eventId.Uuid?
    && RoutedTo(steps[k].pipe.env, user, cfg.qualifiedMs) && steps[k].pipe.env.eventType != ViewObserved
    && OnlyAt(PipeSteps(steps), k, steps[k].pipe.env.eventId.id)
  }

  /** The user is there from the start and stays; posts and rows are only added to. */
  ghost predicate Undisturbed(steps: seq<Step>, user: nat)
  {
    forall i | 0 <= i < |steps| :: E.LeavesAlone(steps[i].pipe, user) && !steps[i].also.Purges?
  }

  lemma {:induction false} UserStays(cfg: Config, trace: seq<State>, steps: seq<Step>, n: nat, user: nat)
    requires Run(cfg, trace, steps) && n < |trace| && user in trace[0].pipe.db.users && Undisturbed(steps, user)
    ensures user in trace[n].pipe.db.users && trace[n].pipe.db.posts == trace[0].pipe.db.posts
  {
    if n > 0 {
      UserStays(cfg, trace, steps, n - 1, user);
      assert Moves(cfg, trace[n - 1], steps[n - 1], trace[n]);
      E.UsersStay(cfg.qualifiedMs, trace[n - 1].pipe, steps[n - 1].pipe, user);
    }
  }

  /** The turn that claims the announced event rebuilds, if there is anything to build from. */
  lemma ClaimingTurnRebuilds(cfg: Config, s: State, step: Step, env: Envelope, id: nat, user: nat)
    requires P.Inv(cfg.qualifiedMs, s.pipe) && Enabled(cfg, s, step)
    requires id !in s.pipe.db.receipts && id in Apply(cfg, s, step).pipe.db.receipts
    requires RoutedTo(env, user, cfg.qualifiedMs) && env.eventType != ViewObserved
    requires forall other | E.InRecords(s.pipe.log, other) && other.eventId == Uuid(id) :: other == env
    requires user in s.pipe.db.users && Canonical(s, user) != []
    ensures RebuildsOf(s, step, user)
  {
    var found := FirstReceipt(cfg.qualifiedMs, s.pipe, step.pipe, id);
    var b := s.pipe.phase.pending[0];
    assert found == env && env in b.events;
    assert RoutedTo(env, b.user, cfg.qualifiedMs);
    assert Applies(s.pipe.db, b);
  }

  lemma OnlyRecord(q: int, trace: seq<P.State>, steps: seq<P.Step>, k: nat, id: nat, m: nat, other: Envelope)
    requires P.Run(q, trace, steps) && k < |steps| && steps[k].Enqueue? && OnlyAt(steps, k, id) && m < |trace|
    requires E.InRecords(trace[m].log, other) && other.eventId == Uuid(id)
    ensures other == steps[k].env
  {
    E.RunOrigins(q, trace, steps, m);
    if E.Enqueues(steps, m, other) {
      var i :| 0 <= i < m && i < |steps| && steps[i].Enqueue? && steps[i].env == other;
      assert i == k;
    }
  }

  /** Once the protocol is at rest, every announced event has been followed by a rebuild of its user's
      vector, unless there was nothing to build from. */
  lemma AnnouncedIsRebuilt(cfg: Config, trace: seq<State>, steps: seq<Step>, k: nat, user: nat) returns (m: nat)
    requires Run(cfg, trace, steps) && E.OutboxSent(trace[|steps|].pipe) && E.Quiet(trace[|steps|].pipe)
    requires user in trace[0].pipe.db.users && Undisturbed(steps, user) && Announces(cfg, steps, k, user)
    ensures k < m < |steps| && (Canonical(trace[m], user) != [] ==> RebuildsAt(trace, steps, m, user))
  {
    var q, pipes, moves := cfg.qualifiedMs, Pipes(trace), PipeSteps(steps);
    var env := moves[k].env;
    var id := env.eventId.id;
    PipesRun(cfg, trace, steps);
    NoReceiptBefore(q, pipes, moves, k, id);
    ReceiptAtRest(q, pipes, moves, pipes[|moves|], k, id);
    m := Crossing(pipes, k, |moves|, id);
    assert Moves(cfg, trace[m], steps[m], trace[m + 1]);
    P.EveryRunIsSafe(q, pipes, moves, m);
    UserStays(cfg, trace, steps, m, user);
    forall other | E.InRecords(pipes[m].log, other) && other.eventId == Uuid(id) ensures other == env {
      OnlyRecord(q, pipes, moves, k, id, m, other);
    }
    if Canonical(trace[m], user) != [] {
      ClaimingTurnRebuilds(cfg, trace[m], steps[m], env, id, user);
    }
    var found := FirstReceipt(q, pipes[m], moves[m], id);
    assert m != k;
  }

  // ---------------------------------------------------------------- what the user's rows do

  predicate OfUser(rows: seq<Row>, user: nat)
  {
    exists i :: 0 <= i < |rows| && rows[i].user == user
  }

  predicate WritesOf(step: Step, user: nat)
  {
    step.also.Writes? && OfUser(step.also.rows, user)
  }

  lemma {:induction false} JoinedAppend(a: seq<Row>, b: seq<Row>, posts: map<nat, PostRow>, user: nat)
    ensures Joined(a + b, posts, user) == Joined(a, posts, user) + Joined(b, posts, user)
    decreases |b|
  {
    if b == [] {
      assert a + b == a;
    } else {
      var init, last := b[..|b| - 1], b[|b| - 1];
      JoinedAppend(a, init, posts, user);
      assert (a + b)[..|a + b| - 1] == a + init;
    }
  }

  lemma {:induction false} NoneJoined(rows: seq<Row>, posts: map<nat, PostRow>, user: nat)
    requires !OfUser(rows, user)
    ensures Joined(rows, posts, user) == []
    decreases |rows|
  {
    if rows != [] {
      var init := rows[..|rows| - 1];
      assert forall i | 0 <= i < |init| :: init[i] == rows[i];
      NoneJoined(init, posts, user);
    }
  }

  lemma {:induction false} KeptJoined(rows: seq<Row>, users: set<nat>, posts: map<nat, PostRow>, user: nat)
    requires user !in users
    ensures Joined(Kept(rows, users, {}), posts, user) == Joined(rows, posts, user)
    decreases |rows|
  {
    if rows != [] {
      var init, last := rows[..|rows| - 1], rows[|rows| - 1];
      var kept := Kept(init, users, {});
      KeptJoined(init, users, posts, user);
      assert (kept + [last])[..|kept|] == kept && kept + [] == kept;
      assert Kept(rows, users, {}) == kept + if last.user !in users then [last] else [];
    }
  }

  /** A step that neither writes a row of the user nor removes or edits anything leaves its events alone. */
  lemma StepKeepsEvents(cfg: Config, s: State, step: Step, user: nat)
    requires Enabled(cfg, s, step) && !WritesOf(step, user) && user in s.pipe.db.users
    requires E.LeavesAlone(step.pipe, user) && !step.also.Purges?
    ensures Canonical(Apply(cfg, s, step), user) == Canonical(s, user)
  {
    var posts := s.pipe.db.posts;
    E.UsersStay(cfg.qualifiedMs, s.pipe, step.pipe, user);
    if step.also.Writes? {
      JoinedAppend(s.rows, step.also.rows, posts, user);
      NoneJoined(step.also.rows, posts, user);
    } else if step.also.Nothing? {
      KeptJoined(s.rows, if step.pipe.DeleteUser? then {step.pipe.user} else {}, posts, user);
    }
  }

  ghost predicate NoWrites(steps: seq<Step>, start: nat, end: nat, user: nat)
  {
    forall i | start <= i < end && i < |steps| :: !WritesOf(steps[i], user)
  }

  lemma RunKeepsEvents(cfg: Config, trace: seq<State>, steps: seq<Step>, n: nat, user: nat)
    requires Run(cfg, trace, steps) && user in trace[0].pipe.db.users && Undisturbed(steps, user)
    requires n < |steps| && !WritesOf(steps[n], user)
    ensures Canonical(trace[n + 1], user) == Canonical(trace[n], user)
  {
    UserStays(cfg, trace, steps, n, user);
    assert Moves(cfg, trace[n], steps[n], trace[n + 1]);
    StepKeepsEvents(cfg, trace[n], steps[n], user);
  }

  ghost predicate SameAcross(trace: seq<State>, i: nat, user: nat)
  {
    i + 1 < |trace| && Canonical(trace[i + 1], user) == Canonical(trace[i], user)
  }

  lemma {:induction false} Steady(trace: seq<State>, start: nat, end: nat, user: nat)
    requires start <= end < |trace| && forall i | start <= i < end :: SameAcross(trace, i, user)
    ensures Canonical(trace[end], user) == Canonical(trace[start], user)
    decreases end
  {
    if start < end {
      Steady(trace, start, end - 1, user);
      assert SameAcross(trace, end - 1, user);
    }
  }

  lemma SameEvents(cfg: Config, trace: seq<State>, steps: seq<Step>, start: nat, end: nat, user: nat)
    requires Run(cfg, trace, steps) && user in trace[0].pipe.db.users && Undisturbed(steps, user)
    requires start <= end < |trace| && NoWrites(steps, start, end, user)
    ensures Canonical(trace[end], user) == Canonical(trace[start], user)
  {
    forall i | start <= i < end ensures SameAcross(trace, i, user) {
      RunKeepsEvents(cfg, trace, steps, i, user);
    }
    Steady(trace, start, end, user);
  }

  lemma {:induction false} LastWrite(steps: seq<Step>, n: nat, user: nat) returns (w: int)
    requires n <= |steps|
    ensures -1 <= w < n && (w >= 0 ==> WritesOf(steps[w], user)) && NoWrites(steps, w + 1, n, user)
  {
    if n == 0 {
      w := -1;
    } else if WritesOf(steps[n - 1], user) {
      w := n - 1;
    } else {
      w := LastWrite(steps, n - 1, user);
    }
  }

  lemma {:induction false} LastAfter(trace: seq<State>, steps: seq<Step>, n: nat, user: nat, m: nat) returns (last: nat)
    requires n <= |steps| && m < n && RebuildsAt(trace, steps, m, user)
    ensures m <= last && LastRebuild(trace, steps, n, user, last)
    decreases n
  {
    if RebuildsAt(trace, steps, n - 1, user) {
      last := n - 1;
    } else {
      last := LastAfter(trace, steps, n - 1, user, m);
    }
  }

  // ---------------------------------------------------------------- the theorems

  /** Every step that writes rows of the user is, or is followed by, one that announces an event of the
      user. */
  ghost predicate EveryWriteAnnounced(cfg: Config, steps: seq<Step>, user: nat)
  {
    forall w | 0 <= w < |steps| && WritesOf(steps[w], user) ::
      exists k :: w <= k && Announces(cfg, steps, k, user)
  }

  ghost predicate Current(cfg: Config, s: State, user: nat)
  {
    user in s.v2 && IsVectorOf(cfg, Canonical(s, user), s.v2[user])
  }

  /** With every write of the user's announced, the stored vector at rest is the build of all the user's
      canonical rows. */
  lemma CurrentAtRest(cfg: Config, trace: seq<State>, steps: seq<Step>, s: State, user: nat)
    requires Run(cfg, trace, steps) && s == trace[|steps|] && E.OutboxSent(s.pipe) && E.Quiet(s.pipe)
    requires user in trace[0].pipe.db.users && Undisturbed(steps, user) && EveryWriteAnnounced(cfg, steps, user)
    ensures Canonical(s, user) != [] ==> Current(cfg, s, user)
  {
    var n := |steps|;
    var w := LastWrite(steps, n, user);
    SameEvents(cfg, trace, steps, w + 1, n, user);
    if w < 0 {
      assert Canonical(trace[0], user) == [];
    } else if Canonical(s, user) != [] {
      var k :| w <= k && Announces(cfg, steps, k, user);
      var m := AnnouncedIsRebuilt(cfg, trace, steps, k, user);
      SameEvents(cfg, trace, steps, w + 1, m, user);
      var last := LastAfter(trace, steps, n, user, m);
      SameEvents(cfg, trace, steps, w + 1, last, user);
      StoredVectorIsLastRebuild(cfg, trace, steps, n);
      UserStays(cfg, trace, steps, n, user);
      assert VectorIsAsOf(cfg, trace, n, user, last);
    }
  }

  lemma OneVector(cfg: Config, events: seq<R.PreferenceEvent>, v: V.PreferenceVectorV2, w: V.PreferenceVectorV2)
    requires IsVectorOf(cfg, events, v) && IsVectorOf(cfg, events, w)
    ensures v == w
  {
    var u := V.Unique(events, v.referenceAt);
    V.ChannelsEqual(v.positive, w.positive, u, v.referenceAt, cfg.params, true);
    V.ChannelsEqual(v.negative, w.negative, u, v.referenceAt, cfg.params, false);
  }

  /** In every state of every run a living user's vector, last rebuilt in step `m`, is current exactly when
      the events of that moment and those of now build one vector. */
  lemma CurrentIff(cfg: Config, trace: seq<State>, steps: seq<Step>, n: nat, user: nat, m: nat)
    requires Run(cfg, trace, steps) && n < |trace| && user in trace[n].pipe.db.users
    requires LastRebuild(trace, steps, n, user, m)
    ensures Current(cfg, trace[n], user)
       <==> exists v :: IsVectorOf(cfg, Canonical(trace[m], user), v) && IsVectorOf(cfg, Canonical(trace[n], user), v)
  {
    StoredVectorIsLastRebuild(cfg, trace, steps, n);
    assert VectorIsAsOf(cfg, trace, n, user, m);
    var stored := trace[n].v2[user];
    if v :| IsVectorOf(cfg, Canonical(trace[m], user), v) && IsVectorOf(cfg, Canonical(trace[n], user), v) {
      OneVector(cfg, Canonical(trace[m], user), stored, v);
    }
  }

  /** A row dated after the vector's reference outdates it as soon as it is written: until an event other
      than `view_observed` is applied, the vector is not what a rebuild would give. */
  lemma NewerRowOutdates(cfg: Config, s: State, step: Step, row: Row, user: nat)
    requires Enabled(cfg, s, step) && step.also.Writes? && row in step.also.rows
    requires row.user == user && row.post in s.pipe.db.posts && user in s.v2 && row.occurredAt > s.v2[user].referenceAt
    ensures user in Apply(cfg, s, step).v2 && !Current(cfg, Apply(cfg, s, step), user)
  {
    var s', posts := Apply(cfg, s, step), s.pipe.db.posts;
    JoinedAppend(s.rows, step.also.rows, posts, user);
    JoinedHolds(step.also.rows, posts, user, row);
    assert EventOf(row, posts[row.post]) in Canonical(s', user);
    NewerIsNoBuild(cfg, Canonical(s', user), EventOf(row, posts[row.post]), s.v2[user]);
  }

  lemma {:induction false} JoinedHolds(rows: seq<Row>, posts: map<nat, PostRow>, user: nat, row: Row)
    requires row in rows && row.user == user && row.post in posts
    ensures EventOf(row, posts[row.post]) in Joined(rows, posts, user)
    decreases |rows|
  {
    var init, last := rows[..|rows| - 1], rows[|rows| - 1];
    assert rows == init + [last];
    if row != last {
      JoinedHolds(init, posts, user, row);
    }
  }

  lemma NewerIsNoBuild(cfg: Config, events: seq<R.PreferenceEvent>, e: R.PreferenceEvent, v: V.PreferenceVectorV2)
    requires e in events && e.occurredAt > v.referenceAt
    ensures !IsVectorOf(cfg, events, v)
  {
    assert V.LatestTime(events) >= e.occurredAt;
  }
}
