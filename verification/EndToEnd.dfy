/** From the toggle to the stored vector: once the delivery protocol has come to rest after enqueueing
    what the toggles put in the outbox, the user's vector is what the interaction rows say. */
module EndToEnd {
  import opened Collections
  import opened Options
  import opened TopicVectors
  import opened FeatureWorker
  import opened Pipeline
  import T = Toggles
  import opened ToggleVectors

  // ---------------------------------------------------------------- where claims come from

  /** The claim is the one this record makes while the posts are `posts`. */
  predicate RecordClaim(q: int, posts: map<nat, PostRow>, env: Envelope, c: Claim)
  {
    && env.eventId == Uuid(c.id) && RoutedTo(env, c.user, q)
    && c.eventType == env.eventType && c.topics == ResolveTopics(posts, env.postId)
  }

  ghost predicate InRecords(log: Log, env: Envelope)
  {
    exists p, i :: 0 <= p < |log| && 0 <= i < |log[p]| && log[p][i] == Some(env)
  }

  ghost predicate Recorded(q: int, log: Log, posts: map<nat, PostRow>, c: Claim)
  {
    exists env :: InRecords(log, env) && RecordClaim(q, posts, env, c)
  }

  /** While the posts stay as they are and `user` exists, every claim is some record's, and the user's are
      applied. */
  ghost predicate ClaimsInv(q: int, s: State, posts: map<nat, PostRow>, user: nat)
  {
    && s.db.posts == posts && user in s.db.users
    && (forall c | c in s.db.claims :: Recorded(q, s.log, posts, c))
    && (forall c | c in s.db.claims && c.user == user :: c.applied)
  }

  ghost predicate LeavesAlone(step: Step, user: nat)
  {
    !step.EditPosts? && !(step.DeleteUser? && step.user == user)
  }

  lemma RecordsGrow(q: int, s: State, step: Step, env: Envelope)
    requires Enabled(q, s, step) && InRecords(s.log, env)
    ensures InRecords(Apply(q, s, step).log, env)
  {
    var p, i :| 0 <= p < |s.log| && 0 <= i < |s.log[p]| && s.log[p][i] == Some(env);
    assert Apply(q, s, step).log[p][i] == Some(env);
  }

  lemma ClaimStays(q: int, s: State, step: Step, posts: map<nat, PostRow>, c: Claim)
    requires Enabled(q, s, step) && Recorded(q, s.log, posts, c)
    ensures Recorded(q, Apply(q, s, step).log, posts, c)
  {
    var env :| InRecords(s.log, env) && RecordClaim(q, posts, env, c);
    RecordsGrow(q, s, step, env);
  }

  lemma HeldIsRecorded(q: int, s: State, env: Envelope)
    requires Inv(q, s) && s.phase.Flushing? && s.phase.pending != [] && env in s.phase.pending[0].events
    ensures InRecords(s.log, env)
  {
    assert EventsOf(s.phase.pending) == s.phase.pending[0].events + EventsOf(s.phase.pending[1..]);
    assert env in InFlight(s);
    assert Delivered(s, env);
  }

  /** A turn's new claims are those of its records. */
  lemma NewClaim(q: int, s: State, outcome: Outcome, c: Claim)
    requires Inv(q, s) && Enabled(q, s, SettleUser(outcome)) && !outcome.RolledBack?
    requires c in Apply(q, s, SettleUser(outcome)).db.claims && c !in s.db.claims
    ensures Recorded(q, s.log, s.db.posts, c) && (c.applied <==> c.user in s.db.users)
  {
    var b := s.phase.pending[0];
    assert BatchWellRouted(b, q);
    WellRoutedIdentified(b, q);
    var news := Fresh(s.db.receipts, b.events);
    assert c in s.db.claims + MakeClaims(s.db, b.user, news);
    var i :| 0 <= i < |news| && MakeClaims(s.db, b.user, news)[i] == c;
    assert news[i] in news;
    HeldIsRecorded(q, s, news[i]);
    assert RecordClaim(q, s.db.posts, news[i], c);
  }

  lemma OtherStepsKeepClaims(q: int, s: State, step: Step)
    requires Enabled(q, s, step) && !(step.SettleUser? && !step.outcome.RolledBack?)
    ensures Apply(q, s, step).db.claims == s.db.claims
  {
  }

  lemma UsersStay(q: int, s: State, step: Step, user: nat)
    requires Enabled(q, s, step) && LeavesAlone(step, user) && user in s.db.users
    ensures user in Apply(q, s, step).db.users && Apply(q, s, step).db.posts == s.db.posts
  {
  }

  lemma StepKeepsClaims(q: int, s: State, step: Step, posts: map<nat, PostRow>, user: nat)
    requires Inv(q, s) && Enabled(q, s, step) && ClaimsInv(q, s, posts, user) && LeavesAlone(step, user)
    ensures ClaimsInv(q, Apply(q, s, step), posts, user)
  {
    var s' := Apply(q, s, step);
    UsersStay(q, s, step, user);
    if !(step.SettleUser? && !step.outcome.RolledBack?) {
      OtherStepsKeepClaims(q, s, step);
    }
    forall c | c in s'.db.claims ensures Recorded(q, s'.log, posts, c) && (c.user == user ==> c.applied) {
      if c in s.db.claims {
        ClaimStays(q, s, step, posts, c);
      } else {
        NewClaim(q, s, step.outcome, c);
        ClaimStays(q, s, step, posts, c);
      }
    }
  }

  ghost predicate QuietFor(steps: seq<Step>, user: nat)
  {
    forall i | 0 <= i < |steps| :: LeavesAlone(steps[i], user)
  }

  lemma {:induction false} RunKeepsClaims(q: int, trace: seq<State>, steps: seq<Step>, n: nat, user: nat)
    requires Run(q, trace, steps) && n < |trace| && user in trace[0].db.users && QuietFor(steps, user)
    ensures ClaimsInv(q, trace[n], trace[0].db.posts, user)
  {
    if n > 0 {
      RunKeepsClaims(q, trace, steps, n - 1, user);
      EveryRunIsSafe(q, trace, steps, n - 1);
      StepKeepsClaims(q, trace[n - 1], steps[n - 1], trace[0].db.posts, user);
    }
  }

  // ---------------------------------------------------------------- the toggles' claims

  /** The topics a post counts under while the posts are `posts`. */
  function TopicsIn(posts: map<nat, PostRow>): nat -> seq<string>
  {
    (post: nat) => ResolveTopics(posts, Some(post))
  }

  /** The log holds what the toggles put in the outbox: every envelope of the user's, no other record
      routed to that user, and no other record with the event id of one of them. */
  ghost predicate CarriesToggles(q: int, log: Log, t: T.Tables, user: nat)
  {
    && (forall e | e in t.log && e.key.user == user :: InRecords(log, T.EnvelopeOf(e)))
    && (forall env | InRecords(log, env) && RoutedTo(env, user, q) ::
          exists e :: e in t.log && e.key.user == user && env == T.EnvelopeOf(e))
    && (forall e, env | e in t.log && e.key.user == user && InRecords(log, env) && env.eventId == Uuid(e.id) ::
          env == T.EnvelopeOf(e))
  }

  ghost predicate Quiet(s: State)
  {
    |s.committed| == |s.log| && forall p | 0 <= p < |s.log| :: s.committed[p] == |s.log[p]|
  }

  lemma EnvelopeRouted(q: int, e: T.LogEvent)
    ensures Classify(T.EnvelopeOf(e), q) == Routed(e.key.user, e.id)
  {
  }

  /** A record's claim on a toggle is the toggle's claim. */
  lemma ToggleClaim(q: int, posts: map<nat, PostRow>, e: T.LogEvent, c: Claim)
    requires RecordClaim(q, posts, T.EnvelopeOf(e), c) && c.applied
    ensures c == ClaimOf(e, TopicsIn(posts))
  {
    EnvelopeRouted(q, e);
  }

  lemma AppliedIsToggle(q: int, s: State, posts: map<nat, PostRow>, t: T.Tables, user: nat, c: Claim)
    requires ClaimsInv(q, s, posts, user) && CarriesToggles(q, s.log, t, user) && c in s.db.claims && c.user == user
    ensures exists e :: e in t.log && e.key.user == user && c == ClaimOf(e, TopicsIn(posts))
  {
    var env :| InRecords(s.log, env) && RecordClaim(q, posts, env, c);
    var e :| e in t.log && e.key.user == user && env == T.EnvelopeOf(e);
    ToggleClaim(q, posts, e, c);
  }

  lemma ToggleIsApplied(q: int, s: State, posts: map<nat, PostRow>, t: T.Tables, user: nat, e: T.LogEvent)
    requires Inv(q, s) && Quiet(s) && ClaimsInv(q, s, posts, user) && CarriesToggles(q, s.log, t, user)
    requires e in t.log && e.key.user == user
    ensures ClaimOf(e, TopicsIn(posts)) in s.db.claims
  {
    var env := T.EnvelopeOf(e);
    EnvelopeRouted(q, e);
    var p, i :| 0 <= p < |s.log| && 0 <= i < |s.log[p]| && s.log[p][i] == Some(env);
    assert Settled(q, s.db.receipts, s.log[p][i]);
    assert e.id in s.db.receipts;
    var c :| c in s.db.claims && c.id == e.id;
    assert Recorded(q, s.log, posts, c);
    var other :| InRecords(s.log, other) && RecordClaim(q, posts, other, c);
    assert other == env;
    ToggleClaim(q, posts, e, c);
  }

  lemma {:induction false} AppliedMembers(claims: seq<Claim>, user: nat, c: Claim)
    ensures c in AppliedTo(claims, user) <==> c in claims && c.user == user && c.applied
    decreases |claims|
  {
    if claims != [] {
      AppliedMembers(claims[1..], user, c);
      assert claims == [claims[0]] + claims[1..];
    }
  }

  lemma {:induction false} AppliedDistinct(claims: seq<Claim>, user: nat)
    requires DistinctIds(claims)
    ensures Distinct(AppliedTo(claims, user))
    decreases |claims|
  {
    if claims != [] {
      assert forall c | c in claims[1..] :: c.id != claims[0].id;
      AppliedDistinct(claims[1..], user);
      var rest := AppliedTo(claims[1..], user);
      forall i | 0 <= i < |rest| ensures rest[i] != claims[0] {
        assert rest[i] in rest;
        AppliedMembers(claims[1..], user, rest[i]);
      }
    }
  }

  lemma {:induction false} ToggleClaimMembers(log: seq<T.LogEvent>, user: nat, topicsOf: nat -> seq<string>, c: Claim)
    ensures c in UserClaims(log, user, ALL_KINDS, topicsOf)
       <==> exists e :: e in log && e.key.user == user && c == ClaimOf(e, topicsOf)
    decreases |log|
  {
    if log != [] {
      var init, last := log[..|log| - 1], log[|log| - 1];
      ToggleClaimMembers(init, user, topicsOf, c);
      assert forall e :: e in log <==> e in init || e == last;
    }
  }

  lemma {:induction false} ToggleClaimsDistinct(log: seq<T.LogEvent>, user: nat, topicsOf: nat -> seq<string>)
    requires forall i, j | 0 <= i < j < |log| :: log[i].id != log[j].id
    ensures Distinct(UserClaims(log, user, ALL_KINDS, topicsOf))
    decreases |log|
  {
    if log != [] {
      var init, last := log[..|log| - 1], log[|log| - 1];
      ToggleClaimsDistinct(init, user, topicsOf);
      var claims := UserClaims(init, user, ALL_KINDS, topicsOf);
      forall i | 0 <= i < |claims| ensures claims[i].id != last.id {
        assert claims[i] in claims;
        ToggleClaimMembers(init, user, topicsOf, claims[i]);
      }
    }
  }

  // ---------------------------------------------------------------- where records come from

  ghost predicate Enqueues(steps: seq<Step>, n: nat, env: Envelope)
  {
    exists i :: 0 <= i < n && i < |steps| && steps[i].Enqueue? && steps[i].env == env
  }

  ghost predicate Foreign(steps: seq<Step>, n: nat, env: Envelope)
  {
    exists i :: 0 <= i < n && i < |steps| && steps[i].ForeignRecord? && steps[i].record == Some(env)
  }

  /** After the first `n` steps: outbox rows and records come from those steps, and every id enqueued is
      remembered. */
  ghost predicate OriginInv(steps: seq<Step>, n: nat, s: State)
  {
    && (forall id | id in s.outbox :: Enqueues(steps, n, s.outbox[id].env))
    && (forall env | InRecords(s.log, env) :: Enqueues(steps, n, env) || Foreign(steps, n, env))
    && (forall i | 0 <= i < n && i < |steps| && steps[i].Enqueue? :: steps[i].id in s.enqueued)
  }

  lemma EarlierSteps(steps: seq<Step>, n: nat, env: Envelope)
    ensures Enqueues(steps, n, env) ==> Enqueues(steps, n + 1, env)
    ensures Foreign(steps, n, env) ==> Foreign(steps, n + 1, env)
  {
  }

  lemma AppendedRecords(log: Log, p: nat, record: Option<Envelope>, env: Envelope)
    requires p < |log| && InRecords(Append(log, p, record), env)
    ensures InRecords(log, env) || record == Some(env)
  {
    var log' := Append(log, p, record);
    var r, i :| 0 <= r < |log'| && 0 <= i < |log'[r]| && log'[r][i] == Some(env);
    assert (r == p && i == |log[p]|) || (i < |log[r]| && log[r][i] == Some(env));
  }

  lemma RecordOrigin(q: int, steps: seq<Step>, n: nat, s: State, env: Envelope)
    requires n < |steps| && OriginInv(steps, n, s) && Enabled(q, s, steps[n])
    requires InRecords(Apply(q, s, steps[n]).log, env)
    ensures Enqueues(steps, n + 1, env) || Foreign(steps, n + 1, env)
  {
    var step := steps[n];
    EarlierSteps(steps, n, env);
    if step.Ack? {
      var row := s.outbox[s.holds[step.dispatcher].id];
      AppendedRecords(s.log, row.partition, Some(row.env), env);
    } else if step.ForeignRecord? {
      AppendedRecords(s.log, step.partition, step.record, env);
    }
  }

  lemma RowOrigin(q: int, steps: seq<Step>, n: nat, s: State, id: nat)
    requires n < |steps| && OriginInv(steps, n, s) && Enabled(q, s, steps[n])
    requires id in Apply(q, s, steps[n]).outbox
    ensures Enqueues(steps, n + 1, Apply(q, s, steps[n]).outbox[id].env)
  {
    if id in s.outbox {
      assert Apply(q, s, steps[n]).outbox[id].env == s.outbox[id].env;
      EarlierSteps(steps, n, s.outbox[id].env);
    } else {
      assert steps[n].Enqueue? && steps[n].id == id;
    }
  }

  lemma {:induction false} RunOrigins(q: int, trace: seq<State>, steps: seq<Step>, n: nat)
    requires Run(q, trace, steps) && n < |trace|
    ensures OriginInv(steps, n, trace[n])
  {
    if n > 0 {
      RunOrigins(q, trace, steps, n - 1);
      StepKeepsOrigins(q, steps, n - 1, trace[n - 1]);
    }
  }

  lemma StepKeepsOrigins(q: int, steps: seq<Step>, n: nat, s: State)
    requires n < |steps| && OriginInv(steps, n, s) && Enabled(q, s, steps[n])
    ensures OriginInv(steps, n + 1, Apply(q, s, steps[n]))
  {
    var s' := Apply(q, s, steps[n]);
    forall id | id in s'.outbox ensures Enqueues(steps, n + 1, s'.outbox[id].env) {
      RowOrigin(q, steps, n, s, id);
    }
    forall env | InRecords(s'.log, env) ensures Enqueues(steps, n + 1, env) || Foreign(steps, n + 1, env) {
      RecordOrigin(q, steps, n, s, env);
    }
    KnownStays(q, s, steps[n]);
  }

  lemma KnownStays(q: int, s: State, step: Step)
    requires Enabled(q, s, step)
    ensures s.enqueued <= Apply(q, s, step).enqueued
    ensures step.Enqueue? ==> step.id in Apply(q, s, step).enqueued
  {
  }

  ghost predicate Produced(steps: seq<Step>, env: Envelope)
  {
    Enqueues(steps, |steps|, env) || Foreign(steps, |steps|, env)
  }

  /** The steps enqueue what the toggles put in the outbox for the user; nothing else that the steps
      enqueue, and no foreign record, routes to the user or has the event id of one of those toggles. */
  ghost predicate EnqueuesToggles(q: int, steps: seq<Step>, t: T.Tables, user: nat)
  {
    && (forall e | e in t.log && e.key.user == user :: Enqueues(steps, |steps|, T.EnvelopeOf(e)))
    && (forall env | Produced(steps, env) && RoutedTo(env, user, q) ::
          exists e :: e in t.log && e.key.user == user && env == T.EnvelopeOf(e))
    && (forall e, env | e in t.log && e.key.user == user && Produced(steps, env) && env.eventId == Uuid(e.id) ::
          env == T.EnvelopeOf(e))
  }

  ghost predicate OutboxSent(s: State)
  {
    forall id | id in s.outbox :: s.outbox[id].sent
  }

  /** Once the outbox is sent, the log carries the toggles. */
  lemma SentOutboxCarriesToggles(q: int, trace: seq<State>, steps: seq<Step>, s: State, t: T.Tables, user: nat)
    requires Run(q, trace, steps) && s == trace[|steps|] && OutboxSent(s) && EnqueuesToggles(q, steps, t, user)
    ensures CarriesToggles(q, s.log, t, user)
  {
    RunOrigins(q, trace, steps, |steps|);
    EveryRunIsSafe(q, trace, steps, |steps|);
    forall env | InRecords(s.log, env) ensures Produced(steps, env) {}
    forall e | e in t.log && e.key.user == user ensures InRecords(s.log, T.EnvelopeOf(e)) {
      EnqueuedIsRecorded(q, trace, steps, s, T.EnvelopeOf(e), e.id);
    }
  }

  lemma EnqueuedIsRecorded(q: int, trace: seq<State>, steps: seq<Step>, s: State, env: Envelope, id: nat)
    requires Run(q, trace, steps) && s == trace[|steps|] && OutboxSent(s) && OriginInv(steps, |steps|, s)
    requires NothingLostBeforeKafka(s) && Enqueues(steps, |steps|, env) && env.eventId == Uuid(id)
    requires forall other | Produced(steps, other) && other.eventId == Uuid(id) :: other == env
    ensures InRecords(s.log, env)
  {
    var i :| 0 <= i < |steps| && steps[i].Enqueue? && steps[i].env == env;
    assert Enabled(q, trace[i], steps[i]);
    assert steps[i].id == id && id in s.enqueued && InLog(s.log, id);
    var p, k :| 0 <= p < |s.log| && 0 <= k < |s.log[p]| && Pipeline.Carries(s.log[p][k], id);
    assert InRecords(s.log, s.log[p][k].value);
  }

  // ---------------------------------------------------------------- the theorem

  lemma SameClaims(q: int, s: State, posts: map<nat, PostRow>, t: T.Tables, user: nat)
    requires Inv(q, s) && Quiet(s) && ClaimsInv(q, s, posts, user) && CarriesToggles(q, s.log, t, user)
    requires forall i, j | 0 <= i < j < |t.log| :: t.log[i].id != t.log[j].id
    ensures multiset(AppliedTo(s.db.claims, user)) == multiset(UserClaims(t.log, user, ALL_KINDS, TopicsIn(posts)))
  {
    var a, b := AppliedTo(s.db.claims, user), UserClaims(t.log, user, ALL_KINDS, TopicsIn(posts));
    forall c ensures c in a <==> c in b {
      AppliedMembers(s.db.claims, user, c);
      ToggleClaimMembers(t.log, user, TopicsIn(posts), c);
      if c in a {
        AppliedIsToggle(q, s, posts, t, user, c);
      }
      if c in b {
        var e :| e in t.log && e.key.user == user && c == ClaimOf(e, TopicsIn(posts));
        ToggleIsApplied(q, s, posts, t, user, e);
      }
    }
    AppliedDistinct(s.db.claims, user);
    ToggleClaimsDistinct(t.log, user, TopicsIn(posts));
    SameSetDistinct(a, b);
  }

  /** End to end: after any run of toggles, and any run of the protocol that enqueued what they put in the
      outbox, left the posts and the user in place, and came to rest with the outbox sent and the offsets
      committed, the user's stored vector weighs each topic as the user's rows do, plus what unhides
      failed to take back; exactly as the rows if none bore on the topic. */
  lemma StoredVectorIsTheRows(
      q: int, trace: seq<State>, steps: seq<Step>, s: State, existing: set<nat>, requests: seq<T.Request>, user: nat,
      topic: string)
    requires Run(q, trace, steps) && s == trace[|steps|] && OutboxSent(s) && Quiet(s)
    requires user in trace[0].db.users && QuietFor(steps, user)
    requires forall i, j | 0 <= i < j < |requests| :: requests[i].id != requests[j].id
    requires EnqueuesToggles(q, steps, T.RunAll(T.Empty(existing), requests), user)
    ensures var t, topicsOf := T.RunAll(T.Empty(existing), requests), TopicsIn(s.db.posts);
            var weight, rows := Get(VectorOf(s.db, user), topic),
                SumRows(UserRows(t.rows, user, ALL_KINDS), topicsOf, topic);
            && weight == rows + Residue(t.log, user, ALL_KINDS, topicsOf, topic)
            && (weight == rows <==> forall e | e in t.log :: !Unhides(e, user, topicsOf, topic))
  {
    var t := T.RunAll(T.Empty(existing), requests);
    var posts := trace[0].db.posts;
    RunKeepsClaims(q, trace, steps, |steps|, user);
    EveryRunIsSafe(q, trace, steps, |steps|);
    LogOrderDistinct(existing, requests);
    SentOutboxCarriesToggles(q, trace, steps, s, t, user);
    SameClaims(q, s, posts, t, user);
    VectorOfClaims(s.db, user, UserClaims(t.log, user, ALL_KINDS, TopicsIn(posts)), topic);
    DeltasLeaveRowsAndResidue(existing, requests, user, ALL_KINDS, TopicsIn(posts), topic);
    ResidueIff(t.log, user, TopicsIn(posts), topic);
  }

  lemma VectorOfClaims(db: Db, user: nat, claims: seq<Claim>, topic: string)
    requires LedgerInv(db) && user in db.users && multiset(AppliedTo(db.claims, user)) == multiset(claims)
    ensures Get(VectorOf(db, user), topic) == Total(claims, topic)
  {
    ClaimOrderIrrelevant(AppliedTo(db.claims, user), claims, topic);
    FoldIsTotal(map[], claims, topic);
  }

  lemma {:induction false} LogOrderDistinct(existing: set<nat>, requests: seq<T.Request>)
    requires forall i, j | 0 <= i < j < |requests| :: requests[i].id != requests[j].id
    ensures var log := T.RunAll(T.Empty(existing), requests).log;
            && (forall e | e in log :: exists r :: r in requests && r.id == e.id)
            && forall i, j | 0 <= i < j < |log| :: log[i].id != log[j].id
    decreases |requests|
  {
    if requests != [] {
      var init, r := requests[..|requests| - 1], requests[|requests| - 1];
      LogOrderDistinct(existing, init);
      var log := T.RunAll(T.Empty(existing), init).log;
      assert requests == init + [r];
      forall e | e in log ensures e.id != r.id && exists r' :: r' in requests && r'.id == e.id {
        var r' :| r' in init && r'.id == e.id;
        assert r' in requests;
      }
      assert forall i | 0 <= i < |log| :: log[i] in log;
    }
  }
}
