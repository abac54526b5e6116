/** The delivery protocol from a committed outbox row to the preference vector, as a step machine:
    several dispatchers, a partitioned log, one worker, and every crash and resend between them. */
module Pipeline {
  import opened Options
  import opened FeatureWorker
  import opened WorkerRuntime

  /** A row of the outbox table; `sent` is `sent_at IS NOT NULL`. */
  datatype OutboxRow = OutboxRow(env: Envelope, partition: nat, sent: bool)

  /** A dispatcher's open transaction: the row it has locked, and whether Kafka acknowledged it. */
  datatype Hold = Hold(id: nat, acked: bool)

  datatype Phase = Idle | Flushing(pending: seq<Batch>, failed: seq<Envelope>) | Committing

  type Log = seq<seq<Option<Envelope>>>

  /** `enqueued` and `known` are history: every id ever put in the outbox, every user ever created. */
  datatype State = State(
    enqueued: set<nat>,
    outbox: map<nat, OutboxRow>,
    holds: map<nat, Hold>,
    log: Log,
    position: seq<nat>,
    committed: seq<nat>,
    buffer: seq<Envelope>,
    phase: Phase,
    db: Db,
    known: set<nat>)

  datatype Step =
    | Enqueue(id: nat, env: Envelope, partition: nat)
    | Lock(dispatcher: nat, id: nat)
    | Ack(dispatcher: nat)
    | MarkSent(dispatcher: nat)
    | Reject(dispatcher: nat)
    | DispatcherCrash(dispatcher: nat)
    | Cleanup(ids: set<nat>)
    | ForeignRecord(record: Option<Envelope>, partition: nat)
    | Poll(counts: seq<nat>)
    | BeginFlush
    | SettleUser(outcome: Outcome)
    | EndFlush
    | Commit
    | WorkerCrash
    | EditPosts(posts: map<nat, PostRow>)
    | Register(user: nat)
    | DeleteUser(user: nat)

  // ---------------------------------------------------------------- the steps

  ghost predicate CanPoll(s: State, counts: seq<nat>)
  {
    && |counts| == |s.log| == |s.position|
    && forall p | 0 <= p < |s.log| :: s.position[p] + counts[p] <= |s.log[p]|
  }

  ghost function Fetched(s: State, counts: seq<nat>): seq<seq<Option<Envelope>>>
    requires CanPoll(s, counts)
  {
    seq(|s.log|, p requires 0 <= p < |s.log| => s.log[p][s.position[p]..s.position[p] + counts[p]])
  }

  ghost function Append(log: Log, p: nat, record: Option<Envelope>): Log
    requires p < |log|
  {
    log[p := log[p] + [record]]
  }

  ghost predicate Enabled(q: int, s: State, step: Step)
  {
    match step
    case Enqueue(id, env, p) => env.eventId == Uuid(id) && p < |s.log|
    case Lock(d, id) =>
      && d !in s.holds && id in s.outbox && !s.outbox[id].sent
      && forall d' | d' in s.holds :: s.holds[d'].id != id
    case Ack(d) => d in s.holds && s.holds[d].id in s.outbox && s.outbox[s.holds[d].id].partition < |s.log|
    case MarkSent(d) => d in s.holds && s.holds[d].acked && s.holds[d].id in s.outbox
    case Reject(d) => d in s.holds && !s.holds[d].acked
    case DispatcherCrash(d) => d in s.holds
    case Cleanup(ids) => forall id | id in ids :: id in s.outbox && s.outbox[id].sent
    case ForeignRecord(_, p) => p < |s.log|
    case Poll(counts) => s.phase.Idle? && CanPoll(s, counts)
    case BeginFlush => s.phase.Idle? && s.buffer != []
    case SettleUser(_) => s.phase.Flushing? && s.phase.pending != [] && BatchWellRouted(s.phase.pending[0], q)
    case EndFlush => s.phase.Flushing? && s.phase.pending == []
    case Commit => s.phase.Committing? || (s.phase.Idle? && s.buffer == [])
    case WorkerCrash => true
    case EditPosts(_) => true
    case Register(u) => u !in s.known
    case DeleteUser(u) => u in s.db.users
  }

  ghost function Apply(q: int, s: State, step: Step): State
    requires Enabled(q, s, step)
  {
    match step
    case Enqueue(id, env, p) =>
      // ON CONFLICT (event_id) DO NOTHING
      s.(enqueued := s.enqueued + {id},
         outbox := if id in s.outbox then s.outbox else s.outbox[id := OutboxRow(env, p, false)])
    case Lock(d, id) => s.(holds := s.holds[d := Hold(id, false)])
    case Ack(d) =>
      var row := s.outbox[s.holds[d].id];
      s.(holds := s.holds[d := s.holds[d].(acked := true)], log := Append(s.log, row.partition, Some(row.env)))
    case MarkSent(d) =>
      var id := s.holds[d].id;
      s.(outbox := s.outbox[id := s.outbox[id].(sent := true)], holds := s.holds - {d})
    case Reject(d) => s.(holds := s.holds - {d})
    case DispatcherCrash(d) => s.(holds := s.holds - {d})
    case Cleanup(ids) => s.(outbox := s.outbox - ids)
    case ForeignRecord(record, p) => s.(log := Append(s.log, p, record))
    case Poll(counts) =>
      s.(position := seq(|s.log|, p requires 0 <= p < |s.log| => s.position[p] + counts[p]),
         buffer := s.buffer + AllPresent(Fetched(s, counts)))
    case BeginFlush => s.(phase := Flushing(RouteAll(s.buffer, q), []), buffer := [])
    case SettleUser(outcome) =>
      WellRoutedIdentified(s.phase.pending[0], q);
      var (db, failed) := Settle(s.db, s.phase.pending[0], outcome);
      s.(db := db, phase := Flushing(s.phase.pending[1..], s.phase.failed + failed))
    case EndFlush =>
      if s.phase.failed == [] then s.(phase := Committing)
      else s.(phase := Idle, buffer := s.phase.failed + s.buffer)
    case Commit => s.(committed := s.position, phase := Idle)
    case WorkerCrash => s.(buffer := [], phase := Idle, position := s.committed)
    case EditPosts(posts) => s.(db := s.db.(posts := posts))
    case Register(u) => s.(known := s.known + {u}, db := s.db.(users := s.db.users + {u}))
    case DeleteUser(u) => s.(db := s.db.(users := s.db.users - {u}, vectors := s.db.vectors - {u}))
  }

  ghost predicate Init(s: State)
  {
    && s.enqueued == {} && s.outbox == map[] && s.holds == map[]
    && |s.log| == |s.position| == |s.committed|
    && (forall p | 0 <= p < |s.log| :: s.log[p] == [] && s.position[p] == 0 && s.committed[p] == 0)
    && s.buffer == [] && s.phase == Idle
    && s.db.receipts == {} && s.db.claims == [] && s.db.vectors == map[] && s.db.users <= s.known
  }

  /** A run: a start state followed by any number of enabled steps, in any interleaving. */
  ghost predicate Run(q: int, trace: seq<State>, steps: seq<Step>)
  {
    && |trace| == |steps| + 1
    && Init(trace[0])
    && forall i | 0 <= i < |steps| :: Enabled(q, trace[i], steps[i]) && trace[i + 1] == Apply(q, trace[i], steps[i])
  }

  // ---------------------------------------------------------------- what every state satisfies

  ghost predicate InLog(log: Log, id: nat)
  {
    exists p, i :: 0 <= p < |log| && 0 <= i < |log[p]| && Carries(log[p][i], id)
  }

  predicate Carries(record: Option<Envelope>, id: nat)
  {
    record.Some? && record.value.eventId == Uuid(id)
  }

  /** The worker owes this record nothing more: it never routes, or its id has a receipt. */
  ghost predicate Settled(q: int, receipts: set<nat>, record: Option<Envelope>)
  {
    record.Some? ==> var d := Classify(record.value, q); d.Routed? ==> d.id in receipts
  }

  /** Envelopes the worker has fetched and not yet let go of. */
  ghost function InFlight(s: State): seq<Envelope>
  {
    s.buffer + (if s.phase.Flushing? then EventsOf(s.phase.pending) + s.phase.failed else [])
  }

  /** Every id ever enqueued is an unsent outbox row or is in the log; sent rows are in the log. */
  ghost predicate NothingLostBeforeKafka(s: State)
  {
    && (forall id | id in s.enqueued :: InLog(s.log, id) || (id in s.outbox && !s.outbox[id].sent))
    && (forall id | id in s.outbox :: s.outbox[id].sent ==> InLog(s.log, id))
  }

  /** Every record below the committed offset is settled. */
  ghost predicate NothingLostAfterKafka(q: int, s: State)
  {
    && |s.committed| == |s.log|
    && forall p, i | 0 <= p < |s.log| && 0 <= i < s.committed[p] ::
         i < |s.log[p]| && Settled(q, s.db.receipts, s.log[p][i])
  }

  /** No two open dispatcher transactions hold one row; a held row exists, unsent; an acknowledged
      one is already in the log. */
  ghost predicate LocksInv(s: State)
  {
    && (forall id | id in s.outbox :: s.outbox[id].env.eventId == Uuid(id) && s.outbox[id].partition < |s.log|)
    && (forall d | d in s.holds :: s.holds[d].id in s.outbox && !s.outbox[s.holds[d].id].sent)
    && (forall d | d in s.holds && s.holds[d].acked :: InLog(s.log, s.holds[d].id))
    && (forall d, e | d in s.holds && e in s.holds && d != e :: s.holds[d].id != s.holds[e].id)
  }

  ghost predicate OffsetsInv(s: State)
  {
    && |s.position| == |s.committed| == |s.log|
    && forall p | 0 <= p < |s.log| :: s.committed[p] <= s.position[p] <= |s.log[p]|
  }

  /** Every fetched record is settled or still in the worker's hands. */
  ghost predicate DeliveredInv(q: int, s: State)
    requires OffsetsInv(s)
  {
    forall p, i | 0 <= p < |s.log| && 0 <= i < s.position[p] ::
      Settled(q, s.db.receipts, s.log[p][i]) || (s.log[p][i].Some? && s.log[p][i].value in InFlight(s))
  }

  /** Everything in the worker's hands was fetched from the log. */
  ghost predicate HeldFromLog(s: State)
    requires OffsetsInv(s)
  {
    forall env | env in InFlight(s) :: Delivered(s, env)
  }

  ghost predicate Delivered(s: State, env: Envelope)
    requires OffsetsInv(s)
  {
    exists p, i :: 0 <= p < |s.log| && 0 <= i < s.position[p] && s.log[p][i] == Some(env)
  }

  ghost predicate PhaseInv(q: int, s: State)
  {
    && (!s.phase.Idle? ==> s.buffer == [])
    && (s.phase.Flushing? ==> WellRouted(s.phase.pending, q))
  }

  /** Only users that once existed have applied claims. */
  ghost predicate KnownInv(s: State)
  {
    s.db.users <= s.known && forall c | c in s.db.claims && c.applied :: c.user in s.known
  }

  ghost predicate Inv(q: int, s: State)
  {
    && LocksInv(s) && NothingLostBeforeKafka(s)
    && OffsetsInv(s) && DeliveredInv(q, s) && HeldFromLog(s) && NothingLostAfterKafka(q, s)
    && PhaseInv(q, s) && LedgerInv(s.db) && KnownInv(s)
  }

  lemma InitInv(q: int, s: State)
    requires Init(s)
    ensures Inv(q, s)
  {
    forall u | u in s.db.users ensures VectorOf(s.db, u) == Fold(map[], AppliedTo(s.db.claims, u)) {}
  }

  // ---------------------------------------------------------------- steps that touch outbox or log

  ghost predicate IsProducerStep(step: Step)
  {
    step.Enqueue? || step.Lock? || step.Ack? || step.MarkSent? || step.Reject? || step.DispatcherCrash?
    || step.Cleanup? || step.ForeignRecord?
  }

  lemma AppendKeeps(log: Log, p: nat, record: Option<Envelope>)
    requires p < |log|
    ensures forall id | InLog(log, id) :: InLog(Append(log, p, record), id)
    ensures forall id | Carries(record, id) :: InLog(Append(log, p, record), id)
  {
    var log' := Append(log, p, record);
    forall id | InLog(log, id) ensures InLog(log', id) {
      var r, i :| 0 <= r < |log| && 0 <= i < |log[r]| && Carries(log[r][i], id);
      assert log'[r][i] == log[r][i];
    }
    forall id | Carries(record, id) ensures InLog(log', id) {
      assert Carries(log'[p][|log[p]|], id);
    }
  }

  lemma LogStep(q: int, s: State, step: Step)
    requires LocksInv(s) && NothingLostBeforeKafka(s) && Enabled(q, s, step) && (step.Ack? || step.ForeignRecord?)
    ensures LocksInv(Apply(q, s, step)) && NothingLostBeforeKafka(Apply(q, s, step))
  {
    var s' := Apply(q, s, step);
    var p, record :=
      if step.Ack? then s.outbox[s.holds[step.dispatcher].id].partition else step.partition,
      if step.Ack? then Some(s.outbox[s.holds[step.dispatcher].id].env) else step.record;
    AppendKeeps(s.log, p, record);
    assert s'.log == Append(s.log, p, record);
    assert step.Ack? ==> Carries(record, s.holds[step.dispatcher].id);
    forall d | d in s'.holds && s'.holds[d].acked ensures InLog(s'.log, s'.holds[d].id) {}
  }

  lemma SendStep(q: int, s: State, step: Step)
    requires LocksInv(s) && NothingLostBeforeKafka(s) && Enabled(q, s, step)
    requires step.MarkSent? || step.Reject? || step.DispatcherCrash? || step.Lock?
    ensures LocksInv(Apply(q, s, step)) && NothingLostBeforeKafka(Apply(q, s, step))
  {
    var s' := Apply(q, s, step);
    if step.MarkSent? {
      assert InLog(s.log, s.holds[step.dispatcher].id);
    }
    forall id | id in s'.enqueued ensures InLog(s'.log, id) || (id in s'.outbox && !s'.outbox[id].sent) {}
  }

  lemma RowStep(q: int, s: State, step: Step)
    requires LocksInv(s) && NothingLostBeforeKafka(s) && Enabled(q, s, step) && (step.Enqueue? || step.Cleanup?)
    ensures LocksInv(Apply(q, s, step)) && NothingLostBeforeKafka(Apply(q, s, step))
  {
    var s' := Apply(q, s, step);
    forall id | id in s'.enqueued ensures InLog(s'.log, id) || (id in s'.outbox && !s'.outbox[id].sent) {}
  }

  /** Growing the log or changing the outbox leaves the worker's side of the invariant alone. */
  lemma ProducerStepWorkerSide(q: int, s: State, step: Step)
    requires Inv(q, s) && Enabled(q, s, step) && IsProducerStep(step)
    ensures var s' := Apply(q, s, step);
            OffsetsInv(s') && DeliveredInv(q, s') && HeldFromLog(s') && NothingLostAfterKafka(q, s')
  {
    var s' := Apply(q, s, step);
    assert |s'.log| == |s.log|;
    assert forall p, i | 0 <= p < |s.log| && 0 <= i < |s.log[p]| :: i < |s'.log[p]| && s'.log[p][i] == s.log[p][i];
    assert InFlight(s') == InFlight(s);
    forall env | env in InFlight(s') ensures Delivered(s', env) {
      assert Delivered(s, env);
    }
  }

  // ---------------------------------------------------------------- worker steps

  ghost predicate IsWorkerStep(step: Step)
  {
    step.Poll? || step.BeginFlush? || step.SettleUser? || step.EndFlush? || step.Commit? || step.WorkerCrash?
  }

  lemma {:induction false} PresentMembers(records: seq<Option<Envelope>>)
    ensures forall env :: env in Present(records) <==> Some(env) in records
  {
    if records != [] {
      PresentMembers(records[1..]);
      assert records == [records[0]] + records[1..];
    }
  }

  lemma {:induction false} AllPresentMembers(records: seq<seq<Option<Envelope>>>)
    ensures forall env :: env in AllPresent(records) <==> exists p :: 0 <= p < |records| && Some(env) in records[p]
  {
    if records != [] {
      AllPresentMembers(records[1..]);
      PresentMembers(records[0]);
      forall env
        ensures env in AllPresent(records) <==> exists p :: 0 <= p < |records| && Some(env) in records[p]
      {
        if env in AllPresent(records[1..]) {
          var p :| 0 <= p < |records[1..]| && Some(env) in records[1..][p];
          assert Some(env) in records[p + 1];
        }
        if p :| 0 <= p < |records| && Some(env) in records[p] && p > 0 {
          assert Some(env) in records[1..][p - 1];
        }
      }
    }
  }

  /** If nothing leaves the worker's hands unsettled, every fetched record stays accounted for. */
  lemma DeliveredKept(q: int, s: State, s': State)
    requires OffsetsInv(s) && DeliveredInv(q, s) && HeldFromLog(s)
    requires s'.log == s.log && s'.position == s.position && s'.committed == s.committed
    requires s.db.receipts <= s'.db.receipts
    requires forall env | env in InFlight(s) :: env in InFlight(s') || Settled(q, s'.db.receipts, Some(env))
    requires forall env | env in InFlight(s') :: env in InFlight(s)
    ensures OffsetsInv(s') && DeliveredInv(q, s') && HeldFromLog(s')
  {
    forall env | env in InFlight(s') ensures Delivered(s', env) {
      assert Delivered(s, env);
    }
  }

  lemma PollStep(q: int, s: State, counts: seq<nat>)
    requires Inv(q, s) && Enabled(q, s, Poll(counts))
    ensures var s' := Apply(q, s, Poll(counts)); OffsetsInv(s') && DeliveredInv(q, s') && HeldFromLog(s')
  {
    PollDelivers(q, s, counts);
    PollHolds(q, s, counts);
  }

  lemma PollDelivers(q: int, s: State, counts: seq<nat>)
    requires Inv(q, s) && Enabled(q, s, Poll(counts))
    ensures var s' := Apply(q, s, Poll(counts)); OffsetsInv(s') && DeliveredInv(q, s')
  {
    var s' := Apply(q, s, Poll(counts));
    var records := Fetched(s, counts);
    AllPresentMembers(records);
    forall p, i | 0 <= p < |s'.log| && 0 <= i < s'.position[p]
      ensures Settled(q, s'.db.receipts, s'.log[p][i]) || (s'.log[p][i].Some? && s'.log[p][i].value in InFlight(s'))
    {
      if i >= s.position[p] && s.log[p][i].Some? {
        assert records[p][i - s.position[p]] == s.log[p][i];
        assert s.log[p][i] in records[p];
      }
    }
  }

  lemma StillDelivered(q: int, s: State, counts: seq<nat>, env: Envelope)
    requires OffsetsInv(s) && Enabled(q, s, Poll(counts)) && Delivered(s, env)
    ensures OffsetsInv(Apply(q, s, Poll(counts))) && Delivered(Apply(q, s, Poll(counts)), env)
  {
    var s' := Apply(q, s, Poll(counts));
    var p, i :| 0 <= p < |s.log| && 0 <= i < s.position[p] && s.log[p][i] == Some(env);
    assert s'.log[p][i] == Some(env);
  }

  lemma NewlyDelivered(q: int, s: State, counts: seq<nat>, env: Envelope)
    requires OffsetsInv(s) && Enabled(q, s, Poll(counts)) && env in AllPresent(Fetched(s, counts))
    ensures OffsetsInv(Apply(q, s, Poll(counts))) && Delivered(Apply(q, s, Poll(counts)), env)
  {
    var records := Fetched(s, counts);
    AllPresentMembers(records);
    var p :| 0 <= p < |records| && Some(env) in records[p];
    var j :| 0 <= j < |records[p]| && records[p][j] == Some(env);
    var s', k := Apply(q, s, Poll(counts)), s.position[p] + j;
    assert s'.log[p][k] == Some(env) && 0 <= k < s'.position[p];
  }

  lemma PollHolds(q: int, s: State, counts: seq<nat>)
    requires OffsetsInv(s) && HeldFromLog(s) && Enabled(q, s, Poll(counts))
    ensures OffsetsInv(Apply(q, s, Poll(counts))) && HeldFromLog(Apply(q, s, Poll(counts)))
  {
    var s' := Apply(q, s, Poll(counts));
    forall env | env in InFlight(s') ensures OffsetsInv(s') && Delivered(s', env) {
      if env in InFlight(s) {
        StillDelivered(q, s, counts, env);
      } else {
        NewlyDelivered(q, s, counts, env);
      }
    }
  }

  lemma SettleUserDelivery(q: int, s: State, outcome: Outcome)
    requires OffsetsInv(s) && DeliveredInv(q, s) && HeldFromLog(s) && Enabled(q, s, SettleUser(outcome))
    requires var b := s.phase.pending[0];
             Identified(b.events) && CommitUser(s.db, b.user, b.events).receipts == s.db.receipts + Ids(b.events)
    ensures var s' := Apply(q, s, SettleUser(outcome));
            OffsetsInv(s') && DeliveredInv(q, s') && HeldFromLog(s')
  {
    var s' := Apply(q, s, SettleUser(outcome));
    var b := s.phase.pending[0];
    assert EventsOf(s.phase.pending) == b.events + EventsOf(s.phase.pending[1..]);
    forall env | env in InFlight(s) ensures env in InFlight(s') || Settled(q, s'.db.receipts, Some(env)) {
      if env in b.events && outcome.Completed? {
        assert RoutedTo(env, b.user, q);
        assert env.eventId.id in Ids(b.events);
      }
    }
    DeliveredKept(q, s, s');
  }

  lemma SettleUserStep(q: int, s: State, outcome: Outcome)
    requires Inv(q, s) && Enabled(q, s, SettleUser(outcome))
    ensures Inv(q, Apply(q, s, SettleUser(outcome)))
  {
    var b := s.phase.pending[0];
    assert BatchWellRouted(b, q);
    WellRoutedIdentified(b, q);
    CommitKeepsLedger(s.db, b.user, b.events);
    MakeClaimsFacts(s.db, b.user, Fresh(s.db.receipts, b.events));
    SettleUserDelivery(q, s, outcome);
  }

  lemma PollKeeps(q: int, s: State, counts: seq<nat>)
    requires Inv(q, s) && Enabled(q, s, Poll(counts))
    ensures Inv(q, Apply(q, s, Poll(counts)))
  {
    PollStep(q, s, counts);
  }

  lemma BeginFlushKeeps(q: int, s: State)
    requires Inv(q, s) && Enabled(q, s, BeginFlush)
    ensures Inv(q, Apply(q, s, BeginFlush))
  {
    RouteAllFacts(s.buffer, q);
    assert InFlight(s) == s.buffer;
    DeliveredKept(q, s, Apply(q, s, BeginFlush));
  }

  lemma EndFlushKeeps(q: int, s: State)
    requires Inv(q, s) && Enabled(q, s, EndFlush)
    ensures Inv(q, Apply(q, s, EndFlush))
  {
    assert EventsOf(s.phase.pending) == [];
    DeliveredKept(q, s, Apply(q, s, EndFlush));
  }

  lemma CommitKeeps(q: int, s: State)
    requires Inv(q, s) && Enabled(q, s, Commit)
    ensures Inv(q, Apply(q, s, Commit))
  {
    assert InFlight(s) == [] && InFlight(Apply(q, s, Commit)) == [];
  }

  lemma CrashKeeps(q: int, s: State)
    requires Inv(q, s)
    ensures Inv(q, Apply(q, s, WorkerCrash))
  {
    assert InFlight(Apply(q, s, WorkerCrash)) == [];
  }

  lemma WorkerStep(q: int, s: State, step: Step)
    requires Inv(q, s) && Enabled(q, s, step) && IsWorkerStep(step)
    ensures Inv(q, Apply(q, s, step))
  {
    match step {
      case Poll(counts) => PollKeeps(q, s, counts);
      case BeginFlush => BeginFlushKeeps(q, s);
      case SettleUser(outcome) => SettleUserStep(q, s, outcome);
      case EndFlush => EndFlushKeeps(q, s);
      case Commit => CommitKeeps(q, s);
      case WorkerCrash => CrashKeeps(q, s);
      case _ =>
    }
  }

  // ---------------------------------------------------------------- accounts and catalogue

  lemma {:induction false} NoClaimsOfStranger(claims: seq<Claim>, user: nat)
    requires forall c | c in claims && c.applied :: c.user != user
    ensures AppliedTo(claims, user) == []
  {
    if claims != [] {
      assert claims[0] in claims;
      NoClaimsOfStranger(claims[1..], user);
    }
  }

  lemma AccountLedger(q: int, s: State, step: Step)
    requires LedgerInv(s.db) && KnownInv(s) && Enabled(q, s, step)
    requires step.EditPosts? || step.Register? || step.DeleteUser?
    ensures LedgerInv(Apply(q, s, step).db) && KnownInv(Apply(q, s, step))
  {
    var s' := Apply(q, s, step);
    forall u | u in s'.db.users ensures VectorOf(s'.db, u) == Fold(map[], AppliedTo(s'.db.claims, u)) {
      if step.Register? && u == step.user {
        NoClaimsOfStranger(s.db.claims, u);
      } else {
        assert VectorOf(s'.db, u) == VectorOf(s.db, u);
      }
    }
  }

  lemma AccountStep(q: int, s: State, step: Step)
    requires Inv(q, s) && Enabled(q, s, step) && (step.EditPosts? || step.Register? || step.DeleteUser?)
    ensures Inv(q, Apply(q, s, step))
  {
    AccountLedger(q, s, step);
    assert InFlight(Apply(q, s, step)) == InFlight(s);
    DeliveredKept(q, s, Apply(q, s, step));
  }

  // ---------------------------------------------------------------- the theorems

  lemma StepKeepsInv(q: int, s: State, step: Step)
    requires Inv(q, s) && Enabled(q, s, step)
    ensures Inv(q, Apply(q, s, step))
  {
    if IsProducerStep(step) {
      if step.Ack? || step.ForeignRecord? {
        LogStep(q, s, step);
      } else if step.Enqueue? || step.Cleanup? {
        RowStep(q, s, step);
      } else {
        SendStep(q, s, step);
      }
      ProducerStepWorkerSide(q, s, step);
    } else if IsWorkerStep(step) {
      WorkerStep(q, s, step);
    } else {
      AccountStep(q, s, step);
    }
  }

  /** Safety over whole runs: in every state of every run no event is lost on either side of Kafka,
      no row is held twice, no id is claimed twice, and every living user's vector is the fold of
      exactly that user's applied claims. */
  lemma {:induction false} EveryRunIsSafe(q: int, trace: seq<State>, steps: seq<Step>, n: nat)
    requires Run(q, trace, steps) && n < |trace|
    ensures Inv(q, trace[n])
  {
    if n == 0 {
      InitInv(q, trace[0]);
    } else {
      EveryRunIsSafe(q, trace, steps, n - 1);
      StepKeepsInv(q, trace[n - 1], steps[n - 1]);
    }
  }

  lemma FirstClaim(db: Db, user: nat, news: seq<Envelope>) returns (c: Claim)
    requires Identified(news) && news != [] && user in db.users
    requires forall env | env in news :: env.eventId.id !in db.receipts
    ensures c in MakeClaims(db, user, news) && c.user == user && c.applied && c.id !in db.receipts
  {
    assert news[0] in news;
    MakeClaimsFacts(db, user, news);
    c := MakeClaims(db, user, news)[0];
  }

  /** A committed turn that moves a vector moves its own user's, and holds a first receipt. */
  lemma MovingNeedsAReceipt(db: Db, b: Batch, user: nat)
    requires Identified(b.events) && LedgerInv(db) && user in db.users
    requires VectorOf(CommitUser(db, b.user, b.events), user) != VectorOf(db, user)
    ensures user == b.user
    ensures exists c ::
              c in CommitUser(db, b.user, b.events).claims && c.user == user && c.applied && c.id !in db.receipts
  {
    CommitKeepsLedger(db, b.user, b.events);
    var news := Fresh(db.receipts, b.events);
    var c := FirstClaim(db, user, news);
    assert c in db.claims + MakeClaims(db, user, news);
  }

  lemma OtherStepsKeepVectors(q: int, s: State, step: Step, user: nat)
    requires Enabled(q, s, step) && !(step.SettleUser? && !step.outcome.RolledBack?)
    requires user in Apply(q, s, step).db.users
    ensures VectorOf(Apply(q, s, step).db, user) == VectorOf(s.db, user)
  {
  }

  /** An event id moves a living user's vector at most once: only a committed turn of that user's
      own batch can, and only together with a receipt the table did not hold before. */
  lemma VectorMovesOnlyWithAFirstReceipt(q: int, s: State, step: Step, user: nat)
    requires Inv(q, s) && Enabled(q, s, step)
    requires user in s.db.users && user in Apply(q, s, step).db.users
    requires VectorOf(Apply(q, s, step).db, user) != VectorOf(s.db, user)
    ensures step.SettleUser? && !step.outcome.RolledBack? && s.phase.pending[0].user == user
    ensures exists c :: c in Apply(q, s, step).db.claims && c.user == user && c.applied && c.id !in s.db.receipts
  {
    if !(step.SettleUser? && !step.outcome.RolledBack?) {
      OtherStepsKeepVectors(q, s, step, user);
    }
    WellRoutedIdentified(s.phase.pending[0], q);
    MovingNeedsAReceipt(s.db, s.phase.pending[0], user);
  }

  /** Once the outbox is drained and every offset is committed, each enqueued event that the worker
      accepts has been claimed by exactly one receipt. */
  lemma QuiescentMeansExactlyOnce(q: int, s: State)
    requires Inv(q, s)
    requires forall id | id in s.outbox :: s.outbox[id].sent
    requires forall p | 0 <= p < |s.log| :: s.committed[p] == |s.log[p]|
    ensures forall id | id in s.enqueued :: InLog(s.log, id)
    ensures forall p, i | 0 <= p < |s.log| && 0 <= i < |s.log[p]| && s.log[p][i].Some? ::
              var d := Classify(s.log[p][i].value, q);
              d.Routed? ==> exists k :: 0 <= k < |s.db.claims| && s.db.claims[k].id == d.id
                                        && forall j | 0 <= j < |s.db.claims| && s.db.claims[j].id == d.id :: j == k
  {
    forall p, i | 0 <= p < |s.log| && 0 <= i < |s.log[p]| && s.log[p][i].Some?
      ensures var d := Classify(s.log[p][i].value, q);
              d.Routed? ==> exists k :: 0 <= k < |s.db.claims| && s.db.claims[k].id == d.id
                                        && forall j | 0 <= j < |s.db.claims| && s.db.claims[j].id == d.id :: j == k
    {
      var d := Classify(s.log[p][i].value, q);
      if d.Routed? {
        assert Settled(q, s.db.receipts, s.log[p][i]);
        var c :| c in s.db.claims && c.id == d.id;
        var k :| 0 <= k < |s.db.claims| && s.db.claims[k] == c;
        assert forall j | 0 <= j < |s.db.claims| && s.db.claims[j].id == d.id :: j == k;
      }
    }
  }

  // ---------------------------------------------------------------- cancellation inside a flush

  /** Cancelling while `_flush` is running: the handler flushes the (empty) buffer, which succeeds,
      and commits the position. The drained events were only in a local variable. */
  ghost function CancelMidFlush(s: State): State
    requires s.phase.Flushing?
  {
    s.(committed := s.position, buffer := [], phase := Idle)
  }

  /** Such a cancellation keeps the no-loss guarantee exactly when nothing it drops still needs the
      worker. */
  lemma CancelMidFlushIsSafeIff(q: int, s: State)
    requires Inv(q, s) && s.phase.Flushing?
    ensures NothingLostAfterKafka(q, CancelMidFlush(s))
            <==> forall env | env in EventsOf(s.phase.pending) + s.phase.failed :: Settled(q, s.db.receipts, Some(env))
  {
    var s' := CancelMidFlush(s);
    assert InFlight(s) == EventsOf(s.phase.pending) + s.phase.failed;
    if NothingLostAfterKafka(q, s') {
      forall env | env in InFlight(s) ensures Settled(q, s.db.receipts, Some(env)) {
        assert Delivered(s, env);
      }
    }
  }

  /** One like, one partition: cancelled before the transaction, the event is committed in Kafka,
      gone from the buffer, and never applied. */
  lemma CancelMidFlushLosesALike(q: int, id: nat, user: nat, post: nat, posts: map<nat, PostRow>)
    returns (trace: seq<State>, steps: seq<Step>)
    ensures Run(q, trace, steps)
    ensures var s := trace[|trace| - 1];
            s.phase.Flushing? && !NothingLostAfterKafka(q, CancelMidFlush(s))
  {
    var env := Envelope(Liked, Version1, Uuid(id), Uuid(user), Missing, Missing, Some(post), None);
    var s0 := State({}, map[], map[], [[]], [0], [0], [], Idle, Db({}, [], map[], {user}, posts), {user});
    var s3;
    trace, steps, s3 := OneRecordFlush(q, s0, env);
    var s := CancelMidFlush(s3);
    assert s.log[0][0] == Some(env);
    assert !Settled(q, s.db.receipts, s.log[0][0]);
  }

  lemma OneRecordPolled(q: int, s0: State, env: Envelope)
    requires s0.log == [[]] && s0.position == [0] && s0.buffer == [] && s0.phase == Idle
    ensures Enabled(q, s0, ForeignRecord(Some(env), 0))
    ensures var s1 := Apply(q, s0, ForeignRecord(Some(env), 0));
            && s1 == s0.(log := [[Some(env)]]) && Enabled(q, s1, Poll([1]))
            && Apply(q, s1, Poll([1])) == s1.(position := [1], buffer := [env])
  {
    assert s0.log[0] + [Some(env)] == [Some(env)];
    var s1 := Apply(q, s0, ForeignRecord(Some(env), 0));
    assert s1.log == [[Some(env)]];
    assert s1.log[0][0..1] == [Some(env)];
    assert Fetched(s1, [1]) == [[Some(env)]];
    assert AllPresent([[Some(env)]]) == [env] by {
      assert Present([Some(env)]) == [env];
    }
  }

  lemma ThreeSteps(q: int, trace: seq<State>, steps: seq<Step>)
    requires |trace| == 4 && |steps| == 3 && Init(trace[0])
    requires Enabled(q, trace[0], steps[0]) && trace[1] == Apply(q, trace[0], steps[0])
    requires Enabled(q, trace[1], steps[1]) && trace[2] == Apply(q, trace[1], steps[1])
    requires Enabled(q, trace[2], steps[2]) && trace[3] == Apply(q, trace[2], steps[2])
    ensures Run(q, trace, steps)
  {
  }

  /** One record arrives, is polled, and its flush begins. */
  lemma OneRecordFlush(q: int, s0: State, env: Envelope) returns (trace: seq<State>, steps: seq<Step>, s3: State)
    requires s0.log == [[]] && s0.position == [0] && s0.committed == [0] && s0.buffer == [] && s0.phase == Idle
    requires Init(s0)
    ensures |trace| == 4 && trace[3] == s3 && Run(q, trace, steps)
    ensures s3.phase.Flushing? && s3.log == [[Some(env)]] && s3.position == [1] && s3.db == s0.db
  {
    OneRecordPolled(q, s0, env);
    var s1 := Apply(q, s0, ForeignRecord(Some(env), 0));
    var s2 := Apply(q, s1, Poll([1]));
    s3 := Apply(q, s2, BeginFlush);
    trace, steps := [s0, s1, s2, s3], [ForeignRecord(Some(env), 0), Poll([1]), BeginFlush];
    ThreeSteps(q, trace, steps);
  }

  // ---------------------------------------------------------------- the object runs the protocol

  /** Drive a flush to its end with one outcome per user. */
  ghost function Drive(q: int, s: State, outcomes: nat -> Outcome): State
    requires PhaseInv(q, s) && s.phase.Flushing?
    decreases |s.phase.pending|
  {
    if s.phase.pending == [] then Apply(q, s, EndFlush)
    else
      assert BatchWellRouted(s.phase.pending[0], q);
      Drive(q, Apply(q, s, SettleUser(outcomes(s.phase.pending[0].user))), outcomes)
  }

  /** One user's turn on both sides. */
  lemma DriveStep(q: int, s: State, outcomes: nat -> Outcome)
    requires PhaseInv(q, s) && s.phase.Flushing? && s.phase.pending != []
    ensures BatchWellRouted(s.phase.pending[0], q) && Identified(s.phase.pending[0].events)
    ensures var b := s.phase.pending[0];
            var s1 := Apply(q, s, SettleUser(outcomes(b.user)));
            var (db1, failed1) := Settle(s.db, b, outcomes(b.user));
            && s1 == s.(db := db1, phase := Flushing(s.phase.pending[1..], s.phase.failed + failed1))
            && PhaseInv(q, s1) && Drive(q, s, outcomes) == Drive(q, s1, outcomes)
            && var rest := SettleAll(db1, s.phase.pending[1..], outcomes, q);
               SettleAll(s.db, s.phase.pending, outcomes, q) == (rest.0, failed1 + rest.1)
  {
    assert BatchWellRouted(s.phase.pending[0], q);
    WellRoutedIdentified(s.phase.pending[0], q);
  }

  /** The worker object's `Flush` ends with the database, buffer and result of that protocol run. */
  lemma {:induction false} FlushRunsTheProtocol(q: int, s: State, outcomes: nat -> Outcome)
    requires PhaseInv(q, s) && s.phase.Flushing?
    ensures var (db, failed) := SettleAll(s.db, s.phase.pending, outcomes, q);
            && Drive(q, s, outcomes).db == db
            && Drive(q, s, outcomes).buffer == s.phase.failed + failed
            && (Drive(q, s, outcomes).phase.Committing? <==> s.phase.failed + failed == [])
    decreases |s.phase.pending|
  {
    if s.phase.pending == [] {
      assert s.phase.failed + [] == s.phase.failed;
    } else {
      DriveStep(q, s, outcomes);
      var b := s.phase.pending[0];
      var (db1, failed1) := Settle(s.db, b, outcomes(b.user));
      FlushRunsTheProtocol(q, Apply(q, s, SettleUser(outcomes(b.user))), outcomes);
      var rest := SettleAll(db1, s.phase.pending[1..], outcomes, q);
      assert (s.phase.failed + failed1) + rest.1 == s.phase.failed + (failed1 + rest.1);
    }
  }
}
