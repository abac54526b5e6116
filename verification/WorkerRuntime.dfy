/** The worker object: its micro-batch buffer, one user's transaction, and one flush. */
module WorkerRuntime {
  import opened Options
  import opened TopicVectors
  import opened FeatureWorker

  /** Collects record values until size or age triggers a flush. */
  class MicroBatchBuffer {
    const batchSize: nat
    const flushInterval: int
    var values: seq<Envelope>
    var lastFlush: int

    constructor (batchSize: nat, flushInterval: int, now: int)
      requires batchSize >= 1 && flushInterval > 0
      ensures values == [] && lastFlush == now
      ensures this.batchSize == batchSize && this.flushInterval == flushInterval
    {
      this.batchSize, this.flushInterval := batchSize, flushInterval;
      values, lastFlush := [], now;
    }

    predicate Ready(now: int)
      reads this
    {
      Due(values, batchSize, now - lastFlush, flushInterval)
    }

    /** Appends the values of every partition's records; a record without a value is dropped. */
    method ExtendRecords(records: seq<seq<Option<Envelope>>>)
      modifies this`values
      ensures values == old(values) + AllPresent(records)
    {
      var before := values;
      for p := 0 to |records|
        invariant values + AllPresent(records[p..]) == before + AllPresent(records)
      {
        var start := values;
        var part := records[p];
        for i := 0 to |part|
          invariant values + Present(part[i..]) == start + Present(part)
        {
          assert part[i..] == [part[i]] + part[i + 1..];
          ghost var rest := Present(part[i + 1..]);
          if part[i].Some? {
            assert values + ([part[i].value] + rest) == values + [part[i].value] + rest;
            values := values + [part[i].value];
          }
        }
        assert part[|part|..] == [];
        assert values == start + Present(part);
        assert records[p..] == [part] + records[p + 1..];
      }
      assert records[|records|..] == [];
    }

    method Prepend(items: seq<Envelope>)
      modifies this`values
      ensures values == items + old(values)
    {
      values := items + values;
    }

    method Drain(now: int) returns (items: seq<Envelope>)
      modifies this
      ensures items == old(values) && values == [] && lastFlush == now
    {
      items := values;
      values := [];
      lastFlush := now;
    }
  }

  /** A non-empty buffer is flushed when it is full or its last flush is long enough ago. */
  predicate Due(values: seq<Envelope>, batchSize: nat, age: int, flushInterval: int)
  {
    values != [] && (|values| >= batchSize || age >= flushInterval)
  }

  function Present(records: seq<Option<Envelope>>): seq<Envelope>
  {
    if records == [] then []
    else (if records[0].Some? then [records[0].value] else []) + Present(records[1..])
  }

  function AllPresent(records: seq<seq<Option<Envelope>>>): seq<Envelope>
  {
    if records == [] then [] else Present(records[0]) + AllPresent(records[1..])
  }

  /** The events of `events` whose id has no receipt. */
  function Unclaimed(receipts: set<nat>, events: seq<Envelope>): seq<Envelope>
    requires Identified(events)
  {
    if events == [] then []
    else (if events[0].eventId.id in receipts then [] else [events[0]]) + Unclaimed(receipts, events[1..])
  }

  function Claimed(receipts: set<nat>, events: seq<Envelope>): seq<Envelope>
    requires Identified(events)
  {
    if events == [] then []
    else (if events[0].eventId.id in receipts then [events[0]] else []) + Claimed(receipts, events[1..])
  }

  /** De-duplicating inside the batch and then against the table is de-duplicating once. */
  lemma {:induction false} DedupeThenClaim(receipts: set<nat>, seen: set<nat>, events: seq<Envelope>)
    requires Identified(events)
    ensures Fresh(receipts + seen, events) == Unclaimed(receipts, Fresh(seen, events))
    decreases |events|
  {
    if events != [] {
      var id := events[0].eventId.id;
      var rest := events[1..];
      if id in seen {
        DedupeThenClaim(receipts, seen, rest);
      } else {
        DedupeThenClaim(receipts, seen + {id}, rest);
        var tail := Fresh(seen + {id}, rest);
        assert ([events[0]] + tail)[1..] == tail;
        assert receipts + (seen + {id}) == receipts + seen + {id};
        if id in receipts {
          assert receipts + seen + {id} == receipts + seen;
        }
      }
    }
  }

  lemma {:induction false} ClaimedSplit(receipts: set<nat>, events: seq<Envelope>)
    requires Identified(events)
    ensures multiset(Unclaimed(receipts, events)) + multiset(Claimed(receipts, events)) == multiset(events)
  {
    if events != [] {
      ClaimedSplit(receipts, events[1..]);
      assert events == [events[0]] + events[1..];
    }
  }

  /** The in-batch de-duplication loop: first occurrences, and everything else. */
  method Deduplicate(events: seq<Envelope>) returns (unique: seq<Envelope>, duplicates: seq<Envelope>)
    requires Identified(events)
    ensures unique == Fresh({}, events)
    ensures multiset(unique) + multiset(duplicates) == multiset(events)
  {
    unique, duplicates := [], [];
    var seen: set<nat> := {};
    for i := 0 to |events|
      invariant unique + Fresh(seen, events[i..]) == Fresh({}, events)
      invariant multiset(unique) + multiset(duplicates) == multiset(events[..i])
    {
      FreshStep(seen, events, i, unique);
      OneMoreOf(events, i);
      var id := events[i].eventId.id;
      if id in seen {
        duplicates := duplicates + [events[i]];
      } else {
        seen := seen + {id};
        unique := unique + [events[i]];
      }
    }
    assert events[..|events|] == events;
  }

  /** `done` followed by what is fresh from `i` on. */
  lemma FreshStep(seen: set<nat>, events: seq<Envelope>, i: nat, done: seq<Envelope>)
    requires Identified(events) && i < |events|
    ensures done + Fresh(seen, events[i..])
         == if events[i].eventId.id in seen then done + Fresh(seen, events[i + 1..])
            else done + [events[i]] + Fresh(seen + {events[i].eventId.id}, events[i + 1..])
  {
    assert events[i..][1..] == events[i + 1..];
    var rest := Fresh(seen + {events[i].eventId.id}, events[i + 1..]);
    assert done + ([events[i]] + rest) == done + [events[i]] + rest;
  }

  lemma OneMoreOf(events: seq<Envelope>, i: nat)
    requires i < |events|
    ensures multiset(events[..i + 1]) == multiset(events[..i]) + multiset{events[i]}
  {
    assert events[..i + 1] == events[..i] + [events[i]];
  }

  /** The receipt insert: the rows it returns, and every envelope it found to be a duplicate. */
  method ClaimReceipts(
      receipts: set<nat>, events: seq<Envelope>)
    returns (claimed: seq<Envelope>, duplicates: seq<Envelope>)
    requires Identified(events)
    ensures claimed == Fresh(receipts, events)
    ensures multiset(claimed) + multiset(duplicates) == multiset(events)
  {
    var unique, repeated := Deduplicate(events);
    claimed := Unclaimed(receipts, unique);
    duplicates := repeated + Claimed(receipts, unique);
    DedupeThenClaim(receipts, {}, events);
    assert receipts + {} == receipts;
    ClaimedSplit(receipts, unique);
  }

  method FoldClaims(start: Vector, claims: seq<Claim>) returns (vec: Vector)
    ensures vec == Fold(start, claims)
  {
    vec := start;
    for i := 0 to |claims|
      invariant Fold(vec, claims[i..]) == Fold(start, claims)
    {
      assert claims[i..][1..] == claims[i + 1..];
      vec := ApplyTopicDelta(vec, claims[i].topics, claims[i].eventType);
    }
  }

  class Worker {
    var db: Db
    const batch: MicroBatchBuffer
    const qualifiedReadMs: int

    constructor (db: Db, batch: MicroBatchBuffer, qualifiedReadMs: int)
      ensures this.db == db && this.batch == batch && this.qualifiedReadMs == qualifiedReadMs
    {
      this.db, this.batch, this.qualifiedReadMs := db, batch, qualifiedReadMs;
    }

    /** The transaction that claims receipts and folds the claimed events into the vector. Every
        event comes back under exactly one of the three outcomes. */
    method ApplyForUser(user: nat, events: seq<Envelope>)
      returns (applied: seq<Envelope>, duplicates: seq<Envelope>, ignored: seq<Envelope>)
      requires Identified(events)
      modifies this`db
      ensures db == CommitUser(old(db), user, events)
      ensures applied + ignored == Fresh(old(db).receipts, events)
      ensures user in db.users ==> ignored == []
      ensures user !in db.users ==> applied == []
      ensures multiset(applied) + multiset(duplicates) + multiset(ignored) == multiset(events)
    {
      var claimed;
      claimed, duplicates := ClaimReceipts(db.receipts, events);
      if user in db.users {
        applied, ignored := claimed, [];
      } else {
        applied, ignored := [], claimed;
      }
      var claims := MakeClaims(db, user, claimed);
      var vectors := db.vectors;
      if exists env | env in applied :: env.eventType != ViewObserved {
        var vec := FoldClaims(VectorOf(db, user), claims);
        vectors := vectors[user := vec];
      }
      db := db.(receipts := db.receipts + Ids(claimed), claims := db.claims + claims, vectors := vectors);
    }

    /** The `for user_id, user_events in per_user.items()` loop with its error boundary. */
    method SettleUsers(perUser: seq<Batch>, outcomes: nat -> Outcome) returns (failed: seq<Envelope>)
      requires WellRouted(perUser, qualifiedReadMs)
      modifies this`db
      ensures (db, failed) == SettleAll(old(db), perUser, outcomes, qualifiedReadMs)
    {
      failed := [];
      ghost var q := qualifiedReadMs;
      assert perUser[0..] == perUser;
      assert Prefixed([], SettleAll(db, perUser, outcomes, q)) == SettleAll(db, perUser, outcomes, q) by {
        assert [] + SettleAll(db, perUser, outcomes, q).1 == SettleAll(db, perUser, outcomes, q).1;
      }
      for i := 0 to |perUser|
        invariant WellRouted(perUser[i..], q)
        invariant Prefixed(failed, SettleAll(db, perUser[i..], outcomes, q))
               == SettleAll(old(db), perUser, outcomes, q)
      {
        var b := perUser[i];
        SettleStep(db, perUser, i, outcomes, q, failed);
        match outcomes(b.user) {
          case RolledBack =>
            failed := failed + b.events;
          case CacheFailed =>
            var _, _, _ := ApplyForUser(b.user, b.events);
            failed := failed + b.events;
          case Completed =>
            var _, _, _ := ApplyForUser(b.user, b.events);
            assert failed + [] == failed;
        }
      }
      assert failed + [] == failed;
    }

    /** Drains the buffer, settles each user's events, and re-queues the failed users' events in
        front of the (empty) buffer. `outcomes` says how each user's turn ends. */
    method Flush(outcomes: nat -> Outcome, now: int) returns (ok: bool)
      modifies this`db, batch
      ensures WellRouted(RouteAll(old(batch.values), qualifiedReadMs), qualifiedReadMs)
      ensures (db, batch.values)
           == SettleAll(old(db), RouteAll(old(batch.values), qualifiedReadMs), outcomes, qualifiedReadMs)
      ensures ok <==> batch.values == []
    {
      RouteAllFacts(batch.values, qualifiedReadMs);
      if batch.values == [] {
        batch.lastFlush := now;
        return true;
      }
      var events := batch.Drain(now);
      var perUser := GroupByUser(events, qualifiedReadMs);
      var failed := SettleUsers(perUser, outcomes);
      if failed != [] {
        batch.Prepend(failed);
        assert failed + [] == failed;
        return false;
      }
      return true;
    }

    /** One turn of the loop in `run` after `getmany` has answered: take the records in, and flush when the
        buffer is full or old enough. `commits` says that the offsets may move. */
    method Turn(records: seq<seq<Option<Envelope>>>, outcomes: nat -> Outcome, now: int, later: int)
      returns (commits: bool)
      modifies this`db, batch
      ensures var held := old(batch.values) + AllPresent(records);
              WellRouted(RouteAll(held, qualifiedReadMs), qualifiedReadMs)
              && if held != [] && (|held| >= batch.batchSize || now - old(batch.lastFlush) >= batch.flushInterval) then
                   (db, batch.values) == SettleAll(old(db), RouteAll(held, qualifiedReadMs), outcomes, qualifiedReadMs)
                   && (commits <==> batch.values == [])
                 else db == old(db) && batch.values == held && !commits
    {
      batch.ExtendRecords(records);
      RouteAllFacts(batch.values, qualifiedReadMs);
      if !batch.Ready(now) {
        return false;
      }
      commits := Flush(outcomes, later);
    }
  }

  method GroupByUser(events: seq<Envelope>, q: int) returns (perUser: seq<Batch>)
    ensures perUser == RouteAll(events, q)
  {
    perUser := [];
    for i := 0 to |events|
      invariant perUser == RouteAll(events[..i], q)
    {
      assert events[..i + 1][..i] == events[..i];
      var d := Classify(events[i], q);
      if d.Routed? {
        perUser := AddTo(perUser, d.user, events[i]);
      }
    }
    assert events[..|events|] == events;
  }

  ghost function Prefixed(failed: seq<Envelope>, r: (Db, seq<Envelope>)): (Db, seq<Envelope>)
  {
    (r.0, failed + r.1)
  }

  lemma SettleStep(db: Db, perUser: seq<Batch>, i: nat, outcomes: nat -> Outcome, q: int, failed: seq<Envelope>)
    requires i < |perUser| && WellRouted(perUser[i..], q)
    ensures WellRouted(perUser[i + 1..], q) && Identified(perUser[i].events)
    ensures Prefixed(failed, SettleAll(db, perUser[i..], outcomes, q))
         == (var (db1, failed1) := Settle(db, perUser[i], outcomes(perUser[i].user));
             Prefixed(failed + failed1, SettleAll(db1, perUser[i + 1..], outcomes, q)))
  {
    assert perUser[i..][0] == perUser[i] && perUser[i..][1..] == perUser[i + 1..];
    assert BatchWellRouted(perUser[i], q);
    forall b | b in perUser[i + 1..] ensures BatchWellRouted(b, q) {
      assert b in perUser[i..];
    }
    var (db1, failed1) := Settle(db, perUser[i], outcomes(perUser[i].user));
    var rest := SettleAll(db1, perUser[i + 1..], outcomes, q);
    assert failed + (failed1 + rest.1) == failed + failed1 + rest.1;
  }
}
