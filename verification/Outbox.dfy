/** The outbox dispatcher: one batch attempts the oldest pending rows, and which healthy rows every
    run of batches is bound to send. */
module Outbox {
  import opened Collections
  import opened Options

  const BATCH_SIZE: nat := 32

  const CLEANUP_BATCH_SIZE: nat := 500
  const SEVEN_DAYS_MS := 604800000

  /** A row is pending until it has a `sentAt`. */
  datatype Row = Row(createdAt: int, sentAt: Option<int>, attempts: nat)

  type Rows = map<nat, Row>

  /** `NOW()` of the transaction that attempts a row, by the row's id. */
  type Clock = nat -> int

  function Pending(rows: Rows): set<nat>
  {
    set id | id in rows && rows[id].sentAt.None?
  }

  /** `ORDER BY created_at, event_id`. */
  predicate Older(rows: Rows, a: nat, b: nat)
    requires a in rows && b in rows
  {
    rows[a].createdAt < rows[b].createdAt || (rows[a].createdAt == rows[b].createdAt && a < b)
  }

  predicate IsOldest(rows: Rows, candidates: set<nat>, id: nat)
    requires candidates <= rows.Keys
  {
    id in candidates && forall other | other in candidates && other != id :: Older(rows, id, other)
  }

  lemma {:induction false} OldestExists(rows: Rows, candidates: set<nat>) returns (id: nat)
    requires candidates <= rows.Keys && candidates != {}
    ensures IsOldest(rows, candidates, id)
    decreases |candidates|
  {
    id :| id in candidates;
    if candidates - {id} != {} {
      var m := OldestExists(rows, candidates - {id});
      var first := if Older(rows, m, id) then m else id;
      forall other | other in candidates && other != first ensures Older(rows, first, other) {
        assert other == id || other == m || Older(rows, m, other);
      }
      id := first;
    } else {
      assert forall other | other in candidates :: other == id || other in candidates - {id};
    }
  }

  /** The row after one delivery attempt. */
  function Attempted(row: Row, rejected: bool, now: int): Row
  {
    row.(sentAt := if rejected then row.sentAt else Some(now), attempts := row.attempts + 1)
  }

  function SetOf(attempted: seq<nat>): set<nat>
  {
    set id | id in attempted
  }

  function AttemptAll(rows: Rows, ids: set<nat>, rejects: set<nat>, clock: Clock): Rows
  {
    map id | id in rows :: if id in ids then Attempted(rows[id], id in rejects, clock(id)) else rows[id]
  }

  /** The ids a batch attempts: the oldest pending rows, at most 32 of them. */
  ghost predicate OldestPending(rows: Rows, ids: set<nat>)
  {
    && ids <= Pending(rows)
    && |ids| == (if |Pending(rows)| < BATCH_SIZE then |Pending(rows)| else BATCH_SIZE)
    && forall x, y | x in ids && y in Pending(rows) && y !in ids :: Older(rows, x, y)
  }

  ghost predicate OldestFirst(rows: Rows, ids: set<nat>)
  {
    ids <= Pending(rows) && forall x, y | x in ids && y in Pending(rows) && y !in ids :: Older(rows, x, y)
  }

  lemma StillPending(rows: Rows, ids: set<nat>, rejects: set<nat>, clock: Clock)
    ensures Pending(AttemptAll(rows, ids, rejects, clock)) - ids == Pending(rows) - ids
  {}

  /** Attempting the oldest remaining row extends a batch by one. */
  lemma AttemptOneMore(rows: Rows, ids: set<nat>, rejects: set<nat>, clock: Clock, id: nat)
    requires OldestFirst(rows, ids)
    requires id in Pending(rows) - ids && Pending(rows) - ids <= AttemptAll(rows, ids, rejects, clock).Keys
    requires IsOldest(AttemptAll(rows, ids, rejects, clock), Pending(rows) - ids, id)
    ensures OldestFirst(rows, ids + {id})
    ensures AttemptAll(rows, ids + {id}, rejects, clock)
         == AttemptAll(rows, ids, rejects, clock)[
              id := Attempted(AttemptAll(rows, ids, rejects, clock)[id], id in rejects, clock(id))]
    ensures |ids + {id}| == |ids| + 1
    ensures |(ids + {id}) * rejects| == |ids * rejects| + if id in rejects then 1 else 0
  {
    var mid := AttemptAll(rows, ids, rejects, clock);
    forall x, y | x in ids + {id} && y in Pending(rows) && y !in ids + {id} ensures Older(rows, x, y) {
      if x == id { assert Older(mid, id, y); }
    }
    assert (ids + {id}) * rejects == if id in rejects then ids * rejects + {id} else ids * rejects;
  }

  // ---------------------------------------------------------------- cleaning up

  function Expired(rows: Rows, now: int): set<nat>
  {
    set id | id in rows && rows[id].sentAt.Some? && rows[id].sentAt.value < now - SEVEN_DAYS_MS
  }

  /** `ORDER BY sent_at, event_id`. */
  predicate SentBefore(rows: Rows, a: nat, b: nat)
    requires a in rows && b in rows && rows[a].sentAt.Some? && rows[b].sentAt.Some?
  {
    rows[a].sentAt.value < rows[b].sentAt.value || (rows[a].sentAt.value == rows[b].sentAt.value && a < b)
  }

  predicate AllSent(rows: Rows, ids: set<nat>)
  {
    forall id | id in ids :: id in rows && rows[id].sentAt.Some?
  }

  /** `ids` are the first of the candidates, `limit` of them or all. */
  predicate FirstSent(rows: Rows, candidates: set<nat>, limit: nat, ids: set<nat>)
    requires AllSent(rows, candidates)
  {
    && ids <= candidates && |ids| == Smaller(limit, |candidates|)
    && forall a, b | a in ids && b in candidates && b !in ids :: SentBefore(rows, a, b)
  }

  lemma {:induction false} LongestSent(rows: Rows, candidates: set<nat>) returns (id: nat)
    requires AllSent(rows, candidates) && candidates != {}
    ensures id in candidates && forall other | other in candidates && other != id :: SentBefore(rows, id, other)
    decreases |candidates|
  {
    id :| id in candidates;
    var rest := candidates - {id};
    if rest != {} {
      var m := LongestSent(rows, rest);
      var first := if SentBefore(rows, m, id) then m else id;
      forall other | other in candidates && other != first ensures SentBefore(rows, first, other) {
        assert other == id || other == m || SentBefore(rows, m, other);
      }
      id := first;
    } else {
      assert forall other | other in candidates :: other == id || other in rest;
    }
  }

  lemma {:induction false} FirstSentExists(rows: Rows, candidates: set<nat>, limit: nat) returns (ids: set<nat>)
    requires AllSent(rows, candidates)
    ensures FirstSent(rows, candidates, limit, ids)
    decreases limit
  {
    if limit == 0 {
      ids := {};
    } else {
      ids := FirstSentExists(rows, candidates, limit - 1);
      var rest := candidates - ids;
      SubsetCount(ids, candidates);
      if rest != {} {
        var next := LongestSent(rows, rest);
        assert candidates == ids + rest;
        assert |candidates| == |ids| + |rest| && |rest| > 0;
        forall a, b | a in ids + {next} && b in candidates && b !in ids + {next} ensures SentBefore(rows, a, b) {
          assert b in rest;
        }
        ids := ids + {next};
      } else {
        assert ids == candidates;
      }
    }
  }

  // ---------------------------------------------------------------- the dispatcher

  /** The table, and the Kafka broker as the set of ids it rejects. */
  class OutboxTable {
    var rows: Rows

    constructor (rows: Rows)
      ensures this.rows == rows
    {
      this.rows := rows;
    }

    /** One transaction: lock the oldest pending row not yet attempted, send it, record the result. */
    method DispatchNext(attempted: seq<nat>, rejects: set<nat>, clock: Clock) returns (r: Option<(nat, bool)>)
      modifies this
      ensures var candidates := Pending(old(rows)) - SetOf(attempted);
              if r.None? then candidates == {} && rows == old(rows)
              else IsOldest(old(rows), candidates, r.value.0)
                   && (r.value.1 <==> r.value.0 in rejects)
                   && rows == old(rows)[r.value.0 := Attempted(old(rows)[r.value.0], r.value.1, clock(r.value.0))]
    {
      var candidates := Pending(rows) - SetOf(attempted);
      if candidates == {} {
        return None;
      }
      ghost var witness_ := OldestExists(rows, candidates);
      var id :| id in candidates && IsOldest(rows, candidates, id);
      var failed := id in rejects;
      if failed {
        rows := rows[id := rows[id].(attempts := rows[id].attempts + 1)];
      } else {
        rows := rows[id := rows[id].(sentAt := Some(clock(id)), attempts := rows[id].attempts + 1)];
      }
      return Some((id, failed));
    }

    /** One more attempt of a batch that began on the rows `start` and has attempted `ids`. */
    method DispatchMore(attempted: seq<nat>, rejects: set<nat>, clock: Clock, ghost start: Rows, ghost ids: set<nat>)
      returns (result: Option<(nat, bool)>, ghost ids': set<nat>)
      requires ids == SetOf(attempted) && OldestFirst(start, ids) && rows == AttemptAll(start, ids, rejects, clock)
      modifies this
      ensures OldestFirst(start, ids') && rows == AttemptAll(start, ids', rejects, clock)
      ensures result.None? ==> ids' == ids == Pending(start)
      ensures result.Some? ==>
        && ids' == ids + {result.value.0} && |ids'| == |ids| + 1
        && |ids' * rejects| == |ids * rejects| + if result.value.1 then 1 else 0
    {
      StillPending(start, ids, rejects, clock);
      result := DispatchNext(attempted, rejects, clock);
      ids' := ids;
      assert Pending(old(rows)) - SetOf(attempted) == Pending(start) - ids;
      if result.None? {
        forall id | id in Pending(start) ensures id in ids {
          assert id !in Pending(start) - ids;
        }
      } else {
        AttemptOneMore(start, ids, rejects, clock, result.value.0);
        ids' := ids + {result.value.0};
      }
    }

    /** Up to 32 distinct rows, oldest first; a rejected row is skipped for the rest of the batch. */
    method DispatchBatch(rejects: set<nat>, clock: Clock) returns (processed: nat, failed: nat, ghost ids: set<nat>)
      modifies this
      ensures OldestPending(old(rows), ids)
      ensures rows == AttemptAll(old(rows), ids, rejects, clock)
      ensures processed == |ids| && failed == |ids * rejects|
    {
      var attempted: seq<nat> := [];
      failed := 0;
      ids := {};
      var drained := false;
      while |attempted| < BATCH_SIZE && !drained
        invariant |attempted| <= BATCH_SIZE && |attempted| == |ids| && ids == SetOf(attempted)
        invariant failed == |ids * rejects|
        invariant OldestFirst(old(rows), ids)
        invariant rows == AttemptAll(old(rows), ids, rejects, clock)
        invariant drained ==> ids == Pending(old(rows))
        decreases BATCH_SIZE - |attempted|, !drained
      {
        var result;
        result, ids := DispatchMore(attempted, rejects, clock, old(rows), ids);
        if result.None? {
          drained := true;
        } else {
          assert SetOf(attempted + [result.value.0]) == SetOf(attempted) + {result.value.0};
          attempted := attempted + [result.value.0];
          failed := failed + if result.value.1 then 1 else 0;
        }
      }
      SubsetCount(ids, Pending(old(rows)));
      processed := |attempted|;
    }

    /** One cleanup statement: the rows sent longest ago, at most 500 of those past seven days. */
    method CleanupBatch(now: int) returns (deleted: nat, ghost gone: set<nat>)
      modifies this
      ensures FirstSent(old(rows), Expired(old(rows), now), CLEANUP_BATCH_SIZE, gone)
      ensures rows == old(rows) - gone && deleted == |gone|
      ensures Pending(rows) == Pending(old(rows))
    {
      ghost var some := FirstSentExists(rows, Expired(rows, now), CLEANUP_BATCH_SIZE);
      var ids :| ids <= rows.Keys && FirstSent(rows, Expired(rows, now), CLEANUP_BATCH_SIZE, ids);
      gone := ids;
      rows := rows - ids;
      deleted := |ids|;
    }
  }

  // ---------------------------------------------------------------- runs of batches

  /** One batch, then any sent rows deleted and any new rows added that sort after `h`. */
  ghost predicate Round(before: Rows, after: Rows, rejects: set<nat>, h: nat)
    requires h in before
  {
    exists clock: Clock, ids, deleted: set<nat>, added: Rows ::
      RoundOf(before, after, rejects, h, clock, ids, deleted, added)
  }

  ghost predicate RoundOf(
      before: Rows, after: Rows, rejects: set<nat>, h: nat, clock: Clock, ids: set<nat>, deleted: set<nat>, added: Rows)
    requires h in before
  {
    var mid := AttemptAll(before, ids, rejects, clock);
    && OldestPending(before, ids)
    && deleted !! Pending(mid)
    && added.Keys !! before.Keys
    && (forall k | k in added :: before[h].createdAt < added[k].createdAt
                                 || (before[h].createdAt == added[k].createdAt && h < k))
    && after == (mid - deleted) + added
  }

  /** The rejected rows queued before `h`, and the healthy ones up to and including it. */
  ghost function Blockers(rows: Rows, rejects: set<nat>, h: nat): set<nat>
    requires h in rows
  {
    set x | x in Pending(rows) && x in rejects && Older(rows, x, h)
  }

  ghost function Ahead(rows: Rows, rejects: set<nat>, h: nat): set<nat>
    requires h in rows
  {
    set x | x in Pending(rows) && x !in rejects && (x == h || Older(rows, x, h))
  }

  lemma RoundEffect(
      before: Rows, after: Rows, rejects: set<nat>, h: nat, clock: Clock, ids: set<nat>, deleted: set<nat>, added: Rows)
    requires h in Pending(before) && h !in rejects && RoundOf(before, after, rejects, h, clock, ids, deleted, added)
    ensures h in Pending(after) <==> h !in ids
    ensures h in Pending(after) ==> Blockers(after, rejects, h) == Blockers(before, rejects, h)
    ensures h in Pending(after) ==> Ahead(after, rejects, h) == Ahead(before, rejects, h) - ids
  {
    var mid := AttemptAll(before, ids, rejects, clock);
    assert Pending(mid) == Pending(before) - (ids - rejects);
    assert forall x | x in Pending(mid) :: x in after && after[x] == mid[x];
    assert forall x | x in after && x in before :: after[x] == mid[x] && after[x].createdAt == before[x].createdAt;
    if h !in ids {
      assert h in Pending(mid);
      forall x ensures x in Blockers(after, rejects, h) <==> x in Blockers(before, rejects, h) {
        if x in before && x !in after { assert x in deleted; }
      }
      forall x ensures x in Ahead(after, rejects, h) <==> x in Ahead(before, rejects, h) - ids {
        if x in before && x !in after { assert x in deleted; }
      }
    }
  }

  /** With fewer than 32 blockers every round that does not send `h` sends others ahead of it. */
  lemma RoundMoves(before: Rows, after: Rows, rejects: set<nat>, h: nat)
    requires h in Pending(before) && h !in rejects && Round(before, after, rejects, h)
    requires |Blockers(before, rejects, h)| < BATCH_SIZE && h in Pending(after)
    ensures Blockers(after, rejects, h) == Blockers(before, rejects, h)
    ensures |Ahead(after, rejects, h)| + BATCH_SIZE - |Blockers(before, rejects, h)| <= |Ahead(before, rejects, h)|
  {
    var clock, ids, deleted, added :| RoundOf(before, after, rejects, h, clock, ids, deleted, added);
    RoundEffect(before, after, rejects, h, clock, ids, deleted, added);
    FullBatchAhead(before, ids, rejects, h);
    BatchParts(ids, Blockers(before, rejects, h), Ahead(before, rejects, h));
  }

  /** A batch that misses `h` is full of rows that come before it. */
  lemma FullBatchAhead(rows: Rows, ids: set<nat>, rejects: set<nat>, h: nat)
    requires h in Pending(rows) && h !in rejects && OldestPending(rows, ids) && h !in ids
    ensures |ids| == BATCH_SIZE && ids <= Blockers(rows, rejects, h) + Ahead(rows, rejects, h)
  {
    SubsetCount(ids, Pending(rows));
    forall x | x in ids ensures x in Blockers(rows, rejects, h) + Ahead(rows, rejects, h) {
      assert Older(rows, x, h);
    }
  }

  lemma BatchParts(ids: set<nat>, blockers: set<nat>, ahead: set<nat>)
    requires ids <= blockers + ahead && blockers !! ahead
    ensures |ahead - ids| + |ids| - |blockers| <= |ahead|
  {
    assert ids == (ids * blockers) + (ids * ahead);
    assert |ids| == |ids * blockers| + |ids * ahead|;
    SubsetCount(ids * blockers, blockers);
    assert ahead == (ahead - ids) + (ids * ahead);
    assert |ahead| == |ahead - ids| + |ids * ahead|;
  }

  lemma BatchMisses(rows: Rows, ids: set<nat>, rejects: set<nat>, h: nat)
    requires h in Pending(rows) && h !in rejects && OldestPending(rows, ids)
    requires |Blockers(rows, rejects, h)| >= BATCH_SIZE
    ensures h !in ids
  {
    var blockers := Blockers(rows, rejects, h);
    assert |blockers + {h}| == |blockers| + 1;
    if h in ids {
      forall x | x in blockers ensures x in ids {
        assert !Older(rows, h, x);
      }
      SubsetCount(blockers + {h}, ids);
      assert false;
    }
  }

  /** With 32 blockers or more no round reaches `h`. */
  lemma RoundStuck(before: Rows, after: Rows, rejects: set<nat>, h: nat)
    requires h in Pending(before) && h !in rejects && Round(before, after, rejects, h)
    requires |Blockers(before, rejects, h)| >= BATCH_SIZE
    ensures h in Pending(after) && Blockers(after, rejects, h) == Blockers(before, rejects, h)
  {
    var clock, ids, deleted, added :| RoundOf(before, after, rejects, h, clock, ids, deleted, added);
    BatchMisses(before, ids, rejects, h);
    RoundEffect(before, after, rejects, h, clock, ids, deleted, added);
  }

  /** A run of rounds for as long as `h` is pending. */
  ghost predicate Rounds(trace: seq<Rows>, rejects: set<nat>, h: nat)
  {
    && trace != []
    && forall i | 0 <= i < |trace| - 1 && h in Pending(trace[i]) :: Round(trace[i], trace[i + 1], rejects, h)
  }

  lemma {:induction false} RunMoves(trace: seq<Rows>, rejects: set<nat>, h: nat, n: nat)
    requires Rounds(trace, rejects, h) && n < |trace| && h in Pending(trace[0]) && h !in rejects
    requires forall i :: 0 <= i <= n ==> h in trace[i] && h in Pending(trace[i])
    requires |Blockers(trace[0], rejects, h)| < BATCH_SIZE
    ensures Blockers(trace[n], rejects, h) == Blockers(trace[0], rejects, h)
    ensures |Ahead(trace[n], rejects, h)| + n * (BATCH_SIZE - |Blockers(trace[0], rejects, h)|)
            <= |Ahead(trace[0], rejects, h)|
  {
    if n > 0 {
      RunMoves(trace, rejects, h, n - 1);
      RoundMoves(trace[n - 1], trace[n], rejects, h);
      var k := BATCH_SIZE - |Blockers(trace[0], rejects, h)|;
      assert n * k == (n - 1) * k + k;
    }
  }

  lemma {:induction false} RunStuck(trace: seq<Rows>, rejects: set<nat>, h: nat, n: nat)
    requires Rounds(trace, rejects, h) && n < |trace| && h in Pending(trace[0]) && h !in rejects
    requires |Blockers(trace[0], rejects, h)| >= BATCH_SIZE
    ensures h in Pending(trace[n]) && Blockers(trace[n], rejects, h) == Blockers(trace[0], rejects, h)
  {
    if n > 0 {
      RunStuck(trace, rejects, h, n - 1);
      RoundStuck(trace[n - 1], trace[n], rejects, h);
    }
  }

  ghost function UpTo(n: nat): (ids: set<nat>)
    ensures |ids| == n && forall id: nat :: id in ids <==> id < n
  {
    if n == 0 then {} else UpTo(n - 1) + {n - 1}
  }

  function StarvingRow(n: nat, rounds: nat, id: nat): Row
  {
    Row(0, None, if id < n then rounds else 0)
  }

  /** `n` rejected rows and a healthy one behind them, after some rounds of attempts. */
  ghost function Starving(n: nat, rounds: nat): Rows
  {
    var ids := UpTo(n + 1);
    map id | id in ids :: StarvingRow(n, rounds, id)
  }

  lemma StarvingAttempted(n: nat, rounds: nat, clock: Clock)
    ensures AttemptAll(Starving(n, rounds), UpTo(n), UpTo(n), clock) == Starving(n, rounds + 1)
  {
    var ids, all := UpTo(n), UpTo(n + 1);
    var before, after := Starving(n, rounds), Starving(n, rounds + 1);
    assert before.Keys == all && after.Keys == all;
    forall id | id in all ensures AttemptAll(before, ids, ids, clock)[id] == after[id] {
      assert before[id] == StarvingRow(n, rounds, id) && after[id] == StarvingRow(n, rounds + 1, id);
    }
  }

  lemma StarvingOldest(n: nat, rounds: nat)
    requires n == BATCH_SIZE
    ensures OldestPending(Starving(n, rounds), UpTo(n))
  {
    assert Pending(Starving(n, rounds)) == UpTo(n + 1);
  }

  /** A batch alone is a round. */
  lemma BatchIsRound(before: Rows, rejects: set<nat>, h: nat, ids: set<nat>, clock: Clock)
    requires h in before && OldestPending(before, ids)
    ensures Round(before, AttemptAll(before, ids, rejects, clock), rejects, h)
  {
    var after, deleted: set<nat>, added: Rows := AttemptAll(before, ids, rejects, clock), {}, map[];
    assert after == (after - deleted) + added;
    assert RoundOf(before, after, rejects, h, clock, ids, deleted, added);
  }

  ghost predicate Starves(before: Rows, after: Rows, n: nat)
  {
    n in before && n in Pending(before) && before[n] == Row(0, None, 0) && Round(before, after, UpTo(n), n)
  }

  lemma StarvingRound(n: nat, rounds: nat)
    requires n == BATCH_SIZE
    ensures Starves(Starving(n, rounds), Starving(n, rounds + 1), n)
  {
    var clock: Clock := (id: nat) => 0;
    StarvingAttempted(n, rounds, clock);
    StarvingOldest(n, rounds);
    BatchIsRound(Starving(n, rounds), UpTo(n), n, UpTo(n), clock);
  }

  ghost predicate StarvedRun(trace: seq<Rows>, n: nat)
  {
    forall i | 0 <= i < |trace| - 1 :: Starves(trace[i], trace[i + 1], n)
  }

  lemma StarvedLonger(trace: seq<Rows>, next: Rows, n: nat)
    requires trace != [] && StarvedRun(trace, n) && Starves(trace[|trace| - 1], next, n)
    ensures StarvedRun(trace + [next], n)
  {
    var longer := trace + [next];
    forall i | 0 <= i < |longer| - 1 ensures Starves(longer[i], longer[i + 1], n) {
      assert i < |trace| - 1 ==> Starves(trace[i], trace[i + 1], n);
    }
  }

  lemma {:induction false} StarvedTrace(n: nat, rounds: nat) returns (trace: seq<Rows>)
    requires n == BATCH_SIZE
    ensures |trace| == rounds + 1 && trace[0] == Starving(n, 0) && trace[rounds] == Starving(n, rounds)
    ensures StarvedRun(trace, n)
  {
    if rounds == 0 {
      trace := [Starving(n, 0)];
    } else {
      var shorter := StarvedTrace(n, rounds - 1);
      StarvingRound(n, rounds - 1);
      StarvedLonger(shorter, Starving(n, rounds), n);
      trace := shorter + [Starving(n, rounds)];
    }
  }

  /** Runs of any length in which the row behind 32 rejected ones is never attempted. */
  lemma StarvedForever(n: nat, rounds: nat) returns (trace: seq<Rows>)
    requires n == BATCH_SIZE
    ensures |trace| == rounds + 1 && trace[0] == Starving(n, 0) && Rounds(trace, UpTo(n), n)
    ensures forall i | 0 <= i <= rounds :: n in Pending(trace[i]) && trace[i][n] == Row(0, None, 0)
  {
    trace := StarvedTrace(n, rounds);
    forall i | 0 <= i <= rounds ensures n in Pending(trace[i]) && trace[i][n] == Row(0, None, 0) {
      if i < rounds {
        assert Starves(trace[i], trace[i + 1], n);
      } else {
        StarvingRound(n, rounds);
      }
    }
    forall i | 0 <= i < |trace| - 1 && n in Pending(trace[i]) ensures Round(trace[i], trace[i + 1], UpTo(n), n) {
      assert Starves(trace[i], trace[i + 1], n);
    }
  }

  /** No starvation, exactly: in every run with as many rounds as there are healthy rows up to `h`, a
      healthy pending row `h` gets sent if and only if fewer than 32 permanently rejected rows are
      queued before it. */
  lemma SentIffFewBlockers(trace: seq<Rows>, rejects: set<nat>, h: nat)
    requires Rounds(trace, rejects, h) && h in Pending(trace[0]) && h !in rejects
    requires |trace| > |Ahead(trace[0], rejects, h)|
    ensures (exists n :: 0 <= n < |trace| && h !in Pending(trace[n])) <==> |Blockers(trace[0], rejects, h)| < BATCH_SIZE
  {
    if |Blockers(trace[0], rejects, h)| < BATCH_SIZE {
      var last, k := |trace| - 1, BATCH_SIZE - |Blockers(trace[0], rejects, h)|;
      assert last * k >= last;
      if forall n :: 0 <= n < |trace| ==> h in trace[n] && h in Pending(trace[n]) {
        assert h in Ahead(trace[last], rejects, h);
        RunMoves(trace, rejects, h, last);
        assert false;
      }
    } else {
      forall n | 0 <= n < |trace| ensures h in Pending(trace[n]) {
        RunStuck(trace, rejects, h, n);
      }
    }
  }

  // ---------------------------------------------------------------- the batches in numbers

  /** A batch takes at most 32 pending rows, all of them if there are fewer, the first created first and of
      one instant the smaller id. */
  lemma BatchInNumbers(rows: Rows, ids: set<nat>)
    requires OldestPending(rows, ids)
    ensures |ids| <= 32 && ids <= rows.Keys && forall id | id in ids :: rows[id].sentAt == None
    ensures |ids| < 32 ==> ids == Pending(rows)
    ensures forall a, b | a in ids && b in rows && rows[b].sentAt == None && b !in ids ::
              rows[a].createdAt <= rows[b].createdAt && (rows[a].createdAt == rows[b].createdAt ==> a < b)
  {
    SubsetCount(ids, Pending(rows));
  }

  /** A cleanup takes at most 500 rows sent more than seven times 24 hours before, all of them if there are
      fewer, the first sent first and of one instant the smaller id. */
  lemma CleanupInNumbers(rows: Rows, now: int, ids: set<nat>)
    requires FirstSent(rows, Expired(rows, now), CLEANUP_BATCH_SIZE, ids)
    ensures |ids| <= 500 && ids <= rows.Keys
    ensures forall id | id in ids :: rows[id].sentAt.Some? && now - rows[id].sentAt.value > 7 * 24 * 3600 * 1000
    ensures forall a, b | a in ids && b in rows && rows[b].sentAt.Some? && b !in ids
                          && now - rows[b].sentAt.value > 7 * 24 * 3600 * 1000 ::
              && |ids| == 500 && rows[a].sentAt.value <= rows[b].sentAt.value
              && (rows[a].sentAt.value == rows[b].sentAt.value ==> a < b)
  {
    SubsetCount(ids, Expired(rows, now));
  }

}
