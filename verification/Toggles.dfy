/** Like / save / share / hide: the transaction that changes the interaction row, the counter, the
    canonical behaviour log and the outbox together, and what each of them says about the others. */
module Toggles {
  import opened Options
  import opened TopicVectors
  import opened FeatureWorker

  datatype Kind = Like | Save | Share | Hide

  /** The primary key of `interactions`. */
  datatype Key = Key(user: nat, post: nat, kind: Kind)

  /** A canonical row of `behavior_events`: an action (`on`) or its reversal. */
  datatype LogEvent = LogEvent(id: nat, at: int, key: Key, on: bool)

  datatype Tables = Tables(
    posts: set<nat>,
    rows: set<Key>,
    counters: map<(nat, Kind), int>,
    log: seq<LogEvent>,
    outbox: seq<Envelope>)

  /** One request. `id` and `at` are the UUID and `NOW()` its transaction will use. */
  datatype Request = Request(key: Key, on: bool, id: nat, at: int)

  datatype Status = NotFound | Created | Ok | NoContent

  predicate Changes(t: Tables, r: Request)
  {
    r.key.post in t.posts && (r.on <==> r.key !in t.rows)
  }

  /** `counter_column`: hides are not counted. */
  predicate Counted(kind: Kind)
  {
    kind != Hide
  }

  function Counter(t: Tables, post: nat, kind: Kind): int
  {
    if (post, kind) in t.counters then t.counters[(post, kind)] else 0
  }

  function ActionType(kind: Kind, on: bool): EventType
  {
    match kind
    case Like => if on then Liked else Unliked
    case Save => if on then Saved else Unsaved
    case Share => if on then Shared else Unshared
    case Hide => if on then Hidden else Unhide
  }

  function EnvelopeOf(e: LogEvent): Envelope
  {
    Envelope(ActionType(e.key.kind, e.on), Version1, Uuid(e.id), Uuid(e.key.user), Missing, Missing,
             Some(e.key.post), None)
  }

  function Toggle(t: Tables, r: Request): Tables
  {
    if !Changes(t, r) then t
    else
      var e := LogEvent(r.id, r.at, r.key, r.on);
      var cell := (r.key.post, r.key.kind);
      t.(rows := if r.on then t.rows + {r.key} else t.rows - {r.key},
         counters := if Counted(r.key.kind)
                     then t.counters[cell := Counter(t, r.key.post, r.key.kind) + (if r.on then 1 else -1)]
                     else t.counters,
         log := t.log + [e],
         outbox := t.outbox + [EnvelopeOf(e)])
  }

  function RunAll(t: Tables, requests: seq<Request>): Tables
  {
    if requests == [] then t
    else Toggle(RunAll(t, requests[..|requests| - 1]), requests[|requests| - 1])
  }

  function Empty(posts: set<nat>): Tables
  {
    Tables(posts, {}, map[], [], [])
  }

  /** The tables as one mutable object, changed statement by statement inside one transaction. */
  class InteractionTables {
    var posts: set<nat>
    var rows: set<Key>
    var counters: map<(nat, Kind), int>
    var log: seq<LogEvent>
    var outbox: seq<Envelope>

    ghost function State(): Tables
      reads this
    {
      Tables(posts, rows, counters, log, outbox)
    }

    constructor (posts: set<nat>)
      ensures State() == Empty(posts)
    {
      this.posts, rows, counters, log, outbox := posts, {}, map[], [], [];
    }

    method InsertInteraction(key: Key) returns (changed: bool)
      modifies this`rows
      ensures changed <==> key !in old(rows)
      ensures rows == old(rows) + {key}
    {
      changed := key !in rows;
      rows := rows + {key};
    }

    method DeleteInteraction(key: Key) returns (changed: bool)
      modifies this`rows
      ensures changed <==> key in old(rows)
      ensures rows == old(rows) - {key}
    {
      changed := key in rows;
      rows := rows - {key};
    }

    method BumpCounter(post: nat, kind: Kind, delta: int)
      modifies this`counters
      ensures counters == old(counters)[(post, kind) := Counter(old(State()), post, kind) + delta]
    {
      var before := if (post, kind) in counters then counters[(post, kind)] else 0;
      counters := counters[(post, kind) := before + delta];
    }

    method TogglePost(r: Request) returns (status: Status)
      modifies this
      ensures State() == Toggle(old(State()), r)
      ensures status == if r.key.post !in old(posts) then NotFound
                        else if !r.on then NoContent
                        else if r.key in old(rows) then Ok else Created
    {
      if r.key.post !in posts {
        return NotFound;
      }
      var changed;
      if r.on {
        changed := InsertInteraction(r.key);
      } else {
        changed := DeleteInteraction(r.key);
      }
      if changed {
        if Counted(r.key.kind) {
          BumpCounter(r.key.post, r.key.kind, if r.on then 1 else -1);
        }
        var e := LogEvent(r.id, r.at, r.key, r.on);
        log := log + [e];
        outbox := outbox + [EnvelopeOf(e)];
      }
      status := if !r.on then NoContent else if changed then Created else Ok;
    }
  }

  // ---------------------------------------------------------------- the log and the rows

  function KeyLog(log: seq<LogEvent>, key: Key): seq<LogEvent>
  {
    if log == [] then []
    else
      var init := KeyLog(log[..|log| - 1], key);
      var last := log[|log| - 1];
      if last.key == key then init + [last] else init
  }

  lemma KeyLogSnoc(log: seq<LogEvent>, e: LogEvent, key: Key)
    ensures KeyLog(log + [e], key) == if e.key == key then KeyLog(log, key) + [e] else KeyLog(log, key)
  {
    assert (log + [e])[..|log|] == log;
  }

  ghost predicate KeyIsConsistent(log: seq<LogEvent>, rows: set<Key>, key: Key)
  {
    Alternates(KeyLog(log, key)) && (key in rows <==> |KeyLog(log, key)| % 2 == 1)
  }

  /** Per key the log alternates action, reversal, action, ...; the row exists exactly when an action
      is last; every counter is the number of its rows; each event has its envelope, in order. */
  ghost predicate Consistent(t: Tables)
  {
    && (forall key :: KeyIsConsistent(t.log, t.rows, key))
    && (forall post, kind | Counted(kind) :: Counter(t, post, kind) == |RowsOf(t.rows, post, kind)|)
    && |t.outbox| == |t.log|
    && forall i | 0 <= i < |t.log| :: t.outbox[i] == EnvelopeOf(t.log[i])
  }

  ghost predicate Alternates(events: seq<LogEvent>)
  {
    forall i | 0 <= i < |events| :: events[i].on <==> i % 2 == 0
  }

  function RowsOf(rows: set<Key>, post: nat, kind: Kind): set<Key>
  {
    set k | k in rows && k.post == post && k.kind == kind
  }

  lemma KeyStep(log: seq<LogEvent>, rows: set<Key>, e: LogEvent, key: Key)
    requires KeyIsConsistent(log, rows, key) && (e.on <==> e.key !in rows)
    ensures KeyIsConsistent(log + [e], if e.on then rows + {e.key} else rows - {e.key}, key)
  {
    KeyLogSnoc(log, e, key);
  }

  lemma ToggleKeepsConsistent(t: Tables, r: Request)
    requires Consistent(t)
    ensures Consistent(Toggle(t, r))
  {
    if Changes(t, r) {
      var t' := Toggle(t, r);
      forall key ensures KeyIsConsistent(t'.log, t'.rows, key) {
        assert KeyIsConsistent(t.log, t.rows, key);
        KeyStep(t.log, t.rows, LogEvent(r.id, r.at, r.key, r.on), key);
      }
      forall post, kind | Counted(kind) ensures Counter(t', post, kind) == |RowsOf(t'.rows, post, kind)| {
        CounterStep(t, r, post, kind);
      }
    }
  }

  lemma CounterStep(t: Tables, r: Request, post: nat, kind: Kind)
    requires Changes(t, r) && Counted(kind)
    requires Counter(t, post, kind) == |RowsOf(t.rows, post, kind)|
    ensures Counter(Toggle(t, r), post, kind) == |RowsOf(Toggle(t, r).rows, post, kind)|
  {
    CountStep(t.rows, r, post, kind);
  }

  /** One more or one fewer row of the toggled post and kind, and no other. */
  lemma CountStep(rows: set<Key>, r: Request, post: nat, kind: Kind)
    requires r.on <==> r.key !in rows
    ensures var after := if r.on then rows + {r.key} else rows - {r.key};
            |RowsOf(after, post, kind)|
            == |RowsOf(rows, post, kind)|
               + (if r.key.post != post || r.key.kind != kind then 0 else if r.on then 1 else -1)
  {
    var next := if r.on then rows + {r.key} else rows - {r.key};
    var before, after := RowsOf(rows, post, kind), RowsOf(next, post, kind);
    if r.key.post == post && r.key.kind == kind {
      assert if r.on then after == before + {r.key} else before == after + {r.key};
    } else {
      assert after == before;
    }
  }

  /** Event sourcing agrees with the tables after every run of requests. */
  lemma {:induction false} EveryRunIsConsistent(posts: set<nat>, requests: seq<Request>)
    ensures Consistent(RunAll(Empty(posts), requests))
  {
    if requests == [] {
      var t := Empty(posts);
      forall post, kind | Counted(kind) ensures Counter(t, post, kind) == |RowsOf(t.rows, post, kind)| {
        assert RowsOf(t.rows, post, kind) == {};
      }
    } else {
      EveryRunIsConsistent(posts, requests[..|requests| - 1]);
      ToggleKeepsConsistent(RunAll(Empty(posts), requests[..|requests| - 1]), requests[|requests| - 1]);
    }
  }

  // ---------------------------------------------------------------- replay order against commit order

  /** The replay order: `ORDER BY occurred_at, id`. */
  predicate Before(a: LogEvent, b: LogEvent)
  {
    a.at < b.at || (a.at == b.at && a.id < b.id)
  }

  /** What a replay in timestamp order concludes about `key`: its latest event is an action. */
  ghost predicate ReplayActive(log: seq<LogEvent>, key: Key)
  {
    exists e :: e in KeyLog(log, key) && e.on && forall f | f in KeyLog(log, key) && f != e :: Before(f, e)
  }

  ghost predicate Agrees(t: Tables, key: Key)
  {
    ReplayActive(t.log, key) <==> key in t.rows
  }

  ghost predicate FreshId(t: Tables, r: Request)
  {
    forall e | e in t.log :: e.id != r.id
  }

  ghost predicate SortsLast(t: Tables, r: Request)
  {
    forall f | f in KeyLog(t.log, r.key) :: Before(f, LogEvent(r.id, r.at, r.key, r.on))
  }

  lemma {:induction false} KeyLogMembers(log: seq<LogEvent>, key: Key)
    ensures forall e :: e in KeyLog(log, key) <==> e in log && e.key == key
  {
    if log != [] {
      KeyLogMembers(log[..|log| - 1], key);
      assert log == log[..|log| - 1] + [log[|log| - 1]];
    }
  }

  /** Some event of a non-empty log is later than all others. */
  lemma {:induction false} LatestExists(events: seq<LogEvent>) returns (m: LogEvent)
    requires events != []
    requires forall a, b | a in events && b in events && a != b :: a.id != b.id
    ensures m in events && forall f | f in events && f != m :: Before(f, m)
  {
    if |events| == 1 {
      m := events[0];
    } else {
      var init, last := events[..|events| - 1], events[|events| - 1];
      assert events == init + [last];
      m := LatestExists(init);
      if Before(m, last) {
        m := last;
      }
    }
  }

  /** A request that changes a row keeps replay and table in agreement exactly when its event sorts
      after every earlier event of the same key. */
  lemma ToggleKeepsAgreementIff(t: Tables, r: Request)
    requires Consistent(t) && Changes(t, r) && FreshId(t, r) && Agrees(t, r.key)
    requires forall a, b | a in t.log && b in t.log && a != b :: a.id != b.id
    ensures Agrees(Toggle(t, r), r.key) <==> SortsLast(t, r)
    ensures forall key | key != r.key && Agrees(t, key) :: Agrees(Toggle(t, r), key)
  {
    var t' := Toggle(t, r);
    var e := LogEvent(r.id, r.at, r.key, r.on);
    forall key ensures KeyLog(t'.log, key) == if e.key == key then KeyLog(t.log, key) + [e] else KeyLog(t.log, key) {
      KeyLogSnoc(t.log, e, key);
    }
    var before, after := KeyLog(t.log, r.key), KeyLog(t'.log, r.key);
    KeyLogMembers(t.log, r.key);
    assert after == before + [e];
    if before == [] {
      assert SortsLast(t, r);
      assert e in after;
    } else {
      var m := LatestExists(before);
      assert m in before && m in after && e in after;
      LatestDecides(before, m, t.log, r.key);
      if Before(m, e) {
        LatestDecides(after, e, t'.log, r.key);
      } else {
        assert Before(e, m);
        LatestDecides(after, m, t'.log, r.key);
      }
    }
  }

  lemma LatestDecides(events: seq<LogEvent>, m: LogEvent, log: seq<LogEvent>, key: Key)
    requires events == KeyLog(log, key) && m in events && forall f | f in events && f != m :: Before(f, m)
    ensures ReplayActive(log, key) <==> m.on
  {}

  ghost predicate DistinctIds(t: Tables)
  {
    forall a, b | a in t.log && b in t.log && a != b :: a.id != b.id
  }

  /** Every event of the log is the event of some request. */
  ghost predicate Requested(t: Tables, requests: seq<Request>)
  {
    forall e | e in t.log :: exists r :: r in requests && e == LogEvent(r.id, r.at, r.key, r.on)
  }

  /** With every request's timestamp past its key's earlier ones, replay equals the rows throughout. */
  lemma {:induction false} OrderedRunsAgree(posts: set<nat>, requests: seq<Request>, key: Key)
    requires forall i, j | 0 <= i < j < |requests| :: requests[i].id != requests[j].id
    requires forall i, j | 0 <= i < j < |requests| && requests[i].key == requests[j].key ::
               requests[i].at < requests[j].at || (requests[i].at == requests[j].at && requests[i].id < requests[j].id)
    ensures Agrees(RunAll(Empty(posts), requests), key)
    ensures Requested(RunAll(Empty(posts), requests), requests)
  {
    var t' := RunAll(Empty(posts), requests);
    if requests != [] {
      var init, r := requests[..|requests| - 1], requests[|requests| - 1];
      var t := RunAll(Empty(posts), init);
      assert requests == init + [r];
      OrderedRunsAgree(posts, init, key);
      OrderedRunsAgree(posts, init, r.key);
      if Changes(t, r) {
        OrderedToggle(posts, requests);
        OrderedStep(t, r, key);
      }
      forall e | e in t'.log ensures exists r :: r in requests && e == LogEvent(r.id, r.at, r.key, r.on) {
        if e in t.log {
          var r0 :| r0 in init && e == LogEvent(r0.id, r0.at, r0.key, r0.on);
          assert r0 in requests;
        } else {
          assert r in requests;
        }
      }
    }
  }

  /** The last request of an ordered run sorts after the events its key has so far. */
  lemma OrderedToggle(posts: set<nat>, requests: seq<Request>)
    requires requests != [] && forall i, j | 0 <= i < j < |requests| :: requests[i].id != requests[j].id
    requires forall i, j | 0 <= i < j < |requests| && requests[i].key == requests[j].key ::
               requests[i].at < requests[j].at || (requests[i].at == requests[j].at && requests[i].id < requests[j].id)
    requires Requested(RunAll(Empty(posts), requests[..|requests| - 1]), requests[..|requests| - 1])
    ensures var t, r := RunAll(Empty(posts), requests[..|requests| - 1]), requests[|requests| - 1];
            Consistent(t) && DistinctIds(t) && FreshId(t, r) && SortsLast(t, r)
  {
    var init, r := requests[..|requests| - 1], requests[|requests| - 1];
    var t := RunAll(Empty(posts), init);
    EveryRunIsConsistent(posts, init);
    LogIdsDistinct(posts, init);
    KeyLogMembers(t.log, r.key);
    forall e | e in t.log ensures e.id != r.id && (e.key == r.key ==> Before(e, LogEvent(r.id, r.at, r.key, r.on))) {
      var r0 :| r0 in init && e == LogEvent(r0.id, r0.at, r0.key, r0.on);
      var i :| 0 <= i < |init| && init[i] == r0;
      assert requests[i] == r0;
    }
  }

  lemma OrderedStep(t: Tables, r: Request, key: Key)
    requires Consistent(t) && DistinctIds(t) && FreshId(t, r) && SortsLast(t, r) && Changes(t, r) && Agrees(t, r.key)
            && Agrees(t, key)
    ensures Agrees(Toggle(t, r), key)
  {
    ToggleKeepsAgreementIff(t, r);
  }

  lemma {:induction false} LogIdsDistinct(posts: set<nat>, requests: seq<Request>)
    requires forall i, j | 0 <= i < j < |requests| :: requests[i].id != requests[j].id
    ensures DistinctIds(RunAll(Empty(posts), requests)) && IdsRequested(RunAll(Empty(posts), requests), requests)
  {
    if requests != [] {
      var init, r := requests[..|requests| - 1], requests[|requests| - 1];
      LogIdsDistinct(posts, init);
      assert requests == init + [r];
      assert forall r' | r' in init :: r'.id != r.id;
      IdsStep(RunAll(Empty(posts), init), init, r);
    }
  }

  ghost predicate IdsRequested(t: Tables, requests: seq<Request>)
  {
    forall e | e in t.log :: exists r :: r in requests && r.id == e.id
  }

  lemma IdsStep(t: Tables, requests: seq<Request>, r: Request)
    requires DistinctIds(t) && IdsRequested(t, requests) && forall r' | r' in requests :: r'.id != r.id
    ensures DistinctIds(Toggle(t, r)) && IdsRequested(Toggle(t, r), requests + [r])
  {
    forall e | e in t.log ensures e.id != r.id && exists r' :: r' in requests + [r] && r'.id == e.id {
      var r' :| r' in requests && r'.id == e.id;
      assert r' in requests + [r];
    }
    assert r in requests + [r];
  }

  /** `NOW()` is the start of the transaction: an unlike that began first but committed second leaves
      the row gone and the replayed like standing. */
  lemma LateCommitDisagrees(user: nat, post: nat)
    ensures var key := Key(user, post, Like);
            var t := RunAll(Empty({post}), [Request(key, true, 1, 20), Request(key, false, 2, 10)]);
            key !in t.rows && ReplayActive(t.log, key)
  {
    var key := Key(user, post, Like);
    var like, unlike := Request(key, true, 1, 20), Request(key, false, 2, 10);
    assert [like, unlike][..1] == [like] && [like][..0] == [];
    var t1 := RunAll(Empty({post}), [like]);
    var a, b := LogEvent(1, 20, key, true), LogEvent(2, 10, key, false);
    assert RunAll(Empty({post}), []) == Empty({post});
    assert t1 == Toggle(RunAll(Empty({post}), [like][..0]), like);
    assert t1.log == [a];
    var t := Toggle(t1, unlike);
    assert t == RunAll(Empty({post}), [like, unlike]) && t.log == [a, b];
    KeyLogMembers(t.log, key);
    assert a in KeyLog(t.log, key);
  }
}
