/** What whole runs of behaviour batches keep: rows, view counters and outbox, and whose read an outbox
    event stands for. */
module BehaviorRuns {
  import opened Collections
  import opened Options
  import opened Sorting
  import opened BehaviorValidation
  import opened BehaviorIngest
  import opened BehaviorBatches
  import W = FeatureWorker

  // ---------------------------------------------------------------- runs

  /** A request, with the instant at which it was validated and the row ids made then. */
  datatype Request = Request(user: nat, raws: seq<Option<Raw>>, now: int, chance: Chance)

  function Empty(): Tables
  {
    Tables(map[], map[], map[])
  }

  /** A run lists the requests in the order in which their transactions commit. They may overlap: instants
      and row ids follow no order. */
  function RunAll(cfg: Config, world: World, requests: seq<Request>): Tables
  {
    if requests == [] then Empty()
    else
      var r, init := requests[|requests| - 1], requests[..|requests| - 1];
      Ingested(cfg, RunAll(cfg, world, init), r.user, r.raws, r.now, world, r.chance).0
  }

  function RowsOf(user: nat, items: seq<Item>): (rows: seq<Row>)
    ensures |rows| == |items| && forall i | 0 <= i < |items| :: rows[i] == Row(items[i].id, user, items[i].event)
  {
    if items == [] then []
    else
      var last := items[|items| - 1];
      RowsOf(user, items[..|items| - 1]) + [Row(last.id, user, last.event)]
  }

  /** What a request inserts, in the order of the insert. */
  function Inserted(cfg: Config, t: Tables, r: Request, world: World): seq<Item>
  {
    var s := StagesOf(t, r.user, r.raws, r.now, world, cfg.qualifiedMs, r.chance);
    if BadSize(r.raws) || !InsertHolds(world, r.user, s) then [] else Arranged(s.unseen, r.chance)
  }

  /** All rows of a run, in the order in which they were inserted. */
  function History(cfg: Config, world: World, requests: seq<Request>): seq<Row>
  {
    if requests == [] then []
    else
      var r, init := requests[|requests| - 1], requests[..|requests| - 1];
      History(cfg, world, init) + RowsOf(r.user, Inserted(cfg, RunAll(cfg, world, init), r, world))
  }

  // ---------------------------------------------------------------- the invariant

  /** The table holds exactly the inserted rows, one per client id, each with its own user's and post's
      impression and a signal that its duration supports. */
  ghost predicate RowsInv(cfg: Config, world: World, rows: map<nat, Row>, history: seq<Row>)
  {
    && (forall c | c in rows :: rows[c] in history && RowRight(cfg, world, rows[c], c))
    && (forall row | row in history :: row.event.clientId in rows && rows[row.event.clientId] == row)
    && Distinct(history)
  }

  predicate RowRight(cfg: Config, world: World, row: Row, client: nat)
  {
    && row.event.clientId == client && RightImpression(world, row.user, row.event)
    && (row.event.qualified ==>
          OrZero(row.event.dwellMs) >= cfg.qualifiedMs && (row.event.kind == View || row.event.kind == Dwell))
  }

  function ViewRows(rows: map<nat, Row>, post: nat): set<nat>
  {
    set c | c in rows && rows[c].event.kind == View && rows[c].event.post == post
  }

  ghost predicate CountsInv(cfg: Config, t: Tables)
  {
    cfg.countViews ==> forall post :: CountOf(t.viewCounts, post) == |ViewRows(t.rows, post)|
  }

  /** Row `i` is the first inserted one whose message has event id `key`. */
  predicate FirstUnder(cfg: Config, history: seq<Row>, key: nat, i: nat)
  {
    && i < |history| && HasKey(cfg, history[i], key)
    && forall j | 0 <= j < i :: !HasKey(cfg, history[j], key)
  }

  ghost predicate SomeHasKey(cfg: Config, history: seq<Row>, key: nat)
  {
    exists i :: 0 <= i < |history| && HasKey(cfg, history[i], key)
  }

  /** The outbox holds the event ids of all messages, and under each the first such row's message. */
  ghost predicate OutboxInv(cfg: Config, outbox: map<nat, W.Envelope>, history: seq<Row>)
  {
    && (forall key :: key in outbox <==> SomeHasKey(cfg, history, key))
    && (forall key, i: nat | FirstUnder(cfg, history, key, i) :: Holds(cfg, outbox, key, history[i]))
  }

  predicate Holds(cfg: Config, outbox: map<nat, W.Envelope>, key: nat, row: Row)
  {
    key in outbox && Message(cfg, row) == Some(outbox[key])
  }

  ghost predicate TablesInv(cfg: Config, world: World, t: Tables, history: seq<Row>)
  {
    RowsInv(cfg, world, t.rows, history) && CountsInv(cfg, t) && OutboxInv(cfg, t.outbox, history)
  }

  // ---------------------------------------------------------------- one inserted row

  /** The transaction's effect of one item. */
  function CommittedOne(cfg: Config, t: Tables, user: nat, item: Item): Tables
  {
    var e := item.event;
    var row := Row(item.id, user, e);
    Tables(t.rows[e.clientId := row], Enqueue(cfg, t.outbox, row),
           if cfg.countViews && e.kind == View then t.viewCounts[e.post := CountOf(t.viewCounts, e.post) + 1]
           else t.viewCounts)
  }

  lemma CommittedSnoc(cfg: Config, t: Tables, user: nat, items: seq<Item>)
    requires items != []
    ensures Committed(cfg, t, user, items)
         == CommittedOne(cfg, Committed(cfg, t, user, items[..|items| - 1]), user, items[|items| - 1])
  {
  }

  lemma CountKept(rows: map<nat, Row>, row: Row, post: nat)
    requires row.event.clientId !in rows
    ensures |ViewRows(rows[row.event.clientId := row], post)|
         == |ViewRows(rows, post)| + if row.event.kind == View && row.event.post == post then 1 else 0
  {
    var before, after := ViewRows(rows, post), ViewRows(rows[row.event.clientId := row], post);
    assert after == if row.event.kind == View && row.event.post == post then before + {row.event.clientId} else before;
  }

  lemma CountsKept(cfg: Config, t: Tables, user: nat, item: Item)
    requires CountsInv(cfg, t) && item.event.clientId !in t.rows
    ensures CountsInv(cfg, CommittedOne(cfg, t, user, item))
  {
    var t' := CommittedOne(cfg, t, user, item);
    forall post | cfg.countViews ensures CountOf(t'.viewCounts, post) == |ViewRows(t'.rows, post)| {
      CountKept(t.rows, Row(item.id, user, item.event), post);
    }
  }

  lemma KeyIsOne(cfg: Config, row: Row, key: nat)
    ensures HasKey(cfg, row, key) <==> Message(cfg, row).Some? && key == KeyOf(cfg, row)
  {
  }

  /** A row after the others is the first with its event id exactly when none of them has it. */
  lemma FirstSnoc(cfg: Config, history: seq<Row>, row: Row, key: nat, i: nat)
    ensures FirstUnder(cfg, history + [row], key, i)
       <==> || FirstUnder(cfg, history, key, i)
            || (i == |history| && HasKey(cfg, row, key) && !SomeHasKey(cfg, history, key))
  {
    var longer := history + [row];
    assert forall j | 0 <= j < |history| :: longer[j] == history[j];
  }

  lemma KeysSnoc(cfg: Config, history: seq<Row>, row: Row, key: nat)
    ensures SomeHasKey(cfg, history + [row], key) <==> SomeHasKey(cfg, history, key) || HasKey(cfg, row, key)
  {
    var longer := history + [row];
    if SomeHasKey(cfg, history, key) {
      var i :| 0 <= i < |history| && HasKey(cfg, history[i], key);
      assert longer[i] == history[i];
    }
    assert longer[|history|] == row;
  }

  lemma OutboxKept(cfg: Config, outbox: map<nat, W.Envelope>, history: seq<Row>, row: Row)
    requires OutboxInv(cfg, outbox, history)
    ensures OutboxInv(cfg, Enqueue(cfg, outbox, row), history + [row])
  {
    var next, longer := Enqueue(cfg, outbox, row), history + [row];
    forall key ensures key in next <==> SomeHasKey(cfg, longer, key) {
      KeysSnoc(cfg, history, row, key);
      KeyIsOne(cfg, row, key);
    }
    forall key, i: nat | FirstUnder(cfg, longer, key, i) ensures Holds(cfg, next, key, longer[i]) {
      FirstSnoc(cfg, history, row, key, i);
      KeyIsOne(cfg, row, key);
      if FirstUnder(cfg, history, key, i) {
        assert Holds(cfg, outbox, key, history[i]);
      }
    }
  }

  lemma RowsKept(cfg: Config, world: World, rows: map<nat, Row>, history: seq<Row>, row: Row)
    requires RowsInv(cfg, world, rows, history) && row.event.clientId !in rows
    requires RowRight(cfg, world, row, row.event.clientId)
    ensures RowsInv(cfg, world, rows[row.event.clientId := row], history + [row])
  {
    assert row !in history;
  }

  lemma InsertKeeps(cfg: Config, world: World, t: Tables, history: seq<Row>, user: nat, item: Item)
    requires TablesInv(cfg, world, t, history) && item.event.clientId !in t.rows
    requires RowRight(cfg, world, Row(item.id, user, item.event), item.event.clientId)
    ensures TablesInv(cfg, world, CommittedOne(cfg, t, user, item), history + [Row(item.id, user, item.event)])
  {
    RowsKept(cfg, world, t.rows, history, Row(item.id, user, item.event));
    CountsKept(cfg, t, user, item);
    OutboxKept(cfg, t.outbox, history, Row(item.id, user, item.event));
  }

  // ---------------------------------------------------------------- one batch

  /** The items of a batch: distinct new clients, fit to be stored. */
  ghost predicate Fit(cfg: Config, world: World, t: Tables, user: nat, items: seq<Item>)
  {
    && DistinctClients(items)
    && forall item | item in items ::
         item.event.clientId !in t.rows
         && RowRight(cfg, world, Row(item.id, user, item.event), item.event.clientId)
  }

  lemma FitInit(cfg: Config, world: World, t: Tables, user: nat, items: seq<Item>)
    requires items != [] && Fit(cfg, world, t, user, items)
    ensures var init, last := items[..|items| - 1], items[|items| - 1];
            && Fit(cfg, world, t, user, init)
            && last.event.clientId !in Committed(cfg, t, user, init).rows
            && RowRight(cfg, world, Row(last.id, user, last.event), last.event.clientId)
  {
    var init, last := items[..|items| - 1], items[|items| - 1];
    assert last in items && forall item | item in init :: item in items;
    StoredKeys(t.rows, user, init);
  }

  lemma {:induction false} CommitKeeps(
      cfg: Config, world: World, t: Tables, history: seq<Row>, user: nat, items: seq<Item>)
    requires TablesInv(cfg, world, t, history) && Fit(cfg, world, t, user, items)
    ensures TablesInv(cfg, world, Committed(cfg, t, user, items), history + RowsOf(user, items))
    decreases |items|
  {
    if items == [] {
      assert history + RowsOf(user, items) == history;
    } else {
      var init, last := items[..|items| - 1], items[|items| - 1];
      FitInit(cfg, world, t, user, items);
      CommitKeeps(cfg, world, t, history, user, init);
      InsertKeeps(cfg, world, Committed(cfg, t, user, init), history + RowsOf(user, init), user, last);
      CommittedSnoc(cfg, t, user, items);
      assert history + RowsOf(user, items)
          == (history + RowsOf(user, init)) + [Row(last.id, user, last.event)];
    }
  }

  lemma SignalSupported(raw: Option<Raw>, now: int, q: int)
    requires VerdictOf(raw, now, q).Valid? && VerdictOf(raw, now, q).event.qualified
    ensures OrZero(VerdictOf(raw, now, q).event.dwellMs) >= q
    ensures VerdictOf(raw, now, q).event.kind == View || VerdictOf(raw, now, q).event.kind == Dwell
  {
  }

  lemma ArrangedClients(a: seq<Item>, b: seq<Item>)
    requires DistinctClients(a) && multiset(a) == multiset(b)
    ensures DistinctClients(b)
  {
    SameMembers(a, b);
    PermutedDistinct(b, a);
    forall i, j | 0 <= i < j < |b| ensures b[i].event.clientId != b[j].event.clientId {
      assert b[i] in a && b[j] in a;
    }
  }

  lemma NewAreFit(cfg: Config, t: Tables, r: Request, world: World)
    ensures Fit(cfg, world, t, r.user, Inserted(cfg, t, r, world))
  {
    var q, s := cfg.qualifiedMs, StagesOf(t, r.user, r.raws, r.now, world, cfg.qualifiedMs, r.chance);
    if Inserted(cfg, t, r, world) != [] {
      NewDistinct(t, r.user, r.raws, r.now, world, q, r.chance);
      ArrangedClients(s.unseen, Arranged(s.unseen, r.chance));
      SameMembers(s.unseen, Arranged(s.unseen, r.chance));
      forall item | item in s.unseen
        ensures item.event.clientId !in t.rows
        ensures RowRight(cfg, world, Row(item.id, r.user, item.event), item.event.clientId)
      {
        NewIsMeant(t, r.user, r.raws, r.now, world, q, r.chance, item);
        if item.event.qualified {
          SignalSupported(r.raws[item.index], r.now, q);
        }
      }
    }
  }

  /** A request's effect on the tables is the commit of what it inserts. */
  lemma RequestCommits(cfg: Config, t: Tables, r: Request, world: World)
    ensures Ingested(cfg, t, r.user, r.raws, r.now, world, r.chance).0
         == Committed(cfg, t, r.user, Inserted(cfg, t, r, world))
  {
    NothingCommitted(cfg, t, r.user, r.chance);
  }

  /** After every run of requests, committed or not, the tables are as the invariant says of what was
      inserted. */
  lemma {:induction false} EveryRunKeeps(cfg: Config, world: World, requests: seq<Request>)
    ensures TablesInv(cfg, world, RunAll(cfg, world, requests), History(cfg, world, requests))
    decreases |requests|
  {
    if requests != [] {
      var r, init := requests[|requests| - 1], requests[..|requests| - 1];
      var t := RunAll(cfg, world, init);
      EveryRunKeeps(cfg, world, init);
      RequestCommits(cfg, t, r, world);
      NewAreFit(cfg, t, r, world);
      CommitKeeps(cfg, world, t, History(cfg, world, init), r.user, Inserted(cfg, t, r, world));
    } else {
      NothingYet(cfg, world);
    }
  }

  lemma NothingYet(cfg: Config, world: World)
    ensures TablesInv(cfg, world, Empty(), [])
  {
    forall post ensures ViewRows(map[], post) == {} {}
  }

  // ---------------------------------------------------------------- whose event it is

  /** The message names the row's user and post. */
  predicate Names(message: W.Envelope, row: Row)
  {
    message.userId == W.Uuid(row.user) && message.postId == Some(row.event.post)
  }

  /** The outbox message under the row's event id names the row's own user and post. */
  predicate Owns(cfg: Config, outbox: map<nat, W.Envelope>, row: Row)
    requires Message(cfg, row).Some?
  {
    KeyOf(cfg, row) in outbox && Names(outbox[KeyOf(cfg, row)], row)
  }

  predicate SameReader(a: Row, b: Row)
  {
    a.user == b.user && a.event.post == b.event.post
  }

  lemma MessageNames(cfg: Config, row: Row, other: Row)
    requires Message(cfg, row).Some?
    ensures Names(Message(cfg, row).value, other) <==> SameReader(row, other)
  {
  }

  /** What enqueueing `rows` made of the outbox under `key`: a message that was there stays, and else the
      first row's with that event id stands there. */
  ghost predicate EnqueuedRight(
      cfg: Config, outbox: map<nat, W.Envelope>, after: map<nat, W.Envelope>, rows: seq<Row>, key: nat)
  {
    if key in outbox then key in after && after[key] == outbox[key]
    else
      && (key in after <==> SomeHasKey(cfg, rows, key))
      && forall i: nat | FirstUnder(cfg, rows, key, i) :: Holds(cfg, after, key, rows[i])
  }

  lemma EnqueueOneMore(
      cfg: Config, outbox: map<nat, W.Envelope>, mid: map<nat, W.Envelope>, rows: seq<Row>, row: Row, key: nat)
    requires EnqueuedRight(cfg, outbox, mid, rows, key)
    ensures EnqueuedRight(cfg, outbox, Enqueue(cfg, mid, row), rows + [row], key)
  {
    KeysSnoc(cfg, rows, row, key);
    KeyIsOne(cfg, row, key);
    forall i: nat | key !in outbox && FirstUnder(cfg, rows + [row], key, i)
      ensures Holds(cfg, Enqueue(cfg, mid, row), key, (rows + [row])[i])
    {
      FirstSnoc(cfg, rows, row, key, i);
    }
  }

  lemma {:induction false} EnqueuedFirst(
      cfg: Config, outbox: map<nat, W.Envelope>, user: nat, items: seq<Item>, key: nat)
    ensures EnqueuedRight(cfg, outbox, Enqueued(cfg, outbox, user, items), RowsOf(user, items), key)
    decreases |items|
  {
    if items != [] {
      var init, last := items[..|items| - 1], items[|items| - 1];
      EnqueuedFirst(cfg, outbox, user, init, key);
      EnqueueOneMore(cfg, outbox, Enqueued(cfg, outbox, user, init), RowsOf(user, init),
                     Row(last.id, user, last.event), key);
    }
  }

  /** Some row is the first with an event id that some row has. */
  lemma {:induction false} FirstExists(cfg: Config, history: seq<Row>, key: nat, k: nat) returns (first: nat)
    requires k < |history| && HasKey(cfg, history[k], key)
    ensures FirstUnder(cfg, history, key, first) && first <= k
    decreases k
  {
    if j :| 0 <= j < k && HasKey(cfg, history[j], key) {
      first := FirstExists(cfg, history, key, j);
    } else {
      first := k;
    }
  }

  /** Whatever the tables were, a request leaves an inserted row's event announced under its own user and
      post exactly when the outbox already held such a message under its event id, or held none and the
      first row of the insert with that event id is of the same post. */
  lemma OwnAtCommitIff(cfg: Config, t: Tables, r: Request, world: World, k: nat, first: nat)
    requires var rows := RowsOf(r.user, Inserted(cfg, t, r, world));
             && k < |rows| && Message(cfg, rows[k]).Some?
             && FirstUnder(cfg, rows, KeyOf(cfg, rows[k]), first)
    ensures var rows := RowsOf(r.user, Inserted(cfg, t, r, world));
            var key := KeyOf(cfg, rows[k]);
            Owns(cfg, Ingested(cfg, t, r.user, r.raws, r.now, world, r.chance).0.outbox, rows[k])
            <==> if key in t.outbox then Names(t.outbox[key], rows[k])
                 else rows[first].event.post == rows[k].event.post
  {
    var items := Inserted(cfg, t, r, world);
    var rows := RowsOf(r.user, items);
    RequestCommits(cfg, t, r, world);
    EnqueuedFirst(cfg, t.outbox, r.user, items, KeyOf(cfg, rows[k]));
    MessageNames(cfg, rows[first], rows[k]);
  }

  /** No request changes a message that is in the outbox. */
  lemma MessagesStay(cfg: Config, t: Tables, r: Request, world: World, key: nat)
    requires key in t.outbox
    ensures var after := Ingested(cfg, t, r.user, r.raws, r.now, world, r.chance).0.outbox;
            key in after && after[key] == t.outbox[key]
  {
    RequestCommits(cfg, t, r, world);
    EnqueuedFirst(cfg, t.outbox, r.user, Inserted(cfg, t, r, world), key);
  }

  /** After every run, a row's event is announced under its own user and post exactly when the first row
      inserted with its event id is the same user's and post's. */
  lemma OwnEventIff(cfg: Config, world: World, requests: seq<Request>, k: nat, first: nat)
    requires var history := History(cfg, world, requests);
             && k < |history| && Message(cfg, history[k]).Some?
             && FirstUnder(cfg, history, KeyOf(cfg, history[k]), first)
    ensures var history := History(cfg, world, requests);
            Owns(cfg, RunAll(cfg, world, requests).outbox, history[k]) <==> SameReader(history[first], history[k])
  {
    var outbox, history := RunAll(cfg, world, requests).outbox, History(cfg, world, requests);
    EveryRunKeeps(cfg, world, requests);
    assert Holds(cfg, outbox, KeyOf(cfg, history[k]), history[first]);
    MessageNames(cfg, history[first], history[k]);
  }

  ghost predicate KeysSeparate(cfg: Config, history: seq<Row>)
  {
    forall a, b | a in history && b in history && Message(cfg, a).Some? && Message(cfg, b).Some?
                  && KeyOf(cfg, a) == KeyOf(cfg, b) :: SameReader(a, b)
  }

  ghost predicate AllOwn(cfg: Config, outbox: map<nat, W.Envelope>, history: seq<Row>)
  {
    forall row | row in history && Message(cfg, row).Some? :: Owns(cfg, outbox, row)
  }

  /** After every run, every row's event is announced under its own user and post exactly when no two rows
      of different users or posts share an event id. */
  lemma EveryEventIsOwnIff(cfg: Config, world: World, requests: seq<Request>)
    ensures var history := History(cfg, world, requests);
            AllOwn(cfg, RunAll(cfg, world, requests).outbox, history) <==> KeysSeparate(cfg, history)
  {
    var outbox, history := RunAll(cfg, world, requests).outbox, History(cfg, world, requests);
    if KeysSeparate(cfg, history) {
      forall row | row in history && Message(cfg, row).Some? ensures Owns(cfg, outbox, row) {
        var k :| 0 <= k < |history| && history[k] == row;
        var first := FirstExists(cfg, history, KeyOf(cfg, row), k);
        OwnEventIff(cfg, world, requests, k, first);
        assert history[first] in history && KeyOf(cfg, history[first]) == KeyOf(cfg, row);
      }
    }
  }

  lemma RowIsRouted(cfg: Config, row: Row)
    requires Message(cfg, row).Some? && (row.event.qualified ==> OrZero(row.event.dwellMs) >= cfg.qualifiedMs)
    ensures W.Classify(Message(cfg, row).value, cfg.qualifiedMs) == W.Routed(row.user, KeyOf(cfg, row))
  {
  }

  /** The worker accepts every announced message for the row's own user, under its event id. */
  lemma MessagesAreRouted(cfg: Config, world: World, requests: seq<Request>, client: nat)
    requires var rows := RunAll(cfg, world, requests).rows; client in rows && Message(cfg, rows[client]).Some?
    ensures var row := RunAll(cfg, world, requests).rows[client];
            W.Classify(Message(cfg, row).value, cfg.qualifiedMs) == W.Routed(row.user, KeyOf(cfg, row))
  {
    EveryRunKeeps(cfg, world, requests);
    var rows := RunAll(cfg, world, requests).rows;
    assert RowRight(cfg, world, rows[client], client);
    RowIsRouted(cfg, rows[client]);
  }

  predicate IsV2Read(cfg: Config, row: Row)
  {
    cfg.featureVersion == V2 && row.event.qualified && row.event.kind != Click
  }

  /** In v2 mode a threshold view and a later dwell of one impression become one event, and whatever the
      clients sent, it names the one user and post that all those rows are of. */
  lemma ImpressionReadsCollapse(cfg: Config, world: World, requests: seq<Request>, a: nat, b: nat)
    requires var rows := RunAll(cfg, world, requests).rows;
             && a in rows && b in rows && IsV2Read(cfg, rows[a]) && IsV2Read(cfg, rows[b])
             && rows[a].event.impression.Some? && rows[a].event.impression == rows[b].event.impression
    ensures var t := RunAll(cfg, world, requests);
            && SameReader(t.rows[a], t.rows[b])
            && Message(cfg, t.rows[a]).Some? && Message(cfg, t.rows[b]).Some?
            && KeyOf(cfg, t.rows[a]) == KeyOf(cfg, t.rows[b]) == t.rows[a].event.impression.value
            && t.rows[a].event.impression.value in t.outbox
  {
    EveryRunKeeps(cfg, world, requests);
    var t, history := RunAll(cfg, world, requests), History(cfg, world, requests);
    ReadsOfOneImpression(cfg, world, t.rows, history, a, b);
    KeyIsAnnounced(cfg, t.outbox, history, t.rows[a]);
  }

  lemma ReadsOfOneImpression(
      cfg: Config, world: World, rows: map<nat, Row>, history: seq<Row>, a: nat, b: nat)
    requires RowsInv(cfg, world, rows, history)
    requires a in rows && b in rows && IsV2Read(cfg, rows[a]) && IsV2Read(cfg, rows[b])
    requires rows[a].event.impression.Some? && rows[a].event.impression == rows[b].event.impression
    ensures SameReader(rows[a], rows[b]) && Message(cfg, rows[a]).Some? && Message(cfg, rows[b]).Some?
    ensures KeyOf(cfg, rows[a]) == KeyOf(cfg, rows[b]) == rows[a].event.impression.value
  {
    assert RowRight(cfg, world, rows[a], a) && RowRight(cfg, world, rows[b], b);
  }

  lemma KeyIsAnnounced(cfg: Config, outbox: map<nat, W.Envelope>, history: seq<Row>, row: Row)
    requires OutboxInv(cfg, outbox, history) && row in history && Message(cfg, row).Some?
    ensures KeyOf(cfg, row) in outbox
  {
    var i :| 0 <= i < |history| && history[i] == row;
    assert HasKey(cfg, history[i], KeyOf(cfg, row));
    assert SomeHasKey(cfg, history, KeyOf(cfg, row));
  }

  // ---------------------------------------------------------------- a read nobody hears of

  lemma OnlyItem(items: seq<Item>, item: Item)
    requires |items| <= 1 && item in items
    ensures items == [item]
  {
  }

  lemma AtMostOne(t: Tables, user: nat, raws: seq<Option<Raw>>, now: int, world: World, q: int, chance: Chance)
    requires |raws| == 1
    ensures |StagesOf(t, user, raws, now, world, q, chance).unseen| <= 1
  {
    var s := StagesOf(t, user, raws, now, world, q, chance);
    assert |s.parsed| <= |raws| && |s.copies| <= |s.parsed| && |s.onPost| <= |s.copies|;
  }

  lemma OneEventReaches(user: nat, raws: seq<Option<Raw>>, now: int, q: int, world: World)
    requires |raws| == 1 && VerdictOf(raws[0], now, q).Valid?
    requires var e := VerdictOf(raws[0], now, q).event; e.impression.None? && e.post in world.posts
    ensures Reaches(user, raws, now, q, world, 0)
  {
    assert FirstValid(raws, 0, now, q);
  }

  lemma OneUnseen(
      t: Tables, user: nat, raws: seq<Option<Raw>>, now: int, world: World, q: int, chance: Chance, e: Checked)
    requires |raws| == 1 && VerdictOf(raws[0], now, q) == Valid(e)
    requires e.impression.None? && e.post in world.posts && e.column.Accepted() && e.clientId !in t.rows
    ensures StagesOf(t, user, raws, now, world, q, chance).unseen == [Item(0, chance.mint(0), e)]
  {
    OneEventReaches(user, raws, now, q, world);
    NewIsMeant(t, user, raws, now, world, q, chance, Item(0, chance.mint(0), e));
    AtMostOne(t, user, raws, now, world, q, chance);
    OnlyItem(StagesOf(t, user, raws, now, world, q, chance).unseen, Item(0, chance.mint(0), e));
  }

  lemma OneHolds(
      t: Tables, user: nat, raws: seq<Option<Raw>>, now: int, world: World, q: int, chance: Chance, e: Checked)
    requires |raws| == 1 && VerdictOf(raws[0], now, q) == Valid(e) && e.impression.None? && e.column.Accepted()
    ensures InsertHolds(world, user, StagesOf(t, user, raws, now, world, q, chance))
  {
    InsertableMeansHolds(t, user, raws, now, world, q, chance);
  }

  lemma ArrangedAlone(items: seq<Item>, chance: Chance)
    requires |items| == 1
    ensures Arranged(items, chance) == items
  {
    assert items[1..] == [];
  }

  /** A request of one new, valid event without an impression stores and announces it. */
  lemma OneEventInserted(cfg: Config, t: Tables, r: Request, world: World, e: Checked, rows: seq<Row>)
    requires OneEvent(cfg, world, r, e, rows) && e.clientId !in t.rows
    ensures RowsOf(r.user, Inserted(cfg, t, r, world)) == rows
  {
    OneUnseen(t, r.user, r.raws, r.now, world, cfg.qualifiedMs, r.chance, e);
    OneHolds(t, r.user, r.raws, r.now, world, cfg.qualifiedMs, r.chance, e);
    ArrangedAlone(StagesOf(t, r.user, r.raws, r.now, world, cfg.qualifiedMs, r.chance).unseen, r.chance);
  }

  /** A dwell outside any impression, with the visit id its client chose. */
  function VisitDwell(client: nat, post: nat, visit: nat, ms: int, now: int): Raw
  {
    Raw(client, post, None, None, Dwell, Some(V2), Some(ms),
        Some(map[Trigger := Text(Destroy), VisitId := Text(UuidText(visit))]), 71,
        Column(true, StoredBytes(2, 71)), now)
  }

  lemma VisitDwellIsRead(client: nat, post: nat, visit: nat, ms: int, now: int, q: int)
    requires q <= ms && 0 <= ms <= MAX_DWELL_MS
    ensures Validate(VisitDwell(client, post, visit, ms, now), now, q).Valid?
    ensures var e := Validate(VisitDwell(client, post, visit, ms, now), now, q).event;
            && e.clientId == client && e.post == post && e.column.Accepted() && e.kind == Dwell && e.qualified
            && e.impression == None && e.visit == Some(visit)
  {
  }

  /** A qualified v2 read that only its visit id identifies. */
  predicate VisitRead(cfg: Config, e: Checked, visit: nat)
  {
    && cfg.featureVersion == V2 && e.qualified && e.kind == Dwell
    && e.impression == None && e.visit == Some(visit)
  }

  lemma VisitKey(cfg: Config, row: Row, visit: nat)
    requires VisitRead(cfg, row.event, visit)
    ensures Message(cfg, row).Some? && KeyOf(cfg, row) == visit
  {
  }

  lemma HistorySnoc(cfg: Config, world: World, requests: seq<Request>, r: Request)
    ensures History(cfg, world, requests + [r])
         == History(cfg, world, requests) + RowsOf(r.user, Inserted(cfg, RunAll(cfg, world, requests), r, world))
  {
    assert (requests + [r])[..|requests|] == requests;
  }

  /** An event that only its client id could keep from being inserted. */
  predicate Plain(world: World, e: Checked)
  {
    e.impression.None? && e.post in world.posts && e.column.Accepted()
  }

  /** The request is one valid event `e` without an impression, and `rows` is its row. */
  predicate OneEvent(cfg: Config, world: World, r: Request, e: Checked, rows: seq<Row>)
  {
    && |r.raws| == 1 && VerdictOf(r.raws[0], r.now, cfg.qualifiedMs) == Valid(e)
    && Plain(world, e) && rows == [Row(r.chance.mint(0), r.user, e)]
  }

  lemma NoRequests(cfg: Config, world: World, none: seq<Request>)
    requires |none| == 0
    ensures RunAll(cfg, world, none) == Empty() && History(cfg, world, none) == []
  {
  }

  lemma NotStored(cfg: Config, world: World, rows: map<nat, Row>, history: seq<Row>, client: nat)
    requires RowsInv(cfg, world, rows, history) && forall row | row in history :: row.event.clientId != client
    ensures client !in rows
  {
  }

  /** A request of one valid event of a new client, without an impression, adds that event's row. */
  lemma OneMoreRequest(
      cfg: Config, world: World, before: seq<Request>, r: Request, requests: seq<Request>, e: Checked,
      history: seq<Row>, rows: seq<Row>)
    requires requests == before + [r] && OneEvent(cfg, world, r, e, rows)
    requires history == History(cfg, world, before) && forall row | row in history :: row.event.clientId != e.clientId
    ensures History(cfg, world, requests) == history + rows
  {
    var t := RunAll(cfg, world, before);
    assert e.clientId !in t.rows by {
      EveryRunKeeps(cfg, world, before);
      NotStored(cfg, world, t.rows, history, e.clientId);
    }
    assert RowsOf(r.user, Inserted(cfg, t, r, world)) == rows by {
      OneEventInserted(cfg, t, r, world, e, rows);
    }
    HistorySnoc(cfg, world, before, r);
  }

  /** Two requests of one new, valid event each, without impressions: both rows are inserted, in turn. */
  lemma TwoRequests(
      cfg: Config, world: World, none: seq<Request>, first: Request, second: Request, one: seq<Request>,
      requests: seq<Request>, e: Checked, e': Checked, a: seq<Row>, b: seq<Row>)
    requires |none| == 0 && one == none + [first] && requests == one + [second] && e.clientId != e'.clientId
    requires OneEvent(cfg, world, first, e, a) && OneEvent(cfg, world, second, e', b)
    ensures History(cfg, world, requests) == a + b
  {
    NoRequests(cfg, world, none);
    var nothing := History(cfg, world, none);
    OneMoreRequest(cfg, world, none, first, one, e, nothing, a);
    assert nothing + a == a;
    OneMoreRequest(cfg, world, one, second, requests, e', a, b);
  }

  lemma NothingOf(cfg: Config, world: World, requests: seq<Request>, a: seq<Row>, b: seq<Row>, visit: nat)
    requires |a| == 1 && |b| == 1 && History(cfg, world, requests) == a + b && a[0].user != b[0].user
    requires VisitRead(cfg, a[0].event, visit) && VisitRead(cfg, b[0].event, visit)
    ensures var t := RunAll(cfg, world, requests);
            && b[0].event.clientId in t.rows && t.rows[b[0].event.clientId] == b[0]
            && forall key | key in t.outbox :: t.outbox[key].userId != W.Uuid(b[0].user)
  {
    var t, history := RunAll(cfg, world, requests), History(cfg, world, requests);
    EveryRunKeeps(cfg, world, requests);
    assert history[0] == a[0] && history[1] == b[0] && b[0] in history;
    VisitKey(cfg, a[0], visit);
    VisitKey(cfg, b[0], visit);
    forall key | key in t.outbox ensures t.outbox[key].userId != W.Uuid(b[0].user) {
      assert SomeHasKey(cfg, history, key);
      KeyIsOne(cfg, a[0], key);
      KeyIsOne(cfg, b[0], key);
      assert FirstUnder(cfg, history, key, 0);
      MessageNames(cfg, a[0], b[0]);
    }
  }

  /** Two requests of one read each, under one visit id, in the order in which they commit. */
  predicate OneVisitTwice(
      cfg: Config, world: World, ms: int, visit: nat, post: nat, post': nat, client: nat, client': nat,
      first: Request, second: Request)
  {
    && cfg.featureVersion == V2 && cfg.qualifiedMs <= ms && 0 <= ms <= MAX_DWELL_MS
    && first.user != second.user && client != client' && post in world.posts && post' in world.posts
    && first.raws == [Some(VisitDwell(client, post, visit, ms, first.now))]
    && second.raws == [Some(VisitDwell(client', post', visit, ms, second.now))]
  }

  lemma VisitRow(
      cfg: Config, world: World, ms: int, visit: nat, post: nat, client: nat, r: Request, e: Checked, rows: seq<Row>)
    requires cfg.featureVersion == V2 && cfg.qualifiedMs <= ms && 0 <= ms <= MAX_DWELL_MS && post in world.posts
    requires r.raws == [Some(VisitDwell(client, post, visit, ms, r.now))]
    requires e == Validate(VisitDwell(client, post, visit, ms, r.now), r.now, cfg.qualifiedMs).event
    requires rows == [Row(r.chance.mint(0), r.user, e)]
    ensures OneEvent(cfg, world, r, e, rows) && VisitRead(cfg, e, visit) && e.clientId == client && e.post == post
  {
    VisitDwellIsRead(client, post, visit, ms, r.now, cfg.qualifiedMs);
  }

  lemma SharedVisitRun(
      cfg: Config, world: World, ms: int, visit: nat, post: nat, post': nat, client: nat, client': nat,
      first: Request, second: Request, one: seq<Request>, requests: seq<Request>)
    returns (a: seq<Row>, b: seq<Row>)
    requires OneVisitTwice(cfg, world, ms, visit, post, post', client, client', first, second)
    requires one == [first] && requests == one + [second]
    ensures |a| == 1 && |b| == 1 && History(cfg, world, requests) == a + b
    ensures a[0].user == first.user && a[0].id == first.chance.mint(0) && a[0].event.clientId == client
    ensures b[0].user == second.user && b[0].id == second.chance.mint(0) && b[0].event.clientId == client'
    ensures VisitRead(cfg, a[0].event, visit) && VisitRead(cfg, b[0].event, visit)
  {
    var q := cfg.qualifiedMs;
    var e := Validate(VisitDwell(client, post, visit, ms, first.now), first.now, q).event;
    var e' := Validate(VisitDwell(client', post', visit, ms, second.now), second.now, q).event;
    a, b := [Row(first.chance.mint(0), first.user, e)], [Row(second.chance.mint(0), second.user, e')];
    VisitRow(cfg, world, ms, visit, post, client, first, e, a);
    VisitRow(cfg, world, ms, visit, post', client', second, e', b);
    TwoRequests(cfg, world, one[..0], first, second, one, requests, e, e', a, b);
  }

  /** Two readers and one visit id: the read whose request commits second is stored, and the outbox holds
      nothing of that reader, whatever instants and row ids the two requests have. */
  lemma SharedVisitHidesARead(
      cfg: Config, world: World, ms: int, visit: nat, post: nat, post': nat, client: nat, client': nat,
      first: Request, second: Request, one: seq<Request>, requests: seq<Request>)
    requires OneVisitTwice(cfg, world, ms, visit, post, post', client, client', first, second)
    requires one == [first] && requests == one + [second]
    ensures var t := RunAll(cfg, world, requests);
            && client' in t.rows && t.rows[client'].user == second.user && IsV2Read(cfg, t.rows[client'])
            && forall key | key in t.outbox :: t.outbox[key].userId != W.Uuid(second.user)
  {
    var a, b := SharedVisitRun(cfg, world, ms, visit, post, post', client, client', first, second, one, requests);
    NothingOf(cfg, world, requests, a, b, visit);
  }

  /** Requests overlap: a read that was validated first and got the smaller row id is the hidden one when
      its transaction commits second. */
  lemma OverlapHidesTheOlder(
      cfg: Config, world: World, ms: int, visit: nat, post: nat, post': nat, client: nat, client': nat,
      newer: Request, older: Request, one: seq<Request>, requests: seq<Request>)
    requires OneVisitTwice(cfg, world, ms, visit, post, post', client, client', newer, older)
    requires older.now < newer.now && older.chance.mint(0) < newer.chance.mint(0)
    requires one == [newer] && requests == one + [older]
    ensures var t := RunAll(cfg, world, requests);
            && client in t.rows && client' in t.rows && t.rows[client'].id < t.rows[client].id
            && t.rows[client'].user == older.user && IsV2Read(cfg, t.rows[client'])
            && forall key | key in t.outbox :: t.outbox[key].userId != W.Uuid(older.user)
  {
    var a, b := SharedVisitRun(cfg, world, ms, visit, post, post', client, client', newer, older, one, requests);
    NothingOf(cfg, world, requests, a, b, visit);
    EveryRunKeeps(cfg, world, requests);
    assert (a + b)[0] == a[0];
  }

  // ---------------------------------------------------------------- two reads of one batch

  lemma {:induction false} KeepAll(items: seq<Item>, p: Item -> bool)
    requires forall item | item in items :: p(item)
    ensures Keep(items, p) == items
    decreases |items|
  {
    if items != [] {
      var init, last := items[..|items| - 1], items[|items| - 1];
      assert items == init + [last] && last in items && forall item | item in init :: item in items;
      KeepAll(init, p);
    }
  }

  lemma TwoParsed(raws: seq<Option<Raw>>, now: int, q: int, chance: Chance, e: Checked, e': Checked)
    requires |raws| == 2 && VerdictOf(raws[0], now, q) == Valid(e) && VerdictOf(raws[1], now, q) == Valid(e')
    ensures Parsed(raws, now, q, chance) == [Item(0, chance.mint(0), e), Item(1, chance.mint(1), e')]
  {
    var init := raws[..1];
    assert |init| == 1 && init[0] == raws[0];
    assert Parsed(init[..0], now, q, chance) == [];
    assert Parsed(init, now, q, chance) == [] + [Item(0, chance.mint(0), e)];
  }

  lemma TwoCopies(items: seq<Item>)
    requires |items| == 2 && items[0].event.clientId != items[1].event.clientId
    ensures FirstCopies(items) == items
  {
    var init := items[..1];
    assert |init| == 1 && init[0] == items[0];
    assert FirstCopies(init[..0]) == [] && ClientIds(init[..0]) == {};
    assert FirstCopies(init) == init;
    assert items[1].event.clientId !in ClientIds(init);
    assert items == init + [items[1]];
  }

  /** What is parsed as plain events of different new clients passes every filter. */
  lemma PlainStages(
      t: Tables, user: nat, raws: seq<Option<Raw>>, now: int, world: World, q: int, chance: Chance, items: seq<Item>)
    requires Parsed(raws, now, q, chance) == items && FirstCopies(items) == items
    requires forall item | item in items :: Plain(world, item.event) && item.event.clientId !in t.rows
    ensures StagesOf(t, user, raws, now, world, q, chance) == Stages(items, items, items, items, items)
    ensures InsertHolds(world, user, StagesOf(t, user, raws, now, world, q, chance))
  {
    KeepAll(items, OnPost(world.posts));
    KeepAll(items, Refers(KnownImpressions(world, user, items)));
    KeepAll(items, IsNew(t.rows));
  }

  /** Two new plain events are both inserted, in the order of their places. */
  lemma TwoInserted(
      cfg: Config, t: Tables, r: Request, world: World, e: Checked, e': Checked, items: seq<Item>)
    requires |r.raws| == 2 && e.clientId != e'.clientId && e.clientId !in t.rows && e'.clientId !in t.rows
    requires VerdictOf(r.raws[0], r.now, cfg.qualifiedMs) == Valid(e)
    requires VerdictOf(r.raws[1], r.now, cfg.qualifiedMs) == Valid(e')
    requires Plain(world, e) && Plain(world, e')
    requires items == [Item(0, r.chance.mint(0), e), Item(1, r.chance.mint(1), e')]
    ensures Inserted(cfg, t, r, world) == Arranged(items, r.chance)
  {
    assert Parsed(r.raws, r.now, cfg.qualifiedMs, r.chance) == items by {
      TwoParsed(r.raws, r.now, cfg.qualifiedMs, r.chance, e, e');
    }
    TwoCopies(items);
    PlainStages(t, r.user, r.raws, r.now, world, cfg.qualifiedMs, r.chance, items);
  }

  lemma TwoArranged(items: seq<Item>, chance: Chance)
    requires |items| == 2
    ensures Arranged(items, chance)
         == if EarlierPlace(chance, items[0], items[1]) then items else [items[1], items[0]]
  {
    var leq := (a: Item, b: Item) => EarlierPlace(chance, a, b);
    var tail := items[1..];
    assert |tail| == 1 && tail[1..] == [];
    assert Sort(tail[1..], leq) == [];
    assert Sort(tail, leq) == [items[1]];
    assert items == [items[0]] + [items[1]];
    assert Insert(items[0], [items[1]][1..], leq) == [items[0]];
  }

  /** One reader, two posts, one visit id, one batch: the order in which the insert yields the two rows, and
      not their order in the batch, decides which post the outbox names. */
  lemma InsertOrderDecides(
      cfg: Config, t: Tables, r: Request, world: World, ms: int, visit: nat, post: nat, post': nat,
      client: nat, client': nat)
    requires cfg.featureVersion == V2 && cfg.qualifiedMs <= ms && 0 <= ms <= MAX_DWELL_MS
    requires client != client' && client !in t.rows && client' !in t.rows && visit !in t.outbox
    requires post in world.posts && post' in world.posts
    requires r.raws
            == [Some(VisitDwell(client, post, visit, ms, r.now)), Some(VisitDwell(client', post', visit, ms, r.now))]
    ensures var outbox := Ingested(cfg, t, r.user, r.raws, r.now, world, r.chance).0.outbox;
            && visit in outbox
            && outbox[visit].postId == Some(if r.chance.place(0) <= r.chance.place(1) then post else post')
  {
    var q := cfg.qualifiedMs;
    VisitDwellIsRead(client, post, visit, ms, r.now, q);
    VisitDwellIsRead(client', post', visit, ms, r.now, q);
    var e := Validate(VisitDwell(client, post, visit, ms, r.now), r.now, q).event;
    var e' := Validate(VisitDwell(client', post', visit, ms, r.now), r.now, q).event;
    var items := [Item(0, r.chance.mint(0), e), Item(1, r.chance.mint(1), e')];
    TwoInserted(cfg, t, r, world, e, e', items);
    TwoArranged(items, r.chance);
    FirstOfTwo(cfg, t, r, world, items, visit);
  }

  lemma FirstOfTwo(cfg: Config, t: Tables, r: Request, world: World, items: seq<Item>, visit: nat)
    requires |items| == 2 && Inserted(cfg, t, r, world) == Arranged(items, r.chance) && visit !in t.outbox
    requires VisitRead(cfg, items[0].event, visit) && VisitRead(cfg, items[1].event, visit)
    ensures var outbox := Ingested(cfg, t, r.user, r.raws, r.now, world, r.chance).0.outbox;
            && visit in outbox && outbox[visit].postId == Some(Arranged(items, r.chance)[0].event.post)
  {
    var sorted := Arranged(items, r.chance);
    TwoArranged(items, r.chance);
    var row := RowsOf(r.user, sorted)[0];
    RequestCommits(cfg, t, r, world);
    EnqueuedFirst(cfg, t.outbox, r.user, sorted, visit);
    VisitKey(cfg, row, visit);
    MessageNames(cfg, row, row);
    assert FirstUnder(cfg, RowsOf(r.user, sorted), visit, 0);
  }
}
