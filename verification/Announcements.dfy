/** What a behaviour request announces, in the source's own event types: the message of every kind of row,
    and that a stored click or qualified read leads to a rebuild of its user's vector. */
module Announcements {
  import opened Options
  import opened BehaviorValidation
  import opened BehaviorIngest
  import opened BehaviorRuns
  import W = FeatureWorker
  import CurrentVectors
  import StoredVectors
  import P = Pipeline

  // ---------------------------------------------------------------- the messages

  predicate LongRead(row: Row)
  {
    (row.event.kind == View || row.event.kind == Dwell) && row.event.qualified
  }

  /** Clicks, views and long dwells are announced; shorter dwells and mere visibility are not. */
  predicate IsAnnounced(row: Row)
  {
    row.event.kind == Click || row.event.kind == View || LongRead(row)
  }

  /** A long read goes by its impression when the features are v2, without one by its visit, without that by
      its row, as everything else does. */
  function EventId(features: Version, row: Row): nat
  {
    if features == V2 && LongRead(row) && row.event.impression.Some? then row.event.impression.value
    else if features == V2 && LongRead(row) && row.event.visit.Some? then row.event.visit.value
    else row.id
  }

  /** The message of an announced row. */
  predicate IsMessageOf(features: Version, row: Row, message: W.Envelope)
  {
    && message.eventId == W.Uuid(EventId(features, row))
    && message.userId == W.Uuid(row.user) && message.postId == Some(row.event.post)
    && message.reporterId == W.Missing && message.commenterId == W.Missing
    && (row.event.kind == Click ==>
          message.eventType == W.Click && message.version == W.Version1 && message.durationMs == None)
    && (row.event.kind == View && !row.event.qualified ==>
          message.eventType == W.ViewObserved && message.version == W.Version1 && message.durationMs == None)
    && (LongRead(row) && features == V1 ==>
          && message.version == W.Version1 && message.durationMs == None
          && message.eventType == if row.event.kind == View then W.Viewed else W.Dwell)
    && (LongRead(row) && features == V2 ==>
          && message.eventType == W.QualifiedRead && message.version == W.Version2
          && message.durationMs == Some(if row.event.dwellMs.Some? then row.event.dwellMs.value else 0))
  }

  predicate Deployed(cfg: Config)
  {
    cfg.featureVersion == V1 || cfg.featureVersion == V2
  }

  lemma MessageInWords(cfg: Config, row: Row)
    requires Deployed(cfg) && (row.event.kind != View && row.event.kind != Dwell ==> !row.event.qualified)
    ensures Message(cfg, row).Some? <==> IsAnnounced(row)
    ensures Message(cfg, row).Some? ==> IsMessageOf(cfg.featureVersion, row, Message(cfg, row).value)
    ensures forall key :: HasKey(cfg, row, key) <==> IsAnnounced(row) && key == EventId(cfg.featureVersion, row)
  {
  }

  /** Only reads carry the qualified signal. */
  predicate SignalOnReads(row: Row)
  {
    row.event.qualified ==> row.event.kind == View || row.event.kind == Dwell
  }

  /** Row `k` is the first of `rows` that is announced under its event id. */
  ghost predicate FirstAnnounced(features: Version, rows: seq<Row>, k: nat)
    requires k < |rows|
  {
    && IsAnnounced(rows[k])
    && forall j | 0 <= j < k && IsAnnounced(rows[j]) :: EventId(features, rows[j]) != EventId(features, rows[k])
  }

  lemma FirstInWords(cfg: Config, rows: seq<Row>, k: nat)
    requires Deployed(cfg) && k < |rows| && forall row | row in rows :: SignalOnReads(row)
    requires FirstAnnounced(cfg.featureVersion, rows, k)
    ensures FirstUnder(cfg, rows, EventId(cfg.featureVersion, rows[k]), k)
  {
    forall j | 0 <= j <= k ensures SignalOnReads(rows[j]) {
      assert rows[j] in rows;
    }
    MessageInWords(cfg, rows[k]);
    forall j | 0 <= j < k ensures !HasKey(cfg, rows[j], EventId(cfg.featureVersion, rows[k])) {
      MessageInWords(cfg, rows[j]);
    }
  }

  lemma InsertedSignals(cfg: Config, t: Tables, r: Request, world: World)
    ensures forall row | row in RowsOf(r.user, Inserted(cfg, t, r, world)) :: SignalOnReads(row)
  {
    var items := Inserted(cfg, t, r, world);
    var rows := RowsOf(r.user, items);
    NewAreFit(cfg, t, r, world);
    forall row | row in rows ensures SignalOnReads(row) {
      var i :| 0 <= i < |rows| && rows[i] == row;
      assert items[i] in items;
    }
  }

  /** After a request committed, every announced row that is the first of its insert under an event id the
      outbox did not hold has its message there. */
  lemma CommitAnnounces(cfg: Config, t: Tables, r: Request, world: World, k: nat)
    requires var rows := RowsOf(r.user, Inserted(cfg, t, r, world));
             && Deployed(cfg) && k < |rows| && FirstAnnounced(cfg.featureVersion, rows, k)
             && EventId(cfg.featureVersion, rows[k]) !in t.outbox
    ensures var row := RowsOf(r.user, Inserted(cfg, t, r, world))[k];
            var outbox := Ingested(cfg, t, r.user, r.raws, r.now, world, r.chance).0.outbox;
            && EventId(cfg.featureVersion, row) in outbox
            && IsMessageOf(cfg.featureVersion, row, outbox[EventId(cfg.featureVersion, row)])
  {
    var items := Inserted(cfg, t, r, world);
    var rows := RowsOf(r.user, items);
    var key := EventId(cfg.featureVersion, rows[k]);
    InsertedSignals(cfg, t, r, world);
    FirstInWords(cfg, rows, k);
    RequestCommits(cfg, t, r, world);
    EnqueuedFirst(cfg, t.outbox, r.user, items, key);
    assert rows[k] in rows;
    MessageInWords(cfg, rows[k]);
  }

  /** Nothing else is announced: a new event id in the outbox is that of an announced row of the insert. */
  lemma OnlyRowsAreAnnounced(cfg: Config, t: Tables, r: Request, world: World, key: nat) returns (k: nat)
    requires Deployed(cfg) && key !in t.outbox
    requires key in Ingested(cfg, t, r.user, r.raws, r.now, world, r.chance).0.outbox
    ensures var rows := RowsOf(r.user, Inserted(cfg, t, r, world));
            k < |rows| && IsAnnounced(rows[k]) && key == EventId(cfg.featureVersion, rows[k])
  {
    var items := Inserted(cfg, t, r, world);
    var rows := RowsOf(r.user, items);
    RequestCommits(cfg, t, r, world);
    EnqueuedFirst(cfg, t.outbox, r.user, items, key);
    k :| 0 <= k < |rows| && HasKey(cfg, rows[k], key);
    InsertedSignals(cfg, t, r, world);
    assert rows[k] in rows;
    MessageInWords(cfg, rows[k]);
  }

  // ---------------------------------------------------------------- announced rows lead to rebuilds

  /** A row id is no other row's id, impression or visit. */
  ghost predicate RowIdsAreFresh(history: seq<Row>)
  {
    forall a, b | a in history && b in history && a != b ::
      a.id != b.id && b.event.impression != Some(a.id) && b.event.visit != Some(a.id)
  }

  /** A row whose message the worker applies to a vector. */
  predicate Applied(row: Row)
  {
    row.event.kind == Click || LongRead(row)
  }

  /** The first row under an applied row's event id is an applied one. */
  lemma FirstIsApplied(cfg: Config, history: seq<Row>, k: nat, first: nat)
    requires Deployed(cfg) && k < |history| && Applied(history[k]) && RowIdsAreFresh(history)
    requires first < |history| && IsAnnounced(history[first])
    requires EventId(cfg.featureVersion, history[first]) == EventId(cfg.featureVersion, history[k])
    ensures Applied(history[first])
  {
    var a, b := history[first], history[k];
    assert a in history && b in history;
  }

  lemma HistoryMessage(cfg: Config, world: World, requests: seq<Request>, first: nat)
    requires var history := History(cfg, world, requests);
             Deployed(cfg) && first < |history| && FirstAnnounced(cfg.featureVersion, history, first)
    ensures var row, outbox := History(cfg, world, requests)[first], RunAll(cfg, world, requests).outbox;
            && EventId(cfg.featureVersion, row) in outbox
            && IsMessageOf(cfg.featureVersion, row, outbox[EventId(cfg.featureVersion, row)])
            && (LongRead(row) ==> OrZero(row.event.dwellMs) >= cfg.qualifiedMs)
  {
    var t, history := RunAll(cfg, world, requests), History(cfg, world, requests);
    EveryRunKeeps(cfg, world, requests);
    forall row | row in history ensures SignalOnReads(row) {
      assert RowRight(cfg, world, t.rows[row.event.clientId], row.event.clientId);
    }
    FirstInWords(cfg, history, first);
    assert history[first] in history;
    assert Holds(cfg, t.outbox, EventId(cfg.featureVersion, history[first]), history[first]);
    MessageInWords(cfg, history[first]);
    assert RowRight(cfg, world, t.rows[history[first].event.clientId], history[first].event.clientId);
  }

  lemma AppliedIsRouted(cfg: Config, row: Row, message: W.Envelope)
    requires Deployed(cfg) && Applied(row) && IsMessageOf(cfg.featureVersion, row, message)
    requires LongRead(row) ==> OrZero(row.event.dwellMs) >= cfg.qualifiedMs
    ensures W.RoutedTo(message, row.user, cfg.qualifiedMs) && message.eventType != W.ViewObserved
  {
  }

  /** Every stored click and every stored long read is announced, in the sense that makes the worker rebuild
      its user's vector, by the step that enqueues its event id: given that the first row under that id is
      the same user's, and that the step's message is the only one with it. */
  lemma StoredReadsAreAnnounced(
      cfg: Config, world: World, requests: seq<Request>, k: nat, first: nat,
      stored: StoredVectors.Config, steps: seq<StoredVectors.Step>, j: nat)
    requires var history := History(cfg, world, requests);
             && Deployed(cfg) && k < |history| && Applied(history[k]) && RowIdsAreFresh(history)
             && first < |history| && FirstAnnounced(cfg.featureVersion, history, first)
             && EventId(cfg.featureVersion, history[first]) == EventId(cfg.featureVersion, history[k])
             && SameReader(history[first], history[k])
    requires var outbox, key := RunAll(cfg, world, requests).outbox,
                                EventId(cfg.featureVersion, History(cfg, world, requests)[k]);
             && j < |steps| && steps[j].pipe.Enqueue? && key in outbox && steps[j].pipe.env == outbox[key]
             && CurrentVectors.OnlyAt(StoredVectors.PipeSteps(steps), j, key)
    requires stored.qualifiedMs == cfg.qualifiedMs
    ensures CurrentVectors.Announces(stored, steps, j, History(cfg, world, requests)[k].user)
  {
    var history := History(cfg, world, requests);
    FirstIsApplied(cfg, history, k, first);
    HistoryMessage(cfg, world, requests, first);
    AppliedIsRouted(cfg, history[first], steps[j].pipe.env);
  }
}
