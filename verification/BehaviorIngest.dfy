/** Ingesting a batch of behaviour events (handlers.rs, repo.rs): validation, three filters, one insert
    that ignores known client ids, view counters and outbox rows, in one transaction. */
module BehaviorIngest {
  import opened Options
  import opened Sorting
  import opened BehaviorValidation
  import W = FeatureWorker

  /** A validated event, with its index in the batch and the row id made for it. */
  datatype Item = Item(index: nat, id: nat, event: Checked)

  datatype ErrorAt = ErrorAt(index: nat, code: Code)

  datatype Row = Row(id: nat, user: nat, event: Checked)

  datatype Tables = Tables(rows: map<nat, Row>, outbox: map<nat, W.Envelope>, viewCounts: map<nat, nat>)

  /** What a batch only reads: existing posts, and each impression's user and post. */
  datatype World = World(posts: set<nat>, impressions: map<nat, (nat, nat)>)

  datatype Config = Config(qualifiedMs: int, featureVersion: Version, countViews: bool)

  datatype Response =
    | BadRequest
    | ServerError
    | Counted(accepted: nat, duplicate: nat, rejected: nat, errors: seq<ErrorAt>)

  /** What a request does not decide: the row id made for each slot of its batch, and the place at which
      the insert, which joins posts and returns its rows in no stated order, yields each slot's row. */
  datatype Chance = Chance(mint: nat -> nat, place: nat -> int)

  const MAX_BATCH := 100

  // ---------------------------------------------------------------- the stages

  /** One slot of the batch; None when it does not deserialise. */
  function VerdictOf(raw: Option<Raw>, now: int, q: int): Verdict
  {
    if raw.None? then Invalid(InvalidEvent) else Validate(raw.value, now, q)
  }

  function Parsed(raws: seq<Option<Raw>>, now: int, q: int, chance: Chance): (items: seq<Item>)
    ensures |items| <= |raws|
  {
    if raws == [] then []
    else
      var n := |raws| - 1;
      var verdict := VerdictOf(raws[n], now, q);
      Parsed(raws[..n], now, q, chance) + if verdict.Valid? then [Item(n, chance.mint(n), verdict.event)] else []
  }

  function ParseErrors(raws: seq<Option<Raw>>, now: int, q: int): (errors: seq<ErrorAt>)
  {
    if raws == [] then []
    else
      var n := |raws| - 1;
      var verdict := VerdictOf(raws[n], now, q);
      ParseErrors(raws[..n], now, q) + if verdict.Valid? then [] else [ErrorAt(n, verdict.code)]
  }

  function ClientIds(items: seq<Item>): set<nat>
  {
    set item | item in items :: item.event.clientId
  }

  /** `parsed.retain(... insert(client_event_id))` */
  function FirstCopies(items: seq<Item>): (r: seq<Item>)
    ensures |r| <= |items|
  {
    if items == [] then []
    else
      var init, last := items[..|items| - 1], items[|items| - 1];
      FirstCopies(init) + if last.event.clientId in ClientIds(init) then [] else [last]
  }

  function Keep(items: seq<Item>, p: Item -> bool): (r: seq<Item>)
    ensures |r| <= |items|
  {
    if items == [] then []
    else
      var last := items[|items| - 1];
      Keep(items[..|items| - 1], p) + if p(last) then [last] else []
  }

  /** The errors of the items a filter drops. */
  function DropErrors(items: seq<Item>, p: Item -> bool, code: Code): (r: seq<ErrorAt>)
  {
    if items == [] then []
    else
      var last := items[|items| - 1];
      DropErrors(items[..|items| - 1], p, code) + if p(last) then [] else [ErrorAt(last.index, code)]
  }

  function OnPost(posts: set<nat>): Item -> bool
  {
    (item: Item) => item.event.post in posts
  }

  /** The impression is the user's own, for this post: what the insert's foreign key demands. */
  predicate RightImpression(world: World, user: nat, e: Checked)
  {
    e.impression.None?
    || (e.impression.value in world.impressions && world.impressions[e.impression.value] == (user, e.post))
  }

  /** `valid_impression_ids`: the impressions that some item of the batch refers to rightly. */
  function KnownImpressions(world: World, user: nat, items: seq<Item>): set<nat>
  {
    set item | item in items && item.event.impression.Some? && RightImpression(world, user, item.event)
      :: item.event.impression.value
  }

  /** The filter asks only whether the id is among those. */
  function Refers(known: set<nat>): Item -> bool
  {
    (item: Item) => item.event.impression.None? || item.event.impression.value in known
  }

  function IsNew(rows: map<nat, Row>): Item -> bool
  {
    (item: Item) => item.event.clientId !in rows
  }

  datatype Stages = Stages(
    parsed: seq<Item>, copies: seq<Item>, onPost: seq<Item>, referring: seq<Item>, unseen: seq<Item>)

  function StagesOf(
      t: Tables, user: nat, raws: seq<Option<Raw>>, now: int, world: World, q: int, chance: Chance): (s: Stages)
    ensures |s.unseen| <= |s.referring| && |s.copies| <= |s.parsed|
  {
    var parsed := Parsed(raws, now, q, chance);
    var copies := FirstCopies(parsed);
    var onPost := Keep(copies, OnPost(world.posts));
    var referring := Keep(onPost, Refers(KnownImpressions(world, user, onPost)));
    Stages(parsed, copies, onPost, referring, Keep(referring, IsNew(t.rows)))
  }

  /** What the insert demands: every row it is given has metadata the column takes, even a row whose
      client id is known, and every row it adds satisfies the foreign key. */
  predicate InsertHolds(world: World, user: nat, s: Stages)
  {
    && (forall item | item in s.referring :: item.event.column.Accepted())
    && (forall item | item in s.unseen :: RightImpression(world, user, item.event))
  }

  // ---------------------------------------------------------------- the transaction

  function Stored(rows: map<nat, Row>, user: nat, items: seq<Item>): map<nat, Row>
  {
    if items == [] then rows
    else
      var last := items[|items| - 1];
      Stored(rows, user, items[..|items| - 1])[last.event.clientId := Row(last.id, user, last.event)]
  }

  function CountOf(counts: map<nat, nat>, post: nat): nat
  {
    if post in counts then counts[post] else 0
  }

  function Viewed(counts: map<nat, nat>, items: seq<Item>): map<nat, nat>
  {
    if items == [] then counts
    else
      var before, last := Viewed(counts, items[..|items| - 1]), items[|items| - 1];
      if last.event.kind == View then before[last.event.post := CountOf(before, last.event.post) + 1] else before
  }

  /** The outbox message of an inserted row. A v2 qualified read is identified by its impression, else
      its visit, else its row; everything else by its row. */
  function Message(cfg: Config, row: Row): Option<W.Envelope>
  {
    var e := row.event;
    if e.kind == Click then Some(Telemetry(W.Click, row))
    else if e.qualified && e.kind == Dwell && cfg.featureVersion == V1 then Some(Telemetry(W.Dwell, row))
    else if e.qualified then
      if cfg.featureVersion == V2 then
        Some(W.Envelope(W.QualifiedRead, W.Version2, W.Uuid(Identity(row)), W.Uuid(row.user), W.Missing, W.Missing,
                        Some(e.post), Some(OrZero(e.dwellMs))))
      else if cfg.featureVersion == V1 && e.kind == View then Some(Telemetry(W.Viewed, row))
      else None
    else if e.kind == View then Some(Telemetry(W.ViewObserved, row))
    else None
  }

  function Telemetry(t: W.EventType, row: Row): W.Envelope
  {
    W.Envelope(t, W.Version1, W.Uuid(row.id), W.Uuid(row.user), W.Missing, W.Missing, Some(row.event.post), None)
  }

  function Identity(row: Row): nat
  {
    var e := row.event;
    if e.impression.Some? then e.impression.value else if e.visit.Some? then e.visit.value else row.id
  }

  /** The message of `row` has event id `key`. */
  predicate HasKey(cfg: Config, row: Row, key: nat)
  {
    Message(cfg, row).Some? && Message(cfg, row).value.eventId == W.Uuid(key)
  }

  function KeyOf(cfg: Config, row: Row): (key: nat)
    requires Message(cfg, row).Some?
    ensures HasKey(cfg, row, key)
  {
    Message(cfg, row).value.eventId.id
  }

  /** `ON CONFLICT (event_id) DO NOTHING` */
  function Enqueue(cfg: Config, outbox: map<nat, W.Envelope>, row: Row): map<nat, W.Envelope>
  {
    if Message(cfg, row).None? || KeyOf(cfg, row) in outbox then outbox
    else outbox[KeyOf(cfg, row) := Message(cfg, row).value]
  }

  function Enqueued(cfg: Config, outbox: map<nat, W.Envelope>, user: nat, items: seq<Item>): map<nat, W.Envelope>
  {
    if items == [] then outbox
    else
      var last := items[|items| - 1];
      Enqueue(cfg, Enqueued(cfg, outbox, user, items[..|items| - 1]), Row(last.id, user, last.event))
  }

  predicate EarlierPlace(chance: Chance, a: Item, b: Item)
  {
    chance.place(a.index) <= chance.place(b.index)
  }

  /** The inserted items in the order in which the insert returns their rows. */
  function Arranged(items: seq<Item>, chance: Chance): (r: seq<Item>)
    ensures multiset(r) == multiset(items)
  {
    Sort(items, (a: Item, b: Item) => EarlierPlace(chance, a, b))
  }

  function Committed(cfg: Config, t: Tables, user: nat, items: seq<Item>): Tables
  {
    Tables(Stored(t.rows, user, items), Enqueued(cfg, t.outbox, user, items),
           if cfg.countViews then Viewed(t.viewCounts, items) else t.viewCounts)
  }

  function Errors(s: Stages, raws: seq<Option<Raw>>, now: int, q: int, world: World, user: nat): seq<ErrorAt>
  {
    ParseErrors(raws, now, q) + DropErrors(s.copies, OnPost(world.posts), PostNotFound)
    + DropErrors(s.onPost, Refers(KnownImpressions(world, user, s.onPost)), ImpressionMismatch)
  }

  function ByIndex(): (ErrorAt, ErrorAt) -> bool
  {
    (a: ErrorAt, b: ErrorAt) => a.index <= b.index
  }

  predicate BadSize(raws: seq<Option<Raw>>)
  {
    raws == [] || |raws| > MAX_BATCH
  }

  /** What one request does. */
  function Ingested(
      cfg: Config, t: Tables, user: nat, raws: seq<Option<Raw>>, now: int, world: World, chance: Chance): (Tables,
          Response)
  {
    if BadSize(raws) then (t, BadRequest)
    else
      var s := StagesOf(t, user, raws, now, world, cfg.qualifiedMs, chance);
      Concluded(cfg, t, user, world, s, Errors(s, raws, now, cfg.qualifiedMs, world, user), chance)
  }

  /** The insert, which may abort, and the answer. */
  function Concluded(
      cfg: Config, t: Tables, user: nat, world: World, s: Stages, errors: seq<ErrorAt>, chance: Chance): (Tables,
          Response)
  {
    if !InsertHolds(world, user, s) then (t, ServerError)
    else
      var duplicate := |s.parsed| - |s.copies| + |s.referring| - |s.unseen|;
      (Committed(cfg, t, user, Arranged(s.unseen, chance)),
       Counted(|ClientIds(s.unseen)|, if duplicate < 0 then 0 else duplicate, |errors|, Sort(errors, ByIndex())))
  }

  // ---------------------------------------------------------------- the service object

  class InteractionService {
    const cfg: Config
    var rows: map<nat, Row>
    var outbox: map<nat, W.Envelope>
    var viewCounts: map<nat, nat>

    function View(): Tables
      reads this
    {
      Tables(rows, outbox, viewCounts)
    }

    constructor (cfg: Config)
      ensures this.cfg == cfg && View() == Tables(map[], map[], map[])
    {
      this.cfg := cfg;
      rows, outbox, viewCounts := map[], map[], map[];
    }

    /** `insert_behavior_events`, `bump_view_counts` and `enqueue_outbox_events` for the new items. */
    method Insert(user: nat, items: seq<Item>)
      modifies this`rows, this`outbox, this`viewCounts
      ensures View() == Committed(cfg, old(View()), user, items)
    {
      for i := 0 to |items|
        invariant rows == Stored(old(rows), user, items[..i])
        invariant outbox == Enqueued(cfg, old(outbox), user, items[..i])
        invariant viewCounts == if cfg.countViews then Viewed(old(viewCounts), items[..i]) else old(viewCounts)
      {
        assert items[..i + 1][..i] == items[..i];
        var item := items[i];
        rows := rows[item.event.clientId := Row(item.id, user, item.event)];
        if cfg.countViews && item.event.kind == BehaviorValidation.View {
          viewCounts := viewCounts[item.event.post := CountOf(viewCounts, item.event.post) + 1];
        }
        var message := Message(cfg, Row(item.id, user, item.event));
        if message.Some? && KeyOf(cfg, Row(item.id, user, item.event)) !in outbox {
          outbox := outbox[KeyOf(cfg, Row(item.id, user, item.event)) := message.value];
        }
      }
      assert items[..|items|] == items;
    }

    method IngestBehaviorEvents(user: nat, raws: seq<Option<Raw>>, now: int, world: World, chance: Chance)
      returns (response: Response)
      modifies this
      ensures (View(), response) == Ingested(cfg, old(View()), user, raws, now, world, chance)
    {
      if raws == [] || |raws| > MAX_BATCH {
        return BadRequest;
      }
      var stages, errors, duplicate := FilterBatch(user, raws, now, world, chance);
      response := Conclude(user, world, stages, errors, duplicate, chance);
    }

    method Conclude(user: nat, world: World, s: Stages, errors: seq<ErrorAt>, duplicate: nat, chance: Chance)
      returns (response: Response)
      requires duplicate == |s.parsed| - |s.copies| && |s.unseen| <= |s.referring|
      modifies this`rows, this`outbox, this`viewCounts
      ensures (View(), response) == Concluded(cfg, old(View()), user, world, s, errors, chance)
    {
      if !InsertHolds(world, user, s) {
        return ServerError;
      }
      Insert(user, Arranged(s.unseen, chance));
      var repeated := duplicate + |s.referring| - |s.unseen|;
      response := Counted(|ClientIds(s.unseen)|, repeated, |errors|, Sort(errors, ByIndex()));
    }

    /** The loop over the batch and the three `retain` calls; what is left and not yet stored. */
    method FilterBatch(user: nat, raws: seq<Option<Raw>>, now: int, world: World, chance: Chance)
      returns (s: Stages, errors: seq<ErrorAt>, duplicate: nat)
      ensures s == StagesOf(View(), user, raws, now, world, cfg.qualifiedMs, chance)
      ensures errors == Errors(s, raws, now, cfg.qualifiedMs, world, user)
      ensures duplicate == |s.parsed| - |s.copies| && |s.unseen| <= |s.referring|
    {
      var parsed, parseErrors := ParseAll(raws, now, cfg.qualifiedMs, chance);
      var copies;
      copies, duplicate := RetainFirstCopies(parsed);
      var onPost, postErrors := Retain(copies, OnPost(world.posts), PostNotFound);
      var known := KnownImpressions(world, user, onPost);
      var referring, impressionErrors := Retain(onPost, Refers(known), ImpressionMismatch);
      s := Stages(parsed, copies, onPost, referring, Keep(referring, IsNew(rows)));
      errors := parseErrors + postErrors + impressionErrors;
    }
  }

  method ParseAll(
      raws: seq<Option<Raw>>, now: int, q: int, chance: Chance)
    returns (parsed: seq<Item>, errors: seq<ErrorAt>)
    ensures parsed == Parsed(raws, now, q, chance) && errors == ParseErrors(raws, now, q)
  {
    parsed, errors := [], [];
    for index := 0 to |raws|
      invariant parsed == Parsed(raws[..index], now, q, chance) && errors == ParseErrors(raws[..index], now, q)
    {
      assert raws[..index + 1][..index] == raws[..index];
      var verdict := VerdictOf(raws[index], now, q);
      match verdict
      case Valid(event) => parsed := parsed + [Item(index, chance.mint(index), event)];
      case Invalid(code) => errors := errors + [ErrorAt(index, code)];
    }
    assert raws[..|raws|] == raws;
  }

  method RetainFirstCopies(items: seq<Item>) returns (kept: seq<Item>, duplicate: nat)
    ensures kept == FirstCopies(items) && duplicate == |items| - |kept|
  {
    kept, duplicate := [], 0;
    var seen: set<nat> := {};
    for i := 0 to |items|
      invariant kept == FirstCopies(items[..i]) && duplicate == i - |kept|
      invariant seen == ClientIds(items[..i])
    {
      assert items[..i + 1][..i] == items[..i];
      assert items[..i + 1] == items[..i] + [items[i]];
      if items[i].event.clientId in seen {
        duplicate := duplicate + 1;
      } else {
        kept := kept + [items[i]];
      }
      seen := seen + {items[i].event.clientId};
    }
    assert items[..|items|] == items;
  }

  method Retain(items: seq<Item>, p: Item -> bool, code: Code) returns (kept: seq<Item>, errors: seq<ErrorAt>)
    ensures kept == Keep(items, p) && errors == DropErrors(items, p, code)
  {
    kept, errors := [], [];
    for i := 0 to |items|
      invariant kept == Keep(items[..i], p) && errors == DropErrors(items[..i], p, code)
    {
      assert items[..i + 1][..i] == items[..i];
      if p(items[i]) {
        kept := kept + [items[i]];
      } else {
        errors := errors + [ErrorAt(items[i].index, code)];
      }
    }
    assert items[..|items|] == items;
  }
}
