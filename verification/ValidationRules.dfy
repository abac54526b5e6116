/** The rules a behaviour event must keep, in the source's own limits, and what a request answers about
    events that break them. */
module ValidationRules {
  import opened Options
  import opened Sorting
  import opened BehaviorValidation
  import opened BehaviorIngest
  import opened BehaviorBatches

  // ---------------------------------------------------------------- one event

  predicate OnlyKeys(metadata: map<Key, Value>, keys: set<Key>)
  {
    forall k | k in metadata :: k in keys
  }

  /** A visit id, if there is one, is the text of a UUID. */
  predicate VisitIsUuid(metadata: map<Key, Value>)
  {
    VisitId in metadata ==> metadata[VisitId].Text? && metadata[VisitId].w.UuidText?
  }

  predicate TriggeredBy(metadata: map<Key, Value>, words: set<Word>)
  {
    Trigger in metadata && metadata[Trigger].Text? && metadata[Trigger].w in words
  }

  /** The duration in the metadata; anything but a 64-bit integer counts as 0. */
  function VisibleFor(metadata: map<Key, Value>): int
  {
    if Continuous in metadata && metadata[Continuous].Int?
       && -9223372036854775808 <= metadata[Continuous].n <= 9223372036854775807
    then metadata[Continuous].n else 0
  }

  function Longest(a: int, b: Option<int>): int
  {
    if b.Some? && b.value > a then b.value else if b.None? && 0 > a then 0 else a
  }

  predicate VisibleFits(raw: Raw, metadata: map<Key, Value>)
  {
    && raw.dwellMs.None? && OnlyKeys(metadata, {ViewportRatio}) && ViewportRatio in metadata
    && (metadata[ViewportRatio] == Int(1)
        || (metadata[ViewportRatio].Float? && 0.5 <= metadata[ViewportRatio].x && metadata[ViewportRatio].x <= 1.0))
  }

  predicate ViewFits(raw: Raw, metadata: map<Key, Value>, q: int)
  {
    && OnlyKeys(metadata, {Continuous, Trigger, VisitId}) && VisitIsUuid(metadata)
    && TriggeredBy(metadata, {Feed, Detail})
    && 0 <= VisibleFor(metadata) && VisibleFor(metadata) <= 1800000
    && (raw.version == Some(V2) ==> raw.dwellMs == Some(VisibleFor(metadata)))
    && (TriggeredBy(metadata, {Feed}) ==>
          Longest(VisibleFor(metadata), raw.dwellMs) >= if raw.version == Some(V2) then q else 5000)
  }

  predicate ClickFits(raw: Raw, metadata: map<Key, Value>)
  {
    raw.dwellMs.None? && metadata == map[Target := Text(PostDetail)]
  }

  predicate DwellFits(raw: Raw, metadata: map<Key, Value>)
  {
    && raw.dwellMs.Some? && OnlyKeys(metadata, {Trigger, VisitId}) && VisitIsUuid(metadata)
    && TriggeredBy(metadata, {ViewportExit, PageHidden, Destroy})
  }

  predicate Fits(raw: Raw, q: int)
  {
    && raw.version != Some(OtherVersion)
    && (raw.dwellMs.Some? ==> 0 <= raw.dwellMs.value && raw.dwellMs.value <= 1800000)
    && raw.metadata.Some? && raw.metadataBytes <= 8192
    && raw.kind != OtherKind
    && (raw.kind == Visible ==> VisibleFits(raw, raw.metadata.value))
    && (raw.kind == View ==> ViewFits(raw, raw.metadata.value, q))
    && (raw.kind == Click ==> ClickFits(raw, raw.metadata.value))
    && (raw.kind == Dwell ==> DwellFits(raw, raw.metadata.value))
  }

  lemma ClickKeys(metadata: map<Key, Value>)
    ensures metadata.Keys <= {Target} && Target in metadata && metadata[Target] == Text(PostDetail)
       <==> metadata == map[Target := Text(PostDetail)]
  {
  }

  lemma MeasuredIff(raw: Raw, metadata: map<Key, Value>, q: int)
    requires raw.version != Some(OtherVersion) && raw.metadata == Some(metadata)
    ensures Measure(raw, if raw.version.Some? then raw.version.value else V1, metadata, q).Measured?
       <==> && raw.kind != OtherKind
            && (raw.kind == Visible ==> VisibleFits(raw, metadata)) && (raw.kind == View ==> ViewFits(raw, metadata, q))
            && (raw.kind == Click ==> ClickFits(raw, metadata)) && (raw.kind == Dwell ==> DwellFits(raw, metadata))
  {
    ClickKeys(metadata);
  }

  /** An event is accepted exactly when it keeps the rules of its kind. */
  lemma AcceptedIff(raw: Raw, now: int, q: int)
    ensures Validate(raw, now, q).Valid? <==> Fits(raw, q)
  {
    if raw.version != Some(OtherVersion) && raw.metadata.Some? {
      MeasuredIff(raw, raw.metadata.value, q);
    }
  }

  /** What is stored of an accepted event: a view lasts as long as the longer of its two durations, a long
      enough read is qualified, and the time is cut to one day back and five minutes ahead. */
  lemma AcceptedIsStoredAs(raw: Raw, now: int, q: int)
    requires Validate(raw, now, q).Valid?
    ensures raw.metadata.Some?
    ensures var c, m := Validate(raw, now, q).event, raw.metadata.value;
            && c.clientId == raw.clientId && c.post == raw.post && c.impression == raw.impression
            && c.session == raw.session && c.kind == raw.kind && c.metadata == m && c.column == raw.column
            && c.version == (if raw.version == Some(V2) then V2 else V1)
            && c.dwellMs == (if raw.kind == View then Some(Longest(VisibleFor(m), raw.dwellMs))
                             else if raw.kind == Dwell then raw.dwellMs else None)
            && (c.qualified <==> c.dwellMs.Some? && c.dwellMs.value >= q)
            && (c.visit.Some? <==> VisitId in m) && (VisitId in m ==> m[VisitId] == Text(UuidText(c.visit.value)))
            && c.occurredAt == (if raw.occurredAt < now - 86400000 then now - 86400000
                                else if raw.occurredAt > now + 300000 then now + 300000 else raw.occurredAt)
  {
    AcceptedIff(raw, now, q);
  }

  /** The rule that a refusal's code names. */
  predicate Breaks(raw: Raw, q: int, code: Code)
  {
    match code
    case InvalidEventVersion => raw.version == Some(OtherVersion)
    case InvalidDwellMs =>
      || (raw.dwellMs.Some? && !(0 <= raw.dwellMs.value && raw.dwellMs.value <= 1800000))
      || (raw.kind == Visible && raw.dwellMs.Some?) || (raw.kind == Dwell && raw.dwellMs.None?)
    case MetadataTooLarge => raw.metadataBytes > 8192
    case UnknownMetadataKey =>
      && raw.metadata.Some?
      && ((raw.kind == Visible && !OnlyKeys(raw.metadata.value, {ViewportRatio}))
          || (raw.kind == View && !OnlyKeys(raw.metadata.value, {Continuous, Trigger, VisitId}))
          || (raw.kind == Click && !OnlyKeys(raw.metadata.value, {Target}))
          || (raw.kind == Dwell && !OnlyKeys(raw.metadata.value, {Trigger, VisitId})))
    case InconsistentDuration =>
      raw.kind == View && raw.version == Some(V2) && raw.metadata.Some?
      && raw.dwellMs != Some(VisibleFor(raw.metadata.value))
    case UnqualifiedView =>
      raw.kind == View && raw.metadata.Some? && TriggeredBy(raw.metadata.value, {Feed})
      && Longest(VisibleFor(raw.metadata.value), raw.dwellMs) < if raw.version == Some(V2) then q else 5000
    case InvalidEventType => raw.kind == OtherKind
    case InvalidMetadata =>
      || raw.metadata.None?
      || (raw.kind == Visible && !VisibleFits(raw, raw.metadata.value))
      || (raw.kind == View && (!VisitIsUuid(raw.metadata.value) || !TriggeredBy(raw.metadata.value, {Feed, Detail})
                               || VisibleFor(raw.metadata.value) < 0 || VisibleFor(raw.metadata.value) > 1800000))
      || (raw.kind == Click && !ClickFits(raw, raw.metadata.value))
      || (raw.kind == Dwell && (!VisitIsUuid(raw.metadata.value)
                                || !TriggeredBy(raw.metadata.value, {ViewportExit, PageHidden, Destroy})))
    case _ => false
  }

  /** A refused event breaks the rule that its code names. */
  lemma RefusalNamesTheRule(raw: Raw, now: int, q: int)
    requires Validate(raw, now, q).Invalid?
    ensures Breaks(raw, q, Validate(raw, now, q).code)
  {
  }

  // ---------------------------------------------------------------- what a request answers

  /** A request of no or more than 100 events is refused before anything is looked at. */
  lemma BatchSizes(
      cfg: Config, t: Tables, user: nat, raws: seq<Option<Raw>>, now: int, world: World, chance: Chance)
    ensures Ingested(cfg, t, user, raws, now, world, chance).1 == BadRequest <==> |raws| == 0 || |raws| >= 101
    ensures |raws| == 0 || |raws| >= 101 ==> Ingested(cfg, t, user, raws, now, world, chance).0 == t
  {
  }

  lemma {:induction false} ParseErrorsAre(raws: seq<Option<Raw>>, now: int, q: int, error: ErrorAt)
    ensures error in ParseErrors(raws, now, q)
       <==> error.index < |raws| && VerdictOf(raws[error.index], now, q) == Invalid(error.code)
    decreases |raws|
  {
    if raws != [] {
      ParseErrorsAre(raws[..|raws| - 1], now, q, error);
    }
  }

  lemma {:induction false} DropErrorsAre(items: seq<Item>, p: Item -> bool, code: Code, error: ErrorAt)
    ensures error in DropErrors(items, p, code)
       <==> error.code == code && exists item :: item in items && !p(item) && item.index == error.index
    decreases |items|
  {
    if items != [] {
      var init, last := items[..|items| - 1], items[|items| - 1];
      DropErrorsAre(init, p, code, error);
      assert forall item :: item in items <==> item in init || item == last;
    }
  }

  /** Slot `i` is refused with this code: by its own rules, as the first copy of an event on no post, or as
      one that names an impression nothing in the batch names rightly. */
  ghost predicate RefusedWith(
      user: nat, raws: seq<Option<Raw>>, now: int, q: int, world: World, i: nat, code: Code)
  {
    && i < |raws|
    && (|| (raws[i].None? && code == InvalidEvent)
        || (raws[i].Some? && Validate(raws[i].value, now, q) == Invalid(code))
        || (code == PostNotFound && FirstValid(raws, i, now, q)
            && VerdictOf(raws[i], now, q).event.post !in world.posts)
        || (code == ImpressionMismatch && OnExistingPost(raws, now, q, world, i)
            && !Reaches(user, raws, now, q, world, i)))
  }

  lemma PostErrors(
      raws: seq<Option<Raw>>, now: int, q: int, world: World, chance: Chance, error: ErrorAt)
    ensures error in DropErrors(FirstCopies(Parsed(raws, now, q, chance)), OnPost(world.posts), PostNotFound)
       <==> && error.code == PostNotFound && error.index < |raws| && FirstValid(raws, error.index, now, q)
            && VerdictOf(raws[error.index], now, q).event.post !in world.posts
  {
    var copies, p := FirstCopies(Parsed(raws, now, q, chance)), OnPost(world.posts);
    DropErrorsAre(copies, p, PostNotFound, error);
    if item :| item in copies && !p(item) && item.index == error.index {
      CopiesAreMeant(raws, now, q, chance, item);
    }
    if error.index < |raws| && FirstValid(raws, error.index, now, q) {
      CopiesAreMeant(raws, now, q, chance, SlotItem(raws, now, q, chance, error.index));
    }
  }

  lemma ImpressionErrors(
      t: Tables, user: nat, raws: seq<Option<Raw>>, now: int, q: int, world: World, chance: Chance, error: ErrorAt)
    ensures var s := StagesOf(t, user, raws, now, world, q, chance);
            error in DropErrors(s.onPost, Refers(KnownImpressions(world, user, s.onPost)), ImpressionMismatch)
            <==> && error.code == ImpressionMismatch && error.index < |raws|
                 && OnExistingPost(raws, now, q, world, error.index)
                 && !Reaches(user, raws, now, q, world, error.index)
  {
    var s := StagesOf(t, user, raws, now, world, q, chance);
    var p := Refers(KnownImpressions(world, user, s.onPost));
    DropErrorsAre(s.onPost, p, ImpressionMismatch, error);
    if item :| item in s.onPost && !p(item) && item.index == error.index {
      OnPostIsMeant(raws, now, q, chance, world, item);
      KeepIsMeant(s.onPost, p, item);
      ReferringIsMeant(t, user, raws, now, world, q, chance, item);
    }
    if error.index < |raws| && OnExistingPost(raws, now, q, world, error.index) {
      var item := SlotItem(raws, now, q, chance, error.index);
      OnPostIsMeant(raws, now, q, chance, world, item);
      KeepIsMeant(s.onPost, p, item);
      ReferringIsMeant(t, user, raws, now, world, q, chance, item);
    }
  }

  lemma StageErrors(
      t: Tables, user: nat, raws: seq<Option<Raw>>, now: int, q: int, world: World, chance: Chance, error: ErrorAt)
    ensures error in Errors(StagesOf(t, user, raws, now, world, q, chance), raws, now, q, world, user)
       <==> RefusedWith(user, raws, now, q, world, error.index, error.code)
  {
    var s := StagesOf(t, user, raws, now, world, q, chance);
    var a, b, c := ParseErrors(raws, now, q), DropErrors(s.copies, OnPost(world.posts), PostNotFound),
                   DropErrors(s.onPost, Refers(KnownImpressions(world, user, s.onPost)), ImpressionMismatch);
    assert Errors(s, raws, now, q, world, user) == a + b + c;
    assert error in a + b + c <==> error in a || error in b || error in c;
    ParseErrorsAre(raws, now, q, error);
    PostErrors(raws, now, q, world, chance, error);
    ImpressionErrors(t, user, raws, now, q, world, chance, error);
  }

  lemma AnsweredErrors(
      cfg: Config, t: Tables, user: nat, raws: seq<Option<Raw>>, now: int, world: World, chance: Chance)
    requires Ingested(cfg, t, user, raws, now, world, chance).1.Counted?
    ensures Ingested(cfg, t, user, raws, now, world, chance).1.errors
         == Sort(Errors(StagesOf(t, user, raws, now, world, cfg.qualifiedMs, chance), raws, now, cfg.qualifiedMs, world,
                        user), ByIndex())
  {
  }

  /** The errors a request answers are exactly those refusals, by slot. */
  lemma ErrorsAreMeant(
      cfg: Config, t: Tables, user: nat, raws: seq<Option<Raw>>, now: int, world: World, chance: Chance,
      error: ErrorAt)
    requires Ingested(cfg, t, user, raws, now, world, chance).1.Counted?
    ensures error in Ingested(cfg, t, user, raws, now, world, chance).1.errors
       <==> RefusedWith(user, raws, now, cfg.qualifiedMs, world, error.index, error.code)
  {
    var s := StagesOf(t, user, raws, now, world, cfg.qualifiedMs, chance);
    AnsweredErrors(cfg, t, user, raws, now, world, chance);
    SortMembers(Errors(s, raws, now, cfg.qualifiedMs, world, user), ByIndex());
    StageErrors(t, user, raws, now, cfg.qualifiedMs, world, chance, error);
  }

  lemma ByIndexOrders()
    ensures TotalPreorder(ByIndex())
  {
  }

  /** In the order of the slots. */
  lemma ErrorsInOrder(
      cfg: Config, t: Tables, user: nat, raws: seq<Option<Raw>>, now: int, world: World, chance: Chance, i: nat, j: nat)
    requires Ingested(cfg, t, user, raws, now, world, chance).1.Counted?
    requires i < j < |Ingested(cfg, t, user, raws, now, world, chance).1.errors|
    ensures var errors := Ingested(cfg, t, user, raws, now, world, chance).1.errors; errors[i].index <= errors[j].index
  {
    ByIndexOrders();
    AnsweredErrors(cfg, t, user, raws, now, world, chance);
    SortSorted(Errors(StagesOf(t, user, raws, now, world, cfg.qualifiedMs, chance), raws, now, cfg.qualifiedMs, world,
                      user), ByIndex());
  }
}
