/** What one batch of behaviour events does: its counts, which events it stores, when it commits, and
    sending it again. */
module BehaviorBatches {
  import opened Options
  import opened Sorting
  import opened BehaviorValidation
  import opened BehaviorIngest

  // ---------------------------------------------------------------- counting

  lemma {:induction false} ParseCounts(raws: seq<Option<Raw>>, now: int, q: int, chance: Chance)
    ensures |Parsed(raws, now, q, chance)| + |ParseErrors(raws, now, q)| == |raws|
    decreases |raws|
  {
    if raws != [] {
      ParseCounts(raws[..|raws| - 1], now, q, chance);
    }
  }

  lemma {:induction false} KeepCounts(items: seq<Item>, p: Item -> bool, code: Code)
    ensures |Keep(items, p)| + |DropErrors(items, p, code)| == |items|
    decreases |items|
  {
    if items != [] {
      KeepCounts(items[..|items| - 1], p, code);
    }
  }

  ghost predicate DistinctClients(items: seq<Item>)
  {
    forall i, j | 0 <= i < j < |items| :: items[i].event.clientId != items[j].event.clientId
  }

  lemma ClientIdsSnoc(items: seq<Item>, last: Item)
    ensures ClientIds(items + [last]) == ClientIds(items) + {last.event.clientId}
  {
    assert forall item :: item in items + [last] <==> item in items || item == last;
  }

  lemma {:induction false} CopiesDistinct(items: seq<Item>)
    ensures DistinctClients(FirstCopies(items)) && ClientIds(FirstCopies(items)) == ClientIds(items)
    decreases |items|
  {
    if items != [] {
      var init, last := items[..|items| - 1], items[|items| - 1];
      var copies := FirstCopies(init);
      CopiesDistinct(init);
      assert items == init + [last];
      ClientIdsSnoc(init, last);
      ClientIdsSnoc(copies, last);
      forall i | 0 <= i < |copies| ensures copies[i].event.clientId in ClientIds(init) {
        assert copies[i] in copies;
      }
    }
  }

  lemma {:induction false} KeepIsMeant(items: seq<Item>, p: Item -> bool, item: Item)
    ensures item in Keep(items, p) <==> item in items && p(item)
    decreases |items|
  {
    if items != [] {
      KeepIsMeant(items[..|items| - 1], p, item);
      assert items == items[..|items| - 1] + [items[|items| - 1]];
    }
  }

  lemma {:induction false} KeepDistinct(items: seq<Item>, p: Item -> bool)
    requires DistinctClients(items)
    ensures DistinctClients(Keep(items, p))
    decreases |items|
  {
    if items != [] {
      var init := items[..|items| - 1];
      KeepDistinct(init, p);
      var kept := Keep(init, p);
      forall i | 0 <= i < |kept| ensures kept[i].event.clientId != items[|items| - 1].event.clientId {
        assert kept[i] in kept;
        KeepIsMeant(init, p, kept[i]);
      }
    }
  }

  lemma {:induction false} DistinctCount(items: seq<Item>)
    requires DistinctClients(items)
    ensures |ClientIds(items)| == |items|
    decreases |items|
  {
    if items != [] {
      var init, last := items[..|items| - 1], items[|items| - 1];
      DistinctCount(init);
      assert items == init + [last];
      assert ClientIds(items) == ClientIds(init) + {last.event.clientId};
      assert last.event.clientId !in ClientIds(init);
    }
  }

  lemma NewDistinct(t: Tables, user: nat, raws: seq<Option<Raw>>, now: int, world: World, q: int, chance: Chance)
    ensures var s := StagesOf(t, user, raws, now, world, q, chance);
            DistinctClients(s.copies) && DistinctClients(s.onPost) && DistinctClients(s.referring)
                && DistinctClients(s.unseen)
  {
    var s := StagesOf(t, user, raws, now, world, q, chance);
    CopiesDistinct(s.parsed);
    KeepDistinct(s.copies, OnPost(world.posts));
    KeepDistinct(s.onPost, Refers(KnownImpressions(world, user, s.onPost)));
    KeepDistinct(s.referring, IsNew(t.rows));
  }

  /** Nothing is counted twice or lost: accepted, duplicate and rejected events add up to the batch. */
  lemma CountsAddUp(cfg: Config, t: Tables, user: nat, raws: seq<Option<Raw>>, now: int, world: World, chance: Chance)
    requires Ingested(cfg, t, user, raws, now, world, chance).1.Counted?
    ensures var r := Ingested(cfg, t, user, raws, now, world, chance).1;
            r.accepted + r.duplicate + r.rejected == |raws| && |r.errors| == r.rejected
  {
    var q := cfg.qualifiedMs;
    var s := StagesOf(t, user, raws, now, world, q, chance);
    ParseCounts(raws, now, q, chance);
    KeepCounts(s.copies, OnPost(world.posts), PostNotFound);
    KeepCounts(s.onPost, Refers(KnownImpressions(world, user, s.onPost)), ImpressionMismatch);
    NewDistinct(t, user, raws, now, world, q, chance);
    DistinctCount(s.unseen);
  }

  // ---------------------------------------------------------------- which events are stored

  /** Slot `i` holds the first valid event of its client id in the batch. */
  ghost predicate FirstValid(raws: seq<Option<Raw>>, i: nat, now: int, q: int)
    requires i < |raws|
  {
    && VerdictOf(raws[i], now, q).Valid?
    && forall j | 0 <= j < i && VerdictOf(raws[j], now, q).Valid? ::
         VerdictOf(raws[j], now, q).event.clientId != VerdictOf(raws[i], now, q).event.clientId
  }

  ghost predicate FromSlot(raws: seq<Option<Raw>>, now: int, q: int, chance: Chance, item: Item)
  {
    item.index < |raws| && VerdictOf(raws[item.index], now, q) == Valid(item.event)
        && item.id == chance.mint(item.index)
  }

  lemma {:induction false} ParsedIsMeant(raws: seq<Option<Raw>>, now: int, q: int, chance: Chance, item: Item)
    ensures item in Parsed(raws, now, q, chance) <==> FromSlot(raws, now, q, chance, item)
    decreases |raws|
  {
    if raws != [] {
      ParsedIsMeant(raws[..|raws| - 1], now, q, chance, item);
    }
  }

  function SlotItem(raws: seq<Option<Raw>>, now: int, q: int, chance: Chance, n: nat): Item
    requires n < |raws| && VerdictOf(raws[n], now, q).Valid?
  {
    Item(n, chance.mint(n), VerdictOf(raws[n], now, q).event)
  }

  lemma FirstValidIff(raws: seq<Option<Raw>>, now: int, q: int, chance: Chance, n: nat)
    requires n < |raws| && VerdictOf(raws[n], now, q).Valid?
    ensures FirstValid(raws, n, now, q)
       <==> VerdictOf(raws[n], now, q).event.clientId !in ClientIds(Parsed(raws[..n], now, q, chance))
  {
    EarlierClients(raws[..n], now, q, chance, VerdictOf(raws[n], now, q).event.clientId);
  }

  lemma CopiesSnoc(items: seq<Item>, last: Item)
    ensures FirstCopies(items + [last])
            == FirstCopies(items) + if last.event.clientId in ClientIds(items) then [] else [last]
  {
    assert (items + [last])[..|items|] == items;
  }

  /** One more slot adds its item exactly when it is the first valid one of its client id. */
  lemma CopiesStep(raws: seq<Option<Raw>>, now: int, q: int, chance: Chance)
    requires raws != []
    ensures var n := |raws| - 1;
            FirstCopies(Parsed(raws, now, q, chance))
            == FirstCopies(Parsed(raws[..n], now, q, chance))
               + if FirstValid(raws, n, now, q) then [SlotItem(raws, now, q, chance, n)] else []
  {
    var n := |raws| - 1;
    var before := Parsed(raws[..n], now, q, chance);
    if VerdictOf(raws[n], now, q).Valid? {
      FirstValidIff(raws, now, q, chance, n);
      CopiesSnoc(before, SlotItem(raws, now, q, chance, n));
    } else {
      assert Parsed(raws, now, q, chance) == before;
    }
  }

  /** The de-duplicated items are those of the first valid slots. */
  lemma {:induction false} CopiesAreMeant(raws: seq<Option<Raw>>, now: int, q: int, chance: Chance, item: Item)
    ensures item in FirstCopies(Parsed(raws, now, q, chance))
       <==> FromSlot(raws, now, q, chance, item) && FirstValid(raws, item.index, now, q)
    decreases |raws|
  {
    if raws != [] {
      var n := |raws| - 1;
      CopiesAreMeant(raws[..n], now, q, chance, item);
      CopiesStep(raws, now, q, chance);
      if item.index < n {
        SlotOfPrefix(raws, now, q, chance, item);
      } else {
        LastSlot(raws, now, q, chance, item);
      }
    }
  }

  lemma LastSlot(raws: seq<Option<Raw>>, now: int, q: int, chance: Chance, item: Item)
    requires item.index >= |raws| - 1 >= 0
    ensures !FromSlot(raws[..|raws| - 1], now, q, chance, item)
    ensures FromSlot(raws, now, q, chance, item)
       <==> VerdictOf(raws[|raws| - 1], now, q).Valid? && item == SlotItem(raws, now, q, chance, |raws| - 1)
  {
  }

  lemma SlotOfPrefix(raws: seq<Option<Raw>>, now: int, q: int, chance: Chance, item: Item)
    requires item.index < |raws| - 1
    ensures FromSlot(raws[..|raws| - 1], now, q, chance, item) <==> FromSlot(raws, now, q, chance, item)
    ensures FirstValid(raws[..|raws| - 1], item.index, now, q) <==> FirstValid(raws, item.index, now, q)
  {
  }

  predicate IsOfClient(verdict: Verdict, client: nat)
  {
    verdict.Valid? && verdict.event.clientId == client
  }

  lemma EarlierClients(raws: seq<Option<Raw>>, now: int, q: int, chance: Chance, client: nat)
    ensures client in ClientIds(Parsed(raws, now, q, chance))
            <==> exists j :: 0 <= j < |raws| && IsOfClient(VerdictOf(raws[j], now, q), client)
  {
    if client in ClientIds(Parsed(raws, now, q, chance)) {
      var item :| item in Parsed(raws, now, q, chance) && item.event.clientId == client;
      ParsedIsMeant(raws, now, q, chance, item);
    }
    if j :| 0 <= j < |raws| && IsOfClient(VerdictOf(raws[j], now, q), client) {
      ParsedIsMeant(raws, now, q, chance, Item(j, chance.mint(j), VerdictOf(raws[j], now, q).event));
    }
  }

  /** The item of slot `i` reaches the insert: first valid copy, existing post, and an impression that
      some such event of the batch refers to rightly. */
  ghost predicate Reaches(user: nat, raws: seq<Option<Raw>>, now: int, q: int, world: World, i: nat)
    requires i < |raws|
  {
    && OnExistingPost(raws, now, q, world, i)
    && var e := VerdictOf(raws[i], now, q).event;
       (e.impression.None? || exists j :: ReferredRightly(user, raws, now, q, world, e.impression.value, j))
  }

  ghost predicate OnExistingPost(raws: seq<Option<Raw>>, now: int, q: int, world: World, i: nat)
    requires i < |raws|
  {
    FirstValid(raws, i, now, q) && VerdictOf(raws[i], now, q).event.post in world.posts
  }

  ghost predicate ReferredRightly(
      user: nat, raws: seq<Option<Raw>>, now: int, q: int, world: World, impression: nat, j: int)
  {
    && 0 <= j < |raws| && OnExistingPost(raws, now, q, world, j)
    && VerdictOf(raws[j], now, q).event.impression == Some(impression)
    && RightImpression(world, user, VerdictOf(raws[j], now, q).event)
  }

  lemma OnPostIsMeant(raws: seq<Option<Raw>>, now: int, q: int, chance: Chance, world: World, item: Item)
    ensures item in Keep(FirstCopies(Parsed(raws, now, q, chance)), OnPost(world.posts))
       <==> FromSlot(raws, now, q, chance, item) && OnExistingPost(raws, now, q, world, item.index)
  {
    KeepIsMeant(FirstCopies(Parsed(raws, now, q, chance)), OnPost(world.posts), item);
    CopiesAreMeant(raws, now, q, chance, item);
  }

  lemma KnownIsReferred(
      user: nat, raws: seq<Option<Raw>>, now: int, q: int, chance: Chance, world: World, item: Item)
    requires item in Keep(FirstCopies(Parsed(raws, now, q, chance)), OnPost(world.posts))
    requires item.event.impression.Some? && RightImpression(world, user, item.event)
    ensures ReferredRightly(user, raws, now, q, world, item.event.impression.value, item.index)
  {
    OnPostIsMeant(raws, now, q, chance, world, item);
  }

  lemma ReferredIsKnown(
      user: nat, raws: seq<Option<Raw>>, now: int, q: int, chance: Chance, world: World, impression: nat, j: nat)
    requires ReferredRightly(user, raws, now, q, world, impression, j)
    ensures SlotItem(raws, now, q, chance, j) in Keep(FirstCopies(Parsed(raws, now, q, chance)), OnPost(world.posts))
  {
    OnPostIsMeant(raws, now, q, chance, world, SlotItem(raws, now, q, chance, j));
  }

  lemma KnownIsMeant(
      user: nat, raws: seq<Option<Raw>>, now: int, q: int, chance: Chance, world: World, onPost: seq<Item>,
          impression: nat)
    requires onPost == Keep(FirstCopies(Parsed(raws, now, q, chance)), OnPost(world.posts))
    ensures impression in KnownImpressions(world, user, onPost)
       <==> exists j :: ReferredRightly(user, raws, now, q, world, impression, j)
  {
    if impression in KnownImpressions(world, user, onPost) {
      var item :|
        item in onPost && item.event.impression == Some(impression) && RightImpression(world, user, item.event);
      KnownIsReferred(user, raws, now, q, chance, world, item);
    }
    if j :| ReferredRightly(user, raws, now, q, world, impression, j) {
      ReferredIsKnown(user, raws, now, q, chance, world, impression, j);
      var item := SlotItem(raws, now, q, chance, j);
      assert item in onPost && item.event.impression == Some(impression);
    }
  }

  /** The items the insert is given are exactly those that reach it. */
  lemma ReferringIsMeant(
      t: Tables, user: nat, raws: seq<Option<Raw>>, now: int, world: World, q: int, chance: Chance, item: Item)
    ensures item in StagesOf(t, user, raws, now, world, q, chance).referring
       <==> FromSlot(raws, now, q, chance, item) && Reaches(user, raws, now, q, world, item.index)
  {
    var s := StagesOf(t, user, raws, now, world, q, chance);
    KeepIsMeant(s.onPost, Refers(KnownImpressions(world, user, s.onPost)), item);
    OnPostIsMeant(raws, now, q, chance, world, item);
    if item.event.impression.Some? {
      KnownIsMeant(user, raws, now, q, chance, world, s.onPost, item.event.impression.value);
    }
  }

  /** The items inserted are exactly those that reach the insert under a client id not yet stored. */
  lemma NewIsMeant(
      t: Tables, user: nat, raws: seq<Option<Raw>>, now: int, world: World, q: int, chance: Chance, item: Item)
    ensures item in StagesOf(t, user, raws, now, world, q, chance).unseen
       <==> && FromSlot(raws, now, q, chance, item) && Reaches(user, raws, now, q, world, item.index)
            && item.event.clientId !in t.rows
  {
    KeepIsMeant(StagesOf(t, user, raws, now, world, q, chance).referring, IsNew(t.rows), item);
    ReferringIsMeant(t, user, raws, now, world, q, chance, item);
  }

  // ---------------------------------------------------------------- when a batch commits

  /** The event does not make the insert fail. */
  predicate Insertable(t: Tables, user: nat, world: World, e: Checked)
  {
    e.column.Accepted() && (e.clientId in t.rows || RightImpression(world, user, e))
  }

  /** No event that passes the filters makes the insert fail. */
  ghost predicate Insertables(t: Tables, user: nat, raws: seq<Option<Raw>>, now: int, world: World, q: int)
  {
    forall i | 0 <= i < |raws| && Reaches(user, raws, now, q, world, i) ::
      Insertable(t, user, world, VerdictOf(raws[i], now, q).event)
  }

  lemma HoldsMeansInsertable(
      t: Tables, user: nat, raws: seq<Option<Raw>>, now: int, world: World, q: int, chance: Chance, i: nat)
    requires i < |raws| && Reaches(user, raws, now, q, world, i)
    requires InsertHolds(world, user, StagesOf(t, user, raws, now, world, q, chance))
    ensures Insertable(t, user, world, VerdictOf(raws[i], now, q).event)
  {
    NewIsMeant(t, user, raws, now, world, q, chance, SlotItem(raws, now, q, chance, i));
    ReferringIsMeant(t, user, raws, now, world, q, chance, SlotItem(raws, now, q, chance, i));
  }

  lemma InsertableMeansHolds(
      t: Tables, user: nat, raws: seq<Option<Raw>>, now: int, world: World, q: int, chance: Chance)
    requires Insertables(t, user, raws, now, world, q)
    ensures InsertHolds(world, user, StagesOf(t, user, raws, now, world, q, chance))
  {
    var s := StagesOf(t, user, raws, now, world, q, chance);
    forall item | item in s.referring ensures item.event.column.Accepted() {
      ReferringIsMeant(t, user, raws, now, world, q, chance, item);
      assert Reaches(user, raws, now, q, world, item.index);
    }
    forall item | item in s.unseen ensures RightImpression(world, user, item.event) {
      NewIsMeant(t, user, raws, now, world, q, chance, item);
      assert Reaches(user, raws, now, q, world, item.index);
    }
  }

  /** A batch commits exactly when every event that passes the filters has metadata the column takes and,
      unless its client id is known, refers to its own impression rightly. Validation measures the
      metadata before `event_version` is added and never looks for NUL escapes, and the filter lets an
      impression through that another event of the batch refers to rightly: one such event aborts all. */
  lemma BatchCommitsIff(
      cfg: Config, t: Tables, user: nat, raws: seq<Option<Raw>>, now: int, world: World, chance: Chance)
    requires !BadSize(raws)
    ensures Ingested(cfg, t, user, raws, now, world, chance).1.Counted?
       <==> Insertables(t, user, raws, now, world, cfg.qualifiedMs)
  {
    var q := cfg.qualifiedMs;
    var s := StagesOf(t, user, raws, now, world, q, chance);
    if InsertHolds(world, user, s) {
      forall i | 0 <= i < |raws| && Reaches(user, raws, now, q, world, i)
        ensures Insertable(t, user, world, VerdictOf(raws[i], now, q).event)
      {
        HoldsMeansInsertable(t, user, raws, now, world, q, chance, i);
      }
    }
    if forall i | 0 <= i < |raws| && Reaches(user, raws, now, q, world, i) ::
         Insertable(t, user, world, VerdictOf(raws[i], now, q).event) {
      InsertableMeansHolds(t, user, raws, now, world, q, chance);
    }
  }

  /** One event that makes the insert fail aborts the whole batch. */
  lemma OneAbortsAll(
      cfg: Config, t: Tables, user: nat, raws: seq<Option<Raw>>, now: int, world: World, chance: Chance, i: nat)
    requires i < |raws| <= MAX_BATCH && Reaches(user, raws, now, cfg.qualifiedMs, world, i)
    requires !Insertable(t, user, world, VerdictOf(raws[i], now, cfg.qualifiedMs).event)
    ensures Ingested(cfg, t, user, raws, now, world, chance) == (t, ServerError)
  {
    BatchCommitsIff(cfg, t, user, raws, now, world, chance);
  }

  /** The bytes of one character inside a JSON text: control characters, quotes and backslashes are
      escaped, everything else is UTF-8. */
  function EncodedChar(c: char): nat
  {
    var n := c as int;
    if n == 8 || n == 9 || n == 10 || n == 12 || n == 13 || n == 34 || n == 92 then 2
    else if n < 32 then 6
    else if n < 0x80 then 1
    else if n < 0x800 then 2
    else if n < 0x10000 then 3
    else 4
  }

  function Encoded(text: string): nat
  {
    if text == [] then 0 else EncodedChar(text[0]) + Encoded(text[1..])
  }

  /** Seven characters have a short escape, the other control characters a long one; the rest take what
      UTF-8 takes for them. */
  lemma EncodedInNumbers(c: char)
    ensures c in "\t\n\r\"\\" || c as int == 8 || c as int == 12 ==> EncodedChar(c) == |"\\n"|
    ensures c < ' ' && c !in "\t\n\r" && c as int != 8 && c as int != 12 ==> EncodedChar(c) == |"\\u0000"|
    ensures ' ' <= c && c as int <= 127 && c != '"' && c != '\\' ==> EncodedChar(c) == 1
    ensures 128 <= c as int <= 2047 ==> EncodedChar(c) == 2
    ensures 2048 <= c as int <= 65535 ==> EncodedChar(c) == 3
    ensures 65536 <= c as int ==> EncodedChar(c) == 4
  {
    assert c in "\t\n\r\"\\" <==> c == '\t' || c == '\n' || c == '\r' || c == '"' || c == '\\';
    assert c in "\t\n\r" <==> c == '\t' || c == '\n' || c == '\r';
  }

  lemma {:induction false} EncodedTogether(a: string, b: string)
    ensures Encoded(a + b) == Encoded(a) + Encoded(b)
    decreases |a|
  {
    if a == [] {
      assert a + b == b;
    } else {
      assert (a + b)[1..] == a[1..] + b;
      EncodedTogether(a[1..], b);
    }
  }

  /** A v1 view of the detail page with a text where its duration belongs: JSON has an escape for NUL, and
      jsonb has no character for it. */
  function TextualView(clientId: nat, post: nat, text: string, now: int): Raw
  {
    DetailView(clientId, post, V1, Text(OtherWord(text)), Encoded(text) + 2, '\0' !in text, now)
  }

  /** Validation takes texts of up to 8145 bytes, the column only those of up to 8119 without a NUL. */
  lemma TextualViewFits(clientId: nat, post: nat, text: string, now: int, q: int)
    ensures Validate(TextualView(clientId, post, text, now), now, q).Valid? <==> Encoded(text) <= 8145
    ensures TextualView(clientId, post, text, now).column.Accepted() <==> '\0' !in text && Encoded(text) <= 8119
    ensures var v := Validate(TextualView(clientId, post, text, now), now, q);
            v.Valid? ==> && v.event.clientId == clientId && v.event.post == post && v.event.impression == None
                         && v.event.column == TextualView(clientId, post, text, now).column
  {
  }

  /** Beside any other events, such a view whose text holds a NUL, or is within 26 bytes of the size that
      validation takes, makes the request fail, and nothing is stored. */
  lemma TextualViewAborts(
      cfg: Config, t: Tables, user: nat, batch: seq<Option<Raw>>, now: int, world: World, chance: Chance, i: nat,
      clientId: nat, post: nat, text: string)
    requires i < |batch| <= MAX_BATCH && batch[i] == Some(TextualView(clientId, post, text, now))
    requires Encoded(text) <= 8145 && ('\0' in text || Encoded(text) > 8119)
    requires post in world.posts && FirstValid(batch, i, now, cfg.qualifiedMs)
    ensures Ingested(cfg, t, user, batch, now, world, chance) == (t, ServerError)
  {
    TextualViewFits(clientId, post, text, now, cfg.qualifiedMs);
    OneAbortsAll(cfg, t, user, batch, now, world, chance, i);
  }

  /** Two valid events of one impression, the second for another post: the first alone is stored, the
      second alone is rejected. */
  ghost predicate Mismatched(q: int, rows: map<nat, Row>, good: Raw, bad: Raw, now: int, world: World)
  {
    && Validate(good, now, q).Valid? && Validate(bad, now, q).Valid?
    && good.clientId != bad.clientId && bad.clientId !in rows
    && good.post in world.posts && bad.post in world.posts
    && good.impression == bad.impression && good.impression.Some? && good.impression.value in world.impressions
    && world.impressions[good.impression.value] == (0, good.post) && bad.post != good.post
  }

  lemma BadReaches(
      q: int, rows: map<nat, Row>, good: Raw, bad: Raw, batch: seq<Option<Raw>>, now: int, world: World)
    requires batch == [Some(good), Some(bad)] && Mismatched(q, rows, good, bad, now, world)
    ensures Reaches(0, batch, now, q, world, 1)
  {
    assert VerdictOf(batch[0], now, q) == Validate(good, now, q);
    assert VerdictOf(batch[1], now, q) == Validate(bad, now, q);
    assert ReferredRightly(0, batch, now, q, world, good.impression.value, 0);
  }

  /** Together the request fails and nothing is stored. */
  lemma MismatchAbortsTheBatch(
      cfg: Config, t: Tables, good: Raw, bad: Raw, batch: seq<Option<Raw>>, now: int, world: World, chance: Chance)
    requires batch == [Some(good), Some(bad)] && Mismatched(cfg.qualifiedMs, t.rows, good, bad, now, world)
    ensures Ingested(cfg, t, 0, batch, now, world, chance) == (t, ServerError)
  {
    BadReaches(cfg.qualifiedMs, t.rows, good, bad, batch, now, world);
    OneAbortsAll(cfg, t, 0, batch, now, world, chance, 1);
  }

  function Clicked(client: nat, post: nat, impression: nat, now: int): Raw
  {
    Raw(client, post, Some(impression), None, Click, Some(V2), None, Some(map[Target := Text(PostDetail)]), 24,
        Column(true, StoredBytes(1, 24)), now)
  }

  /** Two clicks are such events. */
  lemma ClicksMismatch(
      q: int, rows: map<nat, Row>, now: int, world: World, impression: nat, post: nat, other: nat,
      client: nat, client': nat)
    requires post != other && client != client' && client' !in rows && post in world.posts && other in world.posts
    requires impression in world.impressions && world.impressions[impression] == (0, post)
    ensures Mismatched(q, rows, Clicked(client, post, impression, now), Clicked(client', other, impression, now), now,
        world)
  {
  }

  // ---------------------------------------------------------------- resending a batch

  /** The clock moves only the stored time of an event. */
  lemma SameVerdict(raw: Option<Raw>, now: int, now': int, q: int)
    ensures var v, v' := VerdictOf(raw, now, q), VerdictOf(raw, now', q);
            && (v.Valid? <==> v'.Valid?)
            && (v.Valid? ==> v'.event == v.event.(occurredAt := v'.event.occurredAt))
  {
  }

  lemma SameFirstValid(raws: seq<Option<Raw>>, i: nat, now: int, now': int, q: int)
    requires i < |raws|
    ensures FirstValid(raws, i, now, q) <==> FirstValid(raws, i, now', q)
  {
    forall j | 0 <= j < |raws|
      ensures VerdictOf(raws[j], now, q).Valid? <==> VerdictOf(raws[j], now', q).Valid?
      ensures VerdictOf(raws[j], now, q).Valid? ==>
                VerdictOf(raws[j], now, q).event.clientId == VerdictOf(raws[j], now', q).event.clientId
    {
      SameVerdict(raws[j], now, now', q);
    }
  }

  lemma SameReferred(
      user: nat, raws: seq<Option<Raw>>, now: int, now': int, q: int, world: World, impression: nat, j: int)
    requires ReferredRightly(user, raws, now, q, world, impression, j)
    ensures ReferredRightly(user, raws, now', q, world, impression, j)
  {
    SameFirstValid(raws, j, now, now', q);
    SameVerdict(raws[j], now, now', q);
  }

  lemma StillReaches(user: nat, raws: seq<Option<Raw>>, now: int, now': int, q: int, world: World, i: nat)
    requires i < |raws| && Reaches(user, raws, now, q, world, i)
    ensures Reaches(user, raws, now', q, world, i)
  {
    SameFirstValid(raws, i, now, now', q);
    SameVerdict(raws[i], now, now', q);
    var e := VerdictOf(raws[i], now, q).event;
    if e.impression.Some? {
      var j :| ReferredRightly(user, raws, now, q, world, e.impression.value, j);
      SameReferred(user, raws, now, now', q, world, e.impression.value, j);
    }
  }

  lemma {:induction false} StoredKeys(rows: map<nat, Row>, user: nat, items: seq<Item>)
    ensures Stored(rows, user, items).Keys == rows.Keys + ClientIds(items)
    decreases |items|
  {
    if items != [] {
      StoredKeys(rows, user, items[..|items| - 1]);
      ClientIdsSnoc(items[..|items| - 1], items[|items| - 1]);
      assert items == items[..|items| - 1] + [items[|items| - 1]];
    }
  }

  lemma SameClients(a: seq<Item>, b: seq<Item>)
    requires multiset(a) == multiset(b)
    ensures ClientIds(a) == ClientIds(b)
  {
    SameMembers(a, b);
  }

  lemma CommittedKeys(
      cfg: Config, t: Tables, user: nat, raws: seq<Option<Raw>>, now: int, world: World, chance: Chance)
    requires Ingested(cfg, t, user, raws, now, world, chance).1.Counted?
    ensures !BadSize(raws) && InsertHolds(world, user, StagesOf(t, user, raws, now, world, cfg.qualifiedMs, chance))
    ensures Ingested(cfg, t, user, raws, now, world, chance).0.rows.Keys
         == t.rows.Keys + ClientIds(StagesOf(t, user, raws, now, world, cfg.qualifiedMs, chance).unseen)
  {
    var unseen := StagesOf(t, user, raws, now, world, cfg.qualifiedMs, chance).unseen;
    StoredKeys(t.rows, user, Arranged(unseen, chance));
    SameClients(unseen, Arranged(unseen, chance));
  }

  lemma ReachingIsTaken(
      t: Tables, user: nat, raws: seq<Option<Raw>>, now: int, world: World, q: int, chance: Chance, i: nat)
    requires i < |raws| && Reaches(user, raws, now, q, world, i)
    ensures var client := VerdictOf(raws[i], now, q).event.clientId;
            client in t.rows || client in ClientIds(StagesOf(t, user, raws, now, world, q, chance).unseen)
  {
    NewIsMeant(t, user, raws, now, world, q, chance, SlotItem(raws, now, q, chance, i));
  }

  /** After a batch committed, whatever of it reaches an insert again is stored and was insertable. */
  lemma ReachingIsStored(
      cfg: Config, t: Tables, user: nat, raws: seq<Option<Raw>>, now: int, now': int, world: World, chance: Chance,
          i: nat)
    requires Ingested(cfg, t, user, raws, now, world, chance).1.Counted?
    requires i < |raws| && Reaches(user, raws, now', cfg.qualifiedMs, world, i)
    ensures var e := VerdictOf(raws[i], now', cfg.qualifiedMs).event;
            e.clientId in Ingested(cfg, t, user, raws, now, world, chance).0.rows && e.column.Accepted()
  {
    var q := cfg.qualifiedMs;
    CommittedKeys(cfg, t, user, raws, now, world, chance);
    StillReaches(user, raws, now', now, q, world, i);
    SameVerdict(raws[i], now, now', q);
    HoldsMeansInsertable(t, user, raws, now, world, q, chance, i);
    ReachingIsTaken(t, user, raws, now, world, q, chance, i);
  }

  lemma IngestedCommits(
      cfg: Config, t: Tables, user: nat, raws: seq<Option<Raw>>, now: int, world: World, chance: Chance)
    requires !BadSize(raws) && InsertHolds(world, user, StagesOf(t, user, raws, now, world, cfg.qualifiedMs, chance))
    ensures var s := StagesOf(t, user, raws, now, world, cfg.qualifiedMs, chance);
            var (after, response) := Ingested(cfg, t, user, raws, now, world, chance);
            && after == Committed(cfg, t, user, Arranged(s.unseen, chance))
            && response.Counted? && response.accepted == |ClientIds(s.unseen)|
  {
  }

  lemma NothingNew(
      cfg: Config, t: Tables, user: nat, raws: seq<Option<Raw>>, now: int, world: World, chance: Chance)
    requires !BadSize(raws)
    requires forall i | 0 <= i < |raws| && Reaches(user, raws, now, cfg.qualifiedMs, world, i) ::
               var e := VerdictOf(raws[i], now, cfg.qualifiedMs).event; e.clientId in t.rows && e.column.Accepted()
    ensures var (again, response) := Ingested(cfg, t, user, raws, now, world, chance);
            again == t && response.Counted? && response.accepted == 0
  {
    assert Insertables(t, user, raws, now, world, cfg.qualifiedMs);
    InsertableMeansHolds(t, user, raws, now, world, cfg.qualifiedMs, chance);
    NoneUnseen(t, user, raws, now, world, cfg.qualifiedMs, chance);
    IngestedCommits(cfg, t, user, raws, now, world, chance);
    NothingCommitted(cfg, t, user, chance);
  }

  lemma NoneUnseen(t: Tables, user: nat, raws: seq<Option<Raw>>, now: int, world: World, q: int, chance: Chance)
    requires forall i | 0 <= i < |raws| && Reaches(user, raws, now, q, world, i) ::
               VerdictOf(raws[i], now, q).event.clientId in t.rows
    ensures StagesOf(t, user, raws, now, world, q, chance).unseen == []
  {
    var unseen := StagesOf(t, user, raws, now, world, q, chance).unseen;
    if unseen != [] {
      assert unseen[0] in unseen;
      NewIsMeant(t, user, raws, now, world, q, chance, unseen[0]);
      assert false;
    }
  }

  lemma NothingCommitted(cfg: Config, t: Tables, user: nat, chance: Chance)
    ensures Arranged([], chance) == [] && Committed(cfg, t, user, []) == t && ClientIds([]) == {}
  {
  }

  /** A batch that committed and is sent again, at any later time, stores nothing, announces nothing and
      counts no view. */
  lemma ResendChangesNothing(
      cfg: Config, t: Tables, user: nat, raws: seq<Option<Raw>>, now: int, now': int, world: World,
      chance: Chance, chance': Chance)
    requires Ingested(cfg, t, user, raws, now, world, chance).1.Counted?
    ensures var t' := Ingested(cfg, t, user, raws, now, world, chance).0;
            var (again, response) := Ingested(cfg, t', user, raws, now', world, chance');
            again == t' && response.Counted? && response.accepted == 0
  {
    var t' := Ingested(cfg, t, user, raws, now, world, chance).0;
    forall i | 0 <= i < |raws| && Reaches(user, raws, now', cfg.qualifiedMs, world, i)
      ensures var e := VerdictOf(raws[i], now', cfg.qualifiedMs).event; e.clientId in t'.rows && e.column.Accepted()
    {
      ReachingIsStored(cfg, t, user, raws, now, now', world, chance, i);
    }
    NothingNew(cfg, t', user, raws, now', world, chance');
  }
}
