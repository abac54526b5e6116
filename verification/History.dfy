/** Click history as of a moment: built offline from the whole event log, and online from a bounded
    newest-first lookup. */
module History {
  import opened Collections
  import opened Options
  import opened Sorting

  datatype Version = NoVersion | V1 | V2 | Unsupported

  datatype Event = Event(
    id: nat, user: nat, post: nat, isClick: bool, version: Version, occurredAt: int, ingestedAt: Option<int>)

  datatype Feature = Feature(id: nat, post: nat, sourceUpdatedAt: int, computedAt: int, content: nat)

  datatype Entry = Entry(eventId: nat, post: nat, engagedAt: int, feature: Feature)

  // ---------------------------------------------------------------- selecting clicks

  predicate EventLeq(a: Event, b: Event)
  {
    a.occurredAt < b.occurredAt || (a.occurredAt == b.occurredAt && a.id <= b.id)
  }

  predicate EventGeq(a: Event, b: Event)
  {
    EventLeq(b, a)
  }

  /** `event_label_version` raises on a version it does not know. */
  predicate Unreadable(e: Event, user: nat)
  {
    e.user == user && e.isClick && e.version == Unsupported
  }

  predicate Qualifies(e: Event, user: nat, ref: int)
  {
    e.user == user && e.isClick && e.version == V2 && e.occurredAt < ref
    && (e.ingestedAt.None? || e.ingestedAt.value <= ref)
  }

  function Qualifying(events: seq<Event>, user: nat, ref: int): (r: seq<Event>)
  {
    if events == [] then []
    else (if Qualifies(events[0], user, ref) then [events[0]] else []) + Qualifying(events[1..], user, ref)
  }

  function Selected(events: seq<Event>, user: nat, ref: int, limit: nat): seq<Event>
  {
    if limit == 0 then [] else LastN(Sort(Qualifying(events, user, ref), EventLeq), limit)
  }

  // ---------------------------------------------------------------- choosing the feature

  predicate Eligible(f: Feature, post: nat, at: int)
  {
    f.post == post && f.sourceUpdatedAt <= at && f.computedAt <= at
  }

  predicate FeatureLeq(f: Feature, g: Feature)
  {
    if f.sourceUpdatedAt != g.sourceUpdatedAt then f.sourceUpdatedAt < g.sourceUpdatedAt
    else if f.computedAt != g.computedAt then f.computedAt < g.computedAt
    else f.id <= g.id
  }

  function SelectFeature(features: seq<Feature>, post: nat, at: int): Option<Feature>
  {
    if features == [] then None
    else
      var rest := SelectFeature(features[1..], post, at);
      if !Eligible(features[0], post, at) then rest
      else if rest.None? || FeatureLeq(rest.value, features[0]) then Some(features[0])
      else rest
  }

  /** The post's, and its source and its computation no later than the click. */
  predicate ExistedAt(f: Feature, post: nat, at: int)
  {
    f.post == post && f.sourceUpdatedAt <= at && at >= f.computedAt
  }

  /** The latest version of the article that already existed at the click: none has a later source, of those
      with its source none was computed later, and of those none has a larger id. */
  ghost predicate IsLatest(features: seq<Feature>, post: nat, at: int, f: Feature)
  {
    && f in features && ExistedAt(f, post, at)
    && forall g | g in features && ExistedAt(g, post, at) ::
         && g.sourceUpdatedAt <= f.sourceUpdatedAt
         && (g.sourceUpdatedAt == f.sourceUpdatedAt ==> g.computedAt <= f.computedAt)
         && (g.sourceUpdatedAt == f.sourceUpdatedAt && g.computedAt == f.computedAt ==> g.id <= f.id)
  }

  lemma {:induction false} SelectFeatureIsLatest(features: seq<Feature>, post: nat, at: int)
    ensures SelectFeature(features, post, at).None? <==> forall g | g in features :: !ExistedAt(g, post, at)
    ensures var s := SelectFeature(features, post, at); s.Some? ==> IsLatest(features, post, at, s.value)
  {
    if features != [] {
      SelectFeatureIsLatest(features[1..], post, at);
      assert features == [features[0]] + features[1..];
      assert forall g | g in features[1..] :: g in features;
      assert Eligible(features[0], post, at) <==> ExistedAt(features[0], post, at);
    }
  }

  ghost predicate IdsIdentify(features: seq<Feature>)
  {
    forall f, g | f in features && g in features && f.id == g.id :: f == g
  }

  /** Features that cannot have been seen by the click do not change the choice. */
  lemma SameChoice(a: seq<Feature>, b: seq<Feature>, post: nat, at: int)
    requires IdsIdentify(a)
    requires forall f | Eligible(f, post, at) :: f in a <==> f in b
    ensures SelectFeature(a, post, at) == SelectFeature(b, post, at)
  {
    SelectFeatureIsLatest(a, post, at);
    SelectFeatureIsLatest(b, post, at);
    var x, y := SelectFeature(a, post, at), SelectFeature(b, post, at);
    if x.Some? {
      assert x.value in b;
    }
    if y.Some? {
      assert y.value in a;
    }
  }

  // ---------------------------------------------------------------- the snapshot

  function EntriesOf(selected: seq<Event>, features: seq<Feature>): seq<Entry>
  {
    if selected == [] then []
    else
      var last := selected[|selected| - 1];
      var f := SelectFeature(features, last.post, last.occurredAt);
      EntriesOf(selected[..|selected| - 1], features)
      + if f.Some? then [Entry(last.id, last.post, last.occurredAt, f.value)] else []
  }

  /** None is a raised error: negative limits, a click of an unknown version, conflicting features. */
  ghost function Snapshot(
      user: nat, ref: int, events: seq<Event>, features: seq<Feature>, recent: int, longTerm: int): Option<seq<Entry>>
  {
    if recent < 0 || longTerm < 0 then None
    else if recent + longTerm > 0 && exists e :: e in events && Unreadable(e, user) then None
    else if !IdsIdentify(features) then None
    else Some(EntriesOf(Selected(events, user, ref, recent + longTerm), features))
  }

  method FindUnreadable(events: seq<Event>, user: nat) returns (found: bool)
    ensures found <==> exists e :: e in events && Unreadable(e, user)
  {
    for i := 0 to |events|
      invariant forall j | 0 <= j < i :: !Unreadable(events[j], user)
    {
      if Unreadable(events[i], user) {
        assert events[i] in events;
        return true;
      }
    }
    return false;
  }

  /** `_deduplicate`: ok unless two records share an id and differ. */
  method Deduplicate(features: seq<Feature>) returns (ok: bool)
    ensures ok <==> IdsIdentify(features)
  {
    var unique: map<nat, Feature> := map[];
    for i := 0 to |features|
      invariant forall j | 0 <= j < i :: features[j].id in unique && unique[features[j].id] == features[j]
      invariant forall id | id in unique :: unique[id].id == id && unique[id] in features
    {
      var f := features[i];
      if f.id in unique && unique[f.id] != f {
        assert f in features && unique[f.id] in features;
        return false;
      }
      unique := unique[f.id := f];
    }
    return true;
  }

  method CollectEntries(selected: seq<Event>, features: seq<Feature>) returns (entries: seq<Entry>)
    ensures entries == EntriesOf(selected, features)
  {
    entries := [];
    for i := 0 to |selected|
      invariant entries == EntriesOf(selected[..i], features)
    {
      assert selected[..i + 1][..i] == selected[..i];
      var event := selected[i];
      var feature := SelectFeature(features, event.post, event.occurredAt);
      if feature.Some? {
        entries := entries + [Entry(event.id, event.post, event.occurredAt, feature.value)];
      }
    }
    assert selected[..|selected|] == selected;
  }

  method BuildHistorySnapshot(
      user: nat, ref: int, events: seq<Event>, features: seq<Feature>, recent: int, longTerm: int)
    returns (entries: Option<seq<Entry>>)
    ensures entries == Snapshot(user, ref, events, features, recent, longTerm)
  {
    if recent < 0 || longTerm < 0 {
      return None;
    }
    var limit := recent + longTerm;
    var unreadable := FindUnreadable(events, user);
    if limit > 0 && unreadable {
      return None;
    }
    var consistent := Deduplicate(features);
    if !consistent {
      return None;
    }
    var result := CollectEntries(Selected(events, user, ref, limit), features);
    return Some(result);
  }

  // ---------------------------------------------------------------- the online lookup

  /** The SQL filter on `behavior_events`; `ingested_at` is a non-null column there. */
  predicate RowQualifies(e: Event, user: nat, ref: int)
  {
    e.user == user && e.isClick && e.occurredAt < ref && e.ingestedAt.Some? && e.ingestedAt.value <= ref
    && e.version == V2
  }

  function QualifyingRows(events: seq<Event>, user: nat, ref: int): seq<Event>
  {
    if events == [] then []
    else (if RowQualifies(events[0], user, ref) then [events[0]] else []) + QualifyingRows(events[1..], user, ref)
  }

  function KnownFeatures(features: seq<Feature>, posts: set<nat>, ref: int): seq<Feature>
  {
    if features == [] then []
    else
      var f := features[0];
      (if f.post in posts && f.sourceUpdatedAt <= ref && f.computedAt <= ref then [f] else [])
      + KnownFeatures(features[1..], posts, ref)
  }

  function PostsOf(events: seq<Event>): set<nat>
  {
    set e | e in events :: e.post
  }

  /** The newest `lookup` qualifying rows: `ORDER BY occurred_at DESC, id DESC LIMIT lookup`. */
  function Lookup(table: seq<Event>, user: nat, ref: int, lookup: nat): seq<Event>
  {
    FirstN(Sort(QualifyingRows(table, user, ref), EventGeq), lookup)
  }

  function LookupLimit(recent: int, longTerm: int, slack: int): nat
  {
    var total := if recent + longTerm < 1 then 1 else recent + longTerm;
    total + if slack < 0 then 0 else slack
  }

  /** `fetch_user_history` with an explicit `at`. */
  method FetchUserHistory(
      user: nat, at: int, table: seq<Event>, features: seq<Feature>, recent: int, longTerm: int, slack: int)
    returns (entries: Option<seq<Entry>>)
    ensures var rows := Lookup(table, user, at, LookupLimit(recent, longTerm, slack));
            entries == Snapshot(user, at, rows, KnownFeatures(features, PostsOf(rows), at), recent, longTerm)
  {
    var rows := Lookup(table, user, at, LookupLimit(recent, longTerm, slack));
    var known := KnownFeatures(features, PostsOf(rows), at);
    entries := BuildHistorySnapshot(user, at, rows, known, recent, longTerm);
  }

  // ---------------------------------------------------------------- the lookup loses nothing

  /** A table of stored rows: primary keys are unique and `ingested_at` is present. */
  ghost predicate Stored(table: seq<Event>)
  {
    && (forall i, j | 0 <= i < j < |table| :: table[i].id != table[j].id)
    && (forall e | e in table :: e.ingestedAt.Some?)
  }

  lemma EventOrder()
    ensures TotalPreorder(EventLeq) && TotalPreorder(EventGeq)
  {}

  lemma {:induction false} RowsQualifyAlike(table: seq<Event>, user: nat, ref: int)
    requires forall e | e in table :: e.ingestedAt.Some?
    ensures QualifyingRows(table, user, ref) == Qualifying(table, user, ref)
  {
    if table != [] {
      assert table == [table[0]] + table[1..];
      RowsQualifyAlike(table[1..], user, ref);
    }
  }

  lemma {:induction false} QualifyingMembers(events: seq<Event>, user: nat, ref: int)
    ensures forall e :: e in Qualifying(events, user, ref) <==> e in events && Qualifies(e, user, ref)
    ensures multiset(Qualifying(events, user, ref)) <= multiset(events)
  {
    if events != [] {
      QualifyingMembers(events[1..], user, ref);
      assert events == [events[0]] + events[1..];
    }
  }

  lemma {:induction false} QualifyingPermutation(a: seq<Event>, b: seq<Event>, user: nat, ref: int)
    requires multiset(a) == multiset(b)
    ensures multiset(Qualifying(a, user, ref)) == multiset(Qualifying(b, user, ref))
  {
    forall e ensures multiset(Qualifying(a, user, ref))[e] == multiset(Qualifying(b, user, ref))[e] {
      QualifyingCount(a, user, ref, e);
      QualifyingCount(b, user, ref, e);
    }
  }

  lemma {:induction false} QualifyingCount(a: seq<Event>, user: nat, ref: int, e: Event)
    ensures multiset(Qualifying(a, user, ref))[e] == if Qualifies(e, user, ref) then multiset(a)[e] else 0
  {
    if a != [] {
      QualifyingCount(a[1..], user, ref, e);
      assert a == [a[0]] + a[1..];
    }
  }

  lemma DistinctKeys(s: seq<Event>, table: seq<Event>)
    requires Stored(table) && forall e | e in s :: e in table
    ensures KeysIdentify(s, EventLeq) && KeysIdentify(s, EventGeq)
  {
    forall x, y | x in s && y in s && x.id == y.id ensures x == y {
      var i :| 0 <= i < |table| && table[i] == x;
      var j :| 0 <= j < |table| && table[j] == y;
    }
  }

  /** Newest first is oldest first, reversed. */
  lemma DescendingIsReversed(s: seq<Event>)
    requires KeysIdentify(s, EventLeq) && KeysIdentify(s, EventGeq)
    ensures Sort(s, EventGeq) == Reverse(Sort(s, EventLeq))
  {
    EventOrder();
    var up := Sort(s, EventLeq);
    SortSorted(s, EventLeq);
    SortSorted(s, EventGeq);
    SortMembers(s, EventGeq);
    ReverseMultiset(up);
    assert Sorted(Reverse(up), EventGeq);
    SortedUnique(Sort(s, EventGeq), Reverse(up), EventGeq);
  }

  lemma FirstOfReversed(up: seq<Event>, k: nat)
    ensures FirstN(Reverse(up), k) == Reverse(LastN(up, k))
  {
    if k < |up| {
      var tail := up[|up| - k..];
      forall i | 0 <= i < k ensures Reverse(tail)[i] == Reverse(up)[i] {
        assert tail[k - 1 - i] == up[|up| - 1 - i];
      }
      assert Reverse(tail) == Reverse(up)[..k];
    }
  }

  lemma ResortReversed(s: seq<Event>)
    requires Sorted(s, EventLeq) && KeysIdentify(s, EventLeq)
    ensures Sort(Reverse(s), EventLeq) == s
  {
    EventOrder();
    ReverseMultiset(s);
    SortSorted(Reverse(s), EventLeq);
    SortedUnique(s, Sort(Reverse(s), EventLeq), EventLeq);
  }

  lemma LastOfSorted(up: seq<Event>, k: nat)
    requires Sorted(up, EventLeq)
    ensures Sorted(LastN(up, k), EventLeq) && forall x | x in LastN(up, k) :: x in up
  {}

  /** The newest `k` rows, re-sorted, are the last `k` of the whole sorted log. */
  lemma NewestResorted(s: seq<Event>, k: nat)
    requires KeysIdentify(s, EventLeq) && KeysIdentify(s, EventGeq)
    ensures Sort(FirstN(Sort(s, EventGeq), k), EventLeq) == LastN(Sort(s, EventLeq), k)
  {
    EventOrder();
    var up := Sort(s, EventLeq);
    DescendingIsReversed(s);
    SortSorted(s, EventLeq);
    SortMembers(s, EventLeq);
    FirstOfReversed(up, k);
    LastOfSorted(up, k);
    ResortReversed(LastN(up, k));
  }

  lemma {:induction false} AllQualify(s: seq<Event>, user: nat, ref: int)
    requires forall e | e in s :: Qualifies(e, user, ref)
    ensures Qualifying(s, user, ref) == s
  {
    if s != [] {
      assert s == [s[0]] + s[1..];
      AllQualify(s[1..], user, ref);
    }
  }

  lemma LookupMembers(table: seq<Event>, user: nat, ref: int, lookup: nat)
    requires forall e | e in table :: e.ingestedAt.Some?
    ensures forall e | e in Lookup(table, user, ref, lookup) :: e in table && Qualifies(e, user, ref)
  {
    RowsQualifyAlike(table, user, ref);
    QualifyingMembers(table, user, ref);
    SortMembers(Qualifying(table, user, ref), EventGeq);
    forall e | e in Lookup(table, user, ref, lookup) ensures e in Sort(Qualifying(table, user, ref), EventGeq) {}
  }

  lemma SelectedOnline(log: seq<Event>, table: seq<Event>, user: nat, ref: int, limit: nat, lookup: nat)
    requires Stored(table) && multiset(log) == multiset(table) && limit <= lookup
    ensures Selected(Lookup(table, user, ref, lookup), user, ref, limit) == Selected(log, user, ref, limit)
  {
    var all := Qualifying(table, user, ref);
    var rows := Lookup(table, user, ref, lookup);
    RowsQualifyAlike(table, user, ref);
    QualifyingMembers(table, user, ref);
    DistinctKeys(all, table);
    LookupMembers(table, user, ref, lookup);
    AllQualify(rows, user, ref);
    NewestResorted(all, lookup);
    EventOrder();
    QualifyingPermutation(log, table, user, ref);
    SortPermutation(all, Qualifying(log, user, ref), EventLeq);
    LastOfLast(Sort(all, EventLeq), limit, lookup);
  }

  lemma LastOfLast(s: seq<Event>, limit: nat, lookup: nat)
    requires limit <= lookup
    ensures LastN(LastN(s, lookup), limit) == LastN(s, limit)
  {}

  // ---------------------------------------------------------------- the theorems

  lemma {:induction false} KnownMembers(features: seq<Feature>, posts: set<nat>, ref: int)
    ensures forall f :: f in KnownFeatures(features, posts, ref) <==>
              f in features && f.post in posts && f.sourceUpdatedAt <= ref && f.computedAt <= ref
  {
    if features != [] {
      KnownMembers(features[1..], posts, ref);
      assert features == [features[0]] + features[1..];
    }
  }

  lemma {:induction false} EntriesAgree(selected: seq<Event>, a: seq<Feature>, b: seq<Feature>)
    requires IdsIdentify(a)
    requires forall e, f | e in selected && Eligible(f, e.post, e.occurredAt) :: f in a <==> f in b
    ensures EntriesOf(selected, a) == EntriesOf(selected, b)
  {
    if selected != [] {
      var init, last := selected[..|selected| - 1], selected[|selected| - 1];
      assert selected == init + [last];
      assert last in selected;
      EntriesAgree(init, a, b);
      SameChoice(a, b, last.post, last.occurredAt);
    }
  }

  ghost function OnlineSnapshot(
      user: nat, ref: int, table: seq<Event>, features: seq<Feature>, recent: int, longTerm: int, slack: int)
    : Option<seq<Entry>>
  {
    var rows := Lookup(table, user, ref, LookupLimit(recent, longTerm, slack));
    Snapshot(user, ref, rows, KnownFeatures(features, PostsOf(rows), ref), recent, longTerm)
  }

  lemma EntriesOnline(
      user: nat, ref: int, log: seq<Event>, table: seq<Event>, features: seq<Feature>, limit: nat, lookup: nat)
    requires Stored(table) && multiset(log) == multiset(table) && IdsIdentify(features) && limit <= lookup
    ensures (var rows := Lookup(table, user, ref, lookup);
             EntriesOf(Selected(rows, user, ref, limit), KnownFeatures(features, PostsOf(rows), ref)))
         == EntriesOf(Selected(log, user, ref, limit), features)
  {
    var rows := Lookup(table, user, ref, lookup);
    var known := KnownFeatures(features, PostsOf(rows), ref);
    var selected := Selected(rows, user, ref, limit);
    SelectedOnline(log, table, user, ref, limit, lookup);
    KnownMembers(features, PostsOf(rows), ref);
    SelectedMembers(rows, user, ref, limit);
    forall e, f | e in selected && Eligible(f, e.post, e.occurredAt) ensures f in features <==> f in known {
      assert e in rows && e.post in PostsOf(rows);
    }
    EntriesAgree(selected, features, known);
  }

  /** What the online build is handed: readable clicks and consistent features. */
  lemma OnlineInputs(user: nat, ref: int, table: seq<Event>, features: seq<Feature>, lookup: nat)
    requires Stored(table) && IdsIdentify(features)
    ensures var rows := Lookup(table, user, ref, lookup);
            && (forall e | e in rows :: !Unreadable(e, user))
            && IdsIdentify(KnownFeatures(features, PostsOf(rows), ref))
  {
    var rows := Lookup(table, user, ref, lookup);
    LookupMembers(table, user, ref, lookup);
    KnownMembers(features, PostsOf(rows), ref);
  }

  lemma SnapshotsAgreeIff(
      user: nat, ref: int, log: seq<Event>, rows: seq<Event>, features: seq<Feature>, known: seq<Feature>,
      recent: nat, longTerm: nat)
    requires IdsIdentify(features) && IdsIdentify(known) && forall e | e in rows :: !Unreadable(e, user)
    requires EntriesOf(Selected(rows, user, ref, recent + longTerm), known)
          == EntriesOf(Selected(log, user, ref, recent + longTerm), features)
    ensures Snapshot(user, ref, rows, known, recent, longTerm) == Snapshot(user, ref, log, features, recent, longTerm)
            <==> (recent + longTerm == 0 || forall e | e in log :: !Unreadable(e, user))
  {}

  lemma AgreeOn(
      user: nat, ref: int, log: seq<Event>, table: seq<Event>, features: seq<Feature>,
      recent: nat, longTerm: nat, lookup: nat, rows: seq<Event>, known: seq<Feature>)
    requires Stored(table) && multiset(log) == multiset(table) && IdsIdentify(features) && recent + longTerm <= lookup
    requires rows == Lookup(table, user, ref, lookup) && known == KnownFeatures(features, PostsOf(rows), ref)
    ensures Snapshot(user, ref, rows, known, recent, longTerm) == Snapshot(user, ref, log, features, recent, longTerm)
            <==> (recent + longTerm == 0 || forall e | e in log :: !Unreadable(e, user))
  {
    assert (forall e | e in rows :: !Unreadable(e, user)) && IdsIdentify(known) by {
      OnlineInputs(user, ref, table, features, lookup);
    }
    assert EntriesOf(Selected(rows, user, ref, recent + longTerm), known)
        == EntriesOf(Selected(log, user, ref, recent + longTerm), features) by {
      EntriesOnline(user, ref, log, table, features, recent + longTerm, lookup);
    }
    SnapshotsAgreeIff(user, ref, log, rows, features, known, recent, longTerm);
  }

  /** Over the same stored rows, in any order, the bounded online lookup gives the offline snapshot
      exactly when the offline build does not stumble over a click of an unknown version, which the
      SQL filter never sees. */
  lemma OnlineEqualsOfflineIff(
      user: nat, ref: int, log: seq<Event>, table: seq<Event>, features: seq<Feature>,
      recent: int, longTerm: int, slack: int)
    requires Stored(table) && multiset(log) == multiset(table) && IdsIdentify(features)
    requires recent >= 0 && longTerm >= 0
    ensures (OnlineSnapshot(user, ref, table, features, recent, longTerm, slack)
             == Snapshot(user, ref, log, features, recent, longTerm))
            <==> (recent + longTerm == 0 || forall e | e in log :: !Unreadable(e, user))
  {
    var lookup := LookupLimit(recent, longTerm, slack);
    var rows := Lookup(table, user, ref, lookup);
    AgreeOn(user, ref, log, table, features, recent, longTerm, lookup, rows,
        KnownFeatures(features, PostsOf(rows), ref));
  }

  /** The API writes the versions v1 and v2 only; on a table of such rows nothing is unreadable. */
  lemma ApiRowsAgree(
      user: nat, ref: int, log: seq<Event>, table: seq<Event>, features: seq<Feature>,
      recent: int, longTerm: int, slack: int)
    requires Stored(table) && multiset(log) == multiset(table) && IdsIdentify(features)
    requires recent >= 0 && longTerm >= 0 && forall e | e in table :: e.version == V1 || e.version == V2
    ensures OnlineSnapshot(user, ref, table, features, recent, longTerm, slack)
         == Snapshot(user, ref, log, features, recent, longTerm)
  {
    forall e | e in log ensures !Unreadable(e, user) {
      assert e in multiset(log);
    }
    OnlineEqualsOfflineIff(user, ref, log, table, features, recent, longTerm, slack);
  }

  /** One click of another version, written past the API: online there is no history, offline an error. */
  lemma UnknownVersionDivides(user: nat, ref: int, recent: int, longTerm: int, slack: int)
    requires recent >= 0 && longTerm >= 0 && recent + longTerm > 0
    ensures var table := [Event(0, user, 0, true, Unsupported, ref - 1, Some(ref))];
            && OnlineSnapshot(user, ref, table, [], recent, longTerm, slack) == Some([])
            && Snapshot(user, ref, table, [], recent, longTerm) == None
  {
    var e := Event(0, user, 0, true, Unsupported, ref - 1, Some(ref));
    var table := [e];
    assert e in table && Unreadable(e, user);
    assert QualifyingRows([], user, ref) == [] && QualifyingRows(table, user, ref) == [];
    assert Sort<Event>([], EventGeq) == [] && Sort<Event>([], EventLeq) == [];
    assert Lookup(table, user, ref, LookupLimit(recent, longTerm, slack)) == [];
    assert Qualifying([], user, ref) == [];
    assert Selected([], user, ref, recent + longTerm) == [];
  }

  lemma SelectedMembers(events: seq<Event>, user: nat, ref: int, limit: nat)
    ensures forall e | e in Selected(events, user, ref, limit) :: e in events && Qualifies(e, user, ref)
  {
    var q := Qualifying(events, user, ref);
    QualifyingMembers(events, user, ref);
    SortMembers(q, EventLeq);
    forall e | e in Selected(events, user, ref, limit) ensures e in q {
      assert e in Sort(q, EventLeq);
    }
  }

  /** No leakage: every entry is a click strictly before the reference time, with the latest feature
      that already existed at the click. */
  lemma {:induction false} EntriesDoNotLeak(selected: seq<Event>, features: seq<Feature>, user: nat, ref: int)
    requires forall e | e in selected :: Qualifies(e, user, ref)
    ensures forall entry | entry in EntriesOf(selected, features) ::
              entry.engagedAt < ref && IsLatest(features, entry.post, entry.engagedAt, entry.feature)
  {
    if selected != [] {
      var init, last := selected[..|selected| - 1], selected[|selected| - 1];
      assert selected == init + [last];
      assert last in selected;
      EntriesDoNotLeak(init, features, user, ref);
      SelectFeatureIsLatest(features, last.post, last.occurredAt);
    }
  }

  lemma HeadBeforeTail(up: seq<Event>, k: nat, e: Event, chosen: Event)
    requires Sorted(up, EventLeq) && k <= |up| && e in up[..k] && chosen in up[k..]
    ensures EventLeq(e, chosen)
  {
    var i :| 0 <= i < k && up[i] == e;
    var j :| 0 <= j < |up| - k && up[k..][j] == chosen;
    assert up[k + j] == chosen;
  }

  lemma CountedInHead(up: seq<Event>, k: nat, e: Event)
    requires k <= |up| && multiset(up[k..])[e] < multiset(up)[e]
    ensures e in up[..k]
  {
    assert up == up[..k] + up[k..];
    assert multiset(up)[e] == multiset(up[..k])[e] + multiset(up[k..])[e];
    assert e in multiset(up[..k]);
  }

  lemma LeftOutIsEarlier(up: seq<Event>, n: nat, e: Event, c: Event)
    requires Sorted(up, EventLeq) && multiset(LastN(up, n))[e] < multiset(up)[e] && c in LastN(up, n)
    ensures EventLeq(e, c)
  {
    var k := |up| - |LastN(up, n)|;
    assert LastN(up, n) == up[k..];
    CountedInHead(up, k, e);
    HeadBeforeTail(up, k, e, c);
  }

  /** Nothing newer is left out: a qualifying click outside a full selection is no later than any
      click in it. */
  lemma SelectionIsNewest(events: seq<Event>, user: nat, ref: int, limit: nat, e: Event, chosen: Event)
    requires limit > 0 && chosen in Selected(events, user, ref, limit)
    requires e in events && Qualifies(e, user, ref) && e !in Selected(events, user, ref, limit)
    ensures e.occurredAt < chosen.occurredAt || (e.occurredAt == chosen.occurredAt && e.id <= chosen.id)
  {
    EventOrder();
    var q := Qualifying(events, user, ref);
    QualifyingMembers(events, user, ref);
    SortMembers(q, EventLeq);
    SortSorted(q, EventLeq);
    assert e in multiset(Sort(q, EventLeq)) && e !in multiset(LastN(Sort(q, EventLeq), limit));
    LeftOutIsEarlier(Sort(q, EventLeq), limit, e, chosen);
  }

  // ---------------------------------------------------------------- the whole snapshot

  /** A click of the user, of version v2, before the reference time and not ingested after it. */
  predicate IsPastClick(e: Event, user: nat, ref: int)
  {
    e.user == user && e.isClick && e.version == V2 && e.occurredAt < ref
    && (e.ingestedAt.Some? ==> !(e.ingestedAt.value > ref))
  }

  /** `chosen` are the newest `limit` past clicks, all of them if there are no more, oldest first. */
  ghost predicate NewestClicks(events: seq<Event>, user: nat, ref: int, limit: nat, chosen: seq<Event>)
  {
    && |chosen| <= limit
    && (forall e :: multiset(chosen)[e] <= if IsPastClick(e, user, ref) then multiset(events)[e] else 0)
    && (|chosen| < limit ==> forall e | IsPastClick(e, user, ref) :: multiset(chosen)[e] == multiset(events)[e])
    && (forall i, j | 0 <= i < j < |chosen| :: NoLater(chosen[i], chosen[j]))
    && (forall e, c | IsPastClick(e, user, ref) && multiset(chosen)[e] < multiset(events)[e] && c in chosen ::
          NoLater(e, c))
  }

  predicate NoLater(a: Event, b: Event)
  {
    a.occurredAt <= b.occurredAt && (a.occurredAt == b.occurredAt ==> a.id <= b.id)
  }

  /** One entry, in their order, for each chosen click whose article existed, with the version it had. */
  ghost predicate EntriesFor(chosen: seq<Event>, features: seq<Feature>, entries: seq<Entry>, places: seq<nat>)
  {
    && |places| == |entries|
    && (forall i | 0 <= i < |places| :: places[i] < |chosen|)
    && (forall i, j | 0 <= i < j < |places| :: places[i] < places[j])
    && (forall k | 0 <= k < |chosen| ::
          k in places <==> exists f :: f in features && ExistedAt(f, chosen[k].post, chosen[k].occurredAt))
    && (forall i | 0 <= i < |entries| ::
          var c := chosen[places[i]];
          entries[i].eventId == c.id && entries[i].post == c.post && entries[i].engagedAt == c.occurredAt
          && IsLatest(features, c.post, c.occurredAt, entries[i].feature))
  }

  lemma PastClickQualifies(e: Event, user: nat, ref: int)
    ensures IsPastClick(e, user, ref) <==> Qualifies(e, user, ref)
  {
  }

  lemma LastIsPart(up: seq<Event>, n: nat)
    ensures |LastN(up, n)| == if n < |up| then n else |up|
    ensures n >= |up| ==> LastN(up, n) == up
    ensures multiset(LastN(up, n)) <= multiset(up)
  {
    assert up == up[..|up| - |LastN(up, n)|] + LastN(up, n);
  }

  lemma SelectedIsNewest(events: seq<Event>, user: nat, ref: int, limit: nat)
    requires limit > 0
    ensures NewestClicks(events, user, ref, limit, Selected(events, user, ref, limit))
  {
    EventOrder();
    var q := Qualifying(events, user, ref);
    var up := Sort(q, EventLeq);
    var chosen := Selected(events, user, ref, limit);
    SortSorted(q, EventLeq);
    LastIsPart(up, limit);
    LastOfSorted(up, limit);
    forall e ensures multiset(up)[e] == if IsPastClick(e, user, ref) then multiset(events)[e] else 0 {
      PastClickQualifies(e, user, ref);
      QualifyingCount(events, user, ref, e);
    }
    forall i, j | 0 <= i < j < |chosen| ensures NoLater(chosen[i], chosen[j]) {
      assert EventLeq(chosen[i], chosen[j]);
    }
    forall e, c | IsPastClick(e, user, ref) && multiset(chosen)[e] < multiset(events)[e] && c in chosen
      ensures NoLater(e, c)
    {
      LeftOutIsEarlier(up, limit, e, c);
    }
  }

  lemma {:induction false} EntriesAreFor(chosen: seq<Event>, features: seq<Feature>) returns (places: seq<nat>)
    ensures EntriesFor(chosen, features, EntriesOf(chosen, features), places)
    decreases |chosen|
  {
    places := [];
    if chosen != [] {
      var init, last := chosen[..|chosen| - 1], chosen[|chosen| - 1];
      assert chosen == init + [last];
      places := EntriesAreFor(init, features);
      SelectFeatureIsLatest(features, last.post, last.occurredAt);
      var f := SelectFeature(features, last.post, last.occurredAt);
      if f.Some? {
        EntryAdded(init, features, EntriesOf(init, features), places, last, f.value);
        places := places + [|init|];
      } else {
        EntrySkipped(init, features, EntriesOf(init, features), places, last);
      }
    }
  }

  lemma EntryAdded(
      init: seq<Event>, features: seq<Feature>, entries: seq<Entry>, places: seq<nat>, last: Event, f: Feature)
    requires EntriesFor(init, features, entries, places) && IsLatest(features, last.post, last.occurredAt, f)
    ensures EntriesFor(init + [last], features, entries + [Entry(last.id, last.post, last.occurredAt, f)],
                       places + [|init|])
  {
    var next, all := places + [|init|], init + [last];
    forall k | 0 <= k < |all|
      ensures k in next <==> exists g :: g in features && ExistedAt(g, all[k].post, all[k].occurredAt)
    {
      assert k < |init| ==> (k in next <==> k in places);
    }
  }

  lemma EntrySkipped(init: seq<Event>, features: seq<Feature>, entries: seq<Entry>, places: seq<nat>, last: Event)
    requires EntriesFor(init, features, entries, places)
    requires forall g | g in features :: !ExistedAt(g, last.post, last.occurredAt)
    ensures EntriesFor(init + [last], features, entries, places)
  {
    assert |init| !in places;
  }

  /** A snapshot, whatever its limits and its log: the user's newest past clicks, oldest first, each with the
      latest version of its article at the click, and none without an article left in. */
  lemma SnapshotIsMeant(
      user: nat, ref: int, events: seq<Event>, features: seq<Feature>, recent: int, longTerm: int, entries: seq<Entry>)
    returns (chosen: seq<Event>, places: seq<nat>)
    requires Snapshot(user, ref, events, features, recent, longTerm) == Some(entries)
    ensures recent >= 0 && longTerm >= 0
    ensures NewestClicks(events, user, ref, recent + longTerm, chosen)
    ensures EntriesFor(chosen, features, entries, places)
  {
    chosen := Selected(events, user, ref, recent + longTerm);
    if recent + longTerm > 0 {
      SelectedIsNewest(events, user, ref, recent + longTerm);
    }
    places := EntriesAreFor(chosen, features);
  }

  // ---------------------------------------------------------------- the lookup in numbers

  /** The online build looks at as many rows as it may select, at least one, and a slack that is not negative. */
  lemma LookupInNumbers(recent: int, longTerm: int, slack: int)
    ensures LookupLimit(recent, longTerm, slack) >= 1 && LookupLimit(recent, longTerm, slack) >= recent + longTerm
    ensures recent + longTerm >= 1 && slack >= 0 ==> LookupLimit(recent, longTerm, slack) == recent + longTerm + slack
    ensures recent + longTerm < 1 && slack >= 0 ==> LookupLimit(recent, longTerm, slack) == 1 + slack
    ensures slack < 0 ==> LookupLimit(recent, longTerm, slack) == LookupLimit(recent, longTerm, 0)
  {
  }

}
