/** The toggles' canonical log, replayed by the v2 vector builder, against the interaction rows. */
module EventSourcing {
  import opened Options
  import opened Sorting
  import opened Replay
  import opened PreferenceVector
  import Toggles

  function TypeOf(kind: Toggles.Kind, on: bool): CanonicalType
  {
    match kind
    case Like => if on then Like else Unlike
    case Save => if on then Save else Unsave
    case Share => if on then Share else Unshare
    case Hide => if on then Hide else Unhide
  }

  /** The row of `behavior_events` as the replay reads it. */
  function ToEvent(e: Toggles.LogEvent): PreferenceEvent
  {
    PreferenceEvent(e.id, e.key.post, TypeOf(e.key.kind, e.on), [], e.at, None, None, None, None, false)
  }

  /** `WHERE event.user_id = $1`. */
  function UserEvents(log: seq<Toggles.LogEvent>, user: nat): seq<PreferenceEvent>
  {
    if log == [] then []
    else
      var init := UserEvents(log[..|log| - 1], user);
      var last := log[|log| - 1];
      if last.key.user == user then init + [ToEvent(last)] else init
  }

  lemma {:induction false} UserEventsMembers(log: seq<Toggles.LogEvent>, user: nat)
    ensures forall e | e in log && e.key.user == user :: ToEvent(e) in UserEvents(log, user)
    ensures forall x | x in UserEvents(log, user) :: exists e :: e in log && e.key.user == user && x == ToEvent(e)
  {
    if log != [] {
      UserEventsMembers(log[..|log| - 1], user);
      assert log == log[..|log| - 1] + [log[|log| - 1]];
    }
  }

  ghost predicate DistinctLogIds(log: seq<Toggles.LogEvent>)
  {
    forall a, b | a in log && b in log && a != b :: a.id != b.id
  }

  /** With distinct ids nothing is de-duplicated away. */
  lemma UniqueIsAll(log: seq<Toggles.LogEvent>, user: nat, ref: int)
    requires DistinctLogIds(log) && forall e | e in log :: e.at <= ref
    ensures forall x :: x in Unique(UserEvents(log, user), ref) <==> x in UserEvents(log, user)
  {
    var a := UserEvents(log, user);
    UserEventsMembers(log, user);
    EventOrder();
    forall x | x in a ensures LeastForId(a, x, ref) {
      forall f | f in a && f.eventId == x.eventId ensures f == x {
        var e :| e in log && e.key.user == user && x == ToEvent(e);
        var g :| g in log && g.key.user == user && f == ToEvent(g);
      }
    }
    forall x, y | LeastForId(a, x, ref) && LeastForId(a, y, ref) && x.eventId == y.eventId ensures x == y {
      var e :| e in log && e.key.user == user && x == ToEvent(e);
      var g :| g in log && g.key.user == user && y == ToEvent(g);
    }
    forall x ensures x in Unique(a, ref) <==> x in a {
      UniqueMember(a, ref, x);
    }
  }

  /** The replay lets an action of `key` stand. */
  ghost predicate StandsFor(u: seq<PreferenceEvent>, key: Toggles.Key)
  {
    exists i :: 0 <= i < |u| && u[i].postId == key.post && u[i].eventType == TypeOf(key.kind, true) && Stands(u, |u|, i)
  }

  lemma EarlierInReplay(u: seq<PreferenceEvent>, e: Toggles.LogEvent, f: Toggles.LogEvent, i: nat, j: nat)
    requires Sorted(u, EventLeq) && i < |u| && j < |u| && u[i] == ToEvent(e) && u[j] == ToEvent(f) && e.id != f.id
    ensures j < i <==> Toggles.Before(f, e)
  {
    if j < i {
      assert EventLeq(u[j], u[i]);
    } else {
      assert i != j;
      assert EventLeq(u[i], u[j]);
    }
  }

  /** `u` holds exactly the user's events, in replay order. */
  ghost predicate ReplayOf(u: seq<PreferenceEvent>, log: seq<Toggles.LogEvent>, user: nat)
  {
    && Sorted(u, EventLeq)
    && (forall i, j | 0 <= i < j < |u| :: u[i].eventId != u[j].eventId)
    && (forall e | e in log && e.key.user == user :: ToEvent(e) in u)
    && (forall i | 0 <= i < |u| :: exists e :: e in log && e.key.user == user && u[i] == ToEvent(e))
  }

  lemma OverridesIffSameKey(u: seq<PreferenceEvent>, e: Toggles.LogEvent, f: Toggles.LogEvent, i: nat, j: nat)
    requires i < |u| && j < |u| && u[i] == ToEvent(e) && u[j] == ToEvent(f) && e.on && e.key.user == f.key.user
    ensures Overrides(u, j, i) <==> e.key == f.key
  {}

  lemma PlaceOf(u: seq<PreferenceEvent>, log: seq<Toggles.LogEvent>, e: Toggles.LogEvent, user: nat) returns (i: nat)
    requires ReplayOf(u, log, user) && e in log && e.key.user == user
    ensures i < |u| && u[i] == ToEvent(e)
  {
    assert ToEvent(e) in u;
    i :| 0 <= i < |u| && u[i] == ToEvent(e);
  }

  lemma SourceOf(u: seq<PreferenceEvent>, log: seq<Toggles.LogEvent>, i: nat, user: nat) returns (e: Toggles.LogEvent)
    requires ReplayOf(u, log, user) && i < |u|
    ensures e in log && e.key.user == user && u[i] == ToEvent(e)
  {
    assert u[i] in u;
    e :| e in log && e.key.user == user && u[i] == ToEvent(e);
  }

  lemma LatestActionStands(u: seq<PreferenceEvent>, log: seq<Toggles.LogEvent>, key: Toggles.Key)
    requires ReplayOf(u, log, key.user) && DistinctLogIds(log) && Toggles.ReplayActive(log, key)
    ensures StandsFor(u, key)
  {
    Toggles.KeyLogMembers(log, key);
    var e :| e in Toggles.KeyLog(log, key) && e.on
             && forall f | f in Toggles.KeyLog(log, key) && f != e :: Toggles.Before(f, e);
    var i := PlaceOf(u, log, e, key.user);
    forall j | i < j < |u| ensures !Overrides(u, j, i) {
      var f := SourceOf(u, log, j, key.user);
      LaterDoesNotOverride(u, e, f, i, j);
    }
  }

  lemma LaterDoesNotOverride(u: seq<PreferenceEvent>, e: Toggles.LogEvent, f: Toggles.LogEvent, i: nat, j: nat)
    requires Sorted(u, EventLeq) && forall k, l | 0 <= k < l < |u| :: u[k].eventId != u[l].eventId
    requires i < j < |u| && u[i] == ToEvent(e) && u[j] == ToEvent(f) && e.on && e.key.user == f.key.user
    requires f.key == e.key && f != e ==> Toggles.Before(f, e)
    ensures !Overrides(u, j, i)
  {
    OverridesIffSameKey(u, e, f, i, j);
    if f.key == e.key {
      assert u[i].eventId != u[j].eventId;
      EarlierInReplay(u, e, f, i, j);
    }
  }

  lemma TypeOfInjective(e: Toggles.LogEvent, key: Toggles.Key)
    requires TypeOf(e.key.kind, e.on) == TypeOf(key.kind, true) && e.key.user == key.user && e.key.post == key.post
    ensures e.on && e.key == key
  {}

  lemma StandingActionIsLatest(u: seq<PreferenceEvent>, log: seq<Toggles.LogEvent>, key: Toggles.Key)
    requires ReplayOf(u, log, key.user) && DistinctLogIds(log) && StandsFor(u, key)
    ensures Toggles.ReplayActive(log, key)
  {
    Toggles.KeyLogMembers(log, key);
    var i :| 0 <= i < |u| && u[i].postId == key.post && u[i].eventType == TypeOf(key.kind, true) && Stands(u, |u|, i);
    var e := SourceOf(u, log, i, key.user);
    TypeOfInjective(e, key);
    forall f | f in Toggles.KeyLog(log, key) && f != e ensures Toggles.Before(f, e) {
      var j := PlaceOf(u, log, f, key.user);
      OverridesIffSameKey(u, e, f, i, j);
      EarlierInReplay(u, e, f, i, j);
    }
  }

  /** Replay's verdict on a key is the verdict of the key's latest event. */
  lemma StandsIffLatestIsAction(log: seq<Toggles.LogEvent>, key: Toggles.Key, ref: int)
    requires DistinctLogIds(log) && forall e | e in log :: e.at <= ref
    ensures StandsFor(Unique(UserEvents(log, key.user), ref), key) <==> Toggles.ReplayActive(log, key)
  {
    var u := Unique(UserEvents(log, key.user), ref);
    UniqueIsAll(log, key.user, ref);
    UserEventsMembers(log, key.user);
    UniqueShape(UserEvents(log, key.user), ref);
    assert forall i | 0 <= i < |u| :: u[i] in u;
    assert ReplayOf(u, log, key.user);
    if Toggles.ReplayActive(log, key) {
      LatestActionStands(u, log, key);
    }
    if StandsFor(u, key) {
      StandingActionIsLatest(u, log, key);
    }
  }

  /** After any run of requests whose events sort past their key's earlier ones, what the v2 replay
      lets stand for a user is exactly that user's interaction rows: likes, saves, shares and hides. */
  lemma ReplayEqualsRows(posts: set<nat>, requests: seq<Toggles.Request>, key: Toggles.Key, ref: int)
    requires forall i, j | 0 <= i < j < |requests| :: requests[i].id != requests[j].id
    requires forall i, j | 0 <= i < j < |requests| && requests[i].key == requests[j].key ::
               requests[i].at < requests[j].at || (requests[i].at == requests[j].at && requests[i].id < requests[j].id)
    requires forall r | r in requests :: r.at <= ref
    ensures var t := Toggles.RunAll(Toggles.Empty(posts), requests);
            StandsFor(Unique(UserEvents(t.log, key.user), ref), key) <==> key in t.rows
  {
    var t := Toggles.RunAll(Toggles.Empty(posts), requests);
    Toggles.OrderedRunsAgree(posts, requests, key);
    Toggles.LogIdsDistinct(posts, requests);
    forall e | e in t.log ensures e.at <= ref {
      var r :| r in requests && e == Toggles.LogEvent(r.id, r.at, r.key, r.on);
    }
    StandsIffLatestIsAction(t.log, key, ref);
  }
}
