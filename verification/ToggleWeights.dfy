/** The toggles in the source's own names and numbers: the message and the canonical row of each action,
    and what the interaction rows make of the stored v1 vector. */
module ToggleWeights {
  import opened Options
  import opened TopicVectors
  import FW = FeatureWorker
  import P = Pipeline
  import R = Replay
  import opened TurnWeights
  import opened Toggles
  import opened ToggleVectors
  import opened EndToEnd
  import EventSourcing

  // ---------------------------------------------------------------- one toggle

  /** The message type of an action or a reversal. */
  predicate MessageNamed(kind: Kind, on: bool, t: FW.EventType)
  {
    && (kind == Like && on ==> t == FW.Liked) && (kind == Like && !on ==> t == FW.Unliked)
    && (kind == Save && on ==> t == FW.Saved) && (kind == Save && !on ==> t == FW.Unsaved)
    && (kind == Toggles.Share && on ==> t == FW.Shared) && (kind == Toggles.Share && !on ==> t == FW.Unshared)
    && (kind == Hide && on ==> t == FW.Hidden) && (kind == Hide && !on ==> t == FW.Unhide)
  }

  /** The type of its canonical row. */
  predicate RowNamed(kind: Kind, on: bool, t: R.CanonicalType)
  {
    && (kind == Like && on ==> t == R.Like) && (kind == Like && !on ==> t == R.Unlike)
    && (kind == Save && on ==> t == R.Save) && (kind == Save && !on ==> t == R.Unsave)
    && (kind == Toggles.Share && on ==> t == R.Share) && (kind == Toggles.Share && !on ==> t == R.Unshare)
    && (kind == Hide && on ==> t == R.Hide) && (kind == Hide && !on ==> t == R.Unhide)
  }

  /** A toggle that changes something appends one message and one canonical row, with one id, that name
      the user, the post, and what was done, an action weighing the same in both; one that changes nothing
      appends neither. */
  lemma ToggleAppends(t: Tables, r: Request)
    ensures var t' := Toggle(t, r);
            if !Changes(t, r) then t' == t
            else
              && |t'.outbox| == |t.outbox| + 1 && t'.outbox[..|t.outbox|] == t.outbox
              && |t'.log| == |t.log| + 1 && t'.log[..|t.log|] == t.log
              && (var message := t'.outbox[|t.outbox|];
                  && MessageNamed(r.key.kind, r.on, message.eventType) && message.version == FW.Version1
                  && message.eventId == FW.Uuid(r.id) && message.userId == FW.Uuid(r.key.user)
                  && message.postId == Some(r.key.post))
              && (var row := EventSourcing.ToEvent(t'.log[|t.log|]);
                  && RowNamed(r.key.kind, r.on, row.eventType) && row.eventId == r.id && row.postId == r.key.post
                  && row.occurredAt == r.at && t'.log[|t.log|].key.user == r.key.user
                  && (r.on ==> R.CanonicalWeight(row.eventType) == FW.Weight(t'.outbox[|t.outbox|].eventType)))
  {
  }

  // ---------------------------------------------------------------- what the rows weigh

  function RowPoints(kind: Kind): real
  {
    match kind
    case Like => 1.5
    case Save => 2.5
    case Share => 2.5
    case Hide => -2.0
  }

  /** A row's points, split evenly over the topics of its post. */
  function RowPart(posts: map<nat, FW.PostRow>, key: Key, topic: string): real
  {
    Part(RowPoints(key.kind), TopicsUnder(posts, Some(key.post)), topic)
  }

  ghost function RowsWeigh(posts: map<nat, FW.PostRow>, rows: set<Key>, topic: string): real
  {
    if rows == {} then 0.0
    else
      var k :| k in rows;
      RowPart(posts, k, topic) + RowsWeigh(posts, rows - {k}, topic)
  }

  lemma {:induction false} RowsWeighAdd(posts: map<nat, FW.PostRow>, rows: set<Key>, key: Key, topic: string)
    requires key !in rows
    ensures RowsWeigh(posts, rows + {key}, topic) == RowsWeigh(posts, rows, topic) + RowPart(posts, key, topic)
    decreases |rows|
  {
    var all := rows + {key};
    var k :| k in all && RowsWeigh(posts, all, topic) == RowPart(posts, k, topic) + RowsWeigh(posts, all - {k}, topic);
    if k == key {
      assert all - {k} == rows;
    } else {
      assert all - {k} == (rows - {k}) + {key};
      RowsWeighAdd(posts, rows - {k}, key, topic);
      assert rows == (rows - {k}) + {k};
      RowsWeighAdd(posts, rows - {k}, k, topic);
    }
  }

  lemma RowShareIsPart(posts: map<nat, FW.PostRow>, key: Key, topic: string)
    ensures RowShare(key, TopicsIn(posts), topic) == RowPart(posts, key, topic)
  {
    var c := FW.Claim(0, key.user, ActionType(key.kind, true), TopicsIn(posts)(key.post), true);
    ShareIsPart(posts, c, Some(key.post), topic);
    assert Points(c.eventType) == RowPoints(key.kind);
  }

  lemma {:induction false} SumIsWeight(posts: map<nat, FW.PostRow>, rows: set<Key>, topic: string)
    ensures SumRows(rows, TopicsIn(posts), topic) == RowsWeigh(posts, rows, topic)
    decreases |rows|
  {
    if rows != {} {
      var k :| k in rows;
      SumIsWeight(posts, rows - {k}, topic);
      SumRowsAdd(rows - {k}, k, TopicsIn(posts), topic);
      RowsWeighAdd(posts, rows - {k}, k, topic);
      RowShareIsPart(posts, k, topic);
      assert (rows - {k}) + {k} == rows;
    }
  }

  /** What the user's unhides have left of the hides before them. */
  function HidesLeft(posts: map<nat, FW.PostRow>, log: seq<LogEvent>, user: nat, topic: string): real
  {
    if log == [] then 0.0
    else
      var last := log[|log| - 1];
      HidesLeft(posts, log[..|log| - 1], user, topic)
      + if last.key.user == user && last.key.kind == Hide && !last.on
        then Part(-2.0, TopicsUnder(posts, Some(last.key.post)), topic) else 0.0
  }

  lemma {:induction false} ResidueIsHides(posts: map<nat, FW.PostRow>, log: seq<LogEvent>, user: nat, topic: string)
    ensures Residue(log, user, ALL_KINDS, TopicsIn(posts), topic) == HidesLeft(posts, log, user, topic)
    decreases |log|
  {
    if log != [] {
      ResidueIsHides(posts, log[..|log| - 1], user, topic);
      RowShareIsPart(posts, log[|log| - 1].key, topic);
    }
  }

  function MineOf(rows: set<Key>, user: nat): set<Key>
  {
    set k | k in rows && k.user == user
  }

  lemma EveryKind(kind: Kind)
    ensures kind in ALL_KINDS
  {
  }

  lemma RowsInNumbers(posts: map<nat, FW.PostRow>, t: Tables, user: nat, topic: string)
    ensures SumRows(UserRows(t.rows, user, ALL_KINDS), TopicsIn(posts), topic)
            + Residue(t.log, user, ALL_KINDS, TopicsIn(posts), topic)
         == RowsWeigh(posts, MineOf(t.rows, user), topic) + HidesLeft(posts, t.log, user, topic)
  {
    forall k ensures k in UserRows(t.rows, user, ALL_KINDS) <==> k in MineOf(t.rows, user) {
      EveryKind(k.kind);
    }
    assert UserRows(t.rows, user, ALL_KINDS) == MineOf(t.rows, user);
    SumIsWeight(posts, MineOf(t.rows, user), topic);
    ResidueIsHides(posts, t.log, user, topic);
  }

  /** At rest, a user's stored weight of a topic is 1.5 for each like, 2.5 for each save and share and -2.0
      for each hide among the user's rows, each over the number of its post's topics, and -2.0 so divided
      for each unhide there ever was. */
  lemma StoredWeight(
      q: int, trace: seq<P.State>, steps: seq<P.Step>, s: P.State, existing: set<nat>, requests: seq<Request>,
      user: nat, topic: string)
    requires P.Run(q, trace, steps) && s == trace[|steps|] && OutboxSent(s) && Quiet(s)
    requires user in trace[0].db.users && QuietFor(steps, user)
    requires forall i, j | 0 <= i < j < |requests| :: requests[i].id != requests[j].id
    requires EnqueuesToggles(q, steps, RunAll(Empty(existing), requests), user)
    ensures var t := RunAll(Empty(existing), requests);
            Get(FW.VectorOf(s.db, user), topic)
            == RowsWeigh(s.db.posts, MineOf(t.rows, user), topic) + HidesLeft(s.db.posts, t.log, user, topic)
  {
    StoredVectorIsTheRows(q, trace, steps, s, existing, requests, user, topic);
    RowsInNumbers(s.db.posts, RunAll(Empty(existing), requests), user, topic);
  }
}
