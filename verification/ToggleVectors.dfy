/** The v1 preference vector against the interaction rows: what the deltas of a run of toggles leave
    behind, topic by topic. */
module ToggleVectors {
  import opened Options
  import opened TopicVectors
  import opened FeatureWorker
  import opened Toggles

  /** The claim the feature worker records for an event, its post's topics being `topicsOf`. */
  function ClaimOf(e: LogEvent, topicsOf: nat -> seq<string>): Claim
  {
    Claim(e.id, e.key.user, ActionType(e.key.kind, e.on), topicsOf(e.key.post), true)
  }

  const COUNTED: set<Kind> := {Like, Save, Toggles.Share}
  const ALL_KINDS: set<Kind> := {Like, Save, Toggles.Share, Hide}

  /** The claims of one user's toggles of these kinds, in log order. */
  function UserClaims(log: seq<LogEvent>, user: nat, kinds: set<Kind>, topicsOf: nat -> seq<string>): seq<Claim>
  {
    if log == [] then []
    else
      var last := log[|log| - 1];
      UserClaims(log[..|log| - 1], user, kinds, topicsOf)
      + if last.key.user == user && last.key.kind in kinds then [ClaimOf(last, topicsOf)] else []
  }

  function UserRows(rows: set<Key>, user: nat, kinds: set<Kind>): set<Key>
  {
    set k | k in rows && k.user == user && k.kind in kinds
  }

  /** What one row's action moved the weight of `topic` by. */
  function RowShare(key: Key, topicsOf: nat -> seq<string>, topic: string): real
  {
    FeatureWorker.Share(Claim(0, key.user, ActionType(key.kind, true), topicsOf(key.post), true), topic)
  }

  ghost function SumRows(rows: set<Key>, topicsOf: nat -> seq<string>, topic: string): real
  {
    if rows == {} then 0.0
    else
      var k :| k in rows;
      RowShare(k, topicsOf, topic) + SumRows(rows - {k}, topicsOf, topic)
  }

  lemma {:induction false} SumRowsAdd(rows: set<Key>, key: Key, topicsOf: nat -> seq<string>, topic: string)
    requires key !in rows
    ensures SumRows(rows + {key}, topicsOf, topic) == SumRows(rows, topicsOf, topic) + RowShare(key, topicsOf, topic)
    decreases |rows|
  {
    var all := rows + {key};
    var k :|
      k in all && SumRows(all, topicsOf, topic) == RowShare(k, topicsOf, topic) + SumRows(all - {k}, topicsOf, topic);
    if k == key {
      assert all - {k} == rows;
    } else {
      assert all - {k} == (rows - {k}) + {key};
      SumRowsAdd(rows - {k}, key, topicsOf, topic);
      assert rows == (rows - {k}) + {k};
      SumRowsAdd(rows - {k}, k, topicsOf, topic);
    }
  }

  /** What a reversal fails to take back: for an unhide, whose weight is 0, the whole hide. */
  function Unreversed(e: LogEvent, topicsOf: nat -> seq<string>, topic: string): real
  {
    if e.key.kind == Hide && !e.on then RowShare(e.key, topicsOf, topic) else 0.0
  }

  function Residue(
      log: seq<LogEvent>, user: nat, kinds: set<Kind>, topicsOf: nat -> seq<string>, topic: string): real
  {
    if log == [] then 0.0
    else
      var last := log[|log| - 1];
      Residue(log[..|log| - 1], user, kinds, topicsOf, topic)
      + if last.key.user == user && last.key.kind in kinds then Unreversed(last, topicsOf, topic) else 0.0
  }

  /** An action moves a weight by its row's share; a reversal by the negated share and the unreversed rest. */
  lemma EventShare(e: LogEvent, topicsOf: nat -> seq<string>, topic: string)
    ensures FeatureWorker.Share(ClaimOf(e, topicsOf), topic)
         == if e.on then RowShare(e.key, topicsOf, topic)
            else Unreversed(e, topicsOf, topic) - RowShare(e.key, topicsOf, topic)
  {
    var topics := topicsOf(e.key.post);
    var up, down := Delta(topics, ActionType(e.key.kind, true)), Delta(topics, ActionType(e.key.kind, false));
    if e.key.kind == Hide {
      SpreadZero(Effective(topics), topic);
    } else {
      assert down == -up;
      SpreadNegate(Effective(topics), topic, up);
    }
  }

  lemma ClaimsSnoc(
      log: seq<LogEvent>, e: LogEvent, user: nat, kinds: set<Kind>, topicsOf: nat -> seq<string>, topic: string)
    ensures var mine := e.key.user == user && e.key.kind in kinds;
            && Total(UserClaims(log + [e], user, kinds, topicsOf), topic)
               == Total(UserClaims(log, user, kinds, topicsOf), topic)
                  + (if mine then FeatureWorker.Share(ClaimOf(e, topicsOf), topic) else 0.0)
            && Residue(log + [e], user, kinds, topicsOf, topic)
               == Residue(log, user, kinds, topicsOf, topic) + (if mine then Unreversed(e, topicsOf, topic) else 0.0)
  {
    assert (log + [e])[..|log|] == log;
    var c := ClaimOf(e, topicsOf);
    TotalAppend(UserClaims(log, user, kinds, topicsOf), [c], topic);
    TotalAppend(UserClaims(log, user, kinds, topicsOf), [], topic);
    assert [c][1..] == [];
  }

  lemma RowsStep(rows: set<Key>, r: Request, user: nat, kinds: set<Kind>, topicsOf: nat -> seq<string>, topic: string)
    requires r.on <==> r.key !in rows
    ensures var rows' := if r.on then rows + {r.key} else rows - {r.key};
            SumRows(UserRows(rows', user, kinds), topicsOf, topic)
            == SumRows(UserRows(rows, user, kinds), topicsOf, topic)
               + if r.key.user != user || r.key.kind !in kinds then 0.0
                 else if r.on then RowShare(r.key, topicsOf, topic) else -RowShare(r.key, topicsOf, topic)
  {
    var rows' := if r.on then rows + {r.key} else rows - {r.key};
    var mine, mine' := UserRows(rows, user, kinds), UserRows(rows', user, kinds);
    if r.key.user != user || r.key.kind !in kinds {
      assert mine' == mine;
    } else if r.on {
      assert mine' == mine + {r.key};
      SumRowsAdd(mine, r.key, topicsOf, topic);
    } else {
      assert mine == mine' + {r.key};
      SumRowsAdd(mine', r.key, topicsOf, topic);
    }
  }

  /** After any run, a user's deltas add up, topic by topic, to exactly the rows the user still has plus
      what the reversals failed to take back. */
  lemma {:induction false} DeltasLeaveRowsAndResidue(
      posts: set<nat>, requests: seq<Request>, user: nat, kinds: set<Kind>, topicsOf: nat -> seq<string>, topic: string)
    ensures var t := RunAll(Empty(posts), requests);
            Total(UserClaims(t.log, user, kinds, topicsOf), topic)
            == SumRows(UserRows(t.rows, user, kinds), topicsOf, topic) + Residue(t.log, user, kinds, topicsOf, topic)
    decreases |requests|
  {
    if requests != [] {
      var init, r := requests[..|requests| - 1], requests[|requests| - 1];
      var t := RunAll(Empty(posts), init);
      DeltasLeaveRowsAndResidue(posts, init, user, kinds, topicsOf, topic);
      if Changes(t, r) {
        var e := LogEvent(r.id, r.at, r.key, r.on);
        ClaimsSnoc(t.log, e, user, kinds, topicsOf, topic);
        RowsStep(t.rows, r, user, kinds, topicsOf, topic);
        EventShare(e, topicsOf, topic);
      }
    } else {
      assert UserRows({}, user, kinds) == {};
    }
  }

  // ---------------------------------------------------------------- with and without hides

  lemma {:induction false} NoResidue(log: seq<LogEvent>, user: nat, topicsOf: nat -> seq<string>, topic: string)
    ensures Residue(log, user, COUNTED, topicsOf, topic) == 0.0
    decreases |log|
  {
    if log != [] {
      NoResidue(log[..|log| - 1], user, topicsOf, topic);
    }
  }

  /** After any run, a user's like, save and share deltas add up to exactly the rows the user still has:
      every reversed action has left nothing behind. */
  lemma DeltasTelescopeToRows(
      posts: set<nat>, requests: seq<Request>, user: nat, topicsOf: nat -> seq<string>, topic: string)
    ensures var t := RunAll(Empty(posts), requests);
            Total(UserClaims(t.log, user, COUNTED, topicsOf), topic)
            == SumRows(UserRows(t.rows, user, COUNTED), topicsOf, topic)
  {
    DeltasLeaveRowsAndResidue(posts, requests, user, COUNTED, topicsOf, topic);
    NoResidue(RunAll(Empty(posts), requests).log, user, topicsOf, topic);
  }

  lemma {:induction false} SpreadNegative(topics: seq<string>, topic: string, delta: real)
    requires delta < 0.0
    ensures Spread(topics, topic, delta) <= 0.0
    ensures Spread(topics, topic, delta) < 0.0 <==> topic in topics
    decreases |topics|
  {
    if topics != [] {
      SpreadNegative(topics[1..], topic, delta);
      assert topics == [topics[0]] + topics[1..];
    }
  }

  /** An unhide by `user` of a post that bears on `topic`. */
  predicate Unhides(e: LogEvent, user: nat, topicsOf: nat -> seq<string>, topic: string)
  {
    e.key.user == user && e.key.kind == Hide && !e.on && topic in Effective(topicsOf(e.key.post))
  }

  lemma UnhideCosts(e: LogEvent, user: nat, topicsOf: nat -> seq<string>, topic: string)
    requires e.key.user == user
    ensures Unreversed(e, topicsOf, topic) <= 0.0
    ensures Unreversed(e, topicsOf, topic) < 0.0 <==> Unhides(e, user, topicsOf, topic)
  {
    var topics := topicsOf(e.key.post);
    if e.key.kind == Hide {
      assert Delta(topics, Hidden) < 0.0;
      SpreadNegative(Effective(topics), topic, Delta(topics, Hidden));
    }
  }

  lemma {:induction false} ResidueIff(log: seq<LogEvent>, user: nat, topicsOf: nat -> seq<string>, topic: string)
    ensures Residue(log, user, ALL_KINDS, topicsOf, topic) <= 0.0
    ensures Residue(log, user, ALL_KINDS, topicsOf, topic) == 0.0
       <==> forall e | e in log :: !Unhides(e, user, topicsOf, topic)
    decreases |log|
  {
    if log != [] {
      var init, last := log[..|log| - 1], log[|log| - 1];
      ResidueIff(init, user, topicsOf, topic);
      assert last in log && forall e :: e in log <==> e in init || e == last;
      if last.key.user == user {
        UnhideCosts(last, user, topicsOf, topic);
      }
    }
  }

  /** In v1 hides are not undone: after any run the deltas of all a user's toggles weigh a topic at most
      as the user's rows do, and exactly so if and only if the user never un-hid a post of that topic. */
  lemma HidesReturnIff(
      posts: set<nat>, requests: seq<Request>, user: nat, topicsOf: nat -> seq<string>, topic: string)
    ensures var t := RunAll(Empty(posts), requests);
            var weight := Total(UserClaims(t.log, user, ALL_KINDS, topicsOf), topic);
            var rows := SumRows(UserRows(t.rows, user, ALL_KINDS), topicsOf, topic);
            && weight <= rows
            && (weight == rows <==> forall e | e in t.log :: !Unhides(e, user, topicsOf, topic))
  {
    DeltasLeaveRowsAndResidue(posts, requests, user, ALL_KINDS, topicsOf, topic);
    ResidueIff(RunAll(Empty(posts), requests).log, user, topicsOf, topic);
  }

  /** One hide and its unhide, on a post of one topic: no row is left, and the topic weighs -2. */
  lemma UnhideLeavesTheHide(
      posts: set<nat>, user: nat, post: nat, topicsOf: nat -> seq<string>, topic: string, one: seq<Request>,
      both: seq<Request>)
    requires post in posts && topicsOf(post) == [topic]
    requires one == [Request(Key(user, post, Hide), true, 1, 1)]
    requires both == one + [Request(Key(user, post, Hide), false, 2, 2)]
    ensures var t := RunAll(Empty(posts), both);
            t.rows == {} && Total(UserClaims(t.log, user, ALL_KINDS, topicsOf), topic) == -2.0
  {
    var on, off := one[0], both[1];
    assert one[..0] == [] && both[..1] == one;
    var t0, t1, t := RunAll(Empty(posts), one[..0]), RunAll(Empty(posts), one), RunAll(Empty(posts), both);
    assert t0 == Empty(posts) && t1 == Toggle(t0, on) && t == Toggle(t1, off);
    var e1, e2 := LogEvent(1, 1, on.key, true), LogEvent(2, 2, on.key, false);
    assert t1.log == [] + [e1] && t.log == t1.log + [e2] && t.rows == {};
    ClaimsSnoc([], e1, user, ALL_KINDS, topicsOf, topic);
    ClaimsSnoc(t1.log, e2, user, ALL_KINDS, topicsOf, topic);
    EventShare(e2, topicsOf, topic);
    HideWeighs(e1, topicsOf, topic);
  }

  lemma HideWeighs(e: LogEvent, topicsOf: nat -> seq<string>, topic: string)
    requires e.key.kind == Hide && e.on && topicsOf(e.key.post) == [topic]
    ensures FeatureWorker.Share(ClaimOf(e, topicsOf), topic) == -2.0
  {
    assert Delta([topic], Hidden) == -2.0;
    assert Spread([topic], topic, -2.0) == -2.0 + Spread([topic][1..], topic, -2.0);
  }
}
