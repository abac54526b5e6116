/** The greedy diversity rerank over scored items (recommendation_api/app/ranking.py). */
module Ranking {
  import opened Options
  import opened Sorting

  type PostId = nat
  type Topic = nat
  type Author = nat
  type Version = nat

  datatype Reason = FromSource | FromModel(version: Version)

  datatype Features = Features(heuristicScore: real, mlScore: Option<real>, rest: nat)

  datatype Item = Item(postId: PostId, score: real, reason: Reason, features: Features)

  /** The two dictionaries the caller passes; a missing key reads as None, like a null topic. */
  datatype Context = Context(primaryTopic: map<PostId, Option<Topic>>, authorId: map<PostId, Author>)
  {
    function TopicOf(id: PostId): Option<Topic>
    {
      if id in primaryTopic then primaryTopic[id] else None
    }

    function AuthorOf(id: PostId): Option<Author>
    {
      if id in authorId then Some(authorId[id]) else None
    }
  }

  /** `sorted(..., key=score, reverse=True)` keeps equal scores in input order. */
  function ByScore(): (Item, Item) -> bool
  {
    (a: Item, b: Item) => a.score >= b.score
  }

  function SeenTopics(ctx: Context, selected: seq<Item>): set<Option<Topic>>
  {
    set item | item in selected :: ctx.TopicOf(item.postId)
  }

  function Penalty(ctx: Context, selected: seq<Item>, id: PostId): (p: real)
    ensures 0.0 <= p <= 0.17
    ensures selected == [] ==> p == 0.0
  {
    var streak :=
      if selected == [] then 0.0
      else
        var last := selected[|selected| - 1].postId;
        (if ctx.AuthorOf(id) == ctx.AuthorOf(last) then 0.08 else 0.0)
        + (if ctx.TopicOf(id) == ctx.TopicOf(last) then 0.05 else 0.0);
    var seen := SeenTopics(ctx, selected);
    streak + if ctx.TopicOf(id) in seen && |seen| < 3 then 0.04 else 0.0
  }

  function Adjusted(ctx: Context, selected: seq<Item>, item: Item): real
  {
    item.score - Penalty(ctx, selected, item.postId)
  }

  /** `max(remaining, key=adjusted)`: the first item of greatest adjusted score. */
  function Best(ctx: Context, selected: seq<Item>, remaining: seq<Item>): (i: nat)
    requires remaining != []
    ensures i < |remaining|
    ensures forall j | 0 <= j < |remaining| ::
              Adjusted(ctx, selected, remaining[j]) <= Adjusted(ctx, selected, remaining[i])
    ensures forall j | 0 <= j < i :: Adjusted(ctx, selected, remaining[j]) < Adjusted(ctx, selected, remaining[i])
  {
    if |remaining| == 1 then 0
    else
      var k := Best(ctx, selected, remaining[..|remaining| - 1]);
      if Adjusted(ctx, selected, remaining[k]) < Adjusted(ctx, selected, remaining[|remaining| - 1])
      then |remaining| - 1 else k
  }

  /** `list.remove`: the first item equal to the given one goes. */
  function Remove(s: seq<Item>, x: Item): (r: seq<Item>)
    requires x in s
    ensures |r| == |s| - 1
  {
    if s[0] == x then s[1..] else [s[0]] + Remove(s[1..], x)
  }

  lemma {:induction false} RemoveMultiset(s: seq<Item>, x: Item)
    requires x in s
    ensures multiset(Remove(s, x)) == multiset(s) - multiset{x}
  {
    assert s == [s[0]] + s[1..];
    if s[0] != x {
      RemoveMultiset(s[1..], x);
    }
  }

  /** Removal of the first occurrence removes at its index. */
  lemma {:induction false} RemoveAt(s: seq<Item>, i: nat)
    requires i < |s| && forall j | 0 <= j < i :: s[j] != s[i]
    ensures Remove(s, s[i]) == s[..i] + s[i + 1..]
  {
    if i > 0 {
      RemoveAt(s[1..], i - 1);
      assert s[1..][i - 1] == s[i];
    }
  }

  /** The items chosen from `remaining` when `selected` have been already. */
  function Greedy(ctx: Context, selected: seq<Item>, remaining: seq<Item>, limit: int): (picks: seq<Item>)
    decreases |remaining|
  {
    if remaining == [] || |selected| >= limit then []
    else
      var best := remaining[Best(ctx, selected, remaining)];
      [best] + Greedy(ctx, selected + [best], Remove(remaining, best), limit)
  }

  function Reranked(ctx: Context, items: seq<Item>, limit: int): seq<Item>
  {
    Greedy(ctx, [], Sort(items, ByScore()), limit)
  }

  lemma GreedyStep(ctx: Context, selected: seq<Item>, remaining: seq<Item>, limit: int, i: nat)
    requires remaining != [] && |selected| < limit && i == Best(ctx, selected, remaining)
    ensures Greedy(ctx, selected, remaining, limit)
         == [remaining[i]] + Greedy(ctx, selected + [remaining[i]], Remove(remaining, remaining[i]), limit)
  {
  }

  /** What the loop has chosen so far, followed by what remains to be chosen, does not change. */
  lemma GreedyMoves(ctx: Context, selected: seq<Item>, remaining: seq<Item>, limit: int, i: nat)
    requires remaining != [] && |selected| < limit && i == Best(ctx, selected, remaining)
    ensures selected + Greedy(ctx, selected, remaining, limit)
         == (selected + [remaining[i]]) + Greedy(ctx, selected + [remaining[i]], Remove(remaining, remaining[i]), limit)
  {
    GreedyStep(ctx, selected, remaining, limit, i);
  }

  lemma GreedyDone(ctx: Context, selected: seq<Item>, remaining: seq<Item>, limit: int)
    requires remaining == [] || |selected| >= limit
    ensures selected + Greedy(ctx, selected, remaining, limit) == selected
  {
  }

  method DiversityRerank(items: seq<Item>, ctx: Context, limit: int) returns (selected: seq<Item>)
    ensures selected == Reranked(ctx, items, limit)
  {
    selected := [];
    var remaining := Sort(items, ByScore());
    assert [] + Greedy(ctx, [], remaining, limit) == Greedy(ctx, [], remaining, limit);
    while remaining != [] && |selected| < limit
      invariant selected + Greedy(ctx, selected, remaining, limit) == Reranked(ctx, items, limit)
      decreases |remaining|
    {
      var i := Best(ctx, selected, remaining);
      GreedyMoves(ctx, selected, remaining, limit, i);
      remaining, selected := Remove(remaining, remaining[i]), selected + [remaining[i]];
    }
    GreedyDone(ctx, selected, remaining, limit);
  }

  // ---------------------------------------------------------------- what a rerank is

  /** `x` beats `y` as the next pick: a higher adjusted score, or the same and no lower own score. */
  predicate Beats(ctx: Context, selected: seq<Item>, x: Item, y: Item)
  {
    || Adjusted(ctx, selected, x) > Adjusted(ctx, selected, y)
    || (Adjusted(ctx, selected, x) == Adjusted(ctx, selected, y) && x.score >= y.score)
  }

  /** Each pick beats everything not picked before it. */
  ghost predicate IsGreedy(ctx: Context, selected: seq<Item>, remaining: seq<Item>, picks: seq<Item>)
    decreases |picks|
  {
    picks != [] ==>
      && picks[0] in remaining
      && (forall y | y in remaining :: Beats(ctx, selected, picks[0], y))
      && IsGreedy(ctx, selected + [picks[0]], Remove(remaining, picks[0]), picks[1..])
  }

  lemma BestBeats(ctx: Context, selected: seq<Item>, remaining: seq<Item>)
    requires remaining != [] && Sorted(remaining, ByScore())
    ensures var best := remaining[Best(ctx, selected, remaining)];
            forall y | y in remaining :: Beats(ctx, selected, best, y)
  {
    var b := Best(ctx, selected, remaining);
    forall y | y in remaining ensures Beats(ctx, selected, remaining[b], y) {
      var j :| 0 <= j < |remaining| && remaining[j] == y;
      assert b < j ==> ByScore()(remaining[b], remaining[j]);
    }
  }

  lemma {:induction false} RemoveSorted(s: seq<Item>, x: Item)
    requires x in s && Sorted(s, ByScore())
    ensures Sorted(Remove(s, x), ByScore())
    decreases |s|
  {
    if s[0] != x {
      RemoveSorted(s[1..], x);
      RemoveMultiset(s[1..], x);
      var rest := Remove(s[1..], x);
      forall j | 0 <= j < |rest| ensures ByScore()(s[0], rest[j]) {
        assert rest[j] in multiset(rest);
        assert rest[j] in s[1..];
      }
    }
  }

  lemma {:induction false} GreedyIsGreedy(ctx: Context, selected: seq<Item>, remaining: seq<Item>, limit: int)
    requires Sorted(remaining, ByScore())
    ensures IsGreedy(ctx, selected, remaining, Greedy(ctx, selected, remaining, limit))
    decreases |remaining|
  {
    if remaining != [] && |selected| < limit {
      var best := remaining[Best(ctx, selected, remaining)];
      BestBeats(ctx, selected, remaining);
      RemoveSorted(remaining, best);
      GreedyIsGreedy(ctx, selected + [best], Remove(remaining, best), limit);
      assert Greedy(ctx, selected, remaining, limit)[1..]
          == Greedy(ctx, selected + [best], Remove(remaining, best), limit);
    }
  }

  lemma {:induction false} GreedyPicks(
      ctx: Context, selected: seq<Item>, remaining: seq<Item>, picks: seq<Item>, k: nat, y: Item)
    requires IsGreedy(ctx, selected, remaining, picks)
    requires k < |picks| && y in multiset(remaining) - multiset(picks[..k])
    ensures Beats(ctx, selected + picks[..k], picks[k], y)
    decreases k
  {
    if k == 0 {
      assert selected + picks[..0] == selected;
      assert y in remaining;
    } else {
      RemoveMultiset(remaining, picks[0]);
      assert picks[..k] == [picks[0]] + picks[1..][..k - 1];
      GreedyPicks(ctx, selected + [picks[0]], Remove(remaining, picks[0]), picks[1..], k - 1, y);
      assert selected + picks[..k] == (selected + [picks[0]]) + picks[1..][..k - 1];
    }
  }

  /** Every pick is the best of all that was not picked before it, given the picks before it. */
  lemma RerankedPicksTheBest(ctx: Context, items: seq<Item>, limit: int, k: nat, y: Item)
    requires k < |Reranked(ctx, items, limit)|
    requires y in multiset(items) - multiset(Reranked(ctx, items, limit)[..k])
    ensures Beats(ctx, Reranked(ctx, items, limit)[..k], Reranked(ctx, items, limit)[k], y)
  {
    var remaining, picks := Sort(items, ByScore()), Reranked(ctx, items, limit);
    ByScoreOrders();
    SortSorted(items, ByScore());
    GreedyIsGreedy(ctx, [], remaining, limit);
    GreedyPicks(ctx, [], remaining, picks, k, y);
    assert [] + picks[..k] == picks[..k];
  }

  lemma ByScoreOrders()
    ensures TotalPreorder(ByScore())
  {
  }

  lemma {:induction false} GreedySize(ctx: Context, selected: seq<Item>, remaining: seq<Item>, limit: int)
    ensures |Greedy(ctx, selected, remaining, limit)|
         == (if limit <= |selected| then 0
             else if limit - |selected| < |remaining| then limit - |selected|
             else |remaining|)
    decreases |remaining|
  {
    if remaining != [] && |selected| < limit {
      var best := remaining[Best(ctx, selected, remaining)];
      GreedySize(ctx, selected + [best], Remove(remaining, best), limit);
    }
  }

  lemma {:induction false} GreedyDraws(ctx: Context, selected: seq<Item>, remaining: seq<Item>, limit: int)
    ensures multiset(Greedy(ctx, selected, remaining, limit)) <= multiset(remaining)
    decreases |remaining|
  {
    if remaining != [] && |selected| < limit {
      var best := remaining[Best(ctx, selected, remaining)];
      GreedyDraws(ctx, selected + [best], Remove(remaining, best), limit);
      RemoveMultiset(remaining, best);
    }
  }

  /** The result is drawn from the items without repetition and has exactly `min(limit, n)` of them. */
  lemma RerankedDraws(ctx: Context, items: seq<Item>, limit: int)
    ensures multiset(Reranked(ctx, items, limit)) <= multiset(items)
    ensures |Reranked(ctx, items, limit)| == (if limit <= 0 then 0 else if limit < |items| then limit else |items|)
  {
    GreedySize(ctx, [], Sort(items, ByScore()), limit);
    GreedyDraws(ctx, [], Sort(items, ByScore()), limit);
  }

  /** What was not yet picked when the `k`-th pick was made: the later picks and all that was left out. */
  ghost function Later(items: seq<Item>, picks: seq<Item>, k: nat): multiset<Item>
    requires k < |picks|
  {
    multiset(items) - multiset(picks[..k + 1])
  }

  lemma LaterTail(remaining: seq<Item>, picks: seq<Item>, k: nat)
    requires 0 < k < |picks| && picks[0] in remaining
    ensures Later(Remove(remaining, picks[0]), picks[1..], k - 1) == Later(remaining, picks, k)
  {
    RemoveMultiset(remaining, picks[0]);
    assert picks[..k + 1] == [picks[0]] + picks[1..][..k];
    assert multiset(picks[..k + 1]) == multiset{picks[0]} + multiset(picks[1..][..k]);
  }

  lemma FirstPick(ctx: Context, selected: seq<Item>, remaining: seq<Item>, picks: seq<Item>, y: Item)
    requires picks != [] && IsGreedy(ctx, selected, remaining, picks) && y in Later(remaining, picks, 0)
    ensures picks[0].score > y.score - 0.17
    ensures selected == [] ==> picks[0].score >= y.score
  {
    assert y in multiset(remaining);
    assert Beats(ctx, selected, picks[0], y);
  }

  lemma GreedyTail(ctx: Context, selected: seq<Item>, remaining: seq<Item>, picks: seq<Item>, k: nat)
    requires IsGreedy(ctx, selected, remaining, picks) && 0 < k < |picks|
    ensures picks[0] in remaining && picks[1..][k - 1] == picks[k]
    ensures IsGreedy(ctx, selected + [picks[0]], Remove(remaining, picks[0]), picks[1..])
  {
  }

  lemma {:induction false} GreedyDistortion(
      ctx: Context, selected: seq<Item>, remaining: seq<Item>, picks: seq<Item>, k: nat, y: Item)
    requires IsGreedy(ctx, selected, remaining, picks)
    requires k < |picks| && y in Later(remaining, picks, k)
    ensures picks[k].score > y.score - 0.17
    decreases k
  {
    if k == 0 {
      FirstPick(ctx, selected, remaining, picks, y);
    } else {
      GreedyTail(ctx, selected, remaining, picks, k);
      LaterTail(remaining, picks, k);
      GreedyDistortion(ctx, selected + [picks[0]], Remove(remaining, picks[0]), picks[1..], k - 1, y);
    }
  }

  /** Bounded distortion. Nothing ranked later, or left out, outscores a pick by 0.17 or more, and
      nothing at all outscores the first. */
  lemma RerankDistortion(ctx: Context, items: seq<Item>, limit: int, k: nat, y: Item)
    requires k < |Reranked(ctx, items, limit)| && y in Later(items, Reranked(ctx, items, limit), k)
    ensures Reranked(ctx, items, limit)[k].score > y.score - 0.17
    ensures k == 0 ==> Reranked(ctx, items, limit)[k].score >= y.score
  {
    var remaining := Sort(items, ByScore());
    ByScoreOrders();
    SortSorted(items, ByScore());
    GreedyIsGreedy(ctx, [], remaining, limit);
    GreedyDistortion(ctx, [], remaining, Reranked(ctx, items, limit), k, y);
    if k == 0 {
      FirstPick(ctx, [], remaining, Reranked(ctx, items, limit), y);
    }
  }

  lemma LaterPick(items: seq<Item>, picks: seq<Item>, i: nat, j: nat)
    requires i < j < |picks| && multiset(picks) <= multiset(items)
    ensures picks[j] in Later(items, picks, i)
  {
    assert picks == picks[..i + 1] + picks[i + 1..];
    assert picks[j] in picks[i + 1..];
  }

  /** In the served order, an earlier item's score exceeds any later one's less 0.17. */
  lemma RerankOrder(ctx: Context, items: seq<Item>, limit: int, i: nat, j: nat)
    requires i < j < |Reranked(ctx, items, limit)|
    ensures Reranked(ctx, items, limit)[i].score > Reranked(ctx, items, limit)[j].score - 0.17
  {
    var picks := Reranked(ctx, items, limit);
    RerankedDraws(ctx, items, limit);
    LaterPick(items, picks, i, j);
    RerankDistortion(ctx, items, limit, i, picks[j]);
  }

  function Plain(id: PostId, score: real): Item
  {
    Item(id, score, FromSource, Features(score, None, 0))
  }

  const tightContext := Context(map[0 := Some(0), 1 := Some(0), 2 := Some(1)], map[0 := 0, 1 := 0, 2 := 1])

  function TightItems(gap: real): (items: seq<Item>)
    ensures |items| == 3
  {
    [Plain(0, 1.0), Plain(1, 1.0), Plain(2, 1.0 - gap)]
  }

  /** The bound is the least possible: every smaller gap occurs, between a same-author same-topic
      follow-up and an unrelated item. */
  lemma DistortionIsTight(gap: real)
    requires 0.0 <= gap < 0.17
    ensures var items := TightItems(gap); (Reranked(tightContext, items, 3) == [items[0], items[2], items[1]])
    ensures TightItems(gap)[2].score == TightItems(gap)[1].score - gap
  {
    var a, b, c := Plain(0, 1.0), Plain(1, 1.0), Plain(2, 1.0 - gap);
    SortedAlready([a, b, c]);
    TightRun(tightContext, a, b, c);
  }

  lemma TightRun(ctx: Context, a: Item, b: Item, c: Item)
    requires ctx.AuthorOf(a.postId) == ctx.AuthorOf(b.postId) != ctx.AuthorOf(c.postId)
    requires ctx.TopicOf(a.postId) == ctx.TopicOf(b.postId) != ctx.TopicOf(c.postId)
    requires a.score == b.score >= c.score > b.score - 0.17
    ensures Greedy(ctx, [], [a, b, c], 3) == [a, c, b]
  {
    TightFirst(ctx, a, b, c);
    TightSecond(ctx, a, b, c);
    TightThird(ctx, a, b, c);
  }

  lemma TightFirst(ctx: Context, a: Item, b: Item, c: Item)
    requires a.score == b.score && a.score >= c.score
    ensures Greedy(ctx, [], [a, b, c], 3) == [a] + Greedy(ctx, [a], [b, c], 3)
  {
    BestIs(ctx, [], [a, b, c], 0);
    assert [] + [a] == [a];
    assert Remove([a, b, c], a) == [b, c];
    GreedyStep(ctx, [], [a, b, c], 3, 0);
  }

  lemma TightSecond(ctx: Context, a: Item, b: Item, c: Item)
    requires ctx.AuthorOf(a.postId) == ctx.AuthorOf(b.postId) != ctx.AuthorOf(c.postId)
    requires ctx.TopicOf(a.postId) == ctx.TopicOf(b.postId) != ctx.TopicOf(c.postId)
    requires c.score > b.score - 0.17
    ensures Greedy(ctx, [a], [b, c], 3) == [c] + Greedy(ctx, [a, c], [b], 3)
  {
    assert SeenTopics(ctx, [a]) == {ctx.TopicOf(a.postId)};
    assert b != c;
    BestIs(ctx, [a], [b, c], 1);
    assert [a] + [c] == [a, c];
    assert Remove([b, c], c) == [b];
    GreedyStep(ctx, [a], [b, c], 3, 1);
  }

  lemma TightThird(ctx: Context, a: Item, b: Item, c: Item)
    ensures Greedy(ctx, [a, c], [b], 3) == [b]
  {
    GreedyStep(ctx, [a, c], [b], 3, 0);
  }

  lemma {:induction false} SortedAlready(s: seq<Item>)
    requires Sorted(s, ByScore())
    ensures Sort(s, ByScore()) == s
    decreases |s|
  {
    if s != [] {
      SortedAlready(s[1..]);
      assert |s| > 1 ==> ByScore()(s[0], s[1]);
    }
  }

  lemma BestIs(ctx: Context, selected: seq<Item>, remaining: seq<Item>, i: nat)
    requires i < |remaining|
    requires forall j | 0 <= j < |remaining| ::
              Adjusted(ctx, selected, remaining[j]) <= Adjusted(ctx, selected, remaining[i])
    requires forall j | 0 <= j < i :: Adjusted(ctx, selected, remaining[j]) < Adjusted(ctx, selected, remaining[i])
    ensures Best(ctx, selected, remaining) == i
  {
  }

  // ---------------------------------------------------------------- only posts and scores matter

  /** Same post and same score, position by position; reasons and feature snapshots may differ. */
  ghost predicate Alike(a: seq<Item>, b: seq<Item>)
  {
    |a| == |b| && forall i | 0 <= i < |a| :: a[i].postId == b[i].postId && a[i].score == b[i].score
  }

  lemma AlikePenalty(ctx: Context, s: seq<Item>, t: seq<Item>, id: PostId)
    requires Alike(s, t)
    ensures Penalty(ctx, s, id) == Penalty(ctx, t, id)
  {
    forall topic ensures topic in SeenTopics(ctx, s) <==> topic in SeenTopics(ctx, t) {
      if topic in SeenTopics(ctx, s) {
        var i :| 0 <= i < |s| && ctx.TopicOf(s[i].postId) == topic;
        assert t[i] in t;
      }
      if topic in SeenTopics(ctx, t) {
        var i :| 0 <= i < |t| && ctx.TopicOf(t[i].postId) == topic;
        assert s[i] in s;
      }
    }
    assert SeenTopics(ctx, s) == SeenTopics(ctx, t);
  }

  lemma AlikeBest(ctx: Context, s: seq<Item>, t: seq<Item>, a: seq<Item>, b: seq<Item>)
    requires Alike(s, t) && Alike(a, b) && a != []
    ensures Best(ctx, s, a) == Best(ctx, t, b)
  {
    forall j | 0 <= j < |a| ensures Adjusted(ctx, s, a[j]) == Adjusted(ctx, t, b[j]) {
      AlikePenalty(ctx, s, t, a[j].postId);
    }
    BestIs(ctx, t, b, Best(ctx, s, a));
  }

  lemma RemoveBest(ctx: Context, selected: seq<Item>, remaining: seq<Item>)
    requires remaining != []
    ensures var k := Best(ctx, selected, remaining);
            Remove(remaining, remaining[k]) == remaining[..k] + remaining[k + 1..]
  {
    RemoveAt(remaining, Best(ctx, selected, remaining));
  }

  lemma AlikeRemove(ctx: Context, s: seq<Item>, t: seq<Item>, a: seq<Item>, b: seq<Item>)
    requires Alike(s, t) && Alike(a, b) && a != []
    ensures Alike(Remove(a, a[Best(ctx, s, a)]), Remove(b, b[Best(ctx, t, b)]))
  {
    AlikeBest(ctx, s, t, a, b);
    RemoveBest(ctx, s, a);
    RemoveBest(ctx, t, b);
    AlikeWithout(a, b, Best(ctx, s, a));
  }

  lemma AlikeWithout(a: seq<Item>, b: seq<Item>, k: nat)
    requires Alike(a, b) && k < |a|
    ensures Alike(a[..k] + a[k + 1..], b[..k] + b[k + 1..])
  {
  }

  lemma AlikeCons(a: seq<Item>, x: Item, a': seq<Item>, b: seq<Item>, y: Item, b': seq<Item>)
    requires Alike(a, b) && Alike(a', b') && x.postId == y.postId && x.score == y.score
    ensures Alike(a + [x], b + [y]) && Alike([x] + a', [y] + b')
  {
  }

  lemma {:induction false} AlikeGreedy(ctx: Context, s: seq<Item>, t: seq<Item>, a: seq<Item>, b: seq<Item>, limit: int)
    requires Alike(s, t) && Alike(a, b)
    ensures Alike(Greedy(ctx, s, a, limit), Greedy(ctx, t, b, limit))
    decreases |a|
  {
    if a != [] && |s| < limit {
      AlikeBest(ctx, s, t, a, b);
      AlikeRemove(ctx, s, t, a, b);
      var k := Best(ctx, s, a);
      AlikeCons(s, a[k], [], t, b[k], []);
      AlikeGreedy(ctx, s + [a[k]], t + [b[k]], Remove(a, a[k]), Remove(b, b[k]), limit);
      GreedyStep(ctx, s, a, limit, k);
      GreedyStep(ctx, t, b, limit, k);
      AlikeCons([], a[k], Greedy(ctx, s + [a[k]], Remove(a, a[k]), limit), [], b[k],
          Greedy(ctx, t + [b[k]], Remove(b, b[k]), limit));
    }
  }

  lemma {:induction false} AlikeInsert(x: Item, y: Item, a: seq<Item>, b: seq<Item>)
    requires x.postId == y.postId && x.score == y.score && Alike(a, b)
    ensures Alike(Insert(x, a, ByScore()), Insert(y, b, ByScore()))
    decreases |a|
  {
    if a != [] && !ByScore()(x, a[0]) {
      AlikeInsert(x, y, a[1..], b[1..]);
      AlikeCons([], a[0], Insert(x, a[1..], ByScore()), [], b[0], Insert(y, b[1..], ByScore()));
    } else {
      AlikeCons([], x, a, [], y, b);
    }
  }

  lemma {:induction false} AlikeSort(a: seq<Item>, b: seq<Item>)
    requires Alike(a, b)
    ensures Alike(Sort(a, ByScore()), Sort(b, ByScore()))
    decreases |a|
  {
    if a != [] {
      AlikeSort(a[1..], b[1..]);
      AlikeInsert(a[0], b[0], Sort(a[1..], ByScore()), Sort(b[1..], ByScore()));
    }
  }

  /** Items that agree on posts and scores are reranked into the same order. */
  lemma AlikeReranked(ctx: Context, a: seq<Item>, b: seq<Item>, limit: int)
    requires Alike(a, b)
    ensures Alike(Reranked(ctx, a, limit), Reranked(ctx, b, limit))
  {
    AlikeSort(a, b);
    AlikeGreedy(ctx, [], [], Sort(a, ByScore()), Sort(b, ByScore()), limit);
  }

  // ---------------------------------------------------------------- each penalty by itself

  /** `x` scores no less than `y`; the two are what is left, in that order. */
  predicate LeftTwo(x: Item, y: Item, remaining: seq<Item>)
  {
    remaining == [x, y] && x.score >= y.score
  }

  lemma SecondIff(ctx: Context, selected: seq<Item>, x: Item, y: Item, remaining: seq<Item>, penalty: real)
    requires LeftTwo(x, y, remaining)
    requires Penalty(ctx, selected, x.postId) == penalty && Penalty(ctx, selected, y.postId) == 0.0
    ensures Best(ctx, selected, remaining) == if x.score - y.score < penalty then 1 else 0
  {
    assert remaining[..1] == [x];
  }

  lemma OneSeen(ctx: Context, last: Item, selected: seq<Item>)
    requires selected == [last]
    ensures SeenTopics(ctx, selected) == {ctx.TopicOf(last.postId)}
  {
  }

  /** Right after one item of its author, on another topic, an item gives way to a fresh one that scores less
      than 0.08 below it. */
  lemma SameAuthorGivesWay(ctx: Context, last: Item, selected: seq<Item>, x: Item, y: Item, remaining: seq<Item>)
    requires selected == [last] && LeftTwo(x, y, remaining)
    requires ctx.AuthorOf(x.postId) == ctx.AuthorOf(last.postId) != ctx.AuthorOf(y.postId)
    requires ctx.TopicOf(x.postId) != ctx.TopicOf(last.postId) && ctx.TopicOf(last.postId) != ctx.TopicOf(y.postId)
    ensures Best(ctx, selected, remaining) == if x.score - y.score < 0.08 then 1 else 0
  {
    OneSeen(ctx, last, selected);
    SecondIff(ctx, selected, x, y, remaining, 0.08);
  }

  /** Right after one item of its topic, by another author, to one less than 0.09 below it: 0.05 for the
      streak and 0.04 for a topic seen among fewer than three. */
  lemma SameTopicGivesWay(ctx: Context, last: Item, selected: seq<Item>, x: Item, y: Item, remaining: seq<Item>)
    requires selected == [last] && LeftTwo(x, y, remaining)
    requires ctx.TopicOf(x.postId) == ctx.TopicOf(last.postId) != ctx.TopicOf(y.postId)
    requires ctx.AuthorOf(x.postId) != ctx.AuthorOf(last.postId) && ctx.AuthorOf(last.postId) != ctx.AuthorOf(y.postId)
    ensures Best(ctx, selected, remaining) == if x.score - y.score < 0.09 then 1 else 0
  {
    OneSeen(ctx, last, selected);
    SecondIff(ctx, selected, x, y, remaining, 0.09);
  }

  /** On a topic seen before but not last, and by another author than the last: less than 0.04 below it while
      fewer than three topics were seen, and never after. */
  lemma SeenTopicGivesWay(ctx: Context, selected: seq<Item>, x: Item, y: Item, remaining: seq<Item>, topics: nat)
    requires selected != [] && LeftTwo(x, y, remaining) && topics == |SeenTopics(ctx, selected)|
    requires ctx.TopicOf(x.postId) in SeenTopics(ctx, selected) && ctx.TopicOf(y.postId) !in SeenTopics(ctx, selected)
    requires var last := selected[|selected| - 1].postId;
             && ctx.TopicOf(x.postId) != ctx.TopicOf(last) && ctx.TopicOf(y.postId) != ctx.TopicOf(last)
             && ctx.AuthorOf(x.postId) != ctx.AuthorOf(last) && ctx.AuthorOf(last) != ctx.AuthorOf(y.postId)
    ensures Best(ctx, selected, remaining) == if topics < 3 && x.score - y.score < 0.04 then 1 else 0
  {
    SecondIff(ctx, selected, x, y, remaining, if topics < 3 then 0.04 else 0.0);
  }

}
