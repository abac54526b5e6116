/** Gathering the candidate pool (recommendation_api/app/features.py): several sources, first seen
    wins, and a backfill that over-fetches so that overlaps cannot underfill the pool. */
module Candidates {
  import opened Collections

  type PostId = nat

  datatype Post = Post(id: PostId, source: nat, rest: nat)

  /** What each query answers for this user: the semantic list, and the followed, topic and recent
      queries by limit. */
  datatype Sources = Sources(
    semantic: seq<Post>, followed: nat -> seq<Post>, topics: nat -> seq<Post>, recent: nat -> seq<Post>)

  /** The recent query answers with as many distinct eligible posts as its limit allows. Creation times
      may tie, so two limits need not give prefixes of one order. */
  ghost predicate RecentDrawsFrom(sources: Sources, eligible: set<PostId>)
  {
    forall n: nat :: DrawsUpTo(sources.recent(n), n, eligible)
  }

  ghost predicate DrawsUpTo(posts: seq<Post>, n: nat, eligible: set<PostId>)
  {
    DistinctIds(posts) && IdsOf(posts) <= eligible && |posts| == Smaller(n, |eligible|)
  }

  /** The dictionary by id is kept as its values in insertion order. */
  function IdsOf(s: seq<Post>): set<PostId>
  {
    set post | post in s :: post.id
  }

  /** The first post of each non-excluded id, in order of appearance. */
  function FirstSeen(stream: seq<Post>, excluded: set<PostId>): (r: seq<Post>)
  {
    if stream == [] then []
    else
      Add(FirstSeen(stream[..|stream| - 1], excluded), stream[|stream| - 1], excluded)
  }

  function Add(seen: seq<Post>, post: Post, excluded: set<PostId>): seq<Post>
  {
    if post.id in excluded || post.id in IdsOf(seen) then seen else seen + [post]
  }

  // ---------------------------------------------------------------- the source

  function Quota(poolSize: int): int
  {
    Larger(1, poolSize / 3)
  }

  function Batches(sources: Sources, poolSize: int): seq<Post>
    requires poolSize > 0
  {
    FirstN(sources.semantic, poolSize / 4)
    + sources.followed(Quota(poolSize))
    + sources.topics(Quota(poolSize))
    + sources.recent(Larger(1, poolSize - Quota(poolSize) - Quota(poolSize)))
  }

  method GatherCandidates(sources: Sources, poolSize: int, excluded: set<PostId>) returns (pool: seq<Post>)
    ensures pool == Pool(sources, poolSize, excluded)
  {
    if poolSize <= 0 {
      return [];
    }
    var byId := MergeSources(FirstN(sources.semantic, poolSize / 4), sources.followed(Quota(poolSize)),
                             sources.topics(Quota(poolSize)),
                             sources.recent(Larger(1, poolSize - Quota(poolSize) - Quota(poolSize))), excluded);
    if |byId| < poolSize {
      byId := Backfill(byId, sources.recent(poolSize + |byId| + |excluded|), poolSize, excluded,
          Batches(sources, poolSize));
    }
    pool := FirstN(byId, poolSize);
  }

  /** The four sources in order of quality. */
  method MergeSources(
      semantic: seq<Post>, followed: seq<Post>, topics: seq<Post>, recent: seq<Post>, excluded: set<PostId>)
    returns (byId: seq<Post>)
    ensures byId == FirstSeen(semantic + followed + topics + recent, excluded)
  {
    assert [] + semantic == semantic;
    byId := Merge([], semantic, excluded, []);
    byId := Merge(byId, followed, excluded, semantic);
    byId := Merge(byId, topics, excluded, semantic + followed);
    byId := Merge(byId, recent, excluded, semantic + followed + topics);
  }

  /** One source's posts go in; the first seen of each id sticks. */
  method Merge(
      byId: seq<Post>, batch: seq<Post>, excluded: set<PostId>, ghost before: seq<Post>)
    returns (next: seq<Post>)
    requires byId == FirstSeen(before, excluded)
    ensures next == FirstSeen(before + batch, excluded)
  {
    next := byId;
    assert before + batch[..0] == before;
    for i := 0 to |batch|
      invariant next == FirstSeen(before + batch[..i], excluded)
    {
      SeenNext(before, batch, i, excluded);
      next := Put(next, batch[i], excluded);
    }
    assert before + batch[..|batch|] == before + batch;
  }

  method Put(byId: seq<Post>, post: Post, excluded: set<PostId>) returns (next: seq<Post>)
    ensures next == Add(byId, post, excluded)
  {
    next := byId;
    if post.id !in excluded && post.id !in IdsOf(byId) {
      next := byId + [post];
    }
  }

  /** Posts of the backfill go in until the pool is full. */
  method Backfill(byId: seq<Post>, backfill: seq<Post>, poolSize: int, excluded: set<PostId>, ghost before: seq<Post>)
    returns (next: seq<Post>)
    requires byId == FirstSeen(before, excluded) && |byId| < poolSize
    ensures next == FirstN(FirstSeen(before + backfill, excluded), poolSize)
  {
    next := byId;
    assert before + backfill[..0] == before;
    for i := 0 to |backfill|
      invariant next == FirstSeen(before + backfill[..i], excluded) && |next| < poolSize
    {
      SeenNext(before, backfill, i, excluded);
      next := Put(next, backfill[i], excluded);
      if |next| >= poolSize {
        SeenPrefix(before, backfill, i + 1, excluded, poolSize);
        return next;
      }
    }
    assert before + backfill[..|backfill|] == before + backfill;
  }

  lemma SeenNext(before: seq<Post>, more: seq<Post>, i: nat, excluded: set<PostId>)
    requires i < |more|
    ensures var seen := FirstSeen(before + more[..i], excluded);
            FirstSeen(before + more[..i + 1], excluded) == Add(seen, more[i], excluded)
  {
    SeenSnoc(before + more[..i], more[i], excluded);
    assert before + more[..i + 1] == (before + more[..i]) + [more[i]];
  }

  lemma SeenPrefix(before: seq<Post>, more: seq<Post>, i: nat, excluded: set<PostId>, n: nat)
    requires i <= |more| && |FirstSeen(before + more[..i], excluded)| == n
    ensures FirstN(FirstSeen(before + more, excluded), n) == FirstSeen(before + more[..i], excluded)
  {
    SeenGrows(before + more[..i], more[i..], excluded);
    assert before + more[..i] + more[i..] == before + more;
  }

  lemma SeenSnoc(stream: seq<Post>, post: Post, excluded: set<PostId>)
    ensures FirstSeen(stream + [post], excluded)
         == Add(FirstSeen(stream, excluded), post, excluded)
  {
    assert (stream + [post])[..|stream|] == stream;
  }

  /** Reading more of a stream only appends. */
  lemma {:induction false} SeenGrows(stream: seq<Post>, more: seq<Post>, excluded: set<PostId>)
    ensures |FirstSeen(stream, excluded)| <= |FirstSeen(stream + more, excluded)|
    ensures FirstSeen(stream + more, excluded)[..|FirstSeen(stream, excluded)|] == FirstSeen(stream, excluded)
    decreases |more|
  {
    if more == [] {
      assert stream + more == stream;
    } else {
      SeenGrows(stream, more[..|more| - 1], excluded);
      SeenSnoc(stream + more[..|more| - 1], more[|more| - 1], excluded);
      assert stream + more == (stream + more[..|more| - 1]) + [more[|more| - 1]];
    }
  }

  // ---------------------------------------------------------------- the pool

  function Pool(sources: Sources, poolSize: int, excluded: set<PostId>): seq<Post>
  {
    if poolSize <= 0 then [] else Filled(Batches(sources, poolSize), sources.recent, poolSize, excluded)
  }

  /** The batches' first seen posts, backfilled when they fall short. */
  function Filled(batches: seq<Post>, recent: nat -> seq<Post>, n: nat, excluded: set<PostId>): seq<Post>
  {
    var seen := FirstSeen(batches, excluded);
    if |seen| >= n then FirstN(seen, n) else FirstN(FirstSeen(batches + recent(n + |seen| + |excluded|), excluded), n)
  }

  /** The result is exactly the first seen posts, each once, none excluded. */
  lemma {:induction false} SeenIsMeant(stream: seq<Post>, excluded: set<PostId>, id: PostId)
    ensures id in IdsOf(FirstSeen(stream, excluded)) <==> id in IdsOf(stream) && id !in excluded
    decreases |stream|
  {
    if stream != [] {
      var init, last := stream[..|stream| - 1], stream[|stream| - 1];
      SeenIsMeant(init, excluded, id);
      assert stream == init + [last];
      var rest := FirstSeen(init, excluded);
      SplitIds(init, [last], id);
      SplitIds(rest, [last], id);
    }
  }

  lemma SplitIds(a: seq<Post>, b: seq<Post>, id: PostId)
    ensures id in IdsOf(a + b) <==> id in IdsOf(a) || id in IdsOf(b)
  {
    if id in IdsOf(a + b) {
      var post :| post in a + b && post.id == id;
      assert post in a || post in b;
    }
    if id in IdsOf(a) {
      var post :| post in a && post.id == id;
      assert post in a + b;
    }
    if id in IdsOf(b) {
      var post :| post in b && post.id == id;
      assert post in a + b;
    }
  }

  ghost predicate DistinctIds(s: seq<Post>)
  {
    forall i, j | 0 <= i < j < |s| :: s[i].id != s[j].id
  }

  lemma {:induction false} SeenDistinct(stream: seq<Post>, excluded: set<PostId>)
    ensures DistinctIds(FirstSeen(stream, excluded))
    decreases |stream|
  {
    if stream != [] {
      SeenDistinct(stream[..|stream| - 1], excluded);
    }
  }

  lemma {:induction false} DistinctCount(s: seq<Post>)
    requires DistinctIds(s)
    ensures |IdsOf(s)| == |s|
    decreases |s|
  {
    if s != [] {
      var init, last := s[..|s| - 1], s[|s| - 1];
      DistinctCount(init);
      assert s == init + [last];
      assert IdsOf(s) == IdsOf(init) + {last.id};
    }
  }

  /** First seen wins: of the posts with one id the earliest in the stream is kept. */
  lemma {:induction false} FirstSeenWins(stream: seq<Post>, excluded: set<PostId>, i: nat)
    requires i < |stream| && stream[i].id !in excluded && forall j | 0 <= j < i :: stream[j].id != stream[i].id
    ensures stream[i] in FirstSeen(stream, excluded)
    decreases |stream|
  {
    var init := stream[..|stream| - 1];
    if i < |init| {
      FirstSeenWins(init, excluded, i);
    } else {
      SeenIsMeant(init, excluded, stream[i].id);
    }
  }

  lemma SeenIds(stream: seq<Post>, excluded: set<PostId>)
    ensures IdsOf(FirstSeen(stream, excluded)) == IdsOf(stream) - excluded
    ensures |FirstSeen(stream, excluded)| == |IdsOf(stream) - excluded|
  {
    forall id ensures id in IdsOf(FirstSeen(stream, excluded)) <==> id in IdsOf(stream) && id !in excluded {
      SeenIsMeant(stream, excluded, id);
    }
    SeenDistinct(stream, excluded);
    DistinctCount(FirstSeen(stream, excluded));
    assert IdsOf(FirstSeen(stream, excluded)) == IdsOf(stream) - excluded;
  }

  lemma IdsAppend(a: seq<Post>, b: seq<Post>)
    ensures IdsOf(a + b) == IdsOf(a) + IdsOf(b)
  {
    forall id ensures id in IdsOf(a + b) <==> id in IdsOf(a) + IdsOf(b) {
      SplitIds(a, b, id);
    }
  }

  lemma SetMinus(part: set<PostId>, whole: set<PostId>, excluded: set<PostId>)
    requires part <= whole
    ensures |part| - |excluded| <= |whole - excluded|
  {
    SubsetCount(part, (whole - excluded) + excluded);
  }

  /** The over-fetch is enough: after `n + |seen| + |excluded|` recent posts, either `n` are fresh or
      every eligible post was fetched. */
  lemma OverFetchFills(batches: seq<Post>, fetched: seq<Post>, n: nat, excluded: set<PostId>, eligible: set<PostId>)
    requires DrawsUpTo(fetched, n + |FirstSeen(batches, excluded)| + |excluded|, eligible)
    ensures |FirstSeen(batches + fetched, excluded)| >= n || IdsOf(fetched) == eligible
  {
    SeenIds(batches + fetched, excluded);
    IdsAppend(batches, fetched);
    DistinctCount(fetched);
    SetMinus(IdsOf(fetched), IdsOf(batches + fetched), excluded);
    SubsetCount(IdsOf(fetched), eligible);
  }

  /** Every id a source offers and the request does not exclude. */
  function Offered(sources: Sources, poolSize: int, excluded: set<PostId>, eligible: set<PostId>): set<PostId>
    requires poolSize > 0
  {
    IdsOf(Batches(sources, poolSize)) + eligible - excluded
  }

  lemma PrefixOf(s: seq<Post>, n: nat)
    requires DistinctIds(s)
    ensures DistinctIds(FirstN(s, n)) && IdsOf(FirstN(s, n)) <= IdsOf(s)
  {
    forall id | id in IdsOf(FirstN(s, n)) ensures id in IdsOf(s) {
      var post :| post in FirstN(s, n) && post.id == id;
      assert post in s;
    }
  }

  /** Distinct ids, all of them offered, as many as the size allows. */
  ghost predicate FullPool(pool: seq<Post>, size: nat, offered: set<PostId>)
  {
    DistinctIds(pool) && IdsOf(pool) <= offered && |pool| == Smaller(size, |offered|)
  }

  lemma PoolOf(stream: seq<Post>, poolSize: nat, excluded: set<PostId>, offered: set<PostId>)
    requires IdsOf(stream) - excluded <= offered
    requires |FirstSeen(stream, excluded)| >= poolSize || IdsOf(stream) - excluded == offered
    ensures FullPool(FirstN(FirstSeen(stream, excluded), poolSize), poolSize, offered)
  {
    SeenDistinct(stream, excluded);
    SeenIds(stream, excluded);
    PrefixOf(FirstSeen(stream, excluded), poolSize);
    SubsetCount(IdsOf(stream) - excluded, offered);
  }

  lemma EnoughSeen(batches: seq<Post>, n: nat, excluded: set<PostId>, eligible: set<PostId>)
    requires |FirstSeen(batches, excluded)| >= n
    ensures FullPool(FirstN(FirstSeen(batches, excluded), n), n, IdsOf(batches) + eligible - excluded)
  {
    PoolOf(batches, n, excluded, IdsOf(batches) + eligible - excluded);
  }

  lemma BackfilledPool(batches: seq<Post>, fetched: seq<Post>, n: nat, excluded: set<PostId>, eligible: set<PostId>)
    requires DrawsUpTo(fetched, n + |FirstSeen(batches, excluded)| + |excluded|, eligible)
    ensures FullPool(FirstN(FirstSeen(batches + fetched, excluded), n), n, IdsOf(batches) + eligible - excluded)
  {
    OverFetchFills(batches, fetched, n, excluded, eligible);
    IdsAppend(batches, fetched);
    PoolOf(batches + fetched, n, excluded, IdsOf(batches) + eligible - excluded);
  }

  lemma FilledPool(batches: seq<Post>, recent: nat -> seq<Post>, n: nat, excluded: set<PostId>, eligible: set<PostId>)
    requires forall k: nat :: DrawsUpTo(recent(k), k, eligible)
    ensures FullPool(Filled(batches, recent, n, excluded), n, IdsOf(batches) + eligible - excluded)
  {
    var seen := FirstSeen(batches, excluded);
    if |seen| >= n {
      EnoughSeen(batches, n, excluded, eligible);
    } else {
      var k: nat := n + |seen| + |excluded|;
      assert DrawsUpTo(recent(k), k, eligible);
      BackfilledPool(batches, recent(k), n, excluded, eligible);
    }
  }

  /** No underfill and no surprise: distinct ids, all offered, none excluded, and exactly as many as the
      pool size allows of the ids that any source offers. */
  lemma PoolNeverUnderfills(sources: Sources, poolSize: int, excluded: set<PostId>, eligible: set<PostId>)
    requires poolSize > 0 && RecentDrawsFrom(sources, eligible)
    ensures FullPool(Pool(sources, poolSize, excluded), poolSize, Offered(sources, poolSize, excluded, eligible))
  {
    FilledPool(Batches(sources, poolSize), sources.recent, poolSize, excluded, eligible);
  }

  /** When every source draws from the eligible posts, the size is exactly the smaller of the pool size
      and the number of eligible posts not excluded. */
  lemma PoolSize(sources: Sources, poolSize: int, excluded: set<PostId>, eligible: set<PostId>)
    requires poolSize > 0 && RecentDrawsFrom(sources, eligible)
    requires IdsOf(Batches(sources, poolSize)) <= eligible
    ensures |Pool(sources, poolSize, excluded)| == Smaller(poolSize, |eligible - excluded|)
    ensures IdsOf(Pool(sources, poolSize, excluded)) <= eligible - excluded
  {
    PoolNeverUnderfills(sources, poolSize, excluded, eligible);
    assert Offered(sources, poolSize, excluded, eligible) == eligible - excluded;
  }

  // ---------------------------------------------------------------- the queries in numbers

  /** A quarter of the pool is taken from the semantic list; a third is asked of the followed and of the topic
      query, and the rest of the recent one, at least one each. */
  lemma QueriesInNumbers(sources: Sources, poolSize: int, third: nat, rest: nat)
    requires poolSize >= 1
    requires third == (if poolSize < 3 then 1 else poolSize / 3)
    requires rest == (if poolSize <= 2 * third then 1 else poolSize - 2 * third)
    ensures Batches(sources, poolSize)
         == (if |sources.semantic| <= poolSize / 4 then sources.semantic else sources.semantic[..poolSize / 4])
            + sources.followed(third) + sources.topics(third) + sources.recent(rest)
  {
  }

}
