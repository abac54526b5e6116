/** The resumable embedding rebuild (workers/nlp_worker/app/rebuild.py, repository.py,
    embedding_worker.py): keyset pages over posts that move while it runs, bounded retries, and a
    checkpoint written only after a batch in which every post succeeded. */
module Rebuild {
  import opened Options
  import opened Sorting

  type PostId = nat

  /** The position of a post in the paging order, and what the checkpoint file holds. */
  datatype Key = Key(at: nat, id: PostId)

  datatype Post = Post(id: PostId, content: nat, hasTopics: bool, published: bool, updatedAt: nat)

  /** The two tables the rebuild touches, and the database clock. `features` holds one entry per post and
      content hash of the current encoder. */
  datatype Db = Db(posts: seq<Post>, features: set<(PostId, nat)>, clock: nat)

  datatype Status = Created | Present | FellBack

  /** How one `process` call goes: it works, the text is invalid, the encoder or the insert fails, or it
      raises or the process dies, possibly after some of its writes. */
  datatype Outcome =
    | Works
    | InvalidText
    | EncoderFails
    | RaisesAfter(topics: bool, stored: bool)
    | DiesAfter(topics: bool, stored: bool)

  /** Before an attempt somebody may write a post; then the attempt goes as `outcome` says. */
  datatype Happening = Happening(write: Option<Post>, outcome: Outcome)

  datatype Answer = Done(status: Status) | GaveUp | Died

  datatype Counts = Counts(processed: nat, created: nat, present: nat, fallback: nat, failed: nat)

  predicate KeyLeq(a: Key, b: Key)
  {
    a.at < b.at || (a.at == b.at && a.id <= b.id)
  }

  function KeyOf(post: Post): Key
  {
    Key(post.updatedAt, post.id)
  }

  function ByKey(): (Post, Post) -> bool
  {
    (a: Post, b: Post) => KeyLeq(KeyOf(a), KeyOf(b))
  }

  /** `(updated_at, id) > cursor`, or no cursor yet. */
  predicate After(post: Post, cursor: Option<Key>)
  {
    cursor.None? || !KeyLeq(KeyOf(post), cursor.value)
  }

  function Beyond(posts: seq<Post>, cursor: Option<Key>): (r: seq<Post>)
  {
    if posts == [] then []
    else (if posts[0].published && After(posts[0], cursor) then [posts[0]] else []) + Beyond(posts[1..], cursor)
  }

  /** `fetch_batch`: the first `limit` published posts beyond the cursor. */
  function Page(posts: seq<Post>, cursor: Option<Key>, limit: nat): (page: seq<Post>)
    ensures |page| <= limit
  {
    var all := Sort(Beyond(posts, cursor), ByKey());
    if |all| <= limit then all else all[..limit]
  }

  /** `ensure_topics`: writes only where there are none; the trigger then moves the post to now. */
  function EnsureTopics(posts: seq<Post>, id: PostId, now: nat): (r: seq<Post>)
    ensures |r| == |posts|
  {
    if posts == [] then []
    else
      [Settled(posts[0], id, now)] + EnsureTopics(posts[1..], id, now)
  }

  function Settled(post: Post, id: PostId, now: nat): Post
  {
    if post.id == id && !post.hasTopics then post.(hasTopics := true, updatedAt := now) else post
  }

  /** Somebody writes a post: a new row, or new values in its row, dated now. */
  function Write(posts: seq<Post>, post: Post, now: nat): (r: seq<Post>)
  {
    if posts == [] then [post.(updatedAt := now)]
    else if posts[0].id == post.id then [post.(updatedAt := now)] + Without(posts[1..], post.id)
    else [posts[0]] + Write(posts[1..], post, now)
  }

  function Without(posts: seq<Post>, id: PostId): (r: seq<Post>)
  {
    if posts == [] then []
    else (if posts[0].id == id then [] else [posts[0]]) + Without(posts[1..], id)
  }

  function WithTopics(db: Db, id: PostId): Db
  {
    Db(EnsureTopics(db.posts, id, db.clock + 1), db.features, db.clock + 1)
  }

  function WithFeature(db: Db, record: Post): Db
  {
    db.(features := db.features + {(record.id, record.content)})
  }

  function WithWrite(db: Db, post: Post): Db
  {
    Db(Write(db.posts, post, db.clock + 1), db.features, db.clock + 1)
  }

  /** The writes of one `process` call on the record as it was fetched. */
  function Processed(db: Db, record: Post, outcome: Outcome): Db
  {
    match outcome
    case Works => WithFeature(WithTopics(db, record.id), record)
    case InvalidText => WithTopics(db, record.id)
    case EncoderFails => WithTopics(db, record.id)
    case RaisesAfter(topics, stored) => Partly(db, record, topics, stored)
    case DiesAfter(topics, stored) => Partly(db, record, topics, stored)
  }

  function Partly(db: Db, record: Post, topics: bool, stored: bool): Db
  {
    var db' := if topics then WithTopics(db, record.id) else db;
    if stored then WithFeature(db', record) else db'
  }

  /** Its answer: an existing feature is found before the encoder is asked, but after the text check. */
  function AnswerOf(db: Db, record: Post, outcome: Outcome): Answer
  {
    match outcome
    case Works => Done(if (record.id, record.content) in db.features then Present else Created)
    case InvalidText => Done(FellBack)
    case EncoderFails => Done(if (record.id, record.content) in db.features then Present else FellBack)
    case RaisesAfter(_, _) => GaveUp
    case DiesAfter(_, _) => Died
  }

  // ---------------------------------------------------------------- what is kept

  ghost predicate OneRowPerId(posts: seq<Post>)
  {
    forall p, q | p in posts && q in posts && p.id == q.id :: p == q
  }

  ghost predicate DbValid(db: Db)
  {
    OneRowPerId(db.posts) && forall p | p in db.posts :: p.updatedAt <= db.clock
  }

  ghost predicate Indexed(db: Db, post: Post)
  {
    (post.id, post.content) in db.features
  }

  /** Every published post at or before the cursor has a feature for the content it has now. */
  ghost predicate Covered(db: Db, cursor: Option<Key>)
  {
    forall p | p in db.posts && p.published && !After(p, cursor) :: Indexed(db, p)
  }

  /** Nothing is lost from `a` to `b`, and a row of `b` is a row of `a` or dated later than `a`. */
  ghost predicate Grown(a: Db, b: Db)
  {
    a.features <= b.features && a.clock <= b.clock && forall p | p in b.posts :: p in a.posts || p.updatedAt > a.clock
  }

  function NoTopics(posts: seq<Post>): nat
  {
    if posts == [] then 0 else (if posts[0].hasTopics then 0 else 1) + NoTopics(posts[1..])
  }

  /** Between writes by others, rows change only by gaining topics. */
  ghost predicate Settling(a: Db, b: Db)
  {
    NoTopics(b.posts) <= NoTopics(a.posts) && (NoTopics(b.posts) == NoTopics(a.posts) ==> b.posts == a.posts)
  }

  lemma {:induction false} EnsureOrigin(posts: seq<Post>, id: PostId, now: nat, p: Post) returns (q: Post)
    requires p in EnsureTopics(posts, id, now)
    ensures q in posts && p == Settled(q, id, now)
    decreases |posts|
  {
    if p == Settled(posts[0], id, now) {
      q := posts[0];
    } else {
      assert p in EnsureTopics(posts[1..], id, now);
      q := EnsureOrigin(posts[1..], id, now, p);
    }
  }

  lemma {:induction false} EnsureSettles(posts: seq<Post>, id: PostId, now: nat)
    ensures NoTopics(EnsureTopics(posts, id, now)) <= NoTopics(posts)
    ensures NoTopics(EnsureTopics(posts, id, now)) == NoTopics(posts) ==> EnsureTopics(posts, id, now) == posts
    decreases |posts|
  {
    if posts != [] {
      EnsureSettles(posts[1..], id, now);
      assert posts == [posts[0]] + posts[1..];
    }
  }

  lemma {:induction false} WithoutOrigin(posts: seq<Post>, id: PostId, p: Post)
    requires p in Without(posts, id)
    ensures p in posts && p.id != id
    decreases |posts|
  {
    if !(p == posts[0] && p.id != id) {
      assert p in Without(posts[1..], id);
      WithoutOrigin(posts[1..], id, p);
    }
  }

  lemma {:induction false} WriteOrigin(posts: seq<Post>, post: Post, now: nat, p: Post)
    requires p in Write(posts, post, now)
    ensures p == post.(updatedAt := now) || (p in posts && p.id != post.id)
    decreases |posts|
  {
    if posts != [] {
      if posts[0].id == post.id {
        if p in Without(posts[1..], post.id) {
          WithoutOrigin(posts[1..], post.id, p);
        }
      } else if p != posts[0] {
        assert p in Write(posts[1..], post, now);
        WriteOrigin(posts[1..], post, now, p);
      }
    }
  }

  lemma TopicsKeep(db: Db, id: PostId)
    requires DbValid(db)
    ensures DbValid(WithTopics(db, id)) && Grown(db, WithTopics(db, id)) && Settling(db, WithTopics(db, id))
  {
    EnsureSettles(db.posts, id, db.clock + 1);
    var posts := WithTopics(db, id).posts;
    forall p | p in posts ensures (p in db.posts || p.updatedAt > db.clock) && p.updatedAt <= db.clock + 1 {
      var q := EnsureOrigin(db.posts, id, db.clock + 1, p);
    }
    TopicsKeepRows(db.posts, id, db.clock + 1);
  }

  lemma TopicsKeepRows(posts: seq<Post>, id: PostId, now: nat)
    requires OneRowPerId(posts)
    ensures OneRowPerId(EnsureTopics(posts, id, now))
  {
    var next := EnsureTopics(posts, id, now);
    forall p, q | p in next && q in next && p.id == q.id ensures p == q {
      var p' := EnsureOrigin(posts, id, now, p);
      var q' := EnsureOrigin(posts, id, now, q);
      assert p' == q';
    }
  }

  lemma WriteKeeps(db: Db, post: Post)
    requires DbValid(db)
    ensures DbValid(WithWrite(db, post)) && Grown(db, WithWrite(db, post))
  {
    var now, next := db.clock + 1, WithWrite(db, post);
    forall p | p in next.posts ensures p == post.(updatedAt := now) || (p in db.posts && p.id != post.id) {
      WriteOrigin(db.posts, post, now, p);
    }
  }

  lemma ProcessedKeeps(db: Db, record: Post, outcome: Outcome)
    requires DbValid(db)
    ensures DbValid(Processed(db, record, outcome))
    ensures Grown(db, Processed(db, record, outcome)) && Settling(db, Processed(db, record, outcome))
  {
    TopicsKeep(db, record.id);
  }

  /** What any stretch of processing does: it ends sound, loses nothing, and unless somebody else wrote
      a post, posts changed only by gaining topics. */
  ghost predicate Progress(a: Db, left: nat, b: Db, leftAtB: nat)
  {
    DbValid(b) && Grown(a, b) && leftAtB <= left && (leftAtB == left ==> Settling(a, b))
  }

  lemma Progresses(a: Db, leftAtA: nat, b: Db, leftAtB: nat, c: Db, leftAtC: nat)
    requires Progress(a, leftAtA, b, leftAtB) && Progress(b, leftAtB, c, leftAtC)
    ensures Progress(a, leftAtA, c, leftAtC)
  {
    Grows(a, b, c);
  }

  lemma Grows(a: Db, b: Db, c: Db)
    requires Grown(a, b) && Grown(b, c)
    ensures Grown(a, c)
  {
  }

  /** A success leaves the record's feature in the table, and only a creation is counted as one. */
  lemma ProcessedStores(db: Db, record: Post, outcome: Outcome)
    ensures var answer, next := AnswerOf(db, record, outcome), Processed(db, record, outcome);
            && (answer == Done(Created) || answer == Done(Present) ==> Indexed(next, record))
            && |next.features| >= |db.features| + (if answer == Done(Created) then 1 else 0)
  {
    var next := Processed(db, record, outcome);
    assert next.features == db.features || next.features == db.features + {(record.id, record.content)};
  }

  // ---------------------------------------------------------------- pages

  lemma {:induction false} BeyondIsMeant(posts: seq<Post>, cursor: Option<Key>, p: Post)
    ensures p in Beyond(posts, cursor) <==> p in posts && p.published && After(p, cursor)
    decreases |posts|
  {
    if posts != [] {
      BeyondIsMeant(posts[1..], cursor, p);
      assert posts == [posts[0]] + posts[1..];
    }
  }

  lemma ByKeyOrders()
    ensures TotalPreorder(ByKey())
  {
  }

  function Last(page: seq<Post>): Key
    requires page != []
  {
    KeyOf(page[|page| - 1])
  }

  /** A page holds exactly the published posts beyond the cursor up to its own last key. */
  lemma PageIsMeant(posts: seq<Post>, cursor: Option<Key>, limit: nat, p: Post)
    requires limit > 0 && OneRowPerId(posts)
    ensures var page := Page(posts, cursor, limit);
            && (page == [] ==> p !in Beyond(posts, cursor))
            && (page != [] ==> (p in page <==> p in Beyond(posts, cursor) && !After(p, Some(Last(page)))))
  {
    var all := Sort(Beyond(posts, cursor), ByKey());
    AllBeyond(posts, cursor);
    assert p in all <==> p in Beyond(posts, cursor);
    if all != [] {
      PageCut(all, limit, p);
    }
  }

  lemma AllBeyond(posts: seq<Post>, cursor: Option<Key>)
    requires OneRowPerId(posts)
    ensures var all := Sort(Beyond(posts, cursor), ByKey());
            Sorted(all, ByKey()) && OneRowPerId(all) && forall p :: p in all <==> p in Beyond(posts, cursor)
  {
    var beyond := Beyond(posts, cursor);
    ByKeyOrders();
    SortSorted(beyond, ByKey());
    SortMembers(beyond, ByKey());
    forall p | p in beyond ensures p in posts {
      BeyondIsMeant(posts, cursor, p);
    }
  }

  lemma PageCut(all: seq<Post>, limit: nat, p: Post)
    requires Sorted(all, ByKey()) && 0 < limit && all != [] && OneRowPerId(all)
    ensures var page := if |all| <= limit then all else all[..limit];
            p in page <==> p in all && !After(p, Some(Last(page)))
  {
    var page := if |all| <= limit then all else all[..limit];
    var last := page[|page| - 1];
    if p in page {
      var i :| 0 <= i < |page| && page[i] == p;
      assert i < |page| - 1 ==> ByKey()(all[i], all[|page| - 1]);
    }
    if p in all && KeyLeq(KeyOf(p), KeyOf(last)) {
      var i :| 0 <= i < |all| && all[i] == p;
      if i >= |page| {
        assert ByKey()(all[|page| - 1], all[i]);
        assert last in all && last.id == p.id;
      }
    }
  }

  lemma {:induction false} BeyondNarrows(posts: seq<Post>, cursor: Option<Key>, next: Key)
    requires cursor.Some? ==> KeyLeq(cursor.value, next)
    ensures |Beyond(posts, Some(next))| <= |Beyond(posts, cursor)|
    ensures (exists p :: p in Beyond(posts, cursor) && !After(p, Some(next)))
            ==> |Beyond(posts, Some(next))| < |Beyond(posts, cursor)|
    decreases |posts|
  {
    if posts != [] {
      BeyondNarrows(posts[1..], cursor, next);
    }
  }

  /** Paging on leaves strictly fewer posts beyond the cursor. */
  lemma PageShrinks(posts: seq<Post>, cursor: Option<Key>, limit: nat)
    requires limit > 0 && OneRowPerId(posts) && Page(posts, cursor, limit) != []
    ensures |Beyond(posts, Some(Last(Page(posts, cursor, limit))))| < |Beyond(posts, cursor)|
    ensures cursor.Some? ==> KeyLeq(cursor.value, Last(Page(posts, cursor, limit)))
  {
    var page := Page(posts, cursor, limit);
    var last := page[|page| - 1];
    PageIsMeant(posts, cursor, limit, last);
    BeyondIsMeant(posts, cursor, last);
    BeyondNarrows(posts, cursor, Last(page));
  }

  /** Coverage moves to the end of a page whose records were all stored, whatever moved meanwhile. */
  lemma CoverageAdvances(before: Db, after: Db, cursor: Option<Key>, limit: nat)
    requires limit > 0 && DbValid(before) && Grown(before, after) && Covered(before, cursor)
    requires Page(before.posts, cursor, limit) != []
    requires forall record | record in Page(before.posts, cursor, limit) :: Indexed(after, record)
    ensures Covered(after, Some(Last(Page(before.posts, cursor, limit))))
    ensures CursorPast(after, Some(Last(Page(before.posts, cursor, limit))))
  {
    var page := Page(before.posts, cursor, limit);
    var last := page[|page| - 1];
    PageIsMeant(before.posts, cursor, limit, last);
    BeyondIsMeant(before.posts, cursor, last);
    forall p | p in after.posts && p.published && !After(p, Some(Last(page))) ensures Indexed(after, p) {
      assert p in before.posts;
      PageIsMeant(before.posts, cursor, limit, p);
      BeyondIsMeant(before.posts, cursor, p);
    }
  }

  ghost predicate CursorPast(db: Db, cursor: Option<Key>)
  {
    cursor.Some? ==> cursor.value.at <= db.clock
  }

  lemma CoverageStays(before: Db, after: Db, cursor: Option<Key>)
    requires Grown(before, after) && Covered(before, cursor) && CursorPast(before, cursor)
    ensures Covered(after, cursor) && CursorPast(after, cursor)
  {
  }

  ghost predicate AllIndexed(db: Db)
  {
    forall p | p in db.posts && p.published :: Indexed(db, p)
  }

  /** When no page is left, every published post has its feature. */
  lemma NothingBeyond(db: Db, cursor: Option<Key>, limit: nat)
    requires limit > 0 && OneRowPerId(db.posts) && Covered(db, cursor) && Page(db.posts, cursor, limit) == []
    ensures AllIndexed(db)
  {
    forall p | p in db.posts && p.published ensures Indexed(db, p) {
      PageIsMeant(db.posts, cursor, limit, p);
      BeyondIsMeant(db.posts, cursor, p);
    }
  }

  /** A write dated `at` keeps what the checkpoint promises exactly when the written post is not
      published, is dated beyond the checkpoint, or already has its feature: a transaction that commits
      late, with a date the checkpoint has passed, is skipped. */
  lemma LateWriteKeepsCoverageIff(db: Db, post: Post, at: nat, cursor: Option<Key>)
    requires Covered(db, cursor)
    ensures var written := post.(updatedAt := at);
            Covered(db.(posts := Write(db.posts, post, at)), cursor)
            <==> !post.published || After(written, cursor) || Indexed(db, post)
  {
    var written, posts := post.(updatedAt := at), Write(db.posts, post, at);
    WriteLands(db.posts, post, at);
    forall p | p in posts ensures p == written || p in db.posts {
      WriteOrigin(db.posts, post, at, p);
    }
  }

  /** A checkpoint that has passed the post dated 5; then a new post commits, dated 3. Every later page
      is empty, and the new post stays without a feature. */
  lemma LateWriteIsSkipped(limit: nat)
    ensures var db := Db([Post(1, 0, true, true, 5)], {(1, 0)}, 5);
            var cursor := Some(Key(5, 1));
            var late := Post(2, 0, true, true, 3);
            var db' := db.(posts := Write(db.posts, late, 3));
            Covered(db, cursor) && Page(db'.posts, cursor, limit) == [] && late in db'.posts && !Indexed(db', late)
  {
    var first, late := Post(1, 0, true, true, 5), Post(2, 0, true, true, 3);
    var cursor := Some(Key(5, 1));
    assert Write([], late, 3) == [late] && [first][1..] == [];
    var posts := Write([first], late, 3);
    assert posts == [first, late] && posts[1..] == [late] && [late][1..] == [];
    assert Beyond([], cursor) == [] && Beyond([late], cursor) == [] && Beyond(posts, cursor) == [];
  }

  lemma {:induction false} WriteLands(posts: seq<Post>, post: Post, now: nat)
    ensures post.(updatedAt := now) in Write(posts, post, now)
    decreases |posts|
  {
    if posts != [] && posts[0].id != post.id {
      WriteLands(posts[1..], post, now);
    }
  }

  // ---------------------------------------------------------------- the runner

  predicate Healthy(happening: Happening)
  {
    happening.outcome == Works
  }

  predicate Succeeded(answer: Answer)
  {
    answer == Done(Created) || answer == Done(Present)
  }

  function Count(counts: Counts, answer: Answer): Counts
    requires !answer.Died?
  {
    match answer
    case Done(Created) => counts.(processed := counts.processed + 1, created := counts.created + 1)
    case Done(Present) => counts.(processed := counts.processed + 1, present := counts.present + 1)
    case Done(FellBack) => counts.(processed := counts.processed + 1, fallback := counts.fallback + 1,
        failed := counts.failed + 1)
    case GaveUp => counts.(processed := counts.processed + 1, failed := counts.failed + 1)
  }

  ghost predicate Balanced(counts: Counts)
  {
    counts.processed == counts.created + counts.present + counts.failed && counts.fallback <= counts.failed
  }

  ghost predicate HealthyFrom(world: nat -> Happening, start: nat)
  {
    forall k: nat | k >= start :: Healthy(world(k))
  }

  /** The most attempts that `posts` posts can take: `maxRetries + 1` each. */
  function AtMost(maxRetries: nat, posts: nat): nat
  {
    if posts == 0 then 0 else AtMost(maxRetries, posts - 1) + maxRetries + 1
  }

  /** The attempts from `start` to `now` are no more than `posts` posts can take. */
  predicate Spent(start: nat, now: nat, maxRetries: nat, posts: nat)
  {
    start <= now <= start + AtMost(maxRetries, posts)
  }

  lemma OneMoreSpent(start: nat, middle: nat, now: nat, maxRetries: nat, posts: nat)
    requires Spent(start, middle, maxRetries, posts) && middle < now <= middle + maxRetries + 1
    ensures Spent(start, now, maxRetries, posts + 1)
  {
  }

  /** One attempt and `maxRetries` more for each post. */
  lemma SpentInNumbers(start: nat, now: nat, maxRetries: nat, posts: nat)
    ensures Spent(start, now, maxRetries, posts) <==> start <= now && now - start <= posts * (1 + maxRetries)
  {
    AtMostIs(maxRetries, posts);
  }

  lemma {:induction false} AtMostIs(maxRetries: nat, posts: nat)
    ensures AtMost(maxRetries, posts) == posts * (1 + maxRetries)
  {
    if posts > 0 {
      AtMostIs(maxRetries, posts - 1);
      assert posts * (1 + maxRetries) == (posts - 1) * (1 + maxRetries) + (1 + maxRetries);
    }
  }

  ghost predicate AllSucceeded(answers: seq<Answer>)
  {
    forall answer | answer in answers :: Succeeded(answer)
  }

  function CreatedIn(answers: seq<Answer>): nat
  {
    if answers == [] then 0
    else CreatedIn(answers[..|answers| - 1]) + if answers[|answers| - 1] == Done(Created) then 1 else 0
  }

  /** The process is alive and each record that succeeded is in the feature table. */
  ghost predicate StoredSoFar(db: Db, page: seq<Post>, answers: seq<Answer>)
  {
    && |answers| <= |page|
    && forall j | 0 <= j < |answers| :: !answers[j].Died? && (Succeeded(answers[j]) ==> Indexed(db, page[j]))
  }

  lemma StoredNext(before: Db, after: Db, page: seq<Post>, answers: seq<Answer>, answer: Answer)
    requires StoredSoFar(before, page, answers) && Grown(before, after) && |answers| < |page|
    requires !answer.Died? && (Succeeded(answer) ==> Indexed(after, page[|answers|]))
    ensures StoredSoFar(after, page, answers + [answer])
    ensures CreatedIn(answers + [answer]) == CreatedIn(answers) + if answer == Done(Created) then 1 else 0
  {
    assert (answers + [answer])[..|answers|] == answers;
    forall j | 0 <= j <= |answers| && Succeeded((answers + [answer])[j]) ensures Indexed(after, page[j]) {
      if j < |answers| {
        assert Succeeded(answers[j]);
        assert Indexed(before, page[j]);
      }
    }
  }

  lemma AllStored(db: Db, page: seq<Post>, answers: seq<Answer>)
    requires StoredSoFar(db, page, answers) && |answers| == |page| && AllSucceeded(answers)
    ensures forall record | record in page :: Indexed(db, record)
  {
    forall record | record in page ensures Indexed(db, record) {
      var j :| 0 <= j < |page| && page[j] == record;
      assert answers[j] in answers;
    }
  }

  datatype BatchEnd = Crashed | Stopped | Advanced

  predicate NotBefore(earlier: Option<Key>, later: Option<Key>)
  {
    earlier.Some? ==> later.Some? && KeyLeq(earlier.value, later.value)
  }

  /** Others have fewer writes left, or fewer posts lack topics, or fewer posts lie beyond the cursor. */
  predicate Shrinks(left: nat, a: Db, cursor: Option<Key>, leftAtB: nat, b: Db, cursorAtB: Option<Key>)
  {
    || leftAtB < left
    || (leftAtB == left && NoTopics(b.posts) < NoTopics(a.posts))
    || (leftAtB == left && NoTopics(b.posts) == NoTopics(a.posts)
        && |Beyond(b.posts, cursorAtB)| < |Beyond(a.posts, cursor)|)
  }

  lemma PageMeasure(left: nat, before: Db, leftAtB: nat, after: Db, cursor: Option<Key>, limit: nat)
    requires limit > 0 && DbValid(before) && Page(before.posts, cursor, limit) != []
    requires Progress(before, left, after, leftAtB)
    ensures Shrinks(left, before, cursor, leftAtB, after, Some(Last(Page(before.posts, cursor, limit))))
    ensures NotBefore(cursor, Some(Last(Page(before.posts, cursor, limit))))
  {
    PageShrinks(before.posts, cursor, limit);
  }

  /** After a page whose records were all stored the checkpoint may move to its end. */
  lemma PageAdvances(
      left: nat, before: Db, cursor: Option<Key>, leftAtB: nat, after: Db, page: seq<Post>, answers: seq<Answer>,
      limit: nat)
    requires limit > 0 && DbValid(before) && Covered(before, cursor) && page == Page(before.posts, cursor, limit) != []
    requires Progress(before, left, after, leftAtB)
    requires StoredSoFar(after, page, answers) && |answers| == |page| && AllSucceeded(answers)
    ensures Covered(after, Some(Last(page))) && CursorPast(after, Some(Last(page)))
    ensures Shrinks(left, before, cursor, leftAtB, after, Some(Last(page))) && NotBefore(cursor, Some(Last(page)))
  {
    AllStored(after, page, answers);
    CoverageAdvances(before, after, cursor, limit);
    PageMeasure(left, before, leftAtB, after, cursor, limit);
  }

  /** After any whole page the old checkpoint still tells the truth, and after a stored one the page's end. */
  lemma PageConcludes(
      left: nat, before: Db, cursor: Option<Key>, leftAtB: nat, after: Db, page: seq<Post>, answers: seq<Answer>,
      limit: nat)
    requires limit > 0 && DbValid(before) && Covered(before, cursor) && page == Page(before.posts, cursor, limit) != []
    requires CursorPast(before, cursor) && Progress(before, left, after, leftAtB)
    requires StoredSoFar(after, page, answers) && |answers| == |page|
    ensures DbValid(after) && Covered(after, cursor) && CursorPast(after, cursor) && NotBefore(cursor, cursor)
    ensures forall answer | answer in answers :: !answer.Died?
    ensures var end := Some(Last(page));
            AllSucceeded(answers) ==>
              && Covered(after, end) && CursorPast(after, end) && NotBefore(cursor, end)
              && Shrinks(left, before, cursor, leftAtB, after, end)
  {
    CoverageStays(before, after, cursor);
    if AllSucceeded(answers) {
      PageAdvances(left, before, cursor, leftAtB, after, page, answers, limit);
    }
  }

  /** `total` is `counts` and one more for every answer. */
  ghost predicate Tallied(counts: Counts, answers: seq<Answer>, total: Counts)
  {
    && total.processed == counts.processed + |answers|
    && total.created == counts.created + CreatedIn(answers)
    && total.present == counts.present + multiset(answers)[Done(Present)]
    && total.fallback == counts.fallback + multiset(answers)[Done(FellBack)]
    && total.failed == counts.failed + multiset(answers)[Done(FellBack)] + multiset(answers)[GaveUp]
  }

  lemma TalliedNext(counts: Counts, answers: seq<Answer>, total: Counts, answer: Answer)
    requires Tallied(counts, answers, total) && !answer.Died?
    ensures Tallied(counts, answers + [answer], Count(total, answer))
    ensures AllSucceeded(answers + [answer]) <==> AllSucceeded(answers) && Succeeded(answer)
  {
    assert (answers + [answer])[..|answers|] == answers;
    assert multiset(answers + [answer]) == multiset(answers) + multiset{answer};
  }

  lemma FourAnswers(answer: Answer)
    requires !answer.Died?
    ensures answer == Done(Created) || answer == Done(Present) || answer == Done(FellBack) || answer == GaveUp
  {
    match answer
    case Done(status) =>
      match status {
        case Created =>
        case Present =>
        case FellBack =>
      }
    case GaveUp =>
  }

  /** Every answer is counted once, and none as failed exactly when all succeeded. */
  lemma {:induction false} AnswersAddUp(answers: seq<Answer>)
    requires forall answer | answer in answers :: !answer.Died?
    ensures |answers| == CreatedIn(answers) + multiset(answers)[Done(Present)] + multiset(answers)[Done(FellBack)]
                         + multiset(answers)[GaveUp]
    ensures AllSucceeded(answers) <==> multiset(answers)[Done(FellBack)] == 0 && multiset(answers)[GaveUp] == 0
  {
    if answers == [] {
      assert multiset(answers) == multiset{};
    } else {
      var front, answer := answers[..|answers| - 1], answers[|answers| - 1];
      assert answers == front + [answer] && answer in answers;
      assert multiset(answers) == multiset(front) + multiset{answer};
      AnswersAddUp(front);
      FourAnswers(answer);
      assert AllSucceeded(answers) <==> AllSucceeded(front) && Succeeded(answer);
    }
  }

  lemma TallyBalances(counts: Counts, answers: seq<Answer>, total: Counts)
    requires Tallied(counts, answers, total) && Balanced(counts) && forall answer | answer in answers :: !answer.Died?
    ensures Balanced(total) && total.failed >= counts.failed
    ensures total.failed == counts.failed <==> AllSucceeded(answers)
  {
    AnswersAddUp(answers);
  }

  /** A run's tally of one batch: `recoverable` is false when some post failed. */
  method Tally(counts: Counts, answers: seq<Answer>) returns (total: Counts, recoverable: bool)
    requires Balanced(counts) && forall answer | answer in answers :: !answer.Died?
    ensures Balanced(total) && total.failed >= counts.failed
    ensures recoverable <==> total.failed == counts.failed
    ensures recoverable <==> AllSucceeded(answers)
    ensures total.processed == counts.processed + |answers|
    ensures total.created == counts.created + CreatedIn(answers)
    ensures total.present == counts.present + multiset(answers)[Done(Present)]
    ensures total.fallback == counts.fallback + multiset(answers)[Done(FellBack)]
    ensures total.failed == counts.failed + multiset(answers)[Done(FellBack)] + multiset(answers)[GaveUp]
  {
    total, recoverable := counts, true;
    for i := 0 to |answers|
      invariant Tallied(counts, answers[..i], total)
      invariant recoverable <==> AllSucceeded(answers[..i])
    {
      assert answers[..i + 1] == answers[..i] + [answers[i]];
      assert answers[i] in answers;
      TalliedNext(counts, answers[..i], total, answers[i]);
      total := Count(total, answers[i]);
      recoverable := recoverable && Succeeded(answers[i]);
    }
    assert answers[..|answers|] == answers;
    TallyBalances(counts, answers, total);
  }

  /** What happens outside: `world` says how the n-th attempt ever made goes, and others write at most
      `writesLeft` more posts. */
  class BatchRebuilder {
    const batchSize: nat
    const maxRetries: nat
    const world: nat -> Happening
    var db: Db
    var checkpoint: Option<Key>
    var attempts: nat
    var writesLeft: nat

    constructor (batchSize: nat, maxRetries: nat, world: nat -> Happening, db: Db, writesLeft: nat)
      ensures this.batchSize == batchSize && this.maxRetries == maxRetries && this.world == world
      ensures this.db == db && checkpoint == None && attempts == 0 && this.writesLeft == writesLeft
    {
      this.batchSize, this.maxRetries, this.world := batchSize, maxRetries, world;
      this.db, checkpoint, attempts, this.writesLeft := db, None, 0, writesLeft;
    }

    /** What survives a crash: the tables are sound and the checkpoint tells the truth. */
    ghost predicate Sound()
      reads this
    {
      DbValid(db) && Covered(db, checkpoint) && CursorPast(db, checkpoint)
    }

    /** One `process` call, after whatever somebody else writes first. */
    method Try(record: Post) returns (answer: Answer)
      requires DbValid(db)
      modifies this`db, this`attempts, this`writesLeft
      ensures Progress(old(db), old(writesLeft), db, writesLeft) && attempts == old(attempts) + 1
      ensures Succeeded(answer) ==> Indexed(db, record)
      ensures |db.features| >= |old(db).features| + (if answer == Done(Created) then 1 else 0)
      ensures Healthy(world(old(attempts))) ==> Succeeded(answer)
    {
      var happening := world(attempts);
      attempts := attempts + 1;
      if happening.write.Some? && writesLeft > 0 {
        writesLeft := writesLeft - 1;
        WriteKeeps(db, happening.write.value);
        db := WithWrite(db, happening.write.value);
      }
      ProcessedKeeps(db, record, happening.outcome);
      ProcessedStores(db, record, happening.outcome);
      Progresses(old(db), old(writesLeft), db, writesLeft, Processed(db, record, happening.outcome), writesLeft);
      answer := AnswerOf(db, record, happening.outcome);
      db := Processed(db, record, happening.outcome);
    }

    /** `one`: at most `maxRetries + 1` attempts; a fallback or an exception is retried. */
    method One(record: Post) returns (answer: Answer)
      requires DbValid(db)
      modifies this`db, this`attempts, this`writesLeft
      ensures Progress(old(db), old(writesLeft), db, writesLeft)
              && old(attempts) < attempts <= old(attempts) + maxRetries + 1
      ensures Succeeded(answer) ==> Indexed(db, record)
      ensures |db.features| >= |old(db).features| + (if answer == Done(Created) then 1 else 0)
      ensures Healthy(world(old(attempts))) ==> Succeeded(answer)
      ensures answer.GaveUp? || answer == Done(FellBack) ==> attempts == old(attempts) + maxRetries + 1
    {
      answer := Try(record);
      var attempt := 0;
      while !answer.Died? && !Succeeded(answer) && attempt < maxRetries
        invariant attempt <= maxRetries && attempts == old(attempts) + attempt + 1
        invariant Progress(old(db), old(writesLeft), db, writesLeft)
        invariant Succeeded(answer) ==> Indexed(db, record)
        invariant |db.features| >= |old(db).features| + (if answer == Done(Created) then 1 else 0)
        invariant Healthy(world(old(attempts))) ==> Succeeded(answer)
      {
        ghost var before, left := db, writesLeft;
        answer := Try(record);
        Progresses(old(db), old(writesLeft), before, left, db, writesLeft);
        attempt := attempt + 1;
      }
    }

    /** `asyncio.gather` over one page. */
    method Gather(page: seq<Post>, ghost start: nat, ghost done: nat) returns (answers: seq<Answer>, died: bool)
      requires DbValid(db) && Spent(start, attempts, maxRetries, done)
      modifies this`db, this`attempts, this`writesLeft
      ensures Progress(old(db), old(writesLeft), db, writesLeft)
      ensures !died ==> |answers| == |page| && StoredSoFar(db, page, answers)
      ensures |db.features| >= |old(db).features| + CreatedIn(answers)
      ensures old(attempts) <= attempts && (!died ==> Spent(start, attempts, maxRetries, done + |page|))
      ensures HealthyFrom(world, old(attempts)) ==> !died && AllSucceeded(answers)
    {
      answers, died := [], false;
      for i := 0 to |page|
        invariant |answers| == i && StoredSoFar(db, page, answers)
        invariant Progress(old(db), old(writesLeft), db, writesLeft)
        invariant |db.features| >= |old(db).features| + CreatedIn(answers)
        invariant old(attempts) <= attempts && Spent(start, attempts, maxRetries, done + i)
        invariant HealthyFrom(world, old(attempts)) ==> AllSucceeded(answers)
      {
        ghost var before, left, tried := db, writesLeft, attempts;
        var answer := One(page[i]);
        Progresses(old(db), old(writesLeft), before, left, db, writesLeft);
        OneMoreSpent(start, tried, attempts, maxRetries, done + i);
        if answer.Died? {
          died := true;
          return;
        }
        StoredNext(before, db, page, answers, answer);
        answers := answers + [answer];
      }
    }

    /** The end of a turn: count the answers, and move the checkpoint when every post succeeded. */
    method Conclude(
        page: seq<Post>, counts: Counts, answers: seq<Answer>, ghost before: Db, ghost left: nat, ghost start: nat)
      returns (total: Counts, end: BatchEnd)
      requires batchSize > 0 && page == Page(before.posts, checkpoint, batchSize) && page != []
      requires DbValid(before) && Covered(before, checkpoint) && CursorPast(before, checkpoint)
      requires Progress(before, left, db, writesLeft) && StoredSoFar(db, page, answers) && |answers| == |page|
      requires Balanced(counts) && counts.failed == 0
      requires Spent(start, attempts, maxRetries, counts.processed + |page|)
      modifies this`checkpoint
      ensures Sound() && NotBefore(old(checkpoint), checkpoint)
      ensures end != Crashed && Balanced(total) && (end == Advanced <==> total.failed == 0)
      ensures end == Advanced <==> AllSucceeded(answers)
      ensures Spent(start, attempts, maxRetries, total.processed)
      ensures total.created == counts.created + CreatedIn(answers)
      ensures end == Advanced ==> Shrinks(left, before, old(checkpoint), writesLeft, db, checkpoint)
    {
      PageConcludes(left, before, checkpoint, writesLeft, db, page, answers, batchSize);
      var recoverable;
      total, recoverable := Tally(counts, answers);
      if !recoverable {
        return total, Stopped;
      }
      checkpoint := Some(Last(page));
      end := Advanced;
    }

    /** One turn of the run's loop: a whole page, and the checkpoint when all of it succeeded. */
    method RunBatch(page: seq<Post>, counts: Counts, ghost start: nat) returns (total: Counts, end: BatchEnd)
      requires Sound() && batchSize > 0 && page == Page(db.posts, checkpoint, batchSize) && page != []
      requires Balanced(counts) && counts.failed == 0 && Spent(start, attempts, maxRetries, counts.processed)
      modifies this`db, this`checkpoint, this`attempts, this`writesLeft
      ensures Sound() && Grown(old(db), db) && NotBefore(old(checkpoint), checkpoint)
      ensures end != Crashed ==> Balanced(total) && (end == Advanced <==> total.failed == 0)
      ensures end != Crashed ==> total.created - counts.created <= |db.features| - |old(db).features|
      ensures old(attempts) <= attempts && (end != Crashed ==> Spent(start, attempts, maxRetries, total.processed))
      ensures end == Advanced ==> Shrinks(old(writesLeft), old(db), old(checkpoint), writesLeft, db, checkpoint)
      ensures HealthyFrom(world, old(attempts)) ==> end == Advanced
    {
      var answers, died := Gather(page, start, counts.processed);
      if died {
        CoverageStays(old(db), db, checkpoint);
        return counts, Crashed;
      }
      total, end := Conclude(page, counts, answers, old(db), old(writesLeft), start);
    }

    /** A whole run, from the checkpoint to the last page, the first failed batch, or a crash (None). */
    method Run() returns (result: Option<Counts>)
      requires Sound() && batchSize > 0
      modifies this`db, this`checkpoint, this`attempts, this`writesLeft
      ensures Sound() && Grown(old(db), db) && NotBefore(old(checkpoint), checkpoint)
      ensures result.Some? ==>
        && Balanced(result.value)
        && result.value.created <= |db.features| - |old(db).features|
        && Spent(old(attempts), attempts, maxRetries, result.value.processed)
        && (result.value.failed == 0 ==> AllIndexed(db))
      ensures HealthyFrom(world, old(attempts)) ==> result.Some? && result.value.failed == 0
    {
      var counts := Counts(0, 0, 0, 0, 0);
      var page := Page(db.posts, checkpoint, batchSize);
      while page != []
        invariant Sound() && Grown(old(db), db) && NotBefore(old(checkpoint), checkpoint)
        invariant page == Page(db.posts, checkpoint, batchSize)
        invariant Balanced(counts) && counts.failed == 0
        invariant counts.created <= |db.features| - |old(db).features|
        invariant Spent(old(attempts), attempts, maxRetries, counts.processed)
        decreases writesLeft, NoTopics(db.posts), |Beyond(db.posts, checkpoint)|
      {
        ghost var before := db;
        var end;
        counts, end := RunBatch(page, counts, old(attempts));
        Grows(old(db), before, db);
        match end
        case Crashed => return None;
        case Stopped => return Some(counts);
        case Advanced => page := Page(db.posts, checkpoint, batchSize);
      }
      NothingBeyond(db, checkpoint, batchSize);
      return Some(counts);
    }

    /** Runs again after every crash or failure, at most `lives` times, until one succeeds. */
    method Resume(lives: nat) returns (complete: bool)
      requires Sound() && batchSize > 0
      modifies this`db, this`checkpoint, this`attempts, this`writesLeft
      ensures Sound() && Grown(old(db), db) && NotBefore(old(checkpoint), checkpoint)
      ensures complete ==> AllIndexed(db)
    {
      complete := false;
      for life := 0 to lives
        invariant Sound() && Grown(old(db), db) && NotBefore(old(checkpoint), checkpoint) && !complete
      {
        ghost var before := db;
        var result := Run();
        Grows(old(db), before, db);
        if result.Some? && result.value.failed == 0 {
          return true;
        }
      }
    }
  }

  // ---------------------------------------------------------------- one attempt in words

  /** How an attempt is answered: an invalid text falls back whatever is stored; a failing encoder only when
      no feature of the record is stored yet. */
  lemma AttemptAnswers(db: Db, record: Post, outcome: Outcome)
    ensures AnswerOf(db, record, outcome) == Done(Created)
       <==> outcome == Works && !Indexed(db, record)
    ensures AnswerOf(db, record, outcome) == Done(Present)
       <==> (outcome == Works || outcome == EncoderFails) && Indexed(db, record)
    ensures AnswerOf(db, record, outcome) == Done(FellBack)
       <==> outcome == InvalidText || (outcome == EncoderFails && !Indexed(db, record))
    ensures AnswerOf(db, record, outcome) == GaveUp <==> outcome.RaisesAfter?
    ensures AnswerOf(db, record, outcome) == Died <==> outcome.DiesAfter?
  {
  }

  /** What it leaves: the feature when it works or got so far, topics when it got so far, and the clock moves
      exactly with the topics. */
  lemma AttemptLeaves(db: Db, record: Post, outcome: Outcome)
    ensures var next := Processed(db, record, outcome);
            var topics := (outcome.RaisesAfter? || outcome.DiesAfter?) ==> outcome.topics;
            var stored := outcome.Works? || ((outcome.RaisesAfter? || outcome.DiesAfter?) && outcome.stored);
            && next.features == (if stored then db.features + {(record.id, record.content)} else db.features)
            && next.clock == (if topics then db.clock + 1 else db.clock)
            && (!topics ==> next.posts == db.posts)
            && (topics ==> |next.posts| == |db.posts|
                           && forall i | 0 <= i < |db.posts| ::
                                next.posts[i] == if db.posts[i].id == record.id && !db.posts[i].hasTopics
                                                 then db.posts[i].(hasTopics := true, updatedAt := db.clock + 1)
                                                 else db.posts[i])
  {
    EnsuredAt(db.posts, record.id, db.clock + 1);
  }

  lemma {:induction false} EnsuredAt(posts: seq<Post>, id: PostId, now: nat)
    ensures forall i | 0 <= i < |posts| :: EnsureTopics(posts, id, now)[i] == Settled(posts[i], id, now)
    decreases |posts|
  {
    if posts != [] {
      EnsuredAt(posts[1..], id, now);
    }
  }

}
