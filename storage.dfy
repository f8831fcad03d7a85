/** The storage layer: the posts, comments and ratings tables held in memory with serial
    identifiers and a logical clock, the filter-and-sort queries over them, and the rating
    aggregate that `createRating` writes back onto the rated post. */
module Storage {
  import opened Wrappers
  import opened Schema

  // ---------------------------------------------------------------------------------------------
  // WHERE, ORDER BY ... DESC, and binding the first row of a result

  /** The rows that satisfy `keep`, in table order: a `WHERE` clause. */
  function Where<T(==,!new)>(rows: seq<T>, keep: T -> bool): (r: seq<T>)
    ensures forall x {:trigger x in r} :: x in r <==> x in rows && keep(x)
  {
    if rows == [] then []
    else
      assert rows == [rows[0]] + rows[1..];
      (if keep(rows[0]) then [rows[0]] else []) + Where(rows[1..], keep)
  }

  /** Each kept row appears in the result as often as in the table, every other row not at all. */
  lemma {:induction false} WhereMultiplicity<T(!new)>(rows: seq<T>, keep: T -> bool)
    ensures forall x :: multiset(Where(rows, keep))[x] == if keep(x) then multiset(rows)[x] else 0
  {
    if rows != [] {
      assert rows == [rows[0]] + rows[1..];
      WhereMultiplicity(rows[1..], keep);
    }
  }

  lemma {:induction false} WhereAppend<T(!new)>(rows: seq<T>, x: T, keep: T -> bool)
    ensures Where(rows + [x], keep) == Where(rows, keep) + (if keep(x) then [x] else [])
  {
    var all := rows + [x];
    var tail := if keep(x) then [x] else [];
    if rows == [] {
      assert all == [x] && all[1..] == [];
    } else {
      var head := if keep(rows[0]) then [rows[0]] else [];
      assert all[0] == rows[0] && all[1..] == rows[1..] + [x];
      WhereAppend(rows[1..], x, keep);
      calc {
        Where(all, keep);
        head + Where(rows[1..] + [x], keep);
        head + (Where(rows[1..], keep) + tail);
        (head + Where(rows[1..], keep)) + tail;
        Where(rows, keep) + tail;
      }
    }
  }

  /** The row that `const [row] = await db.select()...where(...)` binds: the first row of the
      filtered result, or nothing when that result is empty. */
  function First<T(==,!new)>(rows: seq<T>, keep: T -> bool): (r: Option<T>)
    ensures r.None? <==> forall x :: x in rows ==> !keep(x)
    ensures r.Some? ==> r.value in rows && keep(r.value)
    ensures r.Some? ==> Where(rows, keep) != [] && r.value == Where(rows, keep)[0]
  {
    if rows == [] then None
    else
      assert rows == [rows[0]] + rows[1..];
      if keep(rows[0]) then Some(rows[0]) else First(rows[1..], keep)
  }

  predicate NonIncreasing<T>(rows: seq<T>, key: T -> int) {
    forall i, j :: 0 <= i < j < |rows| ==> key(rows[i]) >= key(rows[j])
  }

  /** The head of a sorted list has the largest key. */
  lemma HeadDominates<T>(sorted: seq<T>, key: T -> int)
    requires sorted != [] && NonIncreasing(sorted, key)
    ensures forall y :: y in sorted ==> key(sorted[0]) >= key(y)
  {
    forall y | y in sorted ensures key(sorted[0]) >= key(y) {
      var k :| 0 <= k < |sorted| && sorted[k] == y;
      if k > 0 {
        assert key(sorted[0]) >= key(sorted[k]);
      }
    }
  }

  /** A sorted list stays sorted when an element with a key no smaller than its head's is put
      in front. */
  lemma PrependSorted<T>(x: T, sorted: seq<T>, key: T -> int)
    requires NonIncreasing(sorted, key)
    requires sorted == [] || key(x) >= key(sorted[0])
    ensures NonIncreasing([x] + sorted, key)
  {
    if sorted != [] {
      HeadDominates(sorted, key);
    }
    var r := [x] + sorted;
    forall i, j | 0 <= i < j < |r| ensures key(r[i]) >= key(r[j]) {
      assert r[j] == sorted[j - 1];
      if i > 0 {
        assert r[i] == sorted[i - 1];
      } else {
        assert r[j] in sorted;
      }
    }
  }

  /** Places `x` into a list sorted by descending `key`, keeping it sorted. */
  function InsertDesc<T(==,!new)>(x: T, sorted: seq<T>, key: T -> int): (r: seq<T>)
    requires NonIncreasing(sorted, key)
    ensures multiset(r) == multiset(sorted) + multiset{x}
    ensures NonIncreasing(r, key)
  {
    if sorted == [] || key(sorted[0]) <= key(x) then
      PrependSorted(x, sorted, key);
      [x] + sorted
    else
      var tail := sorted[1..];
      assert sorted == [sorted[0]] + tail;
      assert NonIncreasing(tail, key) by {
        forall i, j | 0 <= i < j < |tail| ensures key(tail[i]) >= key(tail[j]) {
          assert tail[i] == sorted[i + 1] && tail[j] == sorted[j + 1];
        }
      }
      HeadDominates(sorted, key);
      var rest := InsertDesc(x, tail, key);
      assert rest[0] in multiset(rest);
      assert rest[0] == x || rest[0] in tail;
      PrependSorted(sorted[0], rest, key);
      [sorted[0]] + rest
  }

  /** The rows ordered by descending `key`: `ORDER BY key DESC`. Rows with equal keys come in an
      order the database leaves open; this one is a permutation like any other. */
  function SortDesc<T(==,!new)>(rows: seq<T>, key: T -> int): (r: seq<T>)
    ensures multiset(r) == multiset(rows)
    ensures NonIncreasing(r, key)
  {
    if rows == [] then []
    else
      assert rows == [rows[0]] + rows[1..];
      InsertDesc(rows[0], SortDesc(rows[1..], key), key)
  }

  // ---------------------------------------------------------------------------------------------
  // Row filters

  function HasId(id: int): Post -> bool {
    (p: Post) => p.id == id
  }

  function OnPost(postId: int): Comment -> bool {
    (c: Comment) => c.postId == postId
  }

  function ForPost(postId: int): Rating -> bool {
    (r: Rating) => r.postId == postId
  }

  function BySession(userSession: string): Rating -> bool {
    (r: Rating) => r.userSession == userSession
  }

  function ForPostAndSession(postId: int, userSession: string): Rating -> bool {
    (r: Rating) => r.postId == postId && r.userSession == userSession
  }

  // ---------------------------------------------------------------------------------------------
  // The rating aggregate

  predicate AllStarValues(rs: seq<Rating>) {
    forall i :: 0 <= i < |rs| ==> 1 <= rs[i].rating <= 5
  }

  /** The `reduce` over a post's ratings: the star values summed left to right from 0. With
      every value between 1 and 5 stars, the sum lies between one and five times
      the count. */
  function Total(rs: seq<Rating>): (t: int)
    ensures AllStarValues(rs) ==> |rs| <= t <= 5 * |rs|
  {
    if rs == [] then 0 else Total(rs[..|rs| - 1]) + rs[|rs| - 1].rating
  }

  /** `Math.round((total / count) * 20)` in exact arithmetic: the integer nearest to
      20 * total / count, a half rounded up. */
  function RoundedAverage(total: int, count: int): (avg: int)
    requires count > 0
    ensures 2 * count * avg - count <= 40 * total < 2 * count * avg + count
  {
    var n, d := 40 * total + count, 2 * count;
    assert n == d * (n / d) + n % d;
    n / d
  }

  lemma {:induction false} MulMonotone(c: nat, a: int, b: int)
    requires a <= b
    ensures c * a <= c * b
  {
    if c > 0 {
      MulMonotone(c - 1, a, b);
      assert c * a == (c - 1) * a + a && c * b == (c - 1) * b + b;
    }
  }

  /** Ratings of 1 to 5 stars average to 20..100 on the stored scale. */
  lemma AverageInStoredRange(rs: seq<Rating>)
    requires rs != [] && AllStarValues(rs)
    ensures 20 <= RoundedAverage(Total(rs), |rs|) <= 100
  {
    var c, t := |rs|, Total(rs);
    var avg := RoundedAverage(t, c);
    if avg < 20 {
      MulMonotone(2 * c, avg, 19);
    }
    if avg > 100 {
      MulMonotone(2 * c, 101, avg);
    }
  }

  /** A post with a single rating of `v` stars stores `20 * v`. */
  lemma SingleRatingAverage(v: int)
    ensures RoundedAverage(v, 1) == 20 * v
  {
  }

  /** The post with its aggregates replaced: what
      `db.update(posts).set({ averageRating, ratingCount }).where(eq(posts.id, postId))` leaves.
      Rows with another id are untouched; when no row has the id nothing changes. */
  function Reaggregate(posts: seq<Post>, postId: int, avg: int, count: int): (r: seq<Post>)
    ensures |r| == |posts|
    ensures forall i :: 0 <= i < |posts| && posts[i].id != postId ==> r[i] == posts[i]
    ensures forall i :: 0 <= i < |posts| && posts[i].id == postId ==>
              r[i] == posts[i].(averageRating := avg, ratingCount := count)
  {
    if posts == [] then []
    else
      var p := posts[0];
      var head := if p.id == postId then p.(averageRating := avg, ratingCount := count) else p;
      [head] + Reaggregate(posts[1..], postId, avg, count)
  }

  /** The aggregates a post carries when they agree with the ratings stored for it; a post
      nobody rated carries the defaults 0 and 0. */
  predicate AggregatesMatch(p: Post, rs: seq<Rating>) {
    p.ratingCount == |rs| &&
    p.averageRating == (if rs == [] then 0 else RoundedAverage(Total(rs), |rs|))
  }

  /** Every post's aggregates agree with the ratings table. */
  predicate Synced(posts: seq<Post>, ratings: seq<Rating>) {
    forall p :: p in posts ==> AggregatesMatch(p, Where(ratings, ForPost(p.id)))
  }

  lemma RatingsForNonEmpty(ratings: seq<Rating>, postId: int)
    requires exists x :: x in ratings && x.postId == postId
    ensures Where(ratings, ForPost(postId)) != []
  {
    var x :| x in ratings && x.postId == postId;
    assert ForPost(postId)(x);
    assert x in Where(ratings, ForPost(postId));
  }

  /** The posts table once `createRating` has re-read the ratings of `postId` from `ratings`
      (which already holds the new row) and written their count and rounded mean onto it. */
  function RatedPosts(posts: seq<Post>, ratings: seq<Rating>, postId: int): seq<Post>
    requires exists x :: x in ratings && x.postId == postId
  {
    RatingsForNonEmpty(ratings, postId);
    var postRatings := Where(ratings, ForPost(postId));
    Reaggregate(posts, postId, RoundedAverage(Total(postRatings), |postRatings|), |postRatings|)
  }

  /** After the recompute, the rated post carries a count of at least one and aggregates that
      agree with its stored ratings; every other field of it, and every other post, is as
      before. */
  lemma RatedPostsSpec(posts: seq<Post>, ratings: seq<Rating>, postId: int)
    requires exists x :: x in ratings && x.postId == postId
    ensures |RatedPosts(posts, ratings, postId)| == |posts|
    ensures forall i :: 0 <= i < |posts| && posts[i].id != postId ==> RatedPosts(posts, ratings, postId)[i] == posts[i]
    ensures forall i :: 0 <= i < |posts| && posts[i].id == postId ==>
              var q := RatedPosts(posts, ratings, postId)[i];
              q == posts[i].(averageRating := q.averageRating, ratingCount := q.ratingCount) &&
              q.ratingCount >= 1 &&
              AggregatesMatch(q, Where(ratings, ForPost(postId)))
  {
    RatingsForNonEmpty(ratings, postId);
  }

  /** Nothing stops a session from rating a post twice: every stored rating adds one to its
      post's count, whoever gave the earlier ones. */
  lemma EveryRatingCounts(ratings: seq<Rating>, r: Rating)
    ensures |Where(ratings + [r], ForPost(r.postId))| == |Where(ratings, ForPost(r.postId))| + 1
  {
    WhereAppend(ratings, r, ForPost(r.postId));
  }

  /** Two ratings of one post, in table order. */
  lemma TwoRatingsOfOnePost(a: Rating, b: Rating)
    requires a.postId == b.postId
    ensures Where([a, b], ForPost(a.postId)) == [a, b]
    ensures Total([a, b]) == a.rating + b.rating
  {
    var keep := ForPost(a.postId);
    assert keep(a) && keep(b);
    assert Where([], keep) == [];
    WhereAppend([], a, keep);
    assert [] + [a] == [a];
    WhereAppend([a], b, keep);
    assert [a] + [b] == [a, b];
    assert [a, b][..1] == [a] && [a][..0] == [];
    assert Total([a]) == a.rating;
    assert Total([a, b]) == Total([a]) + b.rating;
  }

  /** A post rated 5 and then 3 by the same session stores an average of 80 over 2 ratings. */
  lemma RepeatRatingCountsTwice(postId: int, session: string)
    ensures var rs := Where([Rating(1, postId, 5, session), Rating(2, postId, 3, session)], ForPost(postId));
            |rs| == 2 && RoundedAverage(Total(rs), |rs|) == 80
  {
    TwoRatingsOfOnePost(Rating(1, postId, 5, session), Rating(2, postId, 3, session));
    assert RoundedAverage(8, 2) == 80;
  }

  /** Storing a rating and recomputing its post's aggregates, as `createRating` does, keeps
      every post in step with the ratings table. */
  lemma CreateRatingPreservesSync(posts: seq<Post>, ratings: seq<Rating>, r: Rating)
    requires Synced(posts, ratings)
    ensures Synced(RatedPosts(posts, ratings + [r], r.postId), ratings + [r])
  {
    var all := ratings + [r];
    assert r in all;
    var rs := Where(all, ForPost(r.postId));
    RatingsForNonEmpty(all, r.postId);
    var avg := RoundedAverage(Total(rs), |rs|);
    var updated := RatedPosts(posts, all, r.postId);
    assert updated == Reaggregate(posts, r.postId, avg, |rs|);
    forall q | q in updated ensures AggregatesMatch(q, Where(all, ForPost(q.id))) {
      var i :| 0 <= i < |updated| && updated[i] == q;
      if posts[i].id == r.postId {
        assert q == posts[i].(averageRating := avg, ratingCount := |rs|);
      } else {
        assert q == posts[i] && posts[i] in posts;
        OtherPostUnaffected(ratings, r, q.id);
      }
    }
  }

  lemma OtherPostUnaffected(ratings: seq<Rating>, r: Rating, postId: int)
    requires r.postId != postId
    ensures Where(ratings + [r], ForPost(postId)) == Where(ratings, ForPost(postId))
  {
    WhereAppend(ratings, r, ForPost(postId));
    assert !ForPost(postId)(r);
  }

  /** A new post (aggregates 0 and 0) joins a synced table in step exactly when no stored
      rating already names its id. */
  lemma CreatePostSyncedIff(posts: seq<Post>, ratings: seq<Rating>, p: Post)
    requires Synced(posts, ratings)
    requires p.averageRating == 0 && p.ratingCount == 0
    ensures Synced(posts + [p], ratings) <==> Where(ratings, ForPost(p.id)) == []
  {
    assert p in posts + [p];
    forall q | q in posts + [p] && Where(ratings, ForPost(p.id)) == []
      ensures AggregatesMatch(q, Where(ratings, ForPost(q.id)))
    {
      if q != p {
        assert q in posts;
      }
    }
  }

  /** A rating stored for a post id before any post has it leaves the post later created with
      that id showing no ratings. */
  lemma OrphanRatingDesyncsNewPost()
    ensures var orphan := Rating(1, 1, 5, "s");
            var post := Post(1, "hello", 0, 0, 0, 0);
            Synced([], [orphan]) && !Synced([post], [orphan])
  {
    var orphan := Rating(1, 1, 5, "s");
    var post := Post(1, "hello", 0, 0, 0, 0);
    WhereAppend([], orphan, ForPost(1));
    assert post in [post];
  }

  /** A post appended under an id no other post has is the one a lookup of that id finds. */
  lemma FreshPostFound(posts: seq<Post>, p: Post)
    requires forall q :: q in posts ==> q.id != p.id
    ensures First(posts + [p], HasId(p.id)) == Some(p)
  {
    var r := First(posts + [p], HasId(p.id));
    assert HasId(p.id)(p) && p in posts + [p];
    assert forall q :: q in posts + [p] && HasId(p.id)(q) ==> q == p;
  }

  // ---------------------------------------------------------------------------------------------
  // Looking up a session's rating

  /** `getUserRating` as written: `eq(postId) && eq(userSession)` evaluates to its second
      operand, so only the session is filtered on. */
  function UserRatingAsWritten(ratings: seq<Rating>, postId: int, userSession: string): (r: Option<Rating>)
    ensures r.None? <==> forall x :: x in ratings ==> x.userSession != userSession
    ensures r.Some? ==> r.value in ratings && r.value.userSession == userSession
  {
    First(ratings, BySession(userSession))
  }

  /** As written, a session's rating of another post is returned. */
  lemma UserRatingAsWrittenIgnoresPost()
    ensures var other := Rating(1, 2, 4, "s");
            UserRatingAsWritten([other], 1, "s") == Some(other) && other.postId != 1
  {
    var other := Rating(1, 2, 4, "s");
    WhereAppend([], other, BySession("s"));
  }

  /** `getUserRating` with both conditions joined (`and(eq(...), eq(...))`): the first rating
      this session gave this post, if any. */
  function UserRating(ratings: seq<Rating>, postId: int, userSession: string): (r: Option<Rating>)
    ensures r.None? <==> forall x :: x in ratings ==> !(x.postId == postId && x.userSession == userSession)
    ensures r.Some? ==> r.value in ratings && r.value.postId == postId && r.value.userSession == userSession
    ensures r.Some? ==> Where(ratings, ForPostAndSession(postId, userSession)) != [] &&
                        r.value == Where(ratings, ForPostAndSession(postId, userSession))[0]
  {
    First(ratings, ForPostAndSession(postId, userSession))
  }

  // ---------------------------------------------------------------------------------------------
  // The store

  /** Serial ids start at 1, stay below the counter and grow in table order; every row was
      stamped before the current time. */
  ghost predicate PostsTable(posts: seq<Post>, nextId: int, now: int) {
    1 <= nextId &&
    (forall i :: 0 <= i < |posts| ==> 1 <= posts[i].id < nextId && posts[i].createdAt < now) &&
    (forall i, j :: 0 <= i < j < |posts| ==> posts[i].id < posts[j].id)
  }

  ghost predicate CommentsTable(comments: seq<Comment>, nextId: int, now: int) {
    1 <= nextId &&
    (forall i :: 0 <= i < |comments| ==> 1 <= comments[i].id < nextId && comments[i].createdAt < now) &&
    (forall i, j :: 0 <= i < j < |comments| ==> comments[i].id < comments[j].id)
  }

  ghost predicate RatingsTable(ratings: seq<Rating>, nextId: int) {
    1 <= nextId &&
    (forall i :: 0 <= i < |ratings| ==> 1 <= ratings[i].id < nextId) &&
    (forall i, j :: 0 <= i < j < |ratings| ==> ratings[i].id < ratings[j].id)
  }

  /** A row stamped with the counter and the clock extends a table; the counter and the clock
      then move on. */
  lemma PostsTableAppend(posts: seq<Post>, p: Post, nextId: int, now: int)
    requires PostsTable(posts, nextId, now) && p.id == nextId && p.createdAt == now
    ensures PostsTable(posts + [p], nextId + 1, now + 1)
    ensures forall q :: q in posts ==> q.id != p.id
  {
  }

  lemma CommentsTableAppend(comments: seq<Comment>, c: Comment, nextId: int, now: int)
    requires CommentsTable(comments, nextId, now) && c.id == nextId && c.createdAt == now
    ensures CommentsTable(comments + [c], nextId + 1, now + 1)
    ensures forall d :: d in comments ==> d.id != c.id
  {
  }

  lemma RatingsTableAppend(ratings: seq<Rating>, r: Rating, nextId: int)
    requires RatingsTable(ratings, nextId) && r.id == nextId
    ensures RatingsTable(ratings + [r], nextId + 1)
  {
  }

  /** Time moving on keeps every row in the past. */
  lemma PostsTableLater(posts: seq<Post>, nextId: int, now: int)
    requires PostsTable(posts, nextId, now)
    ensures PostsTable(posts, nextId, now + 1)
  {
  }

  lemma CommentsTableLater(comments: seq<Comment>, nextId: int, now: int)
    requires CommentsTable(comments, nextId, now)
    ensures CommentsTable(comments, nextId, now + 1)
  {
  }

  /** Rewriting aggregates changes neither ids nor timestamps. */
  lemma ReaggregateKeepsTable(posts: seq<Post>, postId: int, avg: int, count: int, nextId: int, now: int)
    requires PostsTable(posts, nextId, now)
    ensures PostsTable(Reaggregate(posts, postId, avg, count), nextId, now)
  {
    var r := Reaggregate(posts, postId, avg, count);
    assert forall i :: 0 <= i < |r| ==> r[i].id == posts[i].id && r[i].createdAt == posts[i].createdAt;
  }

  /** The database: three tables, the serial counter of each, and the clock that `defaultNow()`
      reads. Identifiers and timestamps grow in table order. */
  class DatabaseStorage {
    var posts: seq<Post>
    var comments: seq<Comment>
    var ratings: seq<Rating>
    var nextPostId: int
    var nextCommentId: int
    var nextRatingId: int
    var clock: int

    ghost predicate Valid()
      reads this
    {
      PostsTable(posts, nextPostId, clock) &&
      CommentsTable(comments, nextCommentId, clock) &&
      RatingsTable(ratings, nextRatingId)
    }

    constructor ()
      ensures Valid()
      ensures posts == [] && comments == [] && ratings == []
      ensures Synced(posts, ratings)
    {
      posts, comments, ratings := [], [], [];
      nextPostId, nextCommentId, nextRatingId := 1, 1, 1;
      clock := 0;
    }

    /** `getPosts`: every post exactly once, newest first. */
    function GetPosts(): (r: seq<Post>)
      reads this
      ensures multiset(r) == multiset(posts)
      ensures NonIncreasing(r, PostCreatedAt)
    {
      SortDesc(posts, PostCreatedAt)
    }

    /** `getPost`: nothing when no post has the id, otherwise a post with it, which in a valid
        store is the only one. */
    function GetPost(id: int): (r: Option<Post>)
      reads this
      ensures r.None? <==> forall p :: p in posts ==> p.id != id
      ensures r.Some? ==> r.value in posts && r.value.id == id
      ensures Valid() && r.Some? ==> forall p :: p in posts && p.id == id ==> p == r.value
    {
      First(posts, HasId(id))
    }

    /** `getComments`: exactly the comments on the post, each as often as it is stored, newest
        first. */
    function GetComments(postId: int): (r: seq<Comment>)
      reads this
      ensures forall c :: c in r <==> c in comments && c.postId == postId
      ensures forall c :: multiset(r)[c] == if c.postId == postId then multiset(comments)[c] else 0
      ensures NonIncreasing(r, CommentCreatedAt)
    {
      var onPost := Where(comments, OnPost(postId));
      WhereMultiplicity(comments, OnPost(postId));
      var r := SortDesc(onPost, CommentCreatedAt);
      assert forall c :: c in r <==> c in onPost by {
        forall c ensures c in r <==> c in onPost {
          assert c in r <==> c in multiset(r);
          assert c in onPost <==> c in multiset(onPost);
        }
      }
      r
    }

    /** `getUserRating` with the post and the session both filtered on: the corrected lookup
        `UserRating`, not the session-only query of the code as written (`UserRatingAsWritten`). */
    function GetUserRating(postId: int, userSession: string): (r: Option<Rating>)
      reads this
      ensures r.None? <==> forall x :: x in ratings ==> !(x.postId == postId && x.userSession == userSession)
      ensures r.Some? ==> r.value in ratings && r.value.postId == postId && r.value.userSession == userSession
    {
      UserRating(ratings, postId, userSession)
    }

    /** `createPost`: one new row with the given content, a fresh id, the current time and no
        likes or ratings; `getPost` then finds it. */
    method CreatePost(insertPost: InsertPost) returns (post: Post)
      requires Valid()
      modifies this
      ensures Valid()
      ensures post == Post(old(nextPostId), insertPost.content, old(clock), 0, 0, 0)
      ensures forall q :: q in old(posts) ==> q.id != post.id
      ensures posts == old(posts) + [post]
      ensures comments == old(comments) && ratings == old(ratings)
      ensures old(Synced(posts, ratings)) ==>
                (Synced(posts, ratings) <==> Where(ratings, ForPost(post.id)) == [])
    {
      post := Post(nextPostId, insertPost.content, clock, 0, 0, 0);
      PostsTableAppend(posts, post, nextPostId, clock);
      CommentsTableLater(comments, nextCommentId, clock);
      ghost var synced := Synced(posts, ratings);
      assert synced ==> (Synced(posts + [post], ratings) <==> Where(ratings, ForPost(post.id)) == []) by {
        if synced {
          CreatePostSyncedIff(posts, ratings, post);
        }
      }
      posts := posts + [post];
      nextPostId := nextPostId + 1;
      clock := clock + 1;
    }

    /** `createComment`: one new row, stored whether or not the post exists. */
    method CreateComment(insertComment: InsertComment) returns (comment: Comment)
      requires Valid()
      modifies this
      ensures Valid()
      ensures comment == Comment(old(nextCommentId), insertComment.postId, insertComment.content, old(clock), 0)
      ensures forall c :: c in old(comments) ==> c.id != comment.id
      ensures comments == old(comments) + [comment]
      ensures posts == old(posts) && ratings == old(ratings)
      ensures comment in GetComments(insertComment.postId)
    {
      comment := Comment(nextCommentId, insertComment.postId, insertComment.content, clock, 0);
      CommentsTableAppend(comments, comment, nextCommentId, clock);
      PostsTableLater(posts, nextPostId, clock);
      comments := comments + [comment];
      nextCommentId := nextCommentId + 1;
      clock := clock + 1;
    }

    /** `createRating`: stores the rating (always, even when the session already rated the
        post), then re-reads every rating of the post and writes their count and rounded mean
        onto it. No other post, no comment and no earlier rating changes. */
    method CreateRating(insertRating: InsertRating) returns (rating: Rating)
      requires Valid()
      modifies this
      ensures Valid()
      ensures rating == Rating(old(nextRatingId), insertRating.postId, insertRating.rating, insertRating.userSession)
      ensures ratings == old(ratings) + [rating]
      ensures comments == old(comments)
      ensures rating in ratings
      ensures posts == RatedPosts(old(posts), ratings, rating.postId)
      ensures old(Synced(posts, ratings)) ==> Synced(posts, ratings)
    {
      rating := Rating(nextRatingId, insertRating.postId, insertRating.rating, insertRating.userSession);
      RatingsTableAppend(ratings, rating, nextRatingId);
      ratings := ratings + [rating];
      assert rating in ratings;
      nextRatingId := nextRatingId + 1;
      RatingsForNonEmpty(ratings, insertRating.postId);
      var postRatings := Where(ratings, ForPost(insertRating.postId));
      var totalRating := Total(postRatings);
      // postRatings holds at least the row just stored, so the mean is defined
      var avgRating := RoundedAverage(totalRating, |postRatings|);
      ReaggregateKeepsTable(posts, insertRating.postId, avgRating, |postRatings|, nextPostId, clock);
      posts := Reaggregate(posts, insertRating.postId, avgRating, |postRatings|);
      assert old(Synced(posts, ratings)) ==> Synced(posts, ratings) by {
        if old(Synced(posts, ratings)) {
          CreateRatingPreservesSync(old(posts), old(ratings), rating);
        }
      }
    }
  }
}
