/** Row shapes of the application's tables and the shapes of the values inserted into them.
    Timestamps are instants of a logical clock; identifiers come from per-table serial counters. */
module Schema {

  /** A row of `posts`. `averageRating` (0..100, a star mean times 20) and `ratingCount` are the
      aggregates the rating code writes onto the post. */
  datatype Post = Post(
    id: int,
    content: string,
    createdAt: int,
    likesCount: int,
    averageRating: int,
    ratingCount: int)

  /** A row of `comments`; `postId` names the post it belongs to. */
  datatype Comment = Comment(
    id: int,
    postId: int,
    content: string,
    createdAt: int,
    likesCount: int)

  /** A row of `ratings`: one star value given to a post by one client session. */
  datatype Rating = Rating(
    id: int,
    postId: int,
    rating: int,
    userSession: string)

  /** What `createPost` receives: only the content. */
  datatype InsertPost = InsertPost(content: string)

  /** What `createComment` receives: the content and the post it comments on. */
  datatype InsertComment = InsertComment(content: string, postId: int)

  /** What `createRating` receives. */
  datatype InsertRating = InsertRating(postId: int, rating: int, userSession: string)

  function PostCreatedAt(p: Post): int {
    p.createdAt
  }

  function CommentCreatedAt(c: Comment): int {
    c.createdAt
  }
}
