/** A comment document under `comments/<factID>/userComments`. */
module CommentModel {
  import opened Wrappers

  /** `id` is filled in from the document path when read back; `timestamp` is a point in
      time, kept abstract as an integer. */
  datatype Comment = Comment(
    id: Option<string>,
    username: string,
    commentText: string,
    timestamp: int,
    likeCount: int,
    likedByCurrentUser: Option<bool>)
}
