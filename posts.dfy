/**
 * The post as the REST API delivers it, and the "post" table row of
 * room/entities/PostRecord.kt with its mapping toPost.
 */
module Posts {

  /**
   * The wire-format post. The three trailing lists are the post's views,
   * likes and comments; their element types are declared outside this
   * model, so they are kept as opaque strings.
   */
  datatype Post = Post(
    id: string,
    postTitle: string,
    postBody: string,
    postAuthor: string,
    imageUrl: string,
    postedAt: string,
    postedOn: string,
    views: seq<string>,
    likes: seq<string>,
    comments: seq<string>)

  /** A row of the "post" table; id (`_id` in Kotlin) is its primary key. */
  datatype PostRecord = PostRecord(
    id: string,
    postTitle: string,
    postBody: string,
    ImageUrl: string,
    postedAt: string,
    postAuthor: string,
    postedOn: string)

  /** PostRecord.toPost: every column of the row lands in the post field of the same meaning. */
  function ToPost(r: PostRecord): (p: Post)
    ensures p.id == r.id
    ensures p.postTitle == r.postTitle && p.postBody == r.postBody && p.postAuthor == r.postAuthor
    ensures p.imageUrl == r.ImageUrl
    ensures p.postedAt == r.postedAt && p.postedOn == r.postedOn
    ensures p.views == [] && p.likes == [] && p.comments == []
  {
    Post(r.id, r.postTitle, r.postBody, r.postAuthor, r.ImageUrl, r.postedAt, r.postedOn, [], [], [])
  }

  /** No column is lost: distinct rows give distinct posts. */
  lemma ToPostInjective(a: PostRecord, b: PostRecord)
    requires ToPost(a) == ToPost(b)
    ensures a == b
  {
  }
}
