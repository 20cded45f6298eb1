/**
 * The local post cache of data/local/posts/cache/CachedPostsDataSourceImpl.kt.
 * The cache table keeps its rows in insertion order; a row inserted with the
 * id of a stored row replaces it (the DAO's REPLACE strategy), so ids stay
 * unique.
 */
module CachedPosts {
  import opened Wrappers
  import opened Posts

  /** A row of the cached-post table; postId is its primary key. */
  datatype CachedPostEntity = CachedPostEntity(
    postId: string,
    postTitle: string,
    postBody: string,
    postAuthor: string,
    imageUrl: string,
    postedAt: string,
    postedOn: string,
    views: seq<string>,
    likes: seq<string>,
    comments: seq<string>)

  /** Post.toCacheEntity: field for field. */
  function ToCacheEntity(p: Post): (e: CachedPostEntity)
    ensures e.postId == p.id
  {
    CachedPostEntity(p.id, p.postTitle, p.postBody, p.postAuthor, p.imageUrl, p.postedAt, p.postedOn,
                     p.views, p.likes, p.comments)
  }

  /** CachedPostEntity.toExternalModel: field for field. */
  function ToExternalModel(e: CachedPostEntity): (p: Post)
    ensures p.id == e.postId
  {
    Post(e.postId, e.postTitle, e.postBody, e.postAuthor, e.imageUrl, e.postedAt, e.postedOn,
         e.views, e.likes, e.comments)
  }

  /** The two mappings are inverse to each other, so the cache neither loses nor invents a field. */
  lemma MappingRoundTrip(p: Post, e: CachedPostEntity)
    ensures ToExternalModel(ToCacheEntity(p)) == p
    ensures ToCacheEntity(ToExternalModel(e)) == e
  {
  }

  /** The rows posts.map { it.toCacheEntity() } writes, in list order. */
  function ToCacheEntities(posts: seq<Post>): (r: seq<CachedPostEntity>)
    ensures |r| == |posts|
    ensures forall i :: 0 <= i < |posts| ==> r[i] == ToCacheEntity(posts[i])
  {
    seq(|posts|, i requires 0 <= i < |posts| => ToCacheEntity(posts[i]))
  }

  /** The posts a list of rows reads back as, in row order. */
  function ToExternalModels(rows: seq<CachedPostEntity>): (r: seq<Post>)
    ensures |r| == |rows|
    ensures forall i :: 0 <= i < |rows| ==> r[i] == ToExternalModel(rows[i])
  {
    seq(|rows|, i requires 0 <= i < |rows| => ToExternalModel(rows[i]))
  }

  /** No two rows share a primary key. */
  ghost predicate UniqueIds(rows: seq<CachedPostEntity>)
  {
    forall i, j :: 0 <= i < j < |rows| ==> rows[i].postId != rows[j].postId
  }

  /** The rows whose id differs from the given one, in their order. */
  function WithoutId(rows: seq<CachedPostEntity>, id: string): (r: seq<CachedPostEntity>)
    ensures forall e :: e in r <==> e in rows && e.postId != id
    ensures UniqueIds(rows) ==> UniqueIds(r)
  {
    if rows == [] then []
    else
      var rest := WithoutId(rows[1..], id);
      if rows[0].postId == id then rest
      else
        assert forall e :: e in rest ==> e in rows[1..];
        [rows[0]] + rest
  }

  /** One row insert with REPLACE: the row with the same id goes, the new row is appended. */
  function Upsert(rows: seq<CachedPostEntity>, e: CachedPostEntity): (r: seq<CachedPostEntity>)
    ensures UniqueIds(rows) ==> UniqueIds(r)
  {
    WithoutId(rows, e.postId) + [e]
  }

  /** The row inserts of a list, one after the other in list order. */
  function UpsertAll(rows: seq<CachedPostEntity>, es: seq<CachedPostEntity>): (r: seq<CachedPostEntity>)
    ensures UniqueIds(rows) ==> UniqueIds(r)
  {
    if es == [] then rows else Upsert(UpsertAll(rows, es[..|es| - 1]), es[|es| - 1])
  }

  /** getCachedPostById: the first row with that id, read back as a post, or null. */
  function PostById(rows: seq<CachedPostEntity>, id: string): (r: Option<Post>)
    ensures r.None? <==> forall e :: e in rows ==> e.postId != id
    ensures r.Some? ==> r.value.id == id && ToCacheEntity(r.value) in rows
  {
    if rows == [] then None
    else if rows[0].postId == id then
      MappingRoundTrip(ToExternalModel(rows[0]), rows[0]);
      Some(ToExternalModel(rows[0]))
    else
      assert forall e :: e in rows ==> e == rows[0] || e in rows[1..];
      PostById(rows[1..], id)
  }

  /** Rows before the one sought do not change the answer. */
  lemma {:induction false} PostByIdAfter(front: seq<CachedPostEntity>, back: seq<CachedPostEntity>, id: string)
    requires forall e :: e in front ==> e.postId != id
    ensures PostById(front + back, id) == PostById(back, id)
  {
    if front != [] {
      assert (front + back)[0] == front[0] && front[0] in front;
      assert (front + back)[1..] == front[1..] + back;
      assert forall e :: e in front[1..] ==> e in front;
      PostByIdAfter(front[1..], back, id);
      calc {
        PostById(front + back, id);
        PostById((front + back)[1..], id);
        PostById(front[1..] + back, id);
      }
    } else {
      assert front + back == back;
    }
  }

  /** A post just inserted into the cache is what a lookup of its id returns. */
  lemma InsertThenGet(rows: seq<CachedPostEntity>, p: Post)
    ensures PostById(Upsert(rows, ToCacheEntity(p)), p.id) == Some(p)
  {
    var front := WithoutId(rows, p.id);
    PostByIdAfter(front, [ToCacheEntity(p)], p.id);
    MappingRoundTrip(p, ToCacheEntity(p));
  }

  /** Every row left after a list insert is an old row or one of the inserted rows. */
  lemma {:induction false} UpsertAllFrom(rows: seq<CachedPostEntity>, es: seq<CachedPostEntity>)
    ensures forall e :: e in UpsertAll(rows, es) ==> e in rows || e in es
  {
    if es != [] {
      UpsertAllFrom(rows, es[..|es| - 1]);
      assert forall e :: e in es[..|es| - 1] ==> e in es;
    }
  }

  /** Removing an id no row has changes nothing. */
  lemma {:induction false} WithoutAbsentId(rows: seq<CachedPostEntity>, id: string)
    requires forall e :: e in rows ==> e.postId != id
    ensures WithoutId(rows, id) == rows
  {
    if rows != [] {
      WithoutAbsentId(rows[1..], id);
      assert [rows[0]] + rows[1..] == rows;
    }
  }

  /**
   * Inserting a list with distinct ids into an empty cache leaves exactly
   * that list, in its order: clear-then-insert replaces the cache, it does
   * not merge into it.
   */
  lemma {:induction false} FillEmpty(es: seq<CachedPostEntity>)
    requires UniqueIds(es)
    ensures UpsertAll([], es) == es
  {
    if es != [] {
      var front, last := es[..|es| - 1], es[|es| - 1];
      assert UniqueIds(front);
      FillEmpty(front);
      forall e | e in front
        ensures e.postId != last.postId
      {
        var i :| 0 <= i < |front| && front[i] == e;
      }
      WithoutAbsentId(front, last.postId);
      assert front + [last] == es;
    }
  }

  /** Writing a post list with distinct ids into an empty cache reads back as the same list. */
  lemma ReplaceRoundTrip(posts: seq<Post>)
    requires forall i, j :: 0 <= i < j < |posts| ==> posts[i].id != posts[j].id
    ensures ToExternalModels(UpsertAll([], ToCacheEntities(posts))) == posts
  {
    FillEmpty(ToCacheEntities(posts));
  }

  /** The cache data source over the cache table. */
  class CachedPostsDataSource {
    var rows: seq<CachedPostEntity>

    ghost predicate Valid()
      reads this
    {
      UniqueIds(rows)
    }

    constructor ()
      ensures Valid() && rows == []
    {
      rows := [];
    }

    /**
     * insertCachedPosts: one row insert per post, in list order. `fault`
     * is the index of the insert that throws an IOException, if any: the
     * rows before it stay written, the rest are not attempted, and the
     * exception reaches the caller (ok is false).
     */
    method InsertCachedPosts(posts: seq<Post>, fault: Option<nat>) returns (ok: bool)
      requires Valid()
      modifies this
      ensures Valid()
      ensures ok <==> fault.None? || fault.value >= |posts|
      ensures ok ==> rows == UpsertAll(old(rows), ToCacheEntities(posts))
      ensures !ok ==> rows == UpsertAll(old(rows), ToCacheEntities(posts[..fault.value]))
    {
      var i := 0;
      while i < |posts|
        invariant 0 <= i <= |posts|
        invariant fault.Some? ==> i <= fault.value
        invariant rows == UpsertAll(old(rows), ToCacheEntities(posts[..i]))
      {
        if fault == Some(i) {
          return false;
        }
        assert ToCacheEntities(posts[..i + 1])[..i] == ToCacheEntities(posts[..i]);
        rows := WithoutId(rows, posts[i].id) + [ToCacheEntity(posts[i])];
        i := i + 1;
      }
      assert posts[..i] == posts;
      ok := true;
    }

    /** getCachedPostById */
    function GetCachedPostById(id: string): (r: Option<Post>)
      reads this
      ensures r.None? <==> forall e :: e in rows ==> e.postId != id
      ensures r.Some? ==> r.value.id == id && ToCacheEntity(r.value) in rows
    {
      PostById(rows, id)
    }

    /** getCachedPosts: every row read back as a post, in table order. */
    function GetCachedPosts(): (r: seq<Post>)
      reads this
      ensures |r| == |rows|
      ensures forall i :: 0 <= i < |rows| ==> ToCacheEntity(r[i]) == rows[i]
    {
      var r := ToExternalModels(rows);
      assert forall i :: 0 <= i < |rows| ==> ToCacheEntity(ToExternalModel(rows[i])) == rows[i];
      r
    }

    /** deleteAllPostsFromCache: the cache is empty whatever it held. */
    method DeleteAllPostsFromCache()
      modifies this
      ensures Valid() && rows == []
    {
      rows := [];
    }
  }
}
