/**
 * The likes table behind core/room/dao/LikeDao.kt. Each statement of the
 * DAO is one atomic change of a map from primary key to row.
 */
module LikeDao {
  import opened Wrappers

  /**
   * A row of the likes table. The entity class is declared outside this
   * model: `key` stands for its primary key, and likepostId is the column
   * deleteLike filters on. No statement of the DAO reads any other column.
   */
  datatype LikeEntity = LikeEntity(key: string, likepostId: string)

  type LikeRows = map<string, LikeEntity>

  /** Every row is stored under its own primary key, so keys are unique. */
  ghost predicate Keyed(rows: LikeRows)
  {
    forall k :: k in rows ==> rows[k].key == k
  }

  /** INSERT with OnConflictStrategy.REPLACE: a row with the same key is overwritten. */
  function Replace(rows: LikeRows, like: LikeEntity): (r: LikeRows)
    ensures like.key in r && r[like.key] == like
    ensures r.Keys == rows.Keys + {like.key}
    ensures forall k :: k in rows && k != like.key ==> r[k] == rows[k]
  {
    rows[like.key := like]
  }

  /** A list insert: the rows are written in list order, each with REPLACE. */
  function ReplaceAll(rows: LikeRows, likes: seq<LikeEntity>): LikeRows
  {
    if likes == [] then rows else Replace(ReplaceAll(rows, likes[..|likes| - 1]), likes[|likes| - 1])
  }

  /** The last element of likes with the given key, if any. */
  function LastWithKey(likes: seq<LikeEntity>, k: string): (r: Option<LikeEntity>)
    ensures r.Some? ==> r.value in likes && r.value.key == k
    ensures r.None? ==> forall l :: l in likes ==> l.key != k
  {
    if likes == [] then None
    else if likes[|likes| - 1].key == k then Some(likes[|likes| - 1])
    else LastWithKey(likes[..|likes| - 1], k)
  }

  /** DELETE FROM likes WHERE likepostId = :postId */
  function WithoutPost(rows: LikeRows, postId: string): (r: LikeRows)
    ensures forall k :: k in r <==> k in rows && rows[k].likepostId != postId
    ensures forall k :: k in r ==> r[k] == rows[k]
  {
    map k | k in rows && rows[k].likepostId != postId :: rows[k]
  }

  /** SELECT * FROM likes: every row, as a set (the query has no ORDER BY). */
  function AllRows(rows: LikeRows): (r: set<LikeEntity>)
    requires Keyed(rows)
    ensures forall l :: l in r <==> l.key in rows && rows[l.key] == l
  {
    rows.Values
  }

  /**
   * After a list insert each key holds the last element written with that
   * key; a key no element mentions keeps its old row, or stays absent.
   */
  lemma {:induction false} ReplaceAllLastWins(rows: LikeRows, likes: seq<LikeEntity>, k: string)
    ensures var r := ReplaceAll(rows, likes);
            match LastWithKey(likes, k)
            case Some(l) => k in r && r[k] == l
            case None => (k in r <==> k in rows) && (k in rows ==> r[k] == rows[k])
  {
    if likes != [] {
      ReplaceAllLastWins(rows, likes[..|likes| - 1], k);
    }
  }

  /** A list insert keeps every row under its own key. */
  lemma {:induction false} ReplaceAllKeyed(rows: LikeRows, likes: seq<LikeEntity>)
    requires Keyed(rows)
    ensures Keyed(ReplaceAll(rows, likes))
  {
    if likes != [] {
      ReplaceAllKeyed(rows, likes[..|likes| - 1]);
    }
  }

  /**
   * Deleting a post's likes right after inserting a like for it undoes the
   * insert, unless the insert had overwritten a like of another post.
   */
  lemma DeleteUndoesInsert(rows: LikeRows, like: LikeEntity)
    requires like.key !in rows || rows[like.key].likepostId == like.likepostId
    ensures WithoutPost(Replace(rows, like), like.likepostId) == WithoutPost(rows, like.likepostId)
  {
    var a, b := WithoutPost(Replace(rows, like), like.likepostId), WithoutPost(rows, like.likepostId);
    assert a.Keys == b.Keys;
  }

  /** The likes table with the DAO's statements. */
  class LikeTable {
    var rows: LikeRows

    ghost predicate Valid()
      reads this
    {
      Keyed(rows)
    }

    constructor ()
      ensures Valid() && rows == map[]
    {
      rows := map[];
    }

    /** insertLike */
    method InsertLike(like: LikeEntity)
      requires Valid()
      modifies this
      ensures Valid() && rows == Replace(old(rows), like)
    {
      rows := rows[like.key := like];
    }

    /** insertLikes: one REPLACE per element, in list order. */
    method InsertLikes(likes: seq<LikeEntity>)
      requires Valid()
      modifies this
      ensures Valid() && rows == ReplaceAll(old(rows), likes)
    {
      var i := 0;
      while i < |likes|
        invariant 0 <= i <= |likes|
        invariant rows == ReplaceAll(old(rows), likes[..i])
      {
        assert likes[..i + 1][..i] == likes[..i];
        rows := rows[likes[i].key := likes[i]];
        i := i + 1;
      }
      assert likes[..i] == likes;
      ReplaceAllKeyed(old(rows), likes);
    }

    /** getAllLikes */
    function GetAllLikes(): (r: set<LikeEntity>)
      requires Valid()
      reads this
      ensures forall l :: l in r <==> l.key in rows && rows[l.key] == l
    {
      AllRows(rows)
    }

    /** deleteLike: removes exactly the rows of that post. */
    method DeleteLike(postId: string)
      requires Valid()
      modifies this
      ensures Valid() && rows == WithoutPost(old(rows), postId)
      ensures forall k :: k in rows ==> rows[k].likepostId != postId
    {
      rows := map k | k in rows && rows[k].likepostId != postId :: rows[k];
    }

    /** deleteAllLikes: the table is empty whatever it held, so a second call changes nothing. */
    method DeleteAllLikes()
      modifies this
      ensures Valid() && rows == map[]
    {
      rows := map[];
    }
  }
}
