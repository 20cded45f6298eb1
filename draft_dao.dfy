/**
 * The draft table behind room/dao/DraftDao.kt. Each statement of the DAO
 * is one atomic change of a map from draft id to row.
 */
module DraftDao {
  import opened Wrappers

  /**
   * A saved draft. The record class is declared outside this model; the id
   * is its primary key, generated by the database for a new draft.
   */
  datatype DraftRecord = DraftRecord(id: int, postTitle: string, postBody: string, imageUri: string)

  type DraftRows = map<int, DraftRecord>

  /** Every row is stored under its own id. */
  ghost predicate Keyed(rows: DraftRows)
  {
    forall k :: k in rows ==> rows[k].id == k
  }

  /** SELECT * FROM draft WHERE id = :id, which yields no row for an unknown id. */
  function DraftById(rows: DraftRows, id: int): (r: Option<DraftRecord>)
    requires Keyed(rows)
    ensures r.Some? <==> id in rows
    ensures r.Some? ==> r.value == rows[id] && r.value.id == id
  {
    if id in rows then Some(rows[id]) else None
  }

  /** Inserting a draft under an unused id and then deleting that id restores the table. */
  lemma DeleteUndoesInsert(rows: DraftRows, d: DraftRecord)
    requires d.id !in rows
    ensures rows[d.id := d] - {d.id} == rows
  {
  }

  /** A stored draft reads back as it was written; the other drafts are unchanged. */
  lemma InsertThenRead(rows: DraftRows, d: DraftRecord, id: int)
    requires Keyed(rows)
    ensures Keyed(rows[d.id := d])
    ensures DraftById(rows[d.id := d], id) == if id == d.id then Some(d) else DraftById(rows, id)
  {
  }

  /** The draft table with the DAO's statements. */
  class DraftTable {
    var rows: DraftRows

    ghost predicate Valid()
      reads this
    {
      Keyed(rows)
    }

    constructor ()
      ensures Valid() && rows == map[]
    {
      rows := map[];
    }

    /** getAllDrafts: every row, as a set (the query has no ORDER BY). */
    function GetAllDrafts(): (r: set<DraftRecord>)
      requires Valid()
      reads this
      ensures forall d :: d in r <==> d.id in rows && rows[d.id] == d
    {
      set k | k in rows :: rows[k]
    }

    /** insertDraft with OnConflictStrategy.REPLACE: a draft with the same id is overwritten. */
    method InsertDraft(draft: DraftRecord)
      requires Valid()
      modifies this
      ensures Valid()
      ensures rows == old(rows)[draft.id := draft]
    {
      rows := rows[draft.id := draft];
    }

    /**
     * getDraftById. The DAO declares a non-null result, so the row must
     * exist; DraftById is the nullable form the repository layer offers.
     */
    method GetDraftById(id: int) returns (draft: DraftRecord)
      requires Valid() && id in rows
      ensures draft.id == id && DraftById(rows, id) == Some(draft)
    {
      draft := rows[id];
    }

    /** deleteDraftById: the table no longer holds that id; every other draft stays. */
    method DeleteDraftById(id: int)
      requires Valid()
      modifies this
      ensures Valid() && rows == old(rows) - {id}
      ensures DraftById(rows, id) == None
    {
      rows := rows - {id};
    }

    /** deleteAllDrafts: the table is empty whatever it held. */
    method DeleteAllDrafts()
      modifies this
      ensures Valid() && rows == map[]
    {
      rows := map[];
    }
  }
}
