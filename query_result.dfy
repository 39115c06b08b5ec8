/**
 * Read-only wrappers over what a statement returned: the rows of a fetch, and
 * the counts reported by insert, update and delete.
 */
module QueryResults {

  import opened Wrappers

  /**
   * The rows of one fetch, fixed at construction. Reading a boundary element of
   * an empty result gives `undefined` in the source; here that is `None`.
   */
  datatype QueryResult<T> = QueryResult(rows: seq<T>) {

    /** `all()`: the rows exactly as given. */
    function All(): (r: seq<T>)
      ensures |r| == |rows| && forall i :: 0 <= i < |r| ==> r[i] == rows[i]
    {
      rows
    }

    /** `first()`: element 0, nothing when empty. */
    function First(): (r: Option<T>)
      ensures r.Some? <==> |rows| > 0
      ensures r.Some? ==> r.value == rows[0]
    {
      if |rows| > 0 then Some(rows[0]) else None
    }

    /** `last()`: element `length - 1`, nothing when empty. */
    function Last(): (r: Option<T>)
      ensures r.Some? <==> |rows| > 0
      ensures r.Some? ==> r.value == rows[|rows| - 1]
    {
      if |rows| > 0 then Some(rows[|rows| - 1]) else None
    }
  }

  /** On a one-row result the first and the last row are the same. */
  lemma OneRowFirstIsLast<T>(q: QueryResult<T>)
    requires |q.rows| == 1
    ensures q.First() == q.Last() == Some(q.rows[0])
  {
  }

  /** Appending a row makes it the last one; prepending makes it the first. */
  lemma BoundaryOfExtended<T>(rows: seq<T>, x: T)
    ensures QueryResult(rows + [x]).Last() == Some(x)
    ensures QueryResult([x] + rows).First() == Some(x)
    ensures |rows| > 0 ==> QueryResult(rows + [x]).First() == QueryResult(rows).First()
  {
  }

  /** The count an insert reported. */
  datatype InsertResult = InsertResult(numRows: int) {
    function RowsInserted(): (r: int)
      ensures r == numRows
    {
      numRows
    }
  }

  /** The count an update reported. */
  datatype UpdateResult = UpdateResult(affectedRows: int) {
    function RowsAffected(): (r: int)
      ensures r == affectedRows
    {
      affectedRows
    }
  }

  /** The count a delete reported. */
  datatype DeleteResult = DeleteResult(affectedRows: int) {
    function RowsAffected(): (r: int)
      ensures r == affectedRows
    {
      affectedRows
    }
  }
}
