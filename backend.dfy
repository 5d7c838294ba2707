/**
 * The shapes of the answers the external backend client gives the pages.
 * The client itself is not part of this model: each page method takes the
 * answer it would have awaited as a parameter.
 */
module Backend {
  import opened Wrappers

  /** The `{ data, error }` pair a select query resolves to. */
  datatype Query<T> = Query(data: Option<seq<T>>, error: Option<string>)

  /** The signed-in user as `auth.getUser()` reports it. */
  datatype User = User(id: string)

  /** `data || []`: the rows of a query, or no rows when it returned none. */
  function RowsOrEmpty<T>(data: Option<seq<T>>): (r: seq<T>)
    ensures data.Some? ==> r == data.value
    ensures data.None? ==> r == []
  {
    match data
    case Some(rows) => rows
    case None => []
  }
}
