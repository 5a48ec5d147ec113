/** The paginated list state that UsersPage, DepositsPage, WithdrawalsPage and
    NotificationsPage each keep in their own `useState` hooks: a zero-based
    page, the page size, the rows and total of the last good response, the
    error banner and the loading flag. Each page holds one of these values in a
    field and reassigns it in its handlers. */
module ListView {
  import opened Wrappers

  /** A list response: its rows and `pagination.totalItems`, which a malformed
      payload may lack. */
  datatype ListPage<T> = ListPage(rows: seq<T>, totalItems: Option<int>)

  datatype ListState<T> = ListState(
    page: int,
    rowsPerPage: int,
    rows: seq<T>,
    total: int,
    error: Option<string>,
    loading: bool)
  {
    /** Settles a fetch. A good response replaces rows and total and clears the
        error. A response without `pagination` has already replaced the rows
        when reading `pagination.totalItems` throws, so the total is kept and
        the error is set. A failed call keeps rows and total and sets the error.
        Loading ends in every case; the cursor is never touched. */
    function Settle(reply: Reply<ListPage<T>>, failure: string): (s: ListState<T>)
      ensures s.page == page && s.rowsPerPage == rowsPerPage && !s.loading
      ensures s.error == None <==> reply.Ok? && reply.data.totalItems.Some?
      ensures s.error != None ==> s.error == Some(failure)
      ensures s.rows == if reply.Ok? then reply.data.rows else rows
      ensures s.total == if s.error == None then reply.data.totalItems.value else total
    {
      match reply
      case Ok(ListPage(newRows, Some(t))) => this.(rows := newRows, total := t, error := None, loading := false)
      case Ok(ListPage(newRows, None)) => this.(rows := newRows, error := Some(failure), loading := false)
      case Failed(_, _) => this.(error := Some(failure), loading := false)
    }
  }

  /** The state every list page starts in: page 0 of 20 rows, loading. */
  function Initial<T>(): ListState<T> {
    ListState(0, 20, [], 0, None, true)
  }

  /** `setPage(n)`. */
  function WithPage<T>(s: ListState<T>, n: int): ListState<T> {
    s.(page := n)
  }

  /** `setRowsPerPage(n); setPage(0)`. */
  function WithRowsPerPage<T>(s: ListState<T>, n: int): ListState<T> {
    s.(rowsPerPage := n, page := 0)
  }

  /** Whether the fetch callback's dependencies changed, so that React reruns
      the effect and issues one more fetch. */
  predicate CursorMoved<T>(before: ListState<T>, after: ListState<T>) {
    before.page != after.page || before.rowsPerPage != after.rowsPerPage
  }
}
