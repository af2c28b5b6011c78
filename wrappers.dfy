/** Optional values: a query that may find no row. */
module Wrappers {

  datatype Option<+T> = None | Some(value: T)

  /** The later of an optional day and a day. */
  function Later(last: Option<int>, day: int): (r: int)
    ensures r >= day
    ensures last.Some? ==> r >= last.value
    ensures r == day || (last.Some? && r == last.value)
  {
    match last
    case None => day
    case Some(d) => if d < day then day else d
  }
}
