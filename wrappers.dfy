/** Small result types shared by every layer of the model. */
module Wrappers {

  datatype Option<+T> = None | Some(value: T)

  /** What a repository method hands back: either a record of the table
      (`Row`) or one member of the entity's response enum (`Sentinel`),
      the `Entity | EEntityResponse.X` unions of the repository interfaces. */
  datatype Reply<+T, +E> = Row(row: T) | Sentinel(code: E)

  /** The rows a successful write adds to its table: none for a sentinel. */
  function RowsOf<T, E>(reply: Reply<T, E>): (rows: seq<T>)
    ensures reply.Row? ==> rows == [reply.row]
    ensures reply.Sentinel? ==> rows == []
  {
    match reply
    case Row(t) => [t]
    case Sentinel(_) => []
  }
}
