/** Optional values and the status codes shared by the modelled components. */
module Wrappers {

  datatype Option<+T> = None | Some(value: T)

  /** The subset of the runtime's status codes that the modelled calls return. */
  datatype Status = Success | Error | Inval | Busy | Again | DevError | NoMem

}
