/** Types that several modules share. */
module Shared {

  datatype Option<+T> = None | Some(value: T)

  /** A goroutine. */
  datatype Gid = Gid(id: int)
}
