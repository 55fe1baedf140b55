/** Types that several components share. */
module Basics {

  datatype Option<+A> = None | Some(value: A)

  /** A thread. */
  type Tid = nat

  /** Who holds a lock. */
  datatype Holder = Free | By(t: Tid)
}
