/** Small notions shared by the modules. */
module Basics {
  /** For everything the source writes as `X | None`. */
  datatype Option<+T> = None | Some(value: T)

  function One(b: bool): nat { if b then 1 else 0 }
}
