/** Small result types shared by the whole model.
    Go signals trouble in two ways: an `error` value handed back to the caller,
    and a `panic` that unwinds the goroutine. Both are modelled as values here. */
module Wrappers {

  datatype Option<+T> = None | Some(value: T)

  /** The outcome of an operation that may return a Go `error` or panic. */
  datatype Result<+T> =
    | Ok(value: T)
    | Error(msg: string)   // a non-nil `error` returned to the caller
    | Panic(msg: string)   // a Go `panic(...)`, or a runtime fault such as an out-of-range slice
  {
    predicate IsOk() { Ok? }
  }
}
