/** The optional value the C# code expresses with `null` (an empty point's
    owner, the checker popped from an empty stack), and the result of an
    operation that may end in an exception. */
module Wrappers {

  datatype Option<+T> = None | Some(value: T)

  /** Why an operation ends without a result: the source throws (a null
      checker is dereferenced, or an index lies outside the points), or it
      recurses without bound, which the model cuts off when its fuel runs
      out. */
  datatype Fault = Crash | OutOfFuel

  datatype Outcome<+T> = Done(value: T) | Failed(fault: Fault)
}
