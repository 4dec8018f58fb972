/** Option and Result, the failure-compatible wrappers used across the model. */
module Wrappers {

  datatype Option<+T> = None | Some(value: T)

  /** Why the batch run stops. Each case is an exception the script does not catch. */
  datatype Failure =
    | Incomparable                 // sorted(...) meets a pair cmp_items answers None for: TypeError
    | FileMissing(path: string)    // open/os.remove/os.rename of a path that is not there
    | NoTitleText(file: string)    // the heading line has no title text: search_ret is None
    | NotTitled(file: string)      // list.index finds no title-map key for the post: ValueError

  datatype Result<+R> = Ok(value: R) | Err(error: Failure) {
    predicate IsFailure() { Err? }

    function PropagateFailure<U>(): Result<U>
      requires Err?
    {
      Err(error)
    }

    function Extract(): R
      requires Ok?
    {
      value
    }
  }
}
