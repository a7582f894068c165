/** Failure-carrying results shared by every module of the rule engine. Where
    the Python code raises (an `assert`, a `ValueError`, an `IndexError`), the
    model returns `Err` of a `Result`; where `list.remove` finds no such card,
    it returns `None` of an `Option`. */
module Wrappers {

  datatype Option<+T> = None | Some(value: T)

  datatype Result<+T, +E> = Ok(value: T) | Err(error: E)
}
