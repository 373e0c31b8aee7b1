/** Option and Result, the two failure-carrying shapes the model uses for
    "no such value" (a NaN from parseInt, an empty date field) and for the
    validation errors that the page reports with an alert. */
module Wrappers {

  datatype Option<+T> = None | Some(value: T)

  datatype Result<+R, +E> = Success(value: R) | Failure(error: E)
}
