/** Failures of the tensor operations, one per exception the source raises,
  * and the result wrappers that carry them. */
module Errors {

  datatype Error =
    | IndexOutOfRange        // an array or list read outside its bounds
    | DivideByZero           // integer `%` or `/` by zero
    | NegativeSize           // allocating an array of negative length
    | ArgumentOutOfRange     // a negative copy offset, or a list read below zero
    | InvalidArgument        // a copy whose source range runs past the array's end
    | DuplicateAxis          // "The specified element is a duplicate"
    | AxisOutOfRange         // "The specified element is out of range"
    | ElementSpecification   // "Element specification is incorrect"
    | MultipleInferred       // "More than one -1 is specified"
    | SizeMismatch           // "The size of the specified Shape is not equal to the current Data.Length"
    | ArraySizeMismatch      // "Array sizes are not matched"
    | BatchMismatch          // "Batch size is not matched"

  datatype Result<T> = Ok(value: T) | Err(error: Error)

  datatype Outcome = Pass | Fail(error: Error)

  datatype Option<T> = None | Some(value: T)
}
