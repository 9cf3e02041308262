/**
 * The argument checks of Remotion.Utilities.ArgumentUtility and the width of C#'s `int`.
 * ArgumentUtility throws; here a failed check is an ArgumentError naming the parameter.
 */
module Utilities {
  import opened Wrappers

  /** ArgumentNullException and ArgumentEmptyException, with the parameter name they carry. */
  datatype ArgumentError =
    | ArgumentNull(paramName: string)
    | ArgumentEmpty(paramName: string)

  /** C#'s `int`: a 32-bit two's-complement integer. */
  newtype Int32 = x: int | -0x8000_0000 <= x < 0x8000_0000

  /** `ArgumentUtility.CheckNotNull`: fails on `null`, otherwise passes the value through. */
  function CheckNotNull<T>(paramName: string, actual: Option<T>): Result<T, ArgumentError>
  {
    match actual
    case None => Failure(ArgumentNull(paramName))
    case Some(v) => Success(v)
  }

  /** `ArgumentUtility.CheckNotNullOrEmpty` on a string: fails on `null` and on "". */
  function CheckNotNullOrEmpty(paramName: string, actual: Option<string>): Result<string, ArgumentError>
  {
    match actual
    case None => Failure(ArgumentNull(paramName))
    case Some(s) => if s == [] then Failure(ArgumentEmpty(paramName)) else Success(s)
  }
}
