/** Shared result types for the page parser. */
module Basics {

  datatype Option<+T> = None | Some(value: T)

  /** The parser either yields a value or fails with one of the exceptions it raises. */
  datatype Result<+T, +E> = Ok(value: T) | Err(error: E)

  /**
   * Every way a page parse can fail. The two number errors are the two ValueErrors
   * that parse_number can raise (its own final raise, and int() refusing the
   * comma-joined text); the three Missing errors are the ones parse_mei_page raises.
   */
  datatype Error =
    | NotANumber(text: string)
    | BadIntLiteral(text: string)
    | MissingClass(carId: int)
    | MissingStars(carId: int)
    | MissingStats(carId: int)

  /** The errors parse_number raises. */
  predicate IsNumberError(e: Error) {
    e.NotANumber? || e.BadIntLiteral?
  }
}
