/** Failure values of the report parser.

    The scraper never catches anything: every malformed line ends the call
    with the Python exception that the failing operation raises. The model
    keeps those exception kinds as values. */
module Errors {

  /** The exceptions the scraper's parsing code can raise. */
  datatype PyError =
    | IndexError      // a list index (`q[1]`, `sArr[17]`, `q[-2]`) out of range
    | AssertionError  // an `assert` on a keyword or a token count failed
    | ValueError      // `int(...)` or `float(...)` rejected its argument
    | KeyError        // a column the table does not have (`sort_values(by='datetime')`)

  /** Either a value or the exception that interrupted its computation. */
  datatype Result<+T> = Ok(value: T) | Err(error: PyError) {
    predicate IsFailure() { Err? }

    function PropagateFailure<U>(): Result<U>
      requires Err?
    {
      Err(error)
    }

    function Extract(): T
      requires Ok?
    {
      value
    }
  }
}
