/** The exceptions that end a run. Every one of them propagates out of the
    batch; none is caught per file. */
module Errors {

  datatype Error =
    | QuotesError                       // `quotes` is not None, `'` or `"` (ValueError)
    | GeneratorError(generator: string) // the fake-data generator raised
    | ArgumentsError(arguments: string) // the argument text of a directive is not a valid call
    | CallError                         // the call does not bind to `dotenver`'s signature (TypeError)
    | ReadError(path: string)           // a file could not be read
}
