/** The error values the model tells apart. */
module Errors {

  datatype Error =
    | ErrTestError           // the package's general test error (errors.go)
    | EOF                    // io.EOF: a stream ended cleanly
    | Failure(text: string)  // any other error, identified by its message
}
