/** Failure-carrying values shared by every module of the model. */
module Wrappers {

  /** A value that may be absent (Python's `None`). */
  datatype Option<+T> = None | Some(value: T)

  /** The outcome of a call that either returns a value or raises. */
  datatype Result<+R, +E> = Ok(value: R) | Err(error: E)
}

/** The Python exceptions the modelled code raises or catches. */
module PyErrors {

  datatype Error =
    | ValueError          // strptime/float/int rejected their argument
    | TypeError           // wrong argument kind (None, unexpected keyword)
    | IndexError          // a list index past the end
    | AttributeError      // attribute read on a value that does not have it
    | EOFError            // input() found the end of the response stream
    | NoHeader            // transaction_reader.NoHeaderException
    | MissingBankHeader(header: seq<string>)  // banksheet_converter.MissingBankHeaderException
}
