/** `FlattenError` of `src/error.rs` and the text its `Display` shows. */
module Errors {

  /** `Io` carries the message of the underlying I/O error. */
  datatype FlattenError = Io(msg: string) | Pattern(msg: string) | Processing(msg: string)

  function Message(e: FlattenError): (r: string)
    ensures |r| > |e.msg| && r[|r| - |e.msg|..] == e.msg
  {
    match e
    case Io(m) => "IO error: " + m
    case Pattern(m) => "Pattern error: " + m
    case Processing(m) => "Processing error: " + m
  }
}
