/** How a read or a write ends, as the Go library reports it. */
module Io {
  datatype IoError = NoError | EOF | UnexpectedEOF | WriteFailed
}
