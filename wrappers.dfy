/** The wrappers the decoders return: `Option` for a read that can run short,
    `Result` for a decode that can fail in more than one way. */
module Wrappers {

  datatype Option<+T> = None | Some(value: T)

  datatype Result<+T, +E> = Ok(value: T) | Err(error: E)
}
