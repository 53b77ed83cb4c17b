/** Values shared by the desktop service, the call store, the tracker and the renderer. */
module Common {

  datatype Option<T> = None | Some(value: T)

  /** The outcome of an operation that may throw: `Err` carries the thrown error's message. */
  datatype Result<T> = Ok(value: T) | Err(error: string)

  /** A call as the service creates it, the store lists it and the renderer shows it. */
  datatype Call = Call(id: string, to: string, status: string, timestamp: int)

  /** A desktop notification with its title and body. */
  datatype Notice = Notice(title: string, body: string)
}
