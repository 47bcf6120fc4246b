/** Identifiers and small wrappers shared by the server and the editor models. */
module Common {

  /** A socket.io connection id (`socket.id`). */
  type ConnId = string

  /** A collaboration room key, as sent with `join-room` and friends. */
  type RoomId = string

  /** A document id (the `files.id` column, a UUID as text). */
  type FileId = string

  /** `new Date().toISOString()`: the clock is outside the model, so it is an opaque value. */
  type Timestamp = string

  /** A client-supplied value the server only forwards (cursor position, selection). */
  type Blob = string

  datatype Option<T> = None | Some(value: T)

  /** JavaScript truthiness of a string: only the empty string is falsy. */
  predicate Truthy(s: string)
  {
    s != ""
  }
}
