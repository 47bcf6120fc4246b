/**
 * What the server emits and what it stores: outbound payloads, the entries of
 * the output log, and the `files` rows the `content-change` handler updates.
 */
module Protocol {
  import opened Common

  /** Outbound payloads, one constructor per outbound event. */
  datatype Payload =
    | UserJoined(userId: ConnId, timestamp: Timestamp, totalUsers: nat)
    | UserLeft(userId: ConnId, timestamp: Timestamp, totalUsers: nat)
    | UsersCount(count: nat)
    | ContentUpdated(fileId: FileId, content: string, title: string, userId: ConnId, timestamp: Timestamp)
    | CursorUpdated(position: Blob, selection: Blob, userId: ConnId, timestamp: Timestamp)
    | UserTyping(userId: ConnId, isTyping: bool, timestamp: Timestamp)
    | SaveError(message: string, error: string)
    | Pong

  /** The event name each payload travels under. */
  function EventName(p: Payload): string
  {
    match p
    case UserJoined(_, _, _) => "user-joined"
    case UserLeft(_, _, _) => "user-left"
    case UsersCount(_) => "users-count"
    case ContentUpdated(_, _, _, _, _) => "content-updated"
    case CursorUpdated(_, _, _, _) => "cursor-updated"
    case UserTyping(_, _, _) => "user-typing"
    case SaveError(_, _) => "error"
    case Pong => "pong"
  }

  /** One emit: the recipients, the event name and the payload. */
  datatype Message = Message(to: set<ConnId>, event: string, payload: Payload)

  function Emit(to: set<ConnId>, p: Payload): Message
  {
    Message(to, EventName(p), p)
  }

  /** The `message` field of the `error` event sent when the store write throws. */
  const SaveFailed := "Failed to save content"

  /** A `files` row, as far as the server touches it. */
  datatype Doc = Doc(content: string, title: string, updatedAt: Timestamp)

  type Store = map<FileId, Doc>

  /**
   * `UPDATE files SET content, title, updated_at = NOW() WHERE id = fileId`:
   * the matching row, if any, takes the new content, title and time; no row is
   * created and no other row changes.
   */
  function Update(store: Store, fileId: FileId, content: string, title: string, now: Timestamp): (store': Store)
    ensures store'.Keys == store.Keys
    ensures fileId in store ==> store'[fileId] == Doc(content, title, now)
    ensures forall f :: f in store && f != fileId ==> store'[f] == store[f]
  {
    if fileId in store then store[fileId := Doc(content, title, now)] else store
  }

  /** Last write wins: a second update of the same row overwrites the first entirely. */
  lemma LastWriteWins(store: Store, fileId: FileId, c1: string, t1: string, n1: Timestamp,
                      c2: string, t2: string, n2: Timestamp)
    ensures Update(Update(store, fileId, c1, t1, n1), fileId, c2, t2, n2) == Update(store, fileId, c2, t2, n2)
  {
  }
}
