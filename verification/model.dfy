/** Shared vocabulary of the bot: identities, stored file references and the
    content records kept in the video registry. */
module Model {

  /** The conventional Some/None datatype, standing in for Python's `None`. */
  datatype Option<+T> = None | Some(value: T)

  /** A Telegram user id (an arbitrary-precision Python int). */
  type UserId = int

  /** An opaque Telegram file handle; the bot never interprets it. */
  type FileId = string

  /** A registry key: the decimal string of a Unix timestamp in the bot. */
  type VideoId = string

  /** The `type` tag of a stored file. Files collected by the bot only carry the
      first four; `Unrecognised` stands for any other tag a hand-edited or older
      data file may hold, which the delivery loop still has to cope with. */
  datatype FileKind = Video | Document | Audio | Photo | Unrecognised(tag: string)

  /** One collected file: `{"type": ..., "file_id": ...}`. */
  datatype FileRef = FileRef(kind: FileKind, fileId: FileId)

  /** One registry entry. The title and poster are optional because the
      session that produced them may never have reached those steps. */
  datatype Record = Record(
    title: Option<string>,
    poster: Option<FileId>,
    files: seq<FileRef>,
    createdAt: string,
    createdBy: UserId)

  /** Membership in the configured admin list `ADMIN_IDS`. */
  predicate IsAdmin(user: UserId, admins: seq<UserId>) {
    user in admins
  }

  /** Python truthiness of an optional string: present and non-empty. */
  predicate Truthy(s: Option<string>) {
    s.Some? && s.value != ""
  }
}
