/** The stored records of reader engagement and the JSON documents holding them. */
module Records {
  import opened Common

  /** A comment as the routes and the storage layer keep it. `date` is the
      timestamp `new Date(date).getTime()`, the only way dates are ever compared.
      `replies` is present only on records written by the reply route. */
  datatype Comment = Comment(
    id: string,
    author: string,
    content: string,
    date: int,
    contentType: string,
    contentId: string,
    parentId: Option<string>,
    authorLiked: Option<bool>,
    replies: Option<seq<Comment>>)

  /** A comment as the public routes send it to browsers: the type, the content id
      and the parent id are removed. */
  datatype PublicComment = PublicComment(
    id: string,
    author: string,
    content: string,
    date: int,
    authorLiked: Option<bool>,
    replies: Option<seq<Comment>>)

  /** `const { type, contentId, parentId, ...rest } = c`. */
  function Public(c: Comment): PublicComment {
    PublicComment(c.id, c.author, c.content, c.date, c.authorLiked, c.replies)
  }

  /** A JSON document on disk: missing, present but unreadable or not parseable,
      or holding a parsed value. */
  datatype JsonFile<T> = Absent | Unreadable | Stored(value: T)

  /** Reading a document the way every reader here does: the parsed value, or the
      given empty value when the file is missing or cannot be read or parsed. */
  function ReadOr<T>(f: JsonFile<T>, empty: T): (r: T)
    ensures f.Stored? ==> r == f.value
    ensures !f.Stored? ==> r == empty
  {
    if f.Stored? then f.value else empty
  }

  /** The JSON answer of a route handler: a payload, or `{ error }`, with a status. */
  datatype Response<T> = Json(status: int, value: T) | Error(status: int, error: string)

  /** The status Next.js answers with when a handler throws without catching. */
  const Unhandled := "Internal Server Error"
  const WriteFailed := "write failed"

  /** One JSON document that a route reads and rewrites on its own. Reading first
      creates a missing file holding `empty`, and falls back to `empty` when the file
      cannot be read or parsed; writing overwrites the whole file. `writable` says
      whether the data directory accepts writes; a write to a read-only directory
      throws. */
  class Document<T> {
    var file: JsonFile<T>
    const writable: bool
    const empty: T

    constructor (file: JsonFile<T>, writable: bool, empty: T)
      ensures this.file == file && this.writable == writable && this.empty == empty
    {
      this.file := file;
      this.writable := writable;
      this.empty := empty;
    }

    /** `init*File()` followed by the guarded read. */
    method Load() returns (r: Result<T>)
      modifies this`file
      ensures old(file).Absent? && !writable ==> r == Err(WriteFailed) && file == old(file)
      ensures !(old(file).Absent? && !writable) ==>
        r == Ok(ReadOr(old(file), empty)) &&
        file == if old(file).Absent? then Stored(empty) else old(file)
    {
      if file.Absent? {
        if !writable {
          return Err(WriteFailed);
        }
        file := Stored(empty);
      }
      r := Ok(ReadOr(file, empty));
    }

    /** `save*()`: overwrites the file with exactly `value`. */
    method Save(value: T) returns (o: Outcome)
      modifies this`file
      ensures o == Done <==> writable
      ensures file == if writable then Stored(value) else old(file)
    {
      if writable {
        file := Stored(value);
        o := Done;
      } else {
        o := Threw(WriteFailed);
      }
    }
  }

  /** The date of a comment, the key of the ascending sort of replies. */
  function DateOf(c: Comment): int { c.date }

  /** The negated date of a comment: sorting by it puts the newest first. */
  function NewestFirst(c: Comment): int { -c.date }
}
