/**
 * StoredPost: one row of the `posts` table as a record, the mapping from a
 * result row, and the conversion to the observer's `Post` shape.
 */
module StoredPosts {
  import opened Js
  import opened Db
  import StoredFiles

  datatype StoredPost = StoredPost(
    id: JsValue,
    threadId: JsValue,
    number: JsValue,
    listIndex: JsValue,
    createTimestamp: JsValue,
    name: JsValue,
    comment: JsValue,
    isBanned: JsValue,
    isDeleted: JsValue,
    isOp: JsValue)

  /** `Boolean(row.name)` for an integer-encoded flag column. */
  function Flag(row: Row, name: string): JsValue
  {
    Bool(Truthy(Property(row, name)))
  }

  /**
   * The record a `posts` row denotes: the snake-case columns land in their
   * camel-case fields, and the three flag columns become booleans, false
   * exactly for 0 (or a column that was not selected or is NULL).
   */
  function MakeFromTableRow(row: Row): (p: StoredPost)
    ensures p.id == Property(row, "id") && p.number == Property(row, "number")
    ensures p.name == Property(row, "name") && p.comment == Property(row, "comment")
    ensures p.threadId == Property(row, "thread_id") && p.listIndex == Property(row, "list_index")
    ensures p.createTimestamp == Property(row, "create_timestamp")
    ensures p.isBanned.Bool? && p.isDeleted.Bool? && p.isOp.Bool?
    ensures "is_banned" in row && row["is_banned"].SqlInteger? ==> p.isBanned == Bool(row["is_banned"].i != 0)
    ensures "is_deleted" in row && row["is_deleted"].SqlInteger? ==> p.isDeleted == Bool(row["is_deleted"].i != 0)
    ensures "is_op" in row && row["is_op"].SqlInteger? ==> p.isOp == Bool(row["is_op"].i != 0)
    ensures "is_banned" !in row || row["is_banned"] == SqlNull ==> p.isBanned == Bool(false)
    ensures "is_deleted" !in row || row["is_deleted"] == SqlNull ==> p.isDeleted == Bool(false)
    ensures "is_op" !in row || row["is_op"] == SqlNull ==> p.isOp == Bool(false)
  {
    StoredPost(Property(row, "id"), Property(row, "thread_id"), Property(row, "number"), Property(row, "list_index"),
               Property(row, "create_timestamp"), Property(row, "name"), Property(row, "comment"),
               Flag(row, "is_banned"), Flag(row, "is_deleted"), Flag(row, "is_op"))
  }

  /** The observer's `Post`: its nine constructor arguments. */
  datatype ObserverPost = ObserverPost(
    listIndex: JsValue,
    number: JsValue,
    createTimestamp: JsValue,
    name: JsValue,
    comment: JsValue,
    files: seq<StoredFiles.ObserverFile>,
    isBanned: JsValue,
    isDeleted: JsValue,
    isOp: JsValue)

  /** The observer's view of a stored post, carrying the given files as they are. */
  function ToObserverPost(post: StoredPost, files: seq<StoredFiles.ObserverFile>): (o: ObserverPost)
    ensures o.files == files
    ensures o.listIndex == post.listIndex && o.number == post.number && o.createTimestamp == post.createTimestamp
    ensures o.name == post.name && o.comment == post.comment
    ensures o.isBanned == post.isBanned && o.isDeleted == post.isDeleted && o.isOp == post.isOp
  {
    ObserverPost(post.listIndex, post.number, post.createTimestamp, post.name, post.comment, files,
                 post.isBanned, post.isDeleted, post.isOp)
  }

  /** The observer view does not see a post's own id nor its thread's id. */
  lemma ObserverPostDropsIds(a: StoredPost, b: StoredPost, files: seq<StoredFiles.ObserverFile>)
    requires a.(id := b.id, threadId := b.threadId) == b
    ensures ToObserverPost(a, files) == ToObserverPost(b, files)
  {
  }
}
