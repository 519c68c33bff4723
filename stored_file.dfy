/**
 * StoredFile: one row of the `files` table as a record, the whitelist that
 * turns its field names into column names, the mapping from a result row,
 * and the two conversions to and from the observer's `File` shape.
 */
module StoredFiles {
  import opened Js
  import opened Db
  import opened Text

  /**
   * A file attached to a post. Every field holds whatever JavaScript value
   * the row or the observer file supplied; a column left out of the SELECT
   * leaves its field undefined (or null, for the three nullable columns).
   */
  datatype StoredFile = StoredFile(
    id: JsValue,
    postId: JsValue,
    listIndex: JsValue,
    url: JsValue,
    thumbnailUrl: JsValue,
    uploadName: JsValue,
    cdnName: JsValue,
    checkSum: JsValue,
    isDeleted: JsValue,
    extension: JsValue,
    data: JsValue,
    thumbnailData: JsValue)

  /** The instance fields of a StoredFile, in declaration order: the whitelist of field names. */
  const FieldNames: seq<string> := ["id", "postId", "listIndex", "url", "thumbnailUrl", "uploadName", "cdnName",
                                    "checkSum", "isDeleted", "extension", "data", "thumbnailData"]

  /** The columns `MakeFromTableRow` reads, in the same order as `FieldNames`. */
  const RowColumns: seq<string> := ["id", "post_id", "list_index", "url", "thumbnail_url", "upload_name", "cdn_name",
                                    "check_sum", "is_deleted", "extension", "data", "thumbnail_data"]

  /** The camel-to-snake conversion, on the names it is ever applied to. */
  function CamelToSnakeCase(name: string): (column: string)
    requires name in FieldNames
    ensures forall i :: 0 <= i < |FieldNames| && FieldNames[i] == name ==> column == RowColumns[i]
  {
    match name
    case "postId" => "post_id"
    case "listIndex" => "list_index"
    case "thumbnailUrl" => "thumbnail_url"
    case "uploadName" => "upload_name"
    case "cdnName" => "cdn_name"
    case "checkSum" => "check_sum"
    case "isDeleted" => "is_deleted"
    case "thumbnailData" => "thumbnail_data"
    case _ => name
  }

  /**
   * The column a field is stored in; an unknown field name is refused
   * before any conversion happens.
   */
  function ConvertFieldToSnakeCase(name: string): (r: Result<string>)
    ensures r.Success? <==> name in FieldNames
    ensures r.Failure? ==> r.error == UnknownField(name)
    ensures forall i :: 0 <= i < |FieldNames| && FieldNames[i] == name ==> r == Success(RowColumns[i])
  {
    if name in FieldNames then Success(CamelToSnakeCase(name)) else Failure(UnknownField(name))
  }

  /** Distinct field names give distinct columns, so the conversion loses nothing. */
  lemma ConvertFieldIsInjective(a: string, b: string)
    requires ConvertFieldToSnakeCase(a).Success? && ConvertFieldToSnakeCase(b).Success?
    requires ConvertFieldToSnakeCase(a) == ConvertFieldToSnakeCase(b)
    ensures a == b
  {
    var i, k := IndexOf(FieldNames, a), IndexOf(FieldNames, b);
    assert ConvertFieldToSnakeCase(a) == Success(RowColumns[i]);
    assert ConvertFieldToSnakeCase(b) == Success(RowColumns[k]);
    RowColumnsDistinct();
  }

  lemma RowColumnsDistinct()
    ensures Distinct(RowColumns)
  {
  }

  /** `file[name]`: the value of the field called `name`. */
  function FieldValue(file: StoredFile, name: string): JsValue
  {
    match name
    case "id" => file.id
    case "postId" => file.postId
    case "listIndex" => file.listIndex
    case "url" => file.url
    case "thumbnailUrl" => file.thumbnailUrl
    case "uploadName" => file.uploadName
    case "cdnName" => file.cdnName
    case "checkSum" => file.checkSum
    case "isDeleted" => file.isDeleted
    case "extension" => file.extension
    case "data" => file.data
    case "thumbnailData" => file.thumbnailData
    case _ => Undefined
  }

  /**
   * The record a result row denotes. The eight plain columns are copied as
   * they read (undefined when not selected); `is_deleted` becomes a boolean;
   * the three nullable columns become null when they were not selected and
   * are copied, stored NULL included, when they were.
   */
  function RowToFile(row: Row): (f: StoredFile)
    ensures f.id == Property(row, "id") && f.postId == Property(row, "post_id") && f.listIndex == Property(row, "list_index")
    ensures f.url == Property(row, "url") && f.thumbnailUrl == Property(row, "thumbnail_url")
    ensures f.uploadName == Property(row, "upload_name") && f.cdnName == Property(row, "cdn_name")
    ensures f.checkSum == Property(row, "check_sum")
    ensures f.isDeleted == Bool("is_deleted" in row && Truthy(ToJs(row["is_deleted"])))
    ensures "is_deleted" in row && row["is_deleted"].SqlInteger? ==> f.isDeleted == Bool(row["is_deleted"].i != 0)
    ensures f.extension == (if "extension" in row then ToJs(row["extension"]) else Null)
    ensures f.data == (if "data" in row then ToJs(row["data"]) else Null)
    ensures f.thumbnailData == (if "thumbnail_data" in row then ToJs(row["thumbnail_data"]) else Null)
  {
    var extension := Property(row, "extension");
    var data := Property(row, "data");
    var thumbnailData := Property(row, "thumbnail_data");
    StoredFile(Property(row, "id"), Property(row, "post_id"), Property(row, "list_index"), Property(row, "url"),
               Property(row, "thumbnail_url"), Property(row, "upload_name"), Property(row, "cdn_name"),
               Property(row, "check_sum"), Bool(Truthy(Property(row, "is_deleted"))),
               if extension == Undefined then Null else extension,
               if data == Undefined then Null else data,
               if thumbnailData == Undefined then Null else thumbnailData)
  }

  /**
   * `RowColumns` are the columns the row mapper reads: field i of the record
   * comes from column i, plainly for the first eight, as a boolean for
   * `is_deleted`, and defaulted to null for the three nullable ones.
   */
  lemma RowToFileReadsRowColumns(row: Row, i: nat)
    requires i < |FieldNames|
    ensures var v := Property(row, RowColumns[i]);
            FieldValue(RowToFile(row), FieldNames[i]) ==
              if i < 8 then v else if i == 8 then Bool(Truthy(v)) else if v == Undefined then Null else v
  {
  }

  /** Builds the record from a row: construct from the columns, then patch the nullable ones. */
  method MakeFromTableRow(row: Row) returns (file: StoredFile)
    ensures file == RowToFile(row)
  {
    file := StoredFile(Property(row, "id"), Property(row, "post_id"), Property(row, "list_index"), Property(row, "url"),
                       Property(row, "thumbnail_url"), Property(row, "upload_name"), Property(row, "cdn_name"),
                       Property(row, "check_sum"), Bool(Truthy(Property(row, "is_deleted"))),
                       Property(row, "extension"), Null, Null);
    if Property(row, "extension") == Undefined {
      file := file.(extension := Null);
    }
    if Property(row, "data") != Undefined {
      file := file.(data := Property(row, "data"));
    }
    if Property(row, "thumbnail_data") != Undefined {
      file := file.(thumbnailData := Property(row, "thumbnail_data"));
    }
  }

  /** The observer's `File`: its seven constructor arguments and the id assigned afterwards. */
  datatype ObserverFile = ObserverFile(
    id: JsValue,
    listIndex: JsValue,
    url: JsValue,
    thumbnailUrl: JsValue,
    uploadName: JsValue,
    cdnName: JsValue,
    checkSum: JsValue,
    isDeleted: JsValue)

  /** The observer's view of a stored file. */
  function ObserverFileOf(file: StoredFile): (o: ObserverFile)
    ensures o.id == file.id && o.listIndex == file.listIndex && o.url == file.url
    ensures o.thumbnailUrl == file.thumbnailUrl && o.uploadName == file.uploadName && o.cdnName == file.cdnName
    ensures o.checkSum == file.checkSum && o.isDeleted == file.isDeleted
  {
    ObserverFile(file.id, file.listIndex, file.url, file.thumbnailUrl, file.uploadName, file.cdnName,
                 file.checkSum, file.isDeleted)
  }

  /** The observer view sees neither the post id nor the extension nor the two payloads, and everything else. */
  lemma ObserverFileDropsPostAndPayloads(a: StoredFile, b: StoredFile)
    ensures ObserverFileOf(a) == ObserverFileOf(b) <==>
            a.(postId := b.postId, extension := b.extension, data := b.data, thumbnailData := b.thumbnailData) == b
  {
  }

  /**
   * Builds the observer file from its seven constructor arguments, then
   * assigns the id; what the constructor leaves in `id` is not known here,
   * so it starts out undefined.
   */
  method ToObserverFile(file: StoredFile) returns (o: ObserverFile)
    ensures o == ObserverFileOf(file)
  {
    o := ObserverFile(Undefined, file.listIndex, file.url, file.thumbnailUrl, file.uploadName, file.cdnName,
                      file.checkSum, file.isDeleted);
    o := o.(id := file.id);
  }

  /**
   * A storable record for an observed file of post `postId`: the three
   * nullable columns start out null, and converting back gives the observed
   * file unchanged.
   */
  function MakeFromObserverFile(file: ObserverFile, postId: JsValue): (r: StoredFile)
    ensures r.postId == postId
    ensures r.extension == Null && r.data == Null && r.thumbnailData == Null
    ensures ObserverFileOf(r) == file
  {
    StoredFile(file.id, postId, file.listIndex, file.url, file.thumbnailUrl, file.uploadName, file.cdnName,
               file.checkSum, file.isDeleted, Null, Null, Null)
  }

  /** Going through the observer shape and back keeps everything but the extension and the two payloads. */
  lemma StoredThroughObserver(file: StoredFile)
    ensures MakeFromObserverFile(ObserverFileOf(file), file.postId)
            == file.(extension := Null, data := Null, thumbnailData := Null)
  {
  }
}
