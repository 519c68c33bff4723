/**
 * The queries on the `files` table: the projection builder that lists the
 * table's columns minus the excluded ones, the single-row and many-row
 * selections that map rows to StoredFile records, the batched selection by
 * a list of post ids, and the insert and partial update.
 */
module FileTable {
  import opened Js
  import opened Db
  import opened Text
  import opened StoredFiles

  /** The columns of the `files` table, in declared order. */
  const TableColumns: seq<string> := ["id", "post_id", "list_index", "url", "thumbnail_url", "upload_name",
                                      "cdn_name", "check_sum", "is_deleted", "extension", "data", "thumbnail_data"]

  /** The binary payload columns, left out of every catalog read. */
  const PayloadColumns: seq<string> := ["data", "thumbnail_data"]

  /** The separator of the projection list. */
  const ColumnSeparator: string := ", "

  /** The elements of `xs` that are not in `excluded`, in the order of `xs`. */
  function Keep(xs: seq<string>, excluded: seq<string>): seq<string>
    decreases |xs|
  {
    if xs == [] then []
    else (if xs[0] in excluded then [] else [xs[0]]) + Keep(xs[1..], excluded)
  }

  /** The columns a SELECT lists when `excluded` is left out. */
  function Projected(excluded: seq<string>): seq<string>
  {
    Keep(TableColumns, excluded)
  }

  /** `ys` without its first `x` (unchanged if there is none): what `splice(indexOf(x), 1)` does. */
  function RemoveFirst(ys: seq<string>, x: string): seq<string>
    decreases |ys|
  {
    if ys == [] then []
    else if ys[0] == x then ys[1..]
    else [ys[0]] + RemoveFirst(ys[1..], x)
  }

  lemma {:induction false} SpliceIsRemoveFirst(ys: seq<string>, x: string)
    ensures IndexOf(ys, x) != -1 ==> RemoveFirst(ys, x) == ys[..IndexOf(ys, x)] + ys[IndexOf(ys, x) + 1..]
    ensures IndexOf(ys, x) == -1 ==> RemoveFirst(ys, x) == ys
    decreases |ys|
  {
    if ys != [] && ys[0] != x {
      SpliceIsRemoveFirst(ys[1..], x);
      var k := IndexOf(ys[1..], x);
      if k != -1 {
        assert ys[..k + 1] == [ys[0]] + ys[1..][..k];
        assert ys[k + 2..] == ys[1..][k + 1..];
      }
    }
  }

  lemma {:induction false} KeepMembers(xs: seq<string>, excluded: seq<string>)
    ensures forall c :: c in Keep(xs, excluded) <==> c in xs && c !in excluded
    decreases |xs|
  {
    if xs != [] {
      KeepMembers(xs[1..], excluded);
      assert forall c :: c in xs <==> c == xs[0] || c in xs[1..];
    }
  }

  lemma {:induction false} KeepIgnoresAbsent(xs: seq<string>, excluded: seq<string>, x: string)
    requires x !in xs
    ensures Keep(xs, excluded + [x]) == Keep(xs, excluded)
    decreases |xs|
  {
    if xs != [] {
      KeepIgnoresAbsent(xs[1..], excluded, x);
    }
  }

  lemma {:induction false} RemoveFirstAbsent(ys: seq<string>, x: string)
    requires x !in ys
    ensures RemoveFirst(ys, x) == ys
    decreases |ys|
  {
    if ys != [] {
      RemoveFirstAbsent(ys[1..], x);
    }
  }

  /** Removing the first `x` from a filtered list of distinct names is filtering `x` out as well. */
  lemma {:induction false} RemoveFirstFromKeep(xs: seq<string>, excluded: seq<string>, x: string)
    requires Distinct(xs)
    ensures RemoveFirst(Keep(xs, excluded), x) == Keep(xs, excluded + [x])
    decreases |xs|
  {
    if xs != [] {
      var h, t := xs[0], xs[1..];
      assert Distinct(t);
      assert h !in t;
      RemoveFirstFromKeep(t, excluded, x);
      var k := Keep(t, excluded);
      if h in excluded {
        assert h in excluded + [x];
        assert Keep(xs, excluded) == k;
        assert Keep(xs, excluded + [x]) == Keep(t, excluded + [x]);
      } else if h == x {
        assert h in excluded + [x];
        assert Keep(xs, excluded) == [h] + k;
        assert Keep(xs, excluded + [x]) == Keep(t, excluded + [x]);
        KeepIgnoresAbsent(t, excluded, x);
      } else {
        assert h !in excluded + [x];
        assert Keep(xs, excluded) == [h] + k;
        assert ([h] + k)[1..] == k;
        assert Keep(xs, excluded + [x]) == [h] + Keep(t, excluded + [x]);
      }
    }
  }

  /** The names of `r` occur in `xs` in the order they have in `r`. */
  ghost predicate InOrderOf(r: seq<string>, xs: seq<string>)
  {
    forall i, j :: 0 <= i < j < |r| ==> IndexOf(xs, r[i]) < IndexOf(xs, r[j])
  }

  /** The filtered list keeps the order of `xs`. */
  lemma {:induction false} KeepInOrder(xs: seq<string>, excluded: seq<string>)
    requires Distinct(xs)
    ensures InOrderOf(Keep(xs, excluded), xs)
    decreases |xs|
  {
    if xs != [] {
      var h, t := xs[0], xs[1..];
      assert Distinct(t);
      KeepInOrder(t, excluded);
      KeepMembers(t, excluded);
      if h in excluded {
        InOrderSkip(Keep(t, excluded), h, t);
      } else {
        InOrderCons(Keep(t, excluded), h, t);
      }
    }
  }

  lemma InOrderSkip(r: seq<string>, h: string, t: seq<string>)
    requires InOrderOf(r, t)
    requires forall c :: c in r ==> c in t && c != h
    ensures InOrderOf(r, [h] + t)
  {
    var xs := [h] + t;
    assert xs[1..] == t;
    forall i, j | 0 <= i < j < |r| ensures IndexOf(xs, r[i]) < IndexOf(xs, r[j]) {
      assert r[i] in r && r[j] in r;
      IndexOfTail(xs, r[i]);
      IndexOfTail(xs, r[j]);
    }
  }

  lemma InOrderCons(r: seq<string>, h: string, t: seq<string>)
    requires InOrderOf(r, t)
    requires forall c :: c in r ==> c in t && c != h
    ensures InOrderOf([h] + r, [h] + t)
  {
    var xs, r' := [h] + t, [h] + r;
    InOrderSkip(r, h, t);
    forall i, j | 0 <= i < j < |r'| ensures IndexOf(xs, r'[i]) < IndexOf(xs, r'[j]) {
      PrependAt(h, r, j - 1);
      assert r[j - 1] in r;
      if i == 0 {
        HeadComesFirst(h, t, r[j - 1]);
      } else {
        PrependAt(h, r, i - 1);
        InOrderAt(r, xs, i - 1, j - 1);
      }
    }
  }

  lemma InOrderAt(r: seq<string>, xs: seq<string>, i: int, j: int)
    requires InOrderOf(r, xs) && 0 <= i < j < |r|
    ensures IndexOf(xs, r[i]) < IndexOf(xs, r[j])
  {
  }

  lemma HeadComesFirst(h: string, t: seq<string>, y: string)
    requires y in t && y != h
    ensures IndexOf([h] + t, h) < IndexOf([h] + t, y)
  {
    assert ([h] + t)[1..] == t;
    IndexOfTail([h] + t, y);
  }

  lemma TableColumnsDistinct()
    ensures Distinct(TableColumns)
  {
  }

  /**
   * What the projection lists: exactly the table's columns that are not
   * excluded, each once, in declared order; excluded names that are not
   * columns change nothing.
   */
  lemma ProjectedColumns(excluded: seq<string>)
    ensures forall c :: c in Projected(excluded) <==> c in TableColumns && c !in excluded
    ensures forall i, j :: 0 <= i < j < |Projected(excluded)| ==>
              IndexOf(TableColumns, Projected(excluded)[i]) < IndexOf(TableColumns, Projected(excluded)[j])
    ensures Distinct(Projected(excluded))
    ensures forall x :: x !in TableColumns ==> Projected(excluded + [x]) == Projected(excluded)
  {
    TableColumnsDistinct();
    KeepMembers(TableColumns, excluded);
    KeepInOrder(TableColumns, excluded);
    forall x | x !in TableColumns ensures Projected(excluded + [x]) == Projected(excluded) {
      KeepIgnoresAbsent(TableColumns, excluded, x);
    }
  }

  lemma {:induction false} KeepNothing(xs: seq<string>)
    ensures Keep(xs, []) == xs
    decreases |xs|
  {
    if xs != [] {
      KeepNothing(xs[1..]);
    }
  }

  lemma {:induction false} KeepEverything(xs: seq<string>, excluded: seq<string>)
    requires forall c :: c in xs ==> c in excluded
    ensures Keep(xs, excluded) == []
    decreases |xs|
  {
    if xs != [] {
      KeepEverything(xs[1..], excluded);
    }
  }

  /** No exclusions lists all twelve columns; excluding every column lists none. */
  lemma ProjectedExtremes()
    ensures Projected([]) == TableColumns
    ensures Projected(TableColumns) == []
  {
    KeepNothing(TableColumns);
    KeepEverything(TableColumns, TableColumns);
  }

  /** The table's columns are exactly the columns the row mapper reads. */
  lemma TableColumnsAreRowColumns()
    ensures TableColumns == RowColumns
    ensures forall i :: 0 <= i < |FieldNames| ==> ConvertFieldToSnakeCase(FieldNames[i]) == Success(TableColumns[i])
  {
  }

  /** The comma-separated column list for a SELECT leaving out `excludedColumns`. */
  method ListTableColumns(excludedColumns: seq<string>) returns (r: string)
    ensures r == Join(Projected(excludedColumns), ColumnSeparator)
  {
    TableColumnsDistinct();
    r := ListColumns(TableColumns, excludedColumns);
  }

  /**
   * The body of `ListTableColumns` over a list of distinct names: each
   * excluded name is spliced out where `indexOf` finds it, then the rest are
   * appended one by one, each followed by the separator, and the last
   * separator is sliced off.
   */
  method ListColumns(names: seq<string>, excludedColumns: seq<string>) returns (r: string)
    requires Distinct(names)
    ensures r == Join(Keep(names, excludedColumns), ColumnSeparator)
  {
    var columns := names;
    KeepNothing(names);
    assert excludedColumns[..0] == [];
    for i := 0 to |excludedColumns|
      invariant columns == Keep(names, excludedColumns[..i])
    {
      var name := excludedColumns[i];
      var index := IndexOf(columns, name);
      SpliceStep(names, excludedColumns[..i], name);
      PrefixSnoc(excludedColumns, i);
      if index != -1 {
        columns := columns[..index] + columns[index + 1..];
      }
    }
    assert excludedColumns[..|excludedColumns|] == excludedColumns;

    var result := "";
    for k := 0 to |columns|
      invariant result == Terminated(columns[..k], ColumnSeparator)
    {
      TerminatedStep(columns, k, ColumnSeparator);
      result := result + columns[k] + ColumnSeparator;
    }
    assert columns[..|columns|] == columns;
    DropTrailingSeparator(columns, ColumnSeparator);
    r := SliceTo(result, |result| - 2);
  }

  lemma PrefixSnoc(xs: seq<string>, i: int)
    requires 0 <= i < |xs|
    ensures xs[..i + 1] == xs[..i] + [xs[i]]
  {
  }

  /** One turn of the exclusion loop: splicing out the next excluded name filters it out. */
  lemma SpliceStep(names: seq<string>, done: seq<string>, name: string)
    requires Distinct(names)
    ensures var columns := Keep(names, done);
            var k := IndexOf(columns, name);
            (if k != -1 then columns[..k] + columns[k + 1..] else columns) == Keep(names, done + [name])
  {
    SpliceIsRemoveFirst(Keep(names, done), name);
    RemoveFirstFromKeep(names, done, name);
  }

  /** Reads a column list back into its names. */
  function ParseColumnList(s: string): seq<string>
  {
    ParseList(s, ',', " ")
  }

  /** Every column name is non-empty and free of commas. */
  lemma TableColumnsArePlain()
    ensures forall i :: 0 <= i < |TableColumns| ==> TableColumns[i] != "" && ',' !in TableColumns[i]
  {
  }

  /** A filtered list of plain names, joined, reads back as itself. */
  lemma {:induction false} KeepReadsBack(names: seq<string>, excluded: seq<string>)
    requires forall i :: 0 <= i < |names| ==> names[i] != "" && ',' !in names[i]
    ensures ParseColumnList(Join(Keep(names, excluded), ColumnSeparator)) == Keep(names, excluded)
  {
    var p := Keep(names, excluded);
    KeepMembers(names, excluded);
    forall i | 0 <= i < |p| ensures p[i] != "" && ',' !in p[i] {
      assert p[i] in names;
    }
    assert ColumnSeparator == [','] + " ";
    ParseJoin(p, ',', " ");
  }

  /**
   * The column list reads back as exactly the projected columns, so the
   * SELECT text never names an excluded column.
   */
  lemma ColumnListReadsBack(excluded: seq<string>)
    ensures ParseColumnList(Join(Projected(excluded), ColumnSeparator)) == Projected(excluded)
    ensures forall c :: c in excluded ==> c !in ParseColumnList(Join(Projected(excluded), ColumnSeparator))
  {
    TableColumnsArePlain();
    KeepReadsBack(TableColumns, excluded);
    KeepMembers(TableColumns, excluded);
  }

  lemma {:induction false} KeepAppend(a: seq<string>, b: seq<string>, excluded: seq<string>)
    ensures Keep(a + b, excluded) == Keep(a, excluded) + Keep(b, excluded)
    decreases |a|
  {
    if a == [] {
      assert a + b == b;
    } else {
      KeepAppend(a[1..], b, excluded);
      assert (a + b)[0] == a[0];
      assert (a + b)[1..] == a[1..] + b;
    }
  }

  lemma {:induction false} KeepAllowed(xs: seq<string>, excluded: seq<string>)
    requires forall i :: 0 <= i < |xs| ==> xs[i] !in excluded
    ensures Keep(xs, excluded) == xs
    decreases |xs|
  {
    if xs != [] {
      KeepAllowed(xs[1..], excluded);
    }
  }

  /** Filtering a list's own tail out of it leaves its head, when no name of the head is in the tail. */
  lemma KeepDropsSuffix(front: seq<string>, back: seq<string>)
    requires forall i :: 0 <= i < |front| ==> front[i] !in back
    ensures Keep(front + back, back) == front
  {
    KeepAppend(front, back, back);
    KeepEverything(back, back);
    KeepAllowed(front, back);
  }

  /** The SELECT of a catalog read lists the ten columns other than the two payloads, in declared order. */
  lemma CatalogProjection()
    ensures Projected(PayloadColumns) == TableColumns[..10]
  {
    var front, back := TableColumns[..10], TableColumns[10..];
    assert back == PayloadColumns;
    assert TableColumns == front + back;
    TableColumnsDistinct();
    KeepDropsSuffix(front, back);
  }

  /** The keys of a row holding exactly the projected columns. */
  lemma ProjectedRowKeys(row: Row, excluded: seq<string>)
    requires forall c :: c in row <==> c in Projected(excluded)
    ensures forall i :: 0 <= i < |TableColumns| ==> (TableColumns[i] in row <==> TableColumns[i] !in excluded)
  {
    KeepMembers(TableColumns, excluded);
  }

  /**
   * A row that holds exactly the projected columns maps to a record whose
   * excluded nullable fields are null, not undefined: for `extension`,
   * `data` and `thumbnailData` "not selected" and "stored NULL" read alike.
   */
  lemma ReadOfProjectedRow(row: Row, excluded: seq<string>)
    requires forall c :: c in row <==> c in Projected(excluded)
    ensures "extension" in excluded ==> RowToFile(row).extension == Null
    ensures "data" in excluded ==> RowToFile(row).data == Null
    ensures "thumbnail_data" in excluded ==> RowToFile(row).thumbnailData == Null
    ensures "id" in excluded ==> RowToFile(row).id == Undefined
    ensures "is_deleted" in excluded ==> RowToFile(row).isDeleted == Bool(false)
  {
    UnselectedId(row, excluded);
    UnselectedIsDeleted(row, excluded);
    UnselectedExtension(row, excluded);
    UnselectedData(row, excluded);
    UnselectedThumbnailData(row, excluded);
  }

  lemma UnselectedId(row: Row, excluded: seq<string>)
    requires forall c :: c in row <==> c in Projected(excluded)
    ensures "id" in excluded ==> RowToFile(row).id == Undefined
  {
    if "id" in excluded {
      assert TableColumns[0] == "id";
      ColumnPresence(row, excluded, 0);
    }
  }

  lemma UnselectedIsDeleted(row: Row, excluded: seq<string>)
    requires forall c :: c in row <==> c in Projected(excluded)
    ensures "is_deleted" in excluded ==> RowToFile(row).isDeleted == Bool(false)
  {
    if "is_deleted" in excluded {
      assert TableColumns[8] == "is_deleted";
      ColumnPresence(row, excluded, 8);
    }
  }

  lemma UnselectedExtension(row: Row, excluded: seq<string>)
    requires forall c :: c in row <==> c in Projected(excluded)
    ensures "extension" in excluded ==> RowToFile(row).extension == Null
  {
    if "extension" in excluded {
      assert TableColumns[9] == "extension";
      ColumnPresence(row, excluded, 9);
    }
  }

  lemma UnselectedData(row: Row, excluded: seq<string>)
    requires forall c :: c in row <==> c in Projected(excluded)
    ensures "data" in excluded ==> RowToFile(row).data == Null
  {
    if "data" in excluded {
      assert TableColumns[10] == "data";
      ColumnPresence(row, excluded, 10);
    }
  }

  lemma UnselectedThumbnailData(row: Row, excluded: seq<string>)
    requires forall c :: c in row <==> c in Projected(excluded)
    ensures "thumbnail_data" in excluded ==> RowToFile(row).thumbnailData == Null
  {
    if "thumbnail_data" in excluded {
      assert TableColumns[11] == "thumbnail_data";
      ColumnPresence(row, excluded, 11);
    }
  }

  /** A nullable column that was selected is read as it is, and is never undefined. */
  lemma ReadOfSelectedColumns(row: Row, excluded: seq<string>)
    requires forall c :: c in row <==> c in Projected(excluded)
    ensures "data" !in excluded ==> RowToFile(row).data == Property(row, "data") != Undefined
    ensures "extension" !in excluded ==> RowToFile(row).extension == Property(row, "extension") != Undefined
  {
    if "extension" !in excluded {
      assert TableColumns[9] == "extension";
      ColumnPresence(row, excluded, 9);
    }
    if "data" !in excluded {
      assert TableColumns[10] == "data";
      ColumnPresence(row, excluded, 10);
    }
  }

  lemma ColumnPresence(row: Row, excluded: seq<string>, k: nat)
    requires forall c :: c in row <==> c in Projected(excluded)
    requires k < |TableColumns|
    ensures TableColumns[k] in row <==> TableColumns[k] !in excluded
  {
    KeepMembers(TableColumns, excluded);
  }

  /** The template of every SELECT on `files`. */
  function SelectText(columnList: string, condition: string): string
  {
    "SELECT " + columnList + " FROM files WHERE " + condition + ";"
  }

  /** The text of a SELECT on `files` leaving out `excluded`, with the given condition. */
  function SelectSql(excluded: seq<string>, condition: string): string
  {
    SelectText(Join(Projected(excluded), ColumnSeparator), condition)
  }

  function ByIdQuery(id: JsValue, excluded: seq<string>): Query
  {
    Query(SelectSql(excluded, "id = " + Interp(id)), [])
  }

  function ByUrlQuery(url: JsValue, excluded: seq<string>): Query
  {
    Query(SelectSql(excluded, "url = '" + Interp(url) + "'"), [])
  }

  function FirstOfPostQuery(postId: JsValue, excluded: seq<string>): Query
  {
    Query(SelectSql(excluded, "post_id = " + Interp(postId) + " AND list_index = 0"), [])
  }

  function OfPostQuery(postId: JsValue, excluded: seq<string>): Query
  {
    Query(SelectSql(excluded, "post_id = " + Interp(postId)), [])
  }

  /** The text of each id as the template interpolates it. */
  function IdTexts(postIds: seq<JsValue>): (ts: seq<string>)
    ensures |ts| == |postIds|
    ensures forall i :: 0 <= i < |postIds| ==> ts[i] == Interp(postIds[i])
  {
    seq(|postIds|, i requires 0 <= i < |postIds| => Interp(postIds[i]))
  }

  /** The parenthesised id list of an IN clause. */
  function IdList(postIds: seq<JsValue>): string
  {
    "(" + Join(IdTexts(postIds), ",") + ")"
  }

  function OfPostsQuery(postIds: seq<JsValue>, excluded: seq<string>): Query
  {
    Query(SelectSql(excluded, "post_id IN " + IdList(postIds)), [])
  }

  /** Reads an IN list back into the texts of its ids. */
  function ParseIdList(s: string): seq<string>
  {
    if 2 <= |s| && s[0] == '(' && s[|s| - 1] == ')' then Split(s[1..|s| - 1], ',') else []
  }

  lemma Parenthesized(inner: string)
    ensures ParseIdList("(" + inner + ")") == Split(inner, ',')
  {
    var s := "(" + inner + ")";
    assert s[1..|s| - 1] == inner;
  }

  /**
   * The IN list reads back as the ids in input order, one piece per id,
   * whenever no id renders with a comma (numbers never do).
   */
  lemma IdListReadsBack(postIds: seq<JsValue>)
    requires |postIds| >= 1
    requires forall i :: 0 <= i < |postIds| ==> ',' !in Interp(postIds[i])
    ensures ParseIdList(IdList(postIds)) == IdTexts(postIds)
  {
    var texts := IdTexts(postIds);
    Parenthesized(Join(texts, ","));
    assert "," == [','];
    SplitJoinBare(texts, ',');
  }

  /** Numeric ids always read back. */
  lemma NumericIdsReadBack(postIds: seq<int>)
    requires |postIds| >= 1
    ensures ParseIdList(IdList(seq(|postIds|, i requires 0 <= i < |postIds| => Num(postIds[i]))))
            == seq(|postIds|, i requires 0 <= i < |postIds| => Interp(Num(postIds[i])))
  {
    var ids := seq(|postIds|, i requires 0 <= i < |postIds| => Num(postIds[i]));
    forall i | 0 <= i < |ids| ensures ',' !in Interp(ids[i]) {
      NumberHasNoSeparator(postIds[i]);
    }
    IdListReadsBack(ids);
  }

  /** The rows mapped to records one to one, in order. */
  function RowsToFiles(rows: seq<Row>): (files: seq<StoredFile>)
    ensures |files| == |rows|
    ensures forall i :: 0 <= i < |rows| ==> files[i] == RowToFile(rows[i])
  {
    seq(|rows|, i requires 0 <= i < |rows| => RowToFile(rows[i]))
  }

  /** A single-row answer as `selectFirstFileOfPost` returns it: null exactly when there was no row. */
  function NullableFile(answer: Result<Option<Row>>): (r: Result<Option<StoredFile>>)
    ensures r.Failure? <==> answer.Failure?
    ensures r.Success? ==> (r.value.None? <==> answer.value.None?)
    ensures r.Success? && r.value.Some? ==> r.value.value == RowToFile(answer.value.value)
  {
    match answer
    case Failure(e) => Failure(e)
    case Success(None) => Success(None)
    case Success(Some(row)) => Success(Some(RowToFile(row)))
  }

  /**
   * A single-row answer as `selectFileById` and `selectFileByUrl` return it:
   * the row goes to the mapper without a null check, so a missing row fails
   * on reading its `id` instead of giving null.
   */
  function FileWithoutNullCheck(answer: Result<Option<Row>>): (r: Result<StoredFile>)
    ensures r.Success? <==> answer.Success? && answer.value.Some?
    ensures r.Success? ==> r.value == RowToFile(answer.value.value)
    ensures answer.Failure? ==> r == Failure(answer.error)
  {
    match answer
    case Failure(e) => Failure(e)
    case Success(None) => Failure(TypeError("id"))
    case Success(Some(row)) => Success(RowToFile(row))
  }

  /** No row matched: the lookups by id and by url fail where their documentation promises null. */
  lemma MissingRowFails()
    ensures FileWithoutNullCheck(Success(None)) == Failure(TypeError("id"))
    ensures NullableFile(Success(None)) == Success(None)
  {
  }

  /** Whenever a row exists the two readings agree. */
  lemma NullCheckOnlyMattersForMissingRows(answer: Result<Option<Row>>)
    requires !(answer.Success? && answer.value.None?)
    ensures FileWithoutNullCheck(answer).Success? <==> NullableFile(answer).Success?
    ensures FileWithoutNullCheck(answer).Success? ==> NullableFile(answer).value == Some(FileWithoutNullCheck(answer).value)
  {
  }

  /** One `<column> = ?` assignment per field, in order. */
  function SetPieces(fields: seq<string>): (ps: seq<string>)
    requires forall i :: 0 <= i < |fields| ==> fields[i] in FieldNames
    ensures |ps| == |fields|
    decreases |fields|
  {
    if fields == [] then []
    else SetPieces(fields[..|fields| - 1]) + [CamelToSnakeCase(fields[|fields| - 1]) + " = ?"]
  }

  /** The piece of each field names the column it is stored in. */
  lemma SetPiecesAt(fields: seq<string>)
    requires forall i :: 0 <= i < |fields| ==> fields[i] in FieldNames
    ensures forall i :: 0 <= i < |fields| ==> SetPieces(fields)[i] == CamelToSnakeCase(fields[i]) + " = ?"
  {
    forall i | 0 <= i < |fields| ensures SetPieces(fields)[i] == CamelToSnakeCase(fields[i]) + " = ?" {
      SetPieceAt(fields, i);
    }
  }

  lemma {:induction false} SetPieceAt(fields: seq<string>, i: nat)
    requires forall k :: 0 <= k < |fields| ==> fields[k] in FieldNames
    requires i < |fields|
    ensures SetPieces(fields)[i] == CamelToSnakeCase(fields[i]) + " = ?"
    decreases |fields|
  {
    var init := fields[..|fields| - 1];
    if i < |init| {
      SetPieceAt(init, i);
      AppendAt(SetPieces(init), CamelToSnakeCase(fields[|fields| - 1]) + " = ?", i);
    }
  }

  /** The SET clause of a partial update. */
  function SetClause(fields: seq<string>): string
    requires forall i :: 0 <= i < |fields| ==> fields[i] in FieldNames
  {
    Join(SetPieces(fields), ",")
  }

  /** The values bound to a partial update, parallel to its SET clause. */
  function UpdateParams(file: StoredFile, fields: seq<string>): (ps: seq<JsValue>)
    ensures |ps| == |fields|
    ensures forall i :: 0 <= i < |fields| ==> ps[i] == FieldValue(file, fields[i])
  {
    seq(|fields|, i requires 0 <= i < |fields| => FieldValue(file, fields[i]))
  }

  function UpdateQuery(file: StoredFile, fields: seq<string>): Query
    requires forall i :: 0 <= i < |fields| ==> fields[i] in FieldNames
  {
    Query("UPDATE files SET " + SetClause(fields) + " WHERE id = " + Interp(file.id) + ";", UpdateParams(file, fields))
  }

  /** The first field that is not a StoredFile field, if any. */
  function FirstUnknownField(fields: seq<string>): (k: int)
    ensures -1 <= k < |fields|
    ensures k == -1 <==> forall i :: 0 <= i < |fields| ==> fields[i] in FieldNames
    ensures k != -1 ==> fields[k] !in FieldNames && forall i :: 0 <= i < k ==> fields[i] in FieldNames
    decreases |fields|
  {
    if fields == [] then -1
    else if fields[0] !in FieldNames then 0
    else
      var k := FirstUnknownField(fields[1..]);
      if k == -1 then -1 else k + 1
  }

  /**
   * The SET clause reads back, split on its commas, as one `<column> = ?`
   * per requested field, in order: it names exactly the requested columns.
   */
  lemma SetClauseReadsBack(fields: seq<string>)
    requires |fields| >= 1
    requires forall i :: 0 <= i < |fields| ==> fields[i] in FieldNames
    ensures |Split(SetClause(fields), ',')| == |fields|
    ensures forall i :: 0 <= i < |fields| ==>
              exists j :: 0 <= j < |FieldNames| && FieldNames[j] == fields[i] &&
                Split(SetClause(fields), ',')[i] == RowColumns[j] + " = ?"
  {
    var pieces := SetPieces(fields);
    SetPiecesAt(fields);
    forall i | 0 <= i < |fields| ensures ',' !in pieces[i] {
      SetPieceIsPlain(fields[i]);
    }
    assert "," == [','];
    SplitJoinBare(pieces, ',');
    forall i | 0 <= i < |fields|
      ensures exists j :: 0 <= j < |FieldNames| && FieldNames[j] == fields[i] && pieces[i] == RowColumns[j] + " = ?"
    {
      SetPieceNamesColumn(fields[i]);
    }
  }

  lemma SetPieceIsPlain(name: string)
    requires name in FieldNames
    ensures ',' !in CamelToSnakeCase(name) + " = ?"
  {
    var j := IndexOf(FieldNames, name);
    assert ConvertFieldToSnakeCase(name) == Success(RowColumns[j]);
    TableColumnsArePlain();
    TableColumnsAreRowColumns();
    assert ',' !in RowColumns[j] && ',' !in " = ?";
  }

  lemma SetPieceNamesColumn(name: string)
    requires name in FieldNames
    ensures exists j :: 0 <= j < |FieldNames| && FieldNames[j] == name && CamelToSnakeCase(name) + " = ?" == RowColumns[j] + " = ?"
  {
    var j := IndexOf(FieldNames, name);
    assert ConvertFieldToSnakeCase(name) == Success(RowColumns[j]);
  }

  /** The insert binds the twelve fields in column order. */
  function InsertParams(file: StoredFile): (ps: seq<JsValue>)
    ensures |ps| == |FieldNames|
    ensures forall i :: 0 <= i < |FieldNames| ==> ps[i] == FieldValue(file, FieldNames[i])
  {
    [file.id, file.postId, file.listIndex, file.url, file.thumbnailUrl, file.uploadName, file.cdnName,
     file.checkSum, file.isDeleted, file.extension, file.data, file.thumbnailData]
  }

  const InsertSql: string :=
    "INSERT INTO files(" + Join(TableColumns, ColumnSeparator) + ")\n        VALUES(?, ?, ?, ?, ?, ?, ?, ?, ?, ?, ?, ?);"

  /** Updating every field binds the same values, in the same order, as inserting. */
  lemma UpdateAllIsInsertParams(file: StoredFile)
    ensures UpdateParams(file, FieldNames) == InsertParams(file)
  {
  }

  /** Query construction and row mapping over one connection. */
  class FileQueries {
    const database: Connection

    constructor (database: Connection)
      ensures this.database == database
    {
      this.database := database;
    }

    /** As written: a missing row fails rather than giving null. */
    method SelectFileById(id: JsValue, excludedColumns: seq<string>) returns (r: Result<StoredFile>)
      modifies database
      ensures database.calls == old(database.calls) + [Get(ByIdQuery(id, excludedColumns))]
      ensures r == FileWithoutNullCheck(database.onGet(ByIdQuery(id, excludedColumns)))
    {
      var columns := ListTableColumns(excludedColumns);
      var answer := database.WrapGetQuery(Query(SelectText(columns, "id = " + Interp(id)), []));
      r := ToUnchecked(answer);
    }

    /** The lookup by id as documented: null when no row matches. */
    method SelectFileByIdOrNull(id: JsValue, excludedColumns: seq<string>) returns (r: Result<Option<StoredFile>>)
      modifies database
      ensures database.calls == old(database.calls) + [Get(ByIdQuery(id, excludedColumns))]
      ensures r == NullableFile(database.onGet(ByIdQuery(id, excludedColumns)))
    {
      var columns := ListTableColumns(excludedColumns);
      var answer := database.WrapGetQuery(Query(SelectText(columns, "id = " + Interp(id)), []));
      r := ToNullable(answer);
    }

    /** As written: a missing row fails rather than giving null. */
    method SelectFileByUrl(url: JsValue, excludedColumns: seq<string>) returns (r: Result<StoredFile>)
      modifies database
      ensures database.calls == old(database.calls) + [Get(ByUrlQuery(url, excludedColumns))]
      ensures r == FileWithoutNullCheck(database.onGet(ByUrlQuery(url, excludedColumns)))
    {
      var columns := ListTableColumns(excludedColumns);
      var answer := database.WrapGetQuery(Query(SelectText(columns, "url = '" + Interp(url) + "'"), []));
      r := ToUnchecked(answer);
    }

    /** The lookup by url as documented: null when no row matches. */
    method SelectFileByUrlOrNull(url: JsValue, excludedColumns: seq<string>) returns (r: Result<Option<StoredFile>>)
      modifies database
      ensures database.calls == old(database.calls) + [Get(ByUrlQuery(url, excludedColumns))]
      ensures r == NullableFile(database.onGet(ByUrlQuery(url, excludedColumns)))
    {
      var columns := ListTableColumns(excludedColumns);
      var answer := database.WrapGetQuery(Query(SelectText(columns, "url = '" + Interp(url) + "'"), []));
      r := ToNullable(answer);
    }

    /** The file at list index 0 of a post, or null. */
    method SelectFirstFileOfPost(postId: JsValue, excludedColumns: seq<string>) returns (r: Result<Option<StoredFile>>)
      modifies database
      ensures database.calls == old(database.calls) + [Get(FirstOfPostQuery(postId, excludedColumns))]
      ensures r == NullableFile(database.onGet(FirstOfPostQuery(postId, excludedColumns)))
    {
      var columns := ListTableColumns(excludedColumns);
      var answer := database.WrapGetQuery(Query(SelectText(columns, "post_id = " + Interp(postId) + " AND list_index = 0"), []));
      r := ToNullable(answer);
    }

    /** All files of a post, in the order the rows come back. */
    method SelectFilesOfPost(postId: JsValue, excludedColumns: seq<string>) returns (r: Result<seq<StoredFile>>)
      modifies database
      ensures database.calls == old(database.calls) + [All(OfPostQuery(postId, excludedColumns))]
      ensures database.onAll(OfPostQuery(postId, excludedColumns)).Failure? ==>
                r == Failure(database.onAll(OfPostQuery(postId, excludedColumns)).error)
      ensures database.onAll(OfPostQuery(postId, excludedColumns)).Success? ==>
                r == Success(RowsToFiles(database.onAll(OfPostQuery(postId, excludedColumns)).value))
    {
      var columns := ListTableColumns(excludedColumns);
      var answer := database.WrapAllQuery(Query(SelectText(columns, "post_id = " + Interp(postId)), []));
      if answer.Failure? {
        return Failure(answer.error);
      }
      var files := MapRows(answer.value);
      r := Success(files);
    }

    /**
     * All files of the given posts, by one IN query; no query at all for an
     * empty id list.
     */
    method SelectFilesOfPosts(postIds: seq<JsValue>, excludedColumns: seq<string>) returns (r: Result<seq<StoredFile>>)
      modifies database
      ensures postIds == [] ==> r == Success([]) && database.calls == old(database.calls)
      ensures postIds != [] ==> database.calls == old(database.calls) + [All(OfPostsQuery(postIds, excludedColumns))]
      ensures postIds != [] && database.onAll(OfPostsQuery(postIds, excludedColumns)).Failure? ==>
                r == Failure(database.onAll(OfPostsQuery(postIds, excludedColumns)).error)
      ensures postIds != [] && database.onAll(OfPostsQuery(postIds, excludedColumns)).Success? ==>
                r == Success(RowsToFiles(database.onAll(OfPostsQuery(postIds, excludedColumns)).value))
    {
      if |postIds| == 0 {
        return Success([]);
      }
      var ids := ListIds(postIds);
      var columns := ListTableColumns(excludedColumns);
      var answer := database.WrapAllQuery(Query(SelectText(columns, "post_id IN " + ids), []));
      if answer.Failure? {
        return Failure(answer.error);
      }
      var files := MapRows(answer.value);
      r := Success(files);
    }

    /** Inserts every column of the record and gives back the generated id. */
    method InsertFile(file: StoredFile) returns (r: Result<int>)
      modifies database
      ensures database.calls == old(database.calls) + [Run(Query(InsertSql, InsertParams(file)))]
      ensures r == database.onRun(Query(InsertSql, InsertParams(file)))
    {
      r := database.WrapRunQuery(Query(InsertSql, InsertParams(file)));
    }

    /**
     * Writes the named fields of the record to its row. An unknown field
     * name fails before any query is made.
     */
    method UpdateFile(file: StoredFile, fields: seq<string>) returns (r: Outcome)
      modifies database
      ensures FirstUnknownField(fields) != -1 ==>
                r == Fail(UnknownField(fields[FirstUnknownField(fields)])) && database.calls == old(database.calls)
      ensures FirstUnknownField(fields) == -1 ==>
                database.calls == old(database.calls) + [Run(UpdateQuery(file, fields))] &&
                r == (if database.onRun(UpdateQuery(file, fields)).Failure?
                      then Fail(database.onRun(UpdateQuery(file, fields)).error) else Pass)
    {
      var sets := ListSetClause(fields);
      if sets.Failure? {
        return Fail(sets.error);
      }
      var sql := "UPDATE files SET " + sets.value + " WHERE id = " + Interp(file.id) + ";";
      var params := ListUpdateParams(file, fields);
      var answer := database.WrapRunQuery(Query(sql, params));
      r := if answer.Failure? then Fail(answer.error) else Pass;
    }
  }

  /** The IN list built by appending each id and a comma, then slicing the last comma off. */
  method ListIds(postIds: seq<JsValue>) returns (ids: string)
    ensures ids == IdList(postIds)
  {
    ghost var texts := IdTexts(postIds);
    ids := "";
    for i := 0 to |postIds|
      invariant ids == Terminated(texts[..i], ",")
    {
      TerminatedStep(texts, i, ",");
      ids := ids + Interp(postIds[i]) + ",";
    }
    assert texts[..|postIds|] == texts;
    DropTrailingSeparator(texts, ",");
    ids := "(" + SliceTo(ids, |ids| - 1) + ")";
  }

  /**
   * The SET clause built field by field, each converted through the
   * whitelist; the first unknown field stops the build with its error.
   */
  method ListSetClause(fields: seq<string>) returns (r: Result<string>)
    ensures r.Failure? <==> FirstUnknownField(fields) != -1
    ensures r.Failure? ==> r.error == UnknownField(fields[FirstUnknownField(fields)])
    ensures r.Success? ==> r.value == SetClause(fields)
  {
    var sets := "";
    ghost var pieces: seq<string> := [];
    for i := 0 to |fields|
      invariant forall j :: 0 <= j < i ==> fields[j] in FieldNames
      invariant pieces == SetPieces(fields[..i])
      invariant sets == Terminated(pieces, ",")
    {
      var column := ConvertFieldToSnakeCase(fields[i]);
      SetClauseStep(fields, i, column, pieces);
      if column.Failure? {
        return Failure(column.error);
      }
      TerminatedSnoc(pieces + [column.value + " = ?"], pieces, column.value + " = ?", ",");
      sets := sets + (column.value + " = ?") + ",";
      pieces := pieces + [column.value + " = ?"];
    }
    assert fields[..|fields|] == fields;
    AllFieldsKnown(fields);
    DropTrailingSeparator(pieces, ",");
    r := Success(SliceTo(sets, |sets| - 1));
  }

  /** One turn of the SET loop: an unknown field is the first one and stops the build, a known one adds its piece. */
  lemma SetClauseStep(fields: seq<string>, i: int, column: Result<string>, pieces: seq<string>)
    requires 0 <= i < |fields| && column == ConvertFieldToSnakeCase(fields[i])
    requires forall j :: 0 <= j < i ==> fields[j] in FieldNames
    requires pieces == SetPieces(fields[..i])
    ensures column.Failure? ==> FirstUnknownField(fields) == i && column.error == UnknownField(fields[i])
    ensures column.Success? ==>
              (forall j :: 0 <= j < i + 1 ==> fields[j] in FieldNames) &&
              SetPieces(fields[..i + 1]) == pieces + [column.value + " = ?"]
  {
    if column.Failure? {
      FirstUnknownAt(fields, i);
    } else {
      KnownThrough(fields, i);
      SetPiecesSnoc(fields, i);
    }
  }

  lemma KnownThrough(fields: seq<string>, i: int)
    requires 0 <= i < |fields| && ConvertFieldToSnakeCase(fields[i]).Success?
    requires forall j :: 0 <= j < i ==> fields[j] in FieldNames
    ensures forall j :: 0 <= j < i + 1 ==> fields[j] in FieldNames
  {
    assert fields[i] in FieldNames;
  }

  lemma AllFieldsKnown(fields: seq<string>)
    requires forall j :: 0 <= j < |fields| ==> fields[j] in FieldNames
    ensures FirstUnknownField(fields) == -1
  {
  }

  lemma FirstUnknownAt(fields: seq<string>, i: int)
    requires 0 <= i < |fields| && fields[i] !in FieldNames
    requires forall j :: 0 <= j < i ==> fields[j] in FieldNames
    ensures FirstUnknownField(fields) == i
  {
  }

  lemma SetPiecesSnoc(fields: seq<string>, i: int)
    requires 0 <= i < |fields|
    requires forall j :: 0 <= j <= i ==> fields[j] in FieldNames
    ensures SetPieces(fields[..i + 1]) == SetPieces(fields[..i]) + [CamelToSnakeCase(fields[i]) + " = ?"]
  {
    assert fields[..i + 1][..i] == fields[..i];
  }

  /** The bound values, pushed field by field. */
  method ListUpdateParams(file: StoredFile, fields: seq<string>) returns (params: seq<JsValue>)
    ensures params == UpdateParams(file, fields)
  {
    params := [];
    for i := 0 to |fields|
      invariant params == UpdateParams(file, fields[..i])
    {
      params := params + [FieldValue(file, fields[i])];
    }
    assert fields[..|fields|] == fields;
  }

  /** The lookups by id and by url as written: the row goes to the mapper without a null check. */
  method ToUnchecked(answer: Result<Option<Row>>) returns (r: Result<StoredFile>)
    ensures r == FileWithoutNullCheck(answer)
  {
    match answer
    case Failure(e) => r := Failure(e);
    case Success(None) => r := Failure(TypeError("id"));
    case Success(Some(row)) =>
      var file := MakeFromTableRow(row);
      r := Success(file);
  }

  /** The `row !== null` branch of `selectFirstFileOfPost`. */
  method ToNullable(answer: Result<Option<Row>>) returns (r: Result<Option<StoredFile>>)
    ensures r == NullableFile(answer)
  {
    match answer
    case Failure(e) => r := Failure(e);
    case Success(None) => r := Success(None);
    case Success(Some(row)) =>
      var file := MakeFromTableRow(row);
      r := Success(Some(file));
  }

  /** The `for` loop that pushes one mapped record per row. */
  method MapRows(rows: seq<Row>) returns (files: seq<StoredFile>)
    ensures files == RowsToFiles(rows)
  {
    files := [];
    for i := 0 to |rows|
      invariant files == RowsToFiles(rows[..i])
    {
      var file := MakeFromTableRow(rows[i]);
      files := files + [file];
    }
    assert rows[..|rows|] == rows;
  }
}
