/**
 * The catalog read model and the GET handler of `/api/catalog-threads`:
 * the three projections from stored records to catalog objects, and the
 * handler that looks up one thread (or lists threads), then for each thread
 * its first post and that post's first file with the binary payloads left
 * out, and answers with the composed entries, a 404, or a 500.
 */
module CatalogThreads {
  import opened Js
  import opened Db
  import opened Text
  import opened StoredFiles
  import opened StoredPosts
  import opened FileTable

  /**
   * A thread as the thread lookups return it: the twelve fields the catalog
   * shows, and whatever other properties the stored object carries.
   */
  datatype StoredThread = StoredThread(
    id: JsValue,
    board: JsValue,
    imageBoard: JsValue,
    number: JsValue,
    title: JsValue,
    postersCount: JsValue,
    createTimestamp: JsValue,
    viewsCount: JsValue,
    lastActivity: JsValue,
    isDeleted: JsValue,
    postsCount: JsValue,
    filesCount: JsValue,
    others: map<string, JsValue>)

  datatype CatalogThread = CatalogThread(
    id: JsValue,
    board: JsValue,
    imageBoard: JsValue,
    number: JsValue,
    title: JsValue,
    postersCount: JsValue,
    createTimestamp: JsValue,
    viewsCount: JsValue,
    lastActivity: JsValue,
    isDeleted: JsValue,
    postsCount: JsValue,
    filesCount: JsValue)

  datatype CatalogPost = CatalogPost(
    id: JsValue,
    number: JsValue,
    listIndex: JsValue,
    createTimestamp: JsValue,
    name: JsValue,
    comment: JsValue,
    isBanned: JsValue,
    isDeleted: JsValue,
    isOp: JsValue)

  /** `url` and `thumbnailUrl` are either null or a string. */
  datatype CatalogFile = CatalogFile(id: JsValue, listIndex: JsValue, url: JsValue, thumbnailUrl: JsValue)

  /** The catalog thread: each of the twelve listed properties copied from the stored property of the same name. */
  function ToCatalogThread(stored: StoredThread): (c: CatalogThread)
    ensures c.id == stored.id && c.board == stored.board && c.imageBoard == stored.imageBoard
    ensures c.number == stored.number && c.title == stored.title && c.postersCount == stored.postersCount
    ensures c.createTimestamp == stored.createTimestamp && c.viewsCount == stored.viewsCount
    ensures c.lastActivity == stored.lastActivity && c.isDeleted == stored.isDeleted
    ensures c.postsCount == stored.postsCount && c.filesCount == stored.filesCount
  {
    CatalogThread(stored.id, stored.board, stored.imageBoard, stored.number, stored.title, stored.postersCount,
                  stored.createTimestamp, stored.viewsCount, stored.lastActivity, stored.isDeleted,
                  stored.postsCount, stored.filesCount)
  }

  /** The catalog thread shows the twelve listed fields and nothing else of the stored object. */
  lemma CatalogThreadShowsListedFields(a: StoredThread, b: StoredThread)
    ensures ToCatalogThread(a) == ToCatalogThread(b) <==> a.(others := b.others) == b
  {
  }

  /** The catalog post: each of its nine properties copied from the stored property of the same name. */
  function ToCatalogPost(stored: StoredPost): (c: CatalogPost)
    ensures c.id == stored.id && c.number == stored.number && c.listIndex == stored.listIndex
    ensures c.createTimestamp == stored.createTimestamp && c.name == stored.name && c.comment == stored.comment
    ensures c.isBanned == stored.isBanned && c.isDeleted == stored.isDeleted && c.isOp == stored.isOp
  {
    CatalogPost(stored.id, stored.number, stored.listIndex, stored.createTimestamp, stored.name, stored.comment,
                stored.isBanned, stored.isDeleted, stored.isOp)
  }

  /** The catalog post shows every field of the stored post but its thread id. */
  lemma CatalogPostDropsThreadId(a: StoredPost, b: StoredPost)
    ensures ToCatalogPost(a) == ToCatalogPost(b) <==> a.(threadId := b.threadId) == b
  {
  }

  /** Where the CDN serves a file. */
  function FileUrl(stored: StoredFile): string
  {
    "/cdn/file/" + Interp(stored.id) + "/" + Interp(stored.cdnName) + "." + Interp(stored.extension)
  }

  /** Where the CDN serves a file's thumbnail. */
  function ThumbnailUrl(stored: StoredFile): string
  {
    "/cdn/thumbnail/" + Interp(stored.id) + "/" + Interp(stored.cdnName) + "_s.png"
  }

  /**
   * The catalog file: its id and list index, and its two CDN addresses,
   * which are both null when the file has no extension (null, undefined or
   * empty) and both strings otherwise.
   */
  function ToCatalogFile(stored: StoredFile): (c: CatalogFile)
    ensures c.id == stored.id && c.listIndex == stored.listIndex
    ensures !Truthy(stored.extension) ==> c.url == Null && c.thumbnailUrl == Null
    ensures Truthy(stored.extension) ==> c.url == Str(FileUrl(stored)) && c.thumbnailUrl == Str(ThumbnailUrl(stored))
  {
    CatalogFile(stored.id, stored.listIndex,
                if Truthy(stored.extension) then Str(FileUrl(stored)) else Null,
                if Truthy(stored.extension) then Str(ThumbnailUrl(stored)) else Null)
  }

  /** The pieces between the slashes of `"/" + a + "/" + b + "/" + c + "/" + d`. */
  lemma SplitPath(a: string, b: string, c: string, d: string)
    requires '/' !in a && '/' !in b && '/' !in c && '/' !in d
    ensures Split("/" + a + "/" + b + "/" + c + "/" + d, '/') == ["", a, b, c, d]
  {
    var s1 := "" + ['/'] + a;
    var s2 := s1 + ['/'] + b;
    var s3 := s2 + ['/'] + c;
    SplitAfterSeparator("", '/', a);
    SplitAfterSeparator(s1, '/', b);
    SplitAfterSeparator(s2, '/', c);
    SplitAfterSeparator(s3, '/', d);
    assert "/" + a == s1;
    assert "/" + a + "/" + b == s2;
    assert "/" + a + "/" + b + "/" + c == s3;
  }

  /**
   * A file address reads back, split on its slashes and its last piece on
   * the dot, as the file's id, CDN name and extension, whenever none of the
   * three renders with a slash or a dot.
   */
  lemma FileUrlReadsBack(stored: StoredFile)
    requires '/' !in Interp(stored.id) && '/' !in Interp(stored.cdnName) && '/' !in Interp(stored.extension)
    requires '.' !in Interp(stored.cdnName) && '.' !in Interp(stored.extension)
    ensures Split(FileUrl(stored), '/') == ["", "cdn", "file", Interp(stored.id), Interp(stored.cdnName) + "." + Interp(stored.extension)]
    ensures Split(Interp(stored.cdnName) + "." + Interp(stored.extension), '.') == [Interp(stored.cdnName), Interp(stored.extension)]
  {
    var name, ext := Interp(stored.cdnName), Interp(stored.extension);
    assert FileUrl(stored) == "/cdn/file/" + Interp(stored.id) + "/" + (name + "." + ext);
    UrlPieces("/cdn/file/", "cdn", "file", Interp(stored.id), name + "." + ext);
    SplitPath("cdn", "file", Interp(stored.id), name + "." + ext);
    FileNameReadsBack(name, ext);
  }

  /** `"/" + a + "/" + b + "/"` written as one literal prefix. */
  lemma UrlPieces(prefix: string, a: string, b: string, c: string, d: string)
    requires prefix == "/" + a + "/" + b + "/"
    ensures prefix + c + "/" + d == "/" + a + "/" + b + "/" + c + "/" + d
  {
  }

  lemma FileNameReadsBack(name: string, ext: string)
    requires '.' !in name && '.' !in ext
    ensures Split(name + "." + ext, '.') == [name, ext]
  {
    SplitWithoutSeparator(name, '.');
    SplitAfterSeparator(name, '.', ext);
  }

  /** A thumbnail address reads back, split on its slashes, as the file's id and its CDN name with `_s.png`. */
  lemma ThumbnailUrlReadsBack(stored: StoredFile)
    requires '/' !in Interp(stored.id) && '/' !in Interp(stored.cdnName)
    ensures Split(ThumbnailUrl(stored), '/') == ["", "cdn", "thumbnail", Interp(stored.id), Interp(stored.cdnName) + "_s.png"]
  {
    assert ThumbnailUrl(stored) == "/cdn/thumbnail/" + Interp(stored.id) + "/" + (Interp(stored.cdnName) + "_s.png");
    UrlPieces("/cdn/thumbnail/", "cdn", "thumbnail", Interp(stored.id), Interp(stored.cdnName) + "_s.png");
    SplitPath("cdn", "thumbnail", Interp(stored.id), Interp(stored.cdnName) + "_s.png");
  }

  /** File 42 stored under the CDN name `abc` with extension `png`. */
  lemma CatalogFileExample(stored: StoredFile)
    requires stored.id == Num(42) && stored.cdnName == Str("abc") && stored.extension == Str("png")
    ensures ToCatalogFile(stored).url == Str("/cdn/file/42/abc.png")
    ensures ToCatalogFile(stored).thumbnailUrl == Str("/cdn/thumbnail/42/abc_s.png")
    ensures ToCatalogFile(stored.(extension := Str(""))).url == Null
    ensures ToCatalogFile(stored.(extension := Str(""))).thumbnailUrl == Null
  {
    assert Decimal(42) == "42";
  }

  /** The query and route parameters of a request; `None` for one that was not given. */
  datatype Request = Request(imageBoard: Option<string>, board: Option<string>, id: Option<string>)

  /** `v ? v : null` on a request parameter: an empty string counts as not given. */
  function OrNull(v: Option<string>): (r: Option<string>)
    ensures r.Some? <==> v.Some? && v.value != ""
    ensures r.Some? ==> r == v
  {
    if v.Some? && v.value != "" then v else None
  }

  /** One composed catalog entry: the thread (reshaped or as stored), its first post and that post's first file. */
  datatype Entry<T> = Entry(thread: T, post: CatalogPost, file: Option<CatalogFile>)

  datatype Body = SingleThread(entry: Entry<CatalogThread>) | ThreadList(entries: seq<Entry<StoredThread>>)

  /** A JSON `{threads: ...}` answer, or a plain-text answer with a status code. */
  datatype Response = Json(threads: Body) | Failed(status: int, message: string)

  const NotFound: Response := Failed(404, "Thread not found! 404")
  const ServerError: Response := Failed(500, "Database error has occurred, while working on the request! 500")

  /** One call on the thread and post lookups. */
  datatype Lookup =
    | ThreadById(id: string)
    | Threads(imageBoard: Option<string>, board: Option<string>, flag: bool)
    | FirstPost(threadId: JsValue)

  /**
   * The thread and post lookups the handler relies on. What they answer is
   * not modelled: they are given their answers as functions of their
   * arguments, and they keep a log of every call made.
   */
  class ThreadPostQueries {
    const threadById: string -> Result<Option<StoredThread>>
    const threadsOf: (Option<string>, Option<string>, bool) -> Result<seq<StoredThread>>
    const firstPostOf: JsValue -> Result<Option<StoredPost>>
    var calls: seq<Lookup>

    constructor (threadById: string -> Result<Option<StoredThread>>,
                 threadsOf: (Option<string>, Option<string>, bool) -> Result<seq<StoredThread>>,
                 firstPostOf: JsValue -> Result<Option<StoredPost>>)
      ensures this.threadById == threadById && this.threadsOf == threadsOf && this.firstPostOf == firstPostOf
      ensures calls == []
    {
      this.threadById := threadById;
      this.threadsOf := threadsOf;
      this.firstPostOf := firstPostOf;
      calls := [];
    }

    /** The thread with the given id, or `None`. */
    method SelectThread(id: string) returns (r: Result<Option<StoredThread>>)
      modifies this
      ensures calls == old(calls) + [ThreadById(id)] && r == threadById(id)
    {
      calls := calls + [ThreadById(id)];
      r := threadById(id);
    }

    /** The threads of an image board and board, either of which may be null. */
    method SelectThreads(imageBoard: Option<string>, board: Option<string>, flag: bool) returns (r: Result<seq<StoredThread>>)
      modifies this
      ensures calls == old(calls) + [Threads(imageBoard, board, flag)] && r == threadsOf(imageBoard, board, flag)
    {
      calls := calls + [Threads(imageBoard, board, flag)];
      r := threadsOf(imageBoard, board, flag);
    }

    /** The first post of a thread, or `None` for a thread with no posts. */
    method SelectFirstPostOfThread(threadId: JsValue) returns (r: Result<Option<StoredPost>>)
      modifies this
      ensures calls == old(calls) + [FirstPost(threadId)] && r == firstPostOf(threadId)
    {
      calls := calls + [FirstPost(threadId)];
      r := firstPostOf(threadId);
    }
  }

  /** What a part of the handler yields, with the lookups and the file queries it made, in order. */
  datatype Step<T> = Step(result: Result<T>, lookups: seq<Lookup>, queries: seq<Call>)

  /** What the handler does for one thread: its first post and that post's first file. */
  type EntryStep = Step<(CatalogPost, Option<CatalogFile>)>

  /** The query for the first file of a post, without the payload columns. */
  function FirstFileQuery(postId: JsValue): Query
  {
    FirstOfPostQuery(postId, PayloadColumns)
  }

  /**
   * The first post of the thread keyed `threadKey` and the first file of
   * that post, read without its payload columns. A thread without posts
   * fails: the post projection reads `id` of null.
   */
  function PostAndFile(firstPostOf: JsValue -> Result<Option<StoredPost>>, onGet: Query -> Result<Option<Row>>,
                       threadKey: JsValue): (s: EntryStep)
    ensures s.lookups == [FirstPost(threadKey)]
    ensures s.result.Success? ==> s.queries == [Get(FirstFileQuery(s.result.value.0.id))]
    ensures firstPostOf(threadKey).Failure? || firstPostOf(threadKey) == Success(None) ==> s.result.Failure? && s.queries == []
  {
    var post := firstPostOf(threadKey);
    if post.Failure? then Step(Failure(post.error), [FirstPost(threadKey)], [])
    else if post.value.None? then Step(Failure(TypeError("id")), [FirstPost(threadKey)], [])
    else
      var catalogPost := ToCatalogPost(post.value.value);
      var q := FirstFileQuery(catalogPost.id);
      var file := NullableFile(onGet(q));
      if file.Failure? then Step(Failure(file.error), [FirstPost(threadKey)], [Get(q)])
      else
        var catalogFile := if file.value.None? then None else Some(ToCatalogFile(file.value.value));
        Step(Success((catalogPost, catalogFile)), [FirstPost(threadKey)], [Get(q)])
  }

  /** `PostAndFile` over fixed lookups, as a function of the thread key. */
  function PerThread(firstPostOf: JsValue -> Result<Option<StoredPost>>, onGet: Query -> Result<Option<Row>>)
    : JsValue -> EntryStep
  {
    threadKey => PostAndFile(firstPostOf, onGet, threadKey)
  }

  /** `perThread` is what `PostAndFile` does over the given lookups. */
  ghost predicate Computes(perThread: JsValue -> EntryStep, firstPostOf: JsValue -> Result<Option<StoredPost>>,
                           onGet: Query -> Result<Option<Row>>)
  {
    forall k {:trigger PostAndFile(firstPostOf, onGet, k)} :: perThread(k) == PostAndFile(firstPostOf, onGet, k)
  }

  /** The listing loop over `threads`, doing `perThread` for each in turn and stopping at the first failure. */
  function Listing(perThread: JsValue -> EntryStep, threads: seq<StoredThread>): (r: Step<seq<Entry<StoredThread>>>)
    ensures r.result.Success? ==> |r.result.value| == |threads|
    decreases |threads|
  {
    if threads == [] then Step(Success([]), [], [])
    else
      var before := Listing(perThread, threads[..|threads| - 1]);
      var thread := threads[|threads| - 1];
      if before.result.Failure? then before
      else
        var step := perThread(thread.id);
        var lookups := before.lookups + step.lookups;
        var queries := before.queries + step.queries;
        if step.result.Failure? then Step(Failure(step.result.error), lookups, queries)
        else Step(Success(before.result.value + [Entry(thread, step.result.value.0, step.result.value.1)]), lookups, queries)
  }

  /** The handler's answer, with every lookup and file query it made, in order. */
  datatype Handled = Handled(response: Response, lookups: seq<Lookup>, queries: seq<Call>)

  /** The handler's answer to `req`: one thread when an id is given, the listing otherwise. */
  function Respond(threadById: string -> Result<Option<StoredThread>>,
                   threadsOf: (Option<string>, Option<string>, bool) -> Result<seq<StoredThread>>,
                   firstPostOf: JsValue -> Result<Option<StoredPost>>, onGet: Query -> Result<Option<Row>>,
                   req: Request): (h: Handled)
    ensures h.response.Failed? ==> h.response == NotFound || h.response == ServerError
    ensures h.response == NotFound ==> OrNull(req.id).Some?
  {
    var id := OrNull(req.id);
    if id.Some? then ThreadResponse(threadById, PerThread(firstPostOf, onGet), id.value)
    else ListingResponse(threadsOf, PerThread(firstPostOf, onGet), OrNull(req.imageBoard), OrNull(req.board))
  }

  /** The single-thread branch: 404 for an unknown thread, else the thread with its first post and file. */
  function ThreadResponse(threadById: string -> Result<Option<StoredThread>>, perThread: JsValue -> EntryStep,
                          id: string): (h: Handled)
    ensures h.lookups != [] && h.lookups[0] == ThreadById(id)
    ensures h.response.Json? ==> h.response.threads.SingleThread?
  {
    var thread := threadById(id);
    if thread.Failure? then Handled(ServerError, [ThreadById(id)], [])
    else if thread.value.None? then Handled(NotFound, [ThreadById(id)], [])
    else
      var step := perThread(Str(id));
      var lookups := [ThreadById(id)] + step.lookups;
      if step.result.Failure? then Handled(ServerError, lookups, step.queries)
      else
        var entry := Entry(ToCatalogThread(thread.value.value), step.result.value.0, step.result.value.1);
        Handled(Json(SingleThread(entry)), lookups, step.queries)
  }

  /** The listing branch: the threads of the requested boards, each with its first post and file. */
  function ListingResponse(threadsOf: (Option<string>, Option<string>, bool) -> Result<seq<StoredThread>>,
                           perThread: JsValue -> EntryStep, imageBoard: Option<string>, board: Option<string>): (h: Handled)
    ensures h.lookups != [] && h.lookups[0] == Threads(imageBoard, board, true)
    ensures h.response != NotFound
    ensures h.response.Json? ==> threadsOf(imageBoard, board, true).Success? && h.response.threads.ThreadList? &&
                                 |h.response.threads.entries| == |threadsOf(imageBoard, board, true).value|
  {
    var threads := threadsOf(imageBoard, board, true);
    if threads.Failure? then Handled(ServerError, [Threads(imageBoard, board, true)], [])
    else
      var listing := Listing(perThread, threads.value);
      var response := if listing.result.Failure? then ServerError else Json(ThreadList(listing.result.value));
      Handled(response, [Threads(imageBoard, board, true)] + listing.lookups, listing.queries)
  }

  /** One more thread: its lookups and queries follow the earlier ones, and its entry is pushed or its failure ends the listing. */
  lemma ListingStep(perThread: JsValue -> EntryStep, threads: seq<StoredThread>, i: nat)
    requires i < |threads|
    requires Listing(perThread, threads[..i]).result.Success?
    ensures var before := Listing(perThread, threads[..i]);
            var step := perThread(threads[i].id);
            var after := Listing(perThread, threads[..i + 1]);
            after.lookups == before.lookups + step.lookups && after.queries == before.queries + step.queries &&
            (step.result.Failure? ==> after.result == Failure(step.result.error)) &&
            (step.result.Success? ==>
               after.result == Success(before.result.value + [Entry(threads[i], step.result.value.0, step.result.value.1)]))
  {
    assert threads[..i + 1][..i] == threads[..i];
  }

  /** Once the listing has failed on a prefix of the threads, the later threads are never looked at. */
  lemma {:induction false} ListingStopsAtFailure(perThread: JsValue -> EntryStep, threads: seq<StoredThread>, n: nat)
    requires n <= |threads|
    requires Listing(perThread, threads[..n]).result.Failure?
    ensures Listing(perThread, threads) == Listing(perThread, threads[..n])
    decreases |threads|
  {
    if n == |threads| {
      assert threads[..n] == threads;
    } else {
      var init := threads[..|threads| - 1];
      assert init[..n] == threads[..n];
      ListingStopsAtFailure(perThread, init, n);
    }
  }

  /**
   * For one thread: exactly one post lookup, keyed by the thread; a thread
   * without posts fails before any file query; otherwise exactly one file
   * query, for the first file of that post without its payload columns,
   * and the entry holds the post as the catalog shows it and that file, if
   * any.
   */
  lemma PostAndFileFacts(firstPostOf: JsValue -> Result<Option<StoredPost>>, onGet: Query -> Result<Option<Row>>,
                         threadKey: JsValue)
    ensures var s := PostAndFile(firstPostOf, onGet, threadKey);
            s.lookups == [FirstPost(threadKey)] &&
            (firstPostOf(threadKey) == Success(None) ==> s.result == Failure(TypeError("id")) && s.queries == []) &&
            (firstPostOf(threadKey).Failure? ==> s.result == Failure(firstPostOf(threadKey).error) && s.queries == [])
    ensures var s := PostAndFile(firstPostOf, onGet, threadKey);
            forall post: StoredPost :: firstPostOf(threadKey) == Success(Some(post)) ==>
              var q := FirstFileQuery(post.id);
              s.queries == [Get(q)] &&
              (s.result.Success? <==> onGet(q).Success?) &&
              (onGet(q) == Success(None) ==> s.result == Success((ToCatalogPost(post), None))) &&
              (forall row: Row :: onGet(q) == Success(Some(row)) ==>
                 s.result == Success((ToCatalogPost(post), Some(ToCatalogFile(RowToFile(row))))))
  {
  }

  /** What every per-thread step does, as `PostAndFileFacts` states it for `PostAndFile`. */
  ghost predicate OneLookupOneQuery(perThread: JsValue -> EntryStep, fileQuery: JsValue -> Query)
  {
    forall k :: perThread(k).lookups == [FirstPost(k)] &&
                (perThread(k).result.Success? ==>
                   perThread(k).queries == [Get(fileQuery(perThread(k).result.value.0.id))])
  }

  lemma PerThreadIsOneLookupOneQuery(firstPostOf: JsValue -> Result<Option<StoredPost>>, onGet: Query -> Result<Option<Row>>)
    ensures OneLookupOneQuery(PerThread(firstPostOf, onGet), FirstFileQuery)
  {
    forall k
      ensures var s := PerThread(firstPostOf, onGet)(k);
              s.lookups == [FirstPost(k)] &&
              (s.result.Success? ==> s.queries == [Get(FirstFileQuery(s.result.value.0.id))])
    {
      PostAndFileFacts(firstPostOf, onGet, k);
    }
  }

  /** A listing succeeds exactly when every thread's step succeeds. */
  lemma {:induction false} ListingSucceeds(perThread: JsValue -> EntryStep, threads: seq<StoredThread>)
    ensures Listing(perThread, threads).result.Success? <==>
            forall i :: 0 <= i < |threads| ==> perThread(threads[i].id).result.Success?
    decreases |threads|
  {
    if threads != [] {
      var init := threads[..|threads| - 1];
      ListingSucceeds(perThread, init);
      assert forall i :: 0 <= i < |init| ==> init[i] == threads[i];
      if Listing(perThread, init).result.Failure? {
        var j :| 0 <= j < |init| && !perThread(init[j].id).result.Success?;
        assert threads[j] == init[j];
      }
    }
  }

  /**
   * When every thread's step succeeds, the listing holds one entry per thread, in order, each the
   * thread as stored with the post and file its step found, and it made one
   * post lookup and one file query per thread, in the same order.
   */
  lemma {:induction false} ListingContents(perThread: JsValue -> EntryStep, fileQuery: JsValue -> Query,
                                           threads: seq<StoredThread>)
    requires OneLookupOneQuery(perThread, fileQuery)
    requires forall i :: 0 <= i < |threads| ==> perThread(threads[i].id).result.Success?
    ensures var l := Listing(perThread, threads);
            l.result.Success? &&
            |l.result.value| == |threads| == |l.lookups| == |l.queries| &&
            forall i :: 0 <= i < |threads| ==>
              var step := perThread(threads[i].id).result.value;
              l.result.value[i] == Entry(threads[i], step.0, step.1) &&
              l.lookups[i] == FirstPost(threads[i].id) &&
              l.queries[i] == Get(fileQuery(step.0.id))
    decreases |threads|
  {
    if threads != [] {
      var n := |threads| - 1;
      var init := threads[..n];
      var before := Listing(perThread, init);
      var s := perThread(threads[n].id);
      assert forall i :: 0 <= i < n ==> init[i] == threads[i];
      ListingContents(perThread, fileQuery, init);
      assert s.lookups == [FirstPost(threads[n].id)];
      assert s.result.Success?;
      assert s.queries == [Get(fileQuery(s.result.value.0.id))];
      var l := Listing(perThread, threads);
      assert l.result.value == before.result.value + [Entry(threads[n], s.result.value.0, s.result.value.1)];
      assert l.lookups == before.lookups + s.lookups;
      assert l.queries == before.queries + s.queries;
      forall i | 0 <= i < n
        ensures var step := perThread(threads[i].id).result.value;
                l.result.value[i] == Entry(threads[i], step.0, step.1) &&
                l.lookups[i] == FirstPost(threads[i].id) &&
                l.queries[i] == Get(fileQuery(step.0.id))
      {
        assert init[i] == threads[i];
      }
    }
  }

  /**
   * With an id, the handler answers 404 exactly when no thread has that id,
   * and then looks up nothing more; a thread without posts is a 500 with
   * no file query; any other answer that is not the thread's entry is a 500.
   */
  lemma SingleThreadAnswers(threadById: string -> Result<Option<StoredThread>>,
                            threadsOf: (Option<string>, Option<string>, bool) -> Result<seq<StoredThread>>,
                            firstPostOf: JsValue -> Result<Option<StoredPost>>, onGet: Query -> Result<Option<Row>>,
                            req: Request)
    requires OrNull(req.id).Some?
    ensures var h := Respond(threadById, threadsOf, firstPostOf, onGet, req);
            var id := req.id.value;
            (h.response == NotFound <==> threadById(id) == Success(None)) &&
            (h.response == NotFound ==> h.lookups == [ThreadById(id)] && h.queries == []) &&
            (h.response.Failed? ==> h.response == NotFound || h.response == ServerError) &&
            (h.lookups[0] == ThreadById(id)) &&
            (threadById(id).Success? && threadById(id).value.Some? && firstPostOf(Str(id)) == Success(None) ==>
               h.response == ServerError && h.lookups == [ThreadById(id), FirstPost(Str(id))] && h.queries == [])
    ensures var h := Respond(threadById, threadsOf, firstPostOf, onGet, req);
            var id := req.id.value;
            h.response.Json? <==>
              threadById(id).Success? && threadById(id).value.Some? && PostAndFile(firstPostOf, onGet, Str(id)).result.Success?
    ensures var h := Respond(threadById, threadsOf, firstPostOf, onGet, req);
            var id := req.id.value;
            forall t: StoredThread, post: StoredPost ::
              threadById(id) == Success(Some(t)) && firstPostOf(Str(id)) == Success(Some(post)) ==>
                var q := FirstFileQuery(post.id);
                (onGet(q) == Success(None) ==> h.response == Json(SingleThread(Entry(ToCatalogThread(t), ToCatalogPost(post), None)))) &&
                (forall row: Row :: onGet(q) == Success(Some(row)) ==>
                   h.response == Json(SingleThread(Entry(ToCatalogThread(t), ToCatalogPost(post), Some(ToCatalogFile(RowToFile(row)))))))
  {
    var id := req.id.value;
    PostAndFileFacts(firstPostOf, onGet, Str(id));
    ThreadAnswers(threadById, PerThread(firstPostOf, onGet), id);
  }

  /** The single-thread branch, for any per-thread step that makes one lookup for the thread it is given. */
  lemma ThreadAnswers(threadById: string -> Result<Option<StoredThread>>, perThread: JsValue -> EntryStep, id: string)
    requires perThread(Str(id)).lookups == [FirstPost(Str(id))]
    ensures var h, step := ThreadResponse(threadById, perThread, id), perThread(Str(id));
            (h.response == NotFound <==> threadById(id) == Success(None)) &&
            (h.response == NotFound ==> h.lookups == [ThreadById(id)] && h.queries == []) &&
            (h.response.Failed? ==> h.response == NotFound || h.response == ServerError) &&
            h.lookups[0] == ThreadById(id) &&
            (threadById(id).Success? && threadById(id).value.Some? && step.result.Failure? ==>
               h.response == ServerError && h.lookups == [ThreadById(id), FirstPost(Str(id))] && h.queries == step.queries) &&
            (h.response.Json? <==> threadById(id).Success? && threadById(id).value.Some? && step.result.Success?)
    ensures var h, step := ThreadResponse(threadById, perThread, id), perThread(Str(id));
            forall t :: threadById(id) == Success(Some(t)) && step.result.Success? ==>
              h.response == Json(SingleThread(Entry(ToCatalogThread(t), step.result.value.0, step.result.value.1)))
  {
  }

  /**
   * The listing branch looks the threads up first, and answers with a 500
   * unless the thread lookup and every thread's step succeed.
   */
  lemma ListingAnswers(threadsOf: (Option<string>, Option<string>, bool) -> Result<seq<StoredThread>>,
                       perThread: JsValue -> EntryStep, imageBoard: Option<string>, board: Option<string>)
    ensures var h := ListingResponse(threadsOf, perThread, imageBoard, board);
            var threads := threadsOf(imageBoard, board, true);
            h.lookups[0] == Threads(imageBoard, board, true) &&
            (h.response.Failed? ==> h.response == ServerError) &&
            (h.response.Json? <==>
               threads.Success? && forall i :: 0 <= i < |threads.value| ==> perThread(threads.value[i].id).result.Success?)
  {
    var threads := threadsOf(imageBoard, board, true);
    if threads.Success? {
      ListingSucceeds(perThread, threads.value);
    }
  }

  /**
   * When the thread lookup and every thread's step succeed, the listing
   * branch answers with one entry per thread, in order, after one post
   * lookup and one file query per thread, in the same order.
   */
  lemma ListingEntries(threadsOf: (Option<string>, Option<string>, bool) -> Result<seq<StoredThread>>,
                       perThread: JsValue -> EntryStep, fileQuery: JsValue -> Query,
                       imageBoard: Option<string>, board: Option<string>)
    requires OneLookupOneQuery(perThread, fileQuery)
    requires threadsOf(imageBoard, board, true).Success?
    requires var threads := threadsOf(imageBoard, board, true).value;
             forall i :: 0 <= i < |threads| ==> perThread(threads[i].id).result.Success?
    ensures var h := ListingResponse(threadsOf, perThread, imageBoard, board);
            var threads := threadsOf(imageBoard, board, true).value;
            h.response.Json? &&
            |h.response.threads.entries| == |threads| &&
            |h.lookups| == |threads| + 1 && |h.queries| == |threads| &&
            forall i :: 0 <= i < |threads| ==>
              var step := perThread(threads[i].id).result.value;
              h.response.threads.entries[i] == Entry(threads[i], step.0, step.1) &&
              h.lookups[i + 1] == FirstPost(threads[i].id) &&
              h.queries[i] == Get(fileQuery(step.0.id))
  {
    var threads := threadsOf(imageBoard, board, true).value;
    var l := Listing(perThread, threads);
    ListingContents(perThread, fileQuery, threads);
    forall i | 0 <= i < |threads| ensures ([Threads(imageBoard, board, true)] + l.lookups)[i + 1] == l.lookups[i] {
      PrependAt(Threads(imageBoard, board, true), l.lookups, i);
    }
  }

  /**
   * The handler reads the id, image board and board with empty strings as
   * absent, answers for one thread when an id is given and lists threads
   * otherwise, and for each thread does `PostAndFile`, which makes one post
   * lookup and, when it succeeds, one first-file query.
   */
  lemma RespondDispatch(threadById: string -> Result<Option<StoredThread>>,
                        threadsOf: (Option<string>, Option<string>, bool) -> Result<seq<StoredThread>>,
                        firstPostOf: JsValue -> Result<Option<StoredPost>>, onGet: Query -> Result<Option<Row>>,
                        req: Request)
    ensures OneLookupOneQuery(PerThread(firstPostOf, onGet), FirstFileQuery)
    ensures req.id.Some? && req.id.value != "" ==>
              Respond(threadById, threadsOf, firstPostOf, onGet, req)
              == ThreadResponse(threadById, PerThread(firstPostOf, onGet), req.id.value)
    ensures req.id.None? || req.id == Some("") ==>
              Respond(threadById, threadsOf, firstPostOf, onGet, req)
              == ListingResponse(threadsOf, PerThread(firstPostOf, onGet), OrNull(req.imageBoard), OrNull(req.board))
  {
    PerThreadIsOneLookupOneQuery(firstPostOf, onGet);
  }

  /** An empty id, image board or board is treated as one that was not given. */
  lemma EmptyParameterIsAbsent(threadById: string -> Result<Option<StoredThread>>,
                               threadsOf: (Option<string>, Option<string>, bool) -> Result<seq<StoredThread>>,
                               firstPostOf: JsValue -> Result<Option<StoredPost>>, onGet: Query -> Result<Option<Row>>,
                               req: Request)
    ensures Respond(threadById, threadsOf, firstPostOf, onGet, req.(id := Some("")))
            == Respond(threadById, threadsOf, firstPostOf, onGet, req.(id := None))
    ensures Respond(threadById, threadsOf, firstPostOf, onGet, req.(imageBoard := Some("")))
            == Respond(threadById, threadsOf, firstPostOf, onGet, req.(imageBoard := None))
    ensures Respond(threadById, threadsOf, firstPostOf, onGet, req.(board := Some("")))
            == Respond(threadById, threadsOf, firstPostOf, onGet, req.(board := None))
  {
  }

  /** A thread whose step fails ends the listing with that failure, after that thread's lookups. */
  lemma ListingFailsAt(perThread: JsValue -> EntryStep, threads: seq<StoredThread>, i: nat)
    requires i < |threads|
    requires Listing(perThread, threads[..i]).result.Success?
    requires perThread(threads[i].id).result.Failure?
    ensures var before, step := Listing(perThread, threads[..i]), perThread(threads[i].id);
            Listing(perThread, threads).result == Failure(step.result.error) &&
            Listing(perThread, threads).lookups == before.lookups + step.lookups &&
            Listing(perThread, threads).queries == before.queries + step.queries
  {
    ListingStep(perThread, threads, i);
    ListingStopsAtFailure(perThread, threads, i + 1);
  }

  /**
   * `catalogThreadsGetApi`: with an id, the thread, its first post and that
   * post's first file; without one, the same for every thread of the
   * requested boards. A missing thread is a 404; any failure on the way is a
   * 500 and nothing more is looked up.
   */
  method CatalogThreadsGetApi(lookups: ThreadPostQueries, files: FileQueries, req: Request) returns (res: Response)
    modifies lookups, files.database
    ensures var h := Respond(lookups.threadById, lookups.threadsOf, lookups.firstPostOf, files.database.onGet, req);
            res == h.response && lookups.calls == old(lookups.calls) + h.lookups &&
            files.database.calls == old(files.database.calls) + h.queries
  {
    ghost var perThread := PerThread(lookups.firstPostOf, files.database.onGet);
    var imageBoard := OrNull(req.imageBoard);
    var board := OrNull(req.board);
    var id := OrNull(req.id);
    if id.Some? {
      res := GetThread(lookups, files, perThread, id.value);
    } else {
      res := ListThreads(lookups, files, perThread, imageBoard, board);
    }
  }

  /** The single-thread branch of the handler. */
  method GetThread(lookups: ThreadPostQueries, files: FileQueries, ghost perThread: JsValue -> EntryStep, id: string)
    returns (res: Response)
    requires Computes(perThread, lookups.firstPostOf, files.database.onGet)
    modifies lookups, files.database
    ensures var h := ThreadResponse(lookups.threadById, perThread, id);
            res == h.response && lookups.calls == old(lookups.calls) + h.lookups &&
            files.database.calls == old(files.database.calls) + h.queries
  {
    var result := lookups.SelectThread(id);
    if result.Failure? {
      return ServerError;
    }
    if result.value.None? {
      return NotFound;
    }
    var thread := ToCatalogThread(result.value.value);
    var entry := FirstPostAndFile(lookups, files, perThread, Str(id));
    assert lookups.calls == old(lookups.calls) + ([ThreadById(id)] + perThread(Str(id)).lookups);
    if entry.Failure? {
      return ServerError;
    }
    res := Json(SingleThread(Entry(thread, entry.value.0, entry.value.1)));
  }

  /** The listing branch of the handler: one entry pushed per stored thread, in order. */
  method ListThreads(lookups: ThreadPostQueries, files: FileQueries, ghost perThread: JsValue -> EntryStep,
                     imageBoard: Option<string>, board: Option<string>)
    returns (res: Response)
    requires Computes(perThread, lookups.firstPostOf, files.database.onGet)
    modifies lookups, files.database
    ensures var h := ListingResponse(lookups.threadsOf, perThread, imageBoard, board);
            res == h.response && lookups.calls == old(lookups.calls) + h.lookups &&
            files.database.calls == old(files.database.calls) + h.queries
  {
    var stored := lookups.SelectThreads(imageBoard, board, true);
    if stored.Failure? {
      return ServerError;
    }
    var threads := ListEntries(lookups, files, perThread, stored.value);
    assert lookups.calls == old(lookups.calls) + ([Threads(imageBoard, board, true)] + Listing(perThread, stored.value).lookups);
    if threads.Failure? {
      return ServerError;
    }
    res := Json(ThreadList(threads.value));
  }

  /** The loop of the listing branch: one entry pushed per stored thread, in order, until one fails. */
  method ListEntries(lookups: ThreadPostQueries, files: FileQueries, ghost perThread: JsValue -> EntryStep,
                     storedThreads: seq<StoredThread>)
    returns (r: Result<seq<Entry<StoredThread>>>)
    requires Computes(perThread, lookups.firstPostOf, files.database.onGet)
    modifies lookups, files.database
    ensures var l := Listing(perThread, storedThreads);
            r == l.result && lookups.calls == old(lookups.calls) + l.lookups &&
            files.database.calls == old(files.database.calls) + l.queries
  {
    var threads: seq<Entry<StoredThread>> := [];
    for i := 0 to |storedThreads|
      invariant var l := Listing(perThread, storedThreads[..i]);
                l.result == Success(threads) && lookups.calls == old(lookups.calls) + l.lookups &&
                files.database.calls == old(files.database.calls) + l.queries
    {
      ghost var before := Listing(perThread, storedThreads[..i]);
      ListingStep(perThread, storedThreads, i);
      var entry := FirstPostAndFile(lookups, files, perThread, storedThreads[i].id);
      ghost var step := perThread(storedThreads[i].id);
      assert lookups.calls == old(lookups.calls) + (before.lookups + step.lookups);
      assert files.database.calls == old(files.database.calls) + (before.queries + step.queries);
      if entry.Failure? {
        ListingFailsAt(perThread, storedThreads, i);
        return Failure(entry.error);
      }
      threads := threads + [Entry(storedThreads[i], entry.value.0, entry.value.1)];
    }
    assert storedThreads[..|storedThreads|] == storedThreads;
    r := Success(threads);
  }

  /**
   * The first post of a thread and the first file of that post, read
   * without the payload columns; a thread without posts fails.
   */
  method FirstPostAndFile(lookups: ThreadPostQueries, files: FileQueries, ghost perThread: JsValue -> EntryStep,
                          threadKey: JsValue)
    returns (r: Result<(CatalogPost, Option<CatalogFile>)>)
    requires Computes(perThread, lookups.firstPostOf, files.database.onGet)
    modifies lookups, files.database
    ensures r == perThread(threadKey).result
    ensures lookups.calls == old(lookups.calls) + perThread(threadKey).lookups
    ensures files.database.calls == old(files.database.calls) + perThread(threadKey).queries
  {
    assert perThread(threadKey) == PostAndFile(lookups.firstPostOf, files.database.onGet, threadKey);
    var result := lookups.SelectFirstPostOfThread(threadKey);
    if result.Failure? {
      return Failure(result.error);
    }
    if result.value.None? {
      return Failure(TypeError("id"));
    }
    var post := ToCatalogPost(result.value.value);
    var file := files.SelectFirstFileOfPost(post.id, PayloadColumns);
    if file.Failure? {
      return Failure(file.error);
    }
    var catalogFile := if file.value.Some? then Some(ToCatalogFile(file.value.value)) else None;
    r := Success((post, catalogFile));
  }
}
