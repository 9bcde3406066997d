/** The search controller (backend/src/controllers/searchcontroller.js): a
    simple substring search over the caller's live items, and an advanced
    search whose `where` objects are assembled filter by filter. Neither
    changes the store. */
module Search {
  import opened Common
  import opened Rows
  import opened Db
  import opened Query
  import opened Recent

  // ---------------------------------------------------------------- paging

  /** `limit = 20` and `offset = 0` when the parameter is absent. */
  function OrDefault(o: Option<int>, d: int): (r: int)
    ensures o.None? ==> r == d
    ensures o.Some? ==> r == o.value
  {
    if o.None? then d else o.value
  }

  /** `ORDER BY updatedAt DESC LIMIT offset, limit` over the rows `S`: the rows
      ranked below the first `offset` ones, at most `limit` of them. MySQL
      refuses a negative limit or offset. */
  method Page(S: set<Id>, key: Id -> int, limit: int, offset: int)
    returns (status: Status, page: seq<Id>, ghost ranked: seq<Id>)
    ensures status in {Ok, ServerError}
    ensures status == ServerError <==> limit < 0 || offset < 0
    ensures status != Ok ==> page == []
    ensures status == Ok ==>
      && TopOf(ranked, S, key, offset + limit)
      && page == ranked[Min(offset, |ranked|)..]
      && |page| == (if offset >= |S| then 0 else Min(limit, |S| - offset))
    ensures Elems(page) <= S && Distinct(page)
  {
    ranked := [];
    if limit < 0 || offset < 0 {
      return ServerError, [], ranked;
    }
    var top := SelectTop(S, key, offset + limit);
    ranked := top;
    page := top[Min(offset, |top|)..];
    assert forall x :: x in page ==> x in top;
    status := Ok;
  }

  // ---------------------------------------------------------------- search

  /** Which lists a `type` parameter asks for: absent (or empty), 'all', or
      the one it names. Any other value asks for neither. */
  predicate SearchesFiles(kind: Option<string>) {
    kind.None? || kind == Some("") || kind == Some("file") || kind == Some("all")
  }

  predicate SearchesFolders(kind: Option<string>) {
    kind.None? || kind == Some("") || kind == Some("folder") || kind == Some("all")
  }

  /** A live file of the caller whose stored or visible name contains `term`. */
  predicate FileHit(f: File, userId: Id, term: string) {
    f.userId == userId && !f.isDeleted && (Contains(f.name, term) || Contains(f.originalName, term))
  }

  predicate FolderHit(f: Folder, userId: Id, term: string) {
    f.userId == userId && !f.isDeleted && Contains(f.name, term)
  }

  function FileHits(G: map<Id, File>, userId: Id, term: string): set<Id> {
    set k | k in G && FileHit(G[k], userId, term)
  }

  function FolderHits(F: map<Id, Folder>, userId: Id, term: string): set<Id> {
    set k | k in F && FolderHit(F[k], userId, term)
  }

  /** search: a missing or blank `q` is refused; otherwise the trimmed `q` is
      looked for in the caller's live files and folders, each list paged on
      its own, and `total` counts what was returned. */
  method SimpleSearch(st: Store, userId: Id, q: Option<string>, kind: Option<string>, limit: Option<int>, offset: Option<int>)
    returns (status: Status, files: seq<Id>, folders: seq<Id>, total: nat, ghost rankedFiles: seq<Id>, ghost rankedFolders: seq<Id>)
    ensures status in {Ok, BadRequest, ServerError}
    ensures status == BadRequest <==> q.None? || Trim(q.value) == ""
    ensures status == ServerError <==>
      status != BadRequest && (SearchesFiles(kind) || SearchesFolders(kind))
      && (OrDefault(limit, 20) < 0 || OrDefault(offset, 0) < 0)
    ensures status != Ok ==> files == [] && folders == []
    ensures total == |files| + |folders|
    ensures !SearchesFiles(kind) ==> files == []
    ensures !SearchesFolders(kind) ==> folders == []
    ensures status == Ok ==>
      SearchResult(st.files, st.folders, userId, Trim(q.value), kind, OrDefault(limit, 20), OrDefault(offset, 0),
                   files, folders, rankedFiles, rankedFolders)
  {
    files, folders, total, rankedFiles, rankedFolders := [], [], 0, [], [];
    if q.None? || Trim(q.value) == "" {
      return BadRequest, files, folders, total, rankedFiles, rankedFolders;
    }
    status, files, folders, total, rankedFiles, rankedFolders :=
      SearchTerm(st.files, st.folders, userId, Trim(q.value), kind, OrDefault(limit, 20), OrDefault(offset, 0));
  }

  /** What a successful search returns for the term `term`: each list asked
      for is the page of the caller's matching live rows, most recently
      updated first, and holds only such rows. */
  ghost predicate SearchResult(G: map<Id, File>, F: map<Id, Folder>, userId: Id, term: string, kind: Option<string>,
                               limit: int, offset: int, files: seq<Id>, folders: seq<Id>,
                               rankedFiles: seq<Id>, rankedFolders: seq<Id>)
  {
    && (SearchesFiles(kind) ==>
      && offset >= 0 && limit >= 0
      && TopOf(rankedFiles, FileHits(G, userId, term), ByFileUpdated(G), offset + limit)
      && files == rankedFiles[Min(offset, |rankedFiles|)..] && |files| <= limit)
    && (SearchesFolders(kind) ==>
      && offset >= 0 && limit >= 0
      && TopOf(rankedFolders, FolderHits(F, userId, term), ByFolderUpdated(F), offset + limit)
      && folders == rankedFolders[Min(offset, |rankedFolders|)..] && |folders| <= limit)
    && (forall i :: 0 <= i < |files| ==> files[i] in G && FileHit(G[files[i]], userId, term))
    && (forall i :: 0 <= i < |folders| ==> folders[i] in F && FolderHit(F[folders[i]], userId, term))
  }

  /** The two queries of search for a non-blank term. */
  method SearchTerm(G: map<Id, File>, F: map<Id, Folder>, userId: Id, term: string, kind: Option<string>, limit: int, offset: int)
    returns (status: Status, files: seq<Id>, folders: seq<Id>, total: nat, ghost rankedFiles: seq<Id>, ghost rankedFolders: seq<Id>)
    ensures status in {Ok, ServerError}
    ensures status == ServerError <==> (SearchesFiles(kind) || SearchesFolders(kind)) && (limit < 0 || offset < 0)
    ensures status != Ok ==> files == [] && folders == []
    ensures total == |files| + |folders|
    ensures !SearchesFiles(kind) ==> files == []
    ensures !SearchesFolders(kind) ==> folders == []
    ensures status == Ok ==> SearchResult(G, F, userId, term, kind, limit, offset, files, folders, rankedFiles, rankedFolders)
  {
    status, files, folders, total, rankedFiles, rankedFolders :=
      PageBoth(kind, FileHits(G, userId, term), ByFileUpdated(G), FolderHits(F, userId, term), ByFolderUpdated(F), limit, offset);
    assert forall i :: 0 <= i < |files| ==> files[i] in Elems(files);
    assert forall i :: 0 <= i < |folders| ==> folders[i] in Elems(folders);
  }

  /** Both queries of a search: each list is asked for only when `kind`
      selects it, and each is paged on its own. */
  method PageBoth(kind: Option<string>, A: set<Id>, keyA: Id -> int, B: set<Id>, keyB: Id -> int, limit: int, offset: int)
    returns (status: Status, files: seq<Id>, folders: seq<Id>, total: nat, ghost rankedFiles: seq<Id>, ghost rankedFolders: seq<Id>)
    ensures status in {Ok, ServerError}
    ensures status == ServerError <==> (SearchesFiles(kind) || SearchesFolders(kind)) && (limit < 0 || offset < 0)
    ensures status != Ok ==> files == [] && folders == []
    ensures total == |files| + |folders|
    ensures !SearchesFiles(kind) ==> files == []
    ensures !SearchesFolders(kind) ==> folders == []
    ensures status == Ok && SearchesFiles(kind) ==>
      TopOf(rankedFiles, A, keyA, offset + limit) && files == rankedFiles[Min(offset, |rankedFiles|)..] && |files| <= limit
    ensures status == Ok && SearchesFolders(kind) ==>
      TopOf(rankedFolders, B, keyB, offset + limit) && folders == rankedFolders[Min(offset, |rankedFolders|)..] && |folders| <= limit
    ensures Elems(files) <= A && Elems(folders) <= B
  {
    files, folders, total, rankedFiles, rankedFolders := [], [], 0, [], [];
    status := Ok;
    if SearchesFiles(kind) {
      status, files, rankedFiles := Page(A, keyA, limit, offset);
      if status != Ok {
        return status, [], [], 0, rankedFiles, rankedFolders;
      }
    }
    if SearchesFolders(kind) {
      status, folders, rankedFolders := Page(B, keyB, limit, offset);
      if status != Ok {
        return status, [], [], 0, rankedFiles, rankedFolders;
      }
    }
    total := |files| + |folders|;
  }

  /** White space around `q` does not change what is searched for. */
  lemma {:induction false} TrimPadded(s: string, c: char)
    requires IsSpace(c)
    ensures Trim([c] + s) == Trim(s)
    ensures Trim(s + [c]) == Trim(s)
    decreases |s|
  {
    assert ([c] + s)[1..] == s;
    if s != [] {
      var t := s + [c];
      assert t[1..] == s[1..] + [c];
      assert t[..|t| - 1] == s;
      if IsSpace(s[0]) {
        TrimPadded(s[1..], c);
      }
    }
  }

  // ---------------------------------------------------------------- advanced search

  /** The `folderId` filter: the word 'root' or a folder id. */
  datatype FolderArg = RootWord | FolderIdArg(id: Id)

  /** `folderId === 'root' ? null : folderId`. */
  function Place(a: FolderArg): (p: Option<Id>)
    ensures p.None? <==> a == RootWord
    ensures a.FolderIdArg? ==> p == Some(a.id)
  {
    if a == RootWord then None else Some(a.id)
  }

  /** The body of an advanced search. A filter field is `None` when it is
      absent or falsy, as the builder's `if (field)` tests read it; a size
      holds its `parseInt`, a date its parsed time. `limit` and `offset` are
      `None` only when absent, since their defaults apply to `undefined`
      alone: a `limit` of 0 is `Some(0)` and asks for no rows. */
  datatype Filters = Filters(
    query: Option<string>,
    kind: Option<string>,
    mimeType: Option<string>,
    minSize: Option<int>,
    maxSize: Option<int>,
    createdAfter: Option<Time>,
    createdBefore: Option<Time>,
    modifiedAfter: Option<Time>,
    modifiedBefore: Option<Time>,
    folderId: Option<FolderArg>,
    limit: Option<int>,
    offset: Option<int>)

  /** The condition a `mimeType` filter puts on the column. */
  datatype MimeCond = AnyMime | MimePrefix(prefix: string) | MimeDocument | MimeExact(mime: string)

  /** A bound pair built by spreading `[Op.gte]` and `[Op.lte]` into one object. */
  datatype Range = Range(lo: Option<int>, hi: Option<int>)

  /** The `fileWhere` object. `parent` is `None` when no folder filter was
      set, `Some(None)` for the root. */
  datatype FileWhere = FileWhere(
    userId: Id, name: Option<string>, mime: MimeCond,
    size: Range, created: Range, updated: Range, parent: Option<Option<Id>>)

  /** The `folderWhere` object: no name beyond the query, no MIME, no size. */
  datatype FolderWhere = FolderWhere(
    userId: Id, name: Option<string>, created: Range, updated: Range, parent: Option<Option<Id>>)

  /** The MIME branch of the builder: three category words become prefixes,
      'document' a fixed alternative, anything else an exact value. */
  function MimeCondOf(mimeType: Option<string>): (c: MimeCond)
    ensures c == AnyMime <==> !IsSet(mimeType)
    ensures c.MimeDocument? <==> mimeType == Some("document")
    ensures c.MimeExact? ==> mimeType == Some(c.mime) && c.mime !in {"image", "video", "audio", "document"}
    ensures c.MimePrefix? ==> exists w :: w in {"image", "video", "audio"} && mimeType == Some(w) && c.prefix == w + "/"
  {
    if !IsSet(mimeType) then AnyMime
    else if mimeType.value == "image" then MimePrefix("image/")
    else if mimeType.value == "video" then MimePrefix("video/")
    else if mimeType.value == "audio" then MimePrefix("audio/")
    else if mimeType.value == "document" then MimeDocument
    else MimeExact(mimeType.value)
  }

  function Bounds(lo: Option<int>, hi: Option<int>): Range {
    Range(lo, hi)
  }

  function DateBound(t: Option<Time>): Option<int> {
    if t.Some? then Some(t.value as int) else None
  }

  function FolderCond(a: Option<FolderArg>): Option<Option<Id>> {
    if a.Some? then Some(Place(a.value)) else None
  }

  function BuildFileWhere(userId: Id, flt: Filters): FileWhere {
    FileWhere(userId, if IsSet(flt.query) then flt.query else None, MimeCondOf(flt.mimeType),
      Bounds(flt.minSize, flt.maxSize),
      Bounds(DateBound(flt.createdAfter), DateBound(flt.createdBefore)),
      Bounds(DateBound(flt.modifiedAfter), DateBound(flt.modifiedBefore)),
      FolderCond(flt.folderId))
  }

  function BuildFolderWhere(userId: Id, flt: Filters): FolderWhere {
    FolderWhere(userId, if IsSet(flt.query) then flt.query else None,
      Bounds(DateBound(flt.createdAfter), DateBound(flt.createdBefore)),
      Bounds(DateBound(flt.modifiedAfter), DateBound(flt.modifiedBefore)),
      FolderCond(flt.folderId))
  }

  /** How the database evaluates the conditions. */
  predicate InRange(v: int, r: Range) {
    (r.lo.Some? ==> v >= r.lo.value) && (r.hi.Some? ==> v <= r.hi.value)
  }

  predicate MimeHolds(m: string, c: MimeCond) {
    match c
    case AnyMime => true
    case MimePrefix(p) => StartsWith(m, p)
    case MimeDocument =>
      m == "application/pdf" || m == "application/msword"
      || StartsWith(m, "application/vnd.openxmlformats") || StartsWith(m, "text/")
    case MimeExact(x) => m == x
  }

  predicate FileSatisfies(f: File, w: FileWhere) {
    && f.userId == w.userId
    && (w.name.Some? ==> Contains(f.name, w.name.value))
    && MimeHolds(f.mimeType, w.mime)
    && InRange(f.size, w.size) && InRange(f.createdAt, w.created) && InRange(f.updatedAt, w.updated)
    && (w.parent.Some? ==> f.folderId == w.parent.value)
  }

  predicate FolderSatisfies(f: Folder, w: FolderWhere) {
    && f.userId == w.userId
    && (w.name.Some? ==> Contains(f.name, w.name.value))
    && InRange(f.createdAt, w.created) && InRange(f.updatedAt, w.updated)
    && (w.parent.Some? ==> f.parentId == w.parent.value)
  }

  function AdvancedFileHits(G: map<Id, File>, userId: Id, flt: Filters): set<Id> {
    set k | k in G && FileSatisfies(G[k], BuildFileWhere(userId, flt))
  }

  function AdvancedFolderHits(F: map<Id, Folder>, userId: Id, flt: Filters): set<Id> {
    set k | k in F && FolderSatisfies(F[k], BuildFolderWhere(userId, flt))
  }

  /** What the assembled file filter accepts, condition by condition: the
      query is looked for in the stored name only, a 'document' is one of
      four kinds, sizes and dates are inclusive ranges, 'root' means no
      folder, and whether the file is in the trash plays no part. */
  lemma AdvancedFileMatch(f: File, userId: Id, flt: Filters)
    ensures FileSatisfies(f, BuildFileWhere(userId, flt)) <==>
      && f.userId == userId
      && (IsSet(flt.query) ==> Contains(f.name, flt.query.value))
      && (flt.mimeType == Some("image") ==> StartsWith(f.mimeType, "image/"))
      && (flt.mimeType == Some("video") ==> StartsWith(f.mimeType, "video/"))
      && (flt.mimeType == Some("audio") ==> StartsWith(f.mimeType, "audio/"))
      && (flt.mimeType == Some("document") ==>
            f.mimeType == "application/pdf" || f.mimeType == "application/msword"
            || StartsWith(f.mimeType, "application/vnd.openxmlformats") || StartsWith(f.mimeType, "text/"))
      && (IsSet(flt.mimeType) && flt.mimeType.value !in {"image", "video", "audio", "document"} ==> f.mimeType == flt.mimeType.value)
      && (flt.minSize.Some? ==> flt.minSize.value <= f.size)
      && (flt.maxSize.Some? ==> f.size <= flt.maxSize.value)
      && (flt.createdAfter.Some? ==> flt.createdAfter.value <= f.createdAt)
      && (flt.createdBefore.Some? ==> f.createdAt <= flt.createdBefore.value)
      && (flt.modifiedAfter.Some? ==> flt.modifiedAfter.value <= f.updatedAt)
      && (flt.modifiedBefore.Some? ==> f.updatedAt <= flt.modifiedBefore.value)
      && (flt.folderId == Some(RootWord) ==> f.folderId.None?)
      && (flt.folderId.Some? && flt.folderId.value.FolderIdArg? ==> f.folderId == Some(flt.folderId.value.id))
  {
  }

  /** Moving a file to or from the trash, or renaming it for the user, does
      not change whether the advanced filter accepts it. */
  lemma AdvancedIgnoresTrash(f: File, userId: Id, flt: Filters, deleted: bool, originalName: string)
    ensures FileSatisfies(f, BuildFileWhere(userId, flt)) ==
      FileSatisfies(f.(isDeleted := deleted, originalName := originalName), BuildFileWhere(userId, flt))
  {
  }

  /** advancedSearch: the files and folders the assembled filters accept,
      trashed ones included, each list paged on its own. */
  method AdvancedSearch(st: Store, userId: Id, flt: Filters)
    returns (status: Status, files: seq<Id>, folders: seq<Id>, total: nat, ghost rankedFiles: seq<Id>, ghost rankedFolders: seq<Id>)
    ensures status in {Ok, ServerError}
    ensures status == ServerError <==>
      (SearchesFiles(flt.kind) || SearchesFolders(flt.kind)) && (OrDefault(flt.limit, 20) < 0 || OrDefault(flt.offset, 0) < 0)
    ensures status != Ok ==> files == [] && folders == []
    ensures total == |files| + |folders|
    ensures !SearchesFiles(flt.kind) ==> files == []
    ensures !SearchesFolders(flt.kind) ==> folders == []
    ensures status == Ok && SearchesFiles(flt.kind) ==>
      var off := OrDefault(flt.offset, 0);
      && TopOf(rankedFiles, AdvancedFileHits(st.files, userId, flt), ByFileUpdated(st.files), off + OrDefault(flt.limit, 20))
      && files == rankedFiles[Min(off, |rankedFiles|)..]
    ensures status == Ok && SearchesFolders(flt.kind) ==>
      var off := OrDefault(flt.offset, 0);
      && TopOf(rankedFolders, AdvancedFolderHits(st.folders, userId, flt), ByFolderUpdated(st.folders), off + OrDefault(flt.limit, 20))
      && folders == rankedFolders[Min(off, |rankedFolders|)..]
    ensures status == Ok && SearchesFiles(flt.kind) ==> |files| <= OrDefault(flt.limit, 20)
    ensures status == Ok && SearchesFolders(flt.kind) ==> |folders| <= OrDefault(flt.limit, 20)
  {
    status, files, folders, total, rankedFiles, rankedFolders :=
      PageBoth(flt.kind, AdvancedFileHits(st.files, userId, flt), ByFileUpdated(st.files),
               AdvancedFolderHits(st.folders, userId, flt), ByFolderUpdated(st.folders),
               OrDefault(flt.limit, 20), OrDefault(flt.offset, 0));
  }
}
