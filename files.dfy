/** The file controller (backend/src/controllers/fileController.js): upload,
    listing, rename, move, the soft-delete life cycle, permanent deletion
    with the quota refund, and the preview classification. Blob presence is
    the store's `blobs` set; `fs.unlink` succeeds exactly on a present path. */
module Files {
  import opened Common
  import opened Rows
  import opened Db
  import opened Quota
  import opened Query
  import Folders

  /** `File.findOne({ id, userId, isDeleted: false })` finds a row. */
  predicate LiveFile(G: map<Id, File>, id: Id, userId: Id) {
    id in G && G[id].userId == userId && !G[id].isDeleted
  }

  /** `File.findOne({ id, userId, isDeleted: true })` finds a row. */
  predicate TrashedFile(G: map<Id, File>, id: Id, userId: Id) {
    id in G && G[id].userId == userId && G[id].isDeleted
  }

  /** `File.findOne({ id, userId })` finds a row, trashed or not. */
  predicate OwnedFile(G: map<Id, File>, id: Id, userId: Id) {
    id in G && G[id].userId == userId
  }

  // ---------------------------------------------------------------- upload

  /** The row `File.create` makes for one uploaded part. */
  function NewRow(u: Upload, folderId: Option<Id>, userId: Id, now: Time): File {
    File(u.filename, u.originalname, u.mimetype, u.size, u.path, folderId, userId, false, None, false, now, now)
  }

  /** The rows an upload of `items` creates, numbered from `base` in upload order. */
  function Created(items: seq<Upload>, base: nat, folderId: Option<Id>, userId: Id, now: Time): map<Id, File> {
    if items == [] then map[]
    else
      var front := items[..|items| - 1];
      Created(front, base, folderId, userId, now)[base + |front| := NewRow(items[|items| - 1], folderId, userId, now)]
  }

  /** The upload creates exactly the ids `base .. base + |items| - 1`, the
      `i`-th one from the `i`-th part. */
  lemma {:induction false} CreatedShape(items: seq<Upload>, base: nat, folderId: Option<Id>, userId: Id, now: Time)
    ensures forall k :: k in Created(items, base, folderId, userId, now) <==> base <= k < base + |items|
    ensures forall i :: 0 <= i < |items| ==> Created(items, base, folderId, userId, now)[base + i] == NewRow(items[i], folderId, userId, now)
    decreases |items|
  {
    if items != [] {
      var front := items[..|items| - 1];
      CreatedShape(front, base, folderId, userId, now);
      assert forall i :: 0 <= i < |front| ==> front[i] == items[i];
    }
  }

  /** uploadFiles: an empty upload is refused, a named folder that is not a
      live folder of the caller is not found; otherwise one row per part is
      created in that folder, with fresh ids in upload order, and the
      caller's `storageUsed` grows by the sum of the sizes. The quota is not
      checked here: that is the gate's job. */
  method UploadFiles(st: Store, now: Time, userId: Id, folderId: Option<Id>, items: seq<Upload>)
    returns (status: Status, ids: seq<Id>)
    requires st.Valid() && userId in st.users
    modifies st
    ensures st.Valid()
    ensures status in {Ok, BadRequest, NotFound}
    ensures status == BadRequest <==> items == []
    ensures status == NotFound <==>
      items != [] && folderId.Some? && !Folders.LiveOwned(old(st.folders), folderId.value, userId)
    ensures status != Ok ==> ids == [] && st.Snapshot() == old(st.Snapshot())
    ensures status == Ok ==> |ids| == |items| && Distinct(ids)
    ensures status == Ok ==> forall i :: 0 <= i < |ids| ==> ids[i] !in old(st.files) && ids[i] == old(st.nextId) + i
    ensures status == Ok ==>
      st.Snapshot() == old(st.Snapshot()).(
        files := old(st.files) + Created(items, old(st.nextId), folderId, userId, now),
        users := old(st.users)[userId := old(st.users)[userId].(
          storageUsed := old(st.users)[userId].storageUsed + SumSizes(items))],
        nextId := old(st.nextId) + |items|)
  {
    ids := [];
    if items == [] {
      return BadRequest, ids;
    }
    if folderId.Some? && !Folders.LiveOwned(st.folders, folderId.value, userId) {
      return NotFound, ids;
    }
    ids := AddUploads(st, now, userId, folderId, items);
    status := Ok;
  }

  /** The successful path of uploadFiles: the rows, then the usage. */
  method AddUploads(st: Store, now: Time, userId: Id, folderId: Option<Id>, items: seq<Upload>) returns (ids: seq<Id>)
    requires st.Valid() && userId in st.users
    requires folderId.Some? ==> Folders.LiveOwned(st.folders, folderId.value, userId)
    modifies st
    ensures st.Valid()
    ensures |ids| == |items| && Distinct(ids)
    ensures forall i :: 0 <= i < |ids| ==> ids[i] !in old(st.files) && ids[i] == old(st.nextId) + i
    ensures st.Snapshot() == old(st.Snapshot()).(
      files := old(st.files) + Created(items, old(st.nextId), folderId, userId, now),
      users := old(st.users)[userId := old(st.users)[userId].(
        storageUsed := old(st.users)[userId].storageUsed + SumSizes(items))],
      nextId := old(st.nextId) + |items|)
  {
    ghost var T0 := st.Snapshot();
    var base := st.nextId;
    ghost var G1 := T0.files + Created(items, base, folderId, userId, now);
    var totalSize;
    ids, totalSize := CreateRows(st, now, userId, folderId, items);
    assert forall i :: 0 <= i < |ids| ==> ids[i] !in T0.files by {
      assert IdsBelow(T0);
    }
    UploadPlaced(T0, G1, items, base, folderId, userId, now);
    ghost var T1 := st.Snapshot();
    assert T1 == T0.(files := G1, nextId := base + |items|);
    var used := st.users[userId].storageUsed + totalSize;
    ghost var u := T1.users[userId].(storageUsed := used);
    SetUsage(st, userId, used);
    assert st.Snapshot() == T1.(users := T1.users[userId := u]);
  }

  /** `user.storageUsed = used; await user.save()`: nothing else changes. */
  method SetUsage(st: Store, userId: Id, used: nat)
    requires st.Valid() && userId in st.users
    modifies st
    ensures st.Valid()
    ensures st.Snapshot() == old(st.Snapshot()).(users := old(st.users)[userId := old(st.users)[userId].(storageUsed := used)])
  {
    ghost var T := st.Snapshot();
    var u := st.users[userId].(storageUsed := used);
    UserEditKeeps(T, userId, u);
    st.users := st.users[userId := u];
    assert st.Snapshot() == T.(users := T.users[userId := u]);
  }

  lemma CreatedStep(G: map<Id, File>, items: seq<Upload>, i: nat, base: nat, folderId: Option<Id>, userId: Id, now: Time)
    requires i < |items|
    ensures G + Created(items[..i + 1], base, folderId, userId, now)
         == (G + Created(items[..i], base, folderId, userId, now))[base + i := NewRow(items[i], folderId, userId, now)]
  {
    assert items[..i + 1][..i] == items[..i];
  }

  /** The loop of uploadFiles: one `File.create` per part, summing the sizes. */
  method CreateRows(st: Store, now: Time, userId: Id, folderId: Option<Id>, items: seq<Upload>)
    returns (ids: seq<Id>, totalSize: nat)
    modifies st
    ensures |ids| == |items| && forall j :: 0 <= j < |ids| ==> ids[j] == old(st.nextId) + j
    ensures totalSize == SumSizes(items)
    ensures st.Snapshot() == old(st.Snapshot()).(
      files := old(st.files) + Created(items, old(st.nextId), folderId, userId, now),
      nextId := old(st.nextId) + |items|)
  {
    ghost var T0 := st.Snapshot();
    var base := st.nextId;
    var i := 0;
    ids := [];
    totalSize := 0;
    while i < |items|
      invariant 0 <= i <= |items| && |ids| == i
      invariant forall j :: 0 <= j < i ==> ids[j] == base + j
      invariant totalSize == SumSizes(items[..i])
      invariant st.Snapshot() == T0.(files := T0.files + Created(items[..i], base, folderId, userId, now), nextId := base + i)
    {
      var row := NewRow(items[i], folderId, userId, now);
      CreatedStep(T0.files, items, i, base, folderId, userId, now);
      assert items[..i + 1][..i] == items[..i];
      ghost var T := st.Snapshot();
      st.files, st.nextId := st.files[st.nextId := row], st.nextId + 1;
      assert st.Snapshot() == T.(files := T.files[base + i := row], nextId := base + i + 1);
      ids := ids + [base + i];
      totalSize := totalSize + items[i].size;
      i := i + 1;
    }
    assert items[..i] == items;
  }

  /** The rows of a successful upload are fresh and placed in the caller's tree. */
  lemma UploadPlaced(T: Tables, G': map<Id, File>, items: seq<Upload>, base: nat,
                     folderId: Option<Id>, userId: Id, now: Time)
    requires Consistent(T) && base == T.nextId && userId in T.users
    requires folderId.Some? ==> Folders.LiveOwned(T.folders, folderId.value, userId)
    requires G' == T.files + Created(items, base, folderId, userId, now)
    ensures Consistent(T.(files := G', nextId := base + |items|))
  {
    var C := Created(items, base, folderId, userId, now);
    CreatedShape(items, base, folderId, userId, now);
    assert IdsBelow(T) && FilesPlaced(T.users, T.folders, T.files);
    forall k | k in G'
      ensures k < base + |items| && G'[k].userId in T.users && PlacedIn(T.folders, G'[k].userId, G'[k].folderId)
    {
      if k in C {
        var i := k - base;
        assert 0 <= i < |items| && items[i] == items[i];
        assert G'[k] == NewRow(items[i], folderId, userId, now);
      } else {
        assert k in T.files && G'[k] == T.files[k];
        assert T.files[k].folderId == G'[k].folderId;
      }
    }
    AddFilesKeeps(T, G', base + |items|);
  }

  /** The blob paths multer's disk storage writes for the parts of a request. */
  function UploadedPaths(items: seq<Upload>): set<string> {
    set i | 0 <= i < |items| :: items[i].path
  }

  /** The upload route: multer's array writes every part to disk, then the
      quota gate runs, then the controller. The blobs stay on disk whatever
      the gate or the controller answers. A request the gate passes leaves
      the caller within quota, whatever the state before, and every file it
      creates can be downloaded under its client name. */
  method UploadRoute(st: Store, now: Time, userId: Id, folderId: Option<Id>, items: seq<Upload>)
    returns (status: Status, ids: seq<Id>)
    requires st.Valid() && userId in st.users
    modifies st
    ensures st.Valid() && userId in st.users
    ensures st.blobs == old(st.blobs) + UploadedPaths(items)
    ensures status == QuotaExceeded <==>
      old(st.users)[userId].storageUsed + SumSizes(items) > old(st.users)[userId].storageQuota
    ensures status != Ok ==> ids == [] && st.Snapshot() == old(st.Snapshot()).(blobs := old(st.blobs) + UploadedPaths(items))
    ensures status == Ok ==> st.users[userId].storageUsed <= st.users[userId].storageQuota
    ensures old(st.users)[userId].storageUsed <= old(st.users)[userId].storageQuota ==>
      st.users[userId].storageUsed <= st.users[userId].storageQuota
    ensures status == Ok ==> |ids| == |items| && forall i :: 0 <= i < |ids| ==>
      DownloadFile(st.files, st.blobs, userId, ids[i]) == Some((items[i].path, items[i].originalname))
  {
    ghost var T := st.Snapshot();
    BlobsFree(T, T.blobs + UploadedPaths(items));
    st.blobs := st.blobs + UploadedPaths(items);
    assert st.Snapshot() == T.(blobs := T.blobs + UploadedPaths(items));
    var verdict := ValidateStorage(st.users, userId, Many(items));
    if verdict.Refuse? {
      return verdict.status, [];
    }
    status, ids := UploadFiles(st, now, userId, folderId, items);
    if status == Ok {
      UploadsDownloadable(T.files, st.files, st.blobs, items, ids, T.nextId, folderId, userId, now);
    }
  }

  /** Each row an upload creates is a live file of the caller whose blob is
      one of the paths written, so it can be downloaded at once. */
  lemma UploadsDownloadable(G0: map<Id, File>, G: map<Id, File>, B: set<string>, items: seq<Upload>, ids: seq<Id>,
                            base: nat, folderId: Option<Id>, userId: Id, now: Time)
    requires G == G0 + Created(items, base, folderId, userId, now) && UploadedPaths(items) <= B
    requires |ids| == |items| && forall i :: 0 <= i < |ids| ==> ids[i] == base + i
    ensures forall i :: 0 <= i < |ids| ==>
      DownloadFile(G, B, userId, ids[i]) == Some((items[i].path, items[i].originalname))
  {
    CreatedShape(items, base, folderId, userId, now);
    forall i | 0 <= i < |ids|
      ensures DownloadFile(G, B, userId, ids[i]) == Some((items[i].path, items[i].originalname))
    {
      assert G[ids[i]] == NewRow(items[i], folderId, userId, now);
      assert items[i].path in UploadedPaths(items);
    }
  }

  // ---------------------------------------------------------------- listing

  /** The `where` of getFiles: the caller's files in `folderId` (null for the
      root), trashed ones only when `includeDeleted` is the string "true". */
  function Listed(G: map<Id, File>, userId: Id, folderId: Option<Id>, includeDeleted: string): set<Id> {
    set k | k in G && G[k].userId == userId && G[k].folderId == folderId && (includeDeleted == "true" || !G[k].isDeleted)
  }

  function ByCreated(G: map<Id, File>): Id -> int {
    k => if k in G then G[k].createdAt else -1
  }

  /** `storageQuota || 30 GiB`: a zero quota is reported as the default. */
  function ReportedQuota(q: nat): (r: nat)
    ensures r > 0 && (q > 0 ==> r == q)
    ensures q == 0 ==> r == DefaultQuota
  {
    if q == 0 then DefaultQuota else q
  }

  /** getFiles: the listed rows, newest first, with the caller's usage figures. */
  method GetFiles(st: Store, userId: Id, folderId: Option<Id>, includeDeleted: string)
    returns (ids: seq<Id>, storageUsed: nat, storageQuota: nat)
    requires userId in st.users
    ensures Elems(ids) == Listed(st.files, userId, folderId, includeDeleted)
    ensures TopOf(ids, Listed(st.files, userId, folderId, includeDeleted), ByCreated(st.files), |ids|)
    ensures forall i :: 0 <= i < |ids| ==> ids[i] in st.files && st.files[ids[i]].userId == userId
    ensures storageUsed == st.users[userId].storageUsed
    ensures storageQuota == ReportedQuota(st.users[userId].storageQuota)
  {
    var S := Listed(st.files, userId, folderId, includeDeleted);
    ids := SelectTop(S, ByCreated(st.files), |S|);
    assert forall i :: 0 <= i < |ids| ==> ids[i] in Elems(ids);
    storageUsed := st.users[userId].storageUsed;
    storageQuota := ReportedQuota(st.users[userId].storageQuota);
  }

  /** The caller's trashed files, and trashed folders. */
  function TrashOf(G: map<Id, File>, userId: Id): set<Id> {
    set k | k in G && G[k].userId == userId && G[k].isDeleted
  }

  function FolderTrashOf(F: map<Id, Folder>, userId: Id): set<Id> {
    set k | k in F && F[k].userId == userId && F[k].isDeleted
  }

  /** `ORDER BY deletedAt DESC` puts a null stamp last. */
  function ByFileDeleted(G: map<Id, File>): Id -> int {
    k => if k in G && G[k].deletedAt.Some? then G[k].deletedAt.value else -1
  }

  function ByFolderDeleted(F: map<Id, Folder>): Id -> int {
    k => if k in F && F[k].deletedAt.Some? then F[k].deletedAt.value else -1
  }

  /** getTrash: every trashed file and every trashed folder of the caller,
      most recently trashed first. */
  method GetTrash(st: Store, userId: Id) returns (files: seq<Id>, folders: seq<Id>)
    ensures Elems(files) == TrashOf(st.files, userId)
    ensures TopOf(files, TrashOf(st.files, userId), ByFileDeleted(st.files), |files|)
    ensures Elems(folders) == FolderTrashOf(st.folders, userId)
    ensures TopOf(folders, FolderTrashOf(st.folders, userId), ByFolderDeleted(st.folders), |folders|)
  {
    var A := TrashOf(st.files, userId);
    files := SelectTop(A, ByFileDeleted(st.files), |A|);
    var B := FolderTrashOf(st.folders, userId);
    folders := SelectTop(B, ByFolderDeleted(st.folders), |B|);
  }

  /** downloadFile: a live file of the caller whose blob is on disk is sent
      under its user-visible name; anything else is not found. */
  function DownloadFile(G: map<Id, File>, blobs: set<string>, userId: Id, id: Id): (r: Option<(string, string)>)
    ensures r.Some? <==> LiveFile(G, id, userId) && G[id].path in blobs
    ensures r.Some? ==> r.value == (G[id].path, G[id].originalName) && r.value.0 in blobs
  {
    if LiveFile(G, id, userId) && G[id].path in blobs then Some((G[id].path, G[id].originalName)) else None
  }

  // ---------------------------------------------------------------- single-row edits

  /** renameFile: only the user-visible `originalName` changes; the stored
      name and the blob path stay. */
  method RenameFile(st: Store, userId: Id, id: Id, newName: string) returns (status: Status)
    requires st.Valid()
    modifies st
    ensures st.Valid()
    ensures status in {Ok, BadRequest, NotFound}
    ensures status == BadRequest <==> newName == ""
    ensures status == NotFound <==> newName != "" && !LiveFile(old(st.files), id, userId)
    ensures status != Ok ==> st.Snapshot() == old(st.Snapshot())
    ensures status == Ok ==>
      st.Snapshot() == old(st.Snapshot()).(files := old(st.files)[id := old(st.files)[id].(originalName := newName)])
  {
    if newName == "" {
      return BadRequest;
    }
    if !LiveFile(st.files, id, userId) {
      return NotFound;
    }
    ghost var T := st.Snapshot();
    var f := st.files[id].(originalName := newName);
    RefileKeeps(T, T.files[id := f]);
    st.files := st.files[id := f];
    assert st.Snapshot() == T.(files := T.files[id := f]);
    status := Ok;
  }

  /** moveFile: a live file of the caller goes to a live folder of the
      caller, or to the root when no folder is named. */
  method MoveFile(st: Store, userId: Id, id: Id, folderId: Option<Id>) returns (status: Status)
    requires st.Valid()
    modifies st
    ensures st.Valid()
    ensures status in {Ok, NotFound}
    ensures status == NotFound <==>
      !LiveFile(old(st.files), id, userId) || (folderId.Some? && !Folders.LiveOwned(old(st.folders), folderId.value, userId))
    ensures status != Ok ==> st.Snapshot() == old(st.Snapshot())
    ensures status == Ok ==>
      st.Snapshot() == old(st.Snapshot()).(files := old(st.files)[id := old(st.files)[id].(folderId := folderId)])
  {
    if !LiveFile(st.files, id, userId) {
      return NotFound;
    }
    if folderId.Some? && !Folders.LiveOwned(st.folders, folderId.value, userId) {
      return NotFound;
    }
    ghost var T := st.Snapshot();
    var f := st.files[id].(folderId := folderId);
    RefileKeeps(T, T.files[id := f]);
    st.files := st.files[id := f];
    assert st.Snapshot() == T.(files := T.files[id := f]);
    status := Ok;
  }

  /** The row deleteFile saves: trashed, stamped `now`. */
  function TrashFile(f: File, now: Time): (g: File)
    ensures g.isDeleted && g.deletedAt == Some(now)
    ensures FileStamped(g)
  {
    f.(isDeleted := true, deletedAt := Some(now))
  }

  /** The row restoreFile saves: live, stamp cleared. */
  function ReviveFile(f: File): (g: File)
    ensures !g.isDeleted && g.deletedAt == None
    ensures FileStamped(g)
  {
    f.(isDeleted := false, deletedAt := None)
  }

  /** Restoring a file undoes its deletion: a live row with no stamp comes
      back exactly, and only the two trash columns ever differ. */
  lemma RestoreUndoesDelete(f: File, now: Time)
    ensures !f.isDeleted && f.deletedAt.None? ==> ReviveFile(TrashFile(f, now)) == f
    ensures ReviveFile(TrashFile(f, now)) == ReviveFile(f)
    ensures TrashFile(ReviveFile(f), now) == TrashFile(f, now)
  {
  }

  /** deleteFile: only a live file of the caller is trashed, so deleting it
      twice is not found the second time. */
  method DeleteFile(st: Store, now: Time, userId: Id, id: Id) returns (status: Status)
    requires st.Valid()
    modifies st
    ensures st.Valid()
    ensures status in {Ok, NotFound}
    ensures status == NotFound <==> !LiveFile(old(st.files), id, userId)
    ensures status != Ok ==> st.Snapshot() == old(st.Snapshot())
    ensures status == Ok ==>
      && st.Snapshot() == old(st.Snapshot()).(files := old(st.files)[id := TrashFile(old(st.files)[id], now)])
      && TrashedFile(st.files, id, userId) && !LiveFile(st.files, id, userId)
  {
    if !LiveFile(st.files, id, userId) {
      return NotFound;
    }
    ghost var T := st.Snapshot();
    var f := TrashFile(st.files[id], now);
    RefileKeeps(T, T.files[id := f]);
    st.files := st.files[id := f];
    assert st.Snapshot() == T.(files := T.files[id := f]);
    status := Ok;
  }

  /** restoreFile: only a trashed file of the caller is revived, into the
      folder it was in, whatever that folder's state. */
  method RestoreFile(st: Store, userId: Id, id: Id) returns (status: Status)
    requires st.Valid()
    modifies st
    ensures st.Valid()
    ensures status in {Ok, NotFound}
    ensures status == NotFound <==> !TrashedFile(old(st.files), id, userId)
    ensures status != Ok ==> st.Snapshot() == old(st.Snapshot())
    ensures status == Ok ==>
      && st.Snapshot() == old(st.Snapshot()).(files := old(st.files)[id := ReviveFile(old(st.files)[id])])
      && LiveFile(st.files, id, userId)
  {
    if !TrashedFile(st.files, id, userId) {
      return NotFound;
    }
    ghost var T := st.Snapshot();
    var f := ReviveFile(st.files[id]);
    RefileKeeps(T, T.files[id := f]);
    st.files := st.files[id := f];
    assert st.Snapshot() == T.(files := T.files[id := f]);
    status := Ok;
  }

  // ---------------------------------------------------------------- removal

  /** `Math.max(0, used - amount)`: the usage after a refund, never below zero. */
  function Deduct(used: nat, amount: nat): (r: nat)
    ensures r <= used
    ensures amount <= used ==> r + amount == used
    ensures amount > used ==> r == 0
  {
    if amount <= used then used - amount else 0
  }

  /** permanentDeleteFile: any file of the caller, trashed or not, loses its
      blob (a missing blob is ignored) and its row, and its whole size is
      refunded, floored at zero. */
  method PermanentDeleteFile(st: Store, userId: Id, id: Id) returns (status: Status)
    requires st.Valid() && userId in st.users
    modifies st
    ensures st.Valid()
    ensures status in {Ok, NotFound}
    ensures status == NotFound <==> !OwnedFile(old(st.files), id, userId)
    ensures status != Ok ==> st.Snapshot() == old(st.Snapshot())
    ensures status == Ok ==>
      st.Snapshot() == old(st.Snapshot()).(
        files := old(st.files) - {id},
        blobs := old(st.blobs) - {old(st.files)[id].path},
        users := old(st.users)[userId := old(st.users)[userId].(
          storageUsed := Deduct(old(st.users)[userId].storageUsed, old(st.files)[id].size))])
  {
    if !OwnedFile(st.files, id, userId) {
      return NotFound;
    }
    var f := st.files[id];
    ghost var T := st.Snapshot();
    st.blobs := st.blobs - {f.path};
    var u := st.users[userId].(storageUsed := Deduct(st.users[userId].storageUsed, f.size));
    UserEditKeeps(T, userId, u);
    st.users := st.users[userId := u];
    ghost var T1 := T.(users := T.users[userId := u]);
    RefileKeeps(T1, T1.files - {id});
    st.files := st.files - {id};
    assert st.Snapshot() == T1.(files := T1.files - {id}, blobs := T.blobs - {f.path});
    status := Ok;
  }

  /** The blob paths of the files `s`. */
  function Paths(G: map<Id, File>, s: seq<Id>): set<string>
    requires Elems(s) <= G.Keys
  {
    set i | 0 <= i < |s| :: G[s[i]].path
  }

  /** The bytes emptyTrash frees when it destroys the files `s` in that
      order, starting from the blobs `B`: a file counts only if its path is
      still on disk when its turn comes. */
  function Freed(G: map<Id, File>, s: seq<Id>, B: set<string>): nat
    requires Elems(s) <= G.Keys
  {
    if s == [] then 0
    else
      var front := s[..|s| - 1];
      var k := s[|s| - 1];
      assert Elems(front) <= Elems(s);
      Freed(G, front, B) + (if G[k].path in B - Paths(G, front) then G[k].size else 0)
  }

  /** The sizes of the files `s`, all counted. */
  function TotalSize(G: map<Id, File>, s: seq<Id>): nat
    requires Elems(s) <= G.Keys
  {
    if s == [] then 0
    else
      assert Elems(s[..|s| - 1]) <= Elems(s);
      TotalSize(G, s[..|s| - 1]) + G[s[|s| - 1]].size
  }

  /** emptyTrash never frees more than the trashed files hold ... */
  lemma {:induction false} FreedAtMost(G: map<Id, File>, s: seq<Id>, B: set<string>)
    requires Elems(s) <= G.Keys
    ensures Freed(G, s, B) <= TotalSize(G, s)
    decreases |s|
  {
    if s != [] {
      assert Elems(s[..|s| - 1]) <= Elems(s);
      FreedAtMost(G, s[..|s| - 1], B);
    }
  }

  /** ... and frees all of it when every blob is on disk and no two files share one. */
  lemma {:induction false} FreedAll(G: map<Id, File>, s: seq<Id>, B: set<string>)
    requires Elems(s) <= G.Keys
    requires forall i :: 0 <= i < |s| ==> G[s[i]].path in B
    requires forall i, j :: 0 <= i < j < |s| ==> G[s[i]].path != G[s[j]].path
    ensures Freed(G, s, B) == TotalSize(G, s)
    decreases |s|
  {
    if s != [] {
      var front := s[..|s| - 1];
      assert Elems(front) <= Elems(s);
      assert forall i :: 0 <= i < |front| ==> front[i] == s[i];
      FreedAll(G, front, B);
      assert G[s[|s| - 1]].path !in Paths(G, front);
    }
  }

  lemma FreedStep(G: map<Id, File>, s: seq<Id>, k: Id, B: set<string>)
    requires Elems(s) <= G.Keys && k in G
    ensures Elems(s + [k]) == Elems(s) + {k}
    ensures Paths(G, s + [k]) == Paths(G, s) + {G[k].path}
    ensures Freed(G, s + [k], B) == Freed(G, s, B) + (if G[k].path in B - Paths(G, s) then G[k].size else 0)
    ensures G - Elems(s + [k]) == (G - Elems(s)) - {k}
    ensures B - Paths(G, s + [k]) == (B - Paths(G, s)) - {G[k].path}
  {
    var s' := s + [k];
    assert s'[..|s'| - 1] == s;
    assert forall i :: 0 <= i < |s| ==> s'[i] == s[i];
    assert Elems(s') == Elems(s) + {k};
    assert Paths(G, s') == Paths(G, s) + {G[k].path};
  }

  /** emptyTrash: every trashed file of the caller, in the order the query
      returns them, loses its blob if present and its row regardless; only
      the sizes whose unlink succeeded are refunded, floored at zero. Live
      files and other users' files are untouched. */
  method EmptyTrash(st: Store, userId: Id) returns (filesDeleted: nat, spaceFreed: nat, ghost order: seq<Id>)
    requires st.Valid() && userId in st.users
    modifies st
    ensures st.Valid()
    ensures filesDeleted == |TrashOf(old(st.files), userId)| == |order|
    ensures Distinct(order) && Elems(order) == TrashOf(old(st.files), userId)
    ensures spaceFreed == Freed(old(st.files), order, old(st.blobs))
    ensures st.Snapshot() == old(st.Snapshot()).(
      files := old(st.files) - TrashOf(old(st.files), userId),
      blobs := old(st.blobs) - Paths(old(st.files), order),
      users := old(st.users)[userId := old(st.users)[userId].(
        storageUsed := Deduct(old(st.users)[userId].storageUsed, spaceFreed))])
  {
    ghost var T0 := st.Snapshot();
    filesDeleted, spaceFreed, order := DestroyTrash(st, userId);
    RefileKeeps(T0, st.files);
    BlobsFree(T0.(files := st.files), st.blobs);
    SetUsage(st, userId, Deduct(st.users[userId].storageUsed, spaceFreed));
  }

  /** The loop of emptyTrash: unlink each trashed file of the caller,
      counting the bytes of the unlinks that succeed, and destroy its row. */
  method DestroyTrash(st: Store, userId: Id) returns (filesDeleted: nat, spaceFreed: nat, ghost order: seq<Id>)
    modifies st
    ensures filesDeleted == |TrashOf(old(st.files), userId)| == |order|
    ensures Distinct(order) && Elems(order) == TrashOf(old(st.files), userId)
    ensures spaceFreed == Freed(old(st.files), order, old(st.blobs))
    ensures st.Snapshot() == old(st.Snapshot()).(
      files := old(st.files) - Elems(order),
      blobs := old(st.blobs) - Paths(old(st.files), order))
  {
    ghost var T0 := st.Snapshot();
    ghost var G0 := st.files;
    var rest := TrashOf(st.files, userId);
    filesDeleted := |rest|;
    spaceFreed := 0;
    order := [];
    while rest != {}
      invariant rest !! Elems(order) && rest + Elems(order) == TrashOf(G0, userId)
      invariant Distinct(order) && |order| + |rest| == filesDeleted
      invariant Elems(order) <= G0.Keys
      invariant spaceFreed == Freed(G0, order, T0.blobs)
      invariant st.Snapshot() == T0.(files := G0 - Elems(order), blobs := T0.blobs - Paths(G0, order))
      decreases |rest|
    {
      var k :| k in rest;
      TrashTurn(G0, userId, order, rest, k);
      var freed := DestroyTurn(st, k, T0, G0, order);
      spaceFreed := spaceFreed + freed;
      order := order + [k];
      rest := rest - {k};
    }
  }

  /** A turn of the loop seen from the whole walk: destroying `k` after the
      files `order` leaves the store as destroying `order + [k]` does. */
  method DestroyTurn(st: Store, k: Id, ghost T0: Tables, ghost G0: map<Id, File>, ghost order: seq<Id>)
    returns (freed: nat)
    requires k in G0 && k !in Elems(order) && Elems(order) <= G0.Keys
    requires st.Snapshot() == T0.(files := G0 - Elems(order), blobs := T0.blobs - Paths(G0, order))
    modifies st
    ensures Freed(G0, order + [k], T0.blobs) == Freed(G0, order, T0.blobs) + freed
    ensures st.Snapshot() == T0.(files := G0 - Elems(order + [k]), blobs := T0.blobs - Paths(G0, order + [k]))
  {
    FreedStep(G0, order, k, T0.blobs);
    freed := DestroyFile(st, k);
  }

  /** One turn of the loop: `fs.unlink`, counting the size only when the
      blob was there, then `file.destroy()`. */
  method DestroyFile(st: Store, k: Id) returns (freed: nat)
    requires k in st.files
    modifies st
    ensures freed == if old(st.files)[k].path in old(st.blobs) then old(st.files)[k].size else 0
    ensures st.Snapshot() == old(st.Snapshot()).(files := old(st.files) - {k}, blobs := old(st.blobs) - {old(st.files)[k].path})
  {
    var f := st.files[k];
    freed := 0;
    if f.path in st.blobs {
      st.blobs := st.blobs - {f.path};
      freed := f.size;
    }
    st.files := st.files - {k};
  }

  /** One turn of the emptyTrash loop, on the ghost bookkeeping: the file
      taken is a trashed row not yet destroyed, and it moves from the files
      still to do to the files done. */
  lemma TrashTurn(G: map<Id, File>, userId: Id, order: seq<Id>, rest: set<Id>, k: Id)
    requires rest !! Elems(order) && rest + Elems(order) == TrashOf(G, userId) && Distinct(order) && k in rest
    ensures k in G && k !in Elems(order) && Elems(order + [k]) <= G.Keys
    ensures Distinct(order + [k]) && |rest - {k}| == |rest| - 1
    ensures (rest - {k}) !! Elems(order + [k]) && (rest - {k}) + Elems(order + [k]) == TrashOf(G, userId)
  {
    var o := order + [k];
    assert forall i :: 0 <= i < |order| ==> o[i] == order[i];
    assert Elems(o) == Elems(order) + {k};
  }

  // ---------------------------------------------------------------- preview

  datatype Kind = Image | Video | Audio | Pdf | Text

  /** The MIME types both preview endpoints read as text. */
  predicate TextLike(mime: string) {
    StartsWith(mime, "text/") || mime == "application/json" || mime == "application/javascript" || mime == "application/xml"
  }

  /** The first-match chain of getPreviewInfo. */
  function PreviewCategory(mime: string): Option<Kind> {
    if StartsWith(mime, "image/") then Some(Image)
    else if StartsWith(mime, "video/") then Some(Video)
    else if StartsWith(mime, "audio/") then Some(Audio)
    else if mime == "application/pdf" then Some(Pdf)
    else if TextLike(mime) then Some(Text)
    else None
  }

  /** Two prefixes that differ at some position cannot both start `s`. */
  lemma PrefixClash(s: string, p: string, q: string, i: nat)
    requires i < |p| && i < |q| && p[i] != q[i]
    ensures !(StartsWith(s, p) && StartsWith(s, q))
  {
    if |p| <= |s| && |q| <= |s| {
      assert s[..|p|][i] == s[i];
      assert s[..|q|][i] == s[i];
    }
  }

  /** The tests of the chain never overlap, so its order does not matter:
      each kind is given by its own test alone, and no kind means no test passed. */
  lemma PreviewCategoryExact(mime: string)
    ensures PreviewCategory(mime) == Some(Image) <==> StartsWith(mime, "image/")
    ensures PreviewCategory(mime) == Some(Video) <==> StartsWith(mime, "video/")
    ensures PreviewCategory(mime) == Some(Audio) <==> StartsWith(mime, "audio/")
    ensures PreviewCategory(mime) == Some(Pdf) <==> mime == "application/pdf"
    ensures PreviewCategory(mime) == Some(Text) <==> TextLike(mime)
    ensures PreviewCategory(mime) == None <==>
      !StartsWith(mime, "image/") && !StartsWith(mime, "video/") && !StartsWith(mime, "audio/")
      && mime != "application/pdf" && !TextLike(mime)
  {
    PrefixClash(mime, "image/", "video/", 0);
    PrefixClash(mime, "image/", "audio/", 0);
    PrefixClash(mime, "video/", "audio/", 0);
    PrefixClash(mime, "image/", "text/", 0);
    PrefixClash(mime, "video/", "text/", 0);
    PrefixClash(mime, "audio/", "text/", 0);
    PrefixClash(mime, "application/pdf", "audio/", 1);
    PrefixClash(mime, "application/pdf", "image/", 0);
    PrefixClash(mime, "application/pdf", "video/", 0);
    PrefixClash(mime, "application/pdf", "text/", 0);
    PrefixClash(mime, "application/json", "image/", 0);
    PrefixClash(mime, "application/json", "video/", 0);
    PrefixClash(mime, "application/json", "audio/", 1);
    PrefixClash(mime, "application/javascript", "image/", 0);
    PrefixClash(mime, "application/javascript", "video/", 0);
    PrefixClash(mime, "application/javascript", "audio/", 1);
    PrefixClash(mime, "application/xml", "image/", 0);
    PrefixClash(mime, "application/xml", "video/", 0);
    PrefixClash(mime, "application/xml", "audio/", 1);
  }

  datatype PreviewInfo = PreviewInfo(canPreview: bool, previewType: Option<Kind>, mimeType: string, fileName: string, size: nat)

  /** getPreviewInfo: any file of the caller, trashed or not; the shown name
      is `originalName || name`. */
  function GetPreviewInfo(G: map<Id, File>, userId: Id, id: Id): (r: Option<PreviewInfo>)
    ensures r.None? <==> !OwnedFile(G, id, userId)
    ensures r.Some? ==>
      && (r.value.canPreview <==> r.value.previewType.Some?)
      && r.value.previewType == PreviewCategory(G[id].mimeType)
      && r.value.fileName == (if G[id].originalName != "" then G[id].originalName else G[id].name)
      && r.value.size == G[id].size
      && r.value.mimeType == G[id].mimeType
  {
    if !OwnedFile(G, id, userId) then None
    else
      var f := G[id];
      var kind := PreviewCategory(f.mimeType);
      Some(PreviewInfo(kind.Some?, kind, f.mimeType, if f.originalName != "" then f.originalName else f.name, f.size))
  }

  /** previewFile: any file of the caller whose blob is on disk; the answer
      says whether it is sent as text or streamed. */
  function PreviewFile(G: map<Id, File>, blobs: set<string>, userId: Id, id: Id): (r: Option<bool>)
    ensures r.Some? <==> OwnedFile(G, id, userId) && G[id].path in blobs
    ensures r.Some? ==> (r.value <==> PreviewCategory(G[id].mimeType) == Some(Text))
  {
    if OwnedFile(G, id, userId) && G[id].path in blobs then
      PreviewCategoryExact(G[id].mimeType);
      Some(TextLike(G[id].mimeType))
    else None
  }
}
