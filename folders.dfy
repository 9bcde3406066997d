/** The folder controller (backend/src/controllers/folderController.js):
    create, rename, move with the ancestor-walk cycle check, and the recursive
    soft-delete and restore cascades. Every method keeps the store invariant. */
module Folders {
  import opened Common
  import opened Rows
  import opened Tree
  import opened Db
  import opened Sweep
  import opened Archive

  /** `Folder.findOne({ id, userId, isDeleted: false })` finds a row. */
  predicate LiveOwned(F: map<Id, Folder>, id: Id, userId: Id) {
    id in F && F[id].userId == userId && !F[id].isDeleted
  }

  /** `Folder.findOne({ id, userId, isDeleted: true })` finds a row. */
  predicate TrashedOwned(F: map<Id, Folder>, id: Id, userId: Id) {
    id in F && F[id].userId == userId && F[id].isDeleted
  }

  /** A live folder of `userId` other than `except` is called `name` and sits under `parent`. */
  predicate NameTaken(F: map<Id, Folder>, name: string, parent: Option<Id>, userId: Id, except: Option<Id>) {
    exists k :: k in F && Some(k) != except && F[k].name == name && F[k].parentId == parent
                && F[k].userId == userId && !F[k].isDeleted
  }

  /** createFolder: an empty name is refused, a parent that is not a live folder
      of the caller is not found, a live sibling with the same name is a
      conflict; otherwise exactly one folder is added. */
  method CreateFolder(st: Store, now: Time, userId: Id, name: string, parentId: Option<Id>)
    returns (status: Status, id: Id)
    requires st.Valid() && userId in st.users
    modifies st
    ensures st.Valid()
    ensures status in {Ok, BadRequest, NotFound, Conflict}
    ensures status == BadRequest <==> name == ""
    ensures status == NotFound <==>
      name != "" && parentId.Some? && !LiveOwned(old(st.folders), parentId.value, userId)
    ensures status == Conflict <==>
      && name != "" && (parentId.Some? ==> LiveOwned(old(st.folders), parentId.value, userId))
      && NameTaken(old(st.folders), name, parentId, userId, None)
    ensures status != Ok ==> st.Snapshot() == old(st.Snapshot())
    ensures status == Ok ==>
      && id !in old(st.folders)
      && st.Snapshot() == old(st.Snapshot()).(
           folders := old(st.folders)[id := Folder(name, parentId, userId, false, None, false, now, now)],
           nextId := old(st.nextId) + 1)
  {
    id := 0;
    if name == "" {
      return BadRequest, id;
    }
    if parentId.Some? && !LiveOwned(st.folders, parentId.value, userId) {
      return NotFound, id;
    }
    if NameTaken(st.folders, name, parentId, userId, None) {
      return Conflict, id;
    }
    id := st.nextId;
    var f := Folder(name, parentId, userId, false, None, false, now, now);
    ghost var T := st.Snapshot();
    AddFolderKeeps(T, f);
    st.folders, st.nextId := st.folders[id := f], st.nextId + 1;
    assert st.Snapshot() == T.(folders := T.folders[id := f], nextId := T.nextId + 1);
    status := Ok;
  }

  /** renameFolder: the collision check ignores the folder itself; only the name changes. */
  method RenameFolder(st: Store, userId: Id, id: Id, newName: string) returns (status: Status)
    requires st.Valid()
    modifies st
    ensures st.Valid()
    ensures status in {Ok, BadRequest, NotFound, Conflict}
    ensures status == BadRequest <==> newName == ""
    ensures status == NotFound <==> newName != "" && !LiveOwned(old(st.folders), id, userId)
    ensures status == Conflict <==>
      && newName != "" && LiveOwned(old(st.folders), id, userId)
      && NameTaken(old(st.folders), newName, old(st.folders)[id].parentId, userId, Some(id))
    ensures status != Ok ==> st.Snapshot() == old(st.Snapshot())
    ensures status == Ok ==>
      st.Snapshot() == old(st.Snapshot()).(folders := old(st.folders)[id := old(st.folders)[id].(name := newName)])
  {
    if newName == "" {
      return BadRequest;
    }
    if !LiveOwned(st.folders, id, userId) {
      return NotFound;
    }
    if NameTaken(st.folders, newName, st.folders[id].parentId, userId, Some(id)) {
      return Conflict;
    }
    ghost var T := st.Snapshot();
    var f := st.folders[id].(name := newName);
    EditFolderKeeps(T, id, f);
    st.folders := st.folders[id := f];
    assert st.Snapshot() == T.(folders := T.folders[id := f]);
    status := Ok;
  }

  /** The ancestor walk of moveFolder: starting at the requested parent, follow
      `parentId` links until a root or a missing row; report whether `id` was met. */
  method MeetsOnWalk(st: Store, start: Id, id: Id) returns (met: bool)
    requires Acyclic(ParentsOf(st.folders)) && start in st.folders && id in st.folders
    ensures met <==> Under(ParentsOf(st.folders), start, id, |st.folders|)
  {
    ghost var P := ParentsOf(st.folders);
    ghost var n: nat := |P|;
    var cur := start;
    while true
      invariant cur in st.folders
      invariant Reaches(P, cur, n)
      invariant Under(P, start, cur, |P| - n)
      invariant Under(P, start, id, |P|) ==> Under(P, cur, id, n)
      decreases n
    {
      if cur == id {
        UnderMono(P, start, cur, |P| - n, |P|);
        return true;
      }
      var up := st.folders[cur].parentId;
      if up.None? || up.value !in st.folders {
        return false;
      }
      assert Under(P, cur, up.value, 1);
      UnderTrans(P, start, cur, up.value, |P| - n, 1);
      cur := up.value;
      n := n - 1;
    }
  }

  /** moveFolder: the folder must be live and owned; a requested parent must be
      a live folder of the caller that is neither the folder nor below it.
      Only the folder's `parentId` changes, with no name-collision check. */
  method MoveFolder(st: Store, userId: Id, id: Id, newParentId: Option<Id>) returns (status: Status)
    requires st.Valid()
    modifies st
    ensures st.Valid()
    ensures status in {Ok, NotFound, BadRequest}
    ensures status == NotFound <==>
      !LiveOwned(old(st.folders), id, userId)
      || (newParentId.Some? && !LiveOwned(old(st.folders), newParentId.value, userId))
    ensures status == BadRequest <==>
      && LiveOwned(old(st.folders), id, userId)
      && newParentId.Some? && LiveOwned(old(st.folders), newParentId.value, userId)
      && Under(ParentsOf(old(st.folders)), newParentId.value, id, |old(st.folders)|)
    ensures status != Ok ==> st.Snapshot() == old(st.Snapshot())
    ensures status == Ok ==>
      st.Snapshot() == old(st.Snapshot()).(folders := old(st.folders)[id := old(st.folders)[id].(parentId := newParentId)])
  {
    if !LiveOwned(st.folders, id, userId) {
      return NotFound;
    }
    if newParentId.Some? {
      var p := newParentId.value;
      if !LiveOwned(st.folders, p, userId) {
        return NotFound;
      }
      if p == id {
        return BadRequest;
      }
      var met := MeetsOnWalk(st, p, id);
      if met {
        return BadRequest;
      }
    }
    ghost var T := st.Snapshot();
    var f := st.folders[id].(parentId := newParentId);
    MoveFolderKeeps(T, id, newParentId);
    st.folders := st.folders[id := f];
    assert st.Snapshot() == T.(folders := T.folders[id := f]);
    status := Ok;
  }

  // ---------------------------------------------------------------- cascades

  /** A cascade keeps the store invariant: it changes only flags and stamps. */
  lemma FlipKeeps(T: Tables, F': map<Id, Folder>, G': map<Id, File>,
                  A: set<Id>, B: set<Id>, del: bool, lo: Time, hi: Time)
    requires Consistent(T) && FlippedSets(T.folders, F', T.files, G', A, B, del, lo, hi)
    ensures Consistent(T.(folders := F', files := G'))
  {
    FlipKeepsShape(T.folders, F', T.files, G', A, B, del, lo, hi);
    ReflagFoldersKeeps(T, F');
    RefileKeeps(T.(folders := F'), G');
  }

  /** The recursive helper of deleteFolder: trash the live files of `r`, then
      for each live child, recurse and trash the child. */
  method TrashBelow(st: Store, clock: Clock, r: Id, ghost P: Parents)
    requires Acyclic(P) && P == ParentsOf(st.folders) && r in st.folders
    modifies st, clock
    ensures old(clock.time) <= clock.time
    ensures FlippedSets(old(st.folders), st.folders, old(st.files), st.files,
                        Below(old(st.folders), r, false), Below(old(st.folders), r, false) + {r},
                        false, old(clock.time), clock.time)
    ensures st.Snapshot() == old(st.Snapshot()).(folders := st.folders, files := st.files)
    decreases Desc(P, r), 0
  {
    ghost var F0, G0, lo := st.folders, st.files, clock.time;
    var now := clock.Now();
    TrashFilesFlips(F0, G0, r, now);
    st.files := TrashFiles(st.files, r, now);
    var subs := Kids(st.folders, r, false);
    ghost var kids := subs;
    ghost var Z: set<Id> := {};
    while subs != {}
      invariant lo <= clock.time
      invariant st.Snapshot() == old(st.Snapshot()).(folders := st.folders, files := st.files)
      invariant FlippedSets(F0, st.folders, G0, st.files, Z, Z + {r}, false, lo, clock.time)
      invariant Progress(F0, r, kids, subs, Z, false)
      decreases subs
    {
      var s :| s in subs;
      ghost var F1, G1, mid := st.folders, st.files, clock.time;
      ChildEnter(F0, F1, G0, G1, r, s, kids, subs, Z, Z, Z + {r}, false, lo, mid);
      TrashSubfolder(st, clock, s, P);
      ChildTurn(F0, F1, st.folders, G0, G1, st.files, r, s, kids, subs, Z, false, lo, mid, clock.time);
      Z := Z + (Below(F0, s, false) + {s});
      subs := subs - {s};
    }
    ProgressDone(F0, r, kids, Z, false);
  }

  /** One turn of the loop in the delete helper: the cascade below `s`, then
      `s` itself trashed with a fresh reading of the clock. */
  method TrashSubfolder(st: Store, clock: Clock, s: Id, ghost P: Parents)
    requires Acyclic(P) && P == ParentsOf(st.folders) && s in st.folders
    modifies st, clock
    ensures old(clock.time) <= clock.time
    ensures FlippedSets(old(st.folders), st.folders, old(st.files), st.files,
                        Below(old(st.folders), s, false) + {s}, Below(old(st.folders), s, false) + {s},
                        false, old(clock.time), clock.time)
    ensures st.Snapshot() == old(st.Snapshot()).(folders := st.folders, files := st.files)
    decreases Desc(P, s), 1
  {
    ghost var F0, G0, lo := st.folders, st.files, clock.time;
    TrashBelow(st, clock, s, P);
    ghost var F1, G1, hi := st.folders, st.files, clock.time;
    var t := clock.Now();
    TrashAfter(F0, F1, G0, G1, s, lo, hi, t);
    st.folders := st.folders[s := st.folders[s].(isDeleted := true, deletedAt := Some(t))];
  }

  /** deleteFolder: a live folder of the caller is trashed together with
      everything the delete cascade reaches from it; otherwise not found. */
  method DeleteFolder(st: Store, clock: Clock, userId: Id, id: Id) returns (status: Status)
    requires st.Valid()
    modifies st, clock
    ensures st.Valid()
    ensures status in {Ok, NotFound}
    ensures status == NotFound <==> !LiveOwned(old(st.folders), id, userId)
    ensures status == NotFound ==> st.Snapshot() == old(st.Snapshot())
    ensures status == Ok ==>
      && FlippedSets(old(st.folders), st.folders, old(st.files), st.files,
                     Subtree(old(st.folders), id, false), Subtree(old(st.folders), id, false),
                     false, old(clock.time), clock.time)
      && st.Snapshot() == old(st.Snapshot()).(folders := st.folders, files := st.files)
  {
    if !LiveOwned(st.folders, id, userId) {
      return NotFound;
    }
    ghost var T := st.Snapshot();
    TrashSubfolder(st, clock, id, ParentsOf(st.folders));
    SubtreeTop(T.folders, id, false);
    FlipKeeps(T, st.folders, st.files, Subtree(T.folders, id, false), Subtree(T.folders, id, false),
              false, old(clock.time), clock.time);
    status := Ok;
  }

  /** The recursive helper of restoreFolder: revive the trashed files of `r`,
      then for each trashed child, revive the child and recurse. */
  method ReviveBelow(st: Store, r: Id, ghost P: Parents)
    requires Acyclic(P) && P == ParentsOf(st.folders) && r in st.folders
    modifies st
    ensures FlippedSets(old(st.folders), st.folders, old(st.files), st.files,
                        Below(old(st.folders), r, true), Below(old(st.folders), r, true) + {r}, true, 0, 0)
    ensures st.Snapshot() == old(st.Snapshot()).(folders := st.folders, files := st.files)
    decreases Desc(P, r), 0
  {
    ghost var F0, G0 := st.folders, st.files;
    ReviveFilesFlips(F0, G0, r);
    st.files := ReviveFiles(st.files, r);
    var subs := Kids(st.folders, r, true);
    ghost var kids := subs;
    ghost var Z: set<Id> := {};
    while subs != {}
      invariant st.Snapshot() == old(st.Snapshot()).(folders := st.folders, files := st.files)
      invariant FlippedSets(F0, st.folders, G0, st.files, Z, Z + {r}, true, 0, 0)
      invariant Progress(F0, r, kids, subs, Z, true)
      decreases subs
    {
      var s :| s in subs;
      ghost var F1, G1 := st.folders, st.files;
      ChildEnter(F0, F1, G0, G1, r, s, kids, subs, Z, Z, Z + {r}, true, 0, 0);
      ReviveSubfolder(st, s, P);
      ChildTurn(F0, F1, st.folders, G0, G1, st.files, r, s, kids, subs, Z, true, 0, 0, 0);
      Z := Z + (Below(F0, s, true) + {s});
      subs := subs - {s};
    }
    ProgressDone(F0, r, kids, Z, true);
  }

  /** One turn of the loop in the restore helper: `s` revived first, then the
      cascade below it. */
  method ReviveSubfolder(st: Store, s: Id, ghost P: Parents)
    requires Acyclic(P) && P == ParentsOf(st.folders) && s in st.folders
    modifies st
    ensures FlippedSets(old(st.folders), st.folders, old(st.files), st.files,
                        Below(old(st.folders), s, true) + {s}, Below(old(st.folders), s, true) + {s}, true, 0, 0)
    ensures st.Snapshot() == old(st.Snapshot()).(folders := st.folders, files := st.files)
    decreases Desc(P, s), 1
  {
    ghost var F0, G0 := st.folders, st.files;
    ReviveFirst(F0, G0, s);
    MarkRevived(F0, G0, s);
    st.folders := st.folders[s := st.folders[s].(isDeleted := false, deletedAt := None)];
    ghost var F1 := st.folders;
    ReviveBelow(st, s, P);
    ReviveThen(F0, F1, st.folders, G0, st.files, s);
  }

  /** restoreFolder: a trashed folder of the caller is revived together with
      everything the restore cascade reaches from it; otherwise not found.
      The parent is not checked, so a folder may come back under a trashed one. */
  method RestoreFolder(st: Store, userId: Id, id: Id) returns (status: Status)
    requires st.Valid()
    modifies st
    ensures st.Valid()
    ensures status in {Ok, NotFound}
    ensures status == NotFound <==> !TrashedOwned(old(st.folders), id, userId)
    ensures status == NotFound ==> st.Snapshot() == old(st.Snapshot())
    ensures status == Ok ==>
      && FlippedSets(old(st.folders), st.folders, old(st.files), st.files,
                     Subtree(old(st.folders), id, true), Subtree(old(st.folders), id, true), true, 0, 0)
      && st.Snapshot() == old(st.Snapshot()).(folders := st.folders, files := st.files)
  {
    if !TrashedOwned(st.folders, id, userId) {
      return NotFound;
    }
    ghost var T := st.Snapshot();
    ReviveSubfolder(st, id, ParentsOf(st.folders));
    SubtreeTop(T.folders, id, true);
    FlipKeeps(T, st.folders, st.files, Subtree(T.folders, id, true), Subtree(T.folders, id, true), true, 0, 0);
    status := Ok;
  }

  /** downloadFolderAsZip: a live folder of the caller becomes `<name>.zip`
      holding one entry per live file of its live subtree, each named by the
      folder's own name, the subfolder path and the file's `originalName`. */
  method DownloadFolderAsZip(st: Store, userId: Id, id: Id)
    returns (status: Status, zipName: string, entries: seq<Entry>, ghost ids: seq<Id>)
    requires st.Valid()
    ensures status in {Ok, NotFound}
    ensures status == NotFound <==> !LiveOwned(st.folders, id, userId)
    ensures status == NotFound ==> entries == []
    ensures status == Ok ==>
      && zipName == st.folders[id].name + ".zip"
      && Lists(st.folders, st.files, id, st.folders[id].name, OwnerZip, entries, ids)
      && (set k | k in ids) == ArchiveIds(st.files, st.blobs, Subtree(st.folders, id, false), OwnerZip)
  {
    zipName, entries, ids := "", [], [];
    if !LiveOwned(st.folders, id, userId) {
      return NotFound, zipName, entries, ids;
    }
    zipName := st.folders[id].name + ".zip";
    entries, ids := AddFolderToArchive(st, id, st.folders[id].name, OwnerZip, ParentsOf(st.folders));
    status := Ok;
  }
}
