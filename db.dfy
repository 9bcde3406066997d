/** The database the controllers share: one `Store` object holding the four
    tables, the set of blob paths present on disk, and the id counter standing
    for UUID generation. `Valid` is the invariant every controller keeps. */
module Db {
  import opened Common
  import opened Rows
  import opened Tree

  /** A snapshot of every table, used to say what a request changed. */
  datatype Tables = Tables(
    users: map<Id, User>,
    folders: map<Id, Folder>,
    files: map<Id, File>,
    shares: map<Id, Share>,
    blobs: set<string>,
    nextId: nat)

  /** `new Date()`: every reading is at least the previous one. */
  class Clock {
    var time: Time

    constructor (start: Time)
      ensures time == start
    {
      time := start;
    }

    /** The model's clock ticks once per reading; callers rely only on
        readings never going backwards. */
    method Now() returns (t: Time)
      modifies this
      ensures old(time) <= t && time == t
    {
      time := time + 1;
      t := time;
    }
  }

  /** `p`, when set, names a folder of `owner`: where a folder or file of `owner` may sit. */
  predicate PlacedIn(F: map<Id, Folder>, owner: Id, p: Option<Id>) {
    p.Some? ==> p.value in F && F[p.value].userId == owner
  }

  /** Every folder belongs to a known user and hangs under a folder of the same user. */
  predicate FoldersPlaced(U: map<Id, User>, F: map<Id, Folder>) {
    forall k {:trigger F[k].parentId} :: k in F ==> F[k].userId in U && PlacedIn(F, F[k].userId, F[k].parentId)
  }

  /** Every file belongs to a known user and sits at the root or in a folder of the same user. */
  predicate FilesPlaced(U: map<Id, User>, F: map<Id, Folder>, G: map<Id, File>) {
    forall k {:trigger G[k].folderId} :: k in G ==> G[k].userId in U && PlacedIn(F, G[k].userId, G[k].folderId)
  }

  /** A share targets exactly one of a file and a folder, and tokens are unique. */
  predicate SharesWellFormed(U: map<Id, User>, S: map<Id, Share>) {
    && (forall k {:trigger S[k].userId} :: k in S ==> S[k].userId in U && (S[k].fileId.Some? != S[k].folderId.Some?))
    && (forall a, b {:trigger S[a].shareToken, S[b].shareToken} :: a in S && b in S && a != b ==> S[a].shareToken != S[b].shareToken)
  }

  /** The unique columns of the user table: email, googleId, githubId. */
  predicate AccountsDistinct(U: map<Id, User>) {
    && (forall a, b {:trigger U[a].email, U[b].email} :: a in U && b in U && a != b ==> U[a].email != U[b].email)
    && (forall a, b {:trigger U[a].googleId, U[b].googleId} ::
          a in U && b in U && a != b && U[a].googleId.Some? ==> U[a].googleId != U[b].googleId)
    && (forall a, b {:trigger U[a].githubId, U[b].githubId} ::
          a in U && b in U && a != b && U[a].githubId.Some? ==> U[a].githubId != U[b].githubId)
  }

  predicate IdsBelow(T: Tables) {
    && (forall k :: k in T.users ==> k < T.nextId)
    && (forall k :: k in T.folders ==> k < T.nextId)
    && (forall k :: k in T.files ==> k < T.nextId)
    && (forall k :: k in T.shares ==> k < T.nextId)
  }

  /** The store invariant: fresh ids are fresh, rows are placed in their
      owner's tree, the folder tree is a forest, unique columns are unique. */
  ghost predicate Consistent(T: Tables) {
    && IdsBelow(T)
    && FoldersPlaced(T.users, T.folders)
    && Acyclic(ParentsOf(T.folders))
    && FilesPlaced(T.users, T.folders, T.files)
    && SharesWellFormed(T.users, T.shares)
    && AccountsDistinct(T.users)
  }

  class Store {
    var users: map<Id, User>
    var folders: map<Id, Folder>
    var files: map<Id, File>
    var shares: map<Id, Share>
    var blobs: set<string>
    var nextId: nat

    constructor ()
      ensures Snapshot() == Tables(map[], map[], map[], map[], {}, 0)
      ensures Valid()
    {
      users, folders, files, shares, blobs, nextId := map[], map[], map[], map[], {}, 0;
    }

    function Snapshot(): Tables
      reads this
    {
      Tables(users, folders, files, shares, blobs, nextId)
    }

    ghost predicate Valid()
      reads this
    {
      Consistent(Snapshot())
    }
  }

  lemma PlacedClosed(U: map<Id, User>, F: map<Id, Folder>)
    requires FoldersPlaced(U, F)
    ensures Closed(ParentsOf(F))
  {
  }

  /** Changing only the flags, names or favourite marks of folders keeps the forest. */
  lemma SameShape(F: map<Id, Folder>, F': map<Id, Folder>)
    requires F'.Keys == F.Keys
    requires forall k :: k in F ==> F'[k].parentId == F[k].parentId && F'[k].userId == F[k].userId
    ensures ParentsOf(F') == ParentsOf(F)
    ensures forall U :: FoldersPlaced(U, F) ==> FoldersPlaced(U, F')
    ensures forall U, G :: FilesPlaced(U, F, G) ==> FilesPlaced(U, F', G)
  {
  }

  // ---------------------------------------------------------------- keeping the invariant

  lemma ParentsOfUpdate(F: map<Id, Folder>, k: Id, f: Folder)
    ensures ParentsOf(F[k := f]) == ParentsOf(F)[k := f.parentId]
  {
  }

  /** Adding a folder with a fresh id under a folder of the same owner. */
  lemma AddFolderKeeps(T: Tables, f: Folder)
    requires Consistent(T) && f.userId in T.users && PlacedIn(T.folders, f.userId, f.parentId)
    ensures Consistent(T.(folders := T.folders[T.nextId := f], nextId := T.nextId + 1))
  {
    assert T.nextId !in T.folders;
    AddFolderForest(T.users, T.folders, T.nextId, f);
    AddFolderPlaced(T.users, T.folders, T.files, T.nextId, f);
  }

  lemma AddFolderForest(U: map<Id, User>, F: map<Id, Folder>, id: Id, f: Folder)
    requires FoldersPlaced(U, F) && Acyclic(ParentsOf(F)) && id !in F
    requires PlacedIn(F, f.userId, f.parentId)
    ensures Acyclic(ParentsOf(F[id := f]))
  {
    ParentsOfUpdate(F, id, f);
    PlacedClosed(U, F);
    AddKeepsForest(ParentsOf(F), id, f.parentId);
  }

  lemma AddFolderPlaced(U: map<Id, User>, F: map<Id, Folder>, G: map<Id, File>, id: Id, f: Folder)
    requires FoldersPlaced(U, F) && FilesPlaced(U, F, G) && id !in F
    requires f.userId in U && PlacedIn(F, f.userId, f.parentId)
    ensures FoldersPlaced(U, F[id := f]) && FilesPlaced(U, F[id := f], G)
  {
  }

  /** Any change to the folders that keeps every parent link and owner. */
  lemma ReflagFoldersKeeps(T: Tables, F': map<Id, Folder>)
    requires Consistent(T) && F'.Keys == T.folders.Keys
    requires forall k :: k in T.folders ==> F'[k].parentId == T.folders[k].parentId && F'[k].userId == T.folders[k].userId
    ensures Consistent(T.(folders := F'))
  {
    SameShape(T.folders, F');
  }

  /** Changing one folder without touching its parent link or owner. */
  lemma EditFolderKeeps(T: Tables, id: Id, f: Folder)
    requires Consistent(T) && id in T.folders
    requires f.parentId == T.folders[id].parentId && f.userId == T.folders[id].userId
    ensures Consistent(T.(folders := T.folders[id := f]))
  {
    ReflagFoldersKeeps(T, T.folders[id := f]);
  }

  /** Re-parenting a folder under a folder of its owner that is not below it, or at the root. */
  lemma MoveFolderKeeps(T: Tables, id: Id, np: Option<Id>)
    requires Consistent(T) && id in T.folders
    requires PlacedIn(T.folders, T.folders[id].userId, np)
    requires np.Some? ==> !Under(ParentsOf(T.folders), np.value, id, |T.folders|)
    ensures Consistent(T.(folders := T.folders[id := T.folders[id].(parentId := np)]))
  {
    assert T.folders[id := T.folders[id].(parentId := np)].Keys == T.folders.Keys;
    MoveFolderForest(T.users, T.folders, id, np);
    MoveFolderPlaced(T.users, T.folders, T.files, id, np);
  }

  lemma MoveFolderForest(U: map<Id, User>, F: map<Id, Folder>, id: Id, np: Option<Id>)
    requires FoldersPlaced(U, F) && Acyclic(ParentsOf(F)) && id in F
    requires PlacedIn(F, F[id].userId, np)
    requires np.Some? ==> !Under(ParentsOf(F), np.value, id, |F|)
    ensures Acyclic(ParentsOf(F[id := F[id].(parentId := np)]))
  {
    ParentsOfUpdate(F, id, F[id].(parentId := np));
    PlacedClosed(U, F);
    MoveKeepsForest(ParentsOf(F), id, np);
  }

  lemma MoveFolderPlaced(U: map<Id, User>, F: map<Id, Folder>, G: map<Id, File>, id: Id, np: Option<Id>)
    requires FoldersPlaced(U, F) && FilesPlaced(U, F, G) && id in F
    requires PlacedIn(F, F[id].userId, np)
    ensures FoldersPlaced(U, F[id := F[id].(parentId := np)]) && FilesPlaced(U, F[id := F[id].(parentId := np)], G)
  {
  }

  /** Any change to the files that keeps every owner and places every file. */
  lemma RefileKeeps(T: Tables, G': map<Id, File>)
    requires Consistent(T) && G'.Keys <= T.files.Keys
    requires forall k :: k in G' ==> G'[k].userId == T.files[k].userId && PlacedIn(T.folders, G'[k].userId, G'[k].folderId)
    ensures Consistent(T.(files := G'))
  {
  }

  /** Adding files with fresh ids, placed in their owner's tree. */
  lemma AddFilesKeeps(T: Tables, G': map<Id, File>, next: nat)
    requires Consistent(T) && T.files.Keys <= G'.Keys && T.nextId <= next
    requires forall k :: k in T.files ==> G'[k] == T.files[k]
    requires forall k :: k in G' ==> k < next && G'[k].userId in T.users && PlacedIn(T.folders, G'[k].userId, G'[k].folderId)
    ensures Consistent(T.(files := G', nextId := next))
  {
  }

  /** Changing a user's counters or profile without touching the unique columns. */
  lemma UserEditKeeps(T: Tables, id: Id, u: User)
    requires Consistent(T) && id in T.users
    requires u.email == T.users[id].email && u.googleId == T.users[id].googleId && u.githubId == T.users[id].githubId
    ensures Consistent(T.(users := T.users[id := u]))
  {
    UsersKeep(T, T.users[id := u]);
  }

  /** Replacing the user table by one with at least the same ids and unique
      accounts. */
  lemma UsersKeep(T: Tables, U': map<Id, User>)
    requires Consistent(T) && T.users.Keys <= U'.Keys && AccountsDistinct(U')
    requires forall k :: k in U' ==> k < T.nextId
    ensures Consistent(T.(users := U'))
  {
    var T' := T.(users := U');
    assert IdsBelow(T');
    assert FoldersPlaced(T'.users, T'.folders) by {
      forall k | k in T.folders
        ensures T.folders[k].userId in U' && PlacedIn(T.folders, T.folders[k].userId, T.folders[k].parentId)
      {
      }
    }
    assert FilesPlaced(T'.users, T'.folders, T'.files) by {
      forall k | k in T.files
        ensures T.files[k].userId in U' && PlacedIn(T.folders, T.files[k].userId, T.files[k].folderId)
      {
      }
    }
    assert SharesWellFormed(T'.users, T'.shares) by {
      forall k | k in T.shares
        ensures T.shares[k].userId in U' && (T.shares[k].fileId.Some? != T.shares[k].folderId.Some?)
      {
      }
    }
  }

  /** The invariant does not look at the blob store. */
  lemma BlobsFree(T: Tables, B: set<string>)
    requires Consistent(T)
    ensures Consistent(T.(blobs := B))
  {
  }

  /** Adding a share with a fresh id and an unused token, aimed at one target. */
  lemma AddShareKeeps(T: Tables, s: Share)
    requires Consistent(T) && s.userId in T.users && (s.fileId.Some? != s.folderId.Some?)
    requires forall k :: k in T.shares ==> T.shares[k].shareToken != s.shareToken
    ensures Consistent(T.(shares := T.shares[T.nextId := s], nextId := T.nextId + 1))
  {
    assert T.nextId !in T.shares;
  }

  /** Changing a share's counters without touching its token, owner or target. */
  lemma EditShareKeeps(T: Tables, k: Id, s: Share)
    requires Consistent(T) && k in T.shares
    requires s.shareToken == T.shares[k].shareToken && s.userId == T.shares[k].userId
    requires s.fileId == T.shares[k].fileId && s.folderId == T.shares[k].folderId
    ensures Consistent(T.(shares := T.shares[k := s]))
  {
    var S' := T.shares[k := s];
    assert forall a :: a in S' ==> S'[a].shareToken == T.shares[a].shareToken;
    assert forall a :: a in S' ==> S'[a].userId == T.shares[a].userId;
  }

  /** Removing a share. */
  lemma DropShareKeeps(T: Tables, k: Id)
    requires Consistent(T)
    ensures Consistent(T.(shares := T.shares - {k}))
  {
  }

  /** Adding a user with a fresh id whose email and provider ids no one holds. */
  lemma AddUserKeeps(T: Tables, u: User)
    requires Consistent(T)
    requires forall k :: k in T.users ==> T.users[k].email != u.email
    requires u.googleId.Some? ==> forall k :: k in T.users ==> T.users[k].googleId != u.googleId
    requires u.githubId.Some? ==> forall k :: k in T.users ==> T.users[k].githubId != u.githubId
    ensures Consistent(T.(users := T.users[T.nextId := u], nextId := T.nextId + 1))
  {
    var T' := T.(nextId := T.nextId + 1);
    assert Consistent(T');
    UsersKeep(T', T.users[T.nextId := u]);
  }

  /** Changing one user while keeping the unique columns unique. */
  lemma AccountEditKeeps(T: Tables, id: Id, u: User)
    requires Consistent(T) && id in T.users
    requires forall k :: k in T.users && k != id ==> T.users[k].email != u.email
    requires u.googleId.Some? ==> forall k :: k in T.users && k != id ==> T.users[k].googleId != u.googleId
    requires u.githubId.Some? ==> forall k :: k in T.users && k != id ==> T.users[k].githubId != u.githubId
    ensures Consistent(T.(users := T.users[id := u]))
  {
    UsersKeep(T, T.users[id := u]);
  }
}
