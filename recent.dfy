/** The recent-items and favourites controller
    (backend/src/controllers/recentController.js): two read-only projections
    ordered by `updatedAt`, and a favourite flag flipped in place. */
module Recent {
  import opened Common
  import opened Rows
  import opened Db
  import opened Query
  import opened Files
  import Folders

  /** The default page size of getRecentFiles. */
  const DefaultRecent: int := 20

  /** `parseInt(req.query.limit) || 20`, where `parsed` is what `parseInt`
      returned (`None` for NaN): a NaN or a zero falls back to 20; any other
      number, negative ones included, is passed to the database. */
  function RecentLimit(parsed: Option<int>): (r: int)
    ensures r != 0
    ensures r == DefaultRecent <==> parsed.None? || parsed == Some(0) || parsed == Some(DefaultRecent)
    ensures parsed.Some? && parsed.value != 0 ==> r == parsed.value
  {
    if parsed.None? || parsed.value == 0 then DefaultRecent else parsed.value
  }

  /** The caller's live files, and live folders. */
  function LiveFiles(G: map<Id, File>, userId: Id): set<Id> {
    set k | k in G && G[k].userId == userId && !G[k].isDeleted
  }

  function LiveFolders(F: map<Id, Folder>, userId: Id): set<Id> {
    set k | k in F && F[k].userId == userId && !F[k].isDeleted
  }

  function ByFileUpdated(G: map<Id, File>): Id -> int {
    k => if k in G then G[k].updatedAt else -1
  }

  function ByFolderUpdated(F: map<Id, Folder>): Id -> int {
    k => if k in F then F[k].updatedAt else -1
  }

  /** getRecentFiles: the `limit` most recently updated live files of the
      caller and, separately, the `limit` most recently updated live folders.
      MySQL refuses a negative LIMIT, which surfaces as a server error. */
  method GetRecentFiles(st: Store, userId: Id, parsed: Option<int>)
    returns (status: Status, files: seq<Id>, folders: seq<Id>)
    ensures status in {Ok, ServerError}
    ensures status == ServerError <==> RecentLimit(parsed) < 0
    ensures status != Ok ==> files == [] && folders == []
    ensures status == Ok ==>
      && TopOf(files, LiveFiles(st.files, userId), ByFileUpdated(st.files), RecentLimit(parsed))
      && TopOf(folders, LiveFolders(st.folders, userId), ByFolderUpdated(st.folders), RecentLimit(parsed))
    ensures forall i :: 0 <= i < |files| ==> LiveFile(st.files, files[i], userId)
    ensures forall i :: 0 <= i < |folders| ==> Folders.LiveOwned(st.folders, folders[i], userId)
  {
    var limit := RecentLimit(parsed);
    if limit < 0 {
      return ServerError, [], [];
    }
    var A := LiveFiles(st.files, userId);
    files := SelectTop(A, ByFileUpdated(st.files), limit);
    assert forall i :: 0 <= i < |files| ==> files[i] in Elems(files);
    var B := LiveFolders(st.folders, userId);
    folders := SelectTop(B, ByFolderUpdated(st.folders), limit);
    assert forall i :: 0 <= i < |folders| ==> folders[i] in Elems(folders);
    status := Ok;
  }

  /** The caller's live favourite files, and live favourite folders. */
  function FavoriteFiles(G: map<Id, File>, userId: Id): set<Id> {
    set k | k in G && G[k].userId == userId && !G[k].isDeleted && G[k].isFavorite
  }

  function FavoriteFolders(F: map<Id, Folder>, userId: Id): set<Id> {
    set k | k in F && F[k].userId == userId && !F[k].isDeleted && F[k].isFavorite
  }

  /** getFavorites: every live favourite of the caller, most recently
      updated first, with no limit. */
  method GetFavorites(st: Store, userId: Id) returns (files: seq<Id>, folders: seq<Id>)
    ensures Elems(files) == FavoriteFiles(st.files, userId)
    ensures TopOf(files, FavoriteFiles(st.files, userId), ByFileUpdated(st.files), |files|)
    ensures Elems(folders) == FavoriteFolders(st.folders, userId)
    ensures TopOf(folders, FavoriteFolders(st.folders, userId), ByFolderUpdated(st.folders), |folders|)
  {
    var A := FavoriteFiles(st.files, userId);
    files := SelectTop(A, ByFileUpdated(st.files), |A|);
    var B := FavoriteFolders(st.folders, userId);
    folders := SelectTop(B, ByFolderUpdated(st.folders), |B|);
  }

  /** The message toggleFileFavorite and toggleFolderFavorite send. */
  datatype ToggleMessage = AddedToFavorites | RemovedFromFavorites

  function MessageFor(favorite: bool): (m: ToggleMessage)
    ensures m == AddedToFavorites <==> favorite
  {
    if favorite then AddedToFavorites else RemovedFromFavorites
  }

  /** toggleFileFavorite: a live file of the caller has its flag negated and
      nothing else changes; the message reports the new value. */
  method ToggleFileFavorite(st: Store, userId: Id, id: Id) returns (status: Status, message: ToggleMessage)
    requires st.Valid()
    modifies st
    ensures st.Valid()
    ensures status in {Ok, NotFound}
    ensures status == NotFound <==> !LiveFile(old(st.files), id, userId)
    ensures status != Ok ==> st.Snapshot() == old(st.Snapshot())
    ensures status == Ok ==>
      && st.Snapshot() == old(st.Snapshot()).(files := old(st.files)[id := old(st.files)[id].(isFavorite := !old(st.files)[id].isFavorite)])
      && message == MessageFor(st.files[id].isFavorite)
  {
    message := RemovedFromFavorites;
    if !LiveFile(st.files, id, userId) {
      return NotFound, message;
    }
    ghost var T := st.Snapshot();
    var f := st.files[id].(isFavorite := !st.files[id].isFavorite);
    RefileKeeps(T, T.files[id := f]);
    st.files := st.files[id := f];
    assert st.Snapshot() == T.(files := T.files[id := f]);
    status, message := Ok, MessageFor(f.isFavorite);
  }

  /** toggleFolderFavorite: the same for a live folder of the caller. */
  method ToggleFolderFavorite(st: Store, userId: Id, id: Id) returns (status: Status, message: ToggleMessage)
    requires st.Valid()
    modifies st
    ensures st.Valid()
    ensures status in {Ok, NotFound}
    ensures status == NotFound <==> !Folders.LiveOwned(old(st.folders), id, userId)
    ensures status != Ok ==> st.Snapshot() == old(st.Snapshot())
    ensures status == Ok ==>
      && st.Snapshot() == old(st.Snapshot()).(folders := old(st.folders)[id := old(st.folders)[id].(isFavorite := !old(st.folders)[id].isFavorite)])
      && message == MessageFor(st.folders[id].isFavorite)
  {
    message := RemovedFromFavorites;
    if !Folders.LiveOwned(st.folders, id, userId) {
      return NotFound, message;
    }
    ghost var T := st.Snapshot();
    var f := st.folders[id].(isFavorite := !st.folders[id].isFavorite);
    EditFolderKeeps(T, id, f);
    st.folders := st.folders[id := f];
    assert st.Snapshot() == T.(folders := T.folders[id := f]);
    status, message := Ok, MessageFor(f.isFavorite);
  }

  /** toggleFolderFavorite as written. The folder model declares no
      `isFavorite` attribute, so the loaded instance reads it as `undefined`,
      the negation sets a plain property to `true`, and `save()` writes no
      column: a live folder of the caller is always answered "added", and no
      row changes. */
  function ToggleFolderFavoriteAsWritten(F: map<Id, Folder>, userId: Id, id: Id): (r: (Status, ToggleMessage))
    ensures r.0 in {Ok, NotFound}
    ensures r.0 == NotFound <==> !Folders.LiveOwned(F, id, userId)
  {
    if !Folders.LiveOwned(F, id, userId) then (NotFound, RemovedFromFavorites)
    else (Ok, MessageFor(true))  // `!undefined` is `true`
  }

  /** The discrepancy: toggling a folder the caller already marked as a
      favourite is answered "added" as written, where the intended toggle
      (ToggleFolderFavorite) clears the flag and answers "removed". */
  lemma FolderToggleAlwaysAdds(F: map<Id, Folder>, userId: Id, id: Id)
    requires Folders.LiveOwned(F, id, userId)
    ensures ToggleFolderFavoriteAsWritten(F, userId, id) == (Ok, AddedToFavorites)
    ensures F[id].isFavorite ==> MessageFor(!F[id].isFavorite) == RemovedFromFavorites
  {
  }

  /** One toggle moves exactly the toggled file into or out of the
      favourites, and a second toggle restores the table. */
  lemma ToggleFileEffect(G: map<Id, File>, userId: Id, id: Id)
    requires LiveFile(G, id, userId)
    ensures var G' := G[id := G[id].(isFavorite := !G[id].isFavorite)];
      && (id in FavoriteFiles(G', userId) <==> id !in FavoriteFiles(G, userId))
      && FavoriteFiles(G', userId) - {id} == FavoriteFiles(G, userId) - {id}
      && G'[id := G'[id].(isFavorite := !G'[id].isFavorite)] == G
  {
    var G' := G[id := G[id].(isFavorite := !G[id].isFavorite)];
    assert G'[id := G'[id].(isFavorite := !G'[id].isFavorite)][id] == G[id];
  }

  /** The same for folders. */
  lemma ToggleFolderEffect(F: map<Id, Folder>, userId: Id, id: Id)
    requires Folders.LiveOwned(F, id, userId)
    ensures var F' := F[id := F[id].(isFavorite := !F[id].isFavorite)];
      && (id in FavoriteFolders(F', userId) <==> id !in FavoriteFolders(F, userId))
      && FavoriteFolders(F', userId) - {id} == FavoriteFolders(F, userId) - {id}
      && F'[id := F'[id].(isFavorite := !F'[id].isFavorite)] == F
  {
    var F' := F[id := F[id].(isFavorite := !F[id].isFavorite)];
    assert F'[id := F'[id].(isFavorite := !F'[id].isFavorite)][id] == F[id];
  }
}
