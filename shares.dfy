/** The share controller (backend/src/controllers/sharecontroller.js): share
    links for one file or one folder, resolved by token with a fixed check
    order, counted on every successful resolution, and downloaded as a blob
    or as a zip of the live subtree. */
module Shares {
  import opened Common
  import opened Rows
  import opened Tree
  import opened Db
  import opened Sweep
  import opened Archive
  import opened Files
  import opened HexCodec

  // ---------------------------------------------------------------- tokens

  /** generateShareToken: 32 random bytes give exactly 64 lower-case hex
      characters, the width of the `shareToken` column, and different bytes
      give different tokens. */
  lemma TokenShape(bytes: seq<Byte>, other: seq<Byte>)
    requires |bytes| == 32
    ensures |Hex(bytes)| == TokenColumnWidth
    ensures forall i :: 0 <= i < |Hex(bytes)| ==> 'a' <= Hex(bytes)[i] <= 'f' || '0' <= Hex(bytes)[i] <= '9'
    ensures Hex(bytes) == Hex(other) ==> bytes == other
  {
    UnhexHex(bytes);
    UnhexHex(other);
  }

  // ---------------------------------------------------------------- creating and listing

  /** `Folder.findOne({ id, userId })`: trashed folders are found too. */
  predicate OwnedFolder(F: map<Id, Folder>, id: Id, userId: Id) {
    id in F && F[id].userId == userId
  }

  predicate TokenTaken(S: map<Id, Share>, token: string) {
    exists k :: k in S && S[k].shareToken == token
  }

  /** `password || null`: an absent or empty password is stored as null. */
  function StoredPassword(password: Option<string>): (p: Option<string>)
    ensures p.Some? <==> IsSet(password)
    ensures p.Some? ==> p == password
  {
    if IsSet(password) then password else None
  }

  /** The row `Share.create` inserts for one target. */
  function NewShare(token: string, userId: Id, fileId: Option<Id>, folderId: Option<Id>,
                    expiresAt: Option<Time>, password: Option<string>): Share {
    Share(token, userId, fileId, folderId, expiresAt, StoredPassword(password), 0)
  }

  /** createFileShare (`forFile`) and createFolderShare: the target must be a
      row of the caller, trashed or not; the new share names exactly that
      target, starts at zero downloads, and its token is the hex of the
      random bytes. A token already in the table breaks the unique column. */
  method CreateShare(st: Store, userId: Id, forFile: bool, id: Id, expiresAt: Option<Time>,
                     password: Option<string>, random: seq<Byte>)
    returns (status: Status, shareId: Id, token: string)
    requires st.Valid() && userId in st.users && |random| == 32
    modifies st
    ensures st.Valid()
    ensures status in {Ok, NotFound, ServerError}
    ensures status == NotFound <==>
      if forFile then !OwnedFile(old(st.files), id, userId) else !OwnedFolder(old(st.folders), id, userId)
    ensures status == ServerError <==> status != NotFound && TokenTaken(old(st.shares), Hex(random))
    ensures status != Ok ==> st.Snapshot() == old(st.Snapshot())
    ensures status == Ok ==>
      && shareId == old(st.nextId) && shareId !in old(st.shares)
      && token == Hex(random) && |token| == TokenColumnWidth
      && st.Snapshot() == old(st.Snapshot()).(
           shares := old(st.shares)[shareId := NewShare(token, userId,
             if forFile then Some(id) else None, if forFile then None else Some(id), expiresAt, password)],
           nextId := old(st.nextId) + 1)
  {
    shareId, token := 0, "";
    if forFile && !OwnedFile(st.files, id, userId) {
      return NotFound, shareId, token;
    }
    if !forFile && !OwnedFolder(st.folders, id, userId) {
      return NotFound, shareId, token;
    }
    token := Hex(random);
    TokenShape(random, random);
    if TokenTaken(st.shares, token) {
      return ServerError, shareId, "";
    }
    var s := NewShare(token, userId, if forFile then Some(id) else None, if forFile then None else Some(id), expiresAt, password);
    ghost var T := st.Snapshot();
    AddShareKeeps(T, s);
    shareId := st.nextId;
    st.shares, st.nextId := st.shares[shareId := s], st.nextId + 1;
    assert st.Snapshot() == T.(shares := T.shares[shareId := s], nextId := T.nextId + 1);
    status := Ok;
  }

  /** getFileShares (`forFile`) and getFolderShares: for a target row of the
      caller, the caller's shares of exactly that target. */
  function ListShares(F: map<Id, Folder>, G: map<Id, File>, S: map<Id, Share>, userId: Id, forFile: bool, id: Id)
    : (r: Option<set<Id>>)
    ensures r.None? <==> if forFile then !OwnedFile(G, id, userId) else !OwnedFolder(F, id, userId)
    ensures r.Some? ==> forall k :: k in r.value <==>
      k in S && S[k].userId == userId && (if forFile then S[k].fileId == Some(id) else S[k].folderId == Some(id))
  {
    if forFile && !OwnedFile(G, id, userId) then None
    else if !forFile && !OwnedFolder(F, id, userId) then None
    else if forFile then Some(set k | k in S && S[k].fileId == Some(id) && S[k].userId == userId)
    else Some(set k | k in S && S[k].folderId == Some(id) && S[k].userId == userId)
  }

  // ---------------------------------------------------------------- resolving

  /** The checks after the token lookup, in source order: expiry first (a
      link is still good at the very instant it expires), then the password
      (a share without one accepts anything). */
  function CheckShare(s: Share, now: Time, password: Option<string>): (r: Status)
    ensures r in {Ok, Gone, Unauthorized}
    ensures r == Gone <==> s.expiresAt.Some? && now > s.expiresAt.value
    ensures r == Unauthorized <==> !(s.expiresAt.Some? && now > s.expiresAt.value) && IsSet(s.password) && s.password != password
  {
    if s.expiresAt.Some? && now > s.expiresAt.value then Gone
    else if IsSet(s.password) && s.password != password then Unauthorized
    else Ok
  }

  /** The order matters: an expired link is reported as expired whatever
      password is offered, and an open link is good for any password. */
  lemma CheckOrder(s: Share, now: Time, p: Option<string>, q: Option<string>)
    ensures CheckShare(s, now, p) == Gone ==> CheckShare(s, now, q) == Gone
    ensures !IsSet(s.password) ==> CheckShare(s, now, p) == CheckShare(s, now, q)
    ensures s.expiresAt == Some(now) && (IsSet(s.password) ==> p == s.password) ==> CheckShare(s, now, p) == Ok
  {
  }

  /** `Share.findOne({ where: { shareToken } })`. */
  method FindShare(st: Store, token: string) returns (k: Option<Id>)
    ensures k.None? <==> !TokenTaken(st.shares, token)
    ensures k.Some? ==> k.value in st.shares && st.shares[k.value].shareToken == token
  {
    if TokenTaken(st.shares, token) {
      var j :| j in st.shares && st.shares[j].shareToken == token;
      return Some(j);
    }
    return None;
  }

  /** What accessShare shows once the checks pass. */
  datatype ShareView =
    | NoView
    | FileView(name: string, originalName: string, size: nat, mimeType: string)
    | FolderView(name: string, files: set<Id>, folders: set<Id>)

  /** The target of a share as accessShare shows it: a file's display name
      falls back to the stored name; a folder shows its direct children,
      trashed ones included; a share whose target row is gone shows nothing. */
  function ShareTarget(F: map<Id, Folder>, G: map<Id, File>, s: Share): (v: ShareView)
    ensures v.FileView? <==> s.fileId.Some? && s.fileId.value in G
    ensures v.FolderView? <==> !(s.fileId.Some? && s.fileId.value in G) && s.folderId.Some? && s.folderId.value in F
    ensures v.FolderView? ==>
      && (forall x :: x in v.files <==> x in G && G[x].folderId == s.folderId)
      && (forall x :: x in v.folders <==> x in F && F[x].parentId == s.folderId)
  {
    if s.fileId.Some? && s.fileId.value in G then
      var f := G[s.fileId.value];
      FileView(if f.originalName != "" then f.originalName else f.name, f.originalName, f.size, f.mimeType)
    else if s.folderId.Some? && s.folderId.value in F then
      var r := s.folderId.value;
      FolderView(F[r].name, set x | x in G && G[x].folderId == Some(r), set y | y in F && F[y].parentId == Some(r))
    else NoView
  }

  /** The common head of accessShare and downloadShare: look up, check, and
      report the share found. */
  method Resolve(st: Store, now: Time, token: string, password: Option<string>) returns (status: Status, k: Id)
    requires st.Valid()
    ensures status in {Ok, NotFound, Gone, Unauthorized}
    ensures status == NotFound <==> !TokenTaken(st.shares, token)
    ensures status != NotFound ==>
      && k in st.shares && st.shares[k].shareToken == token
      && status == CheckShare(st.shares[k], now, password)
  {
    var found := FindShare(st, token);
    if found.None? {
      return NotFound, 0;
    }
    k := found.value;
    status := CheckShare(st.shares[k], now, password);
  }

  /** `share.increment('downloadCount')`. */
  method Bump(st: Store, k: Id)
    requires st.Valid() && k in st.shares
    modifies st
    ensures st.Valid()
    ensures st.Snapshot() == old(st.Snapshot()).(shares := old(st.shares)[k := old(st.shares)[k].(downloadCount := old(st.shares)[k].downloadCount + 1)])
  {
    ghost var T := st.Snapshot();
    var s := st.shares[k].(downloadCount := st.shares[k].downloadCount + 1);
    EditShareKeeps(T, k, s);
    st.shares := st.shares[k := s];
    assert st.Snapshot() == T.(shares := T.shares[k := s]);
  }

  /** accessShare: an unknown token, an expired link or a wrong password is
      refused with nothing changed; otherwise the count rises by one, even
      when the target row is gone (then not found). */
  method AccessShare(st: Store, now: Time, token: string, password: Option<string>)
    returns (status: Status, view: ShareView)
    requires st.Valid()
    modifies st
    ensures st.Valid()
    ensures !TokenTaken(old(st.shares), token) ==> status == NotFound && view == NoView && st.Snapshot() == old(st.Snapshot())
    ensures forall k :: k in old(st.shares) && old(st.shares)[k].shareToken == token ==>
      var s := old(st.shares)[k];
      && (CheckShare(s, now, password) != Ok ==>
            status == CheckShare(s, now, password) && view == NoView && st.Snapshot() == old(st.Snapshot()))
      && (CheckShare(s, now, password) == Ok ==>
            && view == ShareTarget(old(st.folders), old(st.files), s)
            && (status == Ok <==> view != NoView) && status in {Ok, NotFound}
            && st.Snapshot() == old(st.Snapshot()).(shares := old(st.shares)[k := s.(downloadCount := s.downloadCount + 1)]))
  {
    var k;
    status, k := Resolve(st, now, token, password);
    view := NoView;
    if status != Ok {
      return;
    }
    TokenOwner(st.Snapshot(), token, k);
    Bump(st, k);
    view := ShareTarget(st.folders, st.files, st.shares[k]);
    status := if view != NoView then Ok else NotFound;
  }

  /** Tokens are unique, so the share found is the only one with that token. */
  lemma TokenOwner(T: Tables, token: string, k: Id)
    requires Consistent(T) && k in T.shares && T.shares[k].shareToken == token
    ensures forall j :: j in T.shares && T.shares[j].shareToken == token ==> j == k
  {
    assert SharesWellFormed(T.users, T.shares);
  }

  // ---------------------------------------------------------------- downloading

  datatype Download =
    | NoDownload
    | Blob(path: string, fileName: string, mimeType: string, size: nat)
    | Zip(zipName: string, entries: seq<Entry>)

  /** downloadShare: the same checks as accessShare. A file share streams the
      blob and counts the download, but a missing blob is not found and not
      counted. A folder share counts the request and zips the live subtree
      with paths relative to the shared folder, files without a blob left
      out. The `fileId` query parameter plays no part. */
  method DownloadShare(st: Store, now: Time, token: string, password: Option<string>, fileIdQuery: Option<Id>)
    returns (status: Status, result: Download, ghost ids: seq<Id>)
    requires st.Valid()
    modifies st
    ensures st.Valid()
    ensures !TokenTaken(old(st.shares), token) ==> status == NotFound && result == NoDownload && st.Snapshot() == old(st.Snapshot())
    ensures forall k :: k in old(st.shares) && old(st.shares)[k].shareToken == token ==>
      var s := old(st.shares)[k];
      var bumped := old(st.Snapshot()).(shares := old(st.shares)[k := s.(downloadCount := s.downloadCount + 1)]);
      && (CheckShare(s, now, password) != Ok ==>
            status == CheckShare(s, now, password) && result == NoDownload && st.Snapshot() == old(st.Snapshot()))
      && (CheckShare(s, now, password) == Ok && s.fileId.Some? && s.fileId.value in old(st.files) ==>
            var f := old(st.files)[s.fileId.value];
            if f.path in old(st.blobs) then
              && status == Ok && st.Snapshot() == bumped
              && result == Blob(f.path, if f.originalName != "" then f.originalName else f.name, f.mimeType, f.size)
            else status == NotFound && result == NoDownload && st.Snapshot() == old(st.Snapshot()))
      && (CheckShare(s, now, password) == Ok && !(s.fileId.Some? && s.fileId.value in old(st.files)) ==>
            if s.folderId.Some? && s.folderId.value in old(st.folders) then
              var r := s.folderId.value;
              && status == Ok && st.Snapshot() == bumped
              && result.Zip? && result.zipName == old(st.folders)[r].name + ".zip"
              && Lists(old(st.folders), old(st.files), r, "", SharedZip, result.entries, ids)
              && Elems(ids) == ArchiveIds(old(st.files), old(st.blobs), Subtree(old(st.folders), r, false), SharedZip)
            else status == NotFound && result == NoDownload && st.Snapshot() == old(st.Snapshot()))
  {
    var k;
    status, k := Resolve(st, now, token, password);
    result, ids := NoDownload, [];
    if status != Ok {
      return;
    }
    TokenOwner(st.Snapshot(), token, k);
    var s := st.shares[k];
    if s.fileId.Some? && s.fileId.value in st.files {
      var f := st.files[s.fileId.value];
      if f.path !in st.blobs {
        return NotFound, NoDownload, ids;
      }
      Bump(st, k);
      result := Blob(f.path, if f.originalName != "" then f.originalName else f.name, f.mimeType, f.size);
      return;
    }
    if s.folderId.Some? && s.folderId.value in st.folders {
      var r := s.folderId.value;
      Bump(st, k);
      var entries;
      entries, ids := AddFolderToArchive(st, r, "", SharedZip, ParentsOf(st.folders));
      result := Zip(st.folders[r].name + ".zip", entries);
      return;
    }
    status := NotFound;
  }

  // ---------------------------------------------------------------- deleting

  /** deleteShare: only the caller's own share is removed. */
  method DeleteShare(st: Store, userId: Id, id: Id) returns (status: Status)
    requires st.Valid()
    modifies st
    ensures st.Valid()
    ensures status in {Ok, NotFound}
    ensures status == NotFound <==> !(id in old(st.shares) && old(st.shares)[id].userId == userId)
    ensures status != Ok ==> st.Snapshot() == old(st.Snapshot())
    ensures status == Ok ==> st.Snapshot() == old(st.Snapshot()).(shares := old(st.shares) - {id})
  {
    if !(id in st.shares && st.shares[id].userId == userId) {
      return NotFound;
    }
    ghost var T := st.Snapshot();
    DropShareKeeps(T, id);
    st.shares := st.shares - {id};
    assert st.Snapshot() == T.(shares := T.shares - {id});
    status := Ok;
  }
}
