/** The recursive zip walk shared by the owner's folder download
    (folderController.js, downloadFolderAsZip) and the public folder-share
    download (sharecontroller.js, downloadShare). Both add the live files of a
    folder under the current archive directory, then recurse into each live
    subfolder with its name appended. They differ in the entry name and in a
    check that the blob exists. */
module Archive {
  import opened Common
  import opened Rows
  import opened Tree
  import opened Db
  import opened Sweep

  /** One `archive.file(blob, { name })` call. */
  datatype Entry = Entry(blob: string, name: string)

  /** The owner's download names entries by `originalName` and adds every
      file; the share download falls back to `name` when `originalName` is
      empty and skips files whose blob is missing. */
  datatype Mode = OwnerZip | SharedZip

  function EntryName(f: File, mode: Mode): string {
    if mode == SharedZip && f.originalName == "" then f.name else f.originalName
  }

  predicate Packed(f: File, blobs: set<string>, mode: Mode) {
    mode == OwnerZip || f.path in blobs
  }

  /** The files an archive of the folders `A` holds: live, in one of `A`, and packed. */
  ghost function ArchiveIds(G: map<Id, File>, blobs: set<string>, A: set<Id>, mode: Mode): set<Id> {
    set k | k in G && !G[k].isDeleted && G[k].folderId.Some? && G[k].folderId.value in A && Packed(G[k], blobs, mode)
  }

  /** The entry file `k` gets in an archive of `r` rooted at `base`: its folder's
      path below `r`, then its own name. */
  function EntryFor(F: map<Id, Folder>, G: map<Id, File>, r: Id, base: string, mode: Mode, k: Id): Entry
    requires k in G && G[k].folderId.Some?
  {
    Entry(G[k].path, Join(Join(base, RelPath(F, G[k].folderId.value, r, |F|)), EntryName(G[k], mode)))
  }

  /** The entries of the walk match the identifiers of the files they come from. */
  ghost predicate Lists(F: map<Id, Folder>, G: map<Id, File>, r: Id, base: string, mode: Mode,
                        entries: seq<Entry>, ids: seq<Id>)
  {
    && |entries| == |ids| && Distinct(ids)
    && (forall i :: 0 <= i < |ids| ==> ids[i] in G && G[ids[i]].folderId.Some?)
    && (forall i :: 0 <= i < |ids| ==> entries[i] == EntryFor(F, G, r, base, mode, ids[i]))
  }

  /** A file below the child `s` keeps its entry when the walk steps into `s`. */
  lemma EntryStep(F: map<Id, Folder>, G: map<Id, File>, r: Id, s: Id, base: string, mode: Mode, k: Id)
    requires k in G && G[k].folderId.Some? && Path(F, G[k].folderId.value, s, false, |F|)
    requires Acyclic(ParentsOf(F)) && s in F && F[s].parentId == Some(r)
    ensures EntryFor(F, G, s, Join(base, F[s].name), mode, k) == EntryFor(F, G, r, base, mode, k)
  {
    PathUnder(F, G[k].folderId.value, s, false, |F|);
    RelPathStep(F, r, s, G[k].folderId.value, base);
  }

  /** A file of `r` itself is named directly under `base`. */
  lemma EntryHere(F: map<Id, Folder>, G: map<Id, File>, r: Id, base: string, mode: Mode, k: Id)
    requires k in G && G[k].folderId == Some(r)
    ensures EntryFor(F, G, r, base, mode, k) == Entry(G[k].path, Join(base, EntryName(G[k], mode)))
  {
    assert RelPath(F, r, r, |F|) == "";
  }

  /** Listing one more file of `r`: the walk over the files of `r` itself. */
  lemma FileStep(F: map<Id, Folder>, G: map<Id, File>, blobs: set<string>, r: Id, base: string, mode: Mode,
                 here: set<Id>, todo: set<Id>, entries: seq<Entry>, ids: seq<Id>, k: Id)
    requires here == set k | k in G && G[k].folderId == Some(r) && !G[k].isDeleted
    requires todo <= here && k in todo
    requires Lists(F, G, r, base, mode, entries, ids)
    requires (set x | x in ids) == ArchiveIds(G, blobs, {r}, mode) - todo
    ensures Packed(G[k], blobs, mode) ==>
      && Lists(F, G, r, base, mode, entries + [Entry(G[k].path, Join(base, EntryName(G[k], mode)))], ids + [k])
      && (set x | x in ids + [k]) == ArchiveIds(G, blobs, {r}, mode) - (todo - {k})
    ensures !Packed(G[k], blobs, mode) ==>
      (set x | x in ids) == ArchiveIds(G, blobs, {r}, mode) - (todo - {k})
  {
    EntryHere(F, G, r, base, mode, k);
    assert k !in ids;
    if Packed(G[k], blobs, mode) {
      assert k in ArchiveIds(G, blobs, {r}, mode);
      IdsAppend(ids, [k]);
      ListsAppend(F, G, r, base, mode, entries, ids, [Entry(G[k].path, Join(base, EntryName(G[k], mode)))], [k]);
    } else {
      assert k !in ArchiveIds(G, blobs, {r}, mode);
    }
  }

  /** The walk of the child `s` names its files as the walk of `r` would. */
  lemma ChildEntries(F: map<Id, Folder>, G: map<Id, File>, blobs: set<string>, r: Id, s: Id, base: string, mode: Mode,
                     e: seq<Entry>, i: seq<Id>)
    requires Acyclic(ParentsOf(F)) && s in F && F[s].parentId == Some(r)
    requires Lists(F, G, s, Join(base, F[s].name), mode, e, i)
    requires (set k | k in i) == ArchiveIds(G, blobs, Subtree(F, s, false), mode)
    ensures Lists(F, G, r, base, mode, e, i)
  {
    forall j | 0 <= j < |i|
      ensures e[j] == EntryFor(F, G, r, base, mode, i[j])
    {
      assert i[j] in ArchiveIds(G, blobs, Subtree(F, s, false), mode);
      EntryStep(F, G, r, s, base, mode, i[j]);
    }
  }

  /** The files listed so far and the files below the child `s` are different files. */
  lemma ChildApart(F: map<Id, Folder>, G: map<Id, File>, blobs: set<string>, r: Id, s: Id, mode: Mode,
                   kids: set<Id>, subs: set<Id>, Z: set<Id>, ids: seq<Id>, i: seq<Id>)
    requires Acyclic(ParentsOf(F)) && r in F && kids == Kids(F, r, false) && s in subs
    requires Progress(F, r, kids, subs, Z, false)
    requires (set k | k in ids) == ArchiveIds(G, blobs, Z + {r}, mode)
    requires (set k | k in i) == ArchiveIds(G, blobs, Subtree(F, s, false), mode)
    ensures forall a, b :: 0 <= a < |ids| && 0 <= b < |i| ==> ids[a] != i[b]
  {
    var P := ParentsOf(F);
    forall a, b | 0 <= a < |ids| && 0 <= b < |i|
      ensures ids[a] != i[b]
    {
      assert ids[a] in ArchiveIds(G, blobs, Z + {r}, mode);
      assert i[b] in ArchiveIds(G, blobs, Subtree(F, s, false), mode);
      var y := G[i[b]].folderId.value;
      PathUnder(F, y, s, false, |F|);
      if y == r {
        assert Under(P, s, r, 1);
        UnderTrans(P, s, r, s, 1, |F|);
        NotOwnAncestor(P, s, |F|);
      }
    }
  }

  /** Appending the walk of the child `s` to what was listed so far. */
  lemma ListsStep(F: map<Id, Folder>, G: map<Id, File>, blobs: set<string>, r: Id, s: Id, base: string, mode: Mode,
                  kids: set<Id>, subs: set<Id>, Z: set<Id>,
                  entries: seq<Entry>, ids: seq<Id>, e: seq<Entry>, i: seq<Id>)
    requires Acyclic(ParentsOf(F)) && r in F && kids == Kids(F, r, false) && s in subs
    requires Progress(F, r, kids, subs, Z, false)
    requires Lists(F, G, r, base, mode, entries, ids)
    requires (set k | k in ids) == ArchiveIds(G, blobs, Z + {r}, mode)
    requires Lists(F, G, s, Join(base, F[s].name), mode, e, i)
    requires (set k | k in i) == ArchiveIds(G, blobs, Subtree(F, s, false), mode)
    ensures Lists(F, G, r, base, mode, entries + e, ids + i)
    ensures (set k | k in ids + i) == ArchiveIds(G, blobs, Z + (Below(F, s, false) + {s}) + {r}, mode)
  {
    ChildEntries(F, G, blobs, r, s, base, mode, e, i);
    ChildApart(F, G, blobs, r, s, mode, kids, subs, Z, ids, i);
    ListsAppend(F, G, r, base, mode, entries, ids, e, i);
    SubtreeTop(F, s, false);
    IdsAppend(ids, i);
    ArchiveIdsUnion(G, blobs, Z + {r}, Below(F, s, false) + {s}, mode);
    assert Z + {r} + (Below(F, s, false) + {s}) == Z + (Below(F, s, false) + {s}) + {r};
  }

  lemma ListsAppend(F: map<Id, Folder>, G: map<Id, File>, r: Id, base: string, mode: Mode,
                    entries: seq<Entry>, ids: seq<Id>, e: seq<Entry>, i: seq<Id>)
    requires Lists(F, G, r, base, mode, entries, ids) && Lists(F, G, r, base, mode, e, i)
    requires forall a, b :: 0 <= a < |ids| && 0 <= b < |i| ==> ids[a] != i[b]
    ensures Lists(F, G, r, base, mode, entries + e, ids + i)
  {
    DistinctAppend(ids, i);
    forall j | 0 <= j < |ids + i|
      ensures (entries + e)[j] == EntryFor(F, G, r, base, mode, (ids + i)[j])
    {
      if j >= |ids| {
        assert (entries + e)[j] == e[j - |ids|] && (ids + i)[j] == i[j - |ids|];
      }
    }
  }

  lemma IdsAppend(a: seq<Id>, b: seq<Id>)
    ensures (set k | k in a + b) == (set k | k in a) + (set k | k in b)
  {
  }

  lemma ArchiveIdsUnion(G: map<Id, File>, blobs: set<string>, A: set<Id>, B: set<Id>, mode: Mode)
    ensures ArchiveIds(G, blobs, A + B, mode) == ArchiveIds(G, blobs, A, mode) + ArchiveIds(G, blobs, B, mode)
  {
  }

  /** `addFolderToArchive(r, base)`: the entries for every live, packed file
      in the live subtree of `r`, each once, named by its folder path below `r`. */
  method AddFolderToArchive(st: Store, r: Id, base: string, mode: Mode, ghost P: Parents)
    returns (entries: seq<Entry>, ghost ids: seq<Id>)
    requires Acyclic(P) && P == ParentsOf(st.folders) && r in st.folders
    ensures Lists(st.folders, st.files, r, base, mode, entries, ids)
    ensures (set k | k in ids) == ArchiveIds(st.files, st.blobs, Subtree(st.folders, r, false), mode)
    decreases Desc(P, r)
  {
    var here := set k | k in st.files && st.files[k].folderId == Some(r) && !st.files[k].isDeleted;
    entries, ids := [], [];
    var todo := here;
    while todo != {}
      invariant todo <= here
      invariant Lists(st.folders, st.files, r, base, mode, entries, ids)
      invariant (set k | k in ids) == ArchiveIds(st.files, st.blobs, {r}, mode) - todo
      decreases todo
    {
      var k :| k in todo;
      FileStep(st.folders, st.files, st.blobs, r, base, mode, here, todo, entries, ids, k);
      if Packed(st.files[k], st.blobs, mode) {
        entries := entries + [Entry(st.files[k].path, Join(base, EntryName(st.files[k], mode)))];
        ids := ids + [k];
      }
      todo := todo - {k};
    }
    var subs := Kids(st.folders, r, false);
    ghost var kids := subs;
    ghost var Z: set<Id> := {};
    while subs != {}
      invariant Progress(st.folders, r, kids, subs, Z, false)
      invariant Lists(st.folders, st.files, r, base, mode, entries, ids)
      invariant (set k | k in ids) == ArchiveIds(st.files, st.blobs, Z + {r}, mode)
      decreases subs
    {
      var s :| s in subs;
      DescShrinks(P, r, s);
      var e, i := AddFolderToArchive(st, s, Join(base, st.folders[s].name), mode, P);
      ListsStep(st.folders, st.files, st.blobs, r, s, base, mode, kids, subs, Z, entries, ids, e, i);
      ChildLeave(st.folders, r, s, kids, subs, Z, false);
      entries, ids := entries + e, ids + i;
      Z := Z + (Below(st.folders, s, false) + {s});
      subs := subs - {s};
    }
    ProgressDone(st.folders, r, kids, Z, false);
    SubtreeTop(st.folders, r, false);
  }
}
