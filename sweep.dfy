/** What the soft-delete and restore cascades of the folder controller do to
    the tables, stated as "these folders and the files in those folders were
    flipped, nothing else changed", and the facts that let the recursive
    cascades be proved against that statement. `del` is the flag the cascade
    looks for: `false` for the delete cascade (it visits live rows and trashes
    them), `true` for the restore cascade (it visits trashed rows and revives
    them). */
module Sweep {
  import opened Common
  import opened Rows
  import opened Tree

  /** `g` is `f` after the cascade flipped it: trashed with a stamp taken in
      `[lo, hi]`, or revived with the stamp cleared. */
  predicate FolderFlip(f: Folder, g: Folder, del: bool, lo: Time, hi: Time) {
    if del then g == f.(isDeleted := false, deletedAt := None)
    else g.deletedAt.Some? && lo <= g.deletedAt.value <= hi
         && g == f.(isDeleted := true, deletedAt := g.deletedAt)
  }

  predicate FileFlip(f: File, g: File, del: bool, lo: Time, hi: Time) {
    if del then g == f.(isDeleted := false, deletedAt := None)
    else g.deletedAt.Some? && lo <= g.deletedAt.value <= hi
         && g == f.(isDeleted := true, deletedAt := g.deletedAt)
  }

  /** A file the cascade over folders `A` catches: flagged `del` and inside one of them. */
  predicate Hit(f: File, A: set<Id>, del: bool) {
    f.isDeleted == del && f.folderId.Some? && f.folderId.value in A
  }

  /** From `F, G` to `F', G'` exactly the folders `A` and the `del`-flagged files
      inside the folders `B` were flipped; every other row is unchanged. */
  ghost predicate FlippedSets(F: map<Id, Folder>, F': map<Id, Folder>, G: map<Id, File>, G': map<Id, File>,
                              A: set<Id>, B: set<Id>, del: bool, lo: Time, hi: Time)
  {
    && F'.Keys == F.Keys && G'.Keys == G.Keys
    && (forall x :: x in F ==> if x in A then FolderFlip(F[x], F'[x], del, lo, hi) else F'[x] == F[x])
    && (forall k :: k in G ==> if Hit(G[k], B, del) then FileFlip(G[k], G'[k], del, lo, hi) else G'[k] == G[k])
  }

  /** `r` together with every folder the cascade from `r` reaches: those whose
      walk up to `r` passes only through folders flagged `del`. */
  ghost function Subtree(F: map<Id, Folder>, r: Id, del: bool): set<Id> {
    set x | x in F && Path(F, x, r, del, |F|)
  }

  /** The part of `Subtree` strictly below `r`: what the recursive helper flips. */
  ghost function Below(F: map<Id, Folder>, r: Id, del: bool): set<Id> {
    set x | x in F && x != r && Path(F, x, r, del, |F|)
  }

  /** Two cascade steps in a row are one cascade step over the union. */
  lemma Compose(F0: map<Id, Folder>, F1: map<Id, Folder>, F2: map<Id, Folder>,
                G0: map<Id, File>, G1: map<Id, File>, G2: map<Id, File>,
                A1: set<Id>, B1: set<Id>, A2: set<Id>, B2: set<Id>, del: bool,
                lo: Time, mid: Time, lo2: Time, hi: Time)
    requires FlippedSets(F0, F1, G0, G1, A1, B1, del, lo, mid)
    requires FlippedSets(F1, F2, G1, G2, A2, B2, del, lo2, hi)
    requires lo <= lo2 && mid <= hi
    ensures FlippedSets(F0, F2, G0, G2, A1 + A2, B1 + B2, del, lo, hi)
  {
    forall k | k in G0
      ensures if Hit(G0[k], B1 + B2, del) then FileFlip(G0[k], G2[k], del, lo, hi) else G2[k] == G0[k]
    {
      if Hit(G0[k], B1, del) {
        assert !Hit(G1[k], B2, del);
      }
    }
  }

  lemma FlipKeepsShape(F: map<Id, Folder>, F': map<Id, Folder>, G: map<Id, File>, G': map<Id, File>,
                       A: set<Id>, B: set<Id>, del: bool, lo: Time, hi: Time)
    requires FlippedSets(F, F', G, G', A, B, del, lo, hi)
    ensures ParentsOf(F') == ParentsOf(F)
    ensures forall x :: x in F ==> F'[x].userId == F[x].userId && F'[x].parentId == F[x].parentId
    ensures forall k :: k in G ==> G'[k].userId == G[k].userId && G'[k].folderId == G[k].folderId
  {
  }

  /** The cascade from one child of `r` neither sees nor touches what the
      cascades from the other children flipped. */
  lemma ChildFrame(F0: map<Id, Folder>, F1: map<Id, Folder>, r: Id, s: Id, Z: set<Id>, del: bool)
    requires Acyclic(ParentsOf(F0)) && ParentsOf(F1) == ParentsOf(F0)
    requires forall x :: x in F0 && x !in Z && x != s ==> F1[x] == F0[x]
    requires forall x :: x in Z ==> x !in Desc(ParentsOf(F0), s)
    ensures Below(F1, s, del) == Below(F0, s, del)
  {
    var P := ParentsOf(F0);
    forall y | y in Desc(P, s) && y != s
      ensures F0[y].isDeleted == F1[y].isDeleted
    {
    }
    forall x
      ensures Path(F0, x, s, del, |F0|) <==> Path(F1, x, s, del, |F0|)
    {
      PathFrame(F0, F1, x, s, del, |F0|);
    }
    assert |F1| == |F0| by {
      assert F1.Keys == F0.Keys;
    }
  }

  /** The subtree of one child lies in the subtree of the parent and is
      disjoint from every folder below a sibling. */
  lemma ChildSubtree(F: map<Id, Folder>, r: Id, s: Id, del: bool)
    requires Acyclic(ParentsOf(F)) && s in Kids(F, r, del)
    ensures Below(F, s, del) + {s} <= Below(F, r, del)
    ensures forall s2, x :: s2 in Kids(F, r, del) && s2 != s && x in Below(F, s, del) + {s}
              ==> x !in Desc(ParentsOf(F), s2)
  {
    var P := ParentsOf(F);
    forall x | x in Below(F, s, del) + {s}
      ensures x in Below(F, r, del)
    {
      PathJoinCanon(F, r, s, x, del);
    }
    forall s2, x | s2 in Kids(F, r, del) && s2 != s && x in Below(F, s, del) + {s}
      ensures x !in Desc(P, s2)
    {
      PathUnder(F, x, s, del, |F|);
      SiblingsDisjoint(P, r, s, s2, x, |F|, |P|);
    }
  }

  /** Everything below `r` is below one of `r`'s flagged children, or is that child. */
  lemma BelowCovered(F: map<Id, Folder>, r: Id, del: bool, x: Id) returns (s: Id)
    requires Acyclic(ParentsOf(F)) && x in Below(F, r, del)
    ensures s in Kids(F, r, del) && Path(F, x, s, del, |F|)
  {
    s := PathSplit(F, r, x, del, |F|);
    PathMono(F, x, s, del, |F| - 1, |F|);
  }

  // ---------------------------------------------------------------- the loop over the children

  /** How far the loop over the flagged children `kids` of `r` has got: `subs`
      are still to visit, `Z` is everything the visited ones flipped, and none
      of it lies below a child still to visit. */
  ghost predicate Progress(F0: map<Id, Folder>, r: Id, kids: set<Id>, subs: set<Id>, Z: set<Id>, del: bool) {
    && subs <= kids
    && Z <= Below(F0, r, del)
    && (forall s, x :: s in kids - subs && x in F0 && Path(F0, x, s, del, |F0|) ==> x in Z)
    && (forall s, x :: s in subs && x in Z ==> x !in Desc(ParentsOf(F0), s))
  }

  /** Once every child was visited, the loop has flipped exactly what lies below `r`. */
  lemma ProgressDone(F0: map<Id, Folder>, r: Id, kids: set<Id>, Z: set<Id>, del: bool)
    requires Acyclic(ParentsOf(F0)) && kids == Kids(F0, r, del)
    requires Progress(F0, r, kids, {}, Z, del)
    ensures Z == Below(F0, r, del)
  {
    forall x | x in Below(F0, r, del)
      ensures x in Z
    {
      var s := BelowCovered(F0, r, del, x);
    }
  }

  /** Before the cascade from the child `s` starts (the restore cascade has
      already revived `s` itself), the part below `s` is as it was when the loop
      began, the tree is unchanged, and `s` ranks below `r`. */
  lemma ChildEnter(F0: map<Id, Folder>, F1: map<Id, Folder>, G0: map<Id, File>, G1: map<Id, File>,
                   r: Id, s: Id, kids: set<Id>, subs: set<Id>, Z: set<Id>, A: set<Id>, B: set<Id>,
                   del: bool, lo: Time, hi: Time)
    requires Acyclic(ParentsOf(F0)) && r in F0 && kids == Kids(F0, r, del) && s in subs
    requires Progress(F0, r, kids, subs, Z, del)
    requires FlippedSets(F0, F1, G0, G1, A, B, del, lo, hi) && A <= Z + {s}
    ensures s in F1 && ParentsOf(F1) == ParentsOf(F0)
    ensures Below(F1, s, del) == Below(F0, s, del)
    ensures Desc(ParentsOf(F0), s) < Desc(ParentsOf(F0), r)
  {
    FlipKeepsShape(F0, F1, G0, G1, A, B, del, lo, hi);
    ChildFrame(F0, F1, r, s, Z, del);
    DescShrinks(ParentsOf(F0), r, s);
  }

  /** After the child `s` and its subtree were flipped, the loop has progressed past `s`. */
  lemma ChildLeave(F0: map<Id, Folder>, r: Id, s: Id, kids: set<Id>, subs: set<Id>, Z: set<Id>, del: bool)
    requires Acyclic(ParentsOf(F0)) && kids == Kids(F0, r, del) && s in subs
    requires Progress(F0, r, kids, subs, Z, del)
    ensures Progress(F0, r, kids, subs - {s}, Z + (Below(F0, s, del) + {s}), del)
  {
    ChildSubtree(F0, r, s, del);
    var Z' := Z + (Below(F0, s, del) + {s});
    forall s2, x | s2 in kids - (subs - {s}) && x in F0 && Path(F0, x, s2, del, |F0|)
      ensures x in Z'
    {
      if s2 == s && x != s {
        assert x in Below(F0, s, del);
      }
    }
  }

  /** One turn of the loop: the child `s` and everything the cascade from `s`
      reaches were flipped, so the loop has progressed past `s`. */
  lemma ChildTurn(F0: map<Id, Folder>, F1: map<Id, Folder>, F2: map<Id, Folder>,
                  G0: map<Id, File>, G1: map<Id, File>, G2: map<Id, File>,
                  r: Id, s: Id, kids: set<Id>, subs: set<Id>, Z: set<Id>,
                  del: bool, lo: Time, mid: Time, hi: Time)
    requires Acyclic(ParentsOf(F0)) && kids == Kids(F0, r, del) && s in subs
    requires Progress(F0, r, kids, subs, Z, del)
    requires FlippedSets(F0, F1, G0, G1, Z, Z + {r}, del, lo, mid)
    requires FlippedSets(F1, F2, G1, G2, Below(F0, s, del) + {s}, Below(F0, s, del) + {s}, del, mid, hi)
    requires lo <= mid <= hi
    ensures Progress(F0, r, kids, subs - {s}, Z + (Below(F0, s, del) + {s}), del)
    ensures FlippedSets(F0, F2, G0, G2, Z + (Below(F0, s, del) + {s}), Z + (Below(F0, s, del) + {s}) + {r}, del, lo, hi)
    ensures ParentsOf(F2) == ParentsOf(F0)
  {
    var B := Below(F0, s, del) + {s};
    ChildLeave(F0, r, s, kids, subs, Z, del);
    Compose(F0, F1, F2, G0, G1, G2, Z, Z + {r}, B, B, del, lo, mid, mid, hi);
    assert Z + {r} + B == Z + B + {r};
    FlipKeepsShape(F0, F2, G0, G2, Z + B, Z + B + {r}, del, lo, hi);
  }

  /** The delete cascade below `s` followed by trashing `s` at time `t` flips
      the whole subtree of `s`. */
  lemma TrashAfter(F0: map<Id, Folder>, F1: map<Id, Folder>, G0: map<Id, File>, G1: map<Id, File>,
                   s: Id, lo: Time, hi: Time, t: Time)
    requires s in F0 && lo <= hi <= t
    requires FlippedSets(F0, F1, G0, G1, Below(F0, s, false), Below(F0, s, false) + {s}, false, lo, hi)
    ensures FlippedSets(F0, F1[s := F1[s].(isDeleted := true, deletedAt := Some(t))], G0, G1,
                        Below(F0, s, false) + {s}, Below(F0, s, false) + {s}, false, lo, t)
    ensures ParentsOf(F1[s := F1[s].(isDeleted := true, deletedAt := Some(t))]) == ParentsOf(F0)
  {
    var B := Below(F0, s, false);
    FlipKeepsShape(F0, F1, G0, G1, B, B + {s}, false, lo, hi);
    assert s in F1;
    MarkTrashed(F1, G1, s, t);
    Compose(F0, F1, F1[s := F1[s].(isDeleted := true, deletedAt := Some(t))], G0, G1, G1,
            B, B + {s}, {s}, {}, false, lo, hi, t, t);
    assert B + {s} + {} == B + {s};
  }

  /** Reviving `s` leaves what the restore cascade from `s` will reach unchanged. */
  lemma ReviveFirst(F0: map<Id, Folder>, G0: map<Id, File>, s: Id)
    requires Acyclic(ParentsOf(F0)) && s in F0
    ensures Below(F0[s := F0[s].(isDeleted := false, deletedAt := None)], s, true) == Below(F0, s, true)
  {
    MarkRevived(F0, G0, s);
    ChildFrame(F0, F0[s := F0[s].(isDeleted := false, deletedAt := None)], s, s, {}, true);
  }

  /** Reviving `s` and then the restore cascade below it flips the whole subtree of `s`. */
  lemma ReviveThen(F0: map<Id, Folder>, F1: map<Id, Folder>, F2: map<Id, Folder>,
                   G0: map<Id, File>, G2: map<Id, File>, s: Id)
    requires s in F0 && F1 == F0[s := F0[s].(isDeleted := false, deletedAt := None)]
    requires FlippedSets(F1, F2, G0, G2, Below(F0, s, true), Below(F0, s, true) + {s}, true, 0, 0)
    ensures FlippedSets(F0, F2, G0, G2, Below(F0, s, true) + {s}, Below(F0, s, true) + {s}, true, 0, 0)
    ensures ParentsOf(F2) == ParentsOf(F0)
  {
    var B := Below(F0, s, true);
    MarkRevived(F0, G0, s);
    Compose(F0, F1, F2, G0, G0, G2, {s}, {}, B, B + {s}, true, 0, 0, 0, 0);
    assert {s} + B == B + {s};
    assert {} + (B + {s}) == B + {s};
    FlipKeepsShape(F0, F2, G0, G2, B + {s}, B + {s}, true, 0, 0);
  }

  /** The bulk update at the head of the delete helper: every live file of
      folder `r` is trashed with the stamp `t`. */
  function TrashFiles(G: map<Id, File>, r: Id, t: Time): map<Id, File> {
    map k | k in G :: if Hit(G[k], {r}, false) then G[k].(isDeleted := true, deletedAt := Some(t)) else G[k]
  }

  /** The bulk update at the head of the restore helper: every trashed file of
      folder `r` is revived. */
  function ReviveFiles(G: map<Id, File>, r: Id): map<Id, File> {
    map k | k in G :: if Hit(G[k], {r}, true) then G[k].(isDeleted := false, deletedAt := None) else G[k]
  }

  lemma TrashFilesFlips(F: map<Id, Folder>, G: map<Id, File>, r: Id, t: Time)
    ensures FlippedSets(F, F, G, TrashFiles(G, r, t), {}, {r}, false, t, t)
  {
  }

  lemma ReviveFilesFlips(F: map<Id, Folder>, G: map<Id, File>, r: Id)
    ensures FlippedSets(F, F, G, ReviveFiles(G, r), {}, {r}, true, 0, 0)
  {
  }

  /** Trashing the single folder `s` at time `t` is a cascade step of its own. */
  lemma MarkTrashed(F: map<Id, Folder>, G: map<Id, File>, s: Id, t: Time)
    requires s in F
    ensures FlippedSets(F, F[s := F[s].(isDeleted := true, deletedAt := Some(t))], G, G, {s}, {}, false, t, t)
    ensures ParentsOf(F[s := F[s].(isDeleted := true, deletedAt := Some(t))]) == ParentsOf(F)
  {
    assert F[s := F[s].(isDeleted := true, deletedAt := Some(t))].Keys == F.Keys;
  }

  /** Reviving the single folder `s` is a cascade step of its own. */
  lemma MarkRevived(F: map<Id, Folder>, G: map<Id, File>, s: Id)
    requires s in F
    ensures FlippedSets(F, F[s := F[s].(isDeleted := false, deletedAt := None)], G, G, {s}, {}, true, 0, 0)
    ensures ParentsOf(F[s := F[s].(isDeleted := false, deletedAt := None)]) == ParentsOf(F)
  {
    assert F[s := F[s].(isDeleted := false, deletedAt := None)].Keys == F.Keys;
  }

  /** The folder a cascade starts from is its own subtree's top. */
  lemma SubtreeTop(F: map<Id, Folder>, r: Id, del: bool)
    requires r in F
    ensures Subtree(F, r, del) == Below(F, r, del) + {r}
  {
    assert Path(F, r, r, del, |F|);
  }

  // ---------------------------------------------------------------- properties of the cascades

  /** After the delete cascade from a live `r`, nothing below `r` is reachable
      through live folders any more, and no file in its former subtree is live. */
  lemma DeleteLeavesNothingLive(F: map<Id, Folder>, F': map<Id, Folder>, G: map<Id, File>, G': map<Id, File>,
                                r: Id, lo: Time, hi: Time)
    requires Acyclic(ParentsOf(F))
    requires FlippedSets(F, F', G, G', Subtree(F, r, false), Subtree(F, r, false), false, lo, hi)
    ensures Below(F', r, false) == {}
    ensures forall k :: k in G' && G'[k].folderId.Some? && G'[k].folderId.value in Subtree(F, r, false)
              ==> G'[k].isDeleted
  {
    FlipKeepsShape(F, F', G, G', Subtree(F, r, false), Subtree(F, r, false), false, lo, hi);
    if x :| x in Below(F', r, false) {
      var s := BelowCovered(F', r, false, x);
      assert Path(F, s, r, false, 1);
      PathCanon(F, s, r, false, 1);
    }
  }

  /** The flagged walk from `x` to `r` through live folders becomes a walk
      through trashed folders once those folders were all trashed. */
  lemma {:induction false} PathFlipped(F: map<Id, Folder>, F': map<Id, Folder>, G: map<Id, File>, G': map<Id, File>,
                                       r: Id, x: Id, n: nat, lo: Time, hi: Time)
    requires Acyclic(ParentsOf(F))
    requires FlippedSets(F, F', G, G', Subtree(F, r, false), Subtree(F, r, false), false, lo, hi)
    requires Path(F, x, r, false, n)
    ensures Path(F', x, r, true, n)
    decreases n
  {
    if x != r {
      PathCanon(F, x, r, false, n);
      assert x in Subtree(F, r, false);
      PathFlipped(F, F', G, G', r, F[x].parentId.value, n - 1, lo, hi);
    }
  }

  /** Deleting a live folder and then restoring it brings back every row the
      delete trashed, with the stamp cleared; it also revives files of that
      subtree that were trashed on their own before the delete. */
  lemma DeleteRestoreRoundTrip(F: map<Id, Folder>, F1: map<Id, Folder>, F2: map<Id, Folder>,
                               G: map<Id, File>, G1: map<Id, File>, G2: map<Id, File>,
                               r: Id, lo: Time, hi: Time, lo': Time, hi': Time)
    requires Acyclic(ParentsOf(F)) && r in F && !F[r].isDeleted
    requires FlippedSets(F, F1, G, G1, Subtree(F, r, false), Subtree(F, r, false), false, lo, hi)
    requires FlippedSets(F1, F2, G1, G2, Subtree(F1, r, true), Subtree(F1, r, true), true, lo', hi')
    ensures forall x :: x in Subtree(F, r, false) ==> F2[x] == F[x].(deletedAt := None)
    ensures forall k :: k in G && G[k].folderId.Some? && G[k].folderId.value in Subtree(F, r, false)
              ==> G2[k] == G[k].(isDeleted := false, deletedAt := None)
  {
    FlipKeepsShape(F, F1, G, G1, Subtree(F, r, false), Subtree(F, r, false), false, lo, hi);
    assert |F1| == |F| by {
      assert F1.Keys == F.Keys;
    }
    forall x | x in Subtree(F, r, false)
      ensures x in Subtree(F1, r, true)
    {
      PathFlipped(F, F1, G, G1, r, x, |F|, lo, hi);
    }
  }
}
