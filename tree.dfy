/** The folder hierarchy as a parent map, and the facts about walking it that
    the folder controller relies on: the ancestor walk of `moveFolder`, the
    downward cascades of `deleteFolder`/`restoreFolder` and the archive walk of
    `downloadFolderAsZip`. Walks carry an explicit step budget (fuel); in a
    valid store a budget of one step per folder always suffices. */
module Tree {
  import opened Common
  import opened Rows

  type Parents = map<Id, Option<Id>>

  ghost function ParentsOf(F: map<Id, Folder>): (P: Parents)
    ensures P.Keys == F.Keys
    ensures forall x {:trigger P[x]} :: x in F ==> P[x] == F[x].parentId
  {
    map x | x in F :: F[x].parentId
  }

  /** The ancestor walk from `x` stops (at a root, or at an id with no row)
      within `n` steps. */
  ghost predicate Reaches(P: Parents, x: Id, n: nat)
    decreases n
  {
    x !in P || P[x].None? || (n > 0 && Reaches(P, P[x].value, n - 1))
  }

  /** `r` is met on the ancestor walk from `x` within `n` steps (`x` itself counts). */
  ghost predicate Under(P: Parents, x: Id, r: Id, n: nat)
    decreases n
  {
    x == r || (n > 0 && x in P && P[x].Some? && Under(P, P[x].value, r, n - 1))
  }

  /** Every ancestor walk stops: the parent links form a forest. */
  ghost predicate Acyclic(P: Parents) {
    forall x {:trigger Reaches(P, x, |P|)} :: x in P ==> Reaches(P, x, |P|)
  }

  /** Every parent link names an existing row. */
  ghost predicate Closed(P: Parents) {
    forall x :: x in P && P[x].Some? ==> P[x].value in P
  }

  /** The folders whose ancestor walk meets `r`, `r` included when it exists. */
  ghost function Desc(P: Parents, r: Id): set<Id> {
    set x | x in P && Under(P, x, r, |P|)
  }

  /** Walking up from `x`, every folder before `r` has `isDeleted == del`:
      `x` belongs to the part of `r`'s subtree that a cascade over folders
      flagged `del` visits. */
  ghost predicate Path(F: map<Id, Folder>, x: Id, r: Id, del: bool, n: nat)
    decreases n
  {
    x == r
    || (n > 0 && x in F && F[x].isDeleted == del && F[x].parentId.Some?
        && Path(F, F[x].parentId.value, r, del, n - 1))
  }

  /** The live subtree of `r`: what `deleteFolder` and the archive walks visit. */
  ghost predicate LiveIn(F: map<Id, Folder>, x: Id, r: Id) {
    Path(F, x, r, false, |F|)
  }

  /** The trashed subtree of `r`: what `restoreFolder` visits. */
  ghost predicate TrashedIn(F: map<Id, Folder>, x: Id, r: Id) {
    Path(F, x, r, true, |F|)
  }

  /** The children of `r` the cascades recurse into. */
  function Kids(F: map<Id, Folder>, r: Id, del: bool): set<Id> {
    set s | s in F && F[s].parentId == Some(r) && F[s].isDeleted == del
  }

  /** The folder names met walking up from `y` to `r`, joined root-first: the
      directory of `y` inside an archive of `r`. */
  function RelPath(F: map<Id, Folder>, y: Id, r: Id, n: nat): string
    decreases n
  {
    if y == r || n == 0 || y !in F || F[y].parentId.None? then ""
    else Join(RelPath(F, F[y].parentId.value, r, n - 1), F[y].name)
  }

  // ---------------------------------------------------------------- budgets

  lemma {:induction false} ReachesMono(P: Parents, x: Id, n: nat, m: nat)
    requires Reaches(P, x, n) && n <= m
    ensures Reaches(P, x, m)
    decreases n
  {
    if x in P && P[x].Some? {
      ReachesMono(P, P[x].value, n - 1, m - 1);
    }
  }

  lemma {:induction false} UnderMono(P: Parents, x: Id, r: Id, n: nat, m: nat)
    requires Under(P, x, r, n) && n <= m
    ensures Under(P, x, r, m)
    decreases n
  {
    if x != r {
      UnderMono(P, P[x].value, r, n - 1, m - 1);
    }
  }

  lemma {:induction false} UnderTrans(P: Parents, x: Id, y: Id, z: Id, a: nat, b: nat)
    requires Under(P, x, y, a) && Under(P, y, z, b)
    ensures Under(P, x, z, a + b)
    decreases a
  {
    if x == y {
      UnderMono(P, y, z, b, a + b);
    } else if x != z {
      UnderTrans(P, P[x].value, y, z, a - 1, b);
    }
  }

  /** A meeting found with any budget is found within the budget of a walk that stops. */
  lemma {:induction false} UnderFuel(P: Parents, x: Id, r: Id, n: nat, m: nat)
    requires Under(P, x, r, n) && Reaches(P, x, m)
    ensures Under(P, x, r, m)
    decreases n
  {
    if x != r {
      UnderFuel(P, P[x].value, r, n - 1, m - 1);
    }
  }

  /** A walk that stops stops from every folder it passes. */
  lemma {:induction false} ReachThrough(P: Parents, y: Id, z: Id, a: nat, m: nat)
    requires Under(P, y, z, a) && Reaches(P, y, m)
    ensures Reaches(P, z, m)
    decreases a
  {
    if y != z {
      ReachThrough(P, P[y].value, z, a - 1, m - 1);
      ReachesMono(P, z, m - 1, m);
    }
  }

  /** A folder that is its own ancestor never reaches a root. */
  lemma {:induction false} NoCycle(P: Parents, x: Id, q: Id, a: nat, m: nat)
    requires x in P && P[x] == Some(q) && Under(P, q, x, a)
    ensures !Reaches(P, x, m)
    decreases m
  {
    if Reaches(P, x, m) {
      ReachThrough(P, q, x, a, m - 1);
      NoCycle(P, x, q, a, m - 1);
    }
  }

  lemma NotOwnAncestor(P: Parents, x: Id, a: nat)
    requires Acyclic(P) && x in P && P[x].Some?
    ensures !Under(P, P[x].value, x, a)
  {
    if Under(P, P[x].value, x, a) {
      NoCycle(P, x, P[x].value, a, |P|);
    }
  }

  /** A walk that stops and never enters `V` stops within one step per folder
      outside `V`; with `V` empty, within `|P|` steps. */
  lemma {:induction false} ReachesBound(P: Parents, x: Id, n: nat, V: set<Id>)
    requires Reaches(P, x, n) && V <= P.Keys
    requires forall v, k: nat :: Under(P, x, v, k) ==> v !in V
    ensures Reaches(P, x, |P.Keys - V|)
    decreases |P.Keys - V|
  {
    if x in P && P[x].Some? {
      var q := P[x].value;
      assert Under(P, x, x, 0);
      var W := V + {x};
      forall v, k: nat | Under(P, q, v, k)
        ensures v !in W
      {
        assert Under(P, x, v, k + 1);
        if v == x {
          NoCycle(P, x, q, k, n);
        }
      }
      assert P.Keys - V == (P.Keys - W) + {x};
      ReachesBound(P, q, n - 1, W);
    }
  }

  lemma ReachesAny(P: Parents, x: Id, n: nat)
    requires Reaches(P, x, n)
    ensures Reaches(P, x, |P|)
  {
    ReachesBound(P, x, n, {});
    assert P.Keys - {} == P.Keys;
  }

  // ---------------------------------------------------------------- shape of the forest

  /** Two folders on one ancestor walk are ancestor and descendant of each other. */
  lemma {:induction false} WalkOrder(P: Parents, x: Id, a: Id, b: Id, i: nat, j: nat)
    requires Under(P, x, a, i) && Under(P, x, b, j)
    ensures Under(P, a, b, j) || Under(P, b, a, i)
    decreases i
  {
    if x != a && x != b {
      WalkOrder(P, P[x].value, a, b, i - 1, j - 1);
      if Under(P, a, b, j - 1) {
        UnderMono(P, a, b, j - 1, j);
      } else {
        UnderMono(P, b, a, i - 1, i);
      }
    }
  }

  /** Subtrees of two different children of one folder share no folder. */
  lemma SiblingsDisjoint(P: Parents, r: Id, s1: Id, s2: Id, x: Id, n1: nat, n2: nat)
    requires Acyclic(P)
    requires s1 in P && P[s1] == Some(r) && s2 in P && P[s2] == Some(r) && s1 != s2
    ensures !(Under(P, x, s1, n1) && Under(P, x, s2, n2))
  {
    if Under(P, x, s1, n1) && Under(P, x, s2, n2) {
      WalkOrder(P, x, s1, s2, n1, n2);
      if Under(P, s1, s2, n2) {
        NotOwnAncestor(P, s2, n2 - 1);
      } else {
        NotOwnAncestor(P, s1, n1 - 1);
      }
    }
  }

  /** A child's descendants are strictly fewer than its parent's: the measure
      of every downward recursion over the tree. */
  lemma DescShrinks(P: Parents, r: Id, s: Id)
    requires Acyclic(P) && s in P && P[s] == Some(r) && r in P
    ensures Desc(P, s) < Desc(P, r)
  {
    forall x | x in Desc(P, s)
      ensures x in Desc(P, r)
    {
      assert Under(P, s, r, 1);
      UnderTrans(P, x, s, r, |P|, 1);
      UnderFuel(P, x, r, |P| + 1, |P|);
    }
    assert r in Desc(P, r);
    NotOwnAncestor(P, s, |P|);
    assert r !in Desc(P, s);
  }

  // ---------------------------------------------------------------- changing the forest

  lemma {:induction false} ReachesKeptOffF(P: Parents, f: Id, np: Option<Id>, x: Id, n: nat)
    requires Reaches(P, x, n) && !Under(P, x, f, n)
    ensures Reaches(P[f := np], x, n)
    decreases n
  {
    if x in P && P[x].Some? {
      ReachesKeptOffF(P, f, np, P[x].value, n - 1);
    }
  }

  lemma {:induction false} ReachesViaF(P: Parents, f: Id, np: Option<Id>, x: Id, a: nat, c: nat)
    requires Under(P, x, f, a) && Reaches(P[f := np], f, c)
    ensures Reaches(P[f := np], x, a + c)
    decreases a
  {
    if x == f {
      ReachesMono(P[f := np], f, c, a + c);
    } else {
      ReachesViaF(P, f, np, P[x].value, a - 1, c);
    }
  }

  /** Re-parenting `f` under a folder outside its own subtree (or at the root)
      keeps the forest a forest. */
  lemma MoveKeepsForest(P: Parents, f: Id, np: Option<Id>)
    requires Acyclic(P) && Closed(P) && f in P
    requires np.Some? ==> np.value in P && !Under(P, np.value, f, |P|)
    ensures Acyclic(P[f := np]) && Closed(P[f := np])
  {
    var P' := P[f := np];
    assert P'.Keys == P.Keys;
    assert |P'| == |P|;
    var c: nat := |P| + 1;
    if np.Some? {
      ReachesKeptOffF(P, f, np, np.value, |P|);
      assert Reaches(P', f, c);
    } else {
      assert Reaches(P', f, c);
    }
    forall x | x in P'
      ensures Reaches(P', x, |P'|)
    {
      if Under(P, x, f, |P|) {
        ReachesViaF(P, f, np, x, |P|, c);
        ReachesAny(P', x, |P| + c);
      } else {
        ReachesKeptOffF(P, f, np, x, |P|);
      }
    }
  }

  lemma {:induction false} ReachesKeptByAdd(P: Parents, k: Id, np: Option<Id>, x: Id, n: nat)
    requires Closed(P) && k !in P && x in P && Reaches(P, x, n)
    ensures Reaches(P[k := np], x, n)
    decreases n
  {
    if P[x].Some? {
      ReachesKeptByAdd(P, k, np, P[x].value, n - 1);
    }
  }

  /** Adding a fresh folder under an existing one (or at the root) keeps the forest a forest. */
  lemma AddKeepsForest(P: Parents, k: Id, np: Option<Id>)
    requires Acyclic(P) && Closed(P) && k !in P
    requires np.Some? ==> np.value in P
    ensures Acyclic(P[k := np]) && Closed(P[k := np])
  {
    var P' := P[k := np];
    assert |P'| == |P| + 1;
    forall x | x in P'
      ensures Reaches(P', x, |P'|)
    {
      if x == k {
        if np.Some? {
          ReachesKeptByAdd(P, k, np, np.value, |P|);
        }
      } else {
        ReachesKeptByAdd(P, k, np, x, |P|);
        ReachesMono(P', x, |P|, |P'|);
      }
    }
  }

  // ---------------------------------------------------------------- flagged paths

  lemma {:induction false} PathUnder(F: map<Id, Folder>, x: Id, r: Id, del: bool, n: nat)
    requires Path(F, x, r, del, n)
    ensures Under(ParentsOf(F), x, r, n)
    decreases n
  {
    if x != r {
      PathUnder(F, F[x].parentId.value, r, del, n - 1);
    }
  }

  lemma {:induction false} PathMono(F: map<Id, Folder>, x: Id, r: Id, del: bool, n: nat, m: nat)
    requires Path(F, x, r, del, n) && n <= m
    ensures Path(F, x, r, del, m)
    decreases n
  {
    if x != r {
      PathMono(F, F[x].parentId.value, r, del, n - 1, m - 1);
    }
  }

  lemma {:induction false} PathFuel(F: map<Id, Folder>, x: Id, r: Id, del: bool, n: nat, m: nat)
    requires Path(F, x, r, del, n) && Reaches(ParentsOf(F), x, m)
    ensures Path(F, x, r, del, m)
    decreases n
  {
    if x != r {
      PathFuel(F, F[x].parentId.value, r, del, n - 1, m - 1);
    }
  }

  /** In a forest, every flagged path fits the canonical budget. */
  lemma PathCanon(F: map<Id, Folder>, x: Id, r: Id, del: bool, n: nat)
    requires Acyclic(ParentsOf(F)) && Path(F, x, r, del, n)
    ensures Path(F, x, r, del, |F|)
  {
    if x != r {
      PathFuel(F, x, r, del, n, |F|);
    }
  }

  /** A folder other than `r` in a flagged subtree of `r` lies in the flagged
      subtree of one flagged child of `r`. */
  lemma {:induction false} PathSplit(F: map<Id, Folder>, r: Id, x: Id, del: bool, n: nat) returns (s: Id)
    requires x != r && Path(F, x, r, del, n)
    ensures s in Kids(F, r, del) && Path(F, x, s, del, n - 1)
    decreases n
  {
    var q := F[x].parentId.value;
    if q == r {
      s := x;
    } else {
      s := PathSplit(F, r, q, del, n - 1);
      assert Path(F, x, s, del, n - 1);
    }
  }

  /** Conversely, the flagged subtree of a flagged child lies in its parent's,
      without the parent itself. */
  lemma {:induction false} PathJoin(F: map<Id, Folder>, r: Id, s: Id, x: Id, del: bool, n: nat)
    requires s in Kids(F, r, del) && Path(F, x, s, del, n)
    ensures Path(F, x, r, del, n + 1)
    decreases n
  {
    if x != s {
      PathJoin(F, r, s, F[x].parentId.value, del, n - 1);
    }
  }

  lemma PathJoinCanon(F: map<Id, Folder>, r: Id, s: Id, x: Id, del: bool)
    requires Acyclic(ParentsOf(F))
    requires s in Kids(F, r, del) && Path(F, x, s, del, |F|)
    ensures Path(F, x, r, del, |F|) && x != r
  {
    var P := ParentsOf(F);
    PathJoin(F, r, s, x, del, |F|);
    PathCanon(F, x, r, del, |F| + 1);
    if x == r {
      PathUnder(F, r, s, del, |F|);
      NotOwnAncestor(P, s, |F|);
    }
  }

  /** Only the flags strictly below `r` matter for the flagged subtree of `r`. */
  lemma {:induction false} PathFrame(F: map<Id, Folder>, G: map<Id, Folder>, x: Id, r: Id, del: bool, n: nat)
    requires ParentsOf(F) == ParentsOf(G) && Acyclic(ParentsOf(F))
    requires forall y :: y in Desc(ParentsOf(F), r) && y != r ==> F[y].isDeleted == G[y].isDeleted
    ensures Path(F, x, r, del, n) <==> Path(G, x, r, del, n)
    decreases n
  {
    var P := ParentsOf(F);
    assert F.Keys == G.Keys;
    if x != r && n > 0 && x in F && F[x].parentId.Some? {
      assert G[x].parentId == F[x].parentId;
      var q := F[x].parentId.value;
      PathFrame(F, G, q, r, del, n - 1);
      if Path(F, x, r, del, n) || Path(G, x, r, del, n) {
        if Path(F, x, r, del, n) {
          PathUnder(F, x, r, del, n);
        } else {
          PathUnder(G, x, r, del, n);
        }
        UnderFuel(P, x, r, n, |P|);
        assert x in Desc(P, r);
      }
    }
  }

  // ---------------------------------------------------------------- archive paths

  lemma {:induction false} RelPathFuel(F: map<Id, Folder>, y: Id, r: Id, n: nat, m: nat)
    requires Under(ParentsOf(F), y, r, n) && Reaches(ParentsOf(F), y, m)
    ensures RelPath(F, y, r, n) == RelPath(F, y, r, m)
    decreases n
  {
    if y != r {
      RelPathFuel(F, F[y].parentId.value, r, n - 1, m - 1);
    }
  }

  /** The archive directory of `y` seen from `r` is the name of `r`'s child `s`
      followed by the directory of `y` seen from `s`. */
  lemma {:induction false} RelPathSplit(F: map<Id, Folder>, r: Id, s: Id, y: Id, n: nat)
    requires Acyclic(ParentsOf(F))
    requires s in F && F[s].parentId == Some(r) && Under(ParentsOf(F), y, s, n)
    ensures RelPath(F, y, r, n + 1) == Join(F[s].name, RelPath(F, y, s, n))
    decreases n
  {
    var P := ParentsOf(F);
    NotOwnAncestor(P, s, 0);
    if y != s {
      var q := F[y].parentId.value;
      if y == r {
        UnderTrans(P, r, y, s, 0, n);
        NotOwnAncestor(P, s, n);
      }
      RelPathSplit(F, r, s, q, n - 1);
      JoinAssoc(F[s].name, RelPath(F, q, s, n - 1), F[y].name);
    }
  }

  /** Canonical-budget form of `RelPathSplit`, the step the archive recursion takes. */
  lemma RelPathStep(F: map<Id, Folder>, r: Id, s: Id, y: Id, base: string)
    requires Acyclic(ParentsOf(F))
    requires s in F && F[s].parentId == Some(r) && Under(ParentsOf(F), y, s, |F|)
    ensures Join(base, RelPath(F, y, r, |F|))
         == Join(Join(base, F[s].name), RelPath(F, y, s, |F|))
  {
    var P := ParentsOf(F);
    RelPathSplit(F, r, s, y, |F|);
    assert Under(P, s, r, 1);
    UnderTrans(P, y, s, r, |F|, 1);
    assert y in P;
    RelPathFuel(F, y, r, |F| + 1, |F|);
    JoinAssoc(base, F[s].name, RelPath(F, y, s, |F|));
  }
}
