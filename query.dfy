/** What the database does with `order: [[column, 'DESC']]` and `limit`:
    the matching rows, highest key first, cut to the first `limit`. Rows
    with equal keys may come in any order. */
module Query {
  import opened Common

  function Min(a: nat, b: nat): nat {
    if a <= b then a else b
  }

  /** Keys never increase along `s`. */
  ghost predicate SortedDesc(s: seq<Id>, key: Id -> int) {
    forall i, j :: 0 <= i < j < |s| ==> key(s[i]) >= key(s[j])
  }

  /** `s` is an answer to `ORDER BY key DESC LIMIT limit` over the rows `S`:
      distinct rows of `S`, as many as the limit allows, sorted, and no row
      left out ranks above a row kept. */
  ghost predicate TopOf(s: seq<Id>, S: set<Id>, key: Id -> int, limit: nat) {
    && Distinct(s)
    && Elems(s) <= S
    && |s| == Min(limit, |S|)
    && SortedDesc(s, key)
    && (forall x, i :: x in S && x !in s && 0 <= i < |s| ==> key(x) <= key(s[i]))
  }

  lemma {:induction false} MaxExists(S: set<Id>, key: Id -> int)
    requires S != {}
    ensures exists m :: m in S && forall y :: y in S ==> key(y) <= key(m)
    decreases |S|
  {
    var x :| x in S;
    if S != {x} {
      MaxExists(S - {x}, key);
      var m :| m in S - {x} && forall y :: y in S - {x} ==> key(y) <= key(m);
      if key(x) > key(m) {
        assert forall y :: y in S ==> key(y) <= key(x);
      } else {
        assert forall y :: y in S ==> key(y) <= key(m);
      }
    } else {
      assert forall y :: y in S ==> key(y) <= key(x);
    }
  }

  /** The rows `S` ordered by `key`, highest first, cut to `limit`:
      repeatedly take a highest-ranked row not yet taken. */
  method SelectTop(S: set<Id>, key: Id -> int, limit: nat) returns (s: seq<Id>)
    ensures TopOf(s, S, key, limit)
    ensures limit >= |S| ==> Elems(s) == S
  {
    s := [];
    var rest := S;
    while |s| < limit && rest != {}
      invariant rest <= S && Elems(s) <= S && rest !! Elems(s) && rest + Elems(s) == S
      invariant Distinct(s) && |s| + |rest| == |S| && |s| <= limit
      invariant SortedDesc(s, key)
      invariant forall x, i :: x in rest && 0 <= i < |s| ==> key(x) <= key(s[i])
      decreases rest
    {
      MaxExists(rest, key);
      var best :| best in rest && forall y :: y in rest ==> key(y) <= key(best);
      TakeBest(s, rest, key, best);
      s := s + [best];
      rest := rest - {best};
    }
  }

  /** One round of the selection keeps its invariant. */
  lemma TakeBest(s: seq<Id>, rest: set<Id>, key: Id -> int, best: Id)
    requires rest !! Elems(s) && Distinct(s) && SortedDesc(s, key)
    requires forall x, i :: x in rest && 0 <= i < |s| ==> key(x) <= key(s[i])
    requires best in rest && forall y :: y in rest ==> key(y) <= key(best)
    ensures Elems(s + [best]) == Elems(s) + {best} && Distinct(s + [best]) && SortedDesc(s + [best], key)
    ensures |rest - {best}| == |rest| - 1 && (rest - {best}) !! Elems(s + [best])
    ensures (rest - {best}) + Elems(s + [best]) == rest + Elems(s)
    ensures forall x, i :: x in rest - {best} && 0 <= i < |s| + 1 ==> key(x) <= key((s + [best])[i])
  {
    TakeBestSeq(s, rest, key, best);
  }

  /** Appending the best remaining row keeps the taken rows distinct and sorted. */
  lemma TakeBestSeq(s: seq<Id>, rest: set<Id>, key: Id -> int, best: Id)
    requires rest !! Elems(s) && Distinct(s) && SortedDesc(s, key)
    requires forall x, i :: x in rest && 0 <= i < |s| ==> key(x) <= key(s[i])
    requires best in rest
    ensures Elems(s + [best]) == Elems(s) + {best} && Distinct(s + [best]) && SortedDesc(s + [best], key)
  {
    var s' := s + [best];
    assert forall i :: 0 <= i < |s| ==> s'[i] == s[i];
    assert Elems(s') == Elems(s) + {best};
  }
}
