/** Shared vocabulary of the file-store model: identifiers, timestamps,
    optional values, the outcome of a request, and the small string
    predicates that the controllers' queries are built from. */
module Common {

  /** Row identifiers (UUIDs in the database) and timestamps (milliseconds). */
  type Id = nat
  type Time = nat

  datatype Option<+T> = None | Some(value: T)

  /** The HTTP outcome of a controller call, one constructor per status family. */
  datatype Status =
    | Ok            // 200 / 201
    | BadRequest    // 400
    | Unauthorized  // 401
    | NotFound      // 404
    | Conflict      // 409
    | Gone          // 410
    | QuotaExceeded // 413
    | ServerError   // 500

  /** JavaScript truthiness of a nullable string column: null and "" are both falsy. */
  predicate IsSet(o: Option<string>) {
    o.Some? && o.value != ""
  }

  /** `s.startsWith(p)`, also SQL `LIKE 'p%'`. */
  predicate StartsWith(s: string, p: string) {
    |p| <= |s| && s[..|p|] == p
  }

  /** SQL `LIKE '%t%'` read as plain substring containment. */
  predicate Contains(s: string, t: string) {
    exists i | 0 <= i <= |s| - |t| :: OccursAt(s, t, i)
  }

  predicate OccursAt(s: string, t: string, i: int) {
    0 <= i && i + |t| <= |s| && s[i..i + |t|] == t
  }

  /** The white space and line terminators JavaScript's `trim()` strips:
      tab, line feed, vertical tab, form feed, carriage return, every space
      separator (U+0020, U+00A0, U+1680, U+2000 to U+200A, U+202F, U+205F,
      U+3000), U+2028, U+2029 and the byte-order mark U+FEFF. */
  predicate IsSpace(c: char) {
    || ('\t' <= c <= '\r')
    || c == ' ' || c == '\U{A0}' || c == '\U{1680}'
    || ('\U{2000}' <= c <= '\U{200A}')
    || c == '\U{2028}' || c == '\U{2029}' || c == '\U{202F}' || c == '\U{205F}'
    || c == '\U{3000}' || c == '\U{FEFF}'
  }

  /** `s[i..j]` is what is left of `s` once white space is cut from both ends. */
  predicate CutsSpace(s: string, i: int, j: int) {
    && 0 <= i <= j <= |s|
    && (forall k :: 0 <= k < i ==> IsSpace(s[k]))
    && (forall k :: j <= k < |s| ==> IsSpace(s[k]))
  }

  /** `s.trim()`: the part of `s` left when white space is cut from both ends. */
  function Trim(s: string): (r: string)
    ensures |r| <= |s|
    ensures r == [] || (!IsSpace(r[0]) && !IsSpace(r[|r| - 1]))
    ensures r == [] <==> forall i :: 0 <= i < |s| ==> IsSpace(s[i])
    ensures exists i, j :: CutsSpace(s, i, j) && r == s[i..j]
    decreases |s|
  {
    if s == [] then
      assert CutsSpace(s, 0, 0);
      []
    else if IsSpace(s[0]) then
      var r := Trim(s[1..]);
      var i, j :| CutsSpace(s[1..], i, j) && r == s[1..][i..j];
      CutFront(s, i, j);
      r
    else if IsSpace(s[|s| - 1]) then
      var r := Trim(s[..|s| - 1]);
      var i, j :| CutsSpace(s[..|s| - 1], i, j) && r == s[..|s| - 1][i..j];
      CutBack(s, i, j);
      r
    else
      assert CutsSpace(s, 0, |s|);
      s
  }

  lemma CutFront(s: string, i: int, j: int)
    requires s != [] && IsSpace(s[0]) && CutsSpace(s[1..], i, j)
    ensures CutsSpace(s, i + 1, j + 1) && s[1..][i..j] == s[i + 1..j + 1]
  {
    forall k | 0 <= k < i + 1 ensures IsSpace(s[k]) {
      if k > 0 { assert s[k] == s[1..][k - 1]; }
    }
    forall k | j + 1 <= k < |s| ensures IsSpace(s[k]) {
      assert s[k] == s[1..][k - 1];
    }
  }

  lemma CutBack(s: string, i: int, j: int)
    requires s != [] && IsSpace(s[|s| - 1]) && CutsSpace(s[..|s| - 1], i, j)
    ensures CutsSpace(s, i, j) && s[..|s| - 1][i..j] == s[i..j]
  {
    forall k | 0 <= k < i ensures IsSpace(s[k]) {
      assert s[k] == s[..|s| - 1][k];
    }
    forall k | j <= k < |s| ensures IsSpace(s[k]) {
      if k < |s| - 1 { assert s[k] == s[..|s| - 1][k]; }
    }
  }

  /** The length of `s` in UTF-16 code units, which is what JavaScript's
      `length` counts: a character above U+FFFF takes two. */
  function Utf16Length(s: string): (n: nat)
    ensures |s| <= n <= 2 * |s|
    ensures (forall i :: 0 <= i < |s| ==> s[i] as int <= 0xFFFF) ==> n == |s|
  {
    if s == [] then 0
    else Utf16Length(s[..|s| - 1]) + (if s[|s| - 1] as int > 0xFFFF then 2 else 1)
  }

  /** Node's `path.join(a, b)` for two plain segments: an empty side disappears. */
  function Join(a: string, b: string): (r: string)
    ensures a == "" ==> r == b
    ensures b == "" ==> r == a
    ensures a != "" && b != "" ==> r == a + "/" + b
  {
    if a == "" then b else if b == "" then a else a + "/" + b
  }

  lemma JoinAssoc(a: string, b: string, c: string)
    ensures Join(Join(a, b), c) == Join(a, Join(b, c))
  {
    if a != "" && b != "" && c != "" {
      assert (a + "/" + b) + "/" + c == a + "/" + (b + "/" + c);
    }
  }

  /** No identifier occurs twice. */
  predicate Distinct(s: seq<Id>) {
    forall i, j :: 0 <= i < j < |s| ==> s[i] != s[j]
  }

  lemma DistinctAppend(a: seq<Id>, b: seq<Id>)
    requires Distinct(a) && Distinct(b)
    requires forall i, j :: 0 <= i < |a| && 0 <= j < |b| ==> a[i] != b[j]
    ensures Distinct(a + b)
  {
  }

  /** The identifiers a sequence mentions. */
  function Elems(s: seq<Id>): set<Id> {
    set x | x in s
  }
}
