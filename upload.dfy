/** The upload middleware (backend/src/middleware/upload.js): the name under
    which multer stores each part, the MIME blacklist, and the count and size
    limits. The directory creation around it is I/O and not modelled. */
module UploadRules {
  import opened Common
  import opened Rows
  import opened Quota
  import opened HexCodec

  // ---------------------------------------------------------------- stored name

  /** The characters `/[^a-zA-Z0-9-_]/g` leaves alone. */
  predicate SafeChar(c: char) {
    'a' <= c <= 'z' || 'A' <= c <= 'Z' || '0' <= c <= '9' || c == '-' || c == '_'
  }

  /** `name.replace(/[^a-zA-Z0-9-_]/g, '_')`. */
  function Sanitize(s: string): (r: string)
    ensures |r| == |s|
    ensures forall i :: 0 <= i < |s| ==> SafeChar(r[i])
    ensures forall i :: 0 <= i < |s| ==> r[i] == (if SafeChar(s[i]) then s[i] else '_')
  {
    if s == [] then [] else Sanitize(s[..|s| - 1]) + [if SafeChar(s[|s| - 1]) then s[|s| - 1] else '_']
  }

  /** A name made only of safe characters is left as it is, so sanitising twice
      is sanitising once. */
  lemma SanitizeIdempotent(s: string)
    ensures (forall i :: 0 <= i < |s| ==> SafeChar(s[i])) ==> Sanitize(s) == s
    ensures Sanitize(Sanitize(s)) == Sanitize(s)
  {
  }

  /** The position of the last '.' in `s`, if any. */
  function LastDot(s: string): (r: Option<nat>)
    ensures r.Some? ==> r.value < |s| && s[r.value] == '.' && forall j :: r.value < j < |s| ==> s[j] != '.'
    ensures r.None? ==> forall j :: 0 <= j < |s| ==> s[j] != '.'
  {
    if s == [] then None
    else if s[|s| - 1] == '.' then Some(|s| - 1)
    else LastDot(s[..|s| - 1])
  }

  /** `path.extname` of a name without '/': from the last '.' on, except
      that a name with no dot, a name whose only dot-started part is the
      whole name (".bashrc"), and the name ".." have none. */
  function ExtName(s: string): (e: string)
    ensures e == "" || (e[0] == '.' && forall j :: 0 < j < |e| ==> e[j] != '.')
    ensures |e| <= |s| && e == s[|s| - |e|..]
    ensures e == "" <==> s == ".." || forall j :: 0 < j < |s| ==> s[j] != '.'
  {
    match LastDot(s)
    case None => ""
    case Some(d) => if d == 0 || s == ".." then "" else s[d..]
  }

  /** `path.basename(originalname, ext)`: the name without its extension. */
  function BaseName(s: string): (b: string)
    ensures b + ExtName(s) == s
  {
    s[..|s| - |ExtName(s)|]
  }

  /** `String(n)` for a natural number. */
  function Decimal(n: nat): (s: string)
    ensures s != "" && forall i :: 0 <= i < |s| ==> '0' <= s[i] <= '9'
  {
    var d := ['0' + (n % 10) as char];
    if n < 10 then d else Decimal(n / 10) + d
  }

  /** `Date.now() + '-' + crypto.randomBytes(6).toString('hex')`. */
  function UniqueSuffix(now: nat, random: seq<Byte>): string {
    Decimal(now) + "-" + Hex(random)
  }

  /** The multer `filename` callback: sanitised base, '-', the suffix, and
      the original extension as it was. */
  function StoredName(originalName: string, suffix: string): string {
    Sanitize(BaseName(originalName)) + "-" + suffix + ExtName(originalName)
  }

  /** A suffix made of digits, '-' and hex digits has no dot. */
  lemma SuffixHasNoDot(now: nat, random: seq<Byte>)
    ensures forall j :: 0 <= j < |UniqueSuffix(now, random)| ==> UniqueSuffix(now, random)[j] != '.'
  {
    UnhexHex(random);
    var d, h := Decimal(now), Hex(random);
    var s := d + "-" + h;
    forall j | 0 <= j < |s|
      ensures s[j] != '.'
    {
      if j > |d| {
        assert s[j] == h[j - |d| - 1];
        assert IsHexDigit(h[j - |d| - 1]);
      }
    }
  }

  /** The stored name keeps the extension of the client's name: reading the
      extension back from the stored name gives the original one. */
  lemma StoredNameKeepsExtension(originalName: string, now: nat, random: seq<Byte>)
    ensures ExtName(StoredName(originalName, UniqueSuffix(now, random))) == ExtName(originalName)
  {
    var suffix := UniqueSuffix(now, random);
    SuffixHasNoDot(now, random);
    var e := ExtName(originalName);
    var head := Sanitize(BaseName(originalName)) + "-" + suffix;
    var r := head + e;
    assert r == StoredName(originalName, suffix);
    assert forall j :: 0 <= j < |head| ==> head[j] != '.' by {
      forall j | 0 <= j < |head|
        ensures head[j] != '.'
      {
        var b := Sanitize(BaseName(originalName));
        if j < |b| {
          assert SafeChar(b[j]);
        } else if j > |b| {
          assert head[j] == suffix[j - |b| - 1];
        }
      }
    }
    if e == "" {
      assert r == head;
      assert LastDot(r).None?;
    } else {
      assert r[|head|] == '.';
      assert forall j :: |head| < j < |r| ==> r[j] == e[j - |head|];
      LastDotIs(r, |head|);
      assert r[|head|..] == e;
      assert r != "..";
    }
  }

  lemma LastDotIs(s: string, d: nat)
    requires d < |s| && s[d] == '.' && forall j :: 0 <= j < |s| && j != d ==> s[j] != '.'
    ensures LastDot(s) == Some(d)
  {
    assert !(forall j :: 0 <= j < |s| ==> s[j] != '.');
  }

  // ---------------------------------------------------------------- filter and limits

  /** The MIME types multer refuses: Windows and DOS executables, shell
      scripts, ELF executables. */
  const ForbiddenTypes: set<string> :=
    {"application/x-msdownload", "application/x-msdos-program", "application/x-sh", "application/x-executable"}

  /** `fileFilter`: every other type is accepted. */
  function FileFilter(mimeType: string): (accepted: bool)
    ensures !accepted <==> (
      mimeType == "application/x-msdownload" || mimeType == "application/x-msdos-program"
      || mimeType == "application/x-sh" || mimeType == "application/x-executable")
  {
    mimeType !in ForbiddenTypes
  }

  /** `limits`: 5 GiB per part and 10 parts per request. */
  const MaxFileSize: nat := 5 * 1024 * 1024 * 1024
  const MaxFiles: nat := 10

  /** What multer lets through to the quota gate. */
  predicate Admitted(parts: seq<Upload>) {
    && |parts| <= MaxFiles
    && (forall i :: 0 <= i < |parts| ==> parts[i].size <= MaxFileSize && FileFilter(parts[i].mimetype))
  }

  /** An admitted request charges the quota gate at most 50 GiB, and each of
      its parts at most 5 GiB. */
  lemma AdmittedBound(parts: seq<Upload>)
    requires Admitted(parts)
    ensures RequestSize(Many(parts)) <= MaxFiles * MaxFileSize
    ensures forall i :: 0 <= i < |parts| ==> parts[i].size <= RequestSize(Many(parts))
  {
    SumSizesBounds(parts, MaxFileSize);
    assert |parts| * MaxFileSize <= MaxFiles * MaxFileSize;
  }
}
