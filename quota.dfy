/** The storage-quota gate that runs between multer and the upload
    controller (backend/src/middleware/validatestorage.js). It only reads
    the user row. */
module Quota {
  import opened Common
  import opened Rows

  /** What multer left on the request: `req.files` (an array, possibly
      empty), else `req.file`, else nothing. */
  datatype Payload = Many(files: seq<Upload>) | One(file: Upload) | NoFile

  /** `files.reduce((sum, file) => sum + file.size, 0)`, folded from the left. */
  function SumSizes(items: seq<Upload>): nat {
    if items == [] then 0 else SumSizes(items[..|items| - 1]) + items[|items| - 1].size
  }

  /** The size the gate charges for a request. */
  function RequestSize(p: Payload): (n: nat)
    ensures p.Many? ==> n == SumSizes(p.files)
    ensures p.One? ==> n == p.file.size
    ensures p.NoFile? ==> n == 0
  {
    match p
    case Many(files) => SumSizes(files)
    case One(file) => file.size
    case NoFile => 0
  }

  /** The gate's answer: pass on to the controller, or refuse with the
      fields of the 404 or 413 body. `availableSpace` is negative when the
      user is already over quota. */
  datatype Verdict =
    | Pass
    | Refuse(status: Status, storageUsed: nat, storageQuota: nat, requiredSpace: nat, availableSpace: int)

  function ValidateStorage(U: map<Id, User>, userId: Id, p: Payload): (v: Verdict)
    ensures userId !in U <==> v.Refuse? && v.status == NotFound
    ensures v.Pass? <==> userId in U && U[userId].storageUsed + RequestSize(p) <= U[userId].storageQuota
    ensures v.Refuse? && v.status == QuotaExceeded ==>
      && userId in U
      && v.storageUsed == U[userId].storageUsed && v.storageQuota == U[userId].storageQuota
      && v.requiredSpace == RequestSize(p)
      && v.availableSpace == U[userId].storageQuota - U[userId].storageUsed
      && v.availableSpace < v.requiredSpace
    ensures v.Refuse? ==> v.status in {NotFound, QuotaExceeded}
  {
    if userId !in U then Refuse(NotFound, 0, 0, 0, 0)
    else
      var u := U[userId];
      var total := RequestSize(p);
      if u.storageUsed + total > u.storageQuota then
        Refuse(QuotaExceeded, u.storageUsed, u.storageQuota, total, u.storageQuota - u.storageUsed)
      else Pass
  }

  /** The sum splits over concatenation, so the order of the parts does not matter. */
  lemma {:induction false} SumSizesAppend(a: seq<Upload>, b: seq<Upload>)
    ensures SumSizes(a + b) == SumSizes(a) + SumSizes(b)
    decreases |b|
  {
    if b == [] {
      assert a + b == a;
    } else {
      var b' := b[..|b| - 1];
      assert (a + b)[..|a + b| - 1] == a + b';
      SumSizesAppend(a, b');
    }
  }

  /** Every part's size is counted in the sum. */
  lemma {:induction false} SumSizesBounds(items: seq<Upload>, cap: nat)
    requires forall i :: 0 <= i < |items| ==> items[i].size <= cap
    ensures forall i :: 0 <= i < |items| ==> items[i].size <= SumSizes(items)
    ensures SumSizes(items) <= |items| * cap
    decreases |items|
  {
    if items != [] {
      var front := items[..|items| - 1];
      SumSizesBounds(front, cap);
      assert forall i :: 0 <= i < |front| ==> items[i] == front[i];
    }
  }
}
