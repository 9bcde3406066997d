# SUPFile backend: a verified model of the logical file store

SUPFile is a cloud drive. Its Express backend keeps, per user, a tree of
folders, the files inside it, a trash, share links and a storage quota.
This project models that logical store: the controllers for files,
folders, shares, search, recent items and favourites, preview and
accounts; the upload middleware that names and filters the parts; and the
quota gate in front of the upload route. It proves what each request does
to the store.

The model works as follows.

- **The store.** `Db.Store` is a class holding four tables (users, folders,
  files, shares), the set of blob paths present on disk, and an id
  counter that stands in for UUID generation. `Db.Consistent` is the
  invariant every state-changing request keeps:
  - every row's parent, folder and owner exist;
  - a folder or file sits only in a folder of the same owner;
  - the folder tree has no cycle;
  - a share names exactly one of a file or a folder;
  - share tokens, emails and provider ids are unique.
- **Requests.** A request is a method on the store. It returns the HTTP
  outcome as a `Status` (`Ok`, `BadRequest`, `NotFound`, `Conflict`,
  `Unauthorized`, `Gone`, `QuotaExceeded`, `ServerError`). Its `ensures`
  give the whole new state as an update of the old snapshot (`Snapshot()`).
  Read-only requests are functions or methods that change nothing.
- **What the environment supplies.**
  - `now` is a parameter.
  - The delete cascade reads a `Db.Clock` at every step, because the code
    calls `new Date()` once per row.
  - The random bytes of a token or file suffix are parameters.
  - The file system is the set `blobs`: `fs.existsSync` is membership and
    `fs.unlink` is removal.
  - Query and body parameters arrive already parsed: `Option` for an
    absent field (and for a falsy filter field, which the search builder
    skips), `int` for `parseInt`, `Time` for a parsed date.
- **Database behaviour.**
  - `ORDER BY … DESC LIMIT` is `Query.SelectTop`, specified by `Query.TopOf`:
    the rows chosen are the best by the key, and rows with equal keys come
    in any order.
  - MySQL rejects a negative LIMIT or OFFSET. The model reports that as
    `ServerError`.
- **Sweep.** The folder cascades of `deleteFolder` and `restoreFolder` are
  recursive methods. They are proved against `Sweep.FlippedSets`, which
  says which folders and files changed flag and how their stamps changed.

## Model

| member | source | states |
|---|---|---|
| Files.UploadFiles | backend/src/controllers/fileController.js:9-74 | No parts is a bad request. A named folder that is not a live folder of the caller is not found. Otherwise, exactly one row is created per part, with fresh distinct ids in upload order, placed in that folder, and the caller's usage grows by the sum of the sizes. The store invariant is kept. |
| Files.AddUploads | backend/src/controllers/fileController.js:38-58 | The successful path: the rows `Created(items, nextId, …)` are added, usage is raised by `SumSizes(items)`, and nothing else changes. |
| Files.CreateRows | backend/src/controllers/fileController.js:40-53 | The creation loop: the i-th id is `nextId + i` and its row is built from the i-th part. The running total equals `SumSizes(items)`. |
| Files.UploadRoute | backend/src/routes/fileRoutes.js:17-20 | Multer's disk storage writes every part first, so the parts' paths join the blobs on every answer, and the rows are untouched when the gate refuses. The gate refuses exactly when usage plus the request size exceeds the quota. On success each new id downloads as its part's path under its original name. A request that succeeds leaves the caller within quota. A caller within quota stays within quota. |
| Files.UploadsDownloadable | backend/src/controllers/fileController.js:40-48 | Every file row uploadFiles creates, with its blob on disk, is one that downloadFile (lines 128-162) sends to its owner as that blob under the client's name. |
| Files.ReportedQuota | backend/src/controllers/fileController.js:114 | `storageQuota \|\| 30 GiB`: always positive, equal to the stored quota when that is non-zero, and 30 GiB when it is zero. |
| Files.GetFiles | backend/src/controllers/fileController.js:78-123 | Exactly the caller's rows in the folder (or the root), trashed ones only when `includeDeleted` is "true", newest first, with the caller's usage and reported quota. |
| Files.GetTrash | backend/src/controllers/fileController.js:436-462 | Exactly the caller's trashed files and trashed folders, each most recently trashed first. |
| Files.DownloadFile | backend/src/controllers/fileController.js:128-173 | A result exists iff the file is a live file of the caller whose blob is on disk. What is sent is the file's own stored path, under its `originalName`. |
| Files.RenameFile | backend/src/controllers/fileController.js:177-216 | An empty name is a bad request. A file that is not a live file of the caller is not found. Otherwise only `originalName` changes. |
| Files.MoveFile | backend/src/controllers/fileController.js:220-266 | Not found iff the file, or a named target folder, is not live and owned by the caller. Otherwise only the file's `folderId` changes. |
| Files.RestoreUndoesDelete | backend/src/controllers/fileController.js:287-323 | Trashing then restoring a live, unstamped row gives back the same row. Restore and trash each overwrite the other's trash columns. |
| Files.DeleteFile | backend/src/controllers/fileController.js:270-302 | Not found iff the file is not a live file of the caller. Otherwise it becomes trashed with stamp `now`, and a second delete of it is not found. |
| Files.RestoreFile | backend/src/controllers/fileController.js:306-338 | Not found iff the file is not a trashed file of the caller. Otherwise it is live again with the stamp cleared, in its old folder. |
| Files.Deduct | backend/src/controllers/fileController.js:367 | `Math.max(0, used - amount)`: never above `used`, exact when `amount <= used`, and zero otherwise. |
| Files.PermanentDeleteFile | backend/src/controllers/fileController.js:342-386 | Any file of the caller, trashed or not, loses its row and its blob, and its size is refunded with a floor of zero. Otherwise not found. |
| Files.EmptyTrash | backend/src/controllers/fileController.js:390-432 | Every trashed file of the caller is destroyed and no other row. The count is their number. Only sizes whose blob was still on disk are refunded, with a floor of zero. |
| Files.DestroyTrash | backend/src/controllers/fileController.js:402-411 | The loop: each trashed file in turn loses its blob and row. The bytes freed are `Freed` of the order taken. |
| Files.DestroyFile | backend/src/controllers/fileController.js:403-410 | One turn: the size counts only when the blob was present. Then the blob and the row are gone. |
| Files.FreedAtMost | backend/src/controllers/fileController.js:399-416 | emptyTrash never frees more than the trashed files' total size. |
| Files.FreedAll | backend/src/controllers/fileController.js:399-416 | When every blob is on disk and no two files share one, it frees exactly the total size. |
| Files.PreviewCategoryExact | backend/src/controllers/fileController.js:485-506 | The prefix tests of the getPreviewInfo chain never overlap. Each kind holds iff its own test holds, and no kind iff no test holds. |
| Files.GetPreviewInfo | backend/src/controllers/fileController.js:465-522 | Any file of the caller, trashed or not. `canPreview` iff a kind was found. The name shown is `originalName \|\| name`. The kind, type, size and name are the file's own. |
| Files.PreviewFile | backend/src/controllers/fileController.js:525-577 | A result iff the file is the caller's and its blob is on disk. It is read as text iff its kind is text. |
| Folders.CreateFolder | backend/src/controllers/folderController.js:11-73 | An empty name is a bad request. A parent that is not live and owned is not found. A live sibling with the same name is a conflict. Otherwise exactly one fresh folder is added. |
| Folders.RenameFolder | backend/src/controllers/folderController.js:182-239 | The same checks, with the collision test ignoring the folder itself. Only the name changes. |
| Folders.MeetsOnWalk | backend/src/controllers/folderController.js:284-294 | The ancestor loop returns true iff the folder lies on the requested parent's chain of ancestors. |
| Folders.MoveFolder | backend/src/controllers/folderController.js:245-312 | Not found iff the folder or the requested parent is not live and owned. Moving into itself or below itself is a bad request. Otherwise only `parentId` changes. The tree stays acyclic. |
| Folders.DeleteFolder | backend/src/controllers/folderController.js:318-372 | A live folder of the caller and every live folder and file the cascade reaches become trashed, each with its own clock reading. Otherwise not found. |
| Folders.RestoreFolder | backend/src/controllers/folderController.js:378-433 | A trashed folder of the caller and everything the restore cascade reaches are revived with the stamps cleared. The parent is not checked. |
| Folders.TrashBelow | backend/src/controllers/folderController.js:335-353 | The recursive helper: the live files of the folder, then each live child's subtree, become trashed. |
| Folders.ReviveBelow | backend/src/controllers/folderController.js:395-419 | The recursive helper of the restore: trashed files, then each trashed child and its subtree, come back. |
| Folders.DownloadFolderAsZip | backend/src/controllers/folderController.js:437-518 | For a live folder of the caller: the archive is `<name>.zip` and holds one entry per live file of the live subtree, present on disk or not. Each entry is named by the folder's name, the folder path and `originalName`. |
| Archive.AddFolderToArchive | backend/src/controllers/folderController.js:478-502 | The recursive walk lists each archived file of the subtree exactly once, under its relative path. |
| Sweep.DeleteLeavesNothingLive | backend/src/controllers/folderController.js:335-359 | After the delete cascade, no live folder is left below the folder, and every file of the old subtree is trashed. |
| Sweep.PathFlipped | backend/src/controllers/folderController.js:335-359 | A chain of live folders leading to the deleted folder becomes a chain of trashed ones. That chain is what the restore cascade follows. |
| Sweep.DeleteRestoreRoundTrip | backend/src/controllers/folderController.js:318-433 | Deleting a live folder and then restoring it gives every folder of the subtree back with its stamp cleared, and revives every file in it. This includes files that were trashed on their own before the delete. |
| Tree.MoveKeepsForest | backend/src/controllers/folderController.js:284-298 | Moving a folder under a parent that is not below it keeps the tree acyclic and closed. |
| Tree.AddKeepsForest | backend/src/controllers/folderController.js:55-59 | Adding a fresh folder at the root or under an existing folder keeps the tree acyclic and closed. |
| Quota.RequestSize | backend/src/middleware/validatestorage.js:16-24 | The size charged: the sum over `req.files`, else `req.file.size`, else 0. |
| Quota.ValidateStorage | backend/src/middleware/validatestorage.js:4-49 | Not found iff the user is missing. The request passes iff usage plus size is at most the quota. A refusal reports usage, quota, required space and available space, with available below required. |
| Quota.SumSizesAppend | backend/src/middleware/validatestorage.js:20 | The sum splits over concatenation. |
| Quota.SumSizesBounds | backend/src/middleware/validatestorage.js:20 | Each part is counted in the sum, and the sum is at most the count times the cap. |
| Shares.TokenShape | backend/src/controllers/sharecontroller.js:7-9 | 32 random bytes give exactly 64 lower-case hex characters, the width of `shareToken` (backend/src/models/share.js:11). Different bytes give different tokens. |
| HexCodec.UnhexHex | backend/src/controllers/sharecontroller.js:7-9 | The hex encoding can be read back to the same bytes. |
| Shares.StoredPassword | backend/src/controllers/sharecontroller.js:37 | `password \|\| null`: a password is stored iff one was given and it is non-empty. |
| Shares.CreateShare | backend/src/controllers/sharecontroller.js:12-57 | Also models lines 100-145. Not found iff the target is not a row of the caller, trashed rows included. A token already taken is a server error. Otherwise one share is added, naming exactly that target, with the hex token. |
| Shares.ListShares | backend/src/controllers/sharecontroller.js:60-97 | Also models lines 148-185. For a target row of the caller: exactly the caller's shares of that target. |
| Shares.CheckShare | backend/src/controllers/sharecontroller.js:201-223 | Expired iff now is past the expiry. Unauthorized iff not expired, a password is set, and the offered one differs. Otherwise Ok. |
| Shares.CheckOrder | backend/src/controllers/sharecontroller.js:208-223 | Expiry wins over any password. An open link accepts any password. A link is still good at its expiry instant. |
| Shares.FindShare | backend/src/controllers/sharecontroller.js:193-206 | The share with the token, if there is one. |
| Shares.ShareTarget | backend/src/controllers/sharecontroller.js:228-272 | A file share shows the file while its row exists. A folder share shows exactly the folder's direct files and subfolders, trashed ones included. |
| Shares.Resolve | backend/src/controllers/sharecontroller.js:193-223 | Also models lines 292-321. The lookup and its checks, in source order. |
| Shares.AccessShare | backend/src/controllers/sharecontroller.js:188-280 | An unknown, expired or wrongly-passworded link changes nothing. Otherwise the download count rises by one, even when the target row is gone. |
| Shares.TokenOwner | backend/src/models/share.js:10-14 | Tokens are unique, so the share found is the only one with that token. |
| Shares.DownloadShare | backend/src/controllers/sharecontroller.js:284-398 | The same checks. A file share streams its blob and counts the download; a missing blob is not found and not counted. A folder share counts, then zips the live subtree by path relative to the folder, skipping missing blobs. The `fileId` query parameter is ignored. |
| Shares.DeleteShare | backend/src/controllers/sharecontroller.js:401-430 | Only the caller's own share is removed. Otherwise not found. |
| Recent.RecentLimit | backend/src/controllers/recentController.js:8 | `parseInt(limit) \|\| 20`: NaN and 0 fall back to 20. Any other number, negatives included, is kept. |
| Recent.GetRecentFiles | backend/src/controllers/recentController.js:5-31 | The `limit` most recently updated live files and, separately, live folders of the caller. A negative limit is a server error. |
| Recent.GetFavorites | backend/src/controllers/recentController.js:34-57 | Exactly the caller's live favourites, files and folders, most recently updated first. |
| Recent.MessageFor | backend/src/controllers/recentController.js:78 | The message says "added" iff the new flag is set. |
| Recent.ToggleFileFavorite | backend/src/controllers/recentController.js:60-85 | Not found iff the file is not a live file of the caller. Otherwise only its flag is negated, and the message reports the new value. |
| Recent.ToggleFolderFavorite | backend/src/controllers/recentController.js:88-113 | The intended toggle (see Findings): the same for a live folder of the caller. |
| Recent.ToggleFolderFavoriteAsWritten | backend/src/controllers/recentController.js:88-113 | As written: not found iff the folder is not a live folder of the caller; otherwise always Ok. |
| Recent.FolderToggleAlwaysAdds | backend/src/controllers/recentController.js:101-106 | As written, a live folder of the caller is always answered "added", even one the intended toggle would unmark with "removed". |
| Recent.ToggleFileEffect | backend/src/controllers/recentController.js:60-85 | One toggle moves exactly that file into or out of the favourites. Two toggles restore the table. |
| Recent.ToggleFolderEffect | backend/src/controllers/recentController.js:88-113 | The same for folders. |
| Search.OrDefault | backend/src/controllers/searchcontroller.js:10 | An absent `limit` or `offset` takes its default. A present one, 0 included, is kept. |
| Search.Page | backend/src/controllers/searchcontroller.js:33-35 | One paged query: a server error iff limit or offset is negative. Otherwise the rows ranked after the first `offset`, at most `limit` of them, most recently updated first. |
| Search.SimpleSearch | backend/src/controllers/searchcontroller.js:7-87 | A missing or blank `q` is a bad request. Otherwise, for each kind asked for, the page of the caller's live matches of the trimmed term in `name` or `originalName`. `total` is the number returned. |
| Search.TrimPadded | backend/src/controllers/searchcontroller.js:12-19 | White space around `q` does not change the term searched for. |
| Search.Place | backend/src/controllers/searchcontroller.js:163-164 | 'root' means the root (null). Any other value is a folder id. |
| Search.MimeCondOf | backend/src/controllers/searchcontroller.js:118-136 | No filter iff no `mimeType`. 'image', 'video' and 'audio' become prefixes, 'document' a fixed alternative, and anything else an exact value. |
| Search.AdvancedFileMatch | backend/src/controllers/searchcontroller.js:112-164 | The assembled file filter accepts a row iff every given condition holds: name substring, MIME rule, inclusive size and date bounds, folder. |
| Search.AdvancedIgnoresTrash | backend/src/controllers/searchcontroller.js:112-164 | Whether a file is trashed, and its `originalName`, play no part in the filter. |
| Search.AdvancedSearch | backend/src/controllers/searchcontroller.js:90-244 | The files and folders the filters accept, trashed ones included, each list paged on its own. A negative limit or offset is a server error. |
| Auth.NewUser | backend/src/models/user.js:32-41 | A new account uses nothing, has the default 30 GiB quota, no provider, and an unverified email. |
| Auth.Register | backend/src/controllers/authController.js:16-75 | A bad request iff email or password is missing or the password is shorter than 8 UTF-16 code units, as JavaScript's `length` counts. A conflict iff the email is taken. Otherwise exactly one account is added, and it can sign in. |
| Auth.Login | backend/src/controllers/authController.js:78-136 | A bad request iff a field is missing. Ok iff some account has that email and password. An unknown email and a wrong password are both unauthorized. |
| Auth.UpdatedProfile | backend/src/controllers/authController.js:222-236 | A new, different email replaces the old one and clears verification. Empty names keep the stored ones. Nothing else changes. |
| Auth.UpdateProfile | backend/src/controllers/authController.js:207-262 | A conflict iff a different email is held by another account, and then nothing changes. Otherwise the row becomes `UpdatedProfile`. |
| Auth.LengthInCodeUnits | backend/src/controllers/authController.js:28 | `password.length` counts UTF-16 code units: four characters above U+FFFF pass the 8-unit minimum, and seven ASCII characters do not. |
| Auth.ChangePassword | backend/src/controllers/authController.js:265-323 | A bad request iff a field is missing, the new password is shorter than 8 UTF-16 code units, or the account has no password. Unauthorized iff the current password does not match. Otherwise only the password changes. |
| Auth.SetPassword | backend/src/controllers/authController.js:326-375 | A bad request iff the password is shorter than 8 UTF-16 code units or one is already set. Otherwise only the password changes. |
| Auth.SavePassword | backend/src/controllers/authController.js:309-310 | Only the password column changes. |
| Auth.WithProviderId | backend/src/controllers/authController.js:405 | Setting one provider's id leaves the other provider, the email, the password and the picture unchanged. |
| Auth.LinkAccount | backend/src/controllers/authController.js:382-428 | Also models lines 474-520. A conflict iff another account holds the provider id. Otherwise the id is saved, and afterwards only this account holds it. |
| Auth.UnlinkAccount | backend/src/controllers/authController.js:431-471 | Also models lines 523-563. A bad request iff the provider is not linked or it is the only way to sign in. Otherwise the id is cleared and a login remains. |
| Auth.UnlinkKeepsLogin | backend/src/controllers/authController.js:443-457 | An unlink the guard allows always leaves a way to sign in. |
| Auth.GetLinkedAccounts | backend/src/controllers/authController.js:566-600 | The report: password present, each provider linked iff its id is set, and the ids. |
| Auth.LinkedAccountsGuard | backend/src/controllers/authController.js:443-455 | The unlink guard agrees with the report: a provider can be unlinked iff the report shows it linked and shows another login method. |
| UploadRules.Sanitize | backend/src/middleware/upload.js:29 | Same length. Every character is safe. Safe characters are kept and the others become '_'. |
| UploadRules.SanitizeIdempotent | backend/src/middleware/upload.js:29 | A safe name is left as it is, so sanitising twice is sanitising once. |
| UploadRules.ExtName | backend/src/middleware/upload.js:27 | `path.extname`: the extension is empty exactly when the name is ".." or has no dot after its first character. Otherwise it is the suffix that starts at the last dot. |
| UploadRules.BaseName | backend/src/middleware/upload.js:28 | The base name followed by the extension is the whole name. |
| UploadRules.StoredNameKeepsExtension | backend/src/middleware/upload.js:24-32 | The stored name `base-timestamp-hex.ext` has the same extension as the client's name. |
| UploadRules.FileFilter | backend/src/middleware/upload.js:35-49 | A part is refused iff its type is one of the four executable types. |
| UploadRules.AdmittedBound | backend/src/middleware/upload.js:52-59 | A request multer admits (at most 10 parts of at most 5 GiB) charges the gate at most 50 GiB. Each part is counted. |
| Preview.PreviewType | backend/src/controllers/previewcontroller.js:25-42 | A kind iff the type is one of the fourteen listed, and then the listed kind. |
| Preview.AgreesWithFileController | backend/src/controllers/previewcontroller.js:25-42 | On every listed type the table agrees with the file controller's prefix chain. An SVG image shows that the chain reaches further. |
| Preview.GetPreviewInfo | backend/src/controllers/previewcontroller.js:8-62 | Any file of the caller, trashed or not. `canPreview` iff the table lists its type. The stored name is shown, with the file's own id, type and size. |
| Preview.GetPreview | backend/src/controllers/previewcontroller.js:65-105 | A stream iff the file is the caller's and its blob is on disk. It is sent inline under the stored name with the file's type. |
| Preview.PreviewNeedsInfo | backend/src/controllers/previewcontroller.js:8-105 | A file that can be streamed has preview information. One with information and a blob can be streamed. |
| Common.Trim | backend/src/controllers/searchcontroller.js:12 | `trim()`: the input with white space cut from both ends, where white space is JavaScript's set (the ASCII controls tab to carriage return, every space separator, U+2028, U+2029, U+FEFF). No white space is left at either end. The result is empty iff the input is all white space. |
| Common.JoinAssoc | backend/src/controllers/folderController.js:486-500 | `path.join` of plain segments is associative. The archive paths rely on this. |

## Left out

- Authentication is not modelled: JWT issue and check, `protect`, passport, the OAuth callbacks and `getMe`. The caller's id is a parameter, and a request that needs the account has `userId in st.users` as a precondition. That precondition is what `protect` establishes, so the `findByPk` miss is not modelled.
- Passwords are compared by equality of the stored value. The value stands in for the bcrypt hash, and hashing is not modelled.
- Auth.Login does not record `lastLogin`. The token returned on success is not modelled either.
- `updatedAt` is not refreshed on `save()` by the model, unlike Sequelize. Every row keeps the stamps it was created with.
- Date parsing (`new Date`), `NaN` from `parseInt`, and `isEmail` validation are outside the model. Parsed values are inputs.
- Search.AdvancedSearch: `parseInt` of a non-numeric `limit` or `offset` (NaN) is not modelled. A filter field that is falsy (a zero size bound, an empty name) reads as "no filter", as the builder's `if` tests have it; `limit` and `offset` are defaulted only when absent, so a `limit` of 0 asks for no rows.
- Search.SimpleSearch: `LIKE '%q%'` is read as literal, case-sensitive containment. In the source a `%` or `_` in the term is a wildcard, and MySQL's default collation compares without regard to letter case, so the source matches more rows than the model.
- Search.AdvancedSearch: the `name` filter has the same gap as Search.SimpleSearch. It is literal, case-sensitive containment here, where the source's LIKE takes wildcards and ignores case.
- Auth.EmailTaken and Folders.NameTaken compare by exact string equality. Under MySQL's default collation the source's equality lookups ignore letter case (and trailing spaces), so the source finds a clash in some cases where the model does not. The conflict answers of Auth.Register, Auth.UpdateProfile, Folders.CreateFolder and Folders.RenameFolder inherit this gap.
- Recent.GetFavorites: the folder query filters on an `isFavorite` column that the folder model does not declare. The model follows the evident intent and reads the flag from the folder row.
- Recent.ToggleFolderFavorite: it models the evident intent, not the code as written, which never saves the flag. Recent.ToggleFolderFavoriteAsWritten models the code; see Findings.
- Ordering ties: `ORDER BY` with equal keys returns the tied rows in any order. The model proves only the ordering by key.
- Query.SelectTop: Sequelize's handling of `LIMIT 0` is not modelled beyond returning no rows.
- UploadRules.Sanitize works on characters. JavaScript's regular expression works on UTF-16 code units, so a character outside the BMP becomes two '_' in the source and one here.
- UploadRules.ExtName assumes the client's name has no '/'. Multer's `originalname` is the bare file name.
- `path.join` normalisation (`..`, repeated slashes) is not modelled. Common.Join only joins two plain segments.
- Archive contents: byte streaming, compression level, the archiver's errors, and the response headers are not modelled. An archive is its list of entries.
- previewFile's text read (`readFileSync` with 'utf8') and the `Content-Length` header are not modelled. PreviewFile says only which branch is taken.
- `getFolders` and `getFolder` of the folder controller are not part of this model.
- Concurrency is not modelled: a race between the quota gate and the upload, or between two requests. Each request is one atomic transition.
- `maxDownloads` is stored and never checked by the controllers. The model does not hold it.
- The directory creation in upload.js (lines 6-23) is file-system I/O and is not modelled.
- Module wiring is not modelled. backend/src/models/index.js does not register the Share model or the File and Folder associations that accessShare's `include` needs. validatestorage.js and its route name their modules in a different letter case than the files. The model follows the evident intent.
- A 500 from a failed database write is not modelled. Only the unique token (CreateShare) and a negative LIMIT/OFFSET are modelled as `ServerError`.
- Folders.DeleteFolder takes a fresh clock reading per row, as the code does. It does not use one shared stamp for the whole cascade.
- Files.UploadRoute takes the parts as multer has already admitted them. A part the file filter refuses, or a request over multer's limits, is answered before the gate; UploadRules.FileFilter and UploadRules.AdmittedBound state those checks on their own.

## Findings

| source | as written | input that shows it | evidently intended | confidence | as-written member | corrected member |
|---|---|---|---|---|---|---|
| backend/src/controllers/recentController.js:101-106 | `folder.isFavorite = !folder.isFavorite; await folder.save()` on a model that declares no `isFavorite` attribute: the flag reads as `undefined`, is set to `true` on the instance only, and no column is written, so the answer is always "added" | a live folder of the caller that is already a favourite | negate the stored flag, save it, and answer "removed" when it is cleared | high, not executed | Recent.ToggleFolderFavoriteAsWritten | Recent.ToggleFolderFavorite |
