/** The four tables of the store (the model files under backend/src/models), one datatype per row.
    Only the columns some controller reads or writes are kept. */
module Rows {
  import opened Common

  /** `storageQuota` default: 30 GiB. */
  const DefaultQuota: nat := 30 * 1024 * 1024 * 1024

  /** Width of the `shareToken` column, STRING(64). */
  const TokenColumnWidth: nat := 64

  /** A user account. `password` is null for accounts that only log in through
      Google or GitHub; the stored value stands for the bcrypt hash. */
  datatype User = User(
    email: string,
    password: Option<string>,
    firstName: Option<string>,
    lastName: Option<string>,
    storageUsed: nat,
    storageQuota: nat,
    googleId: Option<string>,
    githubId: Option<string>,
    profilePicture: Option<string>,
    isEmailVerified: bool)

  /** A folder; `parentId == None` puts it at the user's root. The column
      `isFavorite` is used by the favourites controller although the folder
      model does not declare it. */
  datatype Folder = Folder(
    name: string,
    parentId: Option<Id>,
    userId: Id,
    isDeleted: bool,
    deletedAt: Option<Time>,
    isFavorite: bool,
    createdAt: Time,
    updatedAt: Time)

  /** A stored file: `name` is the generated on-disk name, `originalName` the one
      the user sees, `path` the blob locator. */
  datatype File = File(
    name: string,
    originalName: string,
    mimeType: string,
    size: nat,
    path: string,
    folderId: Option<Id>,
    userId: Id,
    isDeleted: bool,
    deletedAt: Option<Time>,
    isFavorite: bool,
    createdAt: Time,
    updatedAt: Time)

  /** A public share link for one file or one folder. */
  datatype Share = Share(
    shareToken: string,
    userId: Id,
    fileId: Option<Id>,
    folderId: Option<Id>,
    expiresAt: Option<Time>,
    password: Option<string>,
    downloadCount: nat)

  /** A soft-deleted file is exactly one with a deletion stamp. */
  predicate FileStamped(f: File) { f.isDeleted <==> f.deletedAt.Some? }

  /** One uploaded part as multer hands it to the controllers: the generated
      stored name, the client's name, the declared MIME type, the byte size
      and the blob path written to disk. */
  datatype Upload = Upload(filename: string, originalname: string, mimetype: string, size: nat, path: string)
}
