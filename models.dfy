/**
 * The relational schema: one datatype per table row, the uniqueness,
 * foreign-key and cascade rules the tables obey, and the database itself as
 * an object whose tables the request handlers update in place.
 *
 * Primary keys are the keys of the maps. Timestamps are integers of a clock
 * counted in seconds.
 */
module Models {
  import opened Outcome

  type UserId = int
  type FileId = int
  type FolderId = int
  type LinkId = int

  /** The stored bcrypt digest; it stands for a salted hash of `input`. */
  datatype PasswordHash = BcryptHash(input: string)

  datatype User = User(
    email: string,
    fullName: string,
    hashedPassword: PasswordHash,
    isActive: bool,
    isAdmin: bool,
    totalBytes: int,
    fileCount: int,
    createdAt: int)

  datatype FileAsset = FileAsset(
    filename: string,
    contentType: string,
    size: nat,
    s3Key: string,
    ownerId: UserId,
    uploadedAt: int,
    downloadCount: int,
    folderId: Option<FolderId>,
    isTrashed: bool)

  datatype Folder = Folder(name: string, ownerId: UserId, parentId: Option<FolderId>)

  datatype ShareLink = ShareLink(
    token: string,
    fileId: FileId,
    expiresAt: int,
    createdById: UserId)

  /** The `unique=True` constraint on `users.email`. */
  ghost predicate UniqueEmails(users: map<UserId, User>)
  {
    forall a, b :: a in users && b in users && a != b ==> users[a].email != users[b].email
  }

  /** The `unique=True` constraint on `files.s3_key`. */
  ghost predicate UniqueStorageKeys(files: map<FileId, FileAsset>)
  {
    forall a, b :: a in files && b in files && a != b ==> files[a].s3Key != files[b].s3Key
  }

  /** The `unique=True` constraint on `share_links.token`. */
  ghost predicate UniqueTokens(links: map<LinkId, ShareLink>)
  {
    forall a, b :: a in links && b in links && a != b ==> links[a].token != links[b].token
  }

  /** Is `token` the token of some share link? */
  predicate TokenInUse(links: map<LinkId, ShareLink>, token: string)
  {
    exists l :: l in links && links[l].token == token
  }

  /**
   * The cascade `delete-orphan` on `FileAsset.share_links`: deleting a file
   * deletes every share link that points at it and keeps all others.
   */
  function DropLinksOf(links: map<LinkId, ShareLink>, fileId: FileId): (r: map<LinkId, ShareLink>)
    ensures forall l :: l in r ==> l in links && r[l] == links[l] && r[l].fileId != fileId
    ensures forall l :: l in links && links[l].fileId != fileId ==> l in r
  {
    map l | l in links && links[l].fileId != fileId :: links[l]
  }

  /**
   * What the schema guarantees of every committed state: autoincrement keys
   * are positive, the unique columns are unique, foreign keys point at
   * existing rows (users are never deleted; share links go with their file),
   * and every file's blob is in the object store.
   */
  ghost predicate WellFormed(
    users: map<UserId, User>,
    files: map<FileId, FileAsset>,
    folders: map<FolderId, Folder>,
    links: map<LinkId, ShareLink>,
    blobs: set<string>): (w: bool)
    ensures w && users == map[] ==> files == map[] && folders == map[] && links == map[]
  {
    && (forall u :: u in users ==> u > 0)
    && (forall f :: f in files ==> f > 0)
    && (forall d :: d in folders ==> d > 0)
    && (forall l :: l in links ==> l > 0)
    && UniqueEmails(users)
    && UniqueStorageKeys(files)
    && UniqueTokens(links)
    && (forall f :: f in files ==> files[f].ownerId in users && files[f].s3Key in blobs)
    && (forall d :: d in folders ==> folders[d].ownerId in users)
    && (forall l :: l in links ==> links[l].fileId in files && links[l].createdById in users)
  }

  /** Changing a user row without changing its email keeps the schema rules. */
  lemma UserUpdateKeepsWellFormed(users: map<UserId, User>, files: map<FileId, FileAsset>,
                                  folders: map<FolderId, Folder>, links: map<LinkId, ShareLink>,
                                  blobs: set<string>, u: UserId, row: User)
    requires WellFormed(users, files, folders, links, blobs)
    requires u in users && row.email == users[u].email
    ensures WellFormed(users[u := row], files, folders, links, blobs)
  {
  }

  /** Changing a file row without changing its owner or key keeps the schema rules. */
  lemma FileUpdateKeepsWellFormed(users: map<UserId, User>, files: map<FileId, FileAsset>,
                                  folders: map<FolderId, Folder>, links: map<LinkId, ShareLink>,
                                  blobs: set<string>, k: FileId, row: FileAsset)
    requires WellFormed(users, files, folders, links, blobs)
    requires k in files && row.ownerId == files[k].ownerId && row.s3Key == files[k].s3Key
    ensures WellFormed(users, files[k := row], folders, links, blobs)
  {
  }

  /** Inserting a file whose blob was just stored under a fresh key keeps the schema rules. */
  lemma FileInsertKeepsWellFormed(users: map<UserId, User>, files: map<FileId, FileAsset>,
                                  folders: map<FolderId, Folder>, links: map<LinkId, ShareLink>,
                                  blobs: set<string>, k: FileId, row: FileAsset)
    requires WellFormed(users, files, folders, links, blobs)
    requires k > 0 && k !in files && row.ownerId in users && row.s3Key !in blobs
    ensures WellFormed(users, files[k := row], folders, links, blobs + {row.s3Key})
  {
  }

  /**
   * Deleting a file together with its share links keeps the schema rules,
   * whether or not the object store managed to drop the blob.
   */
  lemma FileDeleteKeepsWellFormed(users: map<UserId, User>, files: map<FileId, FileAsset>,
                                  folders: map<FolderId, Folder>, links: map<LinkId, ShareLink>,
                                  blobs: set<string>, k: FileId, blobs': set<string>)
    requires WellFormed(users, files, folders, links, blobs)
    requires k in files && (blobs' == blobs || blobs' == blobs - {files[k].s3Key})
    ensures WellFormed(users, files - {k}, folders, DropLinksOf(links, k), blobs')
  {
  }

  /** The database: the four tables, plus the set of keys held by the object store. */
  class Database {
    var users: map<UserId, User>
    var files: map<FileId, FileAsset>
    var folders: map<FolderId, Folder>
    var links: map<LinkId, ShareLink>
    var blobs: set<string>

    ghost predicate Valid()
      reads this
    {
      WellFormed(users, files, folders, links, blobs)
    }

    /** The freshly created, empty database. */
    constructor ()
      ensures Valid()
      ensures users == map[] && files == map[] && folders == map[] && links == map[]
      ensures blobs == {}
    {
      users, files, folders, links := map[], map[], map[], map[];
      blobs := {};
    }
  }
}
