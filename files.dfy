/**
 * The file endpoints: listing, upload, download link, share link creation,
 * deletion, and public share-link resolution.
 *
 * Every handler but the last runs for an authenticated `caller`, the id of
 * an existing user row. The object store appears only as the set of keys it
 * holds (`db.blobs`); a presigned URL is represented by the key and lifetime
 * it is signed for. Values drawn from `uuid4` and `secrets.token_urlsafe`,
 * and the ids the database assigns, are parameters that must be fresh.
 */
module Files {
  import opened Outcome
  import opened Models
  import opened Ordering
  import opened Ledger

  /** Content type recorded when the upload carries none. */
  const DefaultContentType: string := "application/octet-stream"

  /** Default `expires_in` of the download endpoint, and of `presigned_download`. */
  const DefaultDownloadSeconds: int := 600

  datatype PresignedUrl = PresignedUrl(key: string, expiresIn: int)

  /** What resolving a share link returns. */
  datatype SharedFile = SharedFile(filename: string, url: PresignedUrl)

  /** `upload.content_type or "application/octet-stream"` */
  function ContentTypeOrDefault(contentType: Option<string>): (r: string)
    ensures r != ""
    ensures contentType.Some? && contentType.value != "" ==> r == contentType.value
    ensures contentType.None? || contentType.value == "" ==> r == DefaultContentType
  {
    if contentType.Some? && contentType.value != "" then contentType.value else DefaultContentType
  }

  /**
   * The rule of every per-file endpoint: the file exists and the caller owns
   * it or is an admin. Failing it answers 404, never 403.
   */
  predicate MayAccess(users: map<UserId, User>, files: map<FileId, FileAsset>, caller: UserId, fileId: FileId): (ok: bool)
    requires caller in users
    ensures ok ==> fileId in files
    ensures users[caller].isAdmin ==> (ok <==> fileId in files)
    ensures !users[caller].isAdmin ==> (ok <==> fileId in files && files[fileId].ownerId == caller)
  {
    fileId in files && (files[fileId].ownerId == caller || users[caller].isAdmin)
  }

  /** `list_my_files`: the caller's files, most recently uploaded first. */
  ghost function ListMyFiles(files: map<FileId, FileAsset>, caller: UserId): (r: seq<FileId>)
    ensures forall f :: f in r <==> f in files && files[f].ownerId == caller
    ensures forall i :: 0 <= i < |r| ==> r[i] in files
    ensures forall i, j :: 0 <= i < j < |r| ==> r[i] != r[j]
    ensures forall i, j :: 0 <= i < j < |r| ==> files[r[i]].uploadedAt >= files[r[j]].uploadedAt
  {
    var mine := map f | f in files && files[f].ownerId == caller :: files[f].uploadedAt;
    var r := ByScoreDesc(mine);
    assert forall i :: 0 <= i < |r| ==> r[i] in mine;
    r
  }

  /** The row `upload_file` inserts. */
  function NewFile(filename: string, contentType: Option<string>, size: nat, key: string, caller: UserId, now: int): (f: FileAsset)
    ensures f.ownerId == caller && f.size == size && f.s3Key == key && f.filename == filename
    ensures f.contentType == ContentTypeOrDefault(contentType) && f.uploadedAt == now
    ensures f.downloadCount == 0 && f.folderId.None? && !f.isTrashed
  {
    FileAsset(filename, ContentTypeOrDefault(contentType), size, key, caller, now, 0, None, false)
  }

  /**
   * `upload_file`: store the payload under a fresh key, insert one file row
   * owned by the caller, and credit the caller's counters with its size.
   */
  method UploadFile(db: Database, caller: UserId, filename: string, contentType: Option<string>,
                    size: nat, now: int, newId: FileId, key: string) returns (r: FileId)
    requires db.Valid() && caller in db.users
    requires newId > 0 && newId !in db.files && key !in db.blobs
    modifies db
    ensures db.Valid()
    ensures r == newId
    ensures db.files == old(db.files)[newId := NewFile(filename, contentType, size, key, caller, now)]
    ensures db.users == old(db.users)[caller := Credit(old(db.users[caller]), size)]
    ensures db.blobs == old(db.blobs) + {key}
    ensures db.folders == old(db.folders) && db.links == old(db.links)
    ensures Consistent(old(db.users), old(db.files)) ==> Consistent(db.users, db.files)
  {
    var record := NewFile(filename, contentType, size, key, caller, now);
    CreditOwnerKeepsLedger(db.users, db.files, newId, record);
    FileInsertKeepsWellFormed(db.users, db.files, db.folders, db.links, db.blobs, newId, record);
    UserUpdateKeepsWellFormed(db.users, db.files[newId := record], db.folders, db.links, db.blobs + {key},
                              caller, Credit(db.users[caller], size));
    db.blobs := db.blobs + {key};
    db.users := db.users[caller := Credit(db.users[caller], size)];
    db.files := db.files[newId := record];
    r := newId;
  }

  /**
   * `generate_download_link`: 404 unless the caller may access the file;
   * otherwise count one more download and sign a URL for the file's key.
   */
  method GenerateDownloadLink(db: Database, caller: UserId, fileId: FileId, expiresIn: int)
    returns (r: Result<PresignedUrl>)
    requires db.Valid() && caller in db.users
    modifies db
    ensures db.Valid()
    ensures !MayAccess(old(db.users), old(db.files), caller, fileId) ==>
      r == Err(NotFound) && unchanged(db)
    ensures MayAccess(old(db.users), old(db.files), caller, fileId) ==>
      var f := old(db.files[fileId]);
      && r == Ok(PresignedUrl(f.s3Key, expiresIn))
      && db.files == old(db.files)[fileId := f.(downloadCount := f.downloadCount + 1)]
      && db.users == old(db.users) && db.folders == old(db.folders)
      && db.links == old(db.links) && db.blobs == old(db.blobs)
    ensures Consistent(old(db.users), old(db.files)) ==> Consistent(db.users, db.files)
  {
    if !MayAccess(db.users, db.files, caller, fileId) {
      return Err(NotFound);
    }
    var f := db.files[fileId];
    var counted := f.(downloadCount := f.downloadCount + 1);
    RowUpdateKeepsLedger(db.users, db.files, fileId, counted);
    FileUpdateKeepsWellFormed(db.users, db.files, db.folders, db.links, db.blobs, fileId, counted);
    db.files := db.files[fileId := counted];
    r := Ok(PresignedUrl(f.s3Key, expiresIn));
  }

  /**
   * `create_share_link`: 404 unless the caller may access the file;
   * otherwise insert one link with a fresh token, that file, the caller as
   * creator, and an expiry `minutes` from now.
   */
  method CreateShareLink(db: Database, caller: UserId, fileId: FileId, minutes: int, now: int,
                         newId: LinkId, token: string) returns (r: Result<LinkId>)
    requires db.Valid() && caller in db.users
    requires newId > 0 && newId !in db.links && !TokenInUse(db.links, token)
    modifies db
    ensures db.Valid()
    ensures !MayAccess(old(db.users), old(db.files), caller, fileId) ==>
      r == Err(NotFound) && unchanged(db)
    ensures MayAccess(old(db.users), old(db.files), caller, fileId) ==>
      && r == Ok(newId)
      && db.links == old(db.links)[newId := ShareLink(token, fileId, now + minutes * 60, caller)]
      && db.users == old(db.users) && db.files == old(db.files)
      && db.folders == old(db.folders) && db.blobs == old(db.blobs)
  {
    if !MayAccess(db.users, db.files, caller, fileId) {
      return Err(NotFound);
    }
    db.links := db.links[newId := ShareLink(token, fileId, now + minutes * 60, caller)];
    r := Ok(newId);
  }

  /**
   * `delete_file`: 404 unless the caller may access the file. Otherwise
   * delete the blob (a failure of the object store is swallowed and the blob
   * stays), debit the CALLER's counters by the file, delete the file row and,
   * by cascade, its share links.
   */
  method DeleteFile(db: Database, caller: UserId, fileId: FileId, blobDeleteFails: bool)
    returns (r: Result<()>)
    requires db.Valid() && caller in db.users
    modifies db
    ensures db.Valid()
    ensures !MayAccess(old(db.users), old(db.files), caller, fileId) ==>
      r == Err(NotFound) && unchanged(db)
    ensures MayAccess(old(db.users), old(db.files), caller, fileId) ==>
      var f := old(db.files[fileId]);
      && r == Ok(())
      && db.files == old(db.files) - {fileId}
      && db.users == old(db.users)[caller := Debit(old(db.users[caller]), f.size)]
      && db.links == DropLinksOf(old(db.links), fileId)
      && db.blobs == (if blobDeleteFails then old(db.blobs) else old(db.blobs) - {f.s3Key})
      && db.folders == old(db.folders)
    ensures r.Ok? && old(db.files[fileId].ownerId) == caller && Consistent(old(db.users), old(db.files)) ==>
      Consistent(db.users, db.files)
  {
    if !MayAccess(db.users, db.files, caller, fileId) {
      return Err(NotFound);
    }
    var users, files, links, blobs := db.users, db.files, db.links, db.blobs;
    var f := files[fileId];
    DebitOwnerKeepsLedger(users, files, fileId);
    var blobs' := if blobDeleteFails then blobs else blobs - {f.s3Key};
    var users' := users[caller := Debit(users[caller], f.size)];
    FileDeleteKeepsWellFormed(users, files, db.folders, links, blobs, fileId, blobs');
    UserUpdateKeepsWellFormed(users, files - {fileId}, db.folders, DropLinksOf(links, fileId), blobs',
                              caller, users'[caller]);
    db.users, db.files, db.links, db.blobs := users', files - {fileId}, DropLinksOf(links, fileId), blobs';
    r := Ok(());
  }

  /**
   * `delete_file` as the ledger needs it: the same, except that the debit
   * goes to the file's OWNER, so the ledger survives an admin's delete too.
   */
  method DeleteFileDebitingOwner(db: Database, caller: UserId, fileId: FileId, blobDeleteFails: bool)
    returns (r: Result<()>)
    requires db.Valid() && caller in db.users
    modifies db
    ensures db.Valid()
    ensures !MayAccess(old(db.users), old(db.files), caller, fileId) ==>
      r == Err(NotFound) && unchanged(db)
    ensures MayAccess(old(db.users), old(db.files), caller, fileId) ==>
      var f := old(db.files[fileId]);
      && r == Ok(())
      && db.files == old(db.files) - {fileId}
      && db.users == old(db.users)[f.ownerId := Debit(old(db.users[f.ownerId]), f.size)]
      && db.links == DropLinksOf(old(db.links), fileId)
      && db.blobs == (if blobDeleteFails then old(db.blobs) else old(db.blobs) - {f.s3Key})
      && db.folders == old(db.folders)
    ensures Consistent(old(db.users), old(db.files)) ==> Consistent(db.users, db.files)
  {
    if !MayAccess(db.users, db.files, caller, fileId) {
      return Err(NotFound);
    }
    var users, files, links, blobs := db.users, db.files, db.links, db.blobs;
    var f := files[fileId];
    DebitOwnerKeepsLedger(users, files, fileId);
    var blobs' := if blobDeleteFails then blobs else blobs - {f.s3Key};
    var users' := users[f.ownerId := Debit(users[f.ownerId], f.size)];
    FileDeleteKeepsWellFormed(users, files, db.folders, links, blobs, fileId, blobs');
    UserUpdateKeepsWellFormed(users, files - {fileId}, db.folders, DropLinksOf(links, fileId), blobs',
                              f.ownerId, users'[f.ownerId]);
    db.users, db.files, db.links, db.blobs := users', files - {fileId}, DropLinksOf(links, fileId), blobs';
    r := Ok(());
  }

  /**
   * `use_share_link`, which needs no login: 404 for an unknown token, 410
   * once the expiry lies strictly in the past, 404 when the file row is
   * gone, else the file's name and a URL signed for its key.
   */
  ghost function UseShareLink(links: map<LinkId, ShareLink>, files: map<FileId, FileAsset>,
                              token: string, now: int): (r: Result<SharedFile>)
    ensures !TokenInUse(links, token) ==> r == Err(NotFound)
    ensures r == Err(Gone) ==>
      exists l :: l in links && links[l].token == token && links[l].expiresAt < now
    ensures r.Ok? ==>
      exists l :: l in links && links[l].token == token && now <= links[l].expiresAt &&
        links[l].fileId in files &&
        r.value == SharedFile(files[links[l].fileId].filename,
                              PresignedUrl(files[links[l].fileId].s3Key, DefaultDownloadSeconds))
  {
    if !TokenInUse(links, token) then Err(NotFound)
    else
      var l :| l in links && links[l].token == token;
      var share := links[l];
      if share.expiresAt < now then Err(Gone)
      else if share.fileId !in files then Err(NotFound)
      else
        var f := files[share.fileId];
        Ok(SharedFile(f.filename, PresignedUrl(f.s3Key, DefaultDownloadSeconds)))
  }

  /**
   * With tokens unique, the outcome is decided by the one link holding the
   * token, checked in order: expiry (inclusive: a link still works at the
   * instant it expires), then the file's existence.
   */
  lemma ShareResolution(links: map<LinkId, ShareLink>, files: map<FileId, FileAsset>,
                        token: string, now: int, l: LinkId)
    requires UniqueTokens(links) && l in links && links[l].token == token
    ensures links[l].expiresAt < now ==> UseShareLink(links, files, token, now) == Err(Gone)
    ensures now <= links[l].expiresAt && links[l].fileId !in files ==>
      UseShareLink(links, files, token, now) == Err(NotFound)
    ensures now <= links[l].expiresAt && links[l].fileId in files ==>
      UseShareLink(links, files, token, now) ==
        Ok(SharedFile(files[links[l].fileId].filename,
                      PresignedUrl(files[links[l].fileId].s3Key, DefaultDownloadSeconds)))
  {
    var r := UseShareLink(links, files, token, now);
    assert forall l' :: l' in links && links[l'].token == token ==> l' == l;
  }

  /** In a well-formed database the file of a live link is always there. */
  lemma LiveLinkResolves(links: map<LinkId, ShareLink>, files: map<FileId, FileAsset>,
                         token: string, now: int, l: LinkId)
    requires UniqueTokens(links) && (forall l' :: l' in links ==> links[l'].fileId in files)
    requires l in links && links[l].token == token && now <= links[l].expiresAt
    ensures UseShareLink(links, files, token, now).Ok?
  {
    ShareResolution(links, files, token, now, l);
  }
}
