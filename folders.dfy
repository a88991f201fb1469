/**
 * The folder endpoints: list the children of a folder, create, delete and
 * update (rename or move) a folder. Folders form a tree through `parentId`
 * (None is the root). Name uniqueness among siblings is checked by the
 * handlers, not by the schema; moves check neither names nor cycles.
 */
module Folders {
  import opened Outcome
  import opened Models
  import opened Ordering

  /** Python's `if parent_id:` — None and 0 are both false. */
  predicate IsTruthy(parentId: Option<int>)
  {
    parentId.Some? && parentId.value != 0
  }

  predicate OwnsFolder(folders: map<FolderId, Folder>, caller: UserId, id: int)
  {
    id in folders && folders[id].ownerId == caller
  }

  /** Some folder of `owner` under `parent` already has this name. */
  predicate NameTaken(folders: map<FolderId, Folder>, owner: UserId, name: string, parent: Option<FolderId>): (t: bool)
    ensures t <==> name in ChildNames(folders, owner, parent).Values
  {
    ListedNameExists(folders, owner, name, parent);
    exists d :: d in folders && folders[d].ownerId == owner && folders[d].name == name && folders[d].parentId == parent
  }

  /** A name shows among the listed children exactly when some child folder carries it. */
  lemma ListedNameExists(folders: map<FolderId, Folder>, owner: UserId, name: string, parent: Option<FolderId>)
    ensures name in ChildNames(folders, owner, parent).Values <==>
      exists d :: d in folders && folders[d].ownerId == owner && folders[d].name == name && folders[d].parentId == parent
  {
    var children := ChildNames(folders, owner, parent);
    if exists d :: d in folders && folders[d].ownerId == owner && folders[d].name == name && folders[d].parentId == parent {
      var d :| d in folders && folders[d].ownerId == owner && folders[d].name == name && folders[d].parentId == parent;
      assert children[d] == name;
    } else {
      forall d | d in children
        ensures children[d] != name
      {
      }
    }
  }

  /** No two folders of one owner under one parent share a name. */
  ghost predicate SiblingNamesUnique(folders: map<FolderId, Folder>)
  {
    forall a, b ::
      (a in folders && b in folders && a != b && folders[a].ownerId == folders[b].ownerId &&
       folders[a].parentId == folders[b].parentId) ==> folders[a].name != folders[b].name
  }

  /** The caller's folders directly under `parentId`, keyed to their names. */
  function ChildNames(folders: map<FolderId, Folder>, caller: UserId, parentId: Option<FolderId>): map<FolderId, string>
  {
    map d | d in folders && folders[d].ownerId == caller && folders[d].parentId == parentId :: folders[d].name
  }

  /**
   * `list_folders`: 404 when a parent is named that the caller does not own;
   * otherwise the caller's folders directly under that parent (under the
   * root when none is named), in ascending name order.
   */
  ghost function ListFolders(folders: map<FolderId, Folder>, caller: UserId, parentId: Option<FolderId>)
    : (r: Result<seq<FolderId>>)
    ensures r.Err? <==> parentId.Some? && !OwnsFolder(folders, caller, parentId.value)
    ensures r.Err? ==> r.error == NotFound
    ensures r.Ok? ==> forall d :: d in r.value <==>
      d in folders && folders[d].ownerId == caller && folders[d].parentId == parentId
    ensures r.Ok? ==> forall i :: 0 <= i < |r.value| ==> r.value[i] in folders
    ensures r.Ok? ==> forall i, j :: 0 <= i < j < |r.value| ==> r.value[i] != r.value[j]
    ensures r.Ok? ==> forall i, j :: 0 <= i < j < |r.value| ==>
      NameLe(folders[r.value[i]].name, folders[r.value[j]].name)
  {
    if parentId.Some? && !OwnsFolder(folders, caller, parentId.value) then Err(NotFound)
    else
      var names := ChildNames(folders, caller, parentId);
      var r := ByNameAsc(names);
      assert forall i :: 0 <= i < |r| ==> r[i] in names;
      Ok(r)
  }

  /** A folder whose parent is 0 names no existing folder, so no listing shows it. */
  lemma ZeroParentIsUnlisted(folders: map<FolderId, Folder>, caller: UserId, d: FolderId, p: Option<FolderId>)
    requires forall k :: k in folders ==> k > 0
    requires d in folders && folders[d].parentId == Some(0)
    ensures ListFolders(folders, caller, Some(0)) == Err(NotFound)
    ensures ListFolders(folders, caller, p).Ok? ==> d !in ListFolders(folders, caller, p).value
  {
  }

  /**
   * `create_folder`: 404 for a truthy parent the caller does not own (a
   * parent of 0 skips the check); 400 when the caller already has a folder
   * of that name under that same parent; otherwise one new folder.
   */
  method CreateFolder(db: Database, caller: UserId, name: string, parentId: Option<FolderId>, newId: FolderId)
    returns (r: Result<FolderId>)
    requires db.Valid() && caller in db.users
    requires newId > 0 && newId !in db.folders
    modifies db
    ensures db.Valid()
    ensures IsTruthy(parentId) && !OwnsFolder(old(db.folders), caller, parentId.value) ==>
      r == Err(NotFound) && unchanged(db)
    ensures (!(IsTruthy(parentId) && !OwnsFolder(old(db.folders), caller, parentId.value)) &&
             NameTaken(old(db.folders), caller, name, parentId)) ==>
      r == Err(BadRequest) && unchanged(db)
    ensures r.Ok? <==>
      !(IsTruthy(parentId) && !OwnsFolder(old(db.folders), caller, parentId.value)) &&
      !NameTaken(old(db.folders), caller, name, parentId)
    ensures r.Ok? ==>
      && r.value == newId
      && db.folders == old(db.folders)[newId := Folder(name, caller, parentId)]
      && db.users == old(db.users) && db.files == old(db.files)
      && db.links == old(db.links) && db.blobs == old(db.blobs)
    ensures SiblingNamesUnique(old(db.folders)) ==> SiblingNamesUnique(db.folders)
  {
    if IsTruthy(parentId) && !OwnsFolder(db.folders, caller, parentId.value) {
      return Err(NotFound);
    }
    if NameTaken(db.folders, caller, name, parentId) {
      return Err(BadRequest);
    }
    db.folders := db.folders[newId := Folder(name, caller, parentId)];
    r := Ok(newId);
  }

  /** `count()` of the files in the folder that are not in the trash. */
  function LiveFileCount(files: map<FileId, FileAsset>, id: FolderId): nat
  {
    |set f | f in files && files[f].folderId == Some(id) && !files[f].isTrashed|
  }

  /** `count()` of the folders, of any owner, whose parent is this folder. */
  function SubfolderCount(folders: map<FolderId, Folder>, id: FolderId): nat
  {
    |set d | d in folders && folders[d].parentId == Some(id)|
  }

  lemma LiveFileCountPositive(files: map<FileId, FileAsset>, id: FolderId)
    ensures LiveFileCount(files, id) > 0 <==>
      exists f :: f in files && files[f].folderId == Some(id) && !files[f].isTrashed
  {
    var live := set f | f in files && files[f].folderId == Some(id) && !files[f].isTrashed;
    if exists f :: f in files && files[f].folderId == Some(id) && !files[f].isTrashed {
      var f :| f in files && files[f].folderId == Some(id) && !files[f].isTrashed;
      assert f in live;
    } else {
      assert live == {};
    }
  }

  lemma SubfolderCountPositive(folders: map<FolderId, Folder>, id: FolderId)
    ensures SubfolderCount(folders, id) > 0 <==> exists d :: d in folders && folders[d].parentId == Some(id)
  {
    var below := set d | d in folders && folders[d].parentId == Some(id);
    if exists d :: d in folders && folders[d].parentId == Some(id) {
      var d :| d in folders && folders[d].parentId == Some(id);
      assert d in below;
    } else {
      assert below == {};
    }
  }

  /** The `file_count > 0` test: some file that is not in the trash sits in the folder. */
  predicate HoldsLiveFile(files: map<FileId, FileAsset>, id: FolderId): (h: bool)
    ensures h <==> exists f :: f in files && files[f].folderId == Some(id) && !files[f].isTrashed
  {
    LiveFileCountPositive(files, id);
    LiveFileCount(files, id) > 0
  }

  /** The `subfolder_count > 0` test: some folder, of any owner, has this folder as parent. */
  predicate HasSubfolder(folders: map<FolderId, Folder>, id: FolderId): (h: bool)
    ensures h <==> exists d :: d in folders && folders[d].parentId == Some(id)
  {
    SubfolderCountPositive(folders, id);
    SubfolderCount(folders, id) > 0
  }

  /**
   * `delete_folder`: 404 unless the caller owns the folder; 400 while a file
   * not in the trash is in it, or any folder is under it; otherwise only
   * that folder row goes.
   */
  method DeleteFolder(db: Database, caller: UserId, folderId: FolderId) returns (r: Result<()>)
    requires db.Valid() && caller in db.users
    modifies db
    ensures db.Valid()
    ensures !OwnsFolder(old(db.folders), caller, folderId) ==> r == Err(NotFound) && unchanged(db)
    ensures (OwnsFolder(old(db.folders), caller, folderId) &&
             (HoldsLiveFile(old(db.files), folderId) || HasSubfolder(old(db.folders), folderId))) ==>
      r == Err(BadRequest) && unchanged(db)
    ensures r.Ok? <==>
      OwnsFolder(old(db.folders), caller, folderId) &&
      !HoldsLiveFile(old(db.files), folderId) && !HasSubfolder(old(db.folders), folderId)
    ensures r.Ok? ==>
      && db.folders == old(db.folders) - {folderId}
      && db.users == old(db.users) && db.files == old(db.files)
      && db.links == old(db.links) && db.blobs == old(db.blobs)
  {
    if !OwnsFolder(db.folders, caller, folderId) {
      return Err(NotFound);
    }
    if HoldsLiveFile(db.files, folderId) {
      return Err(BadRequest);
    }
    if HasSubfolder(db.folders, folderId) {
      return Err(BadRequest);
    }
    db.folders := db.folders - {folderId};
    r := Ok(());
  }

  /** A non-empty new name is a rename (`if name:`). */
  predicate IsRename(name: Option<string>)
  {
    name.Some? && name.value != ""
  }

  /** The error `update_folder` raises, checked in its order; None when it succeeds. */
  function UpdateError(folders: map<FolderId, Folder>, caller: UserId, folderId: FolderId,
                       name: Option<string>, parentId: Option<int>): (e: Option<HttpError>)
    ensures e.None? <==>
      && OwnsFolder(folders, caller, folderId)
      && (IsRename(name) ==> !NameTaken(folders - {folderId}, caller, name.value, folders[folderId].parentId))
      && parentId != Some(folderId)
      && (IsTruthy(parentId) ==> OwnsFolder(folders, caller, parentId.value))
    ensures !OwnsFolder(folders, caller, folderId) ==> e == Some(NotFound)
    ensures (OwnsFolder(folders, caller, folderId) && IsRename(name) &&
             NameTaken(folders - {folderId}, caller, name.value, folders[folderId].parentId)) ==>
      e == Some(BadRequest)
    ensures (OwnsFolder(folders, caller, folderId) &&
             (IsRename(name) ==> !NameTaken(folders - {folderId}, caller, name.value, folders[folderId].parentId)) &&
             parentId == Some(folderId)) ==>
      e == Some(BadRequest)
    ensures (OwnsFolder(folders, caller, folderId) &&
             (IsRename(name) ==> !NameTaken(folders - {folderId}, caller, name.value, folders[folderId].parentId)) &&
             parentId != Some(folderId) && IsTruthy(parentId) && !OwnsFolder(folders, caller, parentId.value)) ==>
      e == Some(NotFound)
  {
    if !OwnsFolder(folders, caller, folderId) then Some(NotFound)
    else if IsRename(name) && NameTaken(folders - {folderId}, caller, name.value, folders[folderId].parentId) then
      Some(BadRequest)
    else if parentId.Some? && parentId.value == folderId then Some(BadRequest)
    else if IsTruthy(parentId) && !OwnsFolder(folders, caller, parentId.value) then Some(NotFound)
    else None
  }

  /** The folder row after a successful update. */
  function Updated(folder: Folder, name: Option<string>, parentId: Option<int>): (f: Folder)
    ensures f.ownerId == folder.ownerId
    ensures f.name == (if IsRename(name) then name.value else folder.name)
    ensures f.parentId == (if parentId.Some? then parentId else folder.parentId)
  {
    folder.(name := if IsRename(name) then name.value else folder.name,
            parentId := if parentId.Some? then parentId else folder.parentId)
  }

  /**
   * `update_folder`: 404 unless the caller owns the folder; a rename is
   * refused (400) when a sibling under the folder's CURRENT parent has the
   * name; a move under itself is refused (400); a move under a truthy parent
   * the caller does not own is refused (404). Otherwise the name and parent
   * change. Errors change nothing.
   */
  method UpdateFolder(db: Database, caller: UserId, folderId: FolderId, name: Option<string>, parentId: Option<int>)
    returns (r: Result<FolderId>)
    requires db.Valid() && caller in db.users
    modifies db
    ensures db.Valid()
    ensures UpdateError(old(db.folders), caller, folderId, name, parentId).Some? ==>
      r == Err(UpdateError(old(db.folders), caller, folderId, name, parentId).value) && unchanged(db)
    ensures UpdateError(old(db.folders), caller, folderId, name, parentId).None? ==>
      && r == Ok(folderId)
      && db.folders == old(db.folders)[folderId := Updated(old(db.folders[folderId]), name, parentId)]
      && db.users == old(db.users) && db.files == old(db.files)
      && db.links == old(db.links) && db.blobs == old(db.blobs)
  {
    if !OwnsFolder(db.folders, caller, folderId) {
      return Err(NotFound);
    }
    var folder := db.folders[folderId];
    if IsRename(name) {
      if NameTaken(db.folders - {folderId}, caller, name.value, folder.parentId) {
        return Err(BadRequest);
      }
      folder := folder.(name := name.value);
    }
    if parentId.Some? {
      if parentId.value == folderId {
        return Err(BadRequest);
      }
      if IsTruthy(parentId) && !OwnsFolder(db.folders, caller, parentId.value) {
        return Err(NotFound);
      }
      folder := folder.(parentId := parentId);
    }
    db.folders := db.folders[folderId := folder];
    r := Ok(folderId);
  }

  /** A rename that passes the check keeps sibling names unique. */
  lemma RenameKeepsSiblingNamesUnique(folders: map<FolderId, Folder>, caller: UserId, folderId: FolderId, name: string)
    requires SiblingNamesUnique(folders)
    requires UpdateError(folders, caller, folderId, Some(name), None).None?
    ensures SiblingNamesUnique(folders[folderId := Updated(folders[folderId], Some(name), None)])
  {
    var folders' := folders[folderId := Updated(folders[folderId], Some(name), None)];
    forall a, b | a in folders' && b in folders' && a != b && folders'[a].ownerId == folders'[b].ownerId &&
      folders'[a].parentId == folders'[b].parentId
      ensures folders'[a].name != folders'[b].name
    {
      if a == folderId && name != "" {
        assert b in folders - {folderId};
      } else if b == folderId && name != "" {
        assert a in folders - {folderId};
      }
    }
  }

  /** A move is accepted without checking names under the destination. */
  lemma MoveCanDuplicateSiblingName()
    ensures var folders := map[1 := Folder("p", 7, None), 2 := Folder("x", 7, Some(1)), 3 := Folder("x", 7, None)];
      && SiblingNamesUnique(folders)
      && UpdateError(folders, 7, 3, None, Some(1)).None?
      && !SiblingNamesUnique(folders[3 := Updated(folders[3], None, Some(1))])
  {
    var folders := map[1 := Folder("p", 7, None), 2 := Folder("x", 7, Some(1)), 3 := Folder("x", 7, None)];
    var folders' := folders[3 := Updated(folders[3], None, Some(1))];
    assert folders'[2].name == folders'[3].name && folders'[2].parentId == folders'[3].parentId;
  }

  /** A move is accepted under the folder's own child, closing a cycle. */
  lemma MoveCanCloseCycle()
    ensures var folders := map[1 := Folder("a", 7, None), 2 := Folder("b", 7, Some(1))];
      && UpdateError(folders, 7, 1, None, Some(2)).None?
      && var folders' := folders[1 := Updated(folders[1], None, Some(2))];
         folders'[1].parentId == Some(2) && folders'[2].parentId == Some(1)
  {
  }
}
