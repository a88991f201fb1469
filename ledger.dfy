/**
 * The ownership ledger: each user row carries `total_bytes` and `file_count`,
 * which the upload and delete handlers adjust by hand. The ledger is
 * consistent when those counters equal the sum of sizes and the number of
 * the files the user owns.
 */
module Ledger {
  import opened Models

  /** Some key of a nonempty table (the order in which a sum visits the rows). */
  ghost function AnyKey<K, V>(m: map<K, V>): (k: K)
    requires |m| > 0
    ensures k in m
  {
    var k :| k in m; k
  }

  /** `SUM(size)` over the rows of `files`; 0 over no rows. */
  ghost function TotalSize(files: map<FileId, FileAsset>): int
    decreases |files|
  {
    if |files| == 0 then 0
    else
      var k := AnyKey(files);
      assert (files - {k}).Keys == files.Keys - {k};
      files[k].size + TotalSize(files - {k})
  }

  /** The sum may take the rows in any order: any row can be split off first. */
  lemma {:induction false} TotalSizeRemove(files: map<FileId, FileAsset>, k: FileId)
    requires k in files
    ensures TotalSize(files) == files[k].size + TotalSize(files - {k})
    decreases |files|
  {
    var j := AnyKey(files);
    if j != k {
      var rest := files - {j};
      assert rest.Keys == files.Keys - {j};
      TotalSizeRemove(rest, k);
      var restK := files - {k};
      assert restK.Keys == files.Keys - {k};
      TotalSizeRemove(restK, j);
      assert rest - {k} == restK - {j};
    }
  }

  /** Adding a row adds its size to the sum. */
  lemma TotalSizeInsert(files: map<FileId, FileAsset>, k: FileId, f: FileAsset)
    requires k !in files
    ensures TotalSize(files[k := f]) == f.size + TotalSize(files)
  {
    TotalSizeRemove(files[k := f], k);
    assert files[k := f] - {k} == files;
  }

  /** Sizes are never negative, so neither is their sum. */
  lemma {:induction false} TotalSizeNonNegative(files: map<FileId, FileAsset>)
    ensures TotalSize(files) >= 0
    decreases |files|
  {
    if |files| > 0 {
      var k := AnyKey(files);
      assert (files - {k}).Keys == files.Keys - {k};
      TotalSizeNonNegative(files - {k});
    }
  }

  lemma UnionSplit(a: map<FileId, FileAsset>, b: map<FileId, FileAsset>, k: FileId)
    requires a.Keys !! b.Keys && k in b
    ensures k !in a + (b - {k})
    ensures a + b == (a + (b - {k}))[k := b[k]]
  {
  }

  /** The sum over two tables with disjoint keys is the sum of the sums. */
  lemma {:induction false} TotalSizeUnion(a: map<FileId, FileAsset>, b: map<FileId, FileAsset>)
    requires a.Keys !! b.Keys
    ensures TotalSize(a + b) == TotalSize(a) + TotalSize(b)
    decreases |b|
  {
    if |b| > 0 {
      var k := AnyKey(b);
      var b' := b - {k};
      assert b'.Keys == b.Keys - {k};
      TotalSizeUnion(a, b');
      UnionSplit(a, b, k);
      TotalSizeInsert(a + b', k, b[k]);
      TotalSizeRemove(b, k);
    } else {
      assert b.Keys == {};
      assert a + b == a;
    }
  }

  /** The rows of `files` owned by `owner` (`files WHERE owner_id = owner`). */
  function OwnedBy(files: map<FileId, FileAsset>, owner: UserId): (r: map<FileId, FileAsset>)
    ensures forall k :: k in r <==> k in files && files[k].ownerId == owner
    ensures forall k :: k in r ==> r[k] == files[k]
  {
    map k | k in files && files[k].ownerId == owner :: files[k]
  }

  /** One user's counters agree with the files that user owns. */
  ghost predicate Balanced(row: User, files: map<FileId, FileAsset>, u: UserId)
  {
    row.totalBytes == TotalSize(OwnedBy(files, u)) && row.fileCount == |OwnedBy(files, u)|
  }

  /**
   * Every user's counters agree with the files that user owns; in particular
   * no file count is negative, and a user with no files has no bytes.
   */
  ghost predicate Consistent(users: map<UserId, User>, files: map<FileId, FileAsset>): (c: bool)
    ensures c ==> forall u :: u in users ==> users[u].fileCount >= 0
    ensures c ==> forall u :: u in users && users[u].fileCount == 0 ==> users[u].totalBytes == 0
  {
    forall u :: u in users ==> Balanced(users[u], files, u)
  }

  /** `user.total_bytes += size; user.file_count += 1` */
  function Credit(u: User, size: nat): (r: User)
    ensures r.totalBytes == u.totalBytes + size && r.fileCount == u.fileCount + 1
    ensures r.(totalBytes := u.totalBytes, fileCount := u.fileCount) == u
  {
    u.(totalBytes := u.totalBytes + size, fileCount := u.fileCount + 1)
  }

  /** `user.total_bytes -= size; user.file_count -= 1`: undoes `Credit` and touches nothing else. */
  function Debit(u: User, size: nat): (r: User)
    ensures r.totalBytes == u.totalBytes - size && r.fileCount == u.fileCount - 1
    ensures r.(totalBytes := u.totalBytes, fileCount := u.fileCount) == u
    ensures Credit(r, size) == u
  {
    u.(totalBytes := u.totalBytes - size, fileCount := u.fileCount - 1)
  }

  /** What a user owns after one file row is written: that row is added or replaced for its owner only. */
  lemma OwnedByAfterWrite(files: map<FileId, FileAsset>, k: FileId, f: FileAsset, u: UserId)
    requires k !in files || files[k].ownerId == f.ownerId
    ensures u == f.ownerId ==> OwnedBy(files[k := f], u) == OwnedBy(files, u)[k := f]
    ensures u != f.ownerId ==> OwnedBy(files[k := f], u) == OwnedBy(files, u)
  {
    if u == f.ownerId {
      assert OwnedBy(files[k := f], u).Keys == OwnedBy(files, u).Keys + {k};
    } else {
      assert OwnedBy(files[k := f], u).Keys == OwnedBy(files, u).Keys;
    }
  }

  /** What a user owns after one file row is deleted. */
  lemma OwnedByAfterDelete(files: map<FileId, FileAsset>, k: FileId, u: UserId)
    requires k in files
    ensures u == files[k].ownerId ==> OwnedBy(files - {k}, u) == OwnedBy(files, u) - {k}
    ensures u == files[k].ownerId ==> k in OwnedBy(files, u)
    ensures u != files[k].ownerId ==> OwnedBy(files - {k}, u) == OwnedBy(files, u)
  {
    if u == files[k].ownerId {
      assert OwnedBy(files - {k}, u).Keys == OwnedBy(files, u).Keys - {k};
    } else {
      assert OwnedBy(files - {k}, u).Keys == OwnedBy(files, u).Keys;
    }
  }

  /** Adding a file owned by `f.ownerId` and crediting that owner keeps the ledger. */
  lemma CreditOwnerKeepsLedger(users: map<UserId, User>, files: map<FileId, FileAsset>, k: FileId, f: FileAsset)
    requires f.ownerId in users && k !in files
    ensures Consistent(users, files) ==> Consistent(users[f.ownerId := Credit(users[f.ownerId], f.size)], files[k := f])
  {
    var o := f.ownerId;
    var users' := users[o := Credit(users[o], f.size)];
    var files' := files[k := f];
    if Consistent(users, files) {
      forall u | u in users'
        ensures Balanced(users'[u], files', u)
      {
        assert Balanced(users[u], files, u);
        OwnedByAfterWrite(files, k, f, u);
        if u == o {
          TotalSizeInsert(OwnedBy(files, u), k, f);
        }
      }
    }
  }

  /** Under a consistent ledger no counter is negative. */
  lemma ConsistentCountersNonNegative(users: map<UserId, User>, files: map<FileId, FileAsset>, u: UserId)
    requires Consistent(users, files) && u in users
    ensures users[u].totalBytes >= 0 && users[u].fileCount >= 0
  {
    assert Balanced(users[u], files, u);
    TotalSizeNonNegative(OwnedBy(files, u));
  }

  /** Removing a file and debiting its OWNER keeps the ledger. */
  lemma DebitOwnerKeepsLedger(users: map<UserId, User>, files: map<FileId, FileAsset>, k: FileId)
    requires k in files && files[k].ownerId in users
    ensures Consistent(users, files) ==>
      Consistent(users[files[k].ownerId := Debit(users[files[k].ownerId], files[k].size)], files - {k})
  {
    var o := files[k].ownerId;
    var users' := users[o := Debit(users[o], files[k].size)];
    var files' := files - {k};
    if Consistent(users, files) {
      forall u | u in users'
        ensures Balanced(users'[u], files', u)
      {
        assert Balanced(users[u], files, u);
        OwnedByAfterDelete(files, k, u);
        if u == o {
          var owned := OwnedBy(files, u);
          assert (owned - {k}).Keys == owned.Keys - {k};
          TotalSizeRemove(owned, k);
        }
      }
    }
  }

  /**
   * Removing a file and debiting someone OTHER than its owner (an admin
   * deleting another user's file) leaves both users' counters wrong: the
   * caller is short one file, the owner one file over.
   */
  lemma DebitOtherBreaksLedger(users: map<UserId, User>, files: map<FileId, FileAsset>, k: FileId, caller: UserId)
    requires Consistent(users, files)
    requires k in files && files[k].ownerId in users && caller in users && caller != files[k].ownerId
    ensures var users' := users[caller := Debit(users[caller], files[k].size)];
      && users'[caller].fileCount == |OwnedBy(files - {k}, caller)| - 1
      && users'[files[k].ownerId].fileCount == |OwnedBy(files - {k}, files[k].ownerId)| + 1
      && !Consistent(users', files - {k})
  {
    var o := files[k].ownerId;
    var owned := OwnedBy(files, o);
    assert Balanced(users[o], files, o) && Balanced(users[caller], files, caller);
    OwnedByAfterDelete(files, k, o);
    OwnedByAfterDelete(files, k, caller);
    assert (owned - {k}).Keys == owned.Keys - {k};
    assert !Balanced(users[caller := Debit(users[caller], files[k].size)][o], files - {k}, o);
  }

  /**
   * A user who owns no files and deletes someone else's file ends with a
   * negative file count, and a negative byte count unless the file was empty.
   */
  lemma DebitOtherGoesNegative(users: map<UserId, User>, files: map<FileId, FileAsset>, k: FileId, caller: UserId)
    requires Consistent(users, files)
    requires k in files && caller in users && OwnedBy(files, caller) == map[]
    ensures Debit(users[caller], files[k].size).fileCount == -1
    ensures Debit(users[caller], files[k].size).totalBytes == -(files[k].size as int)
  {
    assert Balanced(users[caller], files, caller);
    assert users[caller].totalBytes == TotalSize(map[]);
  }

  /** Changing a file row without touching its owner or size keeps the ledger. */
  lemma RowUpdateKeepsLedger(users: map<UserId, User>, files: map<FileId, FileAsset>, k: FileId, f: FileAsset)
    requires k in files && f.ownerId == files[k].ownerId && f.size == files[k].size
    ensures Consistent(users, files) ==> Consistent(users, files[k := f])
  {
    if Consistent(users, files) {
      forall u | u in users
        ensures Balanced(users[u], files[k := f], u)
      {
        assert Balanced(users[u], files, u);
        OwnedByAfterWrite(files, k, f, u);
        if f.ownerId == u {
          var owned := OwnedBy(files, u);
          TotalSizeRemove(owned, k);
          TotalSizeRemove(owned[k := f], k);
          assert owned[k := f] - {k} == owned - {k};
        }
      }
    }
  }

  /** A new user with zero counters, who owns nothing yet, keeps the ledger. */
  lemma NewUserKeepsLedger(users: map<UserId, User>, files: map<FileId, FileAsset>, id: UserId, u: User)
    requires id !in users && forall f :: f in files ==> files[f].ownerId in users
    requires u.totalBytes == 0 && u.fileCount == 0
    ensures Consistent(users, files) ==> Consistent(users[id := u], files)
  {
    assert forall k :: k in files ==> files[k].ownerId != id;
    assert OwnedBy(files, id).Keys == {};
    assert OwnedBy(files, id) == map[];
    assert Balanced(u, files, id);
  }
}
