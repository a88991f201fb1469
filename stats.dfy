/**
 * The admin dashboard summary: table counts, the total stored size, and the
 * five users with the largest `total_bytes` counters.
 */
module Stats {
  import opened Models
  import opened Ordering
  import opened Ledger

  /** `admin_summary` lists at most this many users. */
  const TopUserLimit: nat := 5

  datatype TopUser = TopUser(name: string, email: string, bytes: int)

  datatype Summary = Summary(totalUsers: nat, totalFiles: nat, totalBytes: int, topUsers: seq<TopUser>)

  function Min(a: nat, b: nat): nat
  {
    if a <= b then a else b
  }

  /** The `total_bytes` column, keyed by user id. */
  function ByteCounters(users: map<UserId, User>): (scores: map<UserId, int>)
    ensures forall u :: u in scores <==> u in users
    ensures forall u :: u in scores ==> scores[u] == users[u].totalBytes
  {
    map u | u in users :: users[u].totalBytes
  }

  /** The first `n` users of a ranking by byte counter, each once, largest first, and none below a user left out. */
  lemma RankingPrefix(users: map<UserId, User>, all: seq<UserId>, n: nat)
    requires SortedDesc(all, ByteCounters(users)) && (forall u :: u in ByteCounters(users) ==> u in all) && n <= |all|
    ensures forall i :: 0 <= i < n ==> all[..n][i] in users
    ensures forall i, j :: 0 <= i < j < n ==> all[..n][i] != all[..n][j]
    ensures forall i, j :: 0 <= i < j < n ==> users[all[..n][i]].totalBytes >= users[all[..n][j]].totalBytes
    ensures forall i, u :: 0 <= i < n && u in users && u !in all[..n] ==>
      users[all[..n][i]].totalBytes >= users[u].totalBytes
  {
    var scores := ByteCounters(users);
    assert forall k :: k in scores ==> k in all;
    PrefixHoldsLargest(all, scores, n);
  }

  /**
   * The ids behind `top_users`: users by `total_bytes` descending, at most
   * five. Ties come in no particular order.
   */
  ghost function TopUserIds(users: map<UserId, User>): (r: seq<UserId>)
    ensures |r| == Min(TopUserLimit, |users|)
    ensures forall i :: 0 <= i < |r| ==> r[i] in users
    ensures forall i, j :: 0 <= i < j < |r| ==> r[i] != r[j]
    ensures forall i, j :: 0 <= i < j < |r| ==> users[r[i]].totalBytes >= users[r[j]].totalBytes
    ensures forall i, u :: 0 <= i < |r| && u in users && u !in r ==> users[r[i]].totalBytes >= users[u].totalBytes
  {
    var scores := ByteCounters(users);
    assert scores.Keys == users.Keys;
    var all := ByScoreDesc(scores);
    RankingPrefix(users, all, Min(TopUserLimit, |users|));
    all[..Min(TopUserLimit, |users|)]
  }

  /** The sum of the `total_bytes` counters of `users`. */
  ghost function SumCounters(users: map<UserId, User>): int
    decreases |users|
  {
    if |users| == 0 then 0
    else
      var k := AnyKey(users);
      assert (users - {k}).Keys == users.Keys - {k};
      users[k].totalBytes + SumCounters(users - {k})
  }

  /** One `top_users` entry: the user's name, email and byte counter. */
  function RowOf(row: User): TopUser
  {
    TopUser(row.fullName, row.email, row.totalBytes)
  }

  function TopRows(users: map<UserId, User>, ids: seq<UserId>): (rows: seq<TopUser>)
    requires forall i :: 0 <= i < |ids| ==> ids[i] in users
    ensures |rows| == |ids|
    ensures forall i :: 0 <= i < |ids| ==> rows[i] == RowOf(users[ids[i]])
  {
    seq(|ids|, i requires 0 <= i < |ids| => RowOf(users[ids[i]]))
  }

  /**
   * `admin_summary`: the number of users, the number of files, the sum of all
   * file sizes (0 for no files), and name, email and byte counter of the
   * top users, in the order of `TopUserIds`.
   */
  ghost function AdminSummary(users: map<UserId, User>, files: map<FileId, FileAsset>): (s: Summary)
    ensures s.totalUsers == |users| && s.totalFiles == |files|
    ensures s.totalBytes == TotalSize(files)
    ensures s.totalBytes >= 0 && (files == map[] ==> s.totalBytes == 0)
    ensures |s.topUsers| == |TopUserIds(users)|
    ensures forall i :: 0 <= i < |s.topUsers| ==> s.topUsers[i] == RowOf(users[TopUserIds(users)[i]])
  {
    TotalSizeNonNegative(files);
    var ids := TopUserIds(users);
    Summary(|users|, |files|, TotalSize(files), TopRows(users, ids))
  }

  /** The files whose owner is one of `owners`. */
  function OwnedByAnyOf(files: map<FileId, FileAsset>, owners: set<UserId>): (r: map<FileId, FileAsset>)
    ensures forall k :: k in r <==> k in files && files[k].ownerId in owners
    ensures forall k :: k in r ==> r[k] == files[k]
  {
    map k | k in files && files[k].ownerId in owners :: files[k]
  }

  /** The files of a set of owners split into those of one owner and those of the rest. */
  lemma SplitOwners(files: map<FileId, FileAsset>, owners: set<UserId>, k: UserId)
    requires k in owners
    ensures OwnedBy(files, k).Keys !! OwnedByAnyOf(files, owners - {k}).Keys
    ensures OwnedBy(files, k) + OwnedByAnyOf(files, owners - {k}) == OwnedByAnyOf(files, owners)
  {
    var whole := OwnedBy(files, k) + OwnedByAnyOf(files, owners - {k});
    assert whole.Keys == OwnedByAnyOf(files, owners).Keys;
  }

  /** Under a consistent ledger the counters of a set of users add up to the size of what they own. */
  lemma {:induction false} CountersSumOwnedSize(users: map<UserId, User>, files: map<FileId, FileAsset>)
    requires Consistent(users, files)
    ensures SumCounters(users) == TotalSize(OwnedByAnyOf(files, users.Keys))
    decreases |users|
  {
    if |users| == 0 {
      assert OwnedByAnyOf(files, users.Keys) == map[];
    } else {
      var k := AnyKey(users);
      var rest := users - {k};
      assert rest.Keys == users.Keys - {k};
      assert Consistent(rest, files);
      CountersSumOwnedSize(rest, files);
      SplitOwners(files, users.Keys, k);
      TotalSizeUnion(OwnedBy(files, k), OwnedByAnyOf(files, rest.Keys));
    }
  }

  /** When every owner is among `owners`, their files are all the files. */
  lemma OwnersCoverAll(files: map<FileId, FileAsset>, owners: set<UserId>)
    requires forall f :: f in files ==> files[f].ownerId in owners
    ensures OwnedByAnyOf(files, owners) == files
  {
    forall f | f in files
      ensures f in OwnedByAnyOf(files, owners)
    {
    }
  }

  /**
   * When the ledger is consistent and every file's owner is a user, the
   * dashboard's byte total equals the sum of the users' byte counters.
   */
  lemma SummaryBytesMatchCounters(users: map<UserId, User>, files: map<FileId, FileAsset>)
    requires Consistent(users, files)
    requires forall f :: f in files ==> files[f].ownerId in users
    ensures AdminSummary(users, files).totalBytes == SumCounters(users)
  {
    CountersSumOwnedSize(users, files);
    OwnersCoverAll(files, users.Keys);
  }

  /** With a consistent ledger, each listed byte counter is what that user really stores. */
  lemma TopUserBytesAreOwnedSize(users: map<UserId, User>, files: map<FileId, FileAsset>, i: int)
    requires Consistent(users, files)
    requires 0 <= i < Min(TopUserLimit, |users|)
    ensures var u := TopUserIds(users)[i];
      && AdminSummary(users, files).topUsers[i].bytes == TotalSize(OwnedBy(files, u))
      && AdminSummary(users, files).topUsers[i].email == users[u].email
  {
    var u := TopUserIds(users)[i];
    assert Balanced(users[u], files, u);
  }
}
