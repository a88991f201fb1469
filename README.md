# S3 file uploader — a verified model of its request handlers

The system is a small web service. Users register and log in. They upload
files to an S3 bucket, list their own files and ask for time-limited download
URLs. They hand out share links that anyone can resolve until the links
expire, and they delete files. Files can be arranged in a tree of folders.
Every user row keeps two counters, `total_bytes` and `file_count`. The upload
and delete handlers adjust them by hand. The admin dashboard reports the
table sizes, the total stored size, and the five users with the largest
`total_bytes`.

This project models the core of that service in Dafny:

- `models.dfy` (module `Models`): the row types; the schema rules (unique
  email, storage key and share token; foreign keys; the share-link cascade);
  and the class `Database`. `Database` holds the tables as maps, plus the set
  of keys held by the object store. The handlers update it in place.
- `ledger.dfy` (module `Ledger`):
  - the sum of file sizes;
  - the ledger predicate `Consistent`: each user's counters equal the size and
    the number of the files that user owns;
  - how each counter update keeps that predicate, or breaks it.
- `auth.dfy` (module `Auth`):
  - bcrypt's 72-byte truncation of passwords;
  - token expiry;
  - finding the token in a request;
  - the three guards `get_current_user`, `get_current_active_user` and
    `get_current_admin`.
- `files.dfy`, `folders.dfy` and `users.dfy` (modules `Files`, `Folders`,
  `Users`): the request handlers. Handlers that write are methods on a
  `Database`. Each one states its whole new state, its error cases and the
  invariants it keeps. Read-only handlers are functions.
- `stats.dfy` (module `Stats`): the admin summary.
- `ordering.dfy` and `outcome.dfy`: the two sort orders the queries use, and
  the `Option`/`Result` types with the HTTP error kinds.

Every handler except `UseShareLink`, `RegisterUser` and `Login`, which need
no login, runs for a `caller`, the id of a user the guard has already
admitted. Values the code draws from `uuid4`, `secrets.token_urlsafe` and
the database's autoincrement become method parameters, each required to be
fresh. The clock is an integer count of seconds passed in as `now`.
Signing and checking a JWT are the `encode` and `decode` parameters. A stored
bcrypt hash is `BcryptHash(input)`, where `input` is the exact string handed
to bcrypt.

Behaviour of the code that the proofs bring out:

- `DeleteFile` keeps the ledger only when the caller owns the file. When an
  admin deletes another user's file, the admin's counters are debited instead
  of the owner's (see Findings).
- A password verifies against a hash exactly when both truncate to the same
  string: the longest character prefix whose UTF-8 encoding fits in 72 bytes.
  Whatever follows that prefix is never checked.
- `UpdateFolder` refuses a folder as its own parent. It accepts a move under
  the folder's own child, which closes a cycle. It accepts a move that gives
  two sibling folders the same name.
- A parent id of 0 is falsy, so `CreateFolder` and `UpdateFolder` skip the
  ownership check for it. A folder stored with parent 0 then appears in no
  listing.
- `login` does not check `is_active`. A deactivated user still receives a
  token, and the guards refuse that token with 400.

Share-link resolution (app/routers/files.py:144-148) does not look at `is_trashed`, so a trashed file stays
reachable through its links. Expiry is strict: a link still works at the
instant it expires.

## Model

| member | source | states |
|---|---|---|
| Ordering.ByScoreDesc | app/routers/files.py:27-31 | every key exactly once (length, membership, no repeats), in descending order of the sort column; ties in no particular order |
| Ordering.ByNameAsc | app/routers/folders.py:31 | every key exactly once, in ascending name order; ties in no particular order |
| Ordering.NameLeTotal | app/routers/folders.py:31 | any two names are comparable in the text order |
| Ordering.NameLeTransitive | app/routers/folders.py:31 | the text order is transitive |
| Models.DropLinksOf | app/models.py:37 | deleting a file removes exactly its share links and keeps every other link unchanged |
| Models.WellFormed | app/models.py:8-47 | the schema rules: positive keys, unique email, storage key and token, every foreign key resolving, every file's blob stored; with no users there are no files, folders or links |
| Models.UserUpdateKeepsWellFormed | app/models.py:8-21 | changing a user row without changing its email keeps keys, unique columns and foreign keys valid |
| Models.FileUpdateKeepsWellFormed | app/models.py:24-37 | changing a file row without changing its owner or storage key keeps the schema rules |
| Models.FileInsertKeepsWellFormed | app/models.py:24-37 | inserting a file under a fresh id, for an existing owner, with a blob stored under a fresh key, keeps the schema rules |
| Models.FileDeleteKeepsWellFormed | app/models.py:37-47 | deleting a file together with its share links keeps the schema rules, whether or not the blob was removed |
| Ledger.TotalSizeRemove | app/services/stats.py:10 | the size sum does not depend on the order of the rows: any row can be split off first |
| Ledger.TotalSizeInsert | app/services/stats.py:10 | adding a row adds its size to the sum |
| Ledger.TotalSizeNonNegative | app/services/stats.py:10 | the sum of sizes is never negative |
| Ledger.TotalSizeUnion | app/services/stats.py:10 | the sum over two disjoint tables is the sum of their sums |
| Ledger.OwnedBy | app/routers/files.py:29 | exactly the rows whose owner is the given user, unchanged |
| Ledger.Credit | app/routers/files.py:54-55 | the byte counter grows by the file's size and the file count by one; every other column is kept |
| Ledger.Debit | app/routers/files.py:122-123 | the byte counter shrinks by the file's size and the file count by one; every other column is kept; crediting the same size restores the row |
| Ledger.Consistent | app/models.py:17-18 | every user's `total_bytes` and `file_count` equal the size sum and the number of the files that user owns; so no file count is negative, and a user with no files has no bytes |
| Ledger.ConsistentCountersNonNegative | app/models.py:17-18 | under a consistent ledger neither counter of any user is negative |
| Ledger.CreditOwnerKeepsLedger | app/routers/files.py:54-55 | inserting a file and crediting its owner with its size and one file keeps every user's counters equal to what that user owns |
| Ledger.DebitOwnerKeepsLedger | app/routers/files.py:122-128 | removing a file and debiting its owner keeps the ledger |
| Ledger.DebitOtherBreaksLedger | app/routers/files.py:111-128 | removing a file and debiting another user leaves that user one file short and the owner one file over, so the ledger no longer holds |
| Ledger.DebitOtherGoesNegative | app/routers/files.py:122-123 | a user who owns nothing and deletes someone else's file ends with file count -1 and byte count minus the file's size |
| Ledger.RowUpdateKeepsLedger | app/routers/files.py:74-76 | changing a file row's other columns, such as `download_count`, keeps the ledger |
| Ledger.NewUserKeepsLedger | app/models.py:17-18 | a new user with zero counters who owns nothing keeps the ledger |
| Auth.Utf8Width | app/auth.py:23 | UTF-8 uses 1 to 4 bytes per character, and 1 exactly for ASCII |
| Auth.FitUtf8 | app/auth.py:23-26 | encoding, keeping `budget` bytes and decoding with `errors='ignore'` yields the longest prefix whose encoding fits; the whole string when it fits |
| Auth.FitUtf8IgnoresTail | app/auth.py:31-34 | characters after the byte budget is used up do not change the truncated string |
| Auth.BcryptInput | app/auth.py:31-34 | the string handed to bcrypt is the longest prefix of the password whose encoding has at most 72 bytes: the whole password when it fits |
| Auth.GetPasswordHash | app/auth.py:29-34 | the hashed string is the longest prefix of the password of at most 72 bytes, and the whole password when it fits |
| Auth.VerifyPassword | app/auth.py:21-26 | a digest of a string over 72 bytes never matches; a password of at most 72 bytes matches exactly the digest of itself |
| Auth.VerifyAgainstHash | app/auth.py:21-34 | a password verifies against a stored hash exactly when both truncate to the same string; every password verifies against its own hash |
| Auth.LongPasswordTailIgnored | app/auth.py:21-34 | anything appended to a password of 72 or more bytes still verifies against the password's hash |
| Auth.CreateAccessToken | app/auth.py:37-41 | the subject is kept; expiry is now plus the delta, or plus 60 minutes when the delta is missing or zero |
| Auth.FirstField | app/auth.py:60 | the text before the first space: a prefix without spaces, followed by a space or the end |
| Auth.GetTokenFromRequest | app/auth.py:55-67 | a `Bearer ` header wins and yields the field after the prefix; otherwise a non-empty cookie; otherwise no token |
| Auth.GetUserByEmail | app/auth.py:44-45 | a user with that email exists exactly when one is returned, and the one returned has that email |
| Auth.AuthenticateUser | app/auth.py:48-52 | a user is returned exactly when a user with that email exists whose hash the password verifies against |
| Auth.GetCurrentUser | app/auth.py:70-95 | every failure is 401; success exactly when the token decodes to a subject that names a user, and that user is returned |
| Auth.GetCurrentActiveUser | app/auth.py:98-103 | passes the current user through when active; an inactive user gets 400; a failure of `get_current_user` passes through unchanged |
| Auth.GetCurrentAdmin | app/auth.py:106-111 | success only for an active admin, and the id admitted is the current active user; an active non-admin gets 403; earlier failures pass through |
| Files.MayAccess | app/routers/files.py:71-72 | access needs an existing file; an admin may access every file, anyone else exactly the files they own |
| Files.ContentTypeOrDefault | app/routers/files.py:46-49 | a missing or empty content type becomes `application/octet-stream`; any other is kept |
| Files.ListMyFiles | app/routers/files.py:22-33 | exactly the caller's files, each once, most recent upload first |
| Files.NewFile | app/routers/files.py:47-53 | the inserted row: the caller as owner, the given size and key, zero downloads, no folder, not trashed |
| Files.UploadFile | app/routers/files.py:36-60 | inserts one file row and stores its blob under a fresh key; credits the caller; keeps the schema rules and the ledger |
| Files.GenerateDownloadLink | app/routers/files.py:63-78 | 404 with no change unless the caller owns the file or is an admin; otherwise one more download and a URL for the file's key; keeps the ledger |
| Files.CreateShareLink | app/routers/files.py:81-101 | 404 with no change unless the caller may access the file; otherwise one new link with a fresh token, expiring `minutes` minutes from now |
| Files.DeleteFile | app/routers/files.py:104-130 | 404 with no change without access; otherwise the row and its links go, the blob goes unless the store fails, and the CALLER is debited; the ledger is kept when the caller owns the file |
| Files.DeleteFileDebitingOwner | app/routers/files.py:104-130 | the same deletion with the debit on the file's owner; keeps the ledger for every caller |
| Files.UseShareLink | app/routers/files.py:133-148 | 404 for an unknown token; 410 when expired; 404 when the file is gone; otherwise the file's name and a 600-second URL for its key |
| Files.ShareResolution | app/routers/files.py:139-148 | with unique tokens, the link holding the token decides the outcome: 410 exactly when its expiry is past, then 404 exactly when its file is missing, else the file |
| Files.LiveLinkResolves | app/models.py:37-45 | when the foreign key holds, every unexpired link resolves |
| Folders.ListFolders | app/routers/folders.py:13-31 | 404 exactly when a named parent is not the caller's; otherwise exactly the caller's folders under that parent, or under the root when none is named, each once, in name order |
| Folders.ZeroParentIsUnlisted | app/routers/folders.py:22-29 | a folder with parent 0 is listed under no parent; listing parent 0 answers 404 |
| Folders.NameTaken | app/routers/folders.py:48-54 | the name is taken exactly when it is among the names the caller's folders use under that parent |
| Folders.ListedNameExists | app/routers/folders.py:48-54 | a name is among the child names exactly when some folder of the caller under that parent has it |
| Folders.HoldsLiveFile | app/routers/folders.py:80-85 | the count of files in the folder that are not trashed is positive exactly when such a file exists |
| Folders.LiveFileCountPositive | app/routers/folders.py:80-85 | the count of untrashed files in a folder is positive exactly when there is one |
| Folders.HasSubfolder | app/routers/folders.py:89-93 | the count of folders whose parent is this folder is positive exactly when such a folder exists |
| Folders.SubfolderCountPositive | app/routers/folders.py:89-93 | the count of subfolders is positive exactly when there is one |
| Folders.CreateFolder | app/routers/folders.py:34-65 | 404 for a truthy parent the caller does not own; then 400 for a name taken under the same parent; otherwise one new folder; errors change nothing; keeps sibling names unique |
| Folders.DeleteFolder | app/routers/folders.py:68-98 | 404 unless owned; 400 while a file that is not trashed is inside, or any folder is below; otherwise only that folder row goes |
| Folders.UpdateError | app/routers/folders.py:110-135 | the error each failed check raises, in the code's order: 404 for a folder not owned, 400 for a taken name, 400 for itself as parent, 404 for a truthy parent not owned; no error exactly when all four checks pass |
| Folders.Updated | app/routers/folders.py:114-137 | the owner stays; the name changes only for a non-empty name; the parent changes whenever one is given |
| Folders.UpdateFolder | app/routers/folders.py:101-142 | the error outcomes change nothing; success replaces exactly that folder's row |
| Folders.RenameKeepsSiblingNamesUnique | app/routers/folders.py:114-126 | an accepted rename keeps sibling names unique |
| Folders.MoveCanDuplicateSiblingName | app/routers/folders.py:128-137 | an accepted move can put two folders with the same name under one parent |
| Folders.MoveCanCloseCycle | app/routers/folders.py:128-137 | an accepted move can make two folders each other's parent |
| Users.NewUser | app/routers/users.py:25-30 | the new row is active, has zero counters, is admin as told, and its hash verifies the chosen password |
| Users.RegisterUser | app/routers/users.py:20-34 | 400 with no change when `get_user_by_email` finds the email; otherwise one new user, admin exactly when the table was empty; keeps the schema rules and the ledger |
| Users.RegistrationAdminRule | app/routers/users.py:24-29 | the first registration leaves one user, an admin; later registrations add non-admins |
| Users.RegisteredUserAuthenticates | app/routers/users.py:20-34 | after registration the emails stay unique, and the email with the chosen password authenticates as the new user |
| Users.Login | app/routers/users.py:37-61 | 401 exactly when authentication fails; otherwise a 60-minute token for the email, as the body's bearer token and as the `access_token` cookie of a day |
| Users.LoginTokenAuthenticates | app/routers/users.py:46-59 | the login token, sent back as a cookie or as a bearer header, makes the guard return the same user |
| Users.InactiveUserLogsInButIsRefused | app/routers/users.py:43-46 | an inactive user with the right password logs in, and the guard then answers 400 |
| Stats.TopUserIds | app/services/stats.py:11-16 | min(5, users) distinct users in descending byte counter order, none of them below any user left out |
| Stats.AdminSummary | app/services/stats.py:7-26 | counts both tables; the byte total is the size sum of all files, never negative and 0 for no files; the top rows are the name, email and counter of the users `TopUserIds` ranks, in its order |
| Stats.CountersSumOwnedSize | app/services/stats.py:10 | under a consistent ledger, the users' byte counters add up to the size of the files they own |
| Stats.SummaryBytesMatchCounters | app/services/stats.py:10 | under a consistent ledger with every owner present, the dashboard's byte total is the sum of the users' counters |
| Stats.TopUserBytesAreOwnedSize | app/services/stats.py:17-26 | under a consistent ledger, each listed byte count is the total size of the files that user owns |

## Left out

- Object store: uploads, deletes and URL signing are modelled by the set of keys held and by `PresignedUrl(key, lifetime)`. Network errors are the boolean `blobDeleteFails`. An upload that fails before the row is written is not modelled.
- bcrypt's salt and cost, and JWT signing and expiry checking, are outside the model. Hashing is ideal (`BcryptHash(input)`). Decoding is a parameter.
- Header names are matched exactly. Starlette's case-insensitive header lookup is not modelled.
- Files.CreateShareLink: the expiry is `now + minutes * 60` for every `minutes`. The code's `datetime` arithmetic raises an overflow error, which answers 500 and writes nothing, when the expiry falls outside years 1 to 9999; that error path is not modelled. The query's default of 30 minutes is applied before the handler runs, so `minutes` is the value in effect.
- Files.GenerateDownloadLink: `expiresIn` is the value in effect; the query's default of 600 seconds is not modelled separately.
- Users.RegisterUser: `email` is the address after `EmailStr` validation, which normalizes it (it lower-cases the domain and strips surrounding whitespace and any display name); that validation and the rest of request-body parsing are not modelled.
- Users.RegisteredUserAuthenticates: login compares the raw form `username` with the stored address (app/routers/users.py:43), so the lemma holds for a login that spells the email exactly as it was stored; a login with another spelling of the same address fails and is not modelled.
- Auth.FitUtf8: assumes every `char` is a Unicode scalar value. Lone surrogates, which `encode('utf-8')` rejects, are not modelled.
- `read_current_user` (app/routers/users.py:64-66) only returns the guard's result. `Auth.GetCurrentActiveUser` covers it.
- `app/main.py`, `app/routers/admin.py`, `app/config.py`, `app/services/storage.py` and `migrate_db.py` are not part of this model. The limit of 5 top users, the 600-second download lifetime and the 60-minute token lifetime are copied in as constants.
- Concurrency, transactions and rollback are not modelled: each handler is one atomic step, and an error changes nothing.
- Trash, restore, favourites and the other columns the migration script adds are not modelled beyond `is_trashed` and `folder_id`. Those two are read by the folder handlers.
- The `Folder` table, `files.folder_id` and `files.is_trashed` are absent from app/models.py. The model takes their shape from how app/routers/folders.py uses them. That router is also not mounted by the application.
- The store is taken to be SQLite, the configured default (app/config.py:7): text compares in its default binary collation, which is the code-point order of `Ordering.NameLe`, and foreign keys are not enforced, which is why a folder can be stored with parent 0.
- Integer widths are not modelled: `BigInteger` and `Integer` columns are unbounded. `size` is a `nat`.
- Timestamps are integer seconds. Sub-second precision of `datetime.utcnow()` is not modelled.
- The order among rows with equal sort keys is left unspecified, as SQL leaves it.

## Findings

| source | as written | input that shows it | evidently intended | confidence | as-written member | corrected member |
|---|---|---|---|---|---|---|
| app/routers/files.py:122-123 | `delete_file` debits `current_user`, who may be an admin deleting someone else's file | admin A (no files) deletes file F of size 100 owned by user B: A ends with file_count -1 and total_bytes -100; B keeps counting F | debit the file's owner, so every user's counters keep matching the files they own | not executed | Files.DeleteFile, Ledger.DebitOtherBreaksLedger, Ledger.DebitOtherGoesNegative | Files.DeleteFileDebitingOwner, Ledger.DebitOwnerKeepsLedger |
