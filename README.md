# LoclLock vault core in Dafny

LoclLock is a local password vault. Every credential is an *account*: a site, a username, the password encrypted with Fernet under the active master key, a category and two timestamps. This project models the parts that decide what the vault keeps and who may change it:

- **The controller** (`VaultController`). A lock gate sits in front of every account operation. Add and update encrypt before they store. Master-key rotation decrypts every stored ciphertext under the old key and re-encrypts it under the new one, all in one transaction. If any step fails, it rolls back, reactivates the old key and re-raises.
- **The SQLite store** (`StorageService`). The `accounts` table and the `meta` table, the connection, the rollback-on-error executor and explicit transactions.
- **The in-memory collection** (`Vault`).
- **The two records**, `Account` and `Category`: validation and dictionary round trips.

The cryptography is abstract. `Crypto.Primitives` holds an encryption, a decryption, a key derivation and a SHA-256 hex digest as function values. `Crypto.Sound` is the one law assumed about them: decrypting with the key that encrypted gives the plaintext back. Whether SQLite refuses something is not modelled. The store is built with two oracles: `rejects` decides whether a statement is refused (say, on a locked file or a full disk), and `fails` decides whether a call on the connection itself is refused, namely committing or opening the file. A refused statement or a refused commit inside `execute` triggers the rollback-and-raise path there. A refused explicit `commit()` raises and leaves the transaction open. A refused `connect()` leaves the store closed.

Module layout, one file each:

| file | module | what it holds |
|---|---|---|
| outcomes.dfy | Outcomes | `Option`, `Result`, `Outcome` and the Python exceptions as `Error` |
| text.dfy | Text | `str.strip()` blankness, ASCII `lower()`, substring test |
| clock.dfy | Clock | `datetime`, `isoformat()` and `fromisoformat()` with their round trip |
| dicts.dfy | Dicts | Python dictionaries of `None`/`int`/`str` and `dict.get`/`dict[...]` |
| accounts.dfy | Accounts | models/account.py |
| categories.dfy | Categories | models/category.py |
| vaults.dfy | Vaults | models/vault.py, `class Vault` |
| crypto.dfy | Crypto | the encryption service as the controller calls it |
| logging.dfy | Logging | the logger as an append-only list of entries |
| storage.dfy | Storage | services/storage_service.py, `class StorageService` |
| controller.dfy | Controller | controller/vault_controller.py, `class VaultController` |

### How the storage is modelled

`Db` is a value with three parts:

- `accounts`, a map from rowid to row;
- `nextId`, the next rowid SQLite hands out;
- `meta`, a map from name to value.

`StorageService.saved` is what is committed to the file and `db` is what the connection sees. They differ only while a transaction is open, so `saved` is the snapshot that a rollback restores.

The model follows Python's `sqlite3` module in its default mode:

- A write without `commit=True` implicitly opens a transaction.
- `BEGIN` inside an open transaction fails with `OperationalError`.
- Closing without a commit discards what was pending.

### Where the source and the intended behaviour part

The source calls several attributes and methods that do not exist. The model follows what the code evidently means:

- `execute`, `begin_transaction`, `commit` and `rollback` use `self._cursor`/`self._conn`. Only `cursor`/`conn` are ever assigned. The model uses `cursor`/`conn`; see Findings.
- `get_accounts_by_category_id` binds `(category_id)`. The model binds the one-element tuple; see Findings.
- `Account.from_row` is not defined in models/account.py. A row is modelled as the `Account` it stores.
- `update_encrypted_password` and `update_master_key_hash` are called by the controller but not defined in the store. They are modelled as narrow updates inside the caller's transaction, without a commit:
  - The first replaces only the ciphertext of one row; even `updated_at` stays.
  - The second upserts `master_key_hash` in `meta`.
- The controller calls `load_key(key)`, `encrypt(plain)` and `decrypt(token)`. The encryption service in services/encryption_service.py instead takes the key as a second argument, and it has no `load_key`. The model gives the service an active key, set by `LoadKey`. Encrypting without a key is a `TypeError`.
- main.py builds `EncryptionService(storage)` against a constructor that takes no arguments. The model's constructor takes the primitives.

## Model

| member | source | states |
|---|---|---|
| Text.Lower | models/vault.py:40-43 | lower-casing keeps the length and lower-cases each character (ASCII) |
| Text.EmptyIsContained | models/vault.py:39-44 | the empty string occurs in every string |
| Clock.Digits | models/account.py:68-69 | a zero-padded decimal field has exactly the requested width and only digits |
| Clock.ParseDigits | models/account.py:80-81 | a field parses exactly when it is all digits |
| Clock.DigitsRoundTrip | models/account.py:68-81 | parsing a padded field gives back the number when it fits the width |
| Clock.IsoFormat | models/account.py:68-69 | `isoformat()` is 19 characters, or 26 when there are microseconds |
| Clock.FromIsoFormat | models/account.py:80-81 | `fromisoformat` accepts only text in one of the two `isoformat` layouts (separators at their places, 19 characters or 26 with a `.` fraction), and accepts such text exactly when its fields read as a valid moment |
| Clock.FromFields | models/account.py:80-81 | the fields are read iff every one is all digits and the moment they denote is in `datetime`'s ranges; the result carries each field's decimal value, and no fraction means zero microseconds |
| Clock.FieldsRoundTrip | models/account.py:68-81 | the printed fields of a valid moment parse back to it |
| Clock.IsoRoundTrip | models/account.py:68-81 | `fromisoformat(isoformat(d)) == d` for every valid moment |
| Dicts.Get | models/account.py:75 | `dict.get` gives the entry, or `None` when the key is missing |
| Dicts.Index | models/account.py:76-81 | `dict[key]` gives the entry, or raises `KeyError(key)` exactly when the key is missing |
| Dicts.OptionalInt | models/account.py:34 | the record's optional `int` id: `None` is no id and an int is that id. A string, which the source would store, cannot be held (see Left out) |
| Dicts.OptionalText | models/category.py:23 | the record's optional `str` icon: `None` is no icon and a string is that icon. An int, which the source would store, cannot be held (see Left out) |
| Dicts.StrValue | models/account.py:37 | the record's `str` ciphertext: only a string can be held (see Left out) |
| Dicts.RequireText | models/account.py:48-52 | `not v or not v.strip()`: falsy values (`None`, `0`, `""`) and whitespace-only strings raise `ValueError`, a non-zero int raises `AttributeError` from `strip`, any other string passes |
| Accounts.Validate | models/account.py:47-58 | passes iff site and username are non-blank strings, the ciphertext is truthy (whitespace passes) and the category is an int; errors in the source's order with its messages |
| Accounts.Construct | models/account.py:24-58 | a failed `validate` raises its error; on success the account holds exactly the given fields and is valid |
| Accounts.NewAccount | models/account.py:24-43 | blank site, blank username, then empty ciphertext raise in that order; a whitespace ciphertext is kept; given timestamps are kept and missing ones become `now` |
| Accounts.ToDict | models/account.py:61-70 | `to_dict` has exactly the seven keys |
| Accounts.ParseTimestamp | models/account.py:80-81 | `fromisoformat` on a string yields what the layout parse yields, otherwise `ValueError`; a non-string raises `TypeError` |
| Accounts.FromDict | models/account.py:72-82 | a dictionary that converts held all six required keys and gives a valid account; a missing `site` raises `KeyError('site')` |
| Accounts.FromDictTimestamps | models/account.py:80-82 | both timestamps were present when the conversion succeeds |
| Accounts.TimestampRoundTrip | models/account.py:68-81 | a stored timestamp read back with `fromisoformat` is the same moment |
| Accounts.ToDictEntries | models/account.py:61-70 | what `to_dict` stores under each key |
| Accounts.ConstructOfAccount | models/account.py:24-58 | the constructor rebuilds a valid account from its own fields |
| Accounts.FromDictReads | models/account.py:74-79 | `from_dict` reads id, site, username, ciphertext and category from any dictionary holding them |
| Accounts.TimestampsRead | models/account.py:80-82 | well-formed timestamps reach the constructor unchanged |
| Accounts.FromDictToDict | models/account.py:61-82 | `from_dict(to_dict(a)) == a` for every valid account, timestamps included |
| Accounts.Touch | models/account.py:85-86 | `touch` replaces `updated_at` with now and no other field, validity included |
| Accounts.WithCategory | models/vault.py:33-37 | the filter keeps exactly the accounts of that category and never grows the list |
| Accounts.WithCategoryAppend | models/vault.py:33-37 | filtering distributes over concatenation, so order is preserved |
| Categories.Validate | models/category.py:28-33 | a name passes iff it is a non-blank string at least 2 long; `not name or not name.strip()` raises "can't be null" (or `AttributeError` for a non-zero int), a short name raises the "3 char" message |
| Categories.Construct | models/category.py:15-25 | a failed `validate` raises its error; on success the category holds the given id, name and icon |
| Categories.NewCategory | models/category.py:15-25 | any valid name is accepted with any id and icon (`None` included); a blank name raises "can't be null", a short one the "3 char" message |
| Categories.SingleCharacterRefused | models/category.py:32-33 | a one-character non-blank name is refused by the length test |
| Categories.ToDict | models/category.py:36-41 | `to_dict` has exactly the keys id, name and icon |
| Categories.FromDict | models/category.py:43-49 | `name` is required, a missing id or icon becomes `None` |
| Categories.FromDictToDict | models/category.py:36-49 | `from_dict(to_dict(c)) == c` for every valid category |
| Vaults.AppendKeepsUnique | models/vault.py:20-22 | appending an account with a new login keeps logins unique |
| Vaults.WithoutId | models/vault.py:24-27 | removing never grows the list |
| Vaults.WithoutIdMembers | models/vault.py:24-27 | removal keeps exactly the accounts with another id |
| Vaults.WithoutIdAppend | models/vault.py:24-27 | removal distributes over concatenation, so the kept accounts stay in order |
| Vaults.WithoutAbsentId | models/vault.py:24-27 | removing an id nobody has leaves the list as it was |
| Vaults.WithoutIdIdempotent | models/vault.py:24-27 | removing an id twice is removing it once |
| Vaults.SiteMatches | models/vault.py:39-44 | the site filter never grows the list |
| Vaults.SiteMatchesMembers | models/vault.py:39-44 | matches are exactly the accounts whose lower-cased site contains the lower-cased keyword |
| Vaults.SiteMatchesAppend | models/vault.py:39-44 | the site filter distributes over concatenation, so matches stay in order |
| Vaults.EmptyKeywordMatchesAll | models/vault.py:39-44 | the empty keyword matches every account, in order |
| Vaults.ToDicts | models/vault.py:63-65 | `to_list` converts each account in order |
| Vaults.FromDicts | models/vault.py:67-70 | `from_list` converts each item in order and fails if any item fails; the error it raises is that of the first item that fails, every earlier item having converted |
| Vaults.FromDictsToDicts | models/vault.py:63-70 | `from_list(to_list(s))` gives back valid accounts unchanged |
| Vaults.Vault.constructor | models/vault.py:16-17 | the given list (or the empty one) is kept as is, unchecked |
| Vaults.Vault.CheckDuplicate | models/vault.py:53-61 | passes iff no stored account has the same site and username, else raises the duplicate message |
| Vaults.Vault.AddAccount | models/vault.py:20-22 | a duplicate login raises and changes nothing; otherwise the account is appended last; unique logins stay unique |
| Vaults.Vault.RemoveAccount | models/vault.py:24-27 | the list becomes the accounts with another id, in order; an absent id changes nothing |
| Vaults.Vault.GetAllAccounts | models/vault.py:29-30 | a list with the same accounts in the same order |
| Vaults.Vault.FindByCategory | models/vault.py:33-37 | exactly the stored accounts of that category |
| Vaults.Vault.FindBySite | models/vault.py:39-44 | exactly the accounts whose site contains the keyword ignoring case; the empty keyword gives the whole list |
| Vaults.Vault.GetById | models/vault.py:46-50 | the first account with that id, or `None` exactly when none has it |
| Vaults.Vault.ToList | models/vault.py:63-65 | one `to_dict` per stored account, in order |
| Vaults.Vault.FromList | models/vault.py:67-70 | a fresh vault holding the converted accounts, or the first conversion error |
| Crypto.EncryptionService.constructor | services/encryption_service.py:30-33 | a new service has sound primitives and no active key |
| Crypto.EncryptionService.LoadKey | controller/vault_controller.py:116 | the given key becomes the active one |
| Crypto.EncryptionService.Encrypt | services/encryption_service.py:58-64 | plaintexts under 8 characters are refused first, then a missing key; an accepted one decrypts back under the active key |
| Crypto.EncryptionService.Decrypt | services/encryption_service.py:66-69 | succeeds iff a key is loaded and it verifies the token, giving its plaintext; a loaded key that does not verify raises `InvalidToken`, and no key raises `TypeError` |
| Crypto.EncryptionService.DecryptEncrypt | services/encryption_service.py:58-69 | what `encrypt` produced, `decrypt` turns back into the plaintext |
| Logging.DigitsOf | controller/vault_controller.py:37 | `str(n)`: decimal digits only, no leading zero, and their decimal value is `n` |
| Logging.IdDetail | controller/vault_controller.py:37 | `f"id={account_id}"`: "id=" followed by digits whose value is the id, with a leading `-` when the id is negative |
| Logging.LogService.constructor | services/log_service.py:5-6 | a new logger has written nothing |
| Logging.LogService.Info | services/log_service.py:8-9 | appends one INFO entry and nothing else |
| Logging.LogService.Warning | services/log_service.py:11-12 | appends one WARNING entry and nothing else |
| Logging.LogService.Error | services/log_service.py:14-15 | appends one ERROR entry and nothing else |
| Logging.LogService.Security | services/log_service.py:17-18 | appends one SECURITY entry and nothing else |
| Storage.Updated | services/storage_service.py:99-118 | the UPDATE replaces site, username, ciphertext, category and `updated_at`; id and `created_at` stay |
| Storage.Apply | services/storage_service.py:51-122 | statements keep the table well formed, and queries change nothing |
| Storage.RowCount | services/storage_service.py:93-122 | `rowcount` is 1 exactly when the deleted or updated id existed, -1 after a query |
| Storage.Rows | services/storage_service.py:70-81 | `SELECT *` lists every stored row and nothing else |
| Storage.RowsAscending | services/storage_service.py:70-81 | the rows come out with their own ids, strictly ascending |
| Storage.RowsAreTable | services/storage_service.py:70-81 | the rows are exactly the table's values |
| Storage.RowById | services/storage_service.py:83-91 | the row with that id, or `None` exactly when there is none |
| Storage.StorageService.constructor | services/storage_service.py:20-23 | a new service is not connected, sees the stored file and keeps the two refusal oracles it is given |
| Storage.StorageService.Connect | services/storage_service.py:26-29 | opens a connection and cursor only when none is open; a refused open raises and leaves the store closed; the data is unchanged |
| Storage.StorageService.Close | services/storage_service.py:31-35 | no connection afterwards, and pending changes are discarded; closed stays closed |
| Storage.StorageService.Execute | services/storage_service.py:38-45 | a refused statement, or a refused commit after it, rolls back to the committed state and raises; otherwise the statement is applied, and with `commit` made durable |
| Storage.StorageService.SaveAccount | services/storage_service.py:51-68 | succeeds iff neither the insert nor its commit is refused; the returned id was free, the row is stored with that id and all six fields, other rows stay, and it is committed |
| Storage.StorageService.GetAllAccounts | services/storage_service.py:70-81 | every row in rowid order, the data unchanged |
| Storage.StorageService.GetAccountById | services/storage_service.py:83-91 | that row, or `None` exactly when no row has the id |
| Storage.StorageService.DeleteAccountById | services/storage_service.py:93-97 | true iff the row existed; afterwards it does not, so a second delete gives false |
| Storage.StorageService.UpdateAccount | services/storage_service.py:99-122 | true iff the id existed; only the five updated columns change, `created_at` stays; committed |
| Storage.StorageService.GetAccountsByCategoryId | services/storage_service.py:124-135 | exactly the rows of that category, in rowid order |
| Storage.StorageService.UpdateEncryptedPassword | controller/vault_controller.py:127 | one row's ciphertext is replaced inside the open transaction, nothing else changes |
| Storage.StorageService.UpdateMasterKeyHash | controller/vault_controller.py:129-130 | the stored key hash is replaced inside the open transaction |
| Storage.StorageService.BeginTransaction | services/storage_service.py:139-140 | opens a transaction unless one is already open, which raises |
| Storage.StorageService.Commit | services/storage_service.py:142-143 | succeeds iff SQLite takes the commit, and then what the connection sees becomes durable; a refused commit raises and leaves the transaction as it was |
| Storage.StorageService.Rollback | services/storage_service.py:145-146 | the connection sees the committed state again: everything since `begin` is undone |
| Storage.ExecuteAsWritten | services/storage_service.py:38-45 | `execute` as written gets past its first line only if `_cursor` exists |
| Storage.ExecuteAsWrittenFails | services/storage_service.py:20-45 | with the attributes `__init__` sets, every `execute` raises `AttributeError` |
| Storage.CategoryParametersAsWritten | services/storage_service.py:125 | `(category_id)` is the bare integer, not a sequence |
| Storage.Bind | services/storage_service.py:124-125 | parameters bind only when they are a sequence |
| Storage.CategoryParametersAsWrittenRefused | services/storage_service.py:124-125 | `(category_id)` does not bind, `(category_id,)` does |
| Controller.Describe | controller/vault_controller.py:137 | `str(e)`: a one-argument exception's message; a `KeyError` gives its key in quotes; an `InvalidToken` gives the empty string |
| Controller.RotatedReadable | controller/vault_controller.py:114-133 | after a rotation every ciphertext decrypts under the new key |
| Controller.RotationsCompose | controller/vault_controller.py:108-133 | two rotations in a row are one rotation from the first key to the last |
| Controller.VaultController.constructor | controller/vault_controller.py:7-12 | a new controller is locked |
| Controller.VaultController.UnlockVault | controller/vault_controller.py:14-15 | unlocks |
| Controller.VaultController.LockVault | controller/vault_controller.py:17-18 | locks |
| Controller.VaultController.Cleanup | controller/vault_controller.py:20-21 | the store is closed and the committed data unchanged |
| Controller.VaultController.AddAccount | controller/vault_controller.py:23-39 | locked raises `PermissionError`; encrypt errors propagate; on success the new id's row holds the ciphertext, which decrypts to the raw password, and the log entry is written after the save; a failure changes nothing and logs nothing |
| Controller.VaultController.UpdateAccount | controller/vault_controller.py:41-66 | locked raises; an unknown id raises `ValueError` with nothing written; a blank password keeps the old ciphertext, otherwise a fresh one; `created_at` carries over; the log entry is written on success only |
| Controller.VaultController.DeleteAccount | controller/vault_controller.py:68-77 | locked raises; returns whether the row existed, removes it, and logs only when true |
| Controller.VaultController.ListAccounts | controller/vault_controller.py:79-82 | locked raises; otherwise exactly the stored accounts |
| Controller.VaultController.ListByCategory | controller/vault_controller.py:84-87 | locked raises; otherwise exactly the stored accounts of that category |
| Controller.VaultController.SearchAccounts | controller/vault_controller.py:101-106 | locked raises; otherwise whatever the search collaborator returns |
| Controller.VaultController.ChangeMasterKeyAndReencrypt | controller/vault_controller.py:108-139 | locked raises, touching nothing. Success: every ciphertext decrypts under the new key to its old plaintext, the hash is the new key's, the new key is active, logged start then success. Failure at any step, a refused commit included: store unchanged after the rollback, old key active, logged start then the error. An unobstructed rotation, one where every statement and the commit are taken, succeeds. Key consistency is preserved |
| Controller.VaultController.Reencrypt | controller/vault_controller.py:112-133 | the `try` body: on success the committed table is the rotated one with the new hash; on failure, a refused commit included, nothing is committed |
| Controller.VaultController.DecryptStored | controller/vault_controller.py:114-122 | after `BEGIN`, every stored ciphertext's plaintext under the old key, once each in id order; succeeds when all are readable |
| Controller.VaultController.DecryptAll | controller/vault_controller.py:118-122 | pairs each account's id with its plaintext, or `InvalidToken` when some ciphertext does not decrypt |
| Controller.VaultController.WriteReencrypted | controller/vault_controller.py:124-127 | each listed row gets the new key's encryption of its plaintext and nothing else changes; succeeds when every write is accepted |
| Controller.ListedPlaintexts | controller/vault_controller.py:117-122 | decrypting the rows in order lists every account exactly once |
| Controller.UnobstructedWrites | controller/vault_controller.py:120-127 | an unobstructed rotation's writes are all accepted and all plaintexts long enough |
| Controller.RotationComplete | controller/vault_controller.py:124-133 | rewriting every listed row under the new key is a rotation |

## Left out

- Fernet, PBKDF2 and SHA-256 are function values of `Crypto.Primitives`, with only the round-trip law assumed. Fernet's random IV and timestamp are not modelled: encryption is deterministic. Fernet's key-format errors are not modelled either.
- `derive_key` and the config file it reads are only a field of `Crypto.Primitives`, because nothing in the controller calls them.
- A rotation that leaves no ciphertext decryptable under the old key is not derivable from the round-trip law alone, so it is not stated.
- `get_categories_for_dashboard` is not modelled. It calls `get_categories_with_stats` and `get_total_account_count`, which the store does not define, and it reads a categories table the model does not hold.
- The search service's SQL `LIKE` query is the collaborator `globalSearch`, which cannot fail. The in-memory `find_by_site` is modelled in full.
- Case-insensitive matching lower-cases ASCII letters only: there is no Unicode case mapping.
- `Account` is a value, so `touch` returns a new account. Aliasing of one `Account` object between the vault and its callers is not captured.
- Vaults.Vault.constructor: the list is kept as a value. In the source, a non-empty list passed to `Vault(accounts)` is the very list object the vault holds. `add_account` then appends in place, so the caller's list grows too until `remove_account` rebinds `_accounts`. That sharing is not captured.
- Dicts.OptionalInt: a string `id`, which the source stores unchecked (models/account.py:34, models/category.py:21), cannot be held by the record's `int | None` id and is refused with `TypeError`.
- Dicts.OptionalText: an int `icon`, which the source stores unchecked (models/category.py:23), cannot be held by the record's `str | None` icon and is refused with `TypeError`.
- Dicts.StrValue: a non-zero int `encrypted_password`, which `validate` accepts (models/account.py:54), cannot be held by the record's `str` ciphertext and is refused with `TypeError`.
- Accounts.Construct / Accounts.FromDict: refuse with `TypeError`, after validation, a string id or an int ciphertext that the source keeps. Every exception the source raises is raised in its order.
- Categories.Construct / Categories.FromDict: refuse with `TypeError`, after validation, a string id or an int icon that the source keeps.
- Vaults.FromDicts / Vaults.Vault.FromList: inherit the refusals of `Accounts.FromDict` for values outside the record's types.
- `datetime.now()` is the parameter `now`, one per call. The separate `now()` that the storage's `update_account` takes is the same `now` the controller used.
- Accounts.NewAccount: reads the clock once where the source reads it twice (models/account.py:40-41). So a new account from `AddAccount` always has `created_at == updated_at`, while the source's two reads can differ by microseconds.
- Controller.VaultController.SearchAccounts: the search result is not related to the store's contents, because the query lives in SQL text.
- Logging never fails and writes no `logs` row. In the source, the logger writes through `storage.execute(..., commit=True)`, so a failing log after a successful rotation's commit would also reload the old key. `storage.log` is not modelled.
- `fetchone`/`fetchall` are not modelled separately: fetching is folded into the query methods.
- The model's rowids are never reused, as with AUTOINCREMENT. Plain SQLite may reuse the largest rowid after a delete.
- Calling the store while it is closed is excluded by a precondition. The source would fail on `None` there.
- Dictionaries hold only `None`, `int` and `str`. `fromisoformat` accepts only the two layouts `isoformat` produces.
- The controller receives `category_id` as an `int`. Its `isinstance` check in `validate` is modelled in `Accounts.Validate`.
- `str(e)` of a storage error is the placeholder "database error", since SQLite's messages are not modelled.
- The 4-character master-password minimum in main.py is not part of this model. Neither is any other part of main.py, ui/dashboard.py or services/vault_service.py.

## Findings

| source | as written | input that shows it | evidently intended | confidence | as-written member | corrected member |
|---|---|---|---|---|---|---|
| services/storage_service.py:38-45 | `execute` uses `self._cursor` and `self._conn`, but `__init__` and `connect` only assign `conn` and `cursor`; `begin_transaction`, `commit` and `rollback` (139-146) do the same | any call, e.g. `save_account(a)` after `connect()`: the lookup of `_cursor` raises, and the handler's lookup of `_conn` raises `AttributeError` | use `self.cursor` and `self.conn` | not executed; high | Storage.ExecuteAsWritten, Storage.ExecuteAsWrittenFails | Storage.StorageService.Execute |
| services/storage_service.py:125 | the parameters are `(category_id)`, which is the integer itself, not a tuple | `get_accounts_by_category_id(1)`: sqlite3 refuses parameters that are not a sequence | the one-element tuple `(category_id,)` | not executed; medium (the exception class differs between Python versions) | Storage.CategoryParametersAsWritten, Storage.CategoryParametersAsWrittenRefused | Storage.StorageService.GetAccountsByCategoryId |
