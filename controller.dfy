/** The vault controller (controller/vault_controller.py): the lock gate in
    front of every account operation, the add/update/delete/list/search
    operations over the store, and master-key rotation, which re-encrypts
    every stored ciphertext under a new key in one transaction and, when any
    step fails, rolls back and reactivates the old key. */
module Controller {
  import opened Outcomes
  import opened Text
  import opened Clock
  import opened Accounts
  import opened Crypto
  import opened Logging
  import opened Storage

  const VaultIsLocked := "Vault is locked"
  /** Rotation words its lock message differently. */
  const RotationLocked := "Vault locked"
  const AccountNotFound := "Hesap bulunamad\U{0131}!"

  const AccountAdded := "ACCOUNT_ADDED"
  const AccountUpdated := "ACCOUNT_UPDATED"
  const AccountDeleted := "ACCOUNT_DELETED"

  const RotationStart := Entry(Level.Security, "MASTER_KEY_CHANGE_START", "Re-encryption started")
  const RotationSuccess := Entry(Level.Security, "MASTER_KEY_CHANGE_SUCCESS", "All passwords re-encrypted")

  /** `str(e)` for the exceptions rotation can meet. */
  function Describe(e: Error): (r: string)
    ensures (e.PermissionError? || e.ValueError? || e.TypeError? || e.OperationalError? || e.AttributeError?
             || e.ProgrammingError?) ==> r == e.message
    ensures e.KeyError? ==> r == "'" + e.key + "'"
    ensures e.InvalidToken? ==> r == ""
  {
    match e
    case PermissionError(m) => m
    case ValueError(m) => m
    case KeyError(k) => "'" + k + "'"
    case TypeError(m) => m
    case InvalidToken => ""
    case DatabaseError => "database error"
    case OperationalError(m) => m
    case AttributeError(m) => m
    case ProgrammingError(m) => m
  }

  function RotationFailed(e: Error): Entry {
    Entry(Level.Error, "MASTER_KEY_CHANGE_FAILED", Describe(e))
  }

  /** Every stored ciphertext decrypts under `k`. */
  ghost predicate Readable(m: Table, p: Primitives, k: Key) {
    forall id :: id in m ==> p.decrypt(k, m[id].encryptedPassword).Some?
  }

  /** The invariant rotation keeps at every observable boundary: the stored
      ciphertexts decrypt under the active key and the stored verification
      hash is that key's. */
  ghost predicate KeyConsistent(db: Db, p: Primitives, k: Key) {
    && Readable(db.accounts, p, k)
    && MasterKeyHash in db.meta && db.meta[MasterKeyHash] == p.sha256Hex(k)
  }

  /** `after` is `before` re-encrypted from `oldKey` to `newKey`: the same
      accounts, each ciphertext replaced by one that decrypts under `newKey`
      to what the old one decrypted to under `oldKey`, and nothing else
      changed. */
  ghost predicate Rotated(before: Table, after: Table, p: Primitives, oldKey: Key, newKey: Key) {
    && before.Keys == after.Keys
    && forall id :: id in before ==>
         && p.decrypt(oldKey, before[id].encryptedPassword).Some?
         && p.decrypt(newKey, after[id].encryptedPassword) == p.decrypt(oldKey, before[id].encryptedPassword)
         && after[id] == before[id].(encryptedPassword := after[id].encryptedPassword)
  }

  /** Nothing in the way of a rotation of `db`: SQLite takes every statement
      and the commit, and every stored ciphertext decrypts under `oldKey` to a plaintext the
      encryption service accepts. */
  ghost predicate RotationUnobstructed(db: Db, p: Primitives, rejects: Statement -> bool,
                                       fails: ConnectionCall -> bool, oldKey: Key, newKey: Key) {
    && !rejects(SelectAll)
    && !rejects(UpsertMeta(MasterKeyHash, p.sha256Hex(newKey)))
    && !fails(CommitTx)
    && forall id :: id in db.accounts ==>
         var plain := p.decrypt(oldKey, db.accounts[id].encryptedPassword);
         && plain.Some? && |plain.value| >= MinPlaintextLength
         && !rejects(UpdateCiphertext(id, p.encrypt(newKey, plain.value)))
  }

  /** A rotation leaves every ciphertext readable under the new key. */
  lemma RotatedReadable(before: Table, after: Table, p: Primitives, oldKey: Key, newKey: Key)
    requires Rotated(before, after, p, oldKey, newKey)
    ensures Readable(after, p, newKey)
  {
    forall id | id in after
      ensures p.decrypt(newKey, after[id].encryptedPassword).Some?
    {
      assert id in before;
    }
  }

  /** Two rotations in a row are one rotation from the first key to the
      last, so every plaintext survives both. */
  lemma RotationsCompose(a: Table, b: Table, c: Table, p: Primitives, k1: Key, k2: Key, k3: Key)
    requires Rotated(a, b, p, k1, k2) && Rotated(b, c, p, k2, k3)
    ensures Rotated(a, c, p, k1, k3)
  {
    forall id | id in a
      ensures p.decrypt(k3, c[id].encryptedPassword) == p.decrypt(k1, a[id].encryptedPassword)
      ensures c[id] == a[id].(encryptedPassword := c[id].encryptedPassword)
    {
      assert id in b;
    }
  }

  /** Ids strictly ascending along a sequence of (id, plaintext) pairs. */
  ghost predicate AscendingIds(s: seq<(int, string)>) {
    forall i, j :: 0 <= i < j < |s| ==> s[i].0 < s[j].0
  }

  class VaultController {
    const storage: StorageService
    const encryption: EncryptionService
    /** `search.global_search(keyword)` over the accounts table. */
    const globalSearch: (Table, string) -> seq<Account>
    const logger: LogService
    var isLocked: bool

    /** The services are sound, and between operations no transaction is
        open. */
    ghost predicate Valid()
      reads this, storage, encryption
    {
      storage.Valid() && !storage.inTransaction && encryption.Valid()
    }

    /** Valid, with the store connected. */
    ghost predicate Ready()
      reads this, storage, encryption
    {
      Valid() && storage.IsOpen()
    }

    /** `VaultController(...)`: a new controller starts locked. */
    constructor (storage: StorageService, encryption: EncryptionService,
                 globalSearch: (Table, string) -> seq<Account>, logger: LogService)
      ensures this.storage == storage && this.encryption == encryption
      ensures this.globalSearch == globalSearch && this.logger == logger
      ensures isLocked
    {
      this.storage := storage;
      this.encryption := encryption;
      this.globalSearch := globalSearch;
      this.logger := logger;
      isLocked := true;
    }

    method UnlockVault()
      modifies this
      ensures !isLocked
    {
      isLocked := false;
    }

    method LockVault()
      modifies this
      ensures isLocked
    {
      isLocked := true;
    }

    /** `cleanup()`: closes the store. */
    method Cleanup()
      requires Valid()
      modifies storage
      ensures Valid() && !storage.IsOpen()
      ensures storage.db == old(storage.db) && storage.saved == old(storage.saved)
    {
      storage.Close();
    }

    /** `add_account(site, username, raw_password, category_id)`: encrypts
        the password, builds and validates the account, stores it, and logs
        its new id. */
    method AddAccount(site: string, username: string, rawPassword: string, categoryId: int, now: DateTime)
      returns (r: Result<int>)
      requires Ready()
      modifies storage, logger
      ensures Ready()
      ensures isLocked ==> r == Err(PermissionError(VaultIsLocked))
      ensures r.Err? ==> storage.db == old(storage.db) && storage.saved == old(storage.saved)
                         && logger.entries == old(logger.entries)
      ensures !isLocked && encryption.Encrypt(rawPassword).Err? ==> r == Err(encryption.Encrypt(rawPassword).error)
      ensures r.Ok? <==>
                && !isLocked && encryption.Encrypt(rawPassword).Ok?
                && var ciphertext := encryption.Encrypt(rawPassword).value;
                   && !IsBlank(site) && !IsBlank(username) && ciphertext != ""
                   && !storage.Refuses(InsertAccount(Account(None, site, username, ciphertext, categoryId, now, now)), true)
      ensures r.Ok? ==>
                && r.value == old(storage.db.nextId) && r.value !in old(storage.db.accounts)
                && storage.db.accounts == old(storage.db.accounts)[r.value :=
                     Account(Some(r.value), site, username, encryption.Encrypt(rawPassword).value, categoryId, now, now)]
                && storage.db.meta == old(storage.db.meta)
                && encryption.primitives.decrypt(encryption.key.value, storage.db.accounts[r.value].encryptedPassword)
                   == Some(rawPassword)
                && logger.entries == old(logger.entries) + [Entry(Level.Info, AccountAdded, IdDetail(r.value))]
    {
      if isLocked {
        return Err(PermissionError(VaultIsLocked));
      }
      var encrypted :- encryption.Encrypt(rawPassword);
      var account :- NewAccount(site, username, encrypted, categoryId, None, None, None, now);
      var accountId :- storage.SaveAccount(account);
      logger.Info(AccountAdded, IdDetail(accountId));
      return Ok(accountId);
    }

    /** `update_account(account_id, site, username, raw_password,
        category_id)`: an unknown id is refused; a blank password keeps the
        stored ciphertext; the id and `created_at` are carried over. */
    method UpdateAccount(accountId: int, site: string, username: string, rawPassword: string,
                         categoryId: int, now: DateTime)
      returns (r: Result<bool>)
      requires Ready()
      modifies storage, logger
      ensures Ready()
      ensures isLocked ==> r == Err(PermissionError(VaultIsLocked))
      ensures r.Err? ==> storage.db == old(storage.db) && storage.saved == old(storage.saved)
                         && logger.entries == old(logger.entries)
      ensures !isLocked && !storage.rejects(SelectById(accountId)) && accountId !in old(storage.db.accounts) ==>
                r == Err(ValueError(AccountNotFound))
      ensures r.Ok? ==>
                && r.value && accountId in old(storage.db.accounts)
                && (!IsBlank(rawPassword) ==> encryption.Encrypt(rawPassword).Ok?)
                && var existing := old(storage.db.accounts)[accountId];
                   var ciphertext := if IsBlank(rawPassword) then existing.encryptedPassword
                                     else encryption.Encrypt(rawPassword).value;
                   && storage.db.accounts == old(storage.db.accounts)[accountId :=
                        Account(Some(accountId), site, username, ciphertext, categoryId, existing.createdAt, now)]
                   && (!IsBlank(rawPassword) ==>
                         encryption.primitives.decrypt(encryption.key.value, ciphertext) == Some(rawPassword))
      ensures r.Ok? ==> storage.db.nextId == old(storage.db.nextId) && storage.db.meta == old(storage.db.meta)
      ensures r.Ok? ==> logger.entries == old(logger.entries) + [Entry(Level.Info, AccountUpdated, IdDetail(accountId))]
      ensures (&& !isLocked && !storage.rejects(SelectById(accountId)) && accountId in old(storage.db.accounts)
               && (IsBlank(rawPassword) || encryption.Encrypt(rawPassword).Ok?)
               && var existing := old(storage.db.accounts)[accountId];
                  var ciphertext := if IsBlank(rawPassword) then existing.encryptedPassword
                                    else encryption.Encrypt(rawPassword).value;
                  && !IsBlank(site) && !IsBlank(username) && ciphertext != ""
                  && !storage.Refuses(UpdateAccountRow(
                        Account(Some(accountId), site, username, ciphertext, categoryId, existing.createdAt, now), now), true))
              ==> r.Ok?
    {
      if isLocked {
        return Err(PermissionError(VaultIsLocked));
      }
      var found :- storage.GetAccountById(accountId);
      if found.None? {
        return Err(ValueError(AccountNotFound));
      }
      var existing := found.value;
      var ciphertext;
      if !IsBlank(rawPassword) {
        ciphertext :- encryption.Encrypt(rawPassword);
      } else {
        ciphertext := existing.encryptedPassword;
      }
      var updated :- NewAccount(site, username, ciphertext, categoryId, Some(existing.createdAt), None,
                                Some(accountId), now);
      var success :- storage.UpdateAccount(updated, now);
      if success {
        logger.Info(AccountUpdated, IdDetail(accountId));
      }
      return Ok(success);
    }

    /** `delete_account(account_id)`: whether a row was deleted; only a
        deletion is logged. */
    method DeleteAccount(accountId: int) returns (r: Result<bool>)
      requires Ready()
      modifies storage, logger
      ensures Ready()
      ensures isLocked ==> r == Err(PermissionError(VaultIsLocked))
      ensures r.Err? ==> storage.db == old(storage.db) && storage.saved == old(storage.saved)
                         && logger.entries == old(logger.entries)
      ensures r.Ok? <==> !isLocked && !storage.Refuses(DeleteById(accountId), true)
      ensures r.Ok? ==> && r.value == (accountId in old(storage.db.accounts))
                        && storage.db == old(storage.db).(accounts := old(storage.db.accounts) - {accountId})
                        && logger.entries == old(logger.entries)
                             + (if r.value then [Entry(Level.Info, AccountDeleted, IdDetail(accountId))] else [])
    {
      if isLocked {
        return Err(PermissionError(VaultIsLocked));
      }
      var success :- storage.DeleteAccountById(accountId);
      if success {
        logger.Info(AccountDeleted, IdDetail(accountId));
      }
      return Ok(success);
    }

    /** `list_accounts()`: every stored account, in id order. */
    method ListAccounts() returns (r: Result<seq<Account>>)
      requires Ready()
      modifies storage
      ensures Ready()
      ensures isLocked ==> r == Err(PermissionError(VaultIsLocked))
      ensures storage.db == old(storage.db) && storage.saved == old(storage.saved)
      ensures r.Ok? <==> !isLocked && !storage.rejects(SelectAll)
      ensures r.Ok? ==> r.value == Rows(storage.db.accounts, storage.db.nextId)
      ensures r.Ok? ==> forall a :: a in r.value <==> a in storage.db.accounts.Values
    {
      if isLocked {
        return Err(PermissionError(VaultIsLocked));
      }
      r := storage.GetAllAccounts();
      if r.Ok? {
        RowsAreTable(storage.db.accounts, storage.db.nextId);
      }
    }

    /** `list_by_category(category_id)`: the stored accounts of one category,
        in id order. */
    method ListByCategory(categoryId: int) returns (r: Result<seq<Account>>)
      requires Ready()
      modifies storage
      ensures Ready()
      ensures isLocked ==> r == Err(PermissionError(VaultIsLocked))
      ensures storage.db == old(storage.db) && storage.saved == old(storage.saved)
      ensures r.Ok? <==> !isLocked && !storage.rejects(SelectByCategory(categoryId))
      ensures r.Ok? ==> r.value == WithCategory(Rows(storage.db.accounts, storage.db.nextId), categoryId)
      ensures r.Ok? ==> forall a :: a in r.value <==> a in storage.db.accounts.Values && a.categoryId == categoryId
    {
      if isLocked {
        return Err(PermissionError(VaultIsLocked));
      }
      r := storage.GetAccountsByCategoryId(categoryId);
      if r.Ok? {
        RowsAreTable(storage.db.accounts, storage.db.nextId);
      }
    }

    /** `search_accounts(keyword)`: the search collaborator's answer. */
    method SearchAccounts(keyword: string) returns (r: Result<seq<Account>>)
      ensures isLocked ==> r == Err(PermissionError(VaultIsLocked))
      ensures !isLocked ==> r == Ok(globalSearch(storage.db.accounts, keyword))
    {
      if isLocked {
        return Err(PermissionError(VaultIsLocked));
      }
      return Ok(globalSearch(storage.db.accounts, keyword));
    }

    /** `change_master_key_and_reencrypt(old_key, new_key)`. Everything after
        the start entry is the `try` body (`Reencrypt`); on failure the
        handler rolls back, logs the error, reloads the old key and re-raises. */
    method ChangeMasterKeyAndReencrypt(oldKey: Key, newKey: Key) returns (r: Outcome)
      requires Ready()
      modifies storage, encryption, logger
      ensures Ready()
      ensures isLocked ==> r == Fail(PermissionError(RotationLocked))
      ensures isLocked ==> && storage.db == old(storage.db) && encryption.key == old(encryption.key)
                           && logger.entries == old(logger.entries)
      ensures !isLocked && r.Pass? ==>
                && Rotated(old(storage.db.accounts), storage.db.accounts, encryption.primitives, oldKey, newKey)
                && storage.db.nextId == old(storage.db.nextId)
                && storage.db.meta == old(storage.db.meta)[MasterKeyHash := encryption.primitives.sha256Hex(newKey)]
                && encryption.key == Some(newKey)
                && logger.entries == old(logger.entries) + [RotationStart, RotationSuccess]
      ensures !isLocked && r.Fail? ==>
                && storage.db == old(storage.db)
                && encryption.key == Some(oldKey)
                && logger.entries == old(logger.entries) + [RotationStart, RotationFailed(r.error)]
      ensures !isLocked && RotationUnobstructed(old(storage.db), encryption.primitives, storage.rejects, storage.fails, oldKey, newKey)
              ==> r.Pass?
      ensures !isLocked && KeyConsistent(old(storage.saved), encryption.primitives, oldKey) ==>
                encryption.key.Some? && KeyConsistent(storage.saved, encryption.primitives, encryption.key.value)
    {
      if isLocked {
        return Fail(PermissionError(RotationLocked));
      }
      logger.Security(RotationStart.action, RotationStart.detail);
      r := Reencrypt(oldKey, newKey);
      if r.Pass? {
        logger.Security(RotationSuccess.action, RotationSuccess.detail);
        RotatedReadable(old(storage.db.accounts), storage.db.accounts, encryption.primitives, oldKey, newKey);
      } else {
        storage.Rollback();
        logger.Error(RotationFailed(r.error).action, RotationFailed(r.error).detail);
        encryption.LoadKey(oldKey);
      }
    }

    /** The `try` body of rotation, up to and including the commit. It
        commits only when every step succeeded. */
    method Reencrypt(oldKey: Key, newKey: Key) returns (r: Outcome)
      requires Ready()
      modifies storage, encryption
      ensures storage.Valid() && storage.IsOpen() && encryption.Valid()
      ensures r.Fail? ==> storage.saved == old(storage.saved)
      ensures r.Pass? ==>
                && !storage.inTransaction && storage.saved == storage.db
                && Rotated(old(storage.db.accounts), storage.db.accounts, encryption.primitives, oldKey, newKey)
                && storage.db.nextId == old(storage.db.nextId)
                && storage.db.meta == old(storage.db.meta)[MasterKeyHash := encryption.primitives.sha256Hex(newKey)]
                && encryption.key == Some(newKey)
      ensures RotationUnobstructed(old(storage.db), encryption.primitives, storage.rejects, storage.fails, oldKey, newKey) ==> r.Pass?
    {
      ghost var before := storage.db;
      ghost var p := encryption.primitives;
      ghost var unobstructed := RotationUnobstructed(before, p, storage.rejects, storage.fails, oldKey, newKey);
      var plaintexts := DecryptStored(oldKey);
      if plaintexts.Err? {
        return Fail(plaintexts.error);
      }
      var decrypted := plaintexts.value;
      if unobstructed {
        UnobstructedWrites(before, decrypted, p, storage.rejects, storage.fails, oldKey, newKey);
      }

      // Re-encrypt under the new key, inside the transaction.
      encryption.LoadKey(newKey);
      var written := WriteReencrypted(decrypted);
      if written.Fail? {
        return written;
      }
      RotationComplete(before.accounts, storage.db.accounts, decrypted, p, oldKey, newKey);

      var keyHash := encryption.primitives.sha256Hex(newKey);
      var hashed := storage.UpdateMasterKeyHash(keyHash);
      if hashed.Fail? {
        return hashed;
      }
      var committed := storage.Commit();
      return committed;
    }

    /** Rotation up to the first write: opens the transaction, activates the
        old key, lists every account and decrypts each. Nothing is written. */
    method DecryptStored(oldKey: Key) returns (r: Result<seq<(int, string)>>)
      requires Ready()
      modifies storage, encryption
      ensures storage.Valid() && storage.IsOpen() && encryption.key == Some(oldKey)
      ensures storage.saved == old(storage.saved)
      ensures r.Ok? ==> && storage.inTransaction && storage.db == old(storage.db)
                        && Plaintexts(storage.db.accounts, r.value, encryption.primitives, oldKey)
      ensures !storage.rejects(SelectAll) && Readable(old(storage.db.accounts), encryption.primitives, oldKey)
              ==> r.Ok?
    {
      ghost var before := storage.db;
      var begun := storage.BeginTransaction();
      assert begun.Pass?;
      encryption.LoadKey(oldKey);
      var fetched := storage.GetAllAccounts();
      if fetched.Err? {
        return Err(fetched.error);
      }
      var accounts := fetched.value;
      RowsAscending(before.accounts, before.nextId);
      var decrypted := DecryptAll(accounts);
      if decrypted.Err? {
        return decrypted;
      }
      ListedPlaintexts(before.accounts, before.nextId, accounts, decrypted.value, encryption.primitives, oldKey);
      return decrypted;
    }

    /** The first loop of rotation: each listed account's id with its
        plaintext under the active key; the first ciphertext that does not
        verify stops it. */
    method DecryptAll(accounts: seq<Account>) returns (r: Result<seq<(int, string)>>)
      requires encryption.key.Some?
      requires forall j :: 0 <= j < |accounts| ==> accounts[j].id.Some?
      ensures r.Ok? ==> |r.value| == |accounts|
      ensures r.Ok? ==> forall j :: 0 <= j < |accounts| ==>
                && r.value[j].0 == accounts[j].id.value
                && encryption.primitives.decrypt(encryption.key.value, accounts[j].encryptedPassword) == Some(r.value[j].1)
      ensures r.Err? ==> && r.error == InvalidToken
                         && exists j :: && 0 <= j < |accounts|
                                        && encryption.primitives.decrypt(encryption.key.value, accounts[j].encryptedPassword).None?
    {
      var decrypted: seq<(int, string)> := [];
      var i := 0;
      while i < |accounts|
        invariant 0 <= i <= |accounts| && |decrypted| == i
        invariant forall j :: 0 <= j < i ==>
                    && decrypted[j].0 == accounts[j].id.value
                    && encryption.primitives.decrypt(encryption.key.value, accounts[j].encryptedPassword) == Some(decrypted[j].1)
      {
        var plain := encryption.Decrypt(accounts[i].encryptedPassword);
        if plain.Err? {
          return Err(plain.error);
        }
        decrypted := decrypted + [(accounts[i].id.value, plain.value)];
        i := i + 1;
      }
      return Ok(decrypted);
    }

    /** The second loop of rotation: each plaintext encrypted under the active
        key and written over its account's ciphertext, still uncommitted. */
    method WriteReencrypted(decrypted: seq<(int, string)>) returns (r: Outcome)
      requires storage.Valid() && storage.IsOpen() && storage.inTransaction && encryption.key.Some?
      requires AscendingIds(decrypted)
      requires forall t :: 0 <= t < |decrypted| ==> decrypted[t].0 in storage.db.accounts
      modifies storage
      ensures storage.Valid() && storage.IsOpen()
      ensures storage.saved == old(storage.saved)
      ensures r.Pass? ==>
                && storage.inTransaction
                && storage.db.nextId == old(storage.db.nextId) && storage.db.meta == old(storage.db.meta)
                && storage.db.accounts.Keys == old(storage.db.accounts.Keys)
                && forall t :: 0 <= t < |decrypted| ==>
                     storage.db.accounts[decrypted[t].0]
                     == old(storage.db.accounts)[decrypted[t].0].(encryptedPassword :=
                          encryption.primitives.encrypt(encryption.key.value, decrypted[t].1))
      ensures (forall t :: 0 <= t < |decrypted| ==>
                 && |decrypted[t].1| >= MinPlaintextLength
                 && !storage.rejects(UpdateCiphertext(decrypted[t].0,
                                       encryption.primitives.encrypt(encryption.key.value, decrypted[t].1))))
              ==> r.Pass?
    {
      ghost var start := storage.db;
      var j := 0;
      while j < |decrypted|
        invariant 0 <= j <= |decrypted|
        invariant storage.Valid() && storage.IsOpen() && storage.inTransaction
        invariant storage.saved == old(storage.saved)
        invariant storage.db.nextId == start.nextId && storage.db.meta == start.meta
        invariant storage.db.accounts.Keys == start.accounts.Keys
        invariant forall t :: 0 <= t < j ==>
                    storage.db.accounts[decrypted[t].0]
                    == start.accounts[decrypted[t].0].(encryptedPassword :=
                         encryption.primitives.encrypt(encryption.key.value, decrypted[t].1))
        invariant forall t :: j <= t < |decrypted| ==>
                    storage.db.accounts[decrypted[t].0] == start.accounts[decrypted[t].0]
      {
        var (accountId, plain) := decrypted[j];
        var encrypted := encryption.Encrypt(plain);
        if encrypted.Err? {
          return Fail(encrypted.error);
        }
        ghost var prev := storage.db.accounts;
        var written := storage.UpdateEncryptedPassword(accountId, encrypted.value);
        if written.Fail? {
          return written;
        }
        assert storage.db.accounts == prev[accountId := prev[accountId].(encryptedPassword := encrypted.value)];
        assert forall t :: 0 <= t < |decrypted| && t != j ==> decrypted[t].0 != accountId;
        j := j + 1;
      }
      return Pass;
    }
  }

  /** `pairs` lists every account of `m` once, in id order, with what its
      ciphertext decrypts to under `k`. */
  ghost predicate Plaintexts(m: Table, pairs: seq<(int, string)>, p: Primitives, k: Key) {
    && AscendingIds(pairs)
    && (forall t :: 0 <= t < |pairs| ==>
          pairs[t].0 in m && p.decrypt(k, m[pairs[t].0].encryptedPassword) == Some(pairs[t].1))
    && (forall id :: id in m ==> exists t :: 0 <= t < |pairs| && pairs[t].0 == id)
  }

  /** Decrypting the rows of a table in order lists each of its accounts once. */
  lemma ListedPlaintexts(m: Table, hi: int, accounts: seq<Account>, decrypted: seq<(int, string)>,
                         p: Primitives, k: Key)
    requires Keyed(m) && forall id :: id in m ==> 1 <= id < hi
    requires accounts == Rows(m, hi) && |decrypted| == |accounts|
    requires forall j :: 0 <= j < |accounts| ==>
               && accounts[j].id.Some? && decrypted[j].0 == accounts[j].id.value
               && p.decrypt(k, accounts[j].encryptedPassword) == Some(decrypted[j].1)
    ensures Plaintexts(m, decrypted, p, k)
  {
    RowsAscending(m, hi);
    forall id | id in m
      ensures exists t :: 0 <= t < |decrypted| && decrypted[t].0 == id
    {
      assert m[id] in accounts;
      var t :| 0 <= t < |accounts| && accounts[t] == m[id];
      assert decrypted[t].0 == id;
    }
  }

  /** When nothing obstructs the rotation, each listed plaintext is long
      enough and each rewrite is accepted. */
  lemma UnobstructedWrites(before: Db, decrypted: seq<(int, string)>,
                           p: Primitives, rejects: Statement -> bool, fails: ConnectionCall -> bool,
                           oldKey: Key, newKey: Key)
    requires RotationUnobstructed(before, p, rejects, fails, oldKey, newKey)
    requires Plaintexts(before.accounts, decrypted, p, oldKey)
    ensures forall t :: 0 <= t < |decrypted| ==>
              && |decrypted[t].1| >= MinPlaintextLength
              && !rejects(UpdateCiphertext(decrypted[t].0, p.encrypt(newKey, decrypted[t].1)))
  {
    forall t | 0 <= t < |decrypted|
      ensures && |decrypted[t].1| >= MinPlaintextLength
              && !rejects(UpdateCiphertext(decrypted[t].0, p.encrypt(newKey, decrypted[t].1)))
    {
      var id := decrypted[t].0;
      assert id in before.accounts;
    }
  }

  /** Once every listed row is rewritten, the table is a rotation of the old
      one. */
  lemma RotationComplete(before: Table, after: Table, decrypted: seq<(int, string)>,
                         p: Primitives, oldKey: Key, newKey: Key)
    requires Sound(p) && Plaintexts(before, decrypted, p, oldKey)
    requires after.Keys == before.Keys
    requires forall t :: 0 <= t < |decrypted| ==>
               after[decrypted[t].0] == before[decrypted[t].0].(encryptedPassword := p.encrypt(newKey, decrypted[t].1))
    ensures Rotated(before, after, p, oldKey, newKey)
  {
    forall id | id in before
      ensures && p.decrypt(oldKey, before[id].encryptedPassword).Some?
              && p.decrypt(newKey, after[id].encryptedPassword) == p.decrypt(oldKey, before[id].encryptedPassword)
              && after[id] == before[id].(encryptedPassword := after[id].encryptedPassword)
    {
      var t :| 0 <= t < |decrypted| && decrypted[t].0 == id;
    }
  }
}
