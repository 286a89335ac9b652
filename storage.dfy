/** The SQLite store (services/storage_service.py). The database file is the
    committed state `saved`; the connection sees `db`, which differs from
    `saved` only while a transaction is open. Statements are not parsed: each
    query the service issues is a `Statement`, whose effect on the tables is
    `Apply`. Whether SQLite refuses a statement (disk full, locked file,
    constraint) is decided outside the model by `rejects`, and whether it
    refuses a commit or opening the file by `fails`. */
module Storage {
  import opened Outcomes
  import opened Clock
  import opened Accounts
  import opened Dicts

  /** The `accounts` table, keyed by rowid. */
  type Table = map<int, Account>

  /** The tables: `accounts`, the next rowid to hand out, and `meta`. */
  datatype Db = Db(accounts: Table, nextId: int, meta: map<string, string>)

  const MasterKeyHash := "master_key_hash"

  /** Every row is stored under its own id, and ids are positive and below
      the next one to hand out. */
  ghost predicate WellFormed(db: Db) {
    && db.nextId >= 1
    && forall k :: k in db.accounts ==> 1 <= k < db.nextId && db.accounts[k].id == Some(k)
  }

  /** The queries the service issues. */
  datatype Statement =
    | InsertAccount(account: Account)                           // save_account
    | SelectAll                                                 // get_all_accounts
    | SelectById(id: int)                                       // get_account_by_id
    | SelectByCategory(categoryId: int)                         // get_accounts_by_category_id
    | DeleteById(id: int)                                       // delete_account_by_id
    | UpdateAccountRow(account: Account, now: DateTime)         // update_account
    | UpdateCiphertext(id: int, ciphertext: string)             // update_encrypted_password
    | UpsertMeta(name: string, value: string)                   // update_master_key_hash

  /** The two calls on the connection itself that SQLite can refuse. */
  datatype ConnectionCall =
    | CommitTx       // conn.commit()
    | OpenDatabase   // sqlite3.connect(db_path)

  /** A statement that changes a table, and so opens an implicit transaction
      when it is not committed. */
  predicate IsWrite(stmt: Statement) {
    stmt.InsertAccount? || stmt.DeleteById? || stmt.UpdateAccountRow? || stmt.UpdateCiphertext? || stmt.UpsertMeta?
  }

  /** The row an `UPDATE accounts ... WHERE id = ?` leaves: site, username,
      ciphertext, category and `updated_at` are replaced; id and `created_at`
      stay. */
  function Updated(row: Account, a: Account, now: DateTime): (r: Account)
    ensures r.id == row.id && r.createdAt == row.createdAt
    ensures r.site == a.site && r.username == a.username
    ensures r.encryptedPassword == a.encryptedPassword && r.categoryId == a.categoryId
    ensures r.updatedAt == now
  {
    row.(site := a.site, username := a.username, encryptedPassword := a.encryptedPassword,
         categoryId := a.categoryId, updatedAt := now)
  }

  /** What a statement SQLite accepts does to the tables. */
  function Apply(db: Db, stmt: Statement): (r: Db)
    ensures WellFormed(db) ==> WellFormed(r)
    ensures !IsWrite(stmt) ==> r == db
  {
    match stmt
    case InsertAccount(a) =>
      db.(accounts := db.accounts[db.nextId := a.(id := Some(db.nextId))], nextId := db.nextId + 1)
    case DeleteById(id) =>
      db.(accounts := db.accounts - {id})
    case UpdateAccountRow(a, now) =>
      if a.id.Some? && a.id.value in db.accounts
      then db.(accounts := db.accounts[a.id.value := Updated(db.accounts[a.id.value], a, now)])
      else db
    case UpdateCiphertext(id, c) =>
      if id in db.accounts
      then db.(accounts := db.accounts[id := db.accounts[id].(encryptedPassword := c)])
      else db
    case UpsertMeta(name, value) =>
      db.(meta := db.meta[name := value])
    case _ => db
  }

  /** `cursor.rowcount` after the statement: the rows written, or -1 after a
      `SELECT`. */
  function RowCount(db: Db, stmt: Statement): (n: int)
    ensures IsWrite(stmt) ==> n == 0 || n == 1
    ensures stmt.DeleteById? ==> (n == 1 <==> stmt.id in db.accounts)
    ensures stmt.UpdateAccountRow? ==> (n == 1 <==> stmt.account.id.Some? && stmt.account.id.value in db.accounts)
    ensures !IsWrite(stmt) ==> n == -1
  {
    match stmt
    case InsertAccount(_) => 1
    case DeleteById(id) => if id in db.accounts then 1 else 0
    case UpdateAccountRow(a, _) => if a.id.Some? && a.id.value in db.accounts then 1 else 0
    case UpdateCiphertext(id, _) => if id in db.accounts then 1 else 0
    case UpsertMeta(_, _) => 1
    case _ => -1
  }

  /** The rows with ids in `[1, hi)`, in ascending id order: what a
      `SELECT * FROM accounts` over rowids below `hi` returns. */
  function Rows(m: Table, hi: int): (r: seq<Account>)
    ensures forall k :: 1 <= k < hi && k in m ==> m[k] in r
    ensures forall a :: a in r ==> exists k :: 1 <= k < hi && k in m && m[k] == a
    decreases hi
  {
    if hi <= 1 then [] else Rows(m, hi - 1) + (if hi - 1 in m then [m[hi - 1]] else [])
  }

  /** Every row is stored under its own id. */
  ghost predicate Keyed(m: Table) {
    forall k :: k in m ==> m[k].id == Some(k)
  }

  /** The rows of a keyed table come out with their ids, each id in range,
      strictly ascending. */
  lemma {:induction false} RowsAscending(m: Table, hi: int)
    requires Keyed(m)
    ensures forall i :: 0 <= i < |Rows(m, hi)| ==>
              var a := Rows(m, hi)[i]; a.id.Some? && 1 <= a.id.value < hi && a.id.value in m && m[a.id.value] == a
    ensures forall i, j :: 0 <= i < j < |Rows(m, hi)| ==> Rows(m, hi)[i].id.value < Rows(m, hi)[j].id.value
    decreases hi
  {
    if hi > 1 {
      RowsAscending(m, hi - 1);
    }
  }

  /** When every id is below `hi`, the rows are exactly the table's values. */
  lemma RowsAreTable(m: Table, hi: int)
    requires forall k :: k in m ==> 1 <= k < hi
    ensures forall a :: a in Rows(m, hi) <==> a in m.Values
  {
    forall k | k in m
      ensures m[k] in Rows(m, hi)
    {
    }
  }

  /** `SELECT * FROM accounts WHERE id = ?`, fetched once. */
  function RowById(m: Table, id: int): (r: Option<Account>)
    ensures r.Some? <==> id in m
    ensures r.Some? ==> r.value == m[id]
  {
    if id in m then Some(m[id]) else None
  }

  class StorageService {
    const dbPath: string
    /** Whether SQLite refuses a statement. */
    const rejects: Statement -> bool
    /** Whether SQLite refuses a commit or opening the file. */
    const fails: ConnectionCall -> bool
    /** `self.conn` and `self.cursor`: handles numbered by `connections`. */
    var conn: Option<nat>
    var cursor: Option<nat>
    var connections: nat
    /** What the connection sees. */
    var db: Db
    /** What is committed to the file. */
    var saved: Db
    var inTransaction: bool

    ghost predicate Valid()
      reads this
    {
      && WellFormed(db) && WellFormed(saved)
      && (!inTransaction ==> db == saved)
      && (conn.Some? <==> cursor.Some?)
      && (conn.Some? ==> conn.value < connections)
      && (conn.None? ==> !inTransaction)
    }

    predicate IsOpen()
      reads this
    {
      conn.Some?
    }

    /** Every uncommitted change is gone. */
    ghost predicate RolledBackTo(before: Db)
      reads this
    {
      db == before && saved == before && !inTransaction
    }

    /** `StorageService(db_path)` over a file that holds `stored`; no
        connection yet. */
    constructor (dbPath: string, stored: Db, rejects: Statement -> bool, fails: ConnectionCall -> bool)
      requires WellFormed(stored)
      ensures Valid() && !IsOpen()
      ensures this.dbPath == dbPath && this.rejects == rejects && this.fails == fails
      ensures db == stored && saved == stored && !inTransaction
    {
      this.dbPath := dbPath;
      this.rejects := rejects;
      this.fails := fails;
      conn := None;
      cursor := None;
      connections := 0;
      db := stored;
      saved := stored;
      inTransaction := false;
    }

    /** `connect()`: opens a connection and a cursor unless one is open; an
        error opening the file propagates and leaves the service closed. */
    method Connect() returns (r: Outcome)
      requires Valid()
      modifies this
      ensures Valid()
      ensures r.Pass? <==> old(IsOpen()) || !fails(OpenDatabase)
      ensures r.Pass? ==> IsOpen()
      ensures r.Fail? ==> r.error == DatabaseError && !IsOpen()
      ensures old(IsOpen()) ==> conn == old(conn) && connections == old(connections)
      ensures !old(IsOpen()) && r.Pass? ==> conn == Some(old(connections)) && connections == old(connections) + 1
      ensures r.Fail? ==> conn == old(conn) && connections == old(connections)
      ensures db == old(db) && saved == old(saved) && inTransaction == old(inTransaction)
    {
      if conn.None? {
        if fails(OpenDatabase) {
          return Fail(DatabaseError);
        }
        conn := Some(connections);
        cursor := Some(connections);
        connections := connections + 1;
      }
      return Pass;
    }

    /** `close()`: closing without a commit discards what was not committed. */
    method Close()
      requires Valid()
      modifies this
      ensures Valid() && !IsOpen()
      ensures RolledBackTo(old(saved))
      ensures connections == old(connections)
    {
      if conn.Some? {
        conn := None;
        cursor := None;
        db := saved;
        inTransaction := false;
      }
    }

    /** Whether `execute(stmt, commit=commit)` raises: SQLite refuses the
        statement, or the commit that follows it. */
    predicate Refuses(stmt: Statement, commit: bool)
      reads this
    {
      rejects(stmt) || (commit && fails(CommitTx))
    }

    /** `execute(query, params, commit)`: when SQLite refuses the statement or
        the commit after it, the connection is rolled back and the error
        propagates; otherwise the statement is applied and, with `commit`,
        made durable together with everything pending. Python's sqlite3
        opens a transaction implicitly before a write, so an uncommitted
        write leaves one open. */
    method Execute(stmt: Statement, commit: bool) returns (r: Result<int>)
      requires Valid() && IsOpen()
      modifies this
      ensures Valid() && conn == old(conn) && cursor == old(cursor) && connections == old(connections)
      ensures Refuses(stmt, commit) ==> r == Err(DatabaseError) && RolledBackTo(old(saved))
      ensures !Refuses(stmt, commit) ==> r == Ok(RowCount(old(db), stmt)) && db == Apply(old(db), stmt)
      ensures !Refuses(stmt, commit) && commit ==> saved == db && !inTransaction
      ensures !Refuses(stmt, commit) && !commit ==>
                saved == old(saved) && inTransaction == (old(inTransaction) || IsWrite(stmt))
    {
      if rejects(stmt) {
        db := saved;
        inTransaction := false;
        return Err(DatabaseError);
      }
      r := Ok(RowCount(db, stmt));
      db := Apply(db, stmt);
      if commit {
        if fails(CommitTx) {
          db := saved;
          inTransaction := false;
          return Err(DatabaseError);
        }
        saved := db;
        inTransaction := false;
      } else if IsWrite(stmt) {
        inTransaction := true;
      }
    }

    /** `save_account(account)`: inserts the fields (not the id) and returns
        the rowid SQLite assigned. */
    method SaveAccount(account: Account) returns (r: Result<int>)
      requires Valid() && IsOpen()
      modifies this
      ensures Valid() && conn == old(conn) && connections == old(connections)
      ensures r.Ok? <==> !Refuses(InsertAccount(account), true)
      ensures r.Err? ==> r.error == DatabaseError && RolledBackTo(old(saved))
      ensures r.Ok? ==> && r.value == old(db.nextId) && r.value !in old(db.accounts)
                        && db.accounts == old(db.accounts)[r.value := account.(id := Some(r.value))]
                        && db.nextId == r.value + 1 && db.meta == old(db.meta)
                        && saved == db && !inTransaction
    {
      var id := db.nextId;
      var res := Execute(InsertAccount(account), true);
      if res.Err? {
        return Err(res.error);
      }
      return Ok(id);
    }

    /** `get_all_accounts()`: the cursor's result set, every row in rowid
        order, is copied row by row into the returned list. */
    method GetAllAccounts() returns (r: Result<seq<Account>>)
      requires Valid() && IsOpen()
      modifies this
      ensures Valid() && conn == old(conn) && connections == old(connections)
      ensures r.Ok? <==> !rejects(SelectAll)
      ensures r.Err? ==> r.error == DatabaseError && RolledBackTo(old(saved))
      ensures r.Ok? ==> && db == old(db) && saved == old(saved) && inTransaction == old(inTransaction)
                        && r.value == Rows(db.accounts, db.nextId)
    {
      var res := Execute(SelectAll, false);
      if res.Err? {
        return Err(res.error);
      }
      var rows := Rows(db.accounts, db.nextId);
      var accounts := [];
      for i := 0 to |rows|
        invariant accounts == rows[..i]
      {
        accounts := accounts + [rows[i]];
      }
      assert rows[..|rows|] == rows;
      return Ok(accounts);
    }

    /** `get_account_by_id(account_id)`: the row, or `None`. */
    method GetAccountById(accountId: int) returns (r: Result<Option<Account>>)
      requires Valid() && IsOpen()
      modifies this
      ensures Valid() && conn == old(conn) && connections == old(connections)
      ensures r.Ok? <==> !rejects(SelectById(accountId))
      ensures r.Err? ==> r.error == DatabaseError && RolledBackTo(old(saved))
      ensures r.Ok? ==> && db == old(db) && saved == old(saved) && inTransaction == old(inTransaction)
                        && r.value == RowById(db.accounts, accountId)
    {
      var res := Execute(SelectById(accountId), false);
      if res.Err? {
        return Err(res.error);
      }
      return Ok(RowById(db.accounts, accountId));
    }

    /** `delete_account_by_id(account_id)`: whether a row was deleted. */
    method DeleteAccountById(accountId: int) returns (r: Result<bool>)
      requires Valid() && IsOpen()
      modifies this
      ensures Valid() && conn == old(conn) && connections == old(connections)
      ensures r.Ok? <==> !Refuses(DeleteById(accountId), true)
      ensures r.Err? ==> r.error == DatabaseError && RolledBackTo(old(saved))
      ensures r.Ok? ==> && r.value == (accountId in old(db.accounts))
                        && db == old(db).(accounts := old(db.accounts) - {accountId})
                        && saved == db && !inTransaction
    {
      var res := Execute(DeleteById(accountId), true);
      if res.Err? {
        return Err(res.error);
      }
      return Ok(res.value > 0);
    }

    /** `update_account(account)`: rewrites the row with the account's id,
        stamping `updated_at` with the current time; whether a row matched. */
    method UpdateAccount(account: Account, now: DateTime) returns (r: Result<bool>)
      requires Valid() && IsOpen()
      modifies this
      ensures Valid() && conn == old(conn) && connections == old(connections)
      ensures r.Ok? <==> !Refuses(UpdateAccountRow(account, now), true)
      ensures r.Err? ==> r.error == DatabaseError && RolledBackTo(old(saved))
      ensures r.Ok? ==> && r.value == (account.id.Some? && account.id.value in old(db.accounts))
                        && db == Apply(old(db), UpdateAccountRow(account, now))
                        && saved == db && !inTransaction
    {
      var res := Execute(UpdateAccountRow(account, now), true);
      if res.Err? {
        return Err(res.error);
      }
      return Ok(res.value > 0);
    }

    /** `get_accounts_by_category_id(category_id)`, with the parameters bound
        as a one-element tuple: the rows of that category, in rowid order,
        copied row by row into the returned list. */
    method GetAccountsByCategoryId(categoryId: int) returns (r: Result<seq<Account>>)
      requires Valid() && IsOpen()
      modifies this
      ensures Valid() && conn == old(conn) && connections == old(connections)
      ensures r.Ok? <==> !rejects(SelectByCategory(categoryId))
      ensures r.Err? ==> r.error == DatabaseError && RolledBackTo(old(saved))
      ensures r.Ok? ==> && db == old(db) && saved == old(saved) && inTransaction == old(inTransaction)
                        && r.value == WithCategory(Rows(db.accounts, db.nextId), categoryId)
    {
      var res := Execute(SelectByCategory(categoryId), false);
      if res.Err? {
        return Err(res.error);
      }
      var rows := WithCategory(Rows(db.accounts, db.nextId), categoryId);
      var accounts := [];
      for i := 0 to |rows|
        invariant accounts == rows[..i]
      {
        accounts := accounts + [rows[i]];
      }
      assert rows[..|rows|] == rows;
      return Ok(accounts);
    }

    /** `update_encrypted_password(account_id, ciphertext)`: replaces one
        ciphertext inside the caller's transaction, without committing. */
    method UpdateEncryptedPassword(accountId: int, ciphertext: string) returns (r: Outcome)
      requires Valid() && IsOpen()
      modifies this
      ensures Valid() && conn == old(conn) && connections == old(connections)
      ensures r.Pass? <==> !rejects(UpdateCiphertext(accountId, ciphertext))
      ensures r.Fail? ==> r.error == DatabaseError && RolledBackTo(old(saved))
      ensures r.Pass? ==> && db.nextId == old(db.nextId) && db.meta == old(db.meta)
                          && db.accounts == (if accountId in old(db.accounts)
                                             then old(db.accounts)[accountId := old(db.accounts)[accountId].(encryptedPassword := ciphertext)]
                                             else old(db.accounts))
                          && saved == old(saved) && inTransaction
    {
      var res := Execute(UpdateCiphertext(accountId, ciphertext), false);
      if res.Err? {
        return Fail(res.error);
      }
      return Pass;
    }

    /** `update_master_key_hash(key_hash)`: records the verification hash in
        `meta`, inside the caller's transaction, without committing. */
    method UpdateMasterKeyHash(keyHash: string) returns (r: Outcome)
      requires Valid() && IsOpen()
      modifies this
      ensures Valid() && conn == old(conn) && connections == old(connections)
      ensures r.Pass? <==> !rejects(UpsertMeta(MasterKeyHash, keyHash))
      ensures r.Fail? ==> r.error == DatabaseError && RolledBackTo(old(saved))
      ensures r.Pass? ==> && db == old(db).(meta := old(db.meta)[MasterKeyHash := keyHash])
                          && saved == old(saved) && inTransaction
    {
      var res := Execute(UpsertMeta(MasterKeyHash, keyHash), false);
      if res.Err? {
        return Fail(res.error);
      }
      return Pass;
    }

    /** `begin_transaction()`: `BEGIN` inside an open transaction is refused. */
    method BeginTransaction() returns (r: Outcome)
      requires Valid() && IsOpen()
      modifies this
      ensures Valid() && conn == old(conn) && connections == old(connections)
      ensures db == old(db) && saved == old(saved)
      ensures r.Pass? <==> !old(inTransaction)
      ensures r.Fail? ==> r.error == OperationalError(NestedTransaction) && inTransaction
      ensures r.Pass? ==> inTransaction
    {
      if inTransaction {
        return Fail(OperationalError(NestedTransaction));
      }
      inTransaction := true;
      return Pass;
    }

    /** `commit()`: what the connection sees becomes durable. When SQLite
        refuses the commit (a locked file, an I/O error) the error propagates
        and the transaction stays as it was, for the caller to roll back. */
    method Commit() returns (r: Outcome)
      requires Valid() && IsOpen()
      modifies this
      ensures Valid() && conn == old(conn) && connections == old(connections)
      ensures db == old(db)
      ensures r.Pass? <==> !fails(CommitTx)
      ensures r.Pass? ==> saved == db && !inTransaction
      ensures r.Fail? ==> r.error == DatabaseError && saved == old(saved) && inTransaction == old(inTransaction)
    {
      if fails(CommitTx) {
        return Fail(DatabaseError);
      }
      saved := db;
      inTransaction := false;
      return Pass;
    }

    /** `rollback()`: every uncommitted change is discarded. */
    method Rollback()
      requires Valid() && IsOpen()
      modifies this
      ensures Valid() && conn == old(conn) && connections == old(connections)
      ensures RolledBackTo(old(saved))
    {
      db := saved;
      inTransaction := false;
    }
  }

  const NestedTransaction := "cannot start a transaction within a transaction"

  // The source as written, where it differs from the service above.

  /** The attributes `__init__` gives a `StorageService`. */
  const InitAttributes: set<string> := {"db_path", "conn", "cursor"}

  function NoAttribute(name: string): Error {
    AttributeError("'StorageService' object has no attribute '" + name + "'")
  }

  /** `execute` as written, up to running the statement: it looks up
      `self._cursor`, and on any exception looks up `self._conn` to roll
      back. `begin_transaction`, `commit` and `rollback` look up `_conn`
      the same way. */
  function ExecuteAsWritten(attributes: set<string>): (r: Outcome)
    ensures r.Pass? <==> "_cursor" in attributes
  {
    if "_cursor" in attributes then Pass
    else if "_conn" in attributes then Fail(NoAttribute("_cursor"))
    else Fail(NoAttribute("_conn"))
  }

  /** No attribute named `_cursor` or `_conn` is ever assigned, so every
      statement the service issues fails before it reaches SQLite. */
  lemma ExecuteAsWrittenFails()
    ensures ExecuteAsWritten(InitAttributes) == Fail(NoAttribute("_conn"))
  {
  }

  /** The parameters handed to `cursor.execute`: a sequence of values, or a
      bare value. */
  datatype Parameters = Sequence(items: seq<Value>) | Bare(value: Value)

  /** sqlite3 binds a sequence of parameters and refuses anything else. */
  function Bind(params: Parameters): (r: Result<seq<Value>>)
    ensures r.Ok? <==> params.Sequence?
    ensures r.Ok? ==> r.value == params.items
  {
    match params
    case Sequence(items) => Ok(items)
    case Bare(_) => Err(ProgrammingError("parameters are of unsupported type"))
  }

  /** `get_accounts_by_category_id` passes `(category_id)`, which is the bare
      integer, not a one-element tuple. */
  function CategoryParametersAsWritten(categoryId: int): (r: Parameters)
    ensures !r.Sequence? && r.value == PyInt(categoryId)
  {
    Bare(PyInt(categoryId))
  }

  /** The as-written parameters never bind; the one-element tuple
      `(category_id,)` the query needs does. */
  lemma CategoryParametersAsWrittenRefused(categoryId: int)
    ensures Bind(CategoryParametersAsWritten(categoryId)).Err?
    ensures Bind(Sequence([PyInt(categoryId)])) == Ok([PyInt(categoryId)])
  {
  }
}
