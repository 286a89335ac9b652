/** One stored credential (models/account.py): the record, the checks its
    constructor runs, its dictionary form, and the category filter that both
    the in-memory vault and the store apply to lists of accounts. */
module Accounts {
  import opened Outcomes
  import opened Text
  import opened Clock
  import opened Dicts

  /** `id` is `None` until the store assigns one. The ciphertext is the
      opaque text token the encryption service produced. */
  datatype Account = Account(
    id: Option<int>,
    site: string,
    username: string,
    encryptedPassword: string,
    categoryId: int,
    createdAt: DateTime,
    updatedAt: DateTime)

  const SiteIsNull := "Site can't be null."
  const UsernameIsNull := "Username can't be null."
  const CiphertextIsNull := "Encrypted password can't be null."
  const CategoryNotInt := "Category id must be an integer."

  /** The record invariant `validate` establishes: site and username are not
      blank, and the ciphertext is not empty (blank is allowed). */
  predicate IsValid(a: Account) {
    !IsBlank(a.site) && !IsBlank(a.username) && a.encryptedPassword != ""
  }

  /** `validate()` on the values as they were given: site and username must
      pass `not x or not x.strip()`, the ciphertext must be truthy (so a
      whitespace ciphertext passes), and the category must be an `int`. */
  function Validate(site: Value, username: Value, encryptedPassword: Value, categoryId: Value): (r: Outcome)
    ensures r.Pass? <==> && site.PyStr? && !IsBlank(site.s) && username.PyStr? && !IsBlank(username.s)
                         && Truthy(encryptedPassword) && categoryId.PyInt?
    ensures RequireText(site, SiteIsNull).Fail? ==> r == RequireText(site, SiteIsNull)
    ensures RequireText(site, SiteIsNull).Pass? && RequireText(username, UsernameIsNull).Fail? ==>
              r == RequireText(username, UsernameIsNull)
    ensures RequireText(site, SiteIsNull).Pass? && RequireText(username, UsernameIsNull).Pass? ==>
              && (!Truthy(encryptedPassword) ==> r == Fail(ValueError(CiphertextIsNull)))
              && (Truthy(encryptedPassword) && !categoryId.PyInt? ==> r == Fail(ValueError(CategoryNotInt)))
  {
    if RequireText(site, SiteIsNull).Fail? then RequireText(site, SiteIsNull)
    else if RequireText(username, UsernameIsNull).Fail? then RequireText(username, UsernameIsNull)
    else if !Truthy(encryptedPassword) then Fail(ValueError(CiphertextIsNull))
    else if !categoryId.PyInt? then Fail(ValueError(CategoryNotInt))
    else Pass
  }

  /** The constructor once every argument has a value: assign, validate,
      and keep the values in the record's typed fields. An `id` or a
      ciphertext that passed validation but is not of the record's type (a
      string id, an `int` ciphertext) cannot be held and is refused. */
  function Construct(id: Value, site: Value, username: Value, encryptedPassword: Value,
                     categoryId: Value, createdAt: DateTime, updatedAt: DateTime): (r: Result<Account>)
    ensures Validate(site, username, encryptedPassword, categoryId).Fail? ==>
              r == Err(Validate(site, username, encryptedPassword, categoryId).error)
    ensures r.Ok? <==> Validate(site, username, encryptedPassword, categoryId).Pass? && !id.PyStr? && encryptedPassword.PyStr?
    ensures r.Ok? ==> IsValid(r.value)
    ensures r.Ok? ==> r.value == Account(if id.PyInt? then Some(id.i) else None, site.s, username.s,
                                         encryptedPassword.s, categoryId.i, createdAt, updatedAt)
  {
    match Validate(site, username, encryptedPassword, categoryId)
    case Fail(e) => Err(e)
    case Pass =>
      var accountId :- OptionalInt(id, "id");
      var ciphertext :- StrValue(encryptedPassword, "encrypted_password");
      Ok(Account(accountId, site.s, username.s, ciphertext, categoryId.i, createdAt, updatedAt))
  }

  /** `Account(site, username, encrypted_password, category_id, created_at,
      updated_at, account_id)` with arguments of the declared types; a
      missing timestamp becomes `now`. */
  function NewAccount(site: string, username: string, encryptedPassword: string, categoryId: int,
                      createdAt: Option<DateTime>, updatedAt: Option<DateTime>, accountId: Option<int>,
                      now: DateTime): (r: Result<Account>)
    ensures r.Ok? <==> !IsBlank(site) && !IsBlank(username) && encryptedPassword != ""
    ensures IsBlank(site) ==> r == Err(ValueError(SiteIsNull))
    ensures !IsBlank(site) && IsBlank(username) ==> r == Err(ValueError(UsernameIsNull))
    ensures !IsBlank(site) && !IsBlank(username) && encryptedPassword == "" ==> r == Err(ValueError(CiphertextIsNull))
    ensures r.Ok? ==> && r.value.id == accountId
                      && r.value.site == site && r.value.username == username
                      && r.value.encryptedPassword == encryptedPassword
                      && r.value.categoryId == categoryId
                      && r.value.createdAt == (if createdAt.Some? then createdAt.value else now)
                      && r.value.updatedAt == (if updatedAt.Some? then updatedAt.value else now)
  {
    Construct(FromOptionalInt(accountId), PyStr(site), PyStr(username), PyStr(encryptedPassword), PyInt(categoryId),
              createdAt.GetOr(now), updatedAt.GetOr(now))
  }

  /** `to_dict()`. */
  function ToDict(a: Account): (d: Dict)
    ensures d.Keys == {"id", "site", "username", "encrypted_password", "category_id", "created_at", "updated_at"}
  {
    map[
      "id" := FromOptionalInt(a.id),
      "site" := PyStr(a.site),
      "username" := PyStr(a.username),
      "encrypted_password" := PyStr(a.encryptedPassword),
      "category_id" := PyInt(a.categoryId),
      "created_at" := PyStr(IsoFormat(a.createdAt)),
      "updated_at" := PyStr(IsoFormat(a.updatedAt))]
  }

  /** `datetime.fromisoformat(v)`. */
  function ParseTimestamp(v: Value): (r: Result<DateTime>)
    ensures r.Ok? ==> v.PyStr? && FromIsoFormat(v.s) == Some(r.value)
    ensures v.PyStr? && FromIsoFormat(v.s).None? ==> r.Err? && r.error.ValueError?
    ensures !v.PyStr? ==> r.Err? && r.error.TypeError?
  {
    match v
    case PyStr(s) =>
      (match FromIsoFormat(s)
       case Some(t) => Ok(t)
       case None => Err(ValueError("Invalid isoformat string: '" + s + "'")))
    case _ => Err(TypeError("fromisoformat: argument must be str"))
  }

  /** `Account.from_dict(data)`: the arguments are read in the order they are
      written (so a missing key raises `KeyError` for the first one missing,
      and a malformed `created_at` is reported before `updated_at` is read),
      then the constructor validates. */
  function FromDict(data: Dict): (r: Result<Account>)
    ensures r.Ok? ==> IsValid(r.value)
    ensures r.Ok? ==> {"site", "username", "encrypted_password", "category_id", "created_at", "updated_at"} <= data.Keys
    ensures "site" !in data ==> r == Err(KeyError("site"))
  {
    var site :- Index(data, "site");
    var username :- Index(data, "username");
    var ciphertext :- Index(data, "encrypted_password");
    var categoryId :- Index(data, "category_id");
    FromDictTimestamps(data, Get(data, "id"), site, username, ciphertext, categoryId)
  }

  /** The rest of `from_dict`: both timestamps, then the constructor. */
  function FromDictTimestamps(data: Dict, id: Value, site: Value, username: Value, ciphertext: Value,
                              categoryId: Value): (r: Result<Account>)
    ensures r.Ok? ==> IsValid(r.value) && {"created_at", "updated_at"} <= data.Keys
  {
    var created :- Index(data, "created_at");
    var createdAt :- ParseTimestamp(created);
    var updated :- Index(data, "updated_at");
    var updatedAt :- ParseTimestamp(updated);
    Construct(id, site, username, ciphertext, categoryId, createdAt, updatedAt)
  }

  lemma TimestampRoundTrip(t: DateTime)
    ensures ParseTimestamp(PyStr(IsoFormat(t))) == Ok(t)
  {
    IsoRoundTrip(t);
  }

  /** `from_dict(to_dict(a))` gives back every field of a valid account,
      timestamps included. */
  lemma FromDictToDict(a: Account)
    requires IsValid(a)
    ensures FromDict(ToDict(a)) == Ok(a)
  {
    var d := ToDict(a);
    var created, updated := PyStr(IsoFormat(a.createdAt)), PyStr(IsoFormat(a.updatedAt));
    ToDictEntries(a, d, created, updated);
    TimestampRoundTrip(a.createdAt);
    TimestampRoundTrip(a.updatedAt);
    ConstructOfAccount(a);
    TimestampsRead(d, a, created, updated);
    FromDictReads(d, a);
  }

  /** What `to_dict` stores under each key. */
  lemma ToDictEntries(a: Account, d: Dict, created: Value, updated: Value)
    requires d == ToDict(a) && created == PyStr(IsoFormat(a.createdAt)) && updated == PyStr(IsoFormat(a.updatedAt))
    ensures Get(d, "id") == FromOptionalInt(a.id)
    ensures Index(d, "site") == Ok(PyStr(a.site))
    ensures Index(d, "username") == Ok(PyStr(a.username))
    ensures Index(d, "encrypted_password") == Ok(PyStr(a.encryptedPassword))
    ensures Index(d, "category_id") == Ok(PyInt(a.categoryId))
    ensures Index(d, "created_at") == Ok(created) && Index(d, "updated_at") == Ok(updated)
  {
  }

  /** The constructor rebuilds a valid account from its own fields. */
  lemma ConstructOfAccount(a: Account)
    requires IsValid(a)
    ensures Construct(FromOptionalInt(a.id), PyStr(a.site), PyStr(a.username), PyStr(a.encryptedPassword),
                      PyInt(a.categoryId), a.createdAt, a.updatedAt) == Ok(a)
  {
  }

  /** `from_dict` on any dictionary holding the fields of `a` reaches the
      timestamps with those fields. */
  lemma FromDictReads(data: Dict, a: Account)
    requires Get(data, "id") == FromOptionalInt(a.id)
    requires Index(data, "site") == Ok(PyStr(a.site))
    requires Index(data, "username") == Ok(PyStr(a.username))
    requires Index(data, "encrypted_password") == Ok(PyStr(a.encryptedPassword))
    requires Index(data, "category_id") == Ok(PyInt(a.categoryId))
    ensures FromDict(data) == FromDictTimestamps(data, FromOptionalInt(a.id), PyStr(a.site), PyStr(a.username),
                                                 PyStr(a.encryptedPassword), PyInt(a.categoryId))
  {
  }

  /** Timestamps that parse to those of `a` reach the constructor with them. */
  lemma TimestampsRead(data: Dict, a: Account, created: Value, updated: Value)
    requires Index(data, "created_at") == Ok(created) && ParseTimestamp(created) == Ok(a.createdAt)
    requires Index(data, "updated_at") == Ok(updated) && ParseTimestamp(updated) == Ok(a.updatedAt)
    ensures FromDictTimestamps(data, FromOptionalInt(a.id), PyStr(a.site), PyStr(a.username),
                               PyStr(a.encryptedPassword), PyInt(a.categoryId))
         == Construct(FromOptionalInt(a.id), PyStr(a.site), PyStr(a.username), PyStr(a.encryptedPassword),
                      PyInt(a.categoryId), a.createdAt, a.updatedAt)
  {
  }

  /** `touch()`: only `updated_at` changes to the current time. */
  function Touch(a: Account, now: DateTime): (r: Account)
    ensures r.updatedAt == now
    ensures IsValid(r) == IsValid(a)
    ensures ToDict(r) == ToDict(a)["updated_at" := PyStr(IsoFormat(now))]
  {
    a.(updatedAt := now)
  }

  /** Two accounts for the same login: same site and same username. */
  predicate SameLogin(a: Account, b: Account) {
    a.site == b.site && a.username == b.username
  }

  /** The accounts of `s` whose category is `categoryId`, in the order of `s`
      (`[acc for acc in s if acc.category_id == category_id]`). */
  function WithCategory(s: seq<Account>, categoryId: int): (r: seq<Account>)
    ensures |r| <= |s|
    ensures forall a :: a in r <==> a in s && a.categoryId == categoryId
  {
    if s == [] then []
    else WithCategory(s[..|s| - 1], categoryId)
         + (if s[|s| - 1].categoryId == categoryId then [s[|s| - 1]] else [])
  }

  /** Filtering a concatenation filters each part and keeps their order. */
  lemma {:induction false} WithCategoryAppend(s: seq<Account>, t: seq<Account>, categoryId: int)
    ensures WithCategory(s + t, categoryId) == WithCategory(s, categoryId) + WithCategory(t, categoryId)
  {
    if t != [] {
      var t' := t[..|t| - 1];
      assert (s + t)[..|s + t| - 1] == s + t';
      WithCategoryAppend(s, t', categoryId);
    } else {
      assert s + t == s;
    }
  }
}
