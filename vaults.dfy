/** The in-memory account collection (models/vault.py). The list is a field
    that `add_account` appends to and `remove_account` replaces; the finders
    are comprehensions over it. */
module Vaults {
  import opened Outcomes
  import opened Text
  import opened Dicts
  import opened Accounts

  const DuplicateLogin := "Ayni site ve username ile ikinci hesap eklenemez"

  /** No two accounts of `s` share a site and a username. */
  ghost predicate UniqueLogins(s: seq<Account>) {
    forall i, j :: 0 <= i < j < |s| ==> !SameLogin(s[i], s[j])
  }

  /** Some account of `s` has the login of `a`. */
  predicate HasLogin(s: seq<Account>, a: Account) {
    exists i :: 0 <= i < |s| && SameLogin(s[i], a)
  }

  /** Appending an account whose login is new keeps the logins unique. */
  lemma AppendKeepsUnique(s: seq<Account>, a: Account)
    requires UniqueLogins(s) && !HasLogin(s, a)
    ensures UniqueLogins(s + [a])
  {
    forall i, j | 0 <= i < j < |s + [a]|
      ensures !SameLogin((s + [a])[i], (s + [a])[j])
    {
      if j == |s| {
        assert (s + [a])[i] == s[i];
      }
    }
  }

  /** The accounts of `s` whose id is not `id`, in order
      (`[acc for acc in s if acc.id != account_id]`). */
  function WithoutId(s: seq<Account>, id: int): (r: seq<Account>)
    ensures |r| <= |s|
  {
    if s == [] then []
    else WithoutId(s[..|s| - 1], id) + (if s[|s| - 1].id != Some(id) then [s[|s| - 1]] else [])
  }

  /** What is kept is exactly the accounts whose id differs. */
  lemma {:induction false} WithoutIdMembers(s: seq<Account>, id: int)
    ensures forall a :: a in WithoutId(s, id) <==> a in s && a.id != Some(id)
  {
    if s != [] {
      var init, last := s[..|s| - 1], s[|s| - 1];
      WithoutIdMembers(init, id);
      assert s == init + [last];
    }
  }

  /** Removal distributes over concatenation, so the kept accounts stay in
      their order. */
  lemma {:induction false} WithoutIdAppend(s: seq<Account>, t: seq<Account>, id: int)
    ensures WithoutId(s + t, id) == WithoutId(s, id) + WithoutId(t, id)
  {
    if t != [] {
      var t' := t[..|t| - 1];
      assert (s + t)[..|s + t| - 1] == s + t';
      WithoutIdAppend(s, t', id);
    } else {
      assert s + t == s;
    }
  }

  /** Removing an id that no account has leaves the list as it was. */
  lemma {:induction false} WithoutAbsentId(s: seq<Account>, id: int)
    requires forall i :: 0 <= i < |s| ==> s[i].id != Some(id)
    ensures WithoutId(s, id) == s
  {
    if s != [] {
      var init, last := s[..|s| - 1], s[|s| - 1];
      assert forall i :: 0 <= i < |init| ==> init[i] == s[i];
      WithoutAbsentId(init, id);
      assert last.id != Some(id);
      assert WithoutId(s, id) == WithoutId(init, id) + [last];
      assert init + [last] == s;
    }
  }

  /** Removing twice is removing once. */
  lemma WithoutIdIdempotent(s: seq<Account>, id: int)
    ensures WithoutId(WithoutId(s, id), id) == WithoutId(s, id)
  {
    var r := WithoutId(s, id);
    WithoutIdMembers(s, id);
    assert forall i :: 0 <= i < |r| ==> r[i] in r;
    WithoutAbsentId(r, id);
  }

  /** The accounts of `s` whose lower-cased site contains the lower-cased
      keyword, in order. */
  function SiteMatches(s: seq<Account>, keyword: string): (r: seq<Account>)
    ensures |r| <= |s|
  {
    if s == [] then []
    else SiteMatches(s[..|s| - 1], keyword)
         + (if Contains(Lower(s[|s| - 1].site), Lower(keyword)) then [s[|s| - 1]] else [])
  }

  /** The matches are exactly the accounts whose site contains the keyword,
      ignoring ASCII case. */
  lemma {:induction false} SiteMatchesMembers(s: seq<Account>, keyword: string)
    ensures forall a :: a in SiteMatches(s, keyword) <==> a in s && Contains(Lower(a.site), Lower(keyword))
  {
    if s != [] {
      var init, last := s[..|s| - 1], s[|s| - 1];
      SiteMatchesMembers(init, keyword);
      assert s == init + [last];
    }
  }

  /** The site filter distributes over concatenation, so matches stay in
      their order. */
  lemma {:induction false} SiteMatchesAppend(s: seq<Account>, t: seq<Account>, keyword: string)
    ensures SiteMatches(s + t, keyword) == SiteMatches(s, keyword) + SiteMatches(t, keyword)
  {
    if t != [] {
      var t' := t[..|t| - 1];
      assert (s + t)[..|s + t| - 1] == s + t';
      SiteMatchesAppend(s, t', keyword);
    } else {
      assert s + t == s;
    }
  }

  /** The empty keyword is contained in every site, so it matches everything. */
  lemma {:induction false} EmptyKeywordMatchesAll(s: seq<Account>)
    ensures SiteMatches(s, "") == s
  {
    if s != [] {
      var init, last := s[..|s| - 1], s[|s| - 1];
      EmptyKeywordMatchesAll(init);
      assert Lower("") == "";
      EmptyIsContained(Lower(last.site));
      assert SiteMatches(s, "") == SiteMatches(init, "") + [last];
      assert init + [last] == s;
    }
  }

  /** `[acc.to_dict() for acc in s]`. */
  function ToDicts(s: seq<Account>): (r: seq<Dict>)
    ensures |r| == |s|
    ensures forall i :: 0 <= i < |s| ==> r[i] == ToDict(s[i])
  {
    if s == [] then [] else [ToDict(s[0])] + ToDicts(s[1..])
  }

  /** `[Account.from_dict(item) for item in data]`: the first item that does
      not convert raises, and nothing is returned. */
  function FromDicts(data: seq<Dict>): (r: Result<seq<Account>>)
    ensures r.Ok? ==> |r.value| == |data|
    ensures r.Ok? ==> forall i :: 0 <= i < |data| ==> Accounts.FromDict(data[i]) == Ok(r.value[i])
    ensures (exists i :: 0 <= i < |data| && Accounts.FromDict(data[i]).Err?) ==> r.Err?
    ensures r.Err? ==> exists i :: && 0 <= i < |data| && Accounts.FromDict(data[i]) == Err(r.error)
                                   && forall j :: 0 <= j < i ==> Accounts.FromDict(data[j]).Ok?
  {
    if data == [] then Ok([])
    else
      var first :- Accounts.FromDict(data[0]);
      var rest :- FromDicts(data[1..]);
      Ok([first] + rest)
  }

  /** `from_list(to_list(accounts))` rebuilds the same accounts. */
  lemma {:induction false} FromDictsToDicts(s: seq<Account>)
    requires forall a :: a in s ==> IsValid(a)
    ensures FromDicts(ToDicts(s)) == Ok(s)
  {
    if s != [] {
      FromDictToDict(s[0]);
      FromDictsToDicts(s[1..]);
      assert ToDicts(s)[1..] == ToDicts(s[1..]);
      assert [s[0]] + s[1..] == s;
    }
  }

  class Vault {
    var accounts: seq<Account>

    /** `Vault(accounts)`: `accounts or []`; the list is not checked for
        duplicate logins. */
    constructor (accounts: Option<seq<Account>>)
      ensures this.accounts == accounts.GetOr([])
    {
      this.accounts := accounts.GetOr([]);
    }

    /** `_check_duplicate(new_account)`: raises as soon as an account with the
        same site and username is found. */
    method CheckDuplicate(newAccount: Account) returns (r: Outcome)
      ensures r.Pass? <==> !HasLogin(accounts, newAccount)
      ensures r.Fail? ==> r.error == ValueError(DuplicateLogin)
    {
      var i := 0;
      while i < |accounts|
        invariant 0 <= i <= |accounts|
        invariant forall j :: 0 <= j < i ==> !SameLogin(accounts[j], newAccount)
      {
        if accounts[i].site == newAccount.site && accounts[i].username == newAccount.username {
          return Fail(ValueError(DuplicateLogin));
        }
        i := i + 1;
      }
      return Pass;
    }

    /** `add_account(account)`: a second account for the same login is refused
        and the list is left as it was; otherwise the account is appended. */
    method AddAccount(account: Account) returns (r: Outcome)
      modifies this
      ensures r.Pass? <==> !HasLogin(old(accounts), account)
      ensures r.Fail? ==> r.error == ValueError(DuplicateLogin) && accounts == old(accounts)
      ensures r.Pass? ==> accounts == old(accounts) + [account]
      ensures UniqueLogins(old(accounts)) ==> UniqueLogins(accounts)
    {
      r := CheckDuplicate(account);
      if r.Pass? {
        if UniqueLogins(accounts) {
          AppendKeepsUnique(accounts, account);
        }
        accounts := accounts + [account];
      }
    }

    /** `remove_account(account_id)`: keeps, in order, every account whose id
        differs. */
    method RemoveAccount(accountId: int)
      modifies this
      ensures accounts == WithoutId(old(accounts), accountId)
      ensures (forall i :: 0 <= i < |old(accounts)| ==> old(accounts)[i].id != Some(accountId)) ==> accounts == old(accounts)
    {
      if forall i :: 0 <= i < |accounts| ==> accounts[i].id != Some(accountId) {
        WithoutAbsentId(accounts, accountId);
      }
      accounts := WithoutId(accounts, accountId);
    }

    /** `get_all_accounts()`: `list(self._accounts)`, a copy, which a sequence
        value already is. */
    function GetAllAccounts(): (r: seq<Account>)
      reads this
      ensures |r| == |accounts| && forall i :: 0 <= i < |r| ==> r[i] == accounts[i]
    {
      accounts
    }

    /** `find_by_category(category_id)`. */
    function FindByCategory(categoryId: int): (r: seq<Account>)
      reads this
      ensures forall a :: a in r <==> a in accounts && a.categoryId == categoryId
    {
      WithCategory(accounts, categoryId)
    }

    /** `find_by_site(keyword)`. */
    function FindBySite(keyword: string): (r: seq<Account>)
      reads this
      ensures forall a :: a in r <==> a in accounts && Contains(Lower(a.site), Lower(keyword))
      ensures keyword == "" ==> r == accounts
    {
      SiteMatchesMembers(accounts, keyword);
      EmptyKeywordMatchesAll(accounts);
      SiteMatches(accounts, keyword)
    }

    /** `get_by_id(account_id)`: the first account with that id, or `None`. */
    method GetById(accountId: int) returns (r: Option<Account>)
      ensures r.None? <==> forall j :: 0 <= j < |accounts| ==> accounts[j].id != Some(accountId)
      ensures r.Some? ==> exists i :: && 0 <= i < |accounts| && accounts[i] == r.value
                                      && r.value.id == Some(accountId)
                                      && forall j :: 0 <= j < i ==> accounts[j].id != Some(accountId)
    {
      var i := 0;
      while i < |accounts|
        invariant 0 <= i <= |accounts|
        invariant forall j :: 0 <= j < i ==> accounts[j].id != Some(accountId)
      {
        if accounts[i].id == Some(accountId) {
          return Some(accounts[i]);
        }
        i := i + 1;
      }
      return None;
    }

    /** `to_list()`. */
    function ToList(): (r: seq<Dict>)
      reads this
      ensures |r| == |accounts| && forall i :: 0 <= i < |r| ==> r[i] == ToDict(accounts[i])
    {
      ToDicts(accounts)
    }

    /** `Vault.from_list(data)`. */
    static method FromList(data: seq<Dict>) returns (r: Result<Vault>)
      ensures r.Ok? <==> FromDicts(data).Ok?
      ensures r.Ok? ==> fresh(r.value) && r.value.accounts == FromDicts(data).value
      ensures r.Err? ==> r.error == FromDicts(data).error
    {
      var converted := FromDicts(data);
      if converted.Err? {
        return Err(converted.error);
      }
      var v := new Vault(Some(converted.value));
      return Ok(v);
    }
  }
}
