/**
 * The account endpoints: the listing grouped by type, create, rename and soft
 * delete, with their validation order and case-insensitive duplicate rule.
 */
module AccountsApi {
  import opened Wrappers
  import opened Text
  import opened Ledger
  import opened ApiUtils

  /** The active accounts of one type, in table (id) order. */
  function ActiveOfType(accounts: seq<Account>, t: AccountType): (r: seq<Account>)
    ensures forall a :: a in r <==> a in accounts && a.isActive && a.kind == t
    ensures AccountIdsIncrease(accounts) ==> AccountIdsIncrease(r)
    ensures |r| <= |accounts|
  {
    if |accounts| == 0 then []
    else
      var init := accounts[..|accounts| - 1];
      var last := accounts[|accounts| - 1];
      var r := ActiveOfType(init, t) + (if last.isActive && last.kind == t then [last] else []);
      assert forall a :: a in init ==> a in accounts;
      assert AccountIdsIncrease(accounts) ==> forall a :: a in init ==> a.id < last.id;
      r
  }

  /** `GET /accounts`: one group per type, keyed by the lower-cased type name, holding that type's active accounts. */
  function GetAccounts(tb: Tables): (r: ApiResult<map<string, seq<Account>>>)
    ensures r.Done? && r.tables == tb && r.status == 200 && r.message.None?
    ensures r.data.Some? && r.data.value.Keys == TypeKeys
    ensures forall t, a :: a in r.data.value[TypeKey(t)] <==> a in tb.accounts && a.isActive && a.kind == t
    ensures Valid(tb) ==> forall t :: AccountIdsIncrease(r.data.value[TypeKey(t)])
  {
    TypeKeysExact();
    var groups := map t | t in AllTypes :: TypeKey(t) := ActiveOfType(tb.accounts, t);
    AllTypesComplete();
    Done(tb, Some(groups), None, 200)
  }

  /** An active account already has this name, ignoring letter case. */
  predicate NameTaken(accounts: seq<Account>, name: string) {
    exists i :: 0 <= i < |accounts| && accounts[i].isActive && EqualsIgnoringCase(accounts[i].name, name)
  }

  datatype CreateAccountFields = CreateAccountFields(name: string, kind: string)

  const CreateAccountRequired: seq<string> := ["name", "type"]

  /**
   * `POST /accounts`: after request validation, an unknown type is rejected,
   * then a name held by an active account (ignoring case); otherwise a new
   * active account with the next id is appended.
   */
  function CreateAccount(tb: Tables, req: Request<CreateAccountFields>, commit: Commit): (r: ApiResult<Account>)
    ensures ValidateRequestJson(req, CreateAccountRequired).Some? ==>
      r == Fail(ValidateRequestJson(req, CreateAccountRequired).value)
    ensures ValidateRequestJson(req, CreateAccountRequired).None? ==>
      && (ParseAccountType(req.fields.kind).None? <==> r == Fail(ApiError(InvalidAccountType, "Invalid account type", 400)))
      && (ParseAccountType(req.fields.kind).Some? && NameTaken(tb.accounts, req.fields.name) <==>
          r == Fail(ApiError(DuplicateAccount, "Account with this name already exists", 400)))
    ensures r.Done? <==>
      && ValidateRequestJson(req, CreateAccountRequired).None?
      && ParseAccountType(req.fields.kind).Some?
      && !NameTaken(tb.accounts, req.fields.name)
      && commit.Committed?
    ensures r.Done? ==>
      && r.status == 201
      && r.message == Some("Account created successfully")
      && r.data == Some(Account(|tb.accounts| + 1, req.fields.name, ParseAccountType(req.fields.kind).value, true))
      && r.tables == tb.(accounts := tb.accounts + [r.data.value])
    ensures
      (&& ValidateRequestJson(req, CreateAccountRequired).None?
       && ParseAccountType(req.fields.kind).Some?
       && !NameTaken(tb.accounts, req.fields.name)
       && commit.CommitFailed?) ==>
      r == Fail(ApiError(DatabaseError, "Error creating account: " + commit.reason, 500))
    ensures r.Fail? && r.err.code == DatabaseError ==> r.err.status == 500
    ensures r.Fail? ==> r.err.status in ErrorStatuses
    ensures Valid(tb) ==> Valid(After(tb, r))
  {
    Guarded(req, CreateAccountRequired,
      match ParseAccountType(req.fields.kind)
      case None => Fail(ApiError(InvalidAccountType, "Invalid account type", 400))
      case Some(t) =>
        if NameTaken(tb.accounts, req.fields.name) then
          Fail(ApiError(DuplicateAccount, "Account with this name already exists", 400))
        else
          match commit
          case CommitFailed(reason) => Fail(ApiError(DatabaseError, "Error creating account: " + reason, 500))
          case Committed =>
            var created := Account(|tb.accounts| + 1, req.fields.name, t, true);
            Done(tb.(accounts := tb.accounts + [created]), Some(created), Some("Account created successfully"), 201))
  }

  datatype RenameFields = RenameFields(name: string)

  const RenameRequired: seq<string> := ["name"]

  /**
   * `PATCH /accounts/<id>`: after request validation, a missing or inactive
   * account is NOT_FOUND; the exact current name succeeds without a change;
   * any other name held by an active account, ignoring case, is a duplicate
   * (the account itself included); otherwise only the name changes.
   */
  function UpdateAccount(tb: Tables, id: nat, req: Request<RenameFields>, commit: Commit): (r: ApiResult<Account>)
    ensures ValidateRequestJson(req, RenameRequired).Some? ==>
      r == Fail(ValidateRequestJson(req, RenameRequired).value)
    ensures ValidateRequestJson(req, RenameRequired).None? ==>
      ((r.Fail? && r.err.code == NotFound) <==> !(HasAccount(tb, id) && tb.accounts[id - 1].isActive))
    ensures r.Fail? && r.err.code == NotFound ==> r.err.status == 404
    ensures ValidateRequestJson(req, RenameRequired).None? && !HasAccount(tb, id) ==>
      r == Fail(ApiError(NotFound, "Resource not found", 404))
    ensures ValidateRequestJson(req, RenameRequired).None? && HasAccount(tb, id) && !tb.accounts[id - 1].isActive ==>
      r == Fail(ApiError(NotFound, "Account not found", 404))
    ensures r.Done? && tb.accounts[id - 1].name != req.fields.name ==>
      r.message == Some("Account updated successfully")
    ensures r.Done? ==>
      && HasAccount(tb, id) && tb.accounts[id - 1].isActive
      && r.status == 200
      && r.tables == tb.(accounts := tb.accounts[id - 1 := tb.accounts[id - 1].(name := req.fields.name)])
      && r.data == Some(r.tables.accounts[id - 1])
    ensures r.Done? <==>
      && ValidateRequestJson(req, RenameRequired).None?
      && HasAccount(tb, id) && tb.accounts[id - 1].isActive
      && (tb.accounts[id - 1].name == req.fields.name || (!NameTaken(tb.accounts, req.fields.name) && commit.Committed?))
    ensures r.Done? ==>
      (r.message == Some("Account unchanged") <==> tb.accounts[id - 1].name == req.fields.name)
    ensures r.Done? && r.tables != tb ==> !NameTaken(tb.accounts, req.fields.name)
    ensures
      (&& ValidateRequestJson(req, RenameRequired).None?
       && HasAccount(tb, id) && tb.accounts[id - 1].isActive
       && tb.accounts[id - 1].name != req.fields.name
       && !NameTaken(tb.accounts, req.fields.name)
       && commit.CommitFailed?) ==>
      r == Fail(ApiError(DatabaseError, "Error updating account: " + commit.reason, 500))
    ensures r.Fail? ==> r.err.status in ErrorStatuses
    ensures r.Fail? && r.err.code == DuplicateAccount <==>
      && ValidateRequestJson(req, RenameRequired).None?
      && HasAccount(tb, id) && tb.accounts[id - 1].isActive
      && tb.accounts[id - 1].name != req.fields.name
      && NameTaken(tb.accounts, req.fields.name)
    ensures r.Fail? && r.err.code == DuplicateAccount ==>
      r.err == ApiError(DuplicateAccount, "Account with the name '" + req.fields.name + "' already exists", 400)
    ensures Valid(tb) ==> Valid(After(tb, r))
  {
    Guarded(req, RenameRequired,
      if !HasAccount(tb, id) then Fail(ApiError(NotFound, "Resource not found", 404))
      else
        var account := tb.accounts[id - 1];
        var newName := req.fields.name;
        if !account.isActive then Fail(ApiError(NotFound, "Account not found", 404))
        else if account.name == newName then Done(tb, Some(account), Some("Account unchanged"), 200)
        else if NameTaken(tb.accounts, newName) then
          Fail(ApiError(DuplicateAccount, "Account with the name '" + newName + "' already exists", 400))
        else
          match commit
          case CommitFailed(reason) => Fail(ApiError(DatabaseError, "Error updating account: " + reason, 500))
          case Committed =>
            var renamed := account.(name := newName);
            Done(tb.(accounts := tb.accounts[id - 1 := renamed]), Some(renamed), Some("Account updated successfully"), 200))
  }

  /**
   * `DELETE /accounts/<id>`: a missing or inactive account is NOT_FOUND;
   * otherwise only its active flag is cleared, and no transaction changes.
   */
  function DeleteAccount(tb: Tables, id: nat, commit: Commit): (r: ApiResult<Account>)
    ensures (r.Fail? && r.err.code == NotFound) <==> !(HasAccount(tb, id) && tb.accounts[id - 1].isActive)
    ensures r.Fail? ==> r.err.code in {NotFound, DatabaseError}
    ensures r.Done? <==> HasAccount(tb, id) && tb.accounts[id - 1].isActive && commit.Committed?
    ensures HasAccount(tb, id) && tb.accounts[id - 1].isActive && commit.CommitFailed? ==>
      r == Fail(ApiError(DatabaseError, "Error deleting account: " + commit.reason, 500))
    ensures r.Fail? ==> r.err.status in ErrorStatuses
    ensures !HasAccount(tb, id) ==> r == Fail(ApiError(NotFound, "Resource not found", 404))
    ensures HasAccount(tb, id) && !tb.accounts[id - 1].isActive ==> r == Fail(ApiError(NotFound, "Account not found", 404))
    ensures r.Done? ==> r.message == Some("Account " + tb.accounts[id - 1].name + " successfully deleted")
    ensures r.Done? ==>
      && r.status == 200 && r.data.None?
      && r.tables.transactions == tb.transactions
      && r.tables.accounts == tb.accounts[id - 1 := tb.accounts[id - 1].(isActive := false)]
    ensures Valid(tb) ==> Valid(After(tb, r))
  {
    if !HasAccount(tb, id) then Fail(ApiError(NotFound, "Resource not found", 404))
    else
      var account := tb.accounts[id - 1];
      if !account.isActive then Fail(ApiError(NotFound, "Account not found", 404))
      else
        match commit
        case CommitFailed(reason) => Fail(ApiError(DatabaseError, "Error deleting account: " + reason, 500))
        case Committed =>
          Done(tb.(accounts := tb.accounts[id - 1 := account.(isActive := false)]), None,
               Some("Account " + account.name + " successfully deleted"), 200)
  }

  /** Inactive accounts never block a name: only active ones count as duplicates. */
  lemma InactiveNeverBlocks(accounts: seq<Account>, i: int, name: string)
    requires 0 <= i < |accounts| && !accounts[i].isActive
    ensures NameTaken(accounts, name) <==> NameTaken(accounts[i := accounts[i].(name := name)], name)
  {
    var accounts' := accounts[i := accounts[i].(name := name)];
    if NameTaken(accounts', name) {
      var j :| 0 <= j < |accounts'| && accounts'[j].isActive && EqualsIgnoringCase(accounts'[j].name, name);
      assert j != i;
      assert accounts[j] == accounts'[j];
    }
    if NameTaken(accounts, name) {
      var j :| 0 <= j < |accounts| && accounts[j].isActive && EqualsIgnoringCase(accounts[j].name, name);
      assert j != i;
      assert accounts'[j] == accounts[j];
    }
  }

  /**
   * Renaming an active account to a name that differs from its own only in
   * letter case is rejected as a duplicate, because the account matches itself.
   */
  lemma {:induction false} CaseOnlyRenameRejected(tb: Tables, id: nat, req: Request<RenameFields>, commit: Commit)
    requires req.isJson && "name" in req.keys
    requires HasAccount(tb, id) && tb.accounts[id - 1].isActive
    requires tb.accounts[id - 1].name != req.fields.name
    requires EqualsIgnoringCase(tb.accounts[id - 1].name, req.fields.name)
    ensures UpdateAccount(tb, id, req, commit) ==
      Fail(ApiError(DuplicateAccount, "Account with the name '" + req.fields.name + "' already exists", 400))
  {
    assert NameTaken(tb.accounts, req.fields.name) by {
      assert tb.accounts[id - 1].isActive && EqualsIgnoringCase(tb.accounts[id - 1].name, req.fields.name);
    }
  }

  /** Renaming to the exact current name succeeds and changes nothing, whatever the other accounts are called. */
  lemma SameNameRenameUnchanged(tb: Tables, id: nat, req: Request<RenameFields>, commit: Commit)
    requires req.isJson && "name" in req.keys
    requires HasAccount(tb, id) && tb.accounts[id - 1].isActive
    requires tb.accounts[id - 1].name == req.fields.name
    ensures UpdateAccount(tb, id, req, commit) == Done(tb, Some(tb.accounts[id - 1]), Some("Account unchanged"), 200)
  {
  }

  /** A created account is listed under its type's key at once, and nowhere else. */
  lemma {:induction false} CreatedAccountListed(tb: Tables, req: Request<CreateAccountFields>, commit: Commit)
    requires CreateAccount(tb, req, commit).Done?
    ensures var r := CreateAccount(tb, req, commit);
      var listing := GetAccounts(r.tables).data.value;
      && r.data.value in listing[TypeKey(r.data.value.kind)]
      && forall t :: t != r.data.value.kind ==> r.data.value !in listing[TypeKey(t)]
  {
  }

  /** After a delete the account is in no group of the listing, and a second delete of it is NOT_FOUND. */
  lemma {:induction false} DeletedAccountGone(tb: Tables, id: nat, commit: Commit, commit2: Commit)
    requires Valid(tb)
    requires DeleteAccount(tb, id, commit).Done?
    ensures var after := DeleteAccount(tb, id, commit).tables;
      && (forall t, a :: a in GetAccounts(after).data.value[TypeKey(t)] ==> a.id != id)
      && DeleteAccount(after, id, commit2) == Fail(ApiError(NotFound, "Account not found", 404))
  {
    var after := DeleteAccount(tb, id, commit).tables;
    forall t, a | a in GetAccounts(after).data.value[TypeKey(t)]
      ensures a.id != id
    {
      var k :| 0 <= k < |after.accounts| && after.accounts[k] == a;
      assert after.accounts[k].isActive;
      assert k != id - 1;
      assert a.id == k + 1;
    }
  }
}
