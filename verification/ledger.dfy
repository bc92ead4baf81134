/**
 * The ledger's entities as the server stores them: accounts of five types and
 * transactions between two accounts, both soft-deleted through an active flag.
 */
module Ledger {
  import opened Wrappers
  import opened Text

  datatype AccountType = Asset | Liability | Equity | Income | Expense

  /** The enumeration order of the account types. */
  const AllTypes: seq<AccountType> := [Asset, Liability, Equity, Income, Expense]

  /** AllTypes lists every type. */
  lemma AllTypesComplete()
    ensures forall t :: t in AllTypes
  {
    forall t: AccountType
      ensures t in AllTypes
    {
      match t
      case Asset => assert AllTypes[0] == t;
      case Liability => assert AllTypes[1] == t;
      case Equity => assert AllTypes[2] == t;
      case Income => assert AllTypes[3] == t;
      case Expense => assert AllTypes[4] == t;
    }
  }

  /** The enum member's name, which is also its value and the client's enum value. */
  function TypeName(t: AccountType): string {
    match t
    case Asset => "ASSET"
    case Liability => "LIABILITY"
    case Equity => "EQUITY"
    case Income => "INCOME"
    case Expense => "EXPENSE"
  }

  /** The key of the type's group in the account listing (see TypeKeyIsLowerName). */
  function TypeKey(t: AccountType): string {
    match t
    case Asset => "asset"
    case Liability => "liability"
    case Equity => "equity"
    case Income => "income"
    case Expense => "expense"
  }

  /** The listing key is the type's value, lower-cased. */
  lemma TypeKeyIsLowerName(t: AccountType)
    ensures TypeKey(t) == Lower(TypeName(t))
  {
  }

  const TypeKeys: set<string> := {"asset", "liability", "equity", "income", "expense"}

  /** Every type has its own listing key, and the keys are exactly TypeKeys. */
  lemma TypeKeysExact()
    ensures forall t :: TypeKey(t) in TypeKeys
    ensures forall k :: k in TypeKeys ==> exists t :: TypeKey(t) == k
    ensures forall t, u :: TypeKey(t) == TypeKey(u) ==> t == u
  {
    assert TypeKey(Asset) == "asset";
    assert TypeKey(Liability) == "liability";
    assert TypeKey(Equity) == "equity";
    assert TypeKey(Income) == "income";
    assert TypeKey(Expense) == "expense";
  }

  /**
   * Looks a type up by member name after upper-casing the text, so the lookup
   * ignores letter case; an unknown name yields None.
   */
  function ParseAccountType(s: string): (r: Option<AccountType>)
    ensures r.Some? ==> Upper(s) == TypeName(r.value)
    ensures r.None? ==> forall t :: Upper(s) != TypeName(t)
  {
    var u := Upper(s);
    if u == "ASSET" then Some(Asset)
    else if u == "LIABILITY" then Some(Liability)
    else if u == "EQUITY" then Some(Equity)
    else if u == "INCOME" then Some(Income)
    else if u == "EXPENSE" then Some(Expense)
    else None
  }

  /** The name the client sends for a type, in upper or lower case, parses back to that type. */
  lemma ParseTypeName(t: AccountType)
    ensures ParseAccountType(TypeName(t)) == Some(t)
    ensures ParseAccountType(TypeKey(t)) == Some(t)
  {
    assert Upper(TypeName(t)) == TypeName(t);
    assert Upper(TypeKey(t)) == TypeName(t);
  }

  datatype Account = Account(id: int, name: string, kind: AccountType, isActive: bool)

  /** A decimal number as `unscaled * 10^exponent`; produced only by the abstract amount parser. */
  datatype Decimal = Decimal(unscaled: int, exponent: int)

  /** A calendar date; produced only by the abstract ISO-date parser. */
  datatype Date = Date(year: int, month: int, day: int)

  /** Chronological order on dates. */
  predicate DateLe(a: Date, b: Date) {
    || a.year < b.year
    || (a.year == b.year && a.month < b.month)
    || (a.year == b.year && a.month == b.month && a.day <= b.day)
  }

  datatype Transaction = Transaction(
    id: int,
    description: string,
    date: Date,
    amount: Decimal,
    debitAccountId: int,
    creditAccountId: int,
    isActive: bool)

  /**
   * The two tables. Rows are never removed (deletion is soft) and ids are
   * assigned in sequence from 1, so the row with id k sits at index k - 1.
   */
  datatype Tables = Tables(accounts: seq<Account>, transactions: seq<Transaction>)

  predicate Valid(tb: Tables) {
    && (forall i :: 0 <= i < |tb.accounts| ==> tb.accounts[i].id == i + 1)
    && (forall i :: 0 <= i < |tb.transactions| ==> tb.transactions[i].id == i + 1)
  }

  /** `Account.query.get(id)` is a row that exists. */
  predicate HasAccount(tb: Tables, id: int) {
    1 <= id <= |tb.accounts|
  }

  predicate HasTransaction(tb: Tables, id: int) {
    1 <= id <= |tb.transactions|
  }

  predicate AccountIdsIncrease(s: seq<Account>) {
    forall i, j :: 0 <= i < j < |s| ==> s[i].id < s[j].id
  }
}
