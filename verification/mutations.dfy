/**
 * The six mutation hooks: which client call each makes, which query-key
 * prefixes it invalidates once the server confirms the write, and what the
 * user is told. A failed write invalidates nothing.
 */
module Mutations {
  import opened Wrappers
  import opened QueryCache

  /** The transaction body the client sends; `amount` is the form's text (its float conversion is not modelled). */
  datatype TransactionInput = TransactionInput(
    description: string,
    date: string,
    amount: string,
    debitAccountId: int,
    creditAccountId: int)

  /** The update hook's argument: the id together with the five body fields. */
  datatype TransactionUpdate = TransactionUpdate(
    id: int,
    description: string,
    date: string,
    amount: string,
    debitAccountId: int,
    creditAccountId: int)

  /** `({ id, ...transaction })`: the id apart from the remaining five fields. */
  function SplitUpdate(u: TransactionUpdate): (int, TransactionInput) {
    (u.id, TransactionInput(u.description, u.date, u.amount, u.debitAccountId, u.creditAccountId))
  }

  /** `{ id, ...payload }`. */
  function WithId(id: int, p: TransactionInput): TransactionUpdate {
    TransactionUpdate(id, p.description, p.date, p.amount, p.debitAccountId, p.creditAccountId)
  }

  /** Splitting the update input loses nothing and adds nothing: the two are inverse. */
  lemma SplitUpdateRoundTrip(u: TransactionUpdate, id: int, p: TransactionInput)
    ensures WithId(SplitUpdate(u).0, SplitUpdate(u).1) == u
    ensures SplitUpdate(WithId(id, p)) == (id, p)
  {
  }

  /** A call to one of the hooks' `mutate`. */
  datatype Mutation =
    | CreateAccount(name: string, kind: string)
    | UpdateAccount(id: int, name: string)
    | DeleteAccount(id: int)
    | CreateTransaction(input: TransactionInput)
    | UpdateTransaction(update: TransactionUpdate)
    | DeleteTransaction(id: int)

  predicate IsTransactionWrite(m: Mutation) {
    m.CreateTransaction? || m.UpdateTransaction? || m.DeleteTransaction?
  }

  /** The client-API call a hook's `mutationFn` makes. */
  datatype ApiCall =
    | AccountsCreate(name: string, kind: string)
    | AccountsUpdate(id: int, name: string)
    | AccountsDelete(id: int)
    | TransactionsCreate(body: TransactionInput)
    | TransactionsUpdate(id: int, body: TransactionInput)
    | TransactionsDelete(id: int)

  /** Each hook forwards its argument unchanged, except that update splits the id from the body. */
  function CallFor(m: Mutation): (c: ApiCall)
    ensures m.CreateAccount? ==> c == AccountsCreate(m.name, m.kind)
    ensures m.UpdateAccount? ==> c == AccountsUpdate(m.id, m.name)
    ensures m.DeleteAccount? ==> c == AccountsDelete(m.id)
    ensures m.CreateTransaction? ==> c == TransactionsCreate(m.input)
    ensures m.UpdateTransaction? ==> c.TransactionsUpdate? && WithId(c.id, c.body) == m.update
    ensures m.DeleteTransaction? ==> c == TransactionsDelete(m.id)
  {
    match m
    case CreateAccount(name, kind) => AccountsCreate(name, kind)
    case UpdateAccount(id, name) => AccountsUpdate(id, name)
    case DeleteAccount(id) => AccountsDelete(id)
    case CreateTransaction(input) => TransactionsCreate(input)
    case UpdateTransaction(u) => TransactionsUpdate(SplitUpdate(u).0, SplitUpdate(u).1)
    case DeleteTransaction(id) => TransactionsDelete(id)
  }

  /** How the write ended: confirmed, or failed with the error's message. */
  datatype Outcome = Succeeded | Failed(message: string)

  /** The prefixes `onSuccess` invalidates, in call order; `onError` invalidates none. */
  function Invalidations(m: Mutation, o: Outcome): (r: seq<QueryKey>)
    ensures o.Failed? ==> r == []
    ensures o.Succeeded? ==> AccountsKey() in r
    ensures o.Succeeded? && (m.CreateAccount? || m.UpdateAccount?) ==> r == [AccountsKey()]
    ensures o.Succeeded? && m.DeleteAccount? ==> r == [AccountsKey(), TransactionsFamily()]
    ensures o.Succeeded? && IsTransactionWrite(m) ==> r == [TransactionsFamily(), AccountsKey()]
  {
    if o.Failed? then []
    else
      match m
      case CreateAccount(_, _) => [AccountsKey()]
      case UpdateAccount(_, _) => [AccountsKey()]
      case DeleteAccount(_) => [AccountsKey(), TransactionsFamily()]
      case _ => [TransactionsFamily(), AccountsKey()]
  }

  /** The cache after the write settles. */
  function Settle<V>(c: Cache<V>, m: Mutation, o: Outcome): Cache<V> {
    InvalidateAll(c, Invalidations(m, o))
  }

  /** A failed write leaves every cache entry as it was. */
  lemma FailedWriteLeavesCache<V>(c: Cache<V>, m: Mutation, message: string)
    ensures Settle(c, m, Failed(message)) == c
  {
  }

  /** A confirmed account delete marks the accounts entry and every transactions entry, filtered or not, stale. */
  lemma DeleteAccountStalesEveryTransactionsView<V>(c: Cache<V>, id: int)
    ensures var r := Settle(c, DeleteAccount(id), Succeeded);
      && (forall f :: TransactionsKey(f) in r ==> r[TransactionsKey(f)].stale)
      && (AccountsKey() in r ==> r[AccountsKey()].stale)
  {
    var r := Settle(c, DeleteAccount(id), Succeeded);
    forall f | TransactionsKey(f) in r
      ensures r[TransactionsKey(f)].stale
    {
      assert Invalidations(DeleteAccount(id), Succeeded)[1] <= TransactionsKey(f);
    }
    assert Invalidations(DeleteAccount(id), Succeeded)[0] <= AccountsKey();
  }

  /** A confirmed transaction write marks every transactions entry and the accounts entry stale. */
  lemma TransactionWriteStalesBothFamilies<V>(c: Cache<V>, m: Mutation)
    requires IsTransactionWrite(m)
    ensures var r := Settle(c, m, Succeeded);
      && (forall f :: TransactionsKey(f) in r ==> r[TransactionsKey(f)].stale)
      && (AccountsKey() in r ==> r[AccountsKey()].stale)
  {
    var r := Settle(c, m, Succeeded);
    forall f | TransactionsKey(f) in r
      ensures r[TransactionsKey(f)].stale
    {
      assert Invalidations(m, Succeeded)[0] <= TransactionsKey(f);
    }
    assert Invalidations(m, Succeeded)[1] <= AccountsKey();
  }

  /** Creating or renaming an account leaves every transactions entry exactly as it was. */
  lemma AccountWriteSparesTransactions<V>(c: Cache<V>, m: Mutation, f: Option<int>)
    requires m.CreateAccount? || m.UpdateAccount?
    requires TransactionsKey(f) in c
    ensures Settle(c, m, Succeeded)[TransactionsKey(f)] == c[TransactionsKey(f)]
  {
    FamiliesDisjoint(f);
    assert !MatchesAny(Invalidations(m, Succeeded), TransactionsKey(f));
  }

  /** The three transaction writes invalidate the same prefixes. */
  lemma TransactionWritesAlike(a: Mutation, b: Mutation, o: Outcome)
    requires IsTransactionWrite(a) && IsTransactionWrite(b)
    ensures Invalidations(a, o) == Invalidations(b, o)
  {
  }

  /** What the user is told. */
  datatype Toast = SuccessToast(text: string) | ErrorToast(text: string)

  /** The default error text of each hook. */
  function DefaultError(m: Mutation): string {
    match m
    case CreateAccount(_, _) => "Failed to create account"
    case UpdateAccount(_, _) => "Failed to update account"
    case DeleteAccount(_) => "Failed to delete account"
    case CreateTransaction(_) => "Failed to create transaction"
    case UpdateTransaction(_) => "Failed to update transaction"
    case DeleteTransaction(_) => "Failed to delete transaction"
  }

  /** The success text of each hook. */
  function SuccessText(m: Mutation): string {
    match m
    case CreateAccount(_, _) => "Account created"
    case UpdateAccount(_, _) => "Account updated"
    case DeleteAccount(_) => "Account deleted"
    case CreateTransaction(_) => "Transaction created"
    case UpdateTransaction(_) => "Transaction updated"
    case DeleteTransaction(_) => "Transaction deleted"
  }

  /** A failure shows the error's message, or the hook's default when the message is empty; it never shows an empty text. */
  function Notify(m: Mutation, o: Outcome): (t: Toast)
    ensures o.Succeeded? ==> t.SuccessToast?
    ensures o.Failed? ==> t.ErrorToast?
    ensures o.Failed? && o.message != "" ==> t.text == o.message
    ensures o.Failed? && o.message == "" ==> t.text == DefaultError(m)
    ensures o.Succeeded? ==> t.text == SuccessText(m)
    ensures t.text != ""
  {
    match o
    case Succeeded => SuccessToast(SuccessText(m))
    case Failed(message) => ErrorToast(if message != "" then message else DefaultError(m))
  }

  /** What a caller's `mutate(…)` starts: nothing, or one mutation. */
  datatype Dispatch = NoOp | Mutate(m: Mutation)

  /** The dialogs pass `onSuccess` callbacks only: they close when the write is confirmed and stay open on failure. */
  predicate ClosesOn(o: Outcome) {
    o.Succeeded?
  }
}
