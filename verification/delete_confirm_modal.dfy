/**
 * The delete confirmation dialog: when it shows, what confirming dispatches,
 * when Escape closes it, and what a confirmed delete does to the cache.
 */
module DeleteConfirmModal {
  import opened Wrappers
  import opened QueryCache
  import opened Mutations

  /** What the dialog asks about: a kind (`'account'` or `'transaction'`) and an id. */
  datatype DeleteTarget = DeleteTarget(kind: string, id: int)

  /** The dialog renders only while open and with a target. */
  predicate Rendered(open: bool, target: Option<DeleteTarget>) {
    open && target.Some?
  }

  /**
   * `handleDelete`: an `'account'` target deletes that account; any other
   * kind deletes the transaction with that id. A dialog that is not rendered
   * has no button to press.
   */
  function HandleDelete(open: bool, target: Option<DeleteTarget>): (d: Dispatch)
    ensures d.Mutate? <==> Rendered(open, target)
    ensures d.Mutate? && target.value.kind == "account" ==> d.m == DeleteAccount(target.value.id)
    ensures d.Mutate? && target.value.kind != "account" ==> d.m == DeleteTransaction(target.value.id)
  {
    if !Rendered(open, target) then NoOp
    else if target.value.kind == "account" then Mutate(DeleteAccount(target.value.id))
    else Mutate(DeleteTransaction(target.value.id))
  }

  /** The keydown listener closes the dialog on Escape while it is open, whether or not a target is set. */
  predicate EscapeCloses(key: string, open: bool) {
    key == "Escape" && open
  }

  /** Both buttons are disabled while either delete is pending. */
  predicate ButtonsDisabled(accountDeletePending: bool, transactionDeletePending: bool) {
    accountDeletePending || transactionDeletePending
  }

  /** The dialog stays open until the delete is confirmed; a failed delete leaves it open for another try. */
  function OpenAfter(open: bool, o: Outcome): (r: bool)
    ensures r <==> open && !ClosesOn(o)
  {
    if ClosesOn(o) then false else open
  }

  /**
   * A confirmed account delete from the dialog marks the accounts entry and
   * every cached transactions listing, filtered or not, stale, and closes it.
   */
  lemma {:induction false} ConfirmedAccountDeleteStalesListings<V>(c: Cache<V>, id: int)
    ensures HandleDelete(true, Some(DeleteTarget("account", id))) == Mutate(DeleteAccount(id))
    ensures var r := Settle(c, DeleteAccount(id), Succeeded);
      && (forall f :: TransactionsKey(f) in r ==> r[TransactionsKey(f)].stale)
      && (AccountsKey() in r ==> r[AccountsKey()].stale)
    ensures !OpenAfter(true, Succeeded)
  {
    DeleteAccountStalesEveryTransactionsView(c, id);
  }

  /** A target kind other than `'account'`, even a misspelt one, deletes a transaction. */
  lemma OtherKindDeletesTransaction(kind: string, id: int)
    requires kind != "account"
    ensures HandleDelete(true, Some(DeleteTarget(kind, id))) == Mutate(DeleteTransaction(id))
  {
  }
}
