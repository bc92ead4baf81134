/**
 * The transaction dialog's logic: the form it pre-fills or resets, the guard
 * in front of submitting, the payload it builds, and when it closes.
 */
module TransactionModal {
  import opened Wrappers
  import opened Text
  import opened Mutations

  /**
   * The dialog's local fields. The two account selects hold either the empty
   * option (None) or the text of an account id, which `parseInt` turns back
   * into that id; they are kept here as the id itself.
   */
  datatype TxForm = TxForm(
    description: string,
    date: string,
    amount: string,
    debitAccountId: Option<int>,
    creditAccountId: Option<int>)

  /** The reset form; `today` is the clock's UTC calendar date (the date part of `toISOString()`), a parameter here. */
  function BlankTxForm(today: string): (f: TxForm)
    ensures f.description == "" && f.amount == "" && f.date == today
    ensures f.debitAccountId.None? && f.creditAccountId.None?
  {
    TxForm("", today, "", None, None)
  }

  /**
   * The submit guard: a non-blank description, a non-empty amount text and a
   * chosen option in both selects. The amount is not trimmed, and the two
   * accounts may be the same one.
   */
  predicate Complete(f: TxForm) {
    Trim(f.description) != "" && f.amount != "" && f.debitAccountId.Some? && f.creditAccountId.Some?
  }

  /** The body the dialog sends: the description trimmed, every other field as entered. */
  function Payload(f: TxForm): (p: TransactionInput)
    requires f.debitAccountId.Some? && f.creditAccountId.Some?
    ensures p.description == Trim(f.description) && p.date == f.date && p.amount == f.amount
    ensures p.debitAccountId == f.debitAccountId.value && p.creditAccountId == f.creditAccountId.value
  {
    TransactionInput(Trim(f.description), f.date, f.amount, f.debitAccountId.value, f.creditAccountId.value)
  }

  /**
   * `handleSubmit`: an incomplete form dispatches nothing; a truthy edit id
   * updates that transaction with the payload; otherwise a transaction is
   * created from it.
   */
  function Submit(f: TxForm, editTransactionId: Option<int>): (d: Dispatch)
    ensures d.NoOp? <==> !Complete(f)
    ensures d.Mutate? && TruthyId(editTransactionId) ==>
      d.m.UpdateTransaction? && SplitUpdate(d.m.update) == (editTransactionId.value, Payload(f))
    ensures d.Mutate? && !TruthyId(editTransactionId) ==> d.m == CreateTransaction(Payload(f))
  {
    if !Complete(f) then NoOp
    else if editTransactionId.Some? && TruthyId(editTransactionId) then
      Mutate(UpdateTransaction(WithId(editTransactionId.value, Payload(f))))
    else
      Mutate(CreateTransaction(Payload(f)))
  }

  /** The dialog never holds back a transfer between an account and itself: that is left to the server. */
  lemma SameAccountPassesGuard(f: TxForm, id: int)
    requires Trim(f.description) != "" && f.amount != ""
    requires f.debitAccountId == Some(id) && f.creditAccountId == Some(id)
    ensures Submit(f, None) == Mutate(CreateTransaction(Payload(f)))
    ensures Payload(f).debitAccountId == Payload(f).creditAccountId
  {
  }

  /** The submit button's `disabled`. */
  function SubmitDisabled(pending: bool, f: TxForm): bool {
    pending || Trim(f.description) == "" || f.amount == "" || f.debitAccountId.None? || f.creditAccountId.None?
  }

  /** While no mutation is pending, the button is enabled exactly when pressing it dispatches something. */
  lemma EnabledIffSubmits(f: TxForm, editTransactionId: Option<int>)
    ensures !SubmitDisabled(false, f) <==> Submit(f, editTransactionId).Mutate?
    ensures SubmitDisabled(true, f)
  {
  }

  /**
   * A transaction as the client receives it; `amountText` stands for
   * `amount.toString()`, whose number formatting is not modelled.
   */
  datatype TransactionView = TransactionView(
    id: int,
    description: string,
    date: string,
    amountText: string,
    debitAccountId: int,
    creditAccountId: int)

  /** `find(t => t.id === id)`: the first transaction with that id, if any. */
  function FindTransaction(txs: seq<TransactionView>, id: int): (r: Option<TransactionView>)
    ensures r.None? <==> forall t :: t in txs ==> t.id != id
    ensures r.Some? ==> r.value.id == id && r.value in txs
    ensures r.Some? ==> (exists i :: 0 <= i < |txs| && txs[i] == r.value && (forall j :: 0 <= j < i ==> txs[j].id != id))
  {
    if |txs| == 0 then None
    else if txs[0].id == id then Some(txs[0])
    else
      var r := FindTransaction(txs[1..], id);
      assert txs == [txs[0]] + txs[1..];
      if r.Some? then
        var i :| 0 <= i < |txs[1..]| && txs[1..][i] == r.value && r.value.id == id
          && forall j :: 0 <= j < i ==> txs[1..][j].id != id;
        assert txs[i + 1] == r.value;
        assert forall j :: 1 <= j < i + 1 ==> txs[j] == txs[1..][j - 1];
        r
      else r
  }

  /**
   * The pre-fill effect: when editing with a truthy id and the unfiltered
   * listing loaded, the form copies the matching transaction, or stays as it
   * is when none matches; in every other case it is reset.
   */
  function Prefill(editTransactionId: Option<int>, transactions: Option<seq<TransactionView>>, current: TxForm, today: string): (f: TxForm)
    ensures !(editTransactionId.Some? && transactions.Some? && TruthyId(editTransactionId)) ==> f == BlankTxForm(today)
    ensures editTransactionId.Some? && transactions.Some? && TruthyId(editTransactionId) ==>
      var found := FindTransaction(transactions.value, editTransactionId.value);
      && (found.None? ==> f == current)
      && (found.Some? ==> f == TxForm(found.value.description, found.value.date, found.value.amountText,
                                      Some(found.value.debitAccountId), Some(found.value.creditAccountId)))
  {
    if editTransactionId.Some? && transactions.Some? && TruthyId(editTransactionId) then
      match FindTransaction(transactions.value, editTransactionId.value)
      case Some(t) => TxForm(t.description, t.date, t.amountText, Some(t.debitAccountId), Some(t.creditAccountId))
      case None => current
    else BlankTxForm(today)
  }

  /**
   * Opening the dialog on a listed transaction and submitting at once sends
   * the same five fields back under the same id, provided the description has
   * no whitespace at either end and the amount text is not empty.
   */
  lemma {:induction false} UntouchedEditResendsTransaction(
    editId: int, txs: seq<TransactionView>, current: TxForm, today: string, t: TransactionView)
    requires editId != 0 && t in txs && t.id == editId
    requires forall u :: u in txs && u.id == editId ==> u == t
    requires t.description != [] && !IsWhitespace(t.description[0]) && !IsWhitespace(t.description[|t.description| - 1])
    requires t.amountText != ""
    ensures Submit(Prefill(Some(editId), Some(txs), current, today), Some(editId)) ==
      Mutate(UpdateTransaction(TransactionUpdate(editId, t.description, t.date, t.amountText, t.debitAccountId, t.creditAccountId)))
  {
    TrimOfTrimmed(t.description);
    var f := Prefill(Some(editId), Some(txs), current, today);
    assert f == TxForm(t.description, t.date, t.amountText, Some(t.debitAccountId), Some(t.creditAccountId));
  }

  /** `handleClose`: the form goes back to the reset state, dated today. */
  function HandleClose(f: TxForm, today: string): (r: TxForm)
    ensures r.description == "" && r.amount == "" && r.date == today
    ensures r.debitAccountId.None? && r.creditAccountId.None?
  {
    BlankTxForm(today)
  }

  /** Whether the dialog is shown, and its local fields. */
  datatype TxDialog = TxDialog(open: bool, form: TxForm)

  /**
   * The `onSuccess` callbacks of both submits call `handleClose`: a confirmed
   * write closes the dialog and resets the form; a failed one leaves the
   * dialog open with the form as entered.
   */
  function OnSettled(d: TxDialog, o: Outcome, today: string): (r: TxDialog)
    ensures ClosesOn(o) ==> !r.open && r.form == BlankTxForm(today)
    ensures !ClosesOn(o) ==> r == d
  {
    if ClosesOn(o) then TxDialog(false, HandleClose(d.form, today)) else d
  }

  /** After a confirmed write the form is incomplete, so an immediate second submit dispatches nothing. */
  lemma ResubmitAfterSuccessIsNoOp(d: TxDialog, today: string, editTransactionId: Option<int>)
    ensures Submit(OnSettled(d, Succeeded, today).form, editTransactionId) == NoOp
  {
  }
}
