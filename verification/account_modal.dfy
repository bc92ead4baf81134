/**
 * The account dialog's logic: the form it pre-fills or resets, what submitting
 * dispatches, when the submit button is disabled, and when it closes.
 */
module AccountModal {
  import opened Wrappers
  import opened Text
  import opened Ledger
  import opened Mutations

  /** The dialog's local fields. */
  datatype Form = Form(name: string, kind: AccountType)

  /** The reset form: empty name, type ASSET. */
  const Blank: Form := Form("", Asset)

  /** `isEditing`: an edit id is set, whatever its value. */
  predicate IsEditing(editAccountId: Option<int>) {
    editAccountId.Some?
  }

  /**
   * `handleSubmit`: an all-whitespace name dispatches nothing; a truthy edit
   * id renames that account to the trimmed name, sending no type; otherwise
   * an account is created with the trimmed name and the selected type.
   */
  function Submit(f: Form, editAccountId: Option<int>): (d: Dispatch)
    ensures d.NoOp? <==> AllWhitespace(f.name)
    ensures d.Mutate? && TruthyId(editAccountId) ==> d.m == UpdateAccount(editAccountId.value, Trim(f.name))
    ensures d.Mutate? && !TruthyId(editAccountId) ==> d.m == CreateAccount(Trim(f.name), TypeName(f.kind))
    ensures d.Mutate? ==> Trim(f.name) != ""
  {
    TrimEmptyIff(f.name);
    if Trim(f.name) == "" then NoOp
    else if IsEditing(editAccountId) && TruthyId(editAccountId) then
      Mutate(UpdateAccount(editAccountId.value, Trim(f.name)))
    else
      Mutate(CreateAccount(Trim(f.name), TypeName(f.kind)))
  }

  /** The submit button's `disabled`. */
  function SubmitDisabled(pending: bool, f: Form): bool {
    pending || Trim(f.name) == ""
  }

  /** While no mutation is pending, the button is enabled exactly when pressing it dispatches something. */
  lemma {:induction false} EnabledIffSubmits(f: Form, editAccountId: Option<int>)
    ensures !SubmitDisabled(false, f) <==> Submit(f, editAccountId).Mutate?
    ensures SubmitDisabled(true, f)
  {
    TrimEmptyIff(f.name);
  }

  /** A create dispatched from the dialog names a type the server accepts. */
  lemma CreatedTypeAccepted(f: Form, editAccountId: Option<int>)
    requires Submit(f, editAccountId).Mutate? && Submit(f, editAccountId).m.CreateAccount?
    ensures ParseAccountType(Submit(f, editAccountId).m.kind) == Some(f.kind)
  {
    ParseTypeName(f.kind);
  }

  /** `Object.values(accountsByType).flat()`. */
  function Flatten(groups: seq<seq<Account>>): (r: seq<Account>)
    ensures forall a :: a in r <==> exists g :: g in groups && a in g
  {
    if |groups| == 0 then []
    else
      var init := groups[..|groups| - 1];
      var last := groups[|groups| - 1];
      assert forall g :: g in init ==> g in groups;
      assert forall g :: g in groups ==> g in init || g == last;
      Flatten(init) + last
  }

  /** `find(a => a.id === id)`: the first account with that id, if any. */
  function FindAccount(accounts: seq<Account>, id: int): (r: Option<Account>)
    ensures r.None? <==> forall a :: a in accounts ==> a.id != id
    ensures r.Some? ==> r.value.id == id && r.value in accounts
    ensures r.Some? ==> (exists i :: 0 <= i < |accounts| && accounts[i] == r.value && (forall j :: 0 <= j < i ==> accounts[j].id != id))
  {
    if |accounts| == 0 then None
    else if accounts[0].id == id then Some(accounts[0])
    else
      var r := FindAccount(accounts[1..], id);
      assert accounts == [accounts[0]] + accounts[1..];
      if r.Some? then
        var i :| 0 <= i < |accounts[1..]| && accounts[1..][i] == r.value && r.value.id == id
          && forall j :: 0 <= j < i ==> accounts[1..][j].id != id;
        assert accounts[i + 1] == r.value;
        assert forall j :: 1 <= j < i + 1 ==> accounts[j] == accounts[1..][j - 1];
        r
      else r
  }

  /**
   * The pre-fill effect: when editing with a truthy id and the listing loaded,
   * the form takes the matching account's name and type, or stays as it is
   * when no account matches; in every other case it is reset.
   */
  function Prefill(editAccountId: Option<int>, accountsByType: Option<seq<seq<Account>>>, current: Form): (f: Form)
    ensures !(IsEditing(editAccountId) && accountsByType.Some? && TruthyId(editAccountId)) ==> f == Blank
    ensures IsEditing(editAccountId) && accountsByType.Some? && TruthyId(editAccountId) ==>
      var found := FindAccount(Flatten(accountsByType.value), editAccountId.value);
      && (found.Some? ==> f == Form(found.value.name, found.value.kind))
      && (found.None? ==> f == current)
  {
    if IsEditing(editAccountId) && accountsByType.Some? && TruthyId(editAccountId) then
      match FindAccount(Flatten(accountsByType.value), editAccountId.value)
      case Some(a) => Form(a.name, a.kind)
      case None => current
    else Blank
  }

  /** An account listed in any group under the edit id is the one the form copies. */
  lemma PrefillCopiesListedAccount(editId: int, groups: seq<seq<Account>>, current: Form, g: seq<Account>, a: Account)
    requires editId != 0 && g in groups && a in g && a.id == editId
    requires forall b :: b in Flatten(groups) && b.id == editId ==> b == a
    ensures Prefill(Some(editId), Some(groups), current) == Form(a.name, a.kind)
  {
    assert a in Flatten(groups);
    var found := FindAccount(Flatten(groups), editId);
    assert found.Some?;
  }

  /**
   * Opening the dialog on a listed account and submitting at once sends that
   * account's own name back, provided the name has no whitespace at either end.
   */
  lemma {:induction false} UntouchedEditResendsName(editId: int, groups: seq<seq<Account>>, current: Form, g: seq<Account>, a: Account)
    requires editId != 0 && g in groups && a in g && a.id == editId
    requires forall b :: b in Flatten(groups) && b.id == editId ==> b == a
    requires a.name != [] && !IsWhitespace(a.name[0]) && !IsWhitespace(a.name[|a.name| - 1])
    ensures Submit(Prefill(Some(editId), Some(groups), current), Some(editId)) == Mutate(UpdateAccount(editId, a.name))
  {
    PrefillCopiesListedAccount(editId, groups, current, g, a);
    var f := Prefill(Some(editId), Some(groups), current);
    assert f == Form(a.name, a.kind);
    TrimOfTrimmed(a.name);
    assert Trim(f.name) == a.name;
    TrimEmptyIff(f.name);
  }

  /** `handleClose`: the form goes back to the reset state. */
  function HandleClose(f: Form): (r: Form)
    ensures r.name == "" && r.kind == Asset
  {
    Blank
  }

  /** Whether the dialog is shown, and its local fields. */
  datatype Dialog = Dialog(open: bool, form: Form)

  /**
   * The `onSuccess` callbacks of both submits: a confirmed write closes the
   * dialog without resetting the fields; a failed one leaves it open as it was.
   */
  function OnSettled(d: Dialog, o: Outcome): (r: Dialog)
    ensures ClosesOn(o) ==> !r.open
    ensures !ClosesOn(o) ==> r == d
    ensures r.form == d.form
  {
    if ClosesOn(o) then d.(open := false) else d
  }

  /**
   * A confirmed write closes the dialog as `handleClose` would, but keeps what
   * was typed: unless the form was already blank, the two leave different fields.
   */
  lemma SuccessKeepsWhatCloseClears(d: Dialog)
    ensures OnSettled(d, Succeeded) == Dialog(false, d.form)
    ensures d.form != Blank ==> OnSettled(d, Succeeded).form != HandleClose(d.form)
  {
  }

  /**
   * Without an edit id the pre-fill effect shows a blank form, whatever fields
   * a close or a confirmed write left behind: opening to create never shows a
   * previous edit target.
   */
  lemma NoEditIdShowsBlank(d: Dialog, o: Outcome, accountsByType: Option<seq<seq<Account>>>)
    ensures Prefill(None, accountsByType, OnSettled(d, o).form) == Blank
    ensures Prefill(None, accountsByType, HandleClose(d.form)) == Blank
  {
  }
}
