/**
 * The transaction endpoints: the filtered listing newest first, create,
 * update and soft delete, with their ordered validation pipeline.
 */
module TransactionsApi {
  import opened Wrappers
  import opened Ledger
  import opened ApiUtils

  /** True when `account_id` selects this transaction: no id, or 0, selects every one. */
  predicate InFilter(accountId: Option<int>, t: Transaction) {
    accountId.None? || accountId.value == 0
    || t.debitAccountId == accountId.value || t.creditAccountId == accountId.value
  }

  /** The active transactions the filter selects, in table order. */
  function Selected(txs: seq<Transaction>, accountId: Option<int>): (r: seq<Transaction>)
    ensures forall t :: t in r <==> t in txs && t.isActive && InFilter(accountId, t)
    ensures multiset(r) <= multiset(txs)
    ensures |r| <= |txs|
  {
    if |txs| == 0 then []
    else
      var last := txs[|txs| - 1];
      assert txs == txs[..|txs| - 1] + [last];
      assert forall t :: t in txs[..|txs| - 1] ==> t in txs;
      Selected(txs[..|txs| - 1], accountId) + (if last.isActive && InFilter(accountId, last) then [last] else [])
  }

  /** Newest first: no transaction is dated after one listed before it. */
  predicate NewestFirst(s: seq<Transaction>) {
    forall i, j :: 0 <= i < j < |s| ==> DateLe(s[j].date, s[i].date)
  }

  /** Inserts `t` into a newest-first list after every entry dated on or after it. */
  function Insert(t: Transaction, s: seq<Transaction>): (r: seq<Transaction>)
    requires NewestFirst(s)
    ensures NewestFirst(r)
    ensures forall u :: u in r ==> u == t || u in s
    ensures multiset(r) == multiset(s) + multiset{t}
  {
    if |s| == 0 then [t]
    else if !DateLe(t.date, s[0].date) then
      var r := [t] + s;
      assert NewestFirst(r) by {
        forall i, j | 0 <= i < j < |r|
          ensures DateLe(r[j].date, r[i].date)
        {
          if i == 0 {
            assert DateLe(s[j - 1].date, s[0].date);
          } else {
            assert r[i] == s[i - 1] && r[j] == s[j - 1];
          }
        }
      }
      r
    else
      var rest := Insert(t, s[1..]);
      var r := [s[0]] + rest;
      assert s == [s[0]] + s[1..];
      assert NewestFirst(r) by {
        forall i, j | 0 <= i < j < |r|
          ensures DateLe(r[j].date, r[i].date)
        {
          assert r[j] == rest[j - 1];
          if i == 0 {
            assert rest[j - 1] in rest;
          } else {
            assert r[i] == rest[i - 1];
          }
        }
      }
      r
  }

  /** `order_by(date.desc())`: the same transactions, newest first (ties keep table order). */
  function SortNewestFirst(s: seq<Transaction>): (r: seq<Transaction>)
    ensures NewestFirst(r)
    ensures multiset(r) == multiset(s)
  {
    if |s| == 0 then []
    else
      assert s == s[..|s| - 1] + [s[|s| - 1]];
      Insert(s[|s| - 1], SortNewestFirst(s[..|s| - 1]))
  }

  /**
   * `GET /transactions?account_id=…`: every active transaction the filter
   * selects, each once, newest first; nothing changes.
   */
  function GetTransactions(tb: Tables, accountId: Option<int>): (r: ApiResult<seq<Transaction>>)
    ensures r.Done? && r.tables == tb && r.status == 200 && r.message.None? && r.data.Some?
    ensures forall t :: t in r.data.value <==> t in tb.transactions && t.isActive && InFilter(accountId, t)
    ensures multiset(r.data.value) == multiset(Selected(tb.transactions, accountId))
    ensures NewestFirst(r.data.value)
  {
    var listed := SortNewestFirst(Selected(tb.transactions, accountId));
    assert forall t :: t in listed <==> t in multiset(listed);
    Done(tb, Some(listed), None, 200)
  }

  /** The amount and date parsers: `Decimal(str(amount))` and `datetime.fromisoformat(…).date()`, as partial functions. */
  datatype Parsers = Parsers(decimal: string -> Option<Decimal>, isoDate: string -> Option<Date>)

  /** The body fields as the handlers read them; `amount` is the text `str()` gives for the JSON value. */
  datatype TransactionFields = TransactionFields(
    description: string,
    date: string,
    amount: string,
    debitAccountId: int,
    creditAccountId: int)

  const TransactionRequired: seq<string> := ["description", "date", "amount", "debitAccountId", "creditAccountId"]

  /** `s.replace('Z', '+00:00')`. */
  function ReplaceZ(s: string): (r: string)
    ensures 'Z' !in r
    ensures 'Z' !in s ==> r == s
  {
    if |s| == 0 then ""
    else (if s[0] == 'Z' then "+00:00" else [s[0]]) + ReplaceZ(s[1..])
  }

  /** One character: a 'Z' becomes "+00:00", any other character stays. */
  lemma ReplaceZChar(c: char)
    ensures ReplaceZ([c]) == if c == 'Z' then "+00:00" else [c]
  {
    assert [c][1..] == [];
  }

  /** The replacement works character by character: it distributes over concatenation. */
  lemma {:induction false} ReplaceZAppend(a: string, b: string)
    ensures ReplaceZ(a + b) == ReplaceZ(a) + ReplaceZ(b)
  {
    if |a| == 0 {
      assert a + b == b;
    } else {
      assert (a + b)[0] == a[0];
      assert (a + b)[1..] == a[1..] + b;
      ReplaceZAppend(a[1..], b);
    }
  }

  /** A UTC timestamp's trailing 'Z' becomes the "+00:00" offset that `fromisoformat` accepts. */
  lemma UtcSuffixBecomesOffset(stamp: string)
    requires 'Z' !in stamp
    ensures ReplaceZ(stamp + "Z") == stamp + "+00:00"
  {
    ReplaceZAppend(stamp, "Z");
    ReplaceZChar('Z');
  }

  /** The validated values of a transaction body. */
  datatype Checked = Checked(amount: Decimal, date: Date)

  /**
   * The checks create and update share, in order: the amount must parse, then
   * the date must parse, then debit and credit must differ. The amount's sign
   * is not checked, nor whether the two accounts exist.
   */
  function CheckTransaction(f: TransactionFields, p: Parsers): (r: Result<Checked, ApiError>)
    ensures p.decimal(f.amount).None? <==> r == Err(ApiError(InvalidAmount, "Amount must be a valid number", 400))
    ensures p.decimal(f.amount).Some? && p.isoDate(ReplaceZ(f.date)).None? <==>
      r == Err(ApiError(InvalidDate, "Invalid date format", 400))
    ensures p.decimal(f.amount).Some? && p.isoDate(ReplaceZ(f.date)).Some? && f.debitAccountId == f.creditAccountId <==>
      r == Err(ApiError(SameAccounts, "Debit and credit accounts cannot be the same", 400))
    ensures r.Ok? <==>
      p.decimal(f.amount).Some? && p.isoDate(ReplaceZ(f.date)).Some? && f.debitAccountId != f.creditAccountId
    ensures r.Ok? ==> r.value == Checked(p.decimal(f.amount).value, p.isoDate(ReplaceZ(f.date)).value)
  {
    match p.decimal(f.amount)
    case None => Err(ApiError(InvalidAmount, "Amount must be a valid number", 400))
    case Some(amount) =>
      match p.isoDate(ReplaceZ(f.date))
      case None => Err(ApiError(InvalidDate, "Invalid date format", 400))
      case Some(date) =>
        if f.debitAccountId == f.creditAccountId then
          Err(ApiError(SameAccounts, "Debit and credit accounts cannot be the same", 400))
        else
          Ok(Checked(amount, date))
  }

  /** `POST /transactions`: validation, then the checks, then a new active transaction with the next id. */
  function CreateTransaction(tb: Tables, req: Request<TransactionFields>, p: Parsers, commit: Commit): (r: ApiResult<Transaction>)
    ensures ValidateRequestJson(req, TransactionRequired).Some? ==>
      r == Fail(ValidateRequestJson(req, TransactionRequired).value)
    ensures ValidateRequestJson(req, TransactionRequired).None? && CheckTransaction(req.fields, p).Err? ==>
      r == Fail(CheckTransaction(req.fields, p).error)
    ensures r.Done? <==>
      ValidateRequestJson(req, TransactionRequired).None? && CheckTransaction(req.fields, p).Ok? && commit.Committed?
    ensures r.Done? ==>
      var c := CheckTransaction(req.fields, p).value;
      var f := req.fields;
      && r.status == 201
      && r.message == Some("Transaction created successfully")
      && r.data == Some(Transaction(|tb.transactions| + 1, f.description, c.date, c.amount,
                                    f.debitAccountId, f.creditAccountId, true))
      && r.tables == tb.(transactions := tb.transactions + [r.data.value])
    ensures
      (&& ValidateRequestJson(req, TransactionRequired).None?
       && CheckTransaction(req.fields, p).Ok? && commit.CommitFailed?) ==>
      r == Fail(ApiError(DatabaseError, "Error creating transaction: " + commit.reason, 500))
    ensures r.Fail? ==> r.err.status in ErrorStatuses
    ensures Valid(tb) ==> Valid(After(tb, r))
  {
    Guarded(req, TransactionRequired,
      match CheckTransaction(req.fields, p)
      case Err(e) => Fail(e)
      case Ok(c) =>
        match commit
        case CommitFailed(reason) => Fail(ApiError(DatabaseError, "Error creating transaction: " + reason, 500))
        case Committed =>
          var f := req.fields;
          var created := Transaction(|tb.transactions| + 1, f.description, c.date, c.amount,
                                     f.debitAccountId, f.creditAccountId, true);
          Done(tb.(transactions := tb.transactions + [created]), Some(created),
               Some("Transaction created successfully"), 201))
  }

  /** The transaction with the five body fields written over it; id and active flag are kept. */
  function Overwrite(t: Transaction, f: TransactionFields, c: Checked): Transaction {
    t.(description := f.description, date := c.date, amount := c.amount,
       debitAccountId := f.debitAccountId, creditAccountId := f.creditAccountId)
  }

  /**
   * `PATCH /transactions/<id>`: validation, then NOT_FOUND for a missing or
   * inactive transaction, then the checks, then the five fields are overwritten.
   */
  function UpdateTransaction(tb: Tables, id: nat, req: Request<TransactionFields>, p: Parsers, commit: Commit): (r: ApiResult<Transaction>)
    ensures ValidateRequestJson(req, TransactionRequired).Some? ==>
      r == Fail(ValidateRequestJson(req, TransactionRequired).value)
    ensures ValidateRequestJson(req, TransactionRequired).None? ==>
      ((r.Fail? && r.err.code == NotFound) <==> !(HasTransaction(tb, id) && tb.transactions[id - 1].isActive))
    ensures r.Fail? && r.err.code == NotFound ==> r.err.status == 404
    ensures ValidateRequestJson(req, TransactionRequired).None? && !HasTransaction(tb, id) ==>
      r == Fail(ApiError(NotFound, "Resource not found", 404))
    ensures ValidateRequestJson(req, TransactionRequired).None? && HasTransaction(tb, id) && !tb.transactions[id - 1].isActive ==>
      r == Fail(ApiError(NotFound, "Transaction not found", 404))
    ensures r.Done? ==> r.message == Some("Transaction updated successfully")
    ensures
      (&& ValidateRequestJson(req, TransactionRequired).None?
       && HasTransaction(tb, id) && tb.transactions[id - 1].isActive
       && CheckTransaction(req.fields, p).Err?) ==>
      r == Fail(CheckTransaction(req.fields, p).error)
    ensures r.Done? <==>
      && ValidateRequestJson(req, TransactionRequired).None?
      && HasTransaction(tb, id) && tb.transactions[id - 1].isActive
      && CheckTransaction(req.fields, p).Ok? && commit.Committed?
    ensures
      (&& ValidateRequestJson(req, TransactionRequired).None?
       && HasTransaction(tb, id) && tb.transactions[id - 1].isActive
       && CheckTransaction(req.fields, p).Ok? && commit.CommitFailed?) ==>
      r == Fail(ApiError(DatabaseError, "Error updating transaction: " + commit.reason, 500))
    ensures r.Fail? ==> r.err.status in ErrorStatuses
    ensures r.Done? ==>
      var updated := Overwrite(tb.transactions[id - 1], req.fields, CheckTransaction(req.fields, p).value);
      && r.status == 200
      && r.data == Some(updated)
      && r.tables == tb.(transactions := tb.transactions[id - 1 := updated])
    ensures Valid(tb) ==> Valid(After(tb, r))
  {
    Guarded(req, TransactionRequired,
      if !HasTransaction(tb, id) then Fail(ApiError(NotFound, "Resource not found", 404))
      else
        var t := tb.transactions[id - 1];
        if !t.isActive then Fail(ApiError(NotFound, "Transaction not found", 404))
        else
          match CheckTransaction(req.fields, p)
          case Err(e) => Fail(e)
          case Ok(c) =>
            match commit
            case CommitFailed(reason) => Fail(ApiError(DatabaseError, "Error updating transaction: " + reason, 500))
            case Committed =>
              var updated := Overwrite(t, req.fields, c);
              Done(tb.(transactions := tb.transactions[id - 1 := updated]), Some(updated),
                   Some("Transaction updated successfully"), 200))
  }

  /** The delete payload: the two accounts' ids (their recomputed balances are not modelled). */
  datatype Deleted = Deleted(debitAccountId: int, creditAccountId: int)

  /** `DELETE /transactions/<id>`: NOT_FOUND for a missing or inactive transaction; otherwise only its active flag is cleared. */
  function DeleteTransaction(tb: Tables, id: nat, commit: Commit): (r: ApiResult<Deleted>)
    ensures (r.Fail? && r.err.code == NotFound) <==> !(HasTransaction(tb, id) && tb.transactions[id - 1].isActive)
    ensures r.Fail? ==> r.err.code in {NotFound, DatabaseError}
    ensures r.Done? <==> HasTransaction(tb, id) && tb.transactions[id - 1].isActive && commit.Committed?
    ensures HasTransaction(tb, id) && tb.transactions[id - 1].isActive && commit.CommitFailed? ==>
      r == Fail(ApiError(DatabaseError, "Error deleting transaction: " + commit.reason, 500))
    ensures r.Fail? ==> r.err.status in ErrorStatuses
    ensures !HasTransaction(tb, id) ==> r == Fail(ApiError(NotFound, "Resource not found", 404))
    ensures HasTransaction(tb, id) && !tb.transactions[id - 1].isActive ==>
      r == Fail(ApiError(NotFound, "Transaction not found", 404))
    ensures r.Done? ==> r.message == Some("Transaction deleted successfully")
    ensures r.Done? ==>
      && r.status == 200
      && r.data == Some(Deleted(tb.transactions[id - 1].debitAccountId, tb.transactions[id - 1].creditAccountId))
      && r.tables.accounts == tb.accounts
      && r.tables.transactions == tb.transactions[id - 1 := tb.transactions[id - 1].(isActive := false)]
    ensures Valid(tb) ==> Valid(After(tb, r))
  {
    if !HasTransaction(tb, id) then Fail(ApiError(NotFound, "Resource not found", 404))
    else
      var t := tb.transactions[id - 1];
      if !t.isActive then Fail(ApiError(NotFound, "Transaction not found", 404))
      else
        match commit
        case CommitFailed(reason) => Fail(ApiError(DatabaseError, "Error deleting transaction: " + reason, 500))
        case Committed =>
          Done(tb.(transactions := tb.transactions[id - 1 := t.(isActive := false)]),
               Some(Deleted(t.debitAccountId, t.creditAccountId)),
               Some("Transaction deleted successfully"), 200)
  }

  /** A selected transaction is listed as often as it occurs in the table; any other, never. */
  lemma {:induction false} SelectedCounts(txs: seq<Transaction>, accountId: Option<int>, t: Transaction)
    ensures multiset(Selected(txs, accountId))[t] == if t.isActive && InFilter(accountId, t) then multiset(txs)[t] else 0
  {
    if |txs| > 0 {
      var last := txs[|txs| - 1];
      assert txs == txs[..|txs| - 1] + [last];
      SelectedCounts(txs[..|txs| - 1], accountId, t);
    }
  }

  /** Rows numbered from 1 in order are pairwise distinct: each occurs at most once, and none with a larger id. */
  lemma {:induction false} NumberedRowsOccurOnce(txs: seq<Transaction>, t: Transaction)
    requires forall i :: 0 <= i < |txs| ==> txs[i].id == i + 1
    ensures multiset(txs)[t] <= 1
    ensures t.id > |txs| ==> multiset(txs)[t] == 0
  {
    if |txs| > 0 {
      var init := txs[..|txs| - 1];
      assert txs == init + [txs[|txs| - 1]];
      NumberedRowsOccurOnce(init, t);
    }
  }

  /** A sequence holding each element at most once has no repeated position. */
  lemma {:induction false} CountedOnceNoRepeats(l: seq<Transaction>)
    requires forall t :: multiset(l)[t] <= 1
    ensures forall i, j :: 0 <= i < j < |l| ==> l[i] != l[j]
  {
    forall i, j | 0 <= i < j < |l|
      ensures l[i] != l[j]
    {
      assert l == l[..j] + l[j..];
      assert l[i] in l[..j];
      assert l[j] in l[j..];
      assert multiset(l)[l[j]] == multiset(l[..j])[l[j]] + multiset(l[j..])[l[j]];
    }
  }

  /** Over valid tables every listing holds each transaction at most once. */
  lemma {:induction false} ListedOnce(tb: Tables, accountId: Option<int>)
    requires Valid(tb)
    ensures var l := GetTransactions(tb, accountId).data.value;
      && (forall t :: multiset(l)[t] <= 1)
      && (forall i, j :: 0 <= i < j < |l| ==> l[i] != l[j])
  {
    var l := GetTransactions(tb, accountId).data.value;
    var sel := Selected(tb.transactions, accountId);
    assert multiset(l) == multiset(sel);
    assert multiset(sel) <= multiset(tb.transactions);
    forall t
      ensures multiset(l)[t] <= 1
    {
      NumberedRowsOccurOnce(tb.transactions, t);
    }
    CountedOnceNoRepeats(l);
  }

  /** A created transaction is listed unfiltered and under both of its accounts. */
  lemma CreatedTransactionListed(tb: Tables, req: Request<TransactionFields>, p: Parsers, commit: Commit)
    requires CreateTransaction(tb, req, p, commit).Done?
    ensures var r := CreateTransaction(tb, req, p, commit);
      var t := r.data.value;
      && t in GetTransactions(r.tables, None).data.value
      && t in GetTransactions(r.tables, Some(t.debitAccountId)).data.value
      && t in GetTransactions(r.tables, Some(t.creditAccountId)).data.value
  {
  }

  /** After a delete the transaction is listed under no filter, and deleting it again is NOT_FOUND. */
  lemma {:induction false} DeletedTransactionGone(tb: Tables, id: nat, commit: Commit, commit2: Commit, accountId: Option<int>)
    requires Valid(tb)
    requires DeleteTransaction(tb, id, commit).Done?
    ensures var after := DeleteTransaction(tb, id, commit).tables;
      && (forall t :: t in GetTransactions(after, accountId).data.value ==> t.id != id)
      && DeleteTransaction(after, id, commit2) == Fail(ApiError(NotFound, "Transaction not found", 404))
  {
    var after := DeleteTransaction(tb, id, commit).tables;
    forall t | t in GetTransactions(after, accountId).data.value
      ensures t.id != id
    {
      var k :| 0 <= k < |after.transactions| && after.transactions[k] == t;
      assert k != id - 1;
      assert t.id == k + 1;
    }
  }

  /** A negative amount is accepted: only whether the amount parses matters, never its sign. */
  lemma AmountSignNotChecked(f: TransactionFields, p: Parsers, d: Decimal)
    requires p.decimal(f.amount) == Some(d) && d.unscaled < 0
    requires p.isoDate(ReplaceZ(f.date)).Some? && f.debitAccountId != f.creditAccountId
    ensures CheckTransaction(f, p) == Ok(Checked(d, p.isoDate(ReplaceZ(f.date)).value))
  {
  }

  /** With no filter, `account_id=0` and an absent `account_id` list the same transactions. */
  lemma ZeroMeansUnfiltered(tb: Tables)
    ensures GetTransactions(tb, Some(0)) == GetTransactions(tb, None)
  {
    assert Selected(tb.transactions, Some(0)) == Selected(tb.transactions, None) by {
      SelectedZero(tb.transactions);
    }
  }

  lemma {:induction false} SelectedZero(txs: seq<Transaction>)
    ensures Selected(txs, Some(0)) == Selected(txs, None)
  {
    if |txs| > 0 {
      SelectedZero(txs[..|txs| - 1]);
    }
  }
}
