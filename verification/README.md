# penny ledger — a Dafny model of its accounts and transactions core

penny is a small double-entry bookkeeping app. It has a Flask JSON API and a
React client. This project models that core as pure Dafny functions and
proves properties about them.

**Server** (`app/api`):
- the response envelope and the request validator;
- the account endpoints: the listing grouped by type, create, rename and soft delete;
- the transaction endpoints: the filtered listing newest first, create, update and soft delete.

**Client** (`frontend/src`):
- the selection/filter store;
- the two queries and their keys;
- the six mutation hooks, with the cache prefixes each invalidates and the toast each shows;
- the two fetchers that unwrap the envelope;
- the logic of the account, transaction and delete-confirmation dialogs.

**How the state is modelled.** The database is two sequences, `Ledger.Tables`. Rows are never removed, because deletion only clears `isActive`. The model assumes the backend hands out ids from 1 without gaps, as SQLite does, so the row with id `k` sits at index `k - 1` (`Ledger.Valid`). The database URI comes from the environment (`app/__init__.py:19-21`), so the backend is not fixed by the code.

Every endpoint is a function from the tables and the request to an `ApiUtils.ApiResult`. That result is either:
- `Done`: new tables, an optional payload and message, and a status;
- `Fail`: an error code, a message and a status (400, 404 or 500). In the model a failure leaves the tables as they were; see "Left out" for the cases where the real server commits and still answers 500.

`ApiUtils.Render` turns a result into the JSON envelope.

**What the model takes as inputs.** These things cannot be seen from the code, so they are parameters:
- the database commit's outcome (`Commit`);
- the two parsers for the amount (`Decimal(str(...))`) and the date (`datetime.fromisoformat`), taken as partial functions (`Parsers`);
- today's date in the transaction dialog: the UTC calendar date, the date part of `toISOString()`.

The client cache is a map from query keys to entries. Invalidating a key prefix marks every entry under it stale.

## Model

| member | source | states |
|---|---|---|
| Text.Trim | frontend/src/components/modals/AccountModal.tsx:40 | the trimmed text is the input with exactly its leading and trailing whitespace removed: a slice of the input with only whitespace before and after it, which neither starts nor ends with whitespace |
| Text.TrimStrips | frontend/src/components/modals/AccountModal.tsx:40 | the trimmed text sits in the input right after the leading whitespace, with only whitespace after it |
| Text.TrimEmptyIff | frontend/src/components/modals/AccountModal.tsx:40 | `!name.trim()` holds exactly when the name is empty or all whitespace |
| Text.TrimOfTrimmed | frontend/src/components/modals/TransactionModal.tsx:55 | text with no whitespace at either end is sent unchanged |
| Text.TrimIdempotent | frontend/src/components/modals/AccountModal.tsx:44 | trimming an already trimmed name changes nothing |
| Text.LowerChar | app/api/accounts.py:44 | SQL `lower()`, taken to be SQLite's ASCII-only folding: each ASCII capital maps to the small letter 32 code points above it; every other character is unchanged |
| Text.UpperChar | app/api/accounts.py:39 | `.upper()` on the type text maps each ASCII small letter to the capital 32 code points below it and leaves the rest alone |
| Text.CaseRoundTrip | app/api/accounts.py:39-44 | lower-casing an upper-cased small letter gives it back, and upper-casing a lower-cased capital gives it back |
| Text.EqualsIgnoringCaseIff | app/api/accounts.py:84-87 | two names match in the case-insensitive duplicate query iff they have the same length and agree position by position after folding |
| Text.CaseVariantsMatch | app/api/accounts.py:43-46 | a name matches its all-capitals and its all-small spelling |
| Text.JoinSnoc | app/api/utils.py:47 | joining one more field appends the separator and that field; a single field is joined to itself |
| Ledger.AllTypesComplete | app/api/accounts.py:15 | the loop over the account types visits all five |
| Ledger.TypeKeyIsLowerName | app/api/accounts.py:23 | each group of the listing is keyed by the type's value, lower-cased |
| Ledger.TypeKeysExact | app/api/accounts.py:15-25 | the listing has exactly the five keys, one per type, all distinct |
| Ledger.ParseAccountType | app/api/accounts.py:38-41 | the type text is looked up by member name after upper-casing; an unknown name yields no type |
| Ledger.ParseTypeName | app/api/accounts.py:39 | each type's upper-case name and lower-case key both parse back to that type |
| ApiUtils.SuccessResponse | app/api/utils.py:7-17 | `success` is true; `data` is present iff given; `message` is present iff truthy; no `error` or `code`; the status is the one given |
| ApiUtils.ErrorResponse | app/api/utils.py:20-29 | `success` is false; `error` is always set; `code` is present iff truthy; no `data` or `message` |
| ApiUtils.Render | app/api/utils.py:7-29 | `success` is true exactly for a completed request, which carries its status, its data and its message when that is truthy; a failure carries its message, its code text and its status |
| ApiUtils.Missing | app/api/utils.py:43 | a field is reported missing iff it is required and absent from the body |
| ApiUtils.MissingAppend | app/api/utils.py:43 | the missing list keeps the required fields' order: it splits over concatenation of the required list |
| ApiUtils.ValidateRequestJson | app/api/utils.py:32-54 | a non-JSON request is INVALID_CONTENT_TYPE first; then validation passes iff every required field is present; otherwise MISSING_FIELDS, 400, naming all missing fields joined by ", " |
| ApiUtils.Guarded | app/api/utils.py:45-52 | a validation error replaces the handler's result; otherwise the handler's result stands |
| ApiUtils.GuardedPassesThrough | app/api/utils.py:52 | a JSON body with every required field reaches the handler unchanged |
| AccountsApi.ActiveOfType | app/api/accounts.py:16-21 | a group holds exactly the active accounts of that type, in increasing id order |
| AccountsApi.GetAccounts | app/api/accounts.py:10-27 | 200 with the five keys; an account is in a group iff it is active and of that type; nothing changes |
| AccountsApi.CreateAccount | app/api/accounts.py:30-63 | checks run in order: validation, then INVALID_ACCOUNT_TYPE iff the type is unknown, then DUPLICATE_ACCOUNT iff an active account has the name ignoring case. The request succeeds iff every check passes and the commit succeeds; it then appends an active account with the next id and returns 201. A commit failure after every check is DATABASE_ERROR, 500, "Error creating account: " followed by the reason. Every failure status is 400, 404 or 500, and table validity is preserved |
| AccountsApi.UpdateAccount | app/api/accounts.py:66-106 | NOT_FOUND with 404 iff the row is missing or inactive: "Resource not found" for a missing row, "Account not found" for an inactive one. DUPLICATE_ACCOUNT iff the new name differs from the current one and some active account matches it ignoring case, and then it is 400 "Account with the name '<new name>' already exists". It succeeds iff the body is valid, the account is active, and the name is unchanged or free and committed; "Account unchanged" is reported exactly for the same name, and "Account updated successfully" for a real rename. A commit failure is DATABASE_ERROR, 500, "Error updating account: " plus the reason. On success only the name changes |
| AccountsApi.DeleteAccount | app/api/accounts.py:109-126 | NOT_FOUND iff the row is missing or inactive, with 404 and "Resource not found" or "Account not found" respectively; success iff active and the commit succeeds; a commit failure is DATABASE_ERROR, 500, "Error deleting account: " plus the reason. Only that account's flag is cleared, with no data, the message "Account <name> successfully deleted" and no transaction touched |
| AccountsApi.InactiveNeverBlocks | app/api/accounts.py:43-46 | whatever an inactive account is called, it never makes a name a duplicate |
| AccountsApi.CaseOnlyRenameRejected | app/api/accounts.py:78-94 | renaming an active account to its own name in different letter case is DUPLICATE_ACCOUNT, because the account matches itself |
| AccountsApi.SameNameRenameUnchanged | app/api/accounts.py:78-82 | renaming to the exact current name is 200 "Account unchanged" with no change |
| AccountsApi.CreatedAccountListed | app/api/accounts.py:51-60 | a created account appears in its own type's group of the next listing and in no other group |
| AccountsApi.DeletedAccountGone | app/api/accounts.py:112-117 | after a delete the account is in no group of the listing, and deleting it again is NOT_FOUND "Account not found" |
| TransactionsApi.Selected | app/api/transactions.py:16-22 | a transaction is selected iff it is active and the filter is absent, 0, or names its debit or credit account; the selection is a sub-multiset of the table |
| TransactionsApi.SelectedCounts | app/api/transactions.py:16-22 | a selected transaction occurs in the selection exactly as often as in the table, any other not at all |
| TransactionsApi.Insert | app/api/transactions.py:25 | inserting into a newest-first list keeps it newest first and adds exactly one element |
| TransactionsApi.SortNewestFirst | app/api/transactions.py:25 | the result is a permutation of the input, ordered by date descending |
| TransactionsApi.GetTransactions | app/api/transactions.py:11-30 | 200 with a permutation of exactly the active transactions the filter selects, newest first; nothing changes |
| TransactionsApi.ListedOnce | app/api/transactions.py:16-25 | over valid tables a listing holds each transaction at most once, so no two positions repeat a row |
| TransactionsApi.ReplaceZ | app/api/transactions.py:45 | no 'Z' is left, and text without one is unchanged |
| TransactionsApi.ReplaceZChar | app/api/transactions.py:45 | a lone 'Z' becomes "+00:00" and any other character stays |
| TransactionsApi.ReplaceZAppend | app/api/transactions.py:45 | the replacement works piecewise: it distributes over concatenation |
| TransactionsApi.UtcSuffixBecomesOffset | app/api/transactions.py:45 | a timestamp ending in the UTC 'Z' suffix, with no other 'Z', gets the "+00:00" offset in its place |
| TransactionsApi.CheckTransaction | app/api/transactions.py:39-57 | INVALID_AMOUNT iff the amount does not parse. Otherwise INVALID_DATE iff the date does not parse. Otherwise SAME_ACCOUNTS iff debit equals credit. On success it returns the two parsed values |
| TransactionsApi.CreateTransaction | app/api/transactions.py:33-77 | validation, then the checks' error. The request succeeds iff both pass and the commit succeeds; it then appends an active transaction with the next id from the body and the parsed values, and returns 201. A commit failure is DATABASE_ERROR, 500, "Error creating transaction: " plus the reason |
| TransactionsApi.UpdateTransaction | app/api/transactions.py:80-125 | NOT_FOUND iff missing or inactive, before the checks: "Resource not found" for a missing row, "Transaction not found" for an inactive one, both 404; then the checks' error. On success, with "Transaction updated successfully", the five fields are overwritten in place, keeping the id and the active flag. A commit failure after the checks is DATABASE_ERROR, 500, "Error updating transaction: " plus the reason |
| TransactionsApi.DeleteTransaction | app/api/transactions.py:128-155 | NOT_FOUND iff missing or inactive, with 404 and "Resource not found" or "Transaction not found" respectively. Otherwise only the flag is cleared and the two account ids are returned with "Transaction deleted successfully"; a commit failure is DATABASE_ERROR, 500, "Error deleting transaction: " plus the reason |
| TransactionsApi.CreatedTransactionListed | app/api/transactions.py:59-74 | a created transaction is listed unfiltered and under its debit and its credit account |
| TransactionsApi.DeletedTransactionGone | app/api/transactions.py:131-136 | after a delete the transaction is listed under no filter, and deleting it again is NOT_FOUND |
| TransactionsApi.AmountSignNotChecked | app/api/transactions.py:39-42 | a negative amount passes the checks: only parsing is checked |
| TransactionsApi.ZeroMeansUnfiltered | app/api/transactions.py:18 | `account_id=0` lists the same as no `account_id` |
| UiStore.Initial | frontend/src/store/ui.ts:18-19 | both ids start null |
| UiStore.SetSelectedAccount | frontend/src/store/ui.ts:22 | the selection becomes the id; the filter is kept |
| UiStore.SetFilterAccount | frontend/src/store/ui.ts:23 | the filter becomes the id; the selection is kept |
| UiStore.ClearFilters | frontend/src/store/ui.ts:24 | the filter becomes null; the selection is kept |
| UiStore.ClearFiltersIdempotent | frontend/src/store/ui.ts:24 | clearing twice is clearing once |
| UiStore.SetFilterNullIsClear | frontend/src/store/ui.ts:23-24 | setting the filter to null is exactly clearing the filters |
| UiStore.SelectAndFilterCommute | frontend/src/store/ui.ts:22-23 | selecting and filtering by the same id, in either order, leave the same state |
| QueryCache.TransactionsKey | frontend/src/hooks/useTransactions.ts:10 | the key is two parts under the `transactions` prefix, with a null part iff there is no filter |
| QueryCache.TransactionsKeyInjective | frontend/src/hooks/useTransactions.ts:10 | different filters never share a cache entry |
| QueryCache.FamiliesDisjoint | frontend/src/hooks/useAccounts.ts:10 | the accounts prefix matches no transactions key, and the transactions prefix does not match the accounts key |
| QueryCache.AccountsQuery | frontend/src/hooks/useAccounts.ts:9-15 | key `['accounts']`, the unfiltered fetch, 5-minute stale time, refetch on focus, 2 retries |
| QueryCache.TransactionsQuery | frontend/src/hooks/useTransactions.ts:9-15 | the key is exactly `TransactionsKey` of the filter, the fetch uses that filter, and the policy is the standard one |
| QueryCache.Invalidate | frontend/src/hooks/useAccountMutations.ts:16 | exactly the entries whose key starts with the prefix become stale; keys and values are kept |
| QueryCache.InvalidateAll | frontend/src/hooks/useAccountMutations.ts:39-40 | after several invalidations, an entry is stale iff it was already or some prefix matches it; values are kept |
| QueryCache.InvalidateNothing | frontend/src/hooks/useAccountMutations.ts:19-21 | invalidating no prefix leaves the cache as it was |
| QueryCache.Refetched | frontend/src/hooks/useAccounts.ts:11 | a successful fetch stores a fresh value under its key and touches no other key |
| QueryCache.RefetchFreshensOnlyItsKey | frontend/src/hooks/useTransactionMutations.ts:24 | after an invalidation, re-fetching one view freshens that view only; every other cached view under the prefix still shows its old value, stale |
| QueryCache.InvalidatedKeepsValue | frontend/src/hooks/useAccountMutations.ts:16 | between invalidation and re-fetch, an entry keeps showing its old value, marked stale |
| Mutations.SplitUpdateRoundTrip | frontend/src/hooks/useTransactionMutations.ts:34-35 | splitting `{ id, ...transaction }` and putting it back together are inverse |
| Mutations.CallFor | frontend/src/hooks/useTransactionMutations.ts:20-47 | each hook forwards its argument to its client call unchanged, except that update passes the id apart from the body |
| Mutations.Invalidations | frontend/src/hooks/useAccountMutations.ts:15-45 | a failure invalidates nothing. Account create and rename invalidate `accounts`. Account delete invalidates `accounts` then `transactions`. Every transaction write invalidates `transactions` then `accounts` |
| Mutations.FailedWriteLeavesCache | frontend/src/hooks/useAccountMutations.ts:19-21 | a failed write leaves every cache entry as it was |
| Mutations.DeleteAccountStalesEveryTransactionsView | frontend/src/hooks/useAccountMutations.ts:38-42 | a confirmed account delete stales the accounts entry and every transactions entry, filtered or not |
| Mutations.TransactionWriteStalesBothFamilies | frontend/src/hooks/useTransactionMutations.ts:23-27 | a confirmed transaction write stales every transactions entry and the accounts entry |
| Mutations.AccountWriteSparesTransactions | frontend/src/hooks/useAccountMutations.ts:15-29 | creating or renaming an account leaves every transactions entry exactly as it was |
| Mutations.TransactionWritesAlike | frontend/src/hooks/useTransactionMutations.ts:23-55 | the three transaction writes invalidate the same prefixes |
| Mutations.Notify | frontend/src/hooks/useTransactionMutations.ts:26-30 | success shows the hook's success text; failure shows the error's message, or exactly the hook's default text when that is empty; the text is never empty |
| ApiClient.Unwrap | frontend/src/api/client.ts:17-20 | data is returned iff `success` and data are both present; otherwise the error's message if truthy, else the fallback |
| ApiClient.UnwrapSuccess | frontend/src/api/client.ts:32-35 | whatever the server puts in a success envelope with data comes back out |
| ApiClient.UnwrapSuccessWithoutData | frontend/src/api/client.ts:17 | a success envelope without data is a client error carrying the fallback message |
| ApiClient.UnwrapError | frontend/src/api/client.ts:18 | an error envelope inside a 2xx reply yields its message, or the fallback when the message is empty |
| ApiClient.AccountsRequest | frontend/src/api/client.ts:16 | accounts are fetched from `/accounts` without a filter |
| ApiClient.TransactionsRequest | frontend/src/api/client.ts:30-31 | `account_id` is sent iff the id is truthy, and then unchanged |
| ApiClient.RequestKeepsFilter | frontend/src/api/client.ts:30 | dropping a 0 id changes nothing on the server: the listing is the one the client's filter names |
| ApiClient.Fetch | frontend/src/api/client.ts:4-9 | a reply whose status is not 2xx is rejected by the transport on its status, before the envelope is read; a 2xx reply is unwrapped |
| ApiClient.FailureRejectedByTransport | frontend/src/api/client.ts:31 | every handler failure (400, 404 or 500) is rejected on its status, so what the caller sees does not depend on the server's message |
| ApiClient.ListingReachesClient | frontend/src/api/client.ts:31-35 | the transaction listing the server renders reaches the caller as exactly that listing |
| ApiClient.AccountsListingReachesClient | frontend/src/api/client.ts:16-20 | the grouped account listing the server renders reaches the caller as exactly that grouping |
| AccountModal.Submit | frontend/src/components/modals/AccountModal.tsx:37-53 | nothing is dispatched iff the name is all whitespace. A truthy edit id renames to the trimmed name; otherwise an account is created with the trimmed name and the chosen type |
| AccountModal.EnabledIffSubmits | frontend/src/components/modals/AccountModal.tsx:117 | with nothing pending, the button is enabled exactly when submitting dispatches; while pending it is disabled |
| AccountModal.CreatedTypeAccepted | frontend/src/components/modals/AccountModal.tsx:48-51 | the type the dialog sends is one the server's type lookup accepts, and it means the chosen type |
| AccountModal.Flatten | frontend/src/components/modals/AccountModal.tsx:25 | an account is in the flattened list iff it is in some group |
| AccountModal.FindAccount | frontend/src/components/modals/AccountModal.tsx:26 | the first account with the id: every earlier account has another id; none iff no account has it |
| AccountModal.Prefill | frontend/src/components/modals/AccountModal.tsx:23-35 | editing with a truthy id and loaded data copies the matching account's name and type, or keeps the form if none matches; anything else resets the form |
| AccountModal.PrefillCopiesListedAccount | frontend/src/components/modals/AccountModal.tsx:24-30 | an account listed in any group under the edit id is the one copied |
| AccountModal.UntouchedEditResendsName | frontend/src/components/modals/AccountModal.tsx:42-46 | opening on an account and submitting at once sends its own name back under its id |
| AccountModal.HandleClose | frontend/src/components/modals/AccountModal.tsx:55-59 | closing resets the name to empty and the type to ASSET |
| AccountModal.OnSettled | frontend/src/components/modals/AccountModal.tsx:43-51 | a confirmed write closes the dialog and leaves the fields as they were; a failed one leaves the dialog open and unchanged |
| AccountModal.SuccessKeepsWhatCloseClears | frontend/src/components/modals/AccountModal.tsx:43-59 | a confirmed write closes the dialog but keeps the typed fields, which `handleClose` would have cleared |
| AccountModal.NoEditIdShowsBlank | frontend/src/components/modals/AccountModal.tsx:31-34 | without an edit id the pre-fill effect blanks the form, whatever a close or a settled write left in it |
| TransactionModal.BlankTxForm | frontend/src/components/modals/TransactionModal.tsx:17-21 | the reset form is empty and dated today |
| TransactionModal.Payload | frontend/src/components/modals/TransactionModal.tsx:54-60 | the body has the trimmed description and every other field as entered |
| TransactionModal.Submit | frontend/src/components/modals/TransactionModal.tsx:49-72 | nothing is dispatched iff the form is incomplete. A truthy edit id updates that transaction with the payload; otherwise a transaction is created from it |
| TransactionModal.SameAccountPassesGuard | frontend/src/components/modals/TransactionModal.tsx:52 | the dialog sends a transfer between an account and itself; only the server rejects it |
| TransactionModal.EnabledIffSubmits | frontend/src/components/modals/TransactionModal.tsx:189 | with nothing pending, the button is enabled exactly when submitting dispatches; while pending it is disabled |
| TransactionModal.FindTransaction | frontend/src/components/modals/TransactionModal.tsx:32 | the first transaction with the id: every earlier transaction has another id; none iff no transaction has it |
| TransactionModal.Prefill | frontend/src/components/modals/TransactionModal.tsx:30-47 | editing with a truthy id and loaded data copies the matching transaction, or keeps the form if none matches; anything else resets to a blank form dated today |
| TransactionModal.UntouchedEditResendsTransaction | frontend/src/components/modals/TransactionModal.tsx:33-66 | opening on a transaction and submitting at once sends its five fields back under its id |
| TransactionModal.HandleClose | frontend/src/components/modals/TransactionModal.tsx:74-81 | closing resets every field, with the date set to today |
| TransactionModal.OnSettled | frontend/src/components/modals/TransactionModal.tsx:63-70 | a confirmed write closes the dialog and resets the form to blank, dated today; a failed one leaves the dialog open and unchanged |
| TransactionModal.ResubmitAfterSuccessIsNoOp | frontend/src/components/modals/TransactionModal.tsx:65 | after a confirmed write, submitting again at once dispatches nothing |
| DeleteConfirmModal.HandleDelete | frontend/src/components/modals/DeleteConfirmModal.tsx:27-39 | a delete is dispatched iff the dialog is open with a target. An `'account'` target deletes that account; any other kind deletes the transaction with that id |
| DeleteConfirmModal.OpenAfter | frontend/src/components/modals/DeleteConfirmModal.tsx:31-37 | the dialog closes on a confirmed delete and stays open on failure |
| DeleteConfirmModal.ConfirmedAccountDeleteStalesListings | frontend/src/components/modals/DeleteConfirmModal.tsx:30-33 | confirming an account delete dispatches it; once confirmed, every accounts and transactions entry is stale and the dialog closes |
| DeleteConfirmModal.OtherKindDeletesTransaction | frontend/src/components/modals/DeleteConfirmModal.tsx:34-38 | any kind other than `'account'`, even a misspelt one, deletes a transaction |

## Behaviour as the code has it

**Same debit and credit.** Debit and credit accounts are compared only on the server (SAME_ACCOUNTS). The transaction dialog sends such a transaction (`TransactionModal.SameAccountPassesGuard`).

**Case-only renames.** A rename that changes only letter case is rejected as a duplicate of the account itself (`AccountsApi.CaseOnlyRenameRejected`).

**Filtered listings are invalidated too.** The transaction and account-delete hooks invalidate the bare `['transactions']` prefix, and that marks the filtered listings stale as well.

**The dialogs' open flags.** The dialogs read open flags and edit targets that the store does not declare. Each dialog's logic is therefore modelled with those as parameters, and no rule keeps two dialogs from being open at once.

**Amounts.** The server does not check the amount's sign, nor whether the two account ids exist. The dialog's number input carries `min="0"`, which the browser enforces before submit; that is not modelled (see "Left out").

## Left out

- Account balances, normal balance, `createdAt` and every other part of `to_dict()` beyond id, name, type and active flag: `app/models.py` is not part of this model.
- The balances in the transaction-delete payload: they need the balance computation, which is not part of this model. Only the two account ids are returned.
- Floating point: `parseFloat` of the amount and `amount.toString()` are not modelled. The amount travels as its text, and the server's decimal parser is an input.
- The date parser (`datetime.fromisoformat`) and the client clock are inputs.
- The database commit is an input. Its failure message is a parameter.
- JSON bodies that are not objects, and body values of the wrong JSON type (a non-string name, a non-integer account id): the request fields are typed.
- `request.args.get('account_id', type=int)`: the model starts from its result, an optional integer.
- The server's `AccountType` enum: `app/models.py` is not part of this model. `Ledger.TypeName` assumes each member's value equals its name, as in the client's enum (`frontend/src/types/index.ts`). Both the listing's group keys and the `AccountType[s.upper()]` lookup rest on that assumption.
- Python's full-Unicode `str.upper()`: only ASCII letters are folded. This matches SQLite's `lower()`, but not Python's upper-casing of non-ASCII letters.
- The database backend: the model assumes SQLite. Its `lower()` folds only ASCII, and its ids come from 1 without gaps. Another backend may fold more letters in the duplicate query. PostgreSQL, for one, uses up a sequence value on a rolled-back insert, so `Ledger.Valid` would not survive a failed commit there.
- Commits that succeed and are then answered with 500: `to_dict()` after the commit (`app/api/accounts.py:56-60`, `app/api/transactions.py:70-74`) and the balance lookups after a delete (`app/api/transactions.py:140-151`) can raise. The handler then answers DATABASE_ERROR although the change is stored. The model's `Fail` always leaves the tables as they were.
- The browser's constraint validation in the transaction dialog: `required` (`frontend/src/components/modals/TransactionModal.tsx:103`, 118, 134, 147 and 167), `min="0"` and `step="0.01"` on the amount (lines 129-130). The browser checks these before `handleSubmit` runs; `TransactionModal.Submit` models only the handler. Likewise `required` on the account name (`frontend/src/components/modals/AccountModal.tsx:81`).
- The text of the transport's rejection: `ApiClient.Fetch` keeps only the status of a non-2xx reply, not axios's message, which names the status. An error envelope only reaches `Unwrap` inside a 2xx reply, which these handlers never send.
- The order among transactions with the same date: the SQL query leaves it unspecified. The model lists them in one fixed order and proves only the newest-first order and the permutation.
- The order of accounts within a group: the query has no `ORDER BY`. The model uses id order.
- The 404 and 500 blueprint handlers beyond NOT_FOUND "Resource not found" for a missing row. Unhandled exceptions are not modelled.
- The client's `create`/`update`/`delete` API calls: they are not defined in `client.ts`. The model stops at the call each hook makes (`Mutations.CallFor`).
- TanStack Query internals are not modelled: timers, retries, window-focus refetching, garbage collection and request deduplication. Only the options' values and prefix invalidation are modelled.
- Rendering, toasts' display and keyboard focus are not modelled. The Escape listener and the disabled buttons of the delete dialog are modelled as predicates (`EscapeCloses`, `ButtonsDisabled`) without further properties.
- `AccountModal.Prefill` and `TransactionModal.Prefill`: the effects' re-run schedule (their dependency arrays) is not modelled. Each is one run with given inputs.
