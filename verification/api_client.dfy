/**
 * The client's two fetchers: the request each sends and how each unwraps the
 * server's envelope into data or an error message.
 */
module ApiClient {
  import opened Wrappers
  import opened Ledger
  import opened ApiUtils
  import AccountsApi
  import TransactionsApi

  const AccountsFallback := "Failed to fetch accounts"
  const TransactionsFallback := "Failed to fetch transactions"

  /**
   * `if (!data.success || !data.data) throw new Error(data.error || fallback)`.
   * Present data is an object or an array here, and both are truthy.
   */
  function Unwrap<T>(b: Body<T>, fallback: string): (r: Result<T, string>)
    ensures r.Ok? <==> b.success && b.data.Some?
    ensures r.Ok? ==> r.value == b.data.value
    ensures r.Err? && Truthy(b.error) ==> r.error == b.error.value
    ensures r.Err? && !Truthy(b.error) ==> r.error == fallback
  {
    if b.success && b.data.Some? then Ok(b.data.value)
    else Err(if Truthy(b.error) then b.error.value else fallback)
  }

  /** Whatever the server put in a success envelope with data comes back out. */
  lemma UnwrapSuccess<T>(d: T, message: Option<string>, status: int, fallback: string)
    ensures Unwrap(SuccessResponse(Some(d), message, status).body, fallback) == Ok(d)
  {
  }

  /** A success envelope without data is still a failure for the client, with the fallback message. */
  lemma UnwrapSuccessWithoutData<T>(message: Option<string>, status: int, fallback: string)
    ensures Unwrap(SuccessResponse<T>(None, message, status).body, fallback) == Err(fallback)
  {
  }

  /** An error envelope yields its message, or the fallback when the message is empty. */
  lemma UnwrapError<T>(error: string, code: Option<string>, status: int, fallback: string)
    ensures Unwrap(ErrorResponse<T>(error, code, status).body, fallback) ==
      Err(if error != "" then error else fallback)
  {
  }

  /**
   * Why a fetch fails: the transport rejected a reply whose status is not 2xx
   * (axios's default `validateStatus`), before the envelope is looked at; or a
   * 2xx envelope unwrapped to an error message.
   */
  datatype FetchError = HttpStatus(status: int) | Message(text: string)

  /** The statuses the transport hands on to the caller: 200 to 299. */
  predicate Accepted(status: int) {
    200 <= status < 300
  }

  /** `await api.get(…)` followed by the unwrap of `data`. */
  function Fetch<T>(rep: Reply<T>, fallback: string): (r: Result<T, FetchError>)
    ensures !Accepted(rep.status) ==> r == Err(HttpStatus(rep.status))
    ensures Accepted(rep.status) ==> (r.Ok? <==> Unwrap(rep.body, fallback).Ok?)
    ensures Accepted(rep.status) && r.Ok? ==> r.value == Unwrap(rep.body, fallback).value
    ensures Accepted(rep.status) && r.Err? ==> r.error == Message(Unwrap(rep.body, fallback).error)
  {
    if !Accepted(rep.status) then Err(HttpStatus(rep.status))
    else
      match Unwrap(rep.body, fallback)
      case Ok(v) => Ok(v)
      case Err(m) => Err(Message(m))
  }

  /**
   * Every handler failure is rejected by the transport on its status: what the
   * caller sees depends on the status alone, never on the envelope's message.
   */
  lemma FailureRejectedByTransport<T>(e: ApiError, fallback: string)
    requires e.status in ErrorStatuses
    ensures Fetch(Render<T>(Fail(e)), fallback) == Err(HttpStatus(e.status))
    ensures forall e2: ApiError :: e2.status == e.status ==>
      Fetch(Render<T>(Fail(e2)), fallback) == Fetch(Render<T>(Fail(e)), fallback)
  {
  }

  /** A GET request: its path and its `account_id` query parameter, if any. */
  datatype Get = Get(path: string, accountId: Option<int>)

  /** `accountsApi.getAll`: `/accounts`, never with a filter. */
  function AccountsRequest(): (g: Get)
    ensures g.path == "/accounts" && g.accountId.None?
  {
    Get("/accounts", None)
  }

  /** `transactionsApi.getAll(accountId)`: a truthy id becomes `account_id`; undefined or 0 sends no parameter. */
  function TransactionsRequest(accountId: Option<int>): (g: Get)
    ensures g.path == "/transactions"
    ensures g.accountId.Some? <==> accountId.Some? && accountId.value != 0
    ensures g.accountId.Some? ==> g.accountId == accountId
  {
    Get("/transactions", if TruthyId(accountId) then accountId else None)
  }

  /**
   * The parameter the client sends selects on the server exactly the
   * transactions the client's filter names: dropping a 0 id loses nothing,
   * since the server treats 0 as no filter too.
   */
  lemma {:induction false} RequestKeepsFilter(tb: Tables, accountId: Option<int>)
    ensures TransactionsApi.GetTransactions(tb, TransactionsRequest(accountId).accountId)
         == TransactionsApi.GetTransactions(tb, accountId)
  {
    if accountId == Some(0) {
      TransactionsApi.ZeroMeansUnfiltered(tb);
    }
  }

  /** The transaction listing the server renders reaches the caller as exactly that listing. */
  lemma ListingReachesClient(tb: Tables, accountId: Option<int>)
    ensures var r := TransactionsApi.GetTransactions(tb, accountId);
      Fetch(Render(r), TransactionsFallback) == Ok(r.data.value)
  {
  }

  /** The grouped account listing the server renders reaches the caller as exactly that grouping. */
  lemma AccountsListingReachesClient(tb: Tables)
    ensures var r := AccountsApi.GetAccounts(tb);
      Fetch(Render(r), AccountsFallback) == Ok(r.data.value)
  {
  }
}
