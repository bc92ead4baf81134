/**
 * The server's response envelope, its request validator, and the shape every
 * endpoint of the model returns: either new tables with a payload, or an
 * error code with an HTTP status.
 */
module ApiUtils {
  import opened Wrappers
  import opened Text
  import opened Ledger

  /** The JSON envelope: `success` always, the other members only when set. */
  datatype Body<T> = Body(
    success: bool,
    data: Option<T>,
    message: Option<string>,
    error: Option<string>,
    code: Option<string>)

  datatype Reply<T> = Reply(body: Body<T>, status: int)

  /** Python truthiness of an optional string. */
  predicate Truthy(s: Option<string>) {
    s.Some? && s.value != ""
  }

  /** `success_response(data, message, status)`. */
  function SuccessResponse<T>(data: Option<T>, message: Option<string>, status: int): (r: Reply<T>)
    ensures r.status == status && r.body.success
    ensures r.body.data == data
    ensures r.body.message.Some? <==> Truthy(message)
    ensures r.body.message.Some? ==> r.body.message == message
    ensures r.body.error.None? && r.body.code.None?
  {
    Reply(Body(true, data, if Truthy(message) then message else None, None, None), status)
  }

  /** `error_response(error, code, status)`. */
  function ErrorResponse<T>(error: string, code: Option<string>, status: int): (r: Reply<T>)
    ensures r.status == status && !r.body.success
    ensures r.body.error == Some(error)
    ensures r.body.code.Some? <==> Truthy(code)
    ensures r.body.code.Some? ==> r.body.code == code
    ensures r.body.data.None? && r.body.message.None?
  {
    Reply(Body(false, None, None, Some(error), if Truthy(code) then code else None), status)
  }

  datatype ErrorCode =
    | InvalidContentType
    | MissingFields
    | InvalidAccountType
    | DuplicateAccount
    | NotFound
    | InvalidAmount
    | InvalidDate
    | SameAccounts
    | DatabaseError

  function CodeText(c: ErrorCode): string {
    match c
    case InvalidContentType => "INVALID_CONTENT_TYPE"
    case MissingFields => "MISSING_FIELDS"
    case InvalidAccountType => "INVALID_ACCOUNT_TYPE"
    case DuplicateAccount => "DUPLICATE_ACCOUNT"
    case NotFound => "NOT_FOUND"
    case InvalidAmount => "INVALID_AMOUNT"
    case InvalidDate => "INVALID_DATE"
    case SameAccounts => "SAME_ACCOUNTS"
    case DatabaseError => "DATABASE_ERROR"
  }

  /** The statuses the handlers fail with: 400 for bad input, 404 for a missing row, 500 for a failed commit. */
  const ErrorStatuses: set<int> := {400, 404, 500}

  /** An error a handler returns: its message, its code and its HTTP status. */
  datatype ApiError = ApiError(code: ErrorCode, error: string, status: int)

  /**
   * What an endpoint does: it succeeds with the tables after the request, an
   * optional payload and message and a status, or fails and leaves the tables
   * as they were.
   */
  datatype ApiResult<T> =
    | Done(tables: Tables, data: Option<T>, message: Option<string>, status: int)
    | Fail(err: ApiError)

  /** The tables after a request: a failed request changes nothing. */
  function After<T>(before: Tables, r: ApiResult<T>): Tables {
    if r.Done? then r.tables else before
  }

  /** The reply the endpoint sends, built with the two envelope builders. */
  function Render<T>(r: ApiResult<T>): (rep: Reply<T>)
    ensures rep.body.success <==> r.Done?
    ensures r.Done? ==> rep.status == r.status && rep.body.data == r.data
    ensures r.Done? ==> rep.body.message == (if Truthy(r.message) then r.message else None)
    ensures r.Fail? ==>
      && rep.status == r.err.status
      && rep.body.error == Some(r.err.error)
      && rep.body.code == Some(CodeText(r.err.code))
  {
    match r
    case Done(_, data, message, status) => SuccessResponse(data, message, status)
    case Fail(e) => ErrorResponse(e.error, Some(CodeText(e.code)), e.status)
  }

  /** The outcome of `db.session.commit()`, which the model takes as an input. */
  datatype Commit = Committed | CommitFailed(reason: string)

  /** A request as a handler sees it: whether it is JSON, which body keys it has, and the values it reads. */
  datatype Request<F> = Request(isJson: bool, keys: set<string>, fields: F)

  /** The required fields absent from the body, in the order they are required. */
  function Missing(required: seq<string>, keys: set<string>): (r: seq<string>)
    ensures forall f :: f in r <==> f in required && f !in keys
    ensures |r| <= |required|
  {
    if |required| == 0 then []
    else
      Missing(required[..|required| - 1], keys)
      + (if required[|required| - 1] in keys then [] else [required[|required| - 1]])
  }

  /** The missing-field report follows the required list: it splits over concatenation. */
  lemma {:induction false} MissingAppend(a: seq<string>, b: seq<string>, keys: set<string>)
    ensures Missing(a + b, keys) == Missing(a, keys) + Missing(b, keys)
    decreases |b|
  {
    if |b| == 0 {
      assert a + b == a;
    } else {
      var b' := b[..|b| - 1];
      assert (a + b)[..|a + b| - 1] == a + b';
      MissingAppend(a, b', keys);
    }
  }

  /**
   * `validate_request_json(required)`: a non-JSON request is rejected first;
   * then every missing field is reported at once; None lets the handler run.
   */
  function ValidateRequestJson<F>(req: Request<F>, required: seq<string>): (r: Option<ApiError>)
    ensures !req.isJson ==> r == Some(ApiError(InvalidContentType, "Request must be JSON", 400))
    ensures req.isJson ==> (r.None? <==> forall f :: f in required ==> f in req.keys)
    ensures req.isJson && r.Some? ==>
      && r.value.code == MissingFields && r.value.status == 400
      && r.value.error == "Missing required fields: " + Join(Missing(required, req.keys), ", ")
  {
    if !req.isJson then Some(ApiError(InvalidContentType, "Request must be JSON", 400))
    else
      var missing := Missing(required, req.keys);
      if |missing| > 0 then
        assert missing[0] in missing;
        Some(ApiError(MissingFields, "Missing required fields: " + Join(missing, ", "), 400))
      else
        assert forall f :: f in required ==> f in req.keys;
        None
  }

  /** A handler wrapped by the validator: on a validation error the handler's result is discarded. */
  function Guarded<F, T>(req: Request<F>, required: seq<string>, handler: ApiResult<T>): (r: ApiResult<T>)
    ensures ValidateRequestJson(req, required).Some? ==> r == Fail(ValidateRequestJson(req, required).value)
    ensures ValidateRequestJson(req, required).None? ==> r == handler
  {
    match ValidateRequestJson(req, required)
    case Some(e) => Fail(e)
    case None => handler
  }

  /** With a JSON body holding every required field, the wrapped handler runs unchanged. */
  lemma GuardedPassesThrough<F, T>(req: Request<F>, required: seq<string>, handler: ApiResult<T>)
    requires req.isJson && forall f :: f in required ==> f in req.keys
    ensures Guarded(req, required, handler) == handler
  {
  }
}
