/**
 * The error envelope builder and the exception translator (api/src/utils/errors.py).
 */
module Errors {
  import opened Wrappers
  import opened Models
  import opened Exceptions
  import opened Strings
  import opened Response
  import opened Common
  import Helper

  /** A partial error entry: a dict that may lack any of its three keys. */
  datatype ErrorDict = ErrorDict(status: Option<int>, title: Option<string>, detail: Option<string>)

  /** A JSON response: its HTTP status and its (already serialised and re-parsed) error body. */
  datatype JsonResponse = JsonResponse(statusCode: int, content: ErrorResponse)

  /** The parts of the incoming request the handler reads. */
  datatype Request = Request(url: string, httpMethod: string, userId: Option<Uuid>)

  const DefaultTitle := "Error"
  const DefaultDetail := "An error occurred"
  const ValidationTitle := "Validation Error"
  const InternalTitle := "Internal Server Error"
  const UnhandledDetail := "An unhandled critical error occurred."
  const FailAction := "API_CALL_FAIL"
  const NoLogDetails := "{}"

  /** `get_errordesc`: one entry, each missing key filled from its default. */
  function ErrorDescFor(err: ErrorDict, status: int, id: Uuid): ErrorDescription
  {
    ErrorDescription(id, err.status.GetOr(status), err.title.GetOr(DefaultTitle), err.detail.GetOr(DefaultDetail))
  }

  /**
   * `error_response`: an error envelope with one entry per dict, in order, sent with
   * HTTP status `status`. `ids(i)` is the fresh uuid the i-th entry receives.
   */
  function MakeErrorResponse(errors: seq<ErrorDict>, ids: nat -> Uuid, status: int := 500): (r: JsonResponse)
    ensures r.statusCode == status
    ensures r.content.result == Error
    ensures |r.content.errors| == |errors|
    ensures forall i :: 0 <= i < |errors| ==>
      && r.content.errors[i].id == ids(i)
      && r.content.errors[i].status == (if errors[i].status.Some? then errors[i].status.value else status)
      && r.content.errors[i].title == (if errors[i].title.Some? then errors[i].title.value else DefaultTitle)
      && r.content.errors[i].detail == (if errors[i].detail.Some? then errors[i].detail.value else DefaultDetail)
      && r.content.errors[i].context == None
  {
    JsonResponse(status, ErrorResponse(seq(|errors|, i requires 0 <= i < |errors| => ErrorDescFor(errors[i], status, ids(i)))))
  }

  /** `str(loc)` for one part of a validation error's location. */
  function LocText(part: LocPart): string
  {
    match part
    case Name(n) => n
    case Index(k) => NatToString(k)
  }

  /** `"<loc parts joined by '.'>: <msg>"`, the detail of one validation entry. */
  function ValidationMessage(item: ValidationItem): string
  {
    Join(seq(|item.loc|, i requires 0 <= i < |item.loc| => LocText(item.loc[i])), ".") + ": " + item.msg
  }

  /** The entry dict the handler builds for one validation error. */
  function ValidationDict(item: ValidationItem): ErrorDict
  {
    ErrorDict(Some(422), Some(ValidationTitle), Some(ValidationMessage(item)))
  }

  /** The audit detail for a validation failure: a fixed prefix, then `"[<message>] "` per error. */
  function ValidationDetail(items: seq<ValidationItem>): string
  {
    if items == [] then "RequestValidationError: "
    else ValidationDetail(items[..|items| - 1]) + "[" + ValidationMessage(items[|items| - 1]) + "] "
  }

  /**
   * The audit detail grows in the order the errors are reported: the detail for the
   * first `k` errors is a prefix of the detail for all of them (with `k == 0`, the
   * fixed `"RequestValidationError: "` prefix).
   */
  lemma {:induction false} ValidationDetailExtends(items: seq<ValidationItem>, k: nat)
    requires k <= |items|
    ensures ValidationDetail(items[..k]) <= ValidationDetail(items)
    decreases |items|
  {
    if k < |items| {
      var init := items[..|items| - 1];
      assert init[..k] == items[..k];
      ValidationDetailExtends(init, k);
    } else {
      assert items[..k] == items;
    }
  }

  /** `str(log_details)` for the unhandled branch: the request's url and method and the exception class. */
  function UnhandledLogDetails(request: Request, className: string): string
  {
    "{'path': '" + request.url + "', 'method': '" + request.httpMethod + "', 'error_class': '" + className + "'}"
  }

  /** How the handler classified one exception: the audit fields and the response. */
  datatype Translation = Translation(status: int, title: string, detail: string, logDetails: string, response: JsonResponse)

  /**
   * The classification `error_handler` performs: request-validation errors give 422 with
   * one entry per reported error; an `HTTPException` keeps its own status and detail; a
   * `ValueError` gives 404; anything else gives 500 with `str(exc)` as the client detail
   * and the fixed text only in the audit message.
   */
  function Translate(exc: Exception, request: Request, ids: nat -> Uuid): (t: Translation)
    ensures t.response.statusCode == t.status && t.response.content.result == Error
    ensures exc.RequestValidationError? ==>
      && t.status == 422 && t.title == ValidationTitle && t.detail == ValidationDetail(exc.errors)
      && |t.response.content.errors| == |exc.errors|
      && forall i :: 0 <= i < |exc.errors| ==>
           && t.response.content.errors[i].status == 422
           && t.response.content.errors[i].title == ValidationTitle
           && t.response.content.errors[i].detail == ValidationMessage(exc.errors[i])
    ensures exc.HTTPException? ==> t.status == exc.statusCode && t.title == DefaultTitle && t.detail == exc.detail
    ensures exc.ValueError? ==> t.status == 404 && t.title == DefaultTitle && t.detail == exc.message
    ensures exc.OtherException? ==> t.status == 500 && t.title == InternalTitle && t.detail == UnhandledDetail
    ensures !exc.RequestValidationError? ==>
      && |t.response.content.errors| == 1
      && t.response.content.errors[0].status == t.status
      && t.response.content.errors[0].title == t.title
      && t.response.content.errors[0].detail == (if exc.OtherException? then exc.message else t.detail)
    ensures t.logDetails == (if exc.OtherException? then UnhandledLogDetails(request, exc.className) else NoLogDetails)
  {
    match exc
    case RequestValidationError(items) =>
      Translation(422, ValidationTitle, ValidationDetail(items), NoLogDetails,
                  MakeErrorResponse(seq(|items|, i requires 0 <= i < |items| => ValidationDict(items[i])), ids, 422))
    case HTTPException(code, detail) =>
      Translation(code, DefaultTitle, detail, NoLogDetails,
                  MakeErrorResponse([ErrorDict(Some(code), Some(DefaultTitle), Some(detail))], ids, code))
    case ValueError(message) =>
      Translation(404, DefaultTitle, message, NoLogDetails,
                  MakeErrorResponse([ErrorDict(Some(404), Some(DefaultTitle), Some(message))], ids, 404))
    case OtherException(className, message) =>
      Translation(500, InternalTitle, UnhandledDetail, UnhandledLogDetails(request, className),
                  MakeErrorResponse([ErrorDict(Some(500), Some(InternalTitle), Some(message))], ids, 500))
  }

  /** The audit row the handler writes for a classified failure. */
  function FailureRow(t: Translation, request: Request, activityId: Uuid, timestamp: int): ActivityLog
  {
    LogRow(activityId, timestamp, FailAction, t.title + ": " + t.detail, request.userId, t.logDetails, t.status, None)
  }

  /**
   * `error_handler`: classify `exc`, then, for a status of 400 or more, write one
   * `API_CALL_FAIL` audit row through a fresh session. The audit row's id, the clock
   * reading, the audit commit's outcome and the error entries' ids are parameters.
   * The response does not depend on whether the audit write succeeds.
   */
  method ErrorHandler(audit: ActivityStore, request: Request, exc: Exception, ids: nat -> Uuid,
                      activityId: Uuid, timestamp: int, outcome: CommitOutcome)
    returns (finalResponse: JsonResponse)
    modifies audit
    ensures finalResponse == Translate(exc, request, ids).response
    ensures Translate(exc, request, ids).status >= 400 && outcome.Committed? ==>
      audit.rows == old(audit.rows) + [FailureRow(Translate(exc, request, ids), request, activityId, timestamp)]
    ensures Translate(exc, request, ids).status < 400 || !outcome.Committed? ==>
      audit.rows == old(audit.rows)
  {
    var userIdFromRequest := request.userId;
    var logDetails := NoLogDetails;
    var status: int;
    var title: string;
    var detail: string;
    match exc {
      case RequestValidationError(items) =>
        status := 422;
        title := ValidationTitle;
        var errors: seq<ErrorDict> := [];
        detail := "RequestValidationError: ";
        var i := 0;
        while i < |items|
          invariant 0 <= i <= |items|
          invariant |errors| == i
          invariant forall j :: 0 <= j < i ==> errors[j] == ValidationDict(items[j])
          invariant detail == ValidationDetail(items[..i])
        {
          var errorMessage := ValidationMessage(items[i]);
          errors := errors + [ErrorDict(Some(422), Some(title), Some(errorMessage))];
          detail := detail + "[" + errorMessage + "] ";
          assert items[..i + 1][..i] == items[..i];
          i := i + 1;
        }
        assert items[..i] == items;
        assert errors == seq(|items|, j requires 0 <= j < |items| => ValidationDict(items[j]));
        finalResponse := MakeErrorResponse(errors, ids, 422);
      case HTTPException(code, excDetail) =>
        status := code;
        title := DefaultTitle;
        detail := excDetail;
        finalResponse := MakeErrorResponse([ErrorDict(Some(status), Some(title), Some(detail))], ids, status);
      case ValueError(message) =>
        status := 404;
        title := DefaultTitle;
        detail := message;
        finalResponse := MakeErrorResponse([ErrorDict(Some(status), Some(title), Some(detail))], ids, status);
      case OtherException(className, message) =>
        status := 500;
        title := InternalTitle;
        detail := UnhandledDetail;
        finalResponse := MakeErrorResponse([ErrorDict(Some(status), Some(title), Some(message))], ids, 500);
        logDetails := UnhandledLogDetails(request, className);
    }

    if status >= 400 {
      var _ := audit.Log(activityId, timestamp, outcome, FailAction, title + ": " + detail,
                         userIdFromRequest, logDetails, status);
    }
  }

  /**
   * `read(..., raise_empty=False)` of a missing key does not return `None`: its failed
   * assertion reaches the handler as an unhandled exception, so the client sees a 500
   * whose detail is the empty text of that assertion.
   */
  lemma ReadWithoutRaiseEmptyIsServerError(table: Helper.Table, key: Uuid, request: Request, ids: nat -> Uuid)
    requires key !in table.rows
    ensures table.Read(key, false).Failure?
    ensures var t := Translate(table.Read(key, false).error, request, ids);
      && t.status == 500
      && t.response.content.errors[0].title == InternalTitle
      && t.response.content.errors[0].detail == ""
  {
  }

  /**
   * Starlette's own `HTTPException`, which the router raises for an unknown path, is not
   * FastAPI's class: the handler answers it with a 500 whose client detail is
   * `str(exc)`, and audits it as an unhandled "HTTPException".
   */
  lemma RouterNotFoundIsServerError(request: Request, ids: nat -> Uuid)
    ensures var t := Translate(OtherException("HTTPException", "404: Not Found"), request, ids);
      && t.status == 500
      && t.response.statusCode == 500
      && t.response.content.errors[0].title == InternalTitle
      && t.response.content.errors[0].detail == "404: Not Found"
      && t.logDetails == UnhandledLogDetails(request, "HTTPException")
  {
  }
}
