/**
 * The response envelopes every route returns (api/src/models/response.py:12-38).
 * `BaseResponse` contributes only the `result` discriminator, which each envelope carries.
 */
module Response {
  import opened Wrappers
  import opened Models

  /** `Literal["ok", "error"]`. */
  datatype ResultTag = Ok | Error

  /** `Literal["entity", "collection"]`. */
  datatype ResponseKind = EntityKind | CollectionKind

  /** A success envelope around one record. */
  datatype SingleSuccessResponse<T> =
    SingleSuccessResponse(data: T, result: ResultTag := Ok, response: ResponseKind := EntityKind)

  /** A success envelope around a list of records. */
  datatype GroupSuccessResponse<T> =
    GroupSuccessResponse(data: seq<T>, result: ResultTag := Ok, response: ResponseKind := CollectionKind)

  /**
   * One error entry. `id` defaults to a fresh uuid4 in the source; here the caller supplies it.
   */
  datatype ErrorDescription =
    ErrorDescription(id: Uuid, status: int, title: string, detail: string, context: Option<string> := None)

  /** An error envelope. */
  datatype ErrorResponse = ErrorResponse(errors: seq<ErrorDescription>, result: ResultTag := Error)

  /** The envelopes built with only their required fields carry the documented defaults. */
  lemma DefaultsHold<T>(one: T, many: seq<T>, errors: seq<ErrorDescription>, id: Uuid, status: int, title: string, detail: string)
    ensures SingleSuccessResponse(one).result == Ok && SingleSuccessResponse(one).response == EntityKind
    ensures SingleSuccessResponse(one).data == one
    ensures GroupSuccessResponse(many).result == Ok && GroupSuccessResponse(many).response == CollectionKind
    ensures GroupSuccessResponse(many).data == many
    ensures ErrorResponse(errors).result == Error && ErrorResponse(errors).errors == errors
    ensures ErrorDescription(id, status, title, detail).context == None
    ensures ErrorDescription(id, status, title, detail).id == id
  {
  }
}
