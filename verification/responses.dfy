/**
 * The three response envelopes of users/utils/responses.py. Each builder returns
 * a JSON body together with the HTTP status the framework sends it with.
 */
module Responses {
  import opened Wrappers

  /** A JSON value, as a Python dict/list/str/int/None becomes one in a response body. */
  datatype Json =
    | JNull
    | JBool(b: bool)
    | JInt(i: int)
    | JString(s: string)
    | JArray(items: seq<Json>)
    | JObject(fields: map<string, Json>)

  /** A framework response: the body and the HTTP status code. */
  datatype Response = Response(body: Json, status: int)

  const HTTP_200_OK := 200
  const HTTP_201_CREATED := 201
  const HTTP_400_BAD_REQUEST := 400
  const HTTP_403_FORBIDDEN := 403
  const HTTP_404_NOT_FOUND := 404
  const HTTP_500_INTERNAL_SERVER_ERROR := 500

  /** The key the body carries the human-readable message under. */
  const SuccessMessageKey := "mensaje"
  const ErrorMessageKey := "error"

  /** success_response: `{mensaje, data, status}`, sent with `status`. */
  function SuccessResponse(message: string, data: Json, status: int): (r: Response)
    ensures r.status == status
    ensures r.body.JObject? && r.body.fields.Keys == {"mensaje", "data", "status"}
    ensures r.body.fields["mensaje"] == JString(message)
    ensures r.body.fields["data"] == data
    ensures r.body.fields["status"] == JInt(status)
  {
    Response(JObject(map["mensaje" := JString(message), "data" := data, "status" := JInt(status)]), status)
  }

  /** error_response: `{error, data, status}`, sent with `status`. */
  function ErrorResponse(message: string, data: Json, status: int): (r: Response)
    ensures r.status == status
    ensures r.body.JObject? && r.body.fields.Keys == {"error", "data", "status"}
    ensures r.body.fields["error"] == JString(message)
    ensures r.body.fields["data"] == data
    ensures r.body.fields["status"] == JInt(status)
  {
    Response(JObject(map["error" := JString(message), "data" := data, "status" := JInt(status)]), status)
  }

  /** pagination_response: `{count, page, offset, pages, results}`, sent with `status`. */
  function PaginationResponse(data: Json, page: int, offset: int, pages: int, totalItems: int, status: int): (r: Response)
    ensures r.status == status
    ensures r.body.JObject? && r.body.fields.Keys == {"count", "page", "offset", "pages", "results"}
    ensures r.body.fields["count"] == JInt(totalItems)
    ensures r.body.fields["page"] == JInt(page)
    ensures r.body.fields["offset"] == JInt(offset)
    ensures r.body.fields["pages"] == JInt(pages)
    ensures r.body.fields["results"] == data
  {
    Response(JObject(map[
      "count" := JInt(totalItems),
      "page" := JInt(page),
      "offset" := JInt(offset),
      "pages" := JInt(pages),
      "results" := data]), status)
  }

  /** What a client reads back from a body: the field under `key`, if the body is an object holding it. */
  function Field(r: Response, key: string): (v: Option<Json>)
    ensures v.Some? <==> r.body.JObject? && key in r.body.fields
    ensures v.Some? ==> v.value == r.body.fields[key]
  {
    if r.body.JObject? && key in r.body.fields then Some(r.body.fields[key]) else None
  }

  /** The envelope convention: the body's `status` entry repeats the HTTP status. */
  predicate StatusMirrored(r: Response)
  {
    Field(r, "status") == Some(JInt(r.status))
  }

  /** The message a client reads from an envelope: `mensaje` for success, `error` for errors. */
  function MessageOf(r: Response): (m: Option<string>)
    ensures m.Some? ==> Field(r, SuccessMessageKey) == Some(JString(m.value))
                        || Field(r, ErrorMessageKey) == Some(JString(m.value))
  {
    match Field(r, SuccessMessageKey)
    case Some(JString(s)) => Some(s)
    case _ =>
      match Field(r, ErrorMessageKey)
      case Some(JString(s)) => Some(s)
      case _ => None
  }

  /** A response a client recognises as an error: its body has an `error` entry and no `mensaje`. */
  predicate IsErrorEnvelope(r: Response)
  {
    Field(r, ErrorMessageKey).Some? && Field(r, SuccessMessageKey).None?
  }

  /**
   * Both envelopes put the HTTP status into the body, and a client reads the
   * message back under the key the builder used; the two envelopes are told
   * apart by that key.
   */
  lemma EnvelopesRoundTrip(message: string, data: Json, status: int)
    ensures StatusMirrored(SuccessResponse(message, data, status))
    ensures StatusMirrored(ErrorResponse(message, data, status))
    ensures MessageOf(SuccessResponse(message, data, status)) == Some(message)
    ensures MessageOf(ErrorResponse(message, data, status)) == Some(message)
    ensures Field(SuccessResponse(message, data, status), "data") == Some(data)
    ensures Field(ErrorResponse(message, data, status), "data") == Some(data)
    ensures IsErrorEnvelope(ErrorResponse(message, data, status))
    ensures !IsErrorEnvelope(SuccessResponse(message, data, status))
  {
  }

  /**
   * The paginated body carries no `status` entry at all, so the mirroring
   * convention of the two envelopes does not apply to it; its other entries
   * read back as given.
   */
  lemma PaginationReadBack(data: Json, page: int, offset: int, pages: int, totalItems: int, status: int)
    ensures var r := PaginationResponse(data, page, offset, pages, totalItems, status);
      Field(r, "status").None? && !StatusMirrored(r) && MessageOf(r).None? &&
      Field(r, "results") == Some(data) && Field(r, "count") == Some(JInt(totalItems)) &&
      Field(r, "pages") == Some(JInt(pages))
  {
  }
}
