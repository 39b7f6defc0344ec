/** The web client's API error: a message, the HTTP status and the parsed
    body, built from a failed fetch response. */
module ApiErrors {
  import opened Wrappers

  /** A parsed JSON body: its `message` member (None when absent) and its
      other string members. */
  datatype Body = Body(message: Option<string>, fields: map<string, string>)

  /** `{}`, substituted for a body that does not parse. */
  const EmptyBody := Body(None, map[])

  const DefaultMessage := "API Error"

  /** The part of a fetch Response that is read: the status, its text,
      and the body as JSON (None when parsing fails). */
  datatype Response = Response(status: int, statusText: string, json: Option<Body>) {
    /** Response.ok of the Fetch standard: a status in 200..299. */
    predicate Ok() {
      200 <= status <= 299
    }
  }

  datatype ApiError = ApiError(message: string, status: int, data: Option<Body>) {
    predicate IsUnauthorized() { status == 401 }
    predicate IsForbidden() { status == 403 }
    predicate IsNotFound() { status == 404 }
    predicate IsServerError() { status >= 500 }
  }

  /** A string member counts only when present and non-empty (`||`). */
  predicate Truthy(s: Option<string>) {
    s.Some? && s.value != ""
  }

  /** ApiError.fromResponse: the body's message, else the status text,
      else the default; the status and the body are kept. */
  function FromResponse(response: Response, data: Option<Body>): (e: ApiError)
    ensures e.status == response.status && e.data == data
    ensures data.Some? && Truthy(data.value.message) ==> e.message == data.value.message.value
    ensures !(data.Some? && Truthy(data.value.message)) && response.statusText != "" ==>
      e.message == response.statusText
    ensures !(data.Some? && Truthy(data.value.message)) && response.statusText == "" ==>
      e.message == DefaultMessage
    ensures e.message != ""
  {
    var message :=
      if data.Some? && Truthy(data.value.message) then data.value.message.value
      else if response.statusText != "" then response.statusText
      else DefaultMessage;
    ApiError(message, response.status, data)
  }

  /** handleApiResponse: the parsed body (or `{}`) of a successful
      response; the error built from that body otherwise. */
  function HandleApiResponse(response: Response): (r: Result<Body, ApiError>)
    ensures r.Err? <==> !response.Ok()
    ensures r.Ok? ==> r.value == response.json.GetOr(EmptyBody)
    ensures r.Err? ==>
      && r.error.status == response.status
      && r.error.data == Some(response.json.GetOr(EmptyBody))
      && r.error.message != ""
    ensures response.json.None? && r.Err? ==>
      r.error.message == (if response.statusText != "" then response.statusText else DefaultMessage)
  {
    var data := response.json.GetOr(EmptyBody);
    if !response.Ok() then Err(FromResponse(response, Some(data))) else Ok(data)
  }

  /** Every response with a 5xx status or above surfaces as an error that
      the client classes as a server error and as nothing else, keeping
      the status. */
  lemma ServerErrorsSurface(response: Response)
    requires response.status >= 500
    ensures HandleApiResponse(response).Err?
    ensures HandleApiResponse(response).error.IsServerError()
    ensures HandleApiResponse(response).error.status == response.status
    ensures !HandleApiResponse(response).error.IsUnauthorized()
    ensures !HandleApiResponse(response).error.IsForbidden()
    ensures !HandleApiResponse(response).error.IsNotFound()
  {
  }

  /** A 401 from the API always surfaces as an unauthorized error whose
      message is the server's own when it sent one. */
  lemma UnauthorizedResponse(response: Response, message: string)
    requires response.status == 401 && response.json.Some? && response.json.value.message == Some(message)
    requires message != ""
    ensures HandleApiResponse(response).Err?
    ensures HandleApiResponse(response).error.IsUnauthorized()
    ensures HandleApiResponse(response).error.message == message
  {
    assert !response.Ok();
    assert Truthy(response.json.value.message);
  }
}
