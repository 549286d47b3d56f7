/** Completion classification of `URLSession.data(for:completion:)`
    (ImageFeed/Network/URLSession+data.swift) and the error values the services hand
    to their callers. The transport delivers an optional body, an optional response
    and an optional error; exactly one result comes out. */
module Http {
  import opened Base
  import opened Foundation

  /** The `Error` a failed transfer reports, known only by its description. */
  datatype TransportError = TransportError(description: string)

  /** `URLResponse`: an `HTTPURLResponse` carries a status code; other responses do not. */
  datatype Response = HttpResponse(statusCode: int) | OtherResponse

  /** `NetworkError`. */
  datatype NetworkError =
    | HttpStatusCode(code: int)
    | UrlRequestError(cause: TransportError)
    | UrlSessionError

  /** The `Error` values the services pass to their completions: a `NetworkError`,
      a transport error passed through untouched, or `AuthServiceError.invalidRequest`. */
  datatype Error =
    | Network(failure: NetworkError)
    | Transport(cause: TransportError)
    | AuthInvalidRequest

  /** `NetworkError.invalidRequest`. */
  const InvalidRequest: NetworkError := HttpStatusCode(-1)

  /** `NetworkError.decodingError(_:)`: whatever went wrong while decoding, the
      result is the same pseudo status code. */
  function DecodingError(cause: string): (r: NetworkError)
    ensures r.HttpStatusCode? && r.code == -2
  {
    HttpStatusCode(-2)
  }

  /** Status codes in `200 ..< 300`. */
  predicate IsSuccessStatus(code: int) {
    200 <= code < 300
  }

  /** The completion `data(for:completion:)` delivers for one transport callback. */
  function DataResult(data: Option<Bytes>, response: Option<Response>, error: Option<TransportError>): (r: Result<Bytes, NetworkError>)
    ensures r.Success? <==>
      data.Some? && response.Some? && response.value.HttpResponse? && IsSuccessStatus(response.value.statusCode)
    ensures r.Success? ==> r.value == data.value
    ensures (r.Failure? && r.error.HttpStatusCode?) <==>
      data.Some? && response.Some? && response.value.HttpResponse? && !IsSuccessStatus(response.value.statusCode)
    ensures r.Failure? && r.error.HttpStatusCode? ==> r.error.code == response.value.statusCode
    ensures (r.Failure? && r.error.UrlRequestError?) <==>
      !(data.Some? && response.Some? && response.value.HttpResponse?) && error.Some?
    ensures r.Failure? && r.error.UrlRequestError? ==> r.error.cause == error.value
    ensures (r.Failure? && r.error.UrlSessionError?) <==>
      !(data.Some? && response.Some? && response.value.HttpResponse?) && error.None?
  {
    if data.Some? && response.Some? && response.value.HttpResponse? then
      var code := response.value.statusCode;
      if 200 <= code < 300 then Success(data.value) else Failure(HttpStatusCode(code))
    else if error.Some? then
      Failure(UrlRequestError(error.value))
    else
      Failure(UrlSessionError)
  }

  /** `objectTask(for:completion:)`: decodes a successful body, turns a decoding
      failure into `decodingError` and passes any other failure through. */
  function ObjectResult<T>(decode: Bytes -> Option<T>, raw: Result<Bytes, NetworkError>): (r: Result<T, Error>)
    ensures r.Success? <==> raw.Success? && decode(raw.value).Some?
    ensures r.Success? ==> r.value == decode(raw.value).value
    ensures raw.Success? && decode(raw.value).None? ==> r == Failure(Network(HttpStatusCode(-2)))
    ensures raw.Failure? ==> r == Failure(Network(raw.error))
  {
    match raw
    case Failure(e) => Failure(Network(e))
    case Success(data) =>
      match decode(data)
      case Some(v) => Success(v)
      case None => Failure(Network(DecodingError("")))
  }

  // ---------------------------------------------------------------------------

  /** The four kinds of transport callback, told apart without looking at the
      classifier. */
  datatype Callback = Answered2xx | AnsweredOther | Errored | Empty

  function Kind(data: Option<Bytes>, response: Option<Response>, error: Option<TransportError>): Callback {
    match (data, response, error)
    case (Some(_), Some(HttpResponse(code)), _) => if IsSuccessStatus(code) then Answered2xx else AnsweredOther
    case (_, _, Some(_)) => Errored
    case _ => Empty
  }

  /** Each kind of callback yields its own kind of completion, so one callback
      never produces two different outcomes. */
  lemma OneOutcomePerCallback(data: Option<Bytes>, response: Option<Response>, error: Option<TransportError>)
    ensures var r := DataResult(data, response, error);
      match Kind(data, response, error)
      case Answered2xx => r.Success?
      case AnsweredOther => r.Failure? && r.error.HttpStatusCode?
      case Errored => r.Failure? && r.error.UrlRequestError?
      case Empty => r == Failure(UrlSessionError)
  {
  }

  /** A body with an HTTP response is judged by its status alone, even when the
      transport also reported an error. */
  lemma StatusWinsOverError(data: Bytes, code: int, e: TransportError)
    ensures DataResult(Some(data), Some(HttpResponse(code)), Some(e))
            == DataResult(Some(data), Some(HttpResponse(code)), None)
  {
  }

  /** The edges of the success range. */
  lemma StatusBoundaries(data: Bytes)
    ensures DataResult(Some(data), Some(HttpResponse(200)), None) == Success(data)
    ensures DataResult(Some(data), Some(HttpResponse(299)), None) == Success(data)
    ensures DataResult(Some(data), Some(HttpResponse(199)), None) == Failure(HttpStatusCode(199))
    ensures DataResult(Some(data), Some(HttpResponse(300)), None) == Failure(HttpStatusCode(300))
  {
  }

  /** The two pseudo status codes the services invent lie outside every real HTTP
      status and differ from each other. */
  lemma PseudoStatusCodes(cause: string)
    ensures InvalidRequest != DecodingError(cause)
    ensures !IsSuccessStatus(InvalidRequest.code) && !IsSuccessStatus(DecodingError(cause).code)
    ensures forall other :: DecodingError(other) == DecodingError(cause)
  {
  }
}
