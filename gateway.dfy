/** The HTTP gateway of `src/service/axiosConfig.js`: one configured axios instance,
    a request interceptor that attaches the stored token as a bearer credential,
    a response interceptor that ends the session on a 401, and the helper calls
    every feature goes through. The network is not modelled: the reply to a
    request is an input. */
module Gateway {
  import opened Wrappers
  import opened Js
  import opened Browser

  const ApiBaseUrl := "http://localhost:8080/api"
  const ContentTypeHeader := "Content-Type"
  const AuthorizationHeader := "Authorization"
  const JsonContentType := "application/json"
  const MultipartContentType := "multipart/form-data"
  /** Where a 401 sends the browser. */
  const LoginRoute := "/login"
  /** The `Bearer` authentication scheme name and its single separating space
      (section 2.1 of RFC 6750). */
  const BearerPrefix := "Bearer "

  datatype Verb = Get | Post | Put | Patch | Delete

  /** A file chosen in a file input: name, size in bytes and MIME type. */
  datatype UploadFile = UploadFile(name: string, size: nat, mimeType: string)

  datatype FormValue = Text(text: string) | File(file: UploadFile)

  /** A request body: none (GET and DELETE), the `{}` default, a JSON object given
      by its fields, or a multipart `FormData` given by its entries in order. */
  datatype Payload =
    | NoBody
    | EmptyObject
    | Json(fields: seq<(string, string)>)
    | Multipart(entries: seq<(string, FormValue)>)

  /** The per-call axios config: extra headers and whether a progress callback
      was supplied. */
  datatype Config = Config(headers: map<string, string>, onUploadProgress: bool)

  const NoConfig := Config(map[], false)

  /** A request as it leaves the instance: its headers are the instance defaults
      with the call's own headers layered on top. */
  datatype Request = Request(verb: Verb, url: string, data: Payload, headers: map<string, string>, tracksProgress: bool)

  /** How a call can fail: the server answered with an error status (and perhaps a
      `message` in its body), nothing came back, or the request could not be built. */
  datatype HttpError =
    | ErrorResponse(status: int, message: Option<string>)
    | NoResponse
    | SetupFailure(reason: string)

  /** The settled promise of a call: fulfilled with the response body (a 2xx) or
      rejected with the error. */
  datatype Outcome<+T> = Fulfilled(data: T) | Rejected(error: HttpError)

  function DefaultHeaders(): map<string, string> {
    map[ContentTypeHeader := JsonContentType]
  }

  /** The request carries exactly the default headers overridden by the config's. */
  predicate CarriesConfig(r: Request, config: Config) {
    && r.headers.Keys == DefaultHeaders().Keys + config.headers.Keys
    && (forall h :: h in config.headers ==> r.headers[h] == config.headers[h])
    && (ContentTypeHeader !in config.headers ==> r.headers[ContentTypeHeader] == JsonContentType)
    && r.tracksProgress == config.onUploadProgress
  }

  function Issue(verb: Verb, url: string, data: Payload, config: Config): Request {
    Request(verb, url, data, DefaultHeaders() + config.headers, config.onUploadProgress)
  }

  /** `apiClient.get(url, config = {})`. */
  function GetCall(url: string, config: Config := NoConfig): (r: Request)
    ensures r.verb == Get && r.url == url && r.data == NoBody && CarriesConfig(r, config)
  {
    Issue(Get, url, NoBody, config)
  }

  /** `apiClient.post(url, data = {}, config = {})`. */
  function PostCall(url: string, data: Payload := EmptyObject, config: Config := NoConfig): (r: Request)
    ensures r.verb == Post && r.url == url && r.data == data && CarriesConfig(r, config)
  {
    Issue(Post, url, data, config)
  }

  /** `apiClient.put(url, data = {}, config = {})`. */
  function PutCall(url: string, data: Payload := EmptyObject, config: Config := NoConfig): (r: Request)
    ensures r.verb == Put && r.url == url && r.data == data && CarriesConfig(r, config)
  {
    Issue(Put, url, data, config)
  }

  /** `apiClient.patch(url, data = {}, config = {})`. */
  function PatchCall(url: string, data: Payload := EmptyObject, config: Config := NoConfig): (r: Request)
    ensures r.verb == Patch && r.url == url && r.data == data && CarriesConfig(r, config)
  {
    Issue(Patch, url, data, config)
  }

  /** `apiClient.delete(url, config = {})`. */
  function DeleteCall(url: string, config: Config := NoConfig): (r: Request)
    ensures r.verb == Delete && r.url == url && r.data == NoBody && CarriesConfig(r, config)
  {
    Issue(Delete, url, NoBody, config)
  }

  /** `apiClient.upload(url, formData, onUploadProgress = null)`: a POST whose
      Content-Type is multipart, overriding the instance's JSON default. */
  function UploadCall(url: string, form: seq<(string, FormValue)>, onUploadProgress: bool := false): (r: Request)
    ensures r.verb == Post && r.url == url && r.data == Multipart(form)
    ensures r.headers == map[ContentTypeHeader := MultipartContentType]
    ensures r.tracksProgress == onUploadProgress
  {
    PostCall(url, Multipart(form), Config(map[ContentTypeHeader := MultipartContentType], onUploadProgress))
  }

  /** Calls made with the default arguments send the JSON content type and an
      empty object body where one is sent. */
  lemma DefaultsAreJson(url: string)
    ensures PostCall(url).data == EmptyObject && PutCall(url).data == EmptyObject && PatchCall(url).data == EmptyObject
    ensures GetCall(url).headers == DefaultHeaders() && DeleteCall(url).headers == DefaultHeaders()
    ensures PostCall(url).headers[ContentTypeHeader] == JsonContentType
    ensures UploadCall(url, []).headers[ContentTypeHeader] == MultipartContentType
  {
    assert NoConfig.headers == map[];
    assert DefaultHeaders() + map[] == DefaultHeaders();
  }

  /** Parses an Authorization value of the form `Bearer <token>`. */
  function ParseBearer(value: string): (r: Option<string>)
    ensures r.Some? <==> StartsWith(value, BearerPrefix)
    ensures r.Some? ==> value == BearerPrefix + r.value
  {
    if StartsWith(value, BearerPrefix) then Some(value[|BearerPrefix|..]) else None
  }

  /** The Authorization value for a token: the Bearer scheme, one space, the token. */
  function BearerCredential(token: string): (r: string)
    ensures ParseBearer(r) == Some(token)
    ensures |r| == |BearerPrefix| + |token|
  {
    assert (BearerPrefix + token)[..|BearerPrefix|] == BearerPrefix;
    assert (BearerPrefix + token)[|BearerPrefix|..] == token;
    BearerPrefix + token
  }

  /** The request as the request interceptor leaves it, given the stored token. */
  function WithToken(req: Request, token: Option<string>): (r: Request)
    ensures Truthy(token) ==> AuthorizationHeader in r.headers && ParseBearer(r.headers[AuthorizationHeader]) == Some(token.value)
    ensures !Truthy(token) ==> r == req
    ensures r.verb == req.verb && r.url == req.url && r.data == req.data && r.tracksProgress == req.tracksProgress
    ensures forall h :: h != AuthorizationHeader ==> (h in r.headers <==> h in req.headers)
    ensures forall h :: h != AuthorizationHeader && h in req.headers ==> r.headers[h] == req.headers[h]
  {
    if Truthy(token) then req.(headers := req.headers[AuthorizationHeader := BearerCredential(token.value)])
    else req
  }

  /** The request interceptor: reads the token from storage and, if it is truthy,
      writes the bearer credential into the request's headers. */
  method InterceptRequest(storage: LocalStorage, config: Request) returns (r: Request)
    ensures r == WithToken(config, storage.GetItem(TokenKey))
  {
    var token := storage.GetItem(TokenKey);
    r := config;
    if token.Some? && token.value != "" {
      r := r.(headers := r.headers[AuthorizationHeader := BearerCredential(token.value)]);
    }
  }

  /** The branches of the response interceptor's error handler. */
  datatype ErrorClass =
    | Unauthorized | Forbidden | NotFound | ServerFailure | OtherStatus(status: int)
    | Network | RequestSetup

  function Classify(e: HttpError): (c: ErrorClass)
    ensures c == Unauthorized <==> e.ErrorResponse? && e.status == 401
    ensures c == Forbidden <==> e.ErrorResponse? && e.status == 403
    ensures c == NotFound <==> e.ErrorResponse? && e.status == 404
    ensures c == ServerFailure <==> e.ErrorResponse? && e.status == 500
    ensures c.OtherStatus? <==> e.ErrorResponse? && e.status !in {401, 403, 404, 500}
    ensures c == Network <==> e.NoResponse?
    ensures c == RequestSetup <==> e.SetupFailure?
  {
    match e
    case ErrorResponse(status, _) =>
      if status == 401 then Unauthorized
      else if status == 403 then Forbidden
      else if status == 404 then NotFound
      else if status == 500 then ServerFailure
      else OtherStatus(status)
    case NoResponse => Network
    case SetupFailure(_) => RequestSetup
  }

  /** The outcomes after which the session no longer holds. */
  predicate Invalidates<T>(outcome: Outcome<T>) {
    outcome.Rejected? && Classify(outcome.error) == Unauthorized
  }

  /** The response interceptor: a success passes through; a 401 clears the session
      keys and sends the browser to the login page; every other error is only
      logged; every error is re-rejected as it came. */
  method InterceptResponse<T>(storage: LocalStorage, window: Window, outcome: Outcome<T>) returns (r: Outcome<T>)
    modifies storage, window
    ensures r == outcome
    ensures storage.items == if Invalidates(outcome) then old(storage.items) - SessionKeys else old(storage.items)
    ensures window.href == if Invalidates(outcome) then LoginRoute else old(window.href)
  {
    if outcome.Rejected? {
      match Classify(outcome.error)
      case Unauthorized =>
        storage.RemoveItem(TokenKey);
        storage.RemoveItem(RoleKey);
        storage.RemoveItem(UserKey);
        window.href := LoginRoute;
      case _ =>
    }
    r := outcome;
  }

  /** One call through the instance: the request interceptor, the exchange (whose
      reply is given), then the response interceptor. */
  method Send<T>(storage: LocalStorage, window: Window, call: Request, reply: Outcome<T>) returns (sent: Request, r: Outcome<T>)
    modifies storage, window
    ensures sent == WithToken(call, old(storage.GetItem(TokenKey)))
    ensures r == reply
    ensures storage.items == if Invalidates(reply) then old(storage.items) - SessionKeys else old(storage.items)
    ensures window.href == if Invalidates(reply) then LoginRoute else old(window.href)
  {
    sent := InterceptRequest(storage, call);
    r := InterceptResponse(storage, window, reply);
  }
}
