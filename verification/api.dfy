/** The frontend's API helpers: base and socket URL derivation, endpoint URL
    building, header precedence, the error classification of `apiCall` and
    the library query string. The build environment and the page location
    are inputs. */
module Api {
  import opened Wrappers
  import opened Strings

  /** `VITE_BACKEND_URL`, `VITE_SOCKET_URL` and the page's protocol and host name. */
  datatype Env = Env(backendUrl: Option<string>, socketUrl: Option<string>, protocol: string, hostname: string)

  // ---------------------------------------------------------------------
  // Base URLs
  // ---------------------------------------------------------------------

  /** `API_BASE_URL`: the backend URL when set, else the relative `/api`. */
  function ApiBaseUrl(env: Env): (base: string)
    ensures Truthy(env.backendUrl) ==> base == env.backendUrl.value
    ensures !Truthy(env.backendUrl) ==> base == "/api"
    ensures base != ""
  {
    if Truthy(env.backendUrl) then env.backendUrl.value else "/api"
  }

  /** The page's own host on port 5000. */
  function FallbackSocketUrl(env: Env): string {
    env.protocol + "//" + env.hostname + ":5000"
  }

  /** `SOCKET_URL` as written: the socket URL when set, else the backend URL
      with its first `/api` removed if that leaves something, else the page's
      host on port 5000. */
  function SocketUrl(env: Env): (url: string)
    ensures url != ""
    ensures Truthy(env.socketUrl) ==> url == env.socketUrl.value
    ensures !Truthy(env.socketUrl) && env.backendUrl.Some?
            && ReplaceFirst(env.backendUrl.value, "/api", "") != "" ==>
              url == ReplaceFirst(env.backendUrl.value, "/api", "")
    ensures !Truthy(env.socketUrl) && env.backendUrl.None? ==> url == FallbackSocketUrl(env)
    ensures !Truthy(env.socketUrl) && env.backendUrl.Some?
            && ReplaceFirst(env.backendUrl.value, "/api", "") == "" ==>
              url == FallbackSocketUrl(env)
  {
    if Truthy(env.socketUrl) then env.socketUrl.value
    else if env.backendUrl.Some? && ReplaceFirst(env.backendUrl.value, "/api", "") != "" then
      ReplaceFirst(env.backendUrl.value, "/api", "")
    else FallbackSocketUrl(env)
  }

  /** A backend on a host whose name starts with `api` loses the `/api` of
      its host name instead of its path. */
  lemma SocketUrlCutsHostName()
    ensures SocketUrl(Env(Some(ApiHostBackend), None, "https:", "localhost")) == "https:/.example.com/api"
  {
    ReplaceInApiHostBackend();
  }

  lemma ReplaceInApiHostBackend()
    ensures ReplaceFirst(ApiHostBackend, "/api", "") == "https:/.example.com/api"
  {
    FirstApiInApiHostBackend();
    CutAtSeven();
  }

  lemma CutAtSeven()
    ensures ApiHostBackend[..7] + "" + ApiHostBackend[11..] == "https:/.example.com/api"
  {
  }

  const ApiHostBackend := "https://api.example.com/api"

  lemma FirstApiInApiHostBackend()
    ensures IsFirstOccurrence(ApiHostBackend, "/api", 7)
  {
    var b := ApiHostBackend;
    assert |b| == 27;
    assert b[7..11] == "/api";
    forall j: nat | j < 7 ensures !OccursAt(b, "/api", j) {
      assert b[j + 1] != 'a';
      assert b[j..j + 4][1] == b[j + 1];
    }
  }

  /** `SOCKET_URL` as evidently intended: the backend URL without its
      trailing `/api` path. */
  function SocketUrlIntended(env: Env): (url: string)
    ensures url != ""
    ensures Truthy(env.socketUrl) ==> url == env.socketUrl.value
  {
    if Truthy(env.socketUrl) then env.socketUrl.value
    else if env.backendUrl.Some? && StripApiSuffix(env.backendUrl.value) != "" then
      StripApiSuffix(env.backendUrl.value)
    else FallbackSocketUrl(env)
  }

  /** The URL without a trailing `/api`, if it has one. */
  function StripApiSuffix(url: string): string {
    if |url| >= 4 && url[|url| - 4..] == "/api" then url[..|url| - 4] else url
  }

  /** For a backend at `<origin>/api` the socket connects to `<origin>`,
      whatever the host is called. */
  lemma SocketUrlIntendedIsOrigin(origin: string, protocol: string, hostname: string)
    requires origin != ""
    ensures SocketUrlIntended(Env(Some(origin + "/api"), None, protocol, hostname)) == origin
  {
    var b := origin + "/api";
    assert b[|b| - 4..] == "/api";
    assert b[..|b| - 4] == origin;
  }

  // ---------------------------------------------------------------------
  // Endpoint URLs
  // ---------------------------------------------------------------------

  /** `endpoint.replace(/^\//, '')`: one leading slash dropped. */
  function StripLeadingSlash(endpoint: string): (r: string)
    ensures StartsWith(endpoint, "/") ==> r == endpoint[1..]
    ensures !StartsWith(endpoint, "/") ==> r == endpoint
  {
    if StartsWith(endpoint, "/") then endpoint[1..] else endpoint
  }

  /** `buildApiUrl`. With a backend URL, a slash-led endpoint loses its
      first `/api` and any other gets a slash; without one, the URL is
      relative and always under `/api`. */
  function BuildApiUrl(env: Env, endpoint: string): (url: string)
    ensures Truthy(env.backendUrl) && StartsWith(endpoint, "/") ==>
              url == env.backendUrl.value + ReplaceFirst(endpoint, "/api", "")
    ensures Truthy(env.backendUrl) && !StartsWith(endpoint, "/") ==>
              url == env.backendUrl.value + "/" + endpoint
    ensures !Truthy(env.backendUrl) && StartsWith(endpoint, "/api") ==> url == endpoint
    ensures !Truthy(env.backendUrl) && !StartsWith(endpoint, "/api") ==>
              url == "/api/" + StripLeadingSlash(endpoint)
    ensures !Truthy(env.backendUrl) ==> StartsWith(url, "/api")
  {
    if Truthy(env.backendUrl) then
      env.backendUrl.value + (if StartsWith(endpoint, "/") then ReplaceFirst(endpoint, "/api", "")
                              else "/" + endpoint)
    else if StartsWith(endpoint, "/api") then endpoint
    else "/api/" + StripLeadingSlash(endpoint)
  }

  /** The URL `apiFetch` requests: its own branch for `/api` endpoints,
      `buildApiUrl` for the rest. The special case agrees with `buildApiUrl`,
      so every endpoint is requested at the URL `buildApiUrl` gives. */
  function ApiFetchUrl(env: Env, endpoint: string): (url: string)
    ensures url == BuildApiUrl(env, endpoint)
  {
    ApiPrefixIsSlashLed(endpoint);
    if StartsWith(endpoint, "/api") then
      (if Truthy(env.backendUrl) then env.backendUrl.value + ReplaceFirst(endpoint, "/api", "") else endpoint)
    else BuildApiUrl(env, endpoint)
  }

  /** With a backend URL, an `/api/...` endpoint goes to the backend with the
      `/api` prefix exchanged for the backend's own path. */
  lemma BuildApiUrlOfApiEndpoint(env: Env, rest: string)
    requires Truthy(env.backendUrl)
    ensures BuildApiUrl(env, "/api" + rest) == env.backendUrl.value + rest
  {
    var e := "/api" + rest;
    assert StartsWith(e, "/api") && e[4..] == rest;
    assert StartsWith(e, "/") by {
      assert e[..1] == "/";
    }
    ReplaceFirstOfPrefix(e, "/api", "");
    assert ReplaceFirst(e, "/api", "") == "" + e[4..] == rest;
    assert BuildApiUrl(env, e) == env.backendUrl.value + ReplaceFirst(e, "/api", "");
  }

  /** Without a backend URL, `x` and `/x` name the same relative endpoint. */
  lemma RelativeEndpointSlashIrrelevant(env: Env, endpoint: string)
    requires !Truthy(env.backendUrl)
    requires !StartsWith(endpoint, "/") && !StartsWith("/" + endpoint, "/api")
    ensures BuildApiUrl(env, "/" + endpoint) == BuildApiUrl(env, endpoint) == "/api/" + endpoint
  {
    var slashed := "/" + endpoint;
    assert StartsWith(slashed, "/") by {
      assert slashed[..1] == "/";
    }
    assert slashed[1..] == endpoint;
    ApiPrefixIsSlashLed(endpoint);
  }

  /** Helper: an `/api` prefix is slash-led. */
  lemma ApiPrefixIsSlashLed(s: string)
    ensures StartsWith(s, "/api") ==> StartsWith(s, "/")
  {
    if StartsWith(s, "/api") {
      assert s[..1] == s[..4][..1];
    }
  }

  // ---------------------------------------------------------------------
  // Headers
  // ---------------------------------------------------------------------

  type Headers = map<string, string>

  /** `getAuthHeaders`: a bearer header when a token is stored. */
  function AuthHeaders(stored: Option<string>): (h: Headers)
    ensures Truthy(stored) ==> h == map["Authorization" := "Bearer " + stored.value]
    ensures !Truthy(stored) ==> h == map[]
  {
    if Truthy(stored) then map["Authorization" := "Bearer " + stored.value] else map[]
  }

  /** The headers of `apiFetch` and `apiCall`: the caller's override the
      stored token's, which override the default content type. */
  function RequestHeaders(stored: Option<string>, caller: Headers): (h: Headers)
    ensures h.Keys == caller.Keys + AuthHeaders(stored).Keys + {"Content-Type"}
    ensures forall k :: k in caller ==> h[k] == caller[k]
    ensures forall k :: k !in caller && k in AuthHeaders(stored) ==> h[k] == AuthHeaders(stored)[k]
    ensures "Content-Type" !in caller ==> h["Content-Type"] == "application/json"
  {
    map["Content-Type" := "application/json"] + AuthHeaders(stored) + caller
  }

  /** A request carries the stored token exactly when one is stored and the
      caller did not supply its own `Authorization`. */
  lemma BearerSentIffStoredAndNotOverridden(stored: Option<string>, caller: Headers)
    requires "Authorization" !in caller
    ensures "Authorization" in RequestHeaders(stored, caller) <==> Truthy(stored)
    ensures Truthy(stored) ==> RequestHeaders(stored, caller)["Authorization"] == "Bearer " + stored.value
  {
  }

  // ---------------------------------------------------------------------
  // apiCall
  // ---------------------------------------------------------------------

  /** The error classes `apiCall` rejects with. */
  datatype ApiError = VisibilityError(message: string) | NotFoundError(message: string)
                    | GenericError(message: string)

  /** A response body: not JSON, or JSON with an optional `message` field and the rest. */
  datatype Json<P> = Unparseable(reason: string) | Parsed(message: Option<string>, payload: P)

  /** What `fetch` produced: a rejection, or a response. */
  datatype HttpReply<P> = FetchRejected(reason: string) | HttpResponse(ok: bool, status: nat, body: Json<P>)

  /** The URL `apiCall` requests: the base URL followed by the endpoint as given. */
  function ApiCallUrl(env: Env, endpoint: string): (url: string)
    ensures StartsWith(url, ApiBaseUrl(env)) && url[|ApiBaseUrl(env)|..] == endpoint
  {
    ApiBaseUrl(env) + endpoint
  }

  /** For a slash-led endpoint that mentions no `/api`, `apiCall` and
      `apiFetch` request the same URL, with or without a backend URL. */
  lemma ApiCallUrlAgreesWithBuildApiUrl(env: Env, endpoint: string)
    requires StartsWith(endpoint, "/") && IndexOf(endpoint, "/api").None?
    ensures ApiCallUrl(env, endpoint) == BuildApiUrl(env, endpoint)
  {
    assert !OccursAt(endpoint, "/api", 0);
    assert !StartsWith(endpoint, "/api");
    assert endpoint == "/" + endpoint[1..];
  }

  /** The `message` of an error body, if there is a truthy one. */
  function ErrorMessage<P>(body: Json<P>): Option<string> {
    if body.Parsed? && Truthy(body.message) then body.message else None
  }

  const NetworkErrorPrefix := "Network error: "

  /** `apiCall`'s outcome. A 403 is a visibility error and a 404 a not-found
      error, both passed through; every other failure, including a failed
      fetch or an unparseable success body, is re-wrapped as a network error. */
  function ApiCall<P>(reply: HttpReply<P>): (r: Result<P, ApiError>)
    ensures r.Success? <==> reply.HttpResponse? && reply.ok && reply.body.Parsed?
    ensures r.Success? ==> r.value == reply.body.payload
    ensures r.Failure? && r.error.VisibilityError? <==> reply.HttpResponse? && !reply.ok && reply.status == 403
    ensures r.Failure? && r.error.NotFoundError? <==> reply.HttpResponse? && !reply.ok && reply.status == 404
    ensures r.Failure? && r.error.GenericError? ==> StartsWith(r.error.message, NetworkErrorPrefix)
    ensures reply.HttpResponse? && !reply.ok && reply.status != 403 && reply.status != 404 ==>
              r == Failure(GenericError(NetworkErrorPrefix +
                     ErrorMessage(reply.body).GetOr("HTTP error " + NatToString(reply.status))))
    ensures reply.HttpResponse? && !reply.ok && reply.status == 403 ==>
              r == Failure(VisibilityError(ErrorMessage(reply.body).GetOr("Access denied")))
    ensures reply.HttpResponse? && !reply.ok && reply.status == 404 ==>
              r == Failure(NotFoundError(ErrorMessage(reply.body).GetOr("Resource not found")))
  {
    match reply
    case FetchRejected(reason) => Failure(GenericError(NetworkErrorPrefix + reason))
    case HttpResponse(ok, status, body) =>
      if !ok then
        var message := ErrorMessage(body);
        if status == 403 then Failure(VisibilityError(message.GetOr("Access denied")))
        else if status == 404 then Failure(NotFoundError(message.GetOr("Resource not found")))
        else Failure(GenericError(NetworkErrorPrefix + message.GetOr("HTTP error " + NatToString(status))))
      else
        match body
        case Parsed(_, payload) => Success(payload)
        case Unparseable(reason) => Failure(GenericError(NetworkErrorPrefix + reason))
  }

  /** The error classes a `throw` inside `apiCall`'s `try` block uses. */
  datatype ThrownKind = ThrownVisibility | ThrownNotFound | ThrownPlain

  datatype Thrown = Thrown(kind: ThrownKind, message: string)

  /** The `try` block of `apiCall` alone: the parsed body, or what it throws.
      A rejected `fetch` and an unparseable body throw plain errors. */
  function TryBlock<P>(reply: HttpReply<P>): Result<P, Thrown> {
    match reply
    case FetchRejected(reason) => Failure(Thrown(ThrownPlain, reason))
    case HttpResponse(ok, status, body) =>
      if ok then
        (match body
         case Parsed(_, payload) => Success(payload)
         case Unparseable(reason) => Failure(Thrown(ThrownPlain, reason)))
      else if status == 403 then Failure(Thrown(ThrownVisibility, ErrorMessage(body).GetOr("Access denied")))
      else if status == 404 then Failure(Thrown(ThrownNotFound, ErrorMessage(body).GetOr("Resource not found")))
      else Failure(Thrown(ThrownPlain, ErrorMessage(body).GetOr("HTTP error " + NatToString(status))))
  }

  /** The `catch` block of `apiCall`: the two special classes pass through,
      anything else is re-thrown as a network error. */
  function CatchBlock(t: Thrown): ApiError {
    match t.kind
    case ThrownVisibility => VisibilityError(t.message)
    case ThrownNotFound => NotFoundError(t.message)
    case ThrownPlain => GenericError(NetworkErrorPrefix + t.message)
  }

  /** `apiCall` is its `try` block followed by its `catch` block. */
  lemma ApiCallIsTryThenCatch<P>(reply: HttpReply<P>)
    ensures ApiCall(reply) == match TryBlock(reply)
                              case Success(v) => Success(v)
                              case Failure(t) => Failure(CatchBlock(t))
  {
  }

  /** The catch block never turns a special error into a network error, and a
      network error always carries the prefix; so the error class of a failed
      call tells whether the server refused (403, 404) or something else failed. */
  lemma CatchKeepsSpecialClasses(t: Thrown)
    ensures CatchBlock(t).GenericError? <==> t.kind == ThrownPlain
    ensures CatchBlock(t).message[|CatchBlock(t).message| - |t.message|..] == t.message
  {
  }

  // ---------------------------------------------------------------------
  // fetchUserLibrary
  // ---------------------------------------------------------------------

  /** The endpoint of `fetchUserLibrary`: the status filter only when given. */
  function UserLibraryEndpoint(userId: nat, status: Option<string>): (e: string)
    ensures Truthy(status) ==> e == "/anime-library/user/" + NatToString(userId) + "?status=" + status.value
    ensures !Truthy(status) ==> e == "/anime-library/user/" + NatToString(userId)
  {
    var path := "/anime-library/user/" + NatToString(userId);
    if Truthy(status) then path + "?status=" + status.value else path
  }

  /** The endpoint has a query string exactly when a status is given, and
      the user id can be read back from its path. */
  lemma UserLibraryEndpointShape(userId: nat, status: Option<string>)
    ensures '?' in UserLibraryEndpoint(userId, status) <==> Truthy(status)
    ensures var e := UserLibraryEndpoint(userId, status);
            |e| >= 20 + |NatToString(userId)|
            && AllDigits(e[20..20 + |NatToString(userId)|])
            && DigitsValue(e[20..20 + |NatToString(userId)|]) == userId
  {
    var digits := NatToString(userId);
    var path := "/anime-library/user/" + digits;
    assert |"/anime-library/user/"| == 20;
    assert path[20..] == digits;
    assert '?' !in path by {
      forall i | 0 <= i < |path| ensures path[i] != '?' {
        if i >= 20 {
          assert path[i] == digits[i - 20];
        }
      }
    }
    var e := UserLibraryEndpoint(userId, status);
    if Truthy(status) {
      assert e[|path|] == '?';
      assert e[20..20 + |digits|] == digits;
    } else {
      assert e[20..20 + |digits|] == digits;
    }
    NatToStringValue(userId);
  }
}
