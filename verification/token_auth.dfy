/** The authenticator that guards routes: it reads the token from the
    `X-Auth-Token` request header, decides whether to trust it (through an
    application callback when one is registered, through the token manager
    otherwise), and either runs the protected view or answers with the error
    response, a 401 carrying a `WWW-Authenticate` challenge.

    Every callback is a function value. Because the callbacks of the original
    may have side effects (recording the current user, for one), each step
    also reports which callbacks it invoked, in order. */
module Auth {

  import opened Python
  import opened Http
  import opened Manager

  /** What an error callback may return: plain text, a response object, or
      any other object. */
  datatype Returned = Text(text: string) | Resp(response: Response) | OtherObject

  /** A callback invocation, recorded in the order it happened. */
  datatype Call =
    | VerifyCallback(presented: Option<string>)  // the application's verify callback
    | ManagerVerify(token: string)           // the token manager's verify
    | ErrorCallback                          // the (wrapped) error callback
    | View                                   // the protected view itself

  /** A result together with the callbacks invoked to compute it. */
  datatype Run<+T> = Run(result: Result<T>, calls: seq<Call>)

  /** What a guarded view answers: the view's own result, or the error
      response. */
  datatype Reply<+R> = Ran(value: R) | Denied(response: Response)

  datatype TokenAuth = TokenAuth(
    manager: TokenManager,
    realm: string,
    verifyCallback: Option<Option<string> -> Value>,
    errorCallback: () -> Returned)

  const DefaultRealm: string := "Authentication Token Required"
  const AccessDenied: string := "Access Denied"
  const ChallengeHeader: string := "WWW-Authenticate"
  const Unauthorized: int := 401

  /** The fixed text around the realm in a challenge value. */
  const ChallengePrefix: string := "Token realm=\""
  const ChallengeSuffix: string := "\""

  /** The challenge header's value for a realm; the realm reads back out of it. */
  function Challenge(realm: string): (v: string)
    ensures ChallengeRealm(v) == Some(realm)
  {
    var v := ChallengePrefix + realm + ChallengeSuffix;
    assert v[..|ChallengePrefix|] == ChallengePrefix;
    assert v[|ChallengePrefix|..|v| - 1] == realm;
    v
  }

  /** Reads the realm back out of a challenge value, if it is one. */
  function ChallengeRealm(v: string): (r: Option<string>)
    ensures r.Some? ==> v == ChallengePrefix + r.value + ChallengeSuffix
  {
    var prefix := ChallengePrefix;
    if |v| >= |prefix| + 1 && v[..|prefix|] == prefix && v[|v| - 1] == '"' then
      var realm := v[|prefix|..|v| - 1];
      assert v == prefix + realm + ChallengeSuffix;
      Some(realm)
    else None
  }

  /** The built-in error callback: plain text. */
  function DefaultErrorHandler(): Returned
  {
    Text(AccessDenied)
  }

  /** The response the built-in error callback produces, once wrapped, for
      an authenticator with this realm. */
  function DefaultRejection(realm: string): Response
  {
    Response(AccessDenied, Unauthorized, [(ChallengeHeader, Challenge(realm))])
  }

  /** Whatever the realm and the rest of the authenticator, the built-in
      error callback, once wrapped, answers "Access Denied" with status 401
      and a single challenge header naming the realm. */
  lemma DefaultErrorResponse(a: TokenAuth)
    requires a.errorCallback == DefaultErrorHandler
    ensures CallErrorCallback(a) == Ok(DefaultRejection(a.realm))
  {
  }

  /** Register a verify callback, or `None` to go back to the built-in check. */
  function VerifyToken(a: TokenAuth, f: Option<Option<string> -> Value>): (a': TokenAuth)
    ensures a'.verifyCallback == f
    ensures a'.manager == a.manager && a'.realm == a.realm && a'.errorCallback == a.errorCallback
  {
    a.(verifyCallback := f)
  }

  /** Register an error callback; it is wrapped when called (see CallErrorCallback). */
  function ErrorHandler(a: TokenAuth, f: () -> Returned): (a': TokenAuth)
    ensures a'.errorCallback == f
    ensures a'.manager == a.manager && a'.realm == a.realm && a'.verifyCallback == a.verifyCallback
  {
    a.(errorCallback := f)
  }

  /** A new authenticator: its own token manager under the secret key, the
      built-in verification, and the built-in error callback. A missing or
      empty realm falls back to the default. */
  function New(secretKey: string, realm: Option<string>): (a: TokenAuth)
    ensures a.manager.secretKey == secretKey
    ensures a.verifyCallback.None?
    ensures a.errorCallback() == Text(AccessDenied)
    ensures Present(realm) ==> a.realm == realm.value
    ensures !Present(realm) ==> a.realm == DefaultRealm
    ensures a.realm != ""
  {
    var initial := TokenAuth(
      TokenManager(secretKey),
      if Present(realm) then realm.value else DefaultRealm,
      None,
      DefaultErrorHandler);
    ErrorHandler(VerifyToken(initial, None), DefaultErrorHandler)
  }

  /** The first half of the error-callback wrapper: a string becomes a
      response with status 401; a response passes through; anything else
      has no headers to inspect and raises AttributeError. */
  function Coerce(res: Returned): (r: Result<Response>)
    ensures res.Text? ==> r.Ok? && r.value.body == res.text && r.value.status == Unauthorized
    ensures res.Text? ==> r == Ok(MakeResponse(res.text).(status := Unauthorized))
    ensures res.Resp? ==> r == Ok(res.response)
    ensures res.OtherObject? ==> r == Raised(AttributeError)
  {
    match res
    case Text(s) => Ok(MakeResponse(s).(status := Unauthorized))
    case Resp(response) => Ok(response)
    case OtherObject => Raised(AttributeError)
  }

  /** The second half of the wrapper: add the challenge header for the realm
      unless the response already has one. */
  function AddChallenge(res: Response, realm: string): (r: Response)
    // only the headers change, and only by appending
    ensures r.body == res.body && r.status == res.status
    ensures res.headers <= r.headers
    // afterwards there is always a challenge
    ensures InKeys(r.headers, ChallengeHeader)
    // one that was there is kept as it was
    ensures InKeys(res.headers, ChallengeHeader) ==>
      Lookup(r.headers, ChallengeHeader) == Lookup(res.headers, ChallengeHeader)
    // a header is added exactly when none was there, and it names the realm
    ensures |r.headers| == |res.headers| + 1 <==> !InKeys(res.headers, ChallengeHeader)
    ensures |r.headers| <= |res.headers| + 1
    ensures !InKeys(res.headers, ChallengeHeader) ==>
      r.headers[|res.headers|] == (ChallengeHeader, Challenge(realm)) &&
      Lookup(r.headers, ChallengeHeader) == Some(Challenge(realm))
  {
    if InKeys(res.headers, ChallengeHeader) then res
    else
      var headers := res.headers + [(ChallengeHeader, Challenge(realm))];
      assert headers[|res.headers|].0 == ChallengeHeader;
      LookupConcat(res.headers, [(ChallengeHeader, Challenge(realm))], ChallengeHeader);
      res.(headers := headers)
  }

  /** Adding the challenge twice is the same as adding it once. */
  lemma AddChallengeIdempotent(res: Response, realm: string, realm': string)
    ensures AddChallenge(AddChallenge(res, realm), realm') == AddChallenge(res, realm)
  {
  }

  /** The registered error callback as the guard calls it: its result
      coerced to a response and given the challenge header. */
  function CallErrorCallback(a: TokenAuth): (r: Result<Response>)
    ensures r.Raised? <==> a.errorCallback().OtherObject?
    ensures r.Raised? ==> r.error == AttributeError
    ensures a.errorCallback().Text? ==>
      r.Ok? && r.value.status == Unauthorized && r.value.body == a.errorCallback().text &&
      r.value.headers == [(ChallengeHeader, Challenge(a.realm))]
    ensures a.errorCallback().Resp? ==>
      var own := a.errorCallback().response;
      r.Ok? && r.value.status == own.status && r.value.body == own.body &&
      own.headers <= r.value.headers &&
      (InKeys(own.headers, ChallengeHeader) ==> r.value == own)
    ensures a.errorCallback().Resp? && !InKeys(a.errorCallback().response.headers, ChallengeHeader) ==>
      r.Ok? && r.value.headers ==
        a.errorCallback().response.headers + [(ChallengeHeader, Challenge(a.realm))]
    ensures r.Ok? ==> Lookup(r.value.headers, ChallengeHeader).Some?
  {
    match Coerce(a.errorCallback())
    case Ok(res) => Ok(AddChallenge(res, a.realm))
    case Raised(e) => Raised(e)
  }

  /** A token carries a truthy identity under the key: its signature verifies,
      it has not expired, and its payload's `id` entry is truthy. This is the
      built-in acceptance rule stated directly in terms of the serializer. */
  ghost predicate CarriesIdentity(key: string, s: Serializer, token: string)
  {
    var d := s.loads(key, token);
    d.Valid? && d.payload.Dict? && "id" in d.payload.entries && Truthy(d.payload.entries["id"])
  }

  /** Decide whether a token is trusted. */
  function Authenticate(a: TokenAuth, s: Serializer, token: Option<string>): (r: Run<Value>)
    // a registered callback decides alone, for any token, even an empty one
    ensures a.verifyCallback.Some? ==>
      r == Run(Ok(a.verifyCallback.value(token)), [VerifyCallback(token)])
    // the built-in path never calls the application's callback
    // (a consequence of the two clauses that follow)
    ensures a.verifyCallback.None? ==> VerifyCallback(token) !in r.calls
    // an empty token is rejected without consulting the token manager
    ensures a.verifyCallback.None? && !Present(token) ==> r == Run(Ok(Bool(false)), [])
    // otherwise the token manager is consulted once, and the answer is a boolean
    ensures a.verifyCallback.None? && Present(token) ==> r.calls == [ManagerVerify(token.value)]
    ensures a.verifyCallback.None? && r.result.Ok? ==> r.result.value.Bool?
    // accepted exactly when the token carries a truthy identity
    ensures a.verifyCallback.None? ==>
      (r.result.Ok? && Truthy(r.result.value) <==>
       Present(token) && CarriesIdentity(a.manager.secretKey, s, token.value))
    // it raises only as the token manager does, with the token manager's exception
    ensures a.verifyCallback.None? ==>
      (r.result.Raised? <==> Present(token) && Verify(a.manager, s, token).Raised?)
    ensures a.verifyCallback.None? && r.result.Raised? ==>
      Verify(a.manager, s, token) == Raised(r.result.error)
  {
    if a.verifyCallback.Some? then
      Run(Ok(a.verifyCallback.value(token)), [VerifyCallback(token)])
    else if !Present(token) then
      Run(Ok(Bool(false)), [])
    else
      var calls := [ManagerVerify(token.value)];
      match Verify(a.manager, s, token)
      case Raised(e) => Run(Raised(e), calls)
      case Ok(name) => Run(Ok(Bool(Truthy(name))), calls)
  }

  /** The error callback's response as a guard reply, with its call recorded. */
  function Reject(a: TokenAuth, before: seq<Call>): (r: Run<Response>)
    ensures r.calls == before + [ErrorCallback]
    ensures r.result == CallErrorCallback(a)
  {
    Run(CallErrorCallback(a), before + [ErrorCallback])
  }

  /** A rejection as a guard reply. */
  function Denial<R>(rejection: Run<Response>): Run<Reply<R>>
  {
    match rejection.result
    case Ok(res) => Run(Ok(Denied(res)), rejection.calls)
    case Raised(e) => Run(Raised(e), rejection.calls)
  }

  /** A view guarded by the authenticator, answering a request whose
      `X-Auth-Token` header is `header` (`None` when it is absent). */
  function Guard<A, R>(a: TokenAuth, s: Serializer, view: A -> R, args: A, header: Option<string>): (r: Run<Reply<R>>)
    // a missing or empty header goes straight to the error callback
    ensures !Present(header) ==> r.calls == [ErrorCallback]
    // the view runs exactly when authentication answered something truthy
    ensures View in r.calls <==>
      Present(header) && Authenticate(a, s, header).result.Ok? &&
      Truthy(Authenticate(a, s, header).result.value)
    // and then its result is passed through unchanged
    ensures View in r.calls ==> r.result == Ok(Ran(view(args)))
    ensures r.result.Ok? && r.result.value.Ran? ==> View in r.calls
    // every denial is the wrapped error callback's response
    ensures r.result.Ok? && r.result.value.Denied? ==>
      CallErrorCallback(a) == Ok(r.result.value.response)
    // a rejection returns what the wrapped error callback returns, or raises what it raises
    ensures ErrorCallback in r.calls && CallErrorCallback(a).Ok? ==>
      r.result == Ok(Denied(CallErrorCallback(a).value))
    ensures ErrorCallback in r.calls && CallErrorCallback(a).Raised? ==>
      r.result == Raised(CallErrorCallback(a).error)
    // an exception from authentication propagates, and nothing runs after it
    ensures Present(header) && Authenticate(a, s, header).result.Raised? ==>
      r == Run(Raised(Authenticate(a, s, header).result.error), Authenticate(a, s, header).calls)
    // after authentication answers, exactly one more call: the view or the error callback
    ensures Present(header) && Authenticate(a, s, header).result.Ok? ==>
      r.calls == Authenticate(a, s, header).calls +
        [if Truthy(Authenticate(a, s, header).result.value) then View else ErrorCallback]
    // consequences of the clauses above, stated for the reader:
    // the error callback runs exactly when the view does not, unless authentication raised
    ensures ErrorCallback in r.calls <==>
      !(View in r.calls) && !(Present(header) && Authenticate(a, s, header).result.Raised?)
    // when the header is present, authentication is what happens first
    ensures Present(header) ==>
      |Authenticate(a, s, header).calls| < |r.calls| ||
      Authenticate(a, s, header).result.Raised?
    ensures Present(header) ==>
      Authenticate(a, s, header).calls <= r.calls
  {
    if !Present(header) then Denial(Reject(a, []))
    else
      var auth := Authenticate(a, s, header);
      match auth.result
      case Raised(e) => Run(Raised(e), auth.calls)
      case Ok(v) =>
        if !Truthy(v) then Denial(Reject(a, auth.calls))
        else Run(Ok(Ran(view(args))), auth.calls + [View])
  }
}
