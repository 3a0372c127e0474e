/** Properties that relate several steps of the authenticator: issuing a
    token and presenting it, the built-in rejection response, and the
    override semantics of a registered verify callback. */
module AuthProperties {

  import opened Python
  import opened Http
  import opened Manager
  import opened Auth

  /** A token just issued under the authenticator's key, for a truthy
      identity, lets the built-in path run the view, and the view's result is
      what the guard answers. The token manager that issued it need not be
      the authenticator's own: sharing the secret key is enough. */
  lemma FreshTokenAdmitted<A, R>(a: TokenAuth, tm: TokenManager, s: Serializer, name: Value,
                                 expiration: int, view: A -> R, args: A)
    requires ReadsBackFresh(s)
    requires a.verifyCallback.None?
    requires tm.secretKey == a.manager.secretKey
    requires expiration > 0
    requires Truthy(name)
    ensures var token := Generate(tm, s, name, expiration);
      Guard(a, s, view, args, Some(token)) ==
        Run(Ok(Ran(view(args))), [ManagerVerify(token), View])
  {
  }

  /** A fresh authenticator takes the built-in path: it accepts exactly the
      tokens that carry a truthy identity under its secret key, and it never
      calls a verify callback. */
  lemma NewUsesTokenManager(key: string, realm: Option<string>, s: Serializer, token: Option<string>)
    ensures var r := Authenticate(New(key, realm), s, token);
      (r.result.Ok? && Truthy(r.result.value) <==> Present(token) && CarriesIdentity(key, s, token.value)) &&
      forall c :: c in r.calls ==> c.ManagerVerify?
  {
  }

  /** A validly signed, unexpired token whose identity is falsy (an empty
      name, zero, null) is still refused on the built-in path. */
  lemma FalsyIdentityRefused<A, R>(a: TokenAuth, s: Serializer, name: Value,
                                   expiration: int, view: A -> R, args: A)
    requires ReadsBackFresh(s)
    requires a.verifyCallback.None?
    requires expiration > 0
    requires !Truthy(name)
    ensures var r := Guard(a, s, view, args, Some(Generate(a.manager, s, name, expiration)));
      View !in r.calls && ErrorCallback in r.calls
  {
  }

  /** A fresh authenticator answers a request without a token with a 401
      whose only header is the challenge naming its realm, and no
      verification of any kind takes place. */
  lemma MissingTokenChallenged<A, R>(key: string, realm: Option<string>, s: Serializer,
                                     view: A -> R, args: A, header: Option<string>)
    requires !Present(header)
    ensures var a := New(key, realm);
      var r := Guard(a, s, view, args, header);
      r == Run(Ok(Denied(DefaultRejection(a.realm))), [ErrorCallback]) &&
      ChallengeRealm(Lookup(DefaultRejection(a.realm).headers, ChallengeHeader).value) == Some(a.realm)
  {
  }

  /** A fresh authenticator answers a token whose signature does not verify,
      or has expired, with the same 401 challenge. */
  lemma BadTokenChallenged<A, R>(key: string, realm: Option<string>, s: Serializer,
                                 view: A -> R, args: A, token: string)
    requires token != ""
    requires s.loads(key, token) == BadSignature || s.loads(key, token) == Expired
    ensures var a := New(key, realm);
      Guard(a, s, view, args, Some(token)) ==
        Run(Ok(Denied(DefaultRejection(a.realm))), [ManagerVerify(token), ErrorCallback])
  {
  }

  /** Every rejection an authenticator gives is the same response, whatever
      the token was and whatever the serializer said about it: the response
      does not reveal why the token failed. */
  lemma RejectionsIndistinguishable<A, R>(a: TokenAuth, s1: Serializer, s2: Serializer,
                                          view: A -> R, args: A,
                                          h1: Option<string>, h2: Option<string>)
    requires Guard(a, s1, view, args, h1).result.Ok?
    requires Guard(a, s1, view, args, h1).result.value.Denied?
    requires Guard(a, s2, view, args, h2).result.Ok?
    requires Guard(a, s2, view, args, h2).result.value.Denied?
    ensures Guard(a, s1, view, args, h1).result == Guard(a, s2, view, args, h2).result
  {
  }

  /** A registered verify callback that accepts every token lets any
      non-empty token through, malformed or not, whatever the serializer
      would say; the authenticator's own token manager is never consulted. */
  lemma AcceptingCallbackOverrides<A, R>(a: TokenAuth, s: Serializer, view: A -> R, args: A,
                                         token: string)
    requires a.verifyCallback.Some?
    requires forall t :: Truthy(a.verifyCallback.value(t))
    requires token != ""
    ensures Guard(a, s, view, args, Some(token)) ==
      Run(Ok(Ran(view(args))), [VerifyCallback(Some(token)), View])
  {
  }

  /** A missing or empty token is rejected before any verification: neither
      a registered verify callback nor the token manager is asked about it. */
  lemma MissingTokenBypassesCallback<A, R>(a: TokenAuth, s: Serializer, view: A -> R, args: A,
                                           header: Option<string>)
    requires !Present(header)
    ensures forall c :: c in Guard(a, s, view, args, header).calls ==> c == ErrorCallback
    ensures View !in Guard(a, s, view, args, header).calls
  {
  }

  /** An error callback that returns its own response with its own
      challenge header has that response returned unchanged. */
  lemma OwnChallengeKept<A, R>(a: TokenAuth, s: Serializer, view: A -> R, args: A,
                               header: Option<string>, own: Response)
    requires a.errorCallback() == Resp(own)
    requires InKeys(own.headers, ChallengeHeader)
    requires Guard(a, s, view, args, header).result.Ok?
    requires Guard(a, s, view, args, header).result.value.Denied?
    ensures Guard(a, s, view, args, header).result.value.response == own
  {
  }
}
