/** The token manager: it issues signed, time-limited tokens that embed an
    identity and turns a presented token back into that identity or into
    nothing. The signing serializer is a separate library whose code is not
    part of this model; it appears as a pair of function values, and the only
    thing known about it is the outcome of loading a token. */
module Manager {

  import opened Python

  /** What loading a token reports: the signed payload, a signature that
      verified but has expired, or a signature that does not verify (which
      also covers a token that is not a token at all). */
  datatype Decoded = Valid(payload: Value) | Expired | BadSignature

  /** The timed JSON signing serializer: `dumps(key, expiresIn, payload)`
      signs a payload, `loads(key, token)` checks a token at the current
      instant. */
  datatype Serializer = Serializer(
    dumps: (string, int, Value) -> string,
    loads: (string, string) -> Decoded)

  /** What the serializer is relied on for: a token it has just signed, with
      a positive lifetime, is non-empty and loads back under the same key as
      the payload that was signed. This is a hypothesis about the library,
      used only as one: in the requires of lemmas and as the premise of
      `Generate`'s and `GenerateWithDefaultLifetime`'s ensures, never as an
      axiom. */
  ghost predicate ReadsBackFresh(s: Serializer)
  {
    forall key, expiresIn, payload {:trigger s.dumps(key, expiresIn, payload)} ::
      expiresIn > 0 ==>
        s.dumps(key, expiresIn, payload) != "" &&
        s.loads(key, s.dumps(key, expiresIn, payload)) == Valid(payload)
  }

  datatype TokenManager = TokenManager(secretKey: string)

  /** Lifetime of a token, in seconds, when none is given. */
  const DefaultExpiration: int := 3600

  /** The payload a token for `name` carries: a dict with one `id` entry. */
  function IdPayload(name: Value): Value
  {
    Dict(map["id" := name])
  }

  /** Issue a token for `name`, valid for `expiration` seconds. */
  function Generate(tm: TokenManager, s: Serializer, name: Value, expiration: int): (token: string)
    ensures ReadsBackFresh(s) && expiration > 0 ==>
      token != "" && s.loads(tm.secretKey, token) == Valid(IdPayload(name))
  {
    s.dumps(tm.secretKey, expiration, IdPayload(name))
  }

  /** Issue a token for `name` without giving a lifetime: it is signed to
      last `DefaultExpiration` seconds, and it verifies to `name`. */
  function GenerateWithDefaultLifetime(tm: TokenManager, s: Serializer, name: Value): (token: string)
    ensures token == s.dumps(tm.secretKey, DefaultExpiration, IdPayload(name))
    ensures ReadsBackFresh(s) ==> Verify(tm, s, Some(token)) == Ok(name)
  {
    Generate(tm, s, name, DefaultExpiration)
  }

  /** The identity a token carries, or `None` for a missing or empty token,
      an expired one and one whose signature does not verify. A validly
      signed payload without an `id` entry raises. */
  function Verify(tm: TokenManager, s: Serializer, token: Option<string>): (r: Result<Value>)
    // the failure modes the caller cannot tell apart
    ensures !Present(token) ==> r == Ok(NoneValue)
    ensures Present(token) && s.loads(tm.secretKey, token.value) == Expired ==> r == Ok(NoneValue)
    ensures Present(token) && s.loads(tm.secretKey, token.value) == BadSignature ==> r == Ok(NoneValue)
    // a verified token yields exactly its embedded identity
    ensures Present(token) && s.loads(tm.secretKey, token.value).Valid? ==>
      var data := s.loads(tm.secretKey, token.value).payload;
      (data.Dict? && "id" in data.entries ==> r == Ok(data.entries["id"]))
    // anything other than None comes from a verified payload
    ensures r.Ok? && r.value != NoneValue ==>
      Present(token) && s.loads(tm.secretKey, token.value).Valid?
    // it raises only for a verified payload that has no `id` entry
    ensures r.Raised? <==>
      Present(token) && s.loads(tm.secretKey, token.value).Valid? &&
      !(s.loads(tm.secretKey, token.value).payload.Dict? &&
        "id" in s.loads(tm.secretKey, token.value).payload.entries)
    // KeyError for a dict without `id`, TypeError for any other payload
    ensures r.Raised? ==>
      (r.error == KeyError <==> s.loads(tm.secretKey, token.value).payload.Dict?) &&
      r.error in {KeyError, TypeError}
  {
    if !Present(token) then Ok(NoneValue)
    else
      match s.loads(tm.secretKey, token.value)
      case Expired => Ok(NoneValue)
      case BadSignature => Ok(NoneValue)
      case Valid(data) => GetItem(data, "id")
  }

  /** A token just issued for `name` verifies to `name`. */
  lemma GeneratedTokenVerifies(tm: TokenManager, s: Serializer, name: Value, expiration: int)
    requires ReadsBackFresh(s)
    requires expiration > 0
    ensures Verify(tm, s, Some(Generate(tm, s, name, expiration))) == Ok(name)
  {
  }

  /** Registering a function to store tokens is not implemented: it always
      raises and never succeeds silently. */
  function Store<F>(tm: TokenManager, f: F): (r: Result<F>)
    ensures !r.Ok? && r.error == NotImplementedError
  {
    Raised(NotImplementedError)
  }

  /** Registering a function to retrieve tokens is not implemented either. */
  function Retrieve<F>(tm: TokenManager, f: F): (r: Result<F>)
    ensures !r.Ok? && r.error == NotImplementedError
  {
    Raised(NotImplementedError)
  }
}
