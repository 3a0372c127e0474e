# flask-tokenauth, modelled in Dafny

A model of the decision logic of `flask_tokenauth.py`: stateless signed-token
authentication for Flask routes. Two components are modelled.

- The **token manager** issues tokens through a signing serializer and turns a
  presented token back into the identity it carries, or into `None` when the
  token is missing, empty, expired or badly signed.
- The **authenticator** guards a view. It reads the `X-Auth-Token` header and
  decides whether to trust the token, either through a registered verify
  callback (which overrides everything) or through the token manager. It then
  runs the view or answers with the error response. That response is the
  error callback's result, coerced to a 401 when it is plain text, and given a
  `WWW-Authenticate: Token realm="<realm>"` challenge unless one is already
  there.

Modules:

- `Python` (`python.dfy`): JSON-shaped values with Python truth testing,
  subscripting by a string key, exceptions, `Option` and `Result`.
- `Http` (`http.dfy`): a response, headers as an ordered list of
  (name, value) pairs, membership in the list of header names, first-match
  lookup, and `make_response` for a string.
- `Manager` (`token_manager.dfy`): the serializer as a pair of function values
  `dumps`/`loads`, with `loads` returning `Valid(payload) | Expired |
  BadSignature`. Also `generate`, `verify`, `store` and `retrieve`.
- `Auth` (`token_auth.dfy`): construction, callback registration, the wrapped
  error callback, `authenticate`, and `token_required` (`Guard`).
- `AuthProperties` (`auth_properties.dfy`): properties across several steps,
  mirroring the library's tests.

Callbacks are function values. The originals may have side effects (a verify
callback that records the current user in Flask's `g`, say). So `Authenticate`
and `Guard` also return the list of callbacks they invoked, in order. That is
what makes "the callback is never consulted" and "the view runs iff" statable.

Points where the code's behaviour is easy to misread:

- `authenticate` returns the verify callback's raw result, not a boolean. The
  guard then applies Python truth testing to it.
- The wrapper sets status 401 only when the error callback returns a string.
  A response object keeps its own status.
- `verify` does raise in one case: a validly signed payload that is not a dict
  with an `id` entry. `data['id']` then raises `KeyError` (for a dict) or
  `TypeError` (for anything else).
- `verify` returns the identity itself. An identity that is JSON `null` is
  therefore indistinguishable from failure.
- The built-in path does not record the verified identity anywhere. It only
  answers true or false.

## Model

| member | source | states |
|---|---|---|
| Python.GetItem | flask_tokenauth.py:56 | `data['id']` yields the entry of a dict that has one. It raises KeyError for a dict without the key and TypeError for any non-dict. |
| Http.InKeys | flask_tokenauth.py:102 | Header-name membership holds iff some header in the list carries exactly that name. |
| Manager.Generate | flask_tokenauth.py:42-44 | Under the serializer hypothesis, a token issued with a positive lifetime is non-empty and loads back as the `{'id': name}` payload. |
| Manager.Verify | flask_tokenauth.py:46-57 | `None` for a missing or empty token, an expired one and a badly signed one. The embedded `id` for a verified dict payload that has one. Anything other than `None` comes from a verified payload. It raises iff the verified payload has no `id` entry: KeyError for a dict, TypeError for anything else. |
| Manager.GenerateWithDefaultLifetime | flask_tokenauth.py:42-44 | Without a lifetime, the token is signed to last 3600 seconds, and under the serializer hypothesis it verifies to the name. |
| Manager.GeneratedTokenVerifies | flask_tokenauth.py:42-57 | A token just issued for a name verifies to that name (the issue/verify round trip, under the serializer hypothesis). |
| Manager.Store | flask_tokenauth.py:60-67 | Registering a store function always raises NotImplementedError and never succeeds. |
| Manager.Retrieve | flask_tokenauth.py:69-76 | Registering a retrieve function always raises NotImplementedError and never succeeds. |
| Auth.New | flask_tokenauth.py:85-93 | A new authenticator has its own token manager under the key and no verify callback. Its error callback returns "Access Denied". Its realm is the given one when non-empty, otherwise "Authentication Token Required", and so is never empty. |
| Auth.VerifyToken | flask_tokenauth.py:137-146 | Registering a verify callback (or None) replaces that callback and nothing else. |
| Auth.ErrorHandler | flask_tokenauth.py:95-106 | Registering an error callback replaces that callback and nothing else. |
| Auth.Coerce | flask_tokenauth.py:97-101 | A string result becomes exactly `make_response` of that string with its status set to 401 (that body, no headers). A response passes through unchanged. Any other object raises AttributeError at the header check. |
| Auth.AddChallenge | flask_tokenauth.py:102-103 | Body and status are untouched, and existing headers are kept as a prefix. Afterwards a challenge is always present. An existing challenge keeps its value. One header is appended iff none was there, and it is `Token realm="<realm>"`. |
| Auth.AddChallengeIdempotent | flask_tokenauth.py:102-103 | Adding the challenge twice (with any realm) equals adding it once. |
| Auth.ChallengeRealm | flask_tokenauth.py:103 | Any realm read back from a header value re-formats to exactly that value. |
| Auth.Challenge | flask_tokenauth.py:103 | The challenge value `Token realm="<realm>"` carries its realm: reading it back yields exactly the realm. |
| Auth.DefaultErrorResponse | flask_tokenauth.py:86-87 | The built-in error callback, once wrapped, answers "Access Denied" with status 401 and a single challenge header naming the realm. |
| Auth.Reject | flask_tokenauth.py:112-115 | A rejection records the error-callback call after the earlier calls, and its outcome is the wrapped error callback's: its response, or the exception it raises. |
| Auth.CallErrorCallback | flask_tokenauth.py:97-104 | The wrapped error callback raises iff the callback returns neither a string nor a response. Text yields a 401 whose only header is the realm challenge. A response keeps its status and body. It is returned unchanged if it already has a challenge; otherwise exactly the `Token realm="<realm>"` challenge is appended and nothing else. Every response it gives carries a challenge. |
| Auth.Authenticate | flask_tokenauth.py:119-135 | A registered callback decides alone for every token, even an empty one, and is the only call. On the built-in path an empty token is false with no call. Otherwise the token manager is consulted once. The answer is truthy iff the token's signature verifies, it is unexpired, and its payload's `id` is truthy. It raises only when `verify` raises, and with the same exception. |
| Auth.Guard | flask_tokenauth.py:108-117 | A missing or empty header calls only the error callback. The view runs iff authentication answered truthy, and its result is returned unchanged. A rejection returns the wrapped error callback's response, or raises what it raises. An exception from authentication propagates and nothing runs after it. The error callback runs iff the view does not (unless authentication raised). Authentication runs once, and its calls come first. After it answers, exactly one more call follows: the view if the answer is truthy, the error callback otherwise. |
| AuthProperties.FreshTokenAdmitted | test_tokenauth.py:117-123 | A freshly issued token for a truthy identity, under the same secret key, runs the view on the built-in path. The token manager is the only callback consulted before the view. |
| AuthProperties.NewUsesTokenManager | flask_tokenauth.py:92 | A fresh authenticator takes the built-in path. It accepts exactly the tokens carrying a truthy identity under its key, and it calls nothing but the token manager. |
| AuthProperties.FalsyIdentityRefused | flask_tokenauth.py:131-133 | A validly signed, unexpired token whose identity is falsy is still refused on the built-in path. |
| AuthProperties.MissingTokenChallenged | test_tokenauth.py:110-115 | A fresh authenticator answers a request without a token with "Access Denied", status 401, and a single challenge header from which the realm reads back. No verification happens. |
| AuthProperties.BadTokenChallenged | test_tokenauth.py:125-131 | A fresh authenticator answers a badly signed or expired token with the same 401 challenge, after consulting only the token manager. |
| AuthProperties.RejectionsIndistinguishable | flask_tokenauth.py:111-115 | Any two rejections by one authenticator are the same response, whatever the token and whatever the serializer said about it. |
| AuthProperties.AcceptingCallbackOverrides | test_tokenauth.py:134-162 | A verify callback that accepts everything lets any non-empty token through, malformed or not. The authenticator's own token manager is never consulted. |
| AuthProperties.MissingTokenBypassesCallback | flask_tokenauth.py:111-113 | For a missing or empty token, only the error callback is invoked. No verify callback, no token manager and no view. |
| AuthProperties.OwnChallengeKept | flask_tokenauth.py:102-104 | An error callback returning its own response with its own challenge header gets that response back unchanged. |

## Left out

- The signing serializer's internals (HMAC, JSON encoding, timestamps, constant-time comparison) belong to a separate library that is not part of this model. It appears as function values. Its round trip is the hypothesis `ReadsBackFresh`, used only as a hypothesis: in lemma requires and as the premise of `Generate`'s and `GenerateWithDefaultLifetime`'s ensures, never as an axiom.
- The serializer's other failure, a signed payload that is not JSON (which that library reports with an exception the code does not catch), is not modelled. `loads` has exactly three outcomes.
- Reading the clock and the expiry arithmetic live in the serializer. Expiry appears only as the `Expired` outcome.
- Flask and werkzeug plumbing: `request.headers.get` is replaced by the header value as an `Option<string>`. The header store's case-insensitive lookup and replacement are not modelled: names compare exactly, and the challenge is appended when no header has exactly that name.
- `make_response` for a string is modelled as status 200 with no headers. The framework's default headers (Content-Type, Content-Length) are not modelled.
- Decorator mechanics are not modelled: `functools.wraps`, and what the registering functions return (`verify_token` returns the function it was given; `error_handler` and `token_required` return the wrapper). Registration returns the updated authenticator, and `Guard` is the wrapper applied to a request.
- The per-request context `g` is not modelled. Side effects of callbacks are visible only as the recorded list of calls.
- The error callback is a value of no arguments that sees nothing of the request. In the source it is called with no arguments but may read Flask's `request` or `g`, which a verify callback can set.
- AuthProperties.RejectionsIndistinguishable: holds because the error callback cannot see the request or `g`; an error callback that reads them could answer two rejections differently.
- Responses are values. The source adds the challenge header in place to the response object the error callback returned. A callback that returns one shared response object would keep its first challenge (possibly another authenticator's realm) on every later call; `AddChallenge` always works on the returned value with the current realm.
- Callbacks and views that raise are not modelled. Callbacks are total function values.
- Arguments passed to the view are one value `args`. The error callback is called with none, as in the source.
- JSON floating-point values are not modelled.
- Manager.Generate: its contract says nothing without the serializer hypothesis, because the token is whatever the serializer returns.
- `TokenAuthError` is defined but never used.
- `example.py` is a demonstration application: its allow-list is application policy.
- `setup.py` is packaging metadata.
