# N-Auth PHP client, modelled in Dafny

This project models the request-shaping core of a small PHP client for the
N-Auth authorization service.

- `NAuth` (src/NAuth.php) holds an application's client id, client secret,
  redirect URI and environment tag. It offers one method per service
  endpoint: login URL, token exchange, user info, logout and token
  introspection.
- `UserManager::getNordstromAuthLoginUrl` (src/UserManager.php) builds an
  `NAuth` from the process environment, asks for the login URL and unwraps the
  `{status, data}` envelope of the answer.

Every HTTP call is modelled as the `Request` value it would send: method, URL,
query map, header map and JSON-body map. What the transport hands back is an
input of the operation. `login`, `getUserInfo` and `logout` take the response
body and return it unchanged. `token` and `introspect` take the response body
and curl's error string. The helper takes the decoded JSON answer.

Files:

- `wrappers.dfy`: the `Option` and `Result` types.
- `php.dfy`: the parts of PHP's value semantics the client depends on. These
  are `empty()`, the string that `.` makes of null, false, true and strings,
  and strings as byte sequences.
- `base64.dfy`: the Base64 encoding of section 4 of RFC 4648, which
  `base64_encode` computes. A strict decoder sits beside it, and the two are
  proved to be inverse in both directions. Lemmas prove the test vectors of
  section 10 of RFC 4648.
- `nauth.dfy`: the `NAuth` class.
  - The credentials are `const` fields, so no method can write them after
    construction.
  - The bearer token is the one mutable field.
  - A throwing constructor becomes the static method `Create`, which returns a
    `Result`.
  - The pure request builders (`LoginQuery`, `BasicCredentials`, ...) specify
    the methods.
- `user_manager.dfy`: the helper as written, the helper as evidently intended,
  and the lemmas relating the two.

The model follows the code in these places, which are easy to miss:

- A string argument of "0" is PHP-empty. The constructor rejects it, and
  `login` drops a state of "0".
- The default `is_implicit` is the string "false", not a boolean.
- `getUserInfo` raises no error when no token was ever stored. It sends
  "Bearer " with nothing after it.
- `logout` sends no authorization header and no body (see Findings).
- The helper returns "" on every successful call (see Findings).

## Model

| member | source | states |
|---|---|---|
| Php.Empty | src/NAuth.php:31 | `empty()` holds for exactly four argument values: null, false, "" and "0" (the same test at lines 37, 43, 49, 82 and 151) |
| Php.ToStr | src/NAuth.php:139 | `.` turns null and false into "", true into "1" and keeps a string; a value is `empty()` exactly when its string is "" or "0" |
| Php.BytesOfConcat | src/NAuth.php:139 | the bytes of a `.` concatenation are the bytes of the left part followed by those of the right part |
| Base64.SymbolValue | src/NAuth.php:139 | every alphabet character has a 6-bit value, and the alphabet table maps that value back to the character |
| Base64.Encode | src/NAuth.php:139 | the encoding of n bytes is 4·⌈n/3⌉ characters long |
| Base64.EncodeAlphabet | src/NAuth.php:139 | every character of an encoding is an alphabet symbol or '=' |
| Base64.DecodeEncode | src/NAuth.php:139 | decoding the encoding of any byte string gives that byte string back |
| Base64.EncodeDecode | src/NAuth.php:139 | every string the strict decoder accepts is exactly the encoding of the bytes it decodes to |
| Base64.EncodeInjective | src/NAuth.php:139 | two byte strings with the same encoding are equal |
| Base64.TestVectorsOneGroup | src/NAuth.php:139 | "", "f", "fo" and "foo" encode to "", "Zg==", "Zm8=" and "Zm9v" (section 10 of RFC 4648) |
| Base64.TestVectorFoob | src/NAuth.php:139 | "foob" encodes to "Zm9vYg==" |
| Base64.TestVectorFooba | src/NAuth.php:139 | "fooba" encodes to "Zm9vYmE=" |
| Base64.TestVectorFoobar | src/NAuth.php:139 | "foobar" encodes to "Zm9vYmFy" |
| NAuthClient.CheckCredentials | src/NAuth.php:31-53 | construction succeeds exactly when none of the four arguments is PHP-empty, and then keeps all four as given |
| NAuthClient.CheckNamesFirstEmpty | src/NAuth.php:31-53 | a failure names the first PHP-empty argument in the order client_id, client_secret, redirect_uri, env: all earlier ones are non-empty, and the message is "Invalid <name> parameter" |
| NAuthClient.NAuth.Create | src/NAuth.php:29-54 | the constructor with its early throws agrees with `CheckCredentials`: the same message on failure, and on success a client holding the four arguments and no bearer token |
| NAuthClient.NAuth.constructor | src/NAuth.php:34-52 | a client built from valid arguments holds exactly those four values; they are `const`, so no later call changes them |
| NAuthClient.PlainCredentials | src/NAuth.php:139 | the bytes of client_id ":" secret are the id's bytes, then ':', then the secret's bytes |
| NAuthClient.BasicCredentials | src/NAuth.php:137-140 | the Basic value decodes, under strict Base64, to exactly the bytes of client_id ":" secret: the id's bytes, then ':', then the secret's bytes |
| NAuthClient.NAuth.GetAuthorizationHeader | src/NAuth.php:137-140 | the header value decodes to the bytes of the stored client_id ":" secret; it reads only the fixed credentials, so every call gives the same value |
| NAuthClient.LoginQuery | src/NAuth.php:71-88 | the query always holds client_id, redirect_uri and env from the client and claims and is_implicit from the arguments; return_id, state and skip_iwa each appear exactly when their argument is not PHP-empty; no other key appears |
| NAuthClient.LoginDefaultsQuery | src/NAuth.php:68-76 | with the defaults, the query is exactly the five mandatory keys, with is_implicit the string "false" |
| NAuthClient.StateZeroIsDropped | src/NAuth.php:82-84 | a state of "0" is PHP-empty and never reaches the query |
| NAuthClient.LoginRequest | src/NAuth.php:90-93 | the login call is a GET to v1/loginurl with no headers or body, and its query holds every mandatory key and no key outside the eight login keys |
| NAuthClient.NAuth.Login | src/NAuth.php:68-96 | the step-by-step query construction sends exactly `LoginRequest`; the stored client_id, redirect_uri and env in the query are non-empty, as the constructor guarantees; the response body is returned unchanged |
| NAuthClient.NAuth.Token | src/NAuth.php:104-131 | a POST to v1/token with the Basic, no-cache and JSON headers, where the Basic value decodes to the credentials; body keys exactly code, redirect_uri and env, the last two non-empty; a non-empty curl error is returned instead of the response body, otherwise the body is returned unchanged |
| NAuthClient.NAuth.GetBearerToken | src/NAuth.php:172-175 | returns the stored token; as a function it cannot change the client |
| NAuthClient.NAuth.GetUserInfo | src/NAuth.php:149-167 | a non-empty token replaces the stored one and an empty one keeps it; the GET carries "Bearer " followed by the stored token and the query exactly {env, client_id}, both non-empty; the credentials stay valid; the response body is returned unchanged |
| NAuthClient.UserInfoTokenLifecycle | src/NAuth.php:149-164 | starting with no token, the header is "Bearer " without an error; after "abc" it is "Bearer abc"; a later empty token reuses "abc" |
| NAuthClient.NAuth.Logout | src/NAuth.php:181-193 | as written, the logout POST carries no authorization header and no body, so it differs from the request the method evidently meant to send; the response body is returned unchanged |
| NAuthClient.IntendedLogoutRequest | src/NAuth.php:181-193 | the evidently intended logout request carries Basic credentials that decode to client_id ":" secret, and a body of exactly the stored token and env |
| NAuthClient.NAuth.Introspect | src/NAuth.php:200-227 | a POST to v1/introspect with the Basic, no-cache and JSON headers, where the Basic value decodes to the credentials; body keys exactly token and env, env non-empty; a non-empty curl error replaces the response body |
| NAuthClient.RepeatedIntrospect | src/NAuth.php:200-227 | introspection changes no state: the same arguments give the same request twice, and its Authorization header decodes to the client's credentials |
| UserManager.NatToDecimal | src/UserManager.php:19 | the decimal digits of a natural number are non-empty, have no leading zero, and read back as the number |
| UserManager.IntToDecimal | src/UserManager.php:19 | an integer converted for a `string` return is an optional '-' followed by a non-empty run of digits with no leading zero (0 is "0"), which reads back as its magnitude |
| UserManager.ReturnedString | src/UserManager.php:19 | a returned string is kept unchanged; a type error occurs exactly for null, arrays and objects |
| UserManager.GetNordstromAuthLoginUrl | src/UserManager.php:19-33 | as written: fails exactly when one of the four configuration values is PHP-empty, with the constructor's message; otherwise it sends the login request built from the claims alone and returns "" |
| UserManager.HelperFailsOnFirstEmpty | src/UserManager.php:21-22 | an empty configuration value makes the helper fail with "Invalid <name> parameter" for the first empty one, in the constructor's order |
| UserManager.HelperLoginQuery | src/UserManager.php:24 | the helper's login request is a GET whose query is exactly the three configured values, the configured claims and is_implicit "false" |
| UserManager.LooselyEquals200 | src/UserManager.php:28 | `== 200` holds for exactly true, the integer 200, and the strings "200" after any number of zeros, with or without a leading '+' |
| UserManager.IntegerString200Iff | src/UserManager.php:28 | a string compares equal to 200 as an integer string exactly when it is zeros followed by "200", with an optional '+' |
| UserManager.StatusOk | src/UserManager.php:28 | the check passes exactly when the answer is an object whose status loosely equals 200; the `isset` part never changes the outcome, because null never equals 200 |
| UserManager.StatusPassCases | src/UserManager.php:28 | the status check passes for 200, "200" and true |
| UserManager.StatusPassesPadded | src/UserManager.php:28 | the status check passes for "+0200" |
| UserManager.StatusFailCases | src/UserManager.php:28 | the status check fails for null, 201, "OK", false and an answer that is not an object |
| UserManager.AsWrittenIgnoresAnswer | src/UserManager.php:26-32 | as written, the result does not depend on the answer at all |
| UserManager.IntendedLoginUrl | src/UserManager.php:28-30 | as intended: the constructor's failures pass through; without a passing status check the result is ""; with one it is `data` (a string stays itself, null, arrays and objects raise the return type error) |
| UserManager.IntendedIgnoresDataUnlessOk | src/UserManager.php:28-30 | without a passing status check, the intended helper behaves as if there were no answer at all |
| UserManager.AsWrittenAgreesIff | src/UserManager.php:26-32 | the helper as written agrees with the intended one exactly when construction fails or the intended URL is "" |
| UserManager.TypoLosesUrl | src/UserManager.php:26-32 | for any valid configuration and a status-200 answer carrying a non-empty URL, the intended helper returns the URL and the as-written one returns "" |

## Left out

- HTTP transport: Guzzle and curl, base URL resolution, timeouts, the redirect limit, TLS and the HTTP version. Each call is the `Request` value it would send. The response body and curl's error string are parameters.
- Guzzle's exceptions for non-2xx responses and connection failures in `login`, `getUserInfo` and `logout`. The model has no transport to fail.
- JSON serialisation of the POST bodies and the parsing of the login answer. Bodies are maps, and the answer is an input that is already decoded.
- The order of keys in the query and the body. Maps have no order.
- `getenv`: the helper's five configuration values are parameters.
- PHP integers, floats and arrays as argument values. Arguments are null, booleans or strings, which covers what `getenv` and the defaults produce.
- UserManager.LooselyEquals200: follows PHP 8 string-to-number comparison, but accepts only integer spellings of 200, with an optional '+' and leading zeros. PHP 8 also accepts leading and trailing whitespace, a decimal point and exponents ("200.0", "2e2"), and JSON floats. These are not modelled. Under PHP 7, leading-numeric strings such as "200abc" also equal 200. The model does not cover that either.
- UserManager.ReturnedString: JSON floats are not modelled, so the string PHP makes of a float `data` is not covered.
- Base64.Decode: the decoder rejects whitespace and missing padding, which lenient decoders accept. It serves only to state that the encoding loses nothing.
- tests/Functional/UserManagerTest.php: it asserts nothing, so it contributes no property.

## Findings

| source | as written | input that shows it | evidently intended | confidence | as-written member | corrected member |
|---|---|---|---|---|---|---|
| src/UserManager.php:26-32 | the status check assigns `data` to `$nordstromAuthLoginUrl`, but the function returns `$nordstromNAuthLoginUrl`, which stays "" | valid configuration and answer `{"status": 200, "data": "https://example/login"}`: the result is "" (UserManager.TypoLosesUrl proves this for every non-empty URL) | return `data` when the status is 200 | high, not executed | UserManager.GetNordstromAuthLoginUrl | UserManager.IntendedLoginUrl |
| src/NAuth.php:184-190 | `logout` passes 'Authorization' and 'Body' as request options, which Guzzle ignores, and reads `$this->getBearerToken` as a property, without parentheses | any client, after `getUserInfo("abc")`: the POST to v1/logout carries neither credentials nor token | Basic authorization and a body {token, env} with the stored token | high, not executed | NAuthClient.NAuth.Logout | NAuthClient.IntendedLogoutRequest |
