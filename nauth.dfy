/** The N-Auth client (src/NAuth.php). Each public operation issues one HTTP
    request; here that request is built as a `Request` value instead of being
    sent, and what the transport returns (the response body, curl's error
    string) is passed in. */
module NAuthClient {
  import opened Wrappers
  import opened Php
  import Base64

  // The service's base URL and the endpoint paths resolved against it.
  const BaseUrl: string := "https://9497hir2i5.execute-api.us-west-2.amazonaws.com/"
  const LoginUri: string := "v1/loginurl"
  const TokenUri: string := "v1/token"
  const UserInfoUri: string := "v1/userinfo"
  const LogoutUri: string := "v1/logout"
  const IntrospectUri: string := "v1/introspect"

  /** One outbound HTTP request: method, target URL, query parameters, header
      lines (name to value) and the fields of the JSON body. */
  datatype Request = Request(
    verb: string,
    url: string,
    query: map<string, Value>,
    headers: map<string, string>,
    body: map<string, Value>)

  /** The four values the client is constructed from. */
  datatype Credentials = Credentials(clientId: Value, clientSecret: Value, redirectUri: Value, env: Value)

  /** The names the constructor's error messages use, in the order it checks them. */
  const ArgumentNames: seq<string> := ["client_id", "client_secret", "redirect_uri", "env"]

  /** The message of the exception for an empty argument. */
  function InvalidParameter(name: string): string {
    "Invalid " + name + " parameter"
  }

  /** The constructor's checks: each argument in turn must not be PHP-empty,
      and the first one that is aborts construction with its own message. */
  function CheckCredentials(clientId: Value, clientSecret: Value, redirectUri: Value, env: Value): (r: Result<Credentials, string>)
    ensures r.Success? <==> !Empty(clientId) && !Empty(clientSecret) && !Empty(redirectUri) && !Empty(env)
    ensures r.Success? ==> r.value == Credentials(clientId, clientSecret, redirectUri, env)
  {
    if Empty(clientId) then Failure(InvalidParameter("client_id"))
    else if Empty(clientSecret) then Failure(InvalidParameter("client_secret"))
    else if Empty(redirectUri) then Failure(InvalidParameter("redirect_uri"))
    else if Empty(env) then Failure(InvalidParameter("env"))
    else Success(Credentials(clientId, clientSecret, redirectUri, env))
  }

  /** A failed construction names the first empty argument: every argument
      before it is non-empty, and the message is "Invalid <name> parameter". */
  lemma CheckNamesFirstEmpty(clientId: Value, clientSecret: Value, redirectUri: Value, env: Value)
    requires CheckCredentials(clientId, clientSecret, redirectUri, env).Failure?
    ensures var args := [clientId, clientSecret, redirectUri, env];
      exists k :: 0 <= k < 4 && Empty(args[k]) && (forall j :: 0 <= j < k ==> !Empty(args[j]))
        && CheckCredentials(clientId, clientSecret, redirectUri, env).error == InvalidParameter(ArgumentNames[k])
  {
    var args := [clientId, clientSecret, redirectUri, env];
    var k := if Empty(clientId) then 0 else if Empty(clientSecret) then 1 else if Empty(redirectUri) then 2 else 3;
    assert ArgumentNames[k] == ["client_id", "client_secret", "redirect_uri", "env"][k];
    assert Empty(args[k]) && forall j :: 0 <= j < k ==> !Empty(args[j]);
  }

  /** The string `client_id ":" client_secret` as PHP's `.` builds it. */
  function PlainCredentials(c: Credentials): (p: PhpString)
    ensures Bytes(p) == Bytes(ToStr(c.clientId)) + Bytes(":") + Bytes(ToStr(c.clientSecret))
  {
    BytesOfConcat(ToStr(c.clientId), ":");
    BytesOfConcat(ToStr(c.clientId) + ":", ToStr(c.clientSecret));
    ToStr(c.clientId) + ":" + ToStr(c.clientSecret)
  }

  /** The value of the Basic authorization header: Base64 of
      client_id ":" client_secret, as PHP concatenates them. Decoding it gives
      exactly those bytes back. */
  function BasicCredentials(c: Credentials): (h: string)
    ensures Base64.Decode(h) == Some(Bytes(PlainCredentials(c)))
    ensures Base64.Decode(h) == Some(Bytes(ToStr(c.clientId)) + Bytes(":") + Bytes(ToStr(c.clientSecret)))
  {
    var plain := PlainCredentials(c);
    Base64.DecodeEncode(Bytes(plain));
    Base64.Encode(Bytes(plain))
  }

  /** The headers hold "Authorization: Basic <b64>" whose Base64 part decodes to
      client_id ":" client_secret. */
  predicate HasBasicAuth(headers: map<string, string>, c: Credentials) {
    && "Authorization" in headers
    && |headers["Authorization"]| >= 6
    && headers["Authorization"][..6] == "Basic "
    && Base64.Decode(headers["Authorization"][6..]) == Some(Bytes(PlainCredentials(c)))
  }

  /** The header lines of the two curl POST calls. */
  function JsonPostHeaders(basic: string): map<string, string> {
    map["Authorization" := "Basic " + basic, "Cache-Control" := "no-cache", "Content-Type" := "application/json"]
  }

  /** Every key the login query can hold. */
  const LoginKeys: set<string> := {"client_id", "redirect_uri", "env", "claims", "is_implicit", "return_id", "state", "skip_iwa"}

  /** The query of the login-URL request. The stored client_id, redirect_uri and
      env and the arguments claims and is_implicit are always present; return_id,
      state and skip_iwa each appear exactly when their argument is not
      PHP-empty, and then with the argument's value; nothing else appears. The
      defaults are those of `login`. */
  function LoginQuery(c: Credentials, claims: Value := Str("openid"), isImplicit: Value := Str("false"),
                      returnId: Value := Bool(false), state: Value := Str(""), skipIwa: Value := Bool(false)): (q: map<string, Value>)
    ensures "client_id" in q && q["client_id"] == c.clientId
    ensures "redirect_uri" in q && q["redirect_uri"] == c.redirectUri
    ensures "env" in q && q["env"] == c.env
    ensures "claims" in q && q["claims"] == claims
    ensures "is_implicit" in q && q["is_implicit"] == isImplicit
    ensures ("return_id" in q <==> !Empty(returnId)) && ("return_id" in q ==> q["return_id"] == returnId)
    ensures ("state" in q <==> !Empty(state)) && ("state" in q ==> q["state"] == state)
    ensures ("skip_iwa" in q <==> !Empty(skipIwa)) && ("skip_iwa" in q ==> q["skip_iwa"] == skipIwa)
    ensures q.Keys <= LoginKeys
  {
    var mandatory := map["client_id" := c.clientId, "redirect_uri" := c.redirectUri, "env" := c.env,
                         "claims" := claims, "is_implicit" := isImplicit];
    var withReturnId := if !Empty(returnId) then mandatory["return_id" := returnId] else mandatory;
    var withState := if !Empty(state) then withReturnId["state" := state] else withReturnId;
    if !Empty(skipIwa) then withState["skip_iwa" := skipIwa] else withState
  }

  /** The keys every login query holds. */
  const MandatoryLoginKeys: set<string> := {"client_id", "redirect_uri", "env", "claims", "is_implicit"}

  /** The login-URL request: a GET to the login endpoint with the login query
      and no headers or body; its query holds every mandatory key and no key
      outside the login keys. */
  function LoginRequest(c: Credentials, claims: Value := Str("openid"), isImplicit: Value := Str("false"),
                        returnId: Value := Bool(false), state: Value := Str(""), skipIwa: Value := Bool(false)): (r: Request)
    ensures r.verb == "GET" && r.url == BaseUrl + LoginUri && r.headers == map[] && r.body == map[]
    ensures MandatoryLoginKeys <= r.query.Keys <= LoginKeys
  {
    Request("GET", BaseUrl + LoginUri, LoginQuery(c, claims, isImplicit, returnId, state, skipIwa), map[], map[])
  }

  /** With every default, the query holds exactly the five mandatory keys. */
  lemma LoginDefaultsQuery(c: Credentials, claims: Value)
    ensures LoginQuery(c, claims) == map["client_id" := c.clientId, "redirect_uri" := c.redirectUri,
                                         "env" := c.env, "claims" := claims, "is_implicit" := Str("false")]
  {
  }

  /** A state of "0" is PHP-empty, so it is left out of the query. */
  lemma StateZeroIsDropped(c: Credentials, claims: Value, isImplicit: Value, returnId: Value, skipIwa: Value)
    ensures "state" !in LoginQuery(c, claims, isImplicit, returnId, Str("0"), skipIwa)
  {
  }

  /** The request `logout` was evidently meant to send: Basic authorization and
      a body of the stored token and env. */
  function IntendedLogoutRequest(c: Credentials, token: Value): (req: Request)
    ensures HasBasicAuth(req.headers, c)
    ensures req.body.Keys == {"token", "env"} && req.body["token"] == token && req.body["env"] == c.env
  {
    Request("POST", BaseUrl + LogoutUri, map[], map["Authorization" := "Basic " + BasicCredentials(c)],
            map["token" := token, "env" := c.env])
  }

  /** The N-Auth client object. The four credentials are fixed when the object is
      built; the bearer token is its only mutable state. */
  class NAuth {
    const clientId: Value
    const secretId: Value
    const redirectUri: Value
    const env: Value
    var bearerToken: Value

    /** The credentials fixed at construction. */
    function Creds(): Credentials {
      Credentials(clientId, secretId, redirectUri, env)
    }

    /** Every credential passed the constructor's checks. */
    predicate Valid() {
      CheckCredentials(clientId, secretId, redirectUri, env).Success?
    }

    constructor (clientId: Value, clientSecret: Value, redirectUri: Value, env: Value)
      requires CheckCredentials(clientId, clientSecret, redirectUri, env).Success?
      ensures Valid() && Creds() == Credentials(clientId, clientSecret, redirectUri, env)
      ensures bearerToken == Null
    {
      this.clientId := clientId;
      this.secretId := clientSecret;
      this.redirectUri := redirectUri;
      this.env := env;
      this.bearerToken := Null;
    }

    /** `new NAuth(...)`: checks the arguments in order and throws (here:
        returns `Failure`) on the first PHP-empty one; otherwise the new client
        holds the four arguments and no bearer token. */
    static method Create(clientId: Value, clientSecret: Value, redirectUri: Value, env: Value) returns (r: Result<NAuth, string>)
      ensures r.Failure? ==> CheckCredentials(clientId, clientSecret, redirectUri, env) == Failure(r.error)
      ensures r.Success? ==> CheckCredentials(clientId, clientSecret, redirectUri, env) == Success(r.value.Creds())
      ensures r.Success? ==> r.value.Valid() && r.value.bearerToken == Null
    {
      if Empty(clientId) {
        return Failure(InvalidParameter("client_id"));
      }
      if Empty(clientSecret) {
        return Failure(InvalidParameter("client_secret"));
      }
      if Empty(redirectUri) {
        return Failure(InvalidParameter("redirect_uri"));
      }
      if Empty(env) {
        return Failure(InvalidParameter("env"));
      }
      var client := new NAuth(clientId, clientSecret, redirectUri, env);
      r := Success(client);
    }

    /** `login`: builds the query step by step from the stored fields and the
        arguments and sends it with a GET to the login endpoint; the response
        body comes back unchanged. The stored client_id, redirect_uri and env
        in the query are never empty. */
    method Login(response: PhpString, claims: Value := Str("openid"), isImplicit: Value := Str("false"),
                 returnId: Value := Bool(false), state: Value := Str(""), skipIwa: Value := Bool(false))
      returns (req: Request, result: PhpString)
      requires Valid()
      ensures req == LoginRequest(Creds(), claims, isImplicit, returnId, state, skipIwa)
      ensures !Empty(req.query["client_id"]) && !Empty(req.query["redirect_uri"]) && !Empty(req.query["env"])
      ensures result == response
    {
      var query: map<string, Value> := map[];
      query := query["client_id" := clientId];
      query := query["redirect_uri" := redirectUri];
      query := query["env" := env];
      query := query["claims" := claims];
      query := query["is_implicit" := isImplicit];
      if !Empty(returnId) {
        query := query["return_id" := returnId];
      }
      if !Empty(state) {
        query := query["state" := state];
      }
      if !Empty(skipIwa) {
        query := query["skip_iwa" := skipIwa];
      }
      req := Request("GET", BaseUrl + LoginUri, query, map[], map[]);
      result := response;
    }

    /** `getAuthorizationHeader`: Base64 of the stored client_id ":" secret.
        It reads only the fixed credentials, so every call gives the same value. */
    function GetAuthorizationHeader(): (h: string)
      ensures Base64.Decode(h) == Some(Bytes(PlainCredentials(Creds())))
    {
      BasicCredentials(Creds())
    }

    /** `token`: a POST of {code, redirect_uri, env} to the token endpoint with
        Basic authorization. A non-empty curl error string is returned in place
        of the response body. */
    method Token(code: Value, response: Value, error: PhpString) returns (req: Request, result: Value)
      requires Valid()
      ensures req.verb == "POST" && req.url == BaseUrl + TokenUri && req.query == map[]
      ensures req.headers == JsonPostHeaders(GetAuthorizationHeader())
      ensures HasBasicAuth(req.headers, Creds())
      ensures req.body.Keys == {"code", "redirect_uri", "env"}
      ensures req.body["code"] == code && req.body["redirect_uri"] == redirectUri && req.body["env"] == env
      ensures !Empty(req.body["redirect_uri"]) && !Empty(req.body["env"])
      ensures !Empty(Str(error)) ==> result == Str(error)
      ensures Empty(Str(error)) ==> result == response
    {
      req := Request("POST", BaseUrl + TokenUri, map[], JsonPostHeaders(GetAuthorizationHeader()),
                     map["code" := code, "redirect_uri" := redirectUri, "env" := env]);
      if !Empty(Str(error)) {
        return req, Str(error);
      }
      result := response;
    }

    /** `getBearerToken`: the stored token, which starts as null. */
    function GetBearerToken(): (t: Value)
      reads this
      ensures t == bearerToken
    {
      bearerToken
    }

    /** `getUserInfo`: a non-empty token replaces the stored one, an empty one
        keeps it; the GET carries the stored token as Bearer authorization and
        the query {env, client_id}, and the response body comes back unchanged.
        No token at all gives "Bearer ". */
    method GetUserInfo(token: Value, response: PhpString) returns (req: Request, result: PhpString)
      requires Valid()
      modifies this
      ensures Valid()
      ensures bearerToken == if Empty(token) then old(bearerToken) else token
      ensures req.verb == "GET" && req.url == BaseUrl + UserInfoUri && req.body == map[]
      ensures req.query == map["env" := env, "client_id" := clientId]
      ensures !Empty(req.query["env"]) && !Empty(req.query["client_id"])
      ensures req.headers == map["Authorization" := "Bearer " + ToStr(bearerToken)]
      ensures result == response
    {
      if !Empty(token) {
        bearerToken := token;
      }
      var queryParameters: map<string, Value> := map[];
      queryParameters := queryParameters["env" := env];
      queryParameters := queryParameters["client_id" := clientId];
      req := Request("GET", BaseUrl + UserInfoUri, queryParameters,
                     map["Authorization" := "Bearer " + ToStr(GetBearerToken())], map[]);
      result := response;
    }

    /** `logout` as written: the options it passes are not request options the
        HTTP library knows and the token is read as an undefined property, so
        the POST goes out with no authorization header and no body. The
        response body comes back unchanged. */
    method Logout(response: PhpString) returns (req: Request, result: PhpString)
      requires Valid()
      ensures req.verb == "POST" && req.url == BaseUrl + LogoutUri
      ensures "Authorization" !in req.headers && req.body == map[] && req.query == map[]
      ensures req != IntendedLogoutRequest(Creds(), bearerToken)
      ensures result == response
    {
      req := Request("POST", BaseUrl + LogoutUri, map[], map[], map[]);
      result := response;
    }

    /** `introspect`: a POST of {token, env} to the introspection endpoint with
        Basic authorization; a non-empty curl error string replaces the body. */
    method Introspect(token: Value, response: Value, error: PhpString) returns (req: Request, result: Value)
      requires Valid()
      ensures req.verb == "POST" && req.url == BaseUrl + IntrospectUri && req.query == map[]
      ensures req.headers == JsonPostHeaders(GetAuthorizationHeader())
      ensures HasBasicAuth(req.headers, Creds())
      ensures req.body.Keys == {"token", "env"} && req.body["token"] == token && req.body["env"] == env
      ensures !Empty(req.body["env"])
      ensures !Empty(Str(error)) ==> result == Str(error)
      ensures Empty(Str(error)) ==> result == response
    {
      req := Request("POST", BaseUrl + IntrospectUri, map[], JsonPostHeaders(GetAuthorizationHeader()),
                     map["token" := token, "env" := env]);
      if !Empty(Str(error)) {
        return req, Str(error);
      }
      result := response;
    }
  }

  /** Introspection changes no state: asking twice about the same token sends
      the same request. */
  method RepeatedIntrospect(client: NAuth, token: Value, response: Value, error: PhpString)
    returns (first: Request, second: Request)
    requires client.Valid()
    ensures first == second
    ensures HasBasicAuth(first.headers, client.Creds())
  {
    var firstResult, secondResult;
    first, firstResult := client.Introspect(token, response, error);
    second, secondResult := client.Introspect(token, response, error);
  }

  /** The stored token across calls: no token yet gives an empty Bearer value
      and no error; "abc" is stored; a later empty argument reuses it. */
  method UserInfoTokenLifecycle(client: NAuth, response: PhpString) returns (first: Request, second: Request, third: Request)
    requires client.Valid() && client.bearerToken == Null
    modifies client
    ensures first.headers == map["Authorization" := "Bearer "]
    ensures second.headers == map["Authorization" := "Bearer abc"]
    ensures third.headers == map["Authorization" := "Bearer abc"]
    ensures client.bearerToken == Str("abc")
  {
    var result;
    first, result := client.GetUserInfo(Null, response);
    assert "Bearer " + ToStr(Null) == "Bearer ";
    second, result := client.GetUserInfo(Str("abc"), response);
    assert "Bearer " + ToStr(Str("abc")) == "Bearer abc";
    third, result := client.GetUserInfo(Str(""), response);
  }
}
