/** The session helper of src/UserManager.php. `getNordstromAuthLoginUrl`
    builds an N-Auth client from the process configuration, asks for the
    login URL and unwraps the `{status, data}` envelope of the answer. The
    configuration values are parameters here, and the decoded answer is an
    input value. */
module UserManager {
  import opened Wrappers
  import opened Php
  import opened NAuthClient

  /** The values the helper reads from the environment: each is a string, or
      `false` when the variable is unset. */
  datatype Config = Config(clientId: Value, clientSecret: Value, redirectUri: Value, env: Value, claims: Value)

  /** A decoded JSON value. Numbers are modelled as integers. */
  datatype Json =
    | JNull
    | JBool(b: bool)
    | JInt(i: int)
    | JString(s: PhpString)
    | JArray(elems: seq<Json>)
    | JObject(members: seq<(string, Json)>)

  /** The decoded answer when it is a JSON object: its `status` and `data`
      properties, `JNull` for a property that is absent. An answer that is not
      an object (or not JSON) is `None`. */
  datatype Envelope = Envelope(status: Json, data: Json)

  /** What a successful call of the helper amounts to: the login request it
      sends and the string it returns. */
  datatype LoginUrlCall = LoginUrlCall(request: Request, url: string)

  predicate IsDigit(c: char) {
    '0' <= c <= '9'
  }

  predicate AllDigits(d: string) {
    forall i :: 0 <= i < |d| ==> IsDigit(d[i])
  }

  /** The value of a string of decimal digits, most significant first. */
  function DigitsValue(d: string): nat
    requires AllDigits(d)
    decreases |d|
  {
    if |d| == 0 then 0
    else 10 * DigitsValue(d[..|d| - 1]) + (d[|d| - 1] as int - '0' as int)
  }

  /** The decimal digits of a natural number, without leading zeros. Reading
      them back gives the number. */
  function NatToDecimal(n: nat): (d: string)
    ensures |d| > 0 && AllDigits(d) && DigitsValue(d) == n
    ensures |d| > 1 ==> d[0] != '0'
    decreases n
  {
    var last := [('0' as int + n % 10) as char];
    if n < 10 then last
    else
      var prefix := NatToDecimal(n / 10);
      assert (prefix + last)[..|prefix + last| - 1] == prefix;
      prefix + last
  }

  /** PHP's decimal rendering of an integer: digits without leading zeros
      (0 is "0"), after a '-' for a negative number. */
  function IntToDecimal(i: int): (s: string)
    ensures i >= 0 ==> |s| > 0 && AllDigits(s) && DigitsValue(s) == i && (|s| > 1 ==> s[0] != '0')
    ensures i < 0 ==> |s| > 1 && s[0] == '-' && AllDigits(s[1..]) && DigitsValue(s[1..]) == -i && s[1] != '0'
  {
    if i >= 0 then NatToDecimal(i)
    else
      var d := NatToDecimal(-i);
      assert ("-" + d)[1..] == d;
      "-" + d
  }

  /** `n` zero digits. */
  function Zeros(n: nat): (z: string)
    ensures |z| == n && AllDigits(z)
  {
    seq(n, i => '0')
  }

  /** A string status that PHP 8 compares equal to 200 in the integer forms
      modelled here: an optional '+' and decimal digits whose value is 200. */
  predicate IntegerString200(s: string) {
    var digits := if |s| > 0 && s[0] == '+' then s[1..] else s;
    |digits| > 0 && AllDigits(digits) && DigitsValue(digits) == 200
  }

  /** PHP's loose comparison `$x == 200` for a decoded JSON value: `true`
      equals every non-zero number, an integer must be 200, and a string must
      be an integer-numeric string of value 200. Null, false, arrays and
      objects never equal 200. Spelled out, the values that pass are true,
      200, and "200" after any number of zeros, with or without a '+'. */
  predicate LooselyEquals200(x: Json): (eq: bool)
    ensures eq <==> (|| x == JBool(true)
                     || x == JInt(200)
                     || (x.JString? && exists n: nat :: x.s == Zeros(n) + "200" || x.s == "+" + Zeros(n) + "200"))
  {
    match x
    case JNull => false
    case JBool(b) => b
    case JInt(i) => i == 200
    case JString(s) => IntegerString200Iff(s); IntegerString200(s)
    case JArray(_) => false
    case JObject(_) => false
  }

  /** `isset($result->status) && $result->status == 200`: the answer is an
      object whose status is set (not null) and loosely equals 200. The
      `isset` part never decides the outcome, since null never equals 200. */
  predicate StatusOk(decoded: Option<Envelope>): (ok: bool)
    ensures ok <==> decoded.Some? && LooselyEquals200(decoded.value.status)
  {
    decoded.Some? && decoded.value.status != JNull && LooselyEquals200(decoded.value.status)
  }

  /** A string is an integer string of value 200 exactly when it is zeros
      followed by "200", with or without a leading '+'. */
  lemma IntegerString200Iff(s: string)
    ensures IntegerString200(s) <==> exists n: nat :: s == Zeros(n) + "200" || s == "+" + Zeros(n) + "200"
  {
    if IntegerString200(s) {
      var n := IntegerString200Shape(s);
    }
    if exists n: nat :: s == Zeros(n) + "200" || s == "+" + Zeros(n) + "200" {
      var n: nat :| s == Zeros(n) + "200" || s == "+" + Zeros(n) + "200";
      ShapeIsIntegerString200(s, n);
    }
  }

  lemma IntegerString200Shape(s: string) returns (n: nat)
    requires IntegerString200(s)
    ensures s == Zeros(n) + "200" || s == "+" + Zeros(n) + "200"
  {
    var digits := if |s| > 0 && s[0] == '+' then s[1..] else s;
    n := Value200IsZerosThen200(digits);
    if |s| > 0 && s[0] == '+' {
      assert s == "+" + digits;
    }
  }

  lemma ShapeIsIntegerString200(s: string, n: nat)
    requires s == Zeros(n) + "200" || s == "+" + Zeros(n) + "200"
    ensures IntegerString200(s)
  {
    ZerosThen200Value(n);
    var d := Zeros(n) + "200";
    if s == d {
      assert s[0] == '0' || s[0] == '2' by {
        if n > 0 { assert s[0] == Zeros(n)[0]; } else { assert s == "200"; }
      }
    } else {
      assert s[1..] == d;
    }
  }

  /** Appending a digit multiplies the value by ten and adds the digit. */
  lemma DigitsValueSnoc(d: string, c: char)
    requires AllDigits(d) && IsDigit(c)
    ensures AllDigits(d + [c]) && DigitsValue(d + [c]) == 10 * DigitsValue(d) + (c as int - '0' as int)
  {
    assert (d + [c])[..|d|] == d;
  }

  /** Zeros followed by "200" have the value 200. */
  lemma {:induction false} ZerosThen200Value(n: nat)
    ensures AllDigits(Zeros(n) + "200") && DigitsValue(Zeros(n) + "200") == 200
  {
    ZerosValue(n);
    var z := Zeros(n);
    DigitsValueSnoc(z, '2');
    DigitsValueSnoc(z + "2", '0');
    DigitsValueSnoc(z + "2" + "0", '0');
    assert z + "200" == z + "2" + "0" + "0";
  }

  lemma {:induction false} ZerosValue(n: nat)
    ensures DigitsValue(Zeros(n)) == 0
  {
    if n > 0 {
      ZerosValue(n - 1);
      assert Zeros(n)[..n - 1] == Zeros(n - 1);
    }
  }

  /** A digit string of value 0 is all zeros. */
  lemma {:induction false} ValueZeroIsZeros(d: string)
    requires AllDigits(d) && DigitsValue(d) == 0
    ensures d == Zeros(|d|)
    decreases |d|
  {
    if |d| > 0 {
      var p := d[..|d| - 1];
      ValueZeroIsZeros(p);
      assert d == p + [d[|d| - 1]];
    }
  }

  /** A digit string of value 200 is zeros followed by "200". */
  lemma Value200IsZerosThen200(d: string) returns (n: nat)
    requires AllDigits(d) && DigitsValue(d) == 200
    ensures d == Zeros(n) + "200"
  {
    var p1 := d[..|d| - 1];
    assert DigitsValue(p1) == 20 && d[|d| - 1] == '0';
    var p2 := p1[..|p1| - 1];
    assert DigitsValue(p2) == 2 && p1[|p1| - 1] == '0';
    var p3 := p2[..|p2| - 1];
    assert DigitsValue(p3) == 0 && p2[|p2| - 1] == '2';
    ValueZeroIsZeros(p3);
    n := |p3|;
    assert d == p3 + "200";
  }

  /** The message of the type error for a return value that is not a string. */
  const ReturnTypeError: string := "Return value must be of type string"

  /** How PHP (without strict types) turns a value returned from a function
      declared `: string` into a string: strings stay, integers are written in
      decimal, true is "1" and false is ""; null, arrays and objects raise a
      type error (`None`). */
  function ReturnedString(v: Json): (r: Option<string>)
    ensures v.JString? ==> r == Some(v.s)
    ensures r.None? <==> v.JNull? || v.JArray? || v.JObject?
  {
    match v
    case JString(s) => Some(s)
    case JInt(i) => Some(IntToDecimal(i))
    case JBool(b) => Some(if b then "1" else "")
    case _ => None
  }

  /** `getNordstromAuthLoginUrl` as written. The constructor's exception
      propagates, `login` is called with the claims value alone, and the
      status check assigns `data` to `$nordstromAuthLoginUrl` while the
      function returns `$nordstromNAuthLoginUrl`, which stays "". So every
      successful call returns "", whatever the answer holds. */
  function GetNordstromAuthLoginUrl(config: Config, decoded: Option<Envelope>): (r: Result<LoginUrlCall, string>)
    ensures r.Failure? <==>
      Empty(config.clientId) || Empty(config.clientSecret) || Empty(config.redirectUri) || Empty(config.env)
    ensures r.Failure? ==>
      r.error == CheckCredentials(config.clientId, config.clientSecret, config.redirectUri, config.env).error
    ensures r.Success? ==>
      && r.value.url == ""
      && r.value.request == LoginRequest(Credentials(config.clientId, config.clientSecret, config.redirectUri, config.env), config.claims)
  {
    match CheckCredentials(config.clientId, config.clientSecret, config.redirectUri, config.env)
    case Failure(e) => Failure(e)
    case Success(c) =>
      var request := LoginRequest(c, config.claims);
      var nordstromNAuthLoginUrl := "";
      var nordstromAuthLoginUrl := if StatusOk(decoded) then Some(decoded.value.data) else None;
      Success(LoginUrlCall(request, nordstromNAuthLoginUrl))
  }

  /** The helper as its documentation describes it: the returned variable is
      the one the status check assigns, so it is `data` (converted as a string
      return value) when the status is 200 and "" otherwise. */
  function IntendedLoginUrl(config: Config, decoded: Option<Envelope>): (r: Result<LoginUrlCall, string>)
    ensures CheckCredentials(config.clientId, config.clientSecret, config.redirectUri, config.env).Failure? ==>
      r == Failure(CheckCredentials(config.clientId, config.clientSecret, config.redirectUri, config.env).error)
    ensures r.Success? ==>
      r.value.request == LoginRequest(Credentials(config.clientId, config.clientSecret, config.redirectUri, config.env), config.claims)
    ensures CheckCredentials(config.clientId, config.clientSecret, config.redirectUri, config.env).Success? ==>
      && (!StatusOk(decoded) ==> r.Success? && r.value.url == "")
      && (StatusOk(decoded) && decoded.value.data.JString? ==> r.Success? && r.value.url == decoded.value.data.s)
      && (StatusOk(decoded) && ReturnedString(decoded.value.data).None? ==> r == Failure(ReturnTypeError))
  {
    match CheckCredentials(config.clientId, config.clientSecret, config.redirectUri, config.env)
    case Failure(e) => Failure(e)
    case Success(c) =>
      var request := LoginRequest(c, config.claims);
      if !StatusOk(decoded) then Success(LoginUrlCall(request, ""))
      else
        match ReturnedString(decoded.value.data)
        case None => Failure(ReturnTypeError)
        case Some(url) => Success(LoginUrlCall(request, url))
  }

  /** The helper's login request carries exactly the five mandatory keys:
      the three configured values, the configured claims and is_implicit
      "false"; return_id, state and skip_iwa keep their defaults and stay out. */
  lemma HelperLoginQuery(config: Config, decoded: Option<Envelope>)
    requires GetNordstromAuthLoginUrl(config, decoded).Success?
    ensures var req := GetNordstromAuthLoginUrl(config, decoded).value.request;
      && req.verb == "GET" && req.url == BaseUrl + LoginUri
      && req.headers == map[] && req.body == map[]
      && req.query == map["client_id" := config.clientId, "redirect_uri" := config.redirectUri, "env" := config.env,
                          "claims" := config.claims, "is_implicit" := Str("false")]
  {
    var c := Credentials(config.clientId, config.clientSecret, config.redirectUri, config.env);
    LoginDefaultsQuery(c, config.claims);
  }

  /** An empty configuration value makes the helper fail with the message of
      the first empty value, in the constructor's order. */
  lemma HelperFailsOnFirstEmpty(config: Config, decoded: Option<Envelope>)
    requires Empty(config.clientId) || Empty(config.clientSecret) || Empty(config.redirectUri) || Empty(config.env)
    ensures var args := [config.clientId, config.clientSecret, config.redirectUri, config.env];
      exists k :: 0 <= k < 4 && Empty(args[k]) && (forall j :: 0 <= j < k ==> !Empty(args[j]))
        && GetNordstromAuthLoginUrl(config, decoded) == Failure(InvalidParameter(ArgumentNames[k]))
  {
    CheckNamesFirstEmpty(config.clientId, config.clientSecret, config.redirectUri, config.env);
  }

  /** As written, the answer makes no difference at all. */
  lemma AsWrittenIgnoresAnswer(config: Config, d1: Option<Envelope>, d2: Option<Envelope>)
    ensures GetNordstromAuthLoginUrl(config, d1) == GetNordstromAuthLoginUrl(config, d2)
  {
  }

  /** Statuses that pass the check: 200, "200" and even `true` (PHP's loose
      comparison). */
  lemma StatusPassCases(data: Json)
    ensures StatusOk(Some(Envelope(JInt(200), data)))
    ensures StatusOk(Some(Envelope(JString("200"), data)))
    ensures StatusOk(Some(Envelope(JBool(true), data)))
  {
    assert "200" == Zeros(0) + "200";
  }

  /** A signed, zero-padded spelling passes too. */
  lemma StatusPassesPadded(data: Json)
    ensures StatusOk(Some(Envelope(JString("+0200"), data)))
  {
    assert "+0200" == "+" + Zeros(1) + "200";
  }

  /** Statuses that fail the check: null, 201, "OK", false, and an answer
      that is not an object. */
  lemma StatusFailCases(data: Json)
    ensures !StatusOk(Some(Envelope(JNull, data)))
    ensures !StatusOk(Some(Envelope(JInt(201), data)))
    ensures !StatusOk(Some(Envelope(JString("OK"), data)))
    ensures !StatusOk(Some(Envelope(JBool(false), data)))
    ensures !StatusOk(None)
  {
    forall n: nat ensures "OK" != Zeros(n) + "200" && "OK" != "+" + Zeros(n) + "200" {
      assert |Zeros(n) + "200"| >= 3;
    }
  }

  /** Without a passing status check the intended helper never looks at
      `data`: it behaves as if there were no answer at all. */
  lemma IntendedIgnoresDataUnlessOk(config: Config, decoded: Option<Envelope>)
    requires !StatusOk(decoded)
    ensures IntendedLoginUrl(config, decoded) == IntendedLoginUrl(config, None)
  {
  }

  /** The as-written helper agrees with the intended one exactly when the
      construction fails or the intended URL is itself "". */
  lemma AsWrittenAgreesIff(config: Config, decoded: Option<Envelope>)
    ensures GetNordstromAuthLoginUrl(config, decoded) == IntendedLoginUrl(config, decoded) <==>
      || CheckCredentials(config.clientId, config.clientSecret, config.redirectUri, config.env).Failure?
      || (IntendedLoginUrl(config, decoded).Success? && IntendedLoginUrl(config, decoded).value.url == "")
  {
  }

  /** The typo in action: with a valid configuration and a status-200 answer
      whose data is a non-empty URL, the intended helper returns that URL and
      the helper as written returns "" for the same request. */
  lemma TypoLosesUrl(config: Config, url: PhpString)
    requires !Empty(config.clientId) && !Empty(config.clientSecret) && !Empty(config.redirectUri) && !Empty(config.env)
    requires url != ""
    ensures var decoded := Some(Envelope(JInt(200), JString(url)));
      var req := LoginRequest(Credentials(config.clientId, config.clientSecret, config.redirectUri, config.env), config.claims);
      && GetNordstromAuthLoginUrl(config, decoded) == Success(LoginUrlCall(req, ""))
      && IntendedLoginUrl(config, decoded) == Success(LoginUrlCall(req, url))
      && GetNordstromAuthLoginUrl(config, decoded) != IntendedLoginUrl(config, decoded)
  {
    assert StatusOk(Some(Envelope(JInt(200), JString(url))));
  }
}
