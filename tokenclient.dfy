/** The exchange of an authorization code for an access token: a form of five fields is
    posted to the token endpoint, and the response is classified step by step (transport
    error, status, body, JSON, `access_token`).

    The HTTP client is a function from the endpoint and the form to the exchange's outcome.
    JSON decoding is a function from the body to the decoded object or the decoder's error;
    the decoder itself is not part of this model. */
module TokenClient {

  import opened Common
  import Strings
  import UrlValues

  const TokenEndpoint := "https://accounts.spotify.com/api/token"
  const StatusOK := 200

  /** The values `encoding/json` decodes into an `interface{}`; a number is kept as its text. */
  datatype JsonValue =
    | JNull
    | JBool(b: bool)
    | JNumber(text: string)
    | JString(s: string)
    | JArray(items: seq<JsonValue>)
    | JObject(members: map<string, JsonValue>)

  /** A response as `GetToken` reads it: the status code and the outcome of reading the
      whole body. */
  datatype Response = Response(statusCode: int, body: Result<seq<byte>>)

  type Unmarshal = seq<byte> -> Result<map<string, JsonValue>>

  /** The form `GetToken` posts, filled in the order `GetToken` adds its fields. */
  function TokenForm(clientId: string, redirectUri: string, code: string, codeVerifier: string): map<string, seq<string>>
  {
    var f := UrlValues.Added(UrlValues.Added(map[], "grant_type", "authorization_code"), "code", code);
    UrlValues.Added(UrlValues.Added(UrlValues.Added(f, "redirect_uri", redirectUri), "client_id", clientId), "code_verifier", codeVerifier)
  }

  /** Five `Add` calls on five different keys, starting from an empty form: the form holds
      those five keys, each with exactly the one value added for it. */
  lemma FiveAdds(k1: string, k2: string, k3: string, k4: string, k5: string,
                 v1: string, v2: string, v3: string, v4: string, v5: string)
    requires k1 != k2 && k1 != k3 && k1 != k4 && k1 != k5
    requires k2 != k3 && k2 != k4 && k2 != k5
    requires k3 != k4 && k3 != k5
    requires k4 != k5
    ensures var m := UrlValues.Added(UrlValues.Added(UrlValues.Added(UrlValues.Added(UrlValues.Added(map[], k1, v1), k2, v2), k3, v3), k4, v4), k5, v5);
      m.Keys == {k1, k2, k3, k4, k5} &&
      m[k1] == [v1] && m[k2] == [v2] && m[k3] == [v3] && m[k4] == [v4] && m[k5] == [v5]
  {
    var m1 := UrlValues.Added(map[], k1, v1);
    var m2 := UrlValues.Added(m1, k2, v2);
    assert m2[k1] == [v1];
    var m3 := UrlValues.Added(m2, k3, v3);
    assert m3[k1] == [v1] && m3[k2] == [v2];
    var m4 := UrlValues.Added(m3, k4, v4);
    assert m4[k1] == [v1] && m4[k2] == [v2] && m4[k3] == [v3];
    var m5 := UrlValues.Added(m4, k5, v5);
    assert m5[k1] == [v1] && m5[k2] == [v2] && m5[k3] == [v3] && m5[k4] == [v4];
  }

  /** The form holds exactly the five fields of the token request, one value each, so each
      reads back as what was put in. */
  lemma TokenFormFields(clientId: string, redirectUri: string, code: string, codeVerifier: string)
    ensures var f := TokenForm(clientId, redirectUri, code, codeVerifier);
      && f.Keys == {"grant_type", "code", "redirect_uri", "client_id", "code_verifier"}
      && f["grant_type"] == ["authorization_code"] && f["code"] == [code] && f["redirect_uri"] == [redirectUri]
      && f["client_id"] == [clientId] && f["code_verifier"] == [codeVerifier]
      && UrlValues.Get(f, "grant_type") == "authorization_code" && UrlValues.Get(f, "code") == code
      && UrlValues.Get(f, "redirect_uri") == redirectUri && UrlValues.Get(f, "client_id") == clientId
      && UrlValues.Get(f, "code_verifier") == codeVerifier
  {
    FiveAdds("grant_type", "code", "redirect_uri", "client_id", "code_verifier",
             "authorization_code", code, redirectUri, clientId, codeVerifier);
  }

  /** The error `GetToken` returns for a status other than 200. */
  function NonOkError(statusCode: int): string
  {
    "received non-OK response: " + Strings.FormatInt(statusCode)
  }

  /** The classification of an exchange: what `GetToken` returns after posting the form.
      Every error comes with the empty token; a token comes only from a 200 response whose
      body reads and decodes to an object with a string `access_token`. */
  function Classify(exchange: Result<Response>, unmarshal: Unmarshal): (r: Outcome<string>)
    ensures r.err.Some? ==> r.value == ""
    ensures exchange.Failure? ==> r.err == Some(exchange.error)
    ensures exchange.Success? && exchange.value.statusCode != StatusOK ==> r.err == Some(NonOkError(exchange.value.statusCode))
    ensures r.err.None? <==>
      && exchange.Success? && exchange.value.statusCode == StatusOK && exchange.value.body.Success?
      && unmarshal(exchange.value.body.value).Success?
      && "access_token" in unmarshal(exchange.value.body.value).value
      && unmarshal(exchange.value.body.value).value["access_token"].JString?
    ensures r.err.None? ==> r.value == unmarshal(exchange.value.body.value).value["access_token"].s
  {
    match exchange
    case Failure(e) => Outcome("", Some(e))
    case Success(resp) =>
      if resp.statusCode != StatusOK then
        Outcome("", Some(NonOkError(resp.statusCode)))
      else
        match resp.body
        case Failure(cause) => Outcome("", Some("failed to read response body: " + cause))
        case Success(body) =>
          match unmarshal(body)
          case Failure(cause) => Outcome("", Some("failed to unmarshal JSON: " + cause))
          case Success(responseMap) =>
            if "access_token" in responseMap && responseMap["access_token"].JString? then
              Outcome(responseMap["access_token"].s, None)
            else
              Outcome("", Some("access_token not found or is not a string"))
  }

  /** A response with a status other than 200 is rejected before its body is read or
      decoded: neither the body nor the decoder changes the outcome. */
  lemma NonOkIgnoresBody(statusCode: int, body1: Result<seq<byte>>, body2: Result<seq<byte>>, unmarshal1: Unmarshal, unmarshal2: Unmarshal)
    requires statusCode != StatusOK
    ensures Classify(Success(Response(statusCode, body1)), unmarshal1) == Classify(Success(Response(statusCode, body2)), unmarshal2)
    ensures Classify(Success(Response(statusCode, body1)), unmarshal1) == Outcome("", Some(NonOkError(statusCode)))
  {
  }

  /** The status of a rejected response can be read back from the error text. */
  lemma NonOkErrorNamesStatus(statusCode: int)
    ensures var prefix := "received non-OK response: ";
      var text := NonOkError(statusCode);
      |prefix| <= |text| && text[..|prefix|] == prefix && Strings.ParseInt(text[|prefix|..]) == Some(statusCode)
  {
    var prefix := "received non-OK response: ";
    var digits := Strings.FormatInt(statusCode);
    assert NonOkError(statusCode)[|prefix|..] == digits;
    Strings.FormatIntRoundTrip(statusCode);
  }

  /** Two different statuses give two different errors. */
  lemma NonOkErrorInjective(status1: int, status2: int)
    requires NonOkError(status1) == NonOkError(status2)
    ensures status1 == status2
  {
    NonOkErrorNamesStatus(status1);
    NonOkErrorNamesStatus(status2);
  }

  /** The body of a 200 response that cannot be read is reported with the reader's error,
      before any decoding. */
  lemma UnreadableBody(cause: string, unmarshal: Unmarshal)
    ensures Classify(Success(Response(StatusOK, Failure(cause))), unmarshal) ==
      Outcome("", Some("failed to read response body: " + cause))
  {
  }

  /** The body of a 200 response that fails to decode is reported with the decoder's error. */
  lemma UndecodableBody(body: seq<byte>, unmarshal: Unmarshal)
    requires unmarshal(body).Failure?
    ensures Classify(Success(Response(StatusOK, Success(body))), unmarshal) ==
      Outcome("", Some("failed to unmarshal JSON: " + unmarshal(body).error))
  {
  }

  /** A decoded object without a string `access_token` is rejected, whatever else it holds. */
  lemma NoAccessToken(body: seq<byte>, unmarshal: Unmarshal)
    requires unmarshal(body).Success?
    requires "access_token" !in unmarshal(body).value || !unmarshal(body).value["access_token"].JString?
    ensures Classify(Success(Response(StatusOK, Success(body))), unmarshal) ==
      Outcome("", Some("access_token not found or is not a string"))
  {
  }

  class SpotifyTokenClient {
    const clientId: string
    const redirectUri: string
    /** `client.PostForm`: the outcome of posting a form to an address. */
    const postForm: (string, map<string, seq<string>>) -> Result<Response>
    const unmarshal: Unmarshal

    constructor (clientId: string, redirectUri: string, postForm: (string, map<string, seq<string>>) -> Result<Response>, unmarshal: Unmarshal)
      ensures this.clientId == clientId && this.redirectUri == redirectUri
      ensures this.postForm == postForm && this.unmarshal == unmarshal
    {
      this.clientId := clientId;
      this.redirectUri := redirectUri;
      this.postForm := postForm;
      this.unmarshal := unmarshal;
    }

    /** `GetToken`: posts the token form to the token endpoint and classifies the exchange. */
    method GetToken(code: string, codeVerifier: string) returns (token: string, err: Option<string>)
      ensures Outcome(token, err) == Classify(postForm(TokenEndpoint, TokenForm(clientId, redirectUri, code, codeVerifier)), unmarshal)
    {
      var reqBody := new UrlValues.Values();
      reqBody.Add("grant_type", "authorization_code");
      reqBody.Add("code", code);
      reqBody.Add("redirect_uri", redirectUri);
      reqBody.Add("client_id", clientId);
      reqBody.Add("code_verifier", codeVerifier);

      var resp := postForm(TokenEndpoint, reqBody.entries);
      if resp.Failure? {
        return "", Some(resp.error);
      }

      if resp.value.statusCode != StatusOK {
        return "", Some(NonOkError(resp.value.statusCode));
      }

      var body := resp.value.body;
      if body.Failure? {
        return "", Some("failed to read response body: " + body.error);
      }

      var responseMap := unmarshal(body.value);
      if responseMap.Failure? {
        return "", Some("failed to unmarshal JSON: " + responseMap.error);
      }

      if "access_token" !in responseMap.value || !responseMap.value["access_token"].JString? {
        return "", Some("access_token not found or is not a string");
      }
      token, err := responseMap.value["access_token"].s, None;
    }
  }
}
