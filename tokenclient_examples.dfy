/** The scenarios of the token client's test. The test's HTTP stand-in becomes the client's
    `postForm`; the text of each response body is left to the decoder, which each scenario
    describes by what it returns for that body. */
module TokenClientExamples {

  import opened Common
  import Strings
  import UrlValues
  import opened TokenClient

  /** The stand-in of the first scenario. The Go stand-in always answers 200 with the body and
      reports a wrong address or field through the test's assertions; here those assertions
      become the condition for answering, and a request that fails them is refused. The check
      of the HTTP method is not modelled. */
  function CheckingPost(body: seq<byte>): (string, map<string, seq<string>>) -> Result<Response>
  {
    (address, form) =>
      if address == TokenEndpoint
         && UrlValues.Get(form, "grant_type") == "authorization_code"
         && UrlValues.Get(form, "code") == "expected-code"
         && UrlValues.Get(form, "redirect_uri") == "expected-redirect-uri"
         && UrlValues.Get(form, "client_id") == "expected-client-id"
         && UrlValues.Get(form, "code_verifier") == "expected-code-verifier"
      then Success(Response(StatusOK, Success(body)))
      else Failure("unexpected request")
  }

  /** "It should build a valid request and return the access token." */
  method ValidRequestReturnsToken(body: seq<byte>, unmarshal: Unmarshal) returns (token: string, err: Option<string>)
    requires unmarshal(body) == Success(map["access_token" := JString("expected-access-token")])
    ensures token == "expected-access-token" && err == None
  {
    var client := new SpotifyTokenClient("expected-client-id", "expected-redirect-uri", CheckingPost(body), unmarshal);
    TokenFormFields("expected-client-id", "expected-redirect-uri", "expected-code", "expected-code-verifier");
    token, err := client.GetToken("expected-code", "expected-code-verifier");
  }

  /** "It should return the error from http client if any": the error as the client gave it. */
  method TransportErrorReturned(httpError: string, unmarshal: Unmarshal) returns (token: string, err: Option<string>)
    ensures token == "" && err == Some(httpError)
  {
    var client := new SpotifyTokenClient("expected-client-id", "expected-redirect-uri", (address, form) => Failure(httpError), unmarshal);
    token, err := client.GetToken("a code", "a verifier");
  }

  lemma InternalServerErrorText()
    ensures NonOkError(500) == "received non-OK response: 500"
  {
    assert 500 / 10 == 50 && 500 % 10 == 0 && 50 / 10 == 5 && 50 % 10 == 0;
    assert Strings.FormatInt(500) == "500";
  }

  /** "It should return an error if the status code is not 200", with status 500. */
  method InternalServerError(body: Result<seq<byte>>, unmarshal: Unmarshal) returns (token: string, err: Option<string>)
    ensures token == "" && err == Some("received non-OK response: 500")
  {
    var client := new SpotifyTokenClient("expected-client-id", "expected-redirect-uri",
      (address, form) => Success(Response(500, body)), unmarshal);
    InternalServerErrorText();
    token, err := client.GetToken("a code", "a verifier");
  }

  /** "It should return an error if the access token is not present in the response", for
      the body `{}`. */
  method EmptyObjectHasNoToken(body: seq<byte>, unmarshal: Unmarshal) returns (token: string, err: Option<string>)
    requires unmarshal(body) == Success(map[])
    ensures token == "" && err == Some("access_token not found or is not a string")
  {
    var client := new SpotifyTokenClient("expected-client-id", "expected-redirect-uri",
      (address, form) => Success(Response(StatusOK, Success(body))), unmarshal);
    token, err := client.GetToken("a code", "a verifier");
  }

  /** The same scenario for a body that is not JSON: the decoder's error, prefixed. */
  method InvalidJsonRejected(body: seq<byte>, unmarshal: Unmarshal) returns (token: string, err: Option<string>)
    requires unmarshal(body).Failure?
    ensures token == "" && err == Some("failed to unmarshal JSON: " + unmarshal(body).error)
  {
    var client := new SpotifyTokenClient("expected-client-id", "expected-redirect-uri",
      (address, form) => Success(Response(StatusOK, Success(body))), unmarshal);
    token, err := client.GetToken("a code", "a verifier");
  }
}
