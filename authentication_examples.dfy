/** The scenarios of the authenticator's test, with its collaborators replaced by the test's
    stand-ins: a generator that hands out a fixed verifier and challenge, a command executor
    that accepts one expected command, and callback handlers that succeed or fail at once. */
module AuthenticationExamples {

  import opened Common
  import UrlValues
  import Callback
  import CredentialStore
  import opened Authentication

  /** A command executor expecting `expectedCommand`: any other command fails with a message
      naming both, the expected one gets `errorReturned`. */
  function MockCommandExecutor(expectedCommand: string, errorReturned: Option<string>): string -> Option<string>
  {
    command => if command != expectedCommand then Some("Expected\t" + expectedCommand + "\ngot\t\t" + command) else errorReturned
  }

  /** A generator returning `verifier` and `verifierError` as they are, and `pkce` as the
      challenge of its verifier. */
  function MockPkceGenerator(pkce: string, verifier: string, verifierError: Option<string>): PkceGenerator
  {
    PkceGenerator(Outcome(verifier, verifierError), v => pkce)
  }

  const MockCallbackHandlerError := "an mock error occurred"

  function MockSucceedingCallbackHandler(): int -> Callback.CallbackResult
  {
    timeout => Callback.CallbackResult("mock code", "")
  }

  function MockFailingCallbackHandler(): int -> Callback.CallbackResult
  {
    timeout => Callback.CallbackResult("", MockCallbackHandlerError)
  }

  /** The command the test expects, written piece by piece as the test writes it. */
  const ExpectedCommand := "open " + "https://accounts.spotify.com/authorize?" + "client_id=clientId&" + "code_challenge=pkce&" +
    "code_challenge_method=S256&" + "redirect_uri=redirectUrl&" + "response_type=code&" + "scope=user-read-private"

  lemma Regrouped(open: string, endpoint: string, mark: string, amp: string, a1: string, a2: string, b1: string, b2: string,
                  c: string, d1: string, d2: string, e: string, f: string)
    ensures open + (endpoint + mark + ((a1 + a2) + amp + ((b1 + b2) + amp + (c + amp + ((d1 + d2) + amp + (e + amp + f)))))) ==
      open + (endpoint + mark) + (a1 + a2 + amp) + (b1 + b2 + amp) + (c + amp) + (d1 + d2 + amp) + (e + amp) + f
  {
  }

  lemma EndpointPiece() ensures AuthorizeEndpoint + "?" == "https://accounts.spotify.com/authorize?" {}
  lemma ClientIdPiece() ensures "client_id=" + "clientId" + "&" == "client_id=clientId&" {}
  lemma ChallengePiece() ensures "code_challenge=" + "pkce" + "&" == "code_challenge=pkce&" {}
  lemma MethodPiece() ensures "code_challenge_method=S256" + "&" == "code_challenge_method=S256&" {}
  lemma RedirectPiece() ensures "redirect_uri=" + "redirectUrl" + "&" == "redirect_uri=redirectUrl&" {}
  lemma ResponseTypePiece() ensures "response_type=code" + "&" == "response_type=code&" {}

  lemma UnreservedTexts()
    ensures UrlValues.QueryEscape("clientId") == "clientId"
    ensures UrlValues.QueryEscape("pkce") == "pkce"
    ensures UrlValues.QueryEscape("redirectUrl") == "redirectUrl"
  {
    assert forall i :: 0 <= i < |"clientId"| ==> UrlValues.IsUnreserved("clientId"[i]);
    assert forall i :: 0 <= i < |"pkce"| ==> UrlValues.IsUnreserved("pkce"[i]);
    assert forall i :: 0 <= i < |"redirectUrl"| ==> UrlValues.IsUnreserved("redirectUrl"[i]);
  }

  /** The authenticator of the test opens exactly the URL the test expects: its parameters
      sorted by name, nothing escaped. */
  lemma ExpectedCommandOpened()
    ensures OpenCommand("clientId", "redirectUrl", MockPkceGenerator("pkce", "verifier", None)) == ExpectedCommand
  {
    UnreservedTexts();
    JoinSix("client_id=" + "clientId", "code_challenge=" + "pkce", "code_challenge_method=S256",
            "redirect_uri=" + "redirectUrl", "response_type=code", "scope=user-read-private");
    Regrouped("open ", AuthorizeEndpoint, "?", "&", "client_id=", "clientId", "code_challenge=", "pkce", "code_challenge_method=S256",
              "redirect_uri=", "redirectUrl", "response_type=code", "scope=user-read-private");
    EndpointPiece();
    ClientIdPiece();
    ChallengePiece();
    MethodPiece();
    RedirectPiece();
    ResponseTypePiece();
  }

  // ---- The four scenarios ----

  /** "It should authenticate the user and save the code in the store": no error, and the
      callback's code is in the store. */
  method AuthenticateAndStoreCode() returns (err: Option<string>, storedCode: string)
    ensures err == None && storedCode == "mock code"
  {
    var store := new CredentialStore.Store();
    var generator := MockPkceGenerator("pkce", "verifier", None);
    var executor := MockCommandExecutor(ExpectedCommand, None);
    var callback := MockSucceedingCallbackHandler();
    var authenticator := new Authenticator("clientId", "redirectUrl", executor, generator, callback, store);
    ExpectedCommandOpened();
    RunFollowsFlow("clientId", "redirectUrl", generator, executor, callback);
    RunStopsAtCommand("clientId", "redirectUrl", generator, executor, callback);
    RunEndsWithCallback("clientId", "redirectUrl", generator, executor, callback);
    err := authenticator.Authenticate();
    storedCode := store.code;
  }

  /** "It should return an error when pkce generator returns an error": the generator's error,
      prefixed, and nothing stored. */
  method FailToGenerateVerifier() returns (err: Option<string>, storedCode: string)
    ensures err == Some("Error generating the code verifier: " + "Error generating the verifier") && storedCode == ""
  {
    var store := new CredentialStore.Store();
    var generator := MockPkceGenerator("ignored", "ignored", Some("Error generating the verifier"));
    var executor := MockCommandExecutor("ignored", None);
    var authenticator := new Authenticator("clientId", "redirectUrl", executor, generator, MockSucceedingCallbackHandler(), store);
    err := authenticator.Authenticate();
    storedCode := store.code;
  }

  /** "It should return an error when the command executor returns an error": the browser
      cannot be opened, and nothing is stored. (The stand-in expects the command "ignored", so
      the error it gives is its complaint about the command it got.) */
  method FailToOpenBrowser() returns (err: Option<string>, storedCode: string)
    ensures err.Some? && storedCode == ""
  {
    var store := new CredentialStore.Store();
    var generator := MockPkceGenerator("ignored", "ignored", None);
    var executor := MockCommandExecutor("ignored", Some("Command execution error"));
    var callback := MockSucceedingCallbackHandler();
    var authenticator := new Authenticator("clientId", "redirectUrl", executor, generator, callback, store);
    RunStopsAtCommand("clientId", "redirectUrl", generator, executor, callback);
    err := authenticator.Authenticate();
    storedCode := store.code;
  }

  /** "It should return an error if the callback fails": the callback's error as it is. */
  method FailInCallback() returns (err: Option<string>, storedCode: string)
    ensures err == Some(MockCallbackHandlerError) && storedCode == ""
  {
    var store := new CredentialStore.Store();
    var generator := MockPkceGenerator("pkce", "verifier", None);
    var executor := MockCommandExecutor(ExpectedCommand, None);
    var callback := MockFailingCallbackHandler();
    var authenticator := new Authenticator("clientId", "redirectUrl", executor, generator, callback, store);
    ExpectedCommandOpened();
    RunFollowsFlow("clientId", "redirectUrl", generator, executor, callback);
    RunStopsAtCommand("clientId", "redirectUrl", generator, executor, callback);
    RunEndsWithCallback("clientId", "redirectUrl", generator, executor, callback);
    err := authenticator.Authenticate();
    storedCode := store.code;
  }
}
