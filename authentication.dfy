/** The OAuth 2 authorization-code flow with PKCE: build the authorization URL, open it in a
    browser with the `open` command, wait for the redirect's callback and keep the code it
    brings in the credential store.

    The collaborators are values fixed when the authenticator is made: the command executor
    is a function from a command to its error (`None` when it succeeds), the callback handler
    a function from a timeout in nanoseconds to the callback's result, and a PKCE generator
    the verifier outcome it produces together with its challenge function. A ghost trace
    records which collaborator was called, in order, with which argument. */
module Authentication {

  import opened Common
  import Strings
  import UrlValues
  import Base64Url
  import Pkce
  import Callback
  import CredentialStore

  const AuthorizeEndpoint := "https://accounts.spotify.com/authorize"

  /** `30 * time.Second`, in nanoseconds as Go's `time.Duration` counts. */
  const CallbackTimeout := 30 * 1_000_000_000

  /** A PKCE generator as the authenticator sees it: what `GenerateCodeVerifier` returns and
      the function `GenerateCodeChallenge` computes. */
  datatype PkceGenerator = PkceGenerator(verifier: Outcome<string>, challenge: string -> string)

  /** `RandomPkceGenerator`, given what the random source produced and SHA-256. */
  function RandomPkceGenerator(read: Pkce.RandomRead, sha256: seq<byte> -> Pkce.Digest): (g: PkceGenerator)
    requires read.Filled? ==> |read.bytes| == Pkce.CodeVerifierLength
    ensures g.verifier == Pkce.GenerateCodeVerifier(read)
    ensures forall v :: g.challenge(v) == Pkce.GenerateCodeChallenge(sha256, v)
    ensures read.Filled? ==> |g.challenge(g.verifier.value)| == 43
  {
    PkceGenerator(Pkce.GenerateCodeVerifier(read), v => Pkce.GenerateCodeChallenge(sha256, v))
  }

  /** One call of the flow into a collaborator. */
  datatype Interaction =
    | GeneratedVerifier
    | DerivedChallenge(verifier: string)
    | ExecutedCommand(command: string)
    | AwaitedCallback(timeout: int)

  /** The query of the authorization request, filled as `buildRequest` fills it: six `Add`
      calls on an empty query, the challenge last. */
  function AuthorizationQuery(clientId: string, redirectUrl: string, challenge: string): map<string, seq<string>>
  {
    var q := UrlValues.Added(UrlValues.Added(UrlValues.Added(map[], "client_id", clientId), "redirect_uri", redirectUrl), "response_type", "code");
    UrlValues.Added(UrlValues.Added(UrlValues.Added(q, "scope", "user-read-private"), "code_challenge_method", "S256"), "code_challenge", challenge)
  }

  /** The query text of the authorization request: `key=value` fields sorted by key and
      joined with `&`, each side escaped. `AuthorizationQueryText` proves that this is what
      `Values.Encode` writes for `AuthorizationQuery`. */
  function AuthorizationText(clientId: string, redirectUrl: string, challenge: string): string
  {
    UrlValues.Join([
      "client_id=" + UrlValues.QueryEscape(clientId),
      "code_challenge=" + UrlValues.QueryEscape(challenge),
      "code_challenge_method=S256",
      "redirect_uri=" + UrlValues.QueryEscape(redirectUrl),
      "response_type=code",
      "scope=user-read-private"])
  }

  /** The text of the authorization request's URL. */
  function AuthorizationUrl(clientId: string, redirectUrl: string, challenge: string): string
  {
    AuthorizeEndpoint + "?" + AuthorizationText(clientId, redirectUrl, challenge)
  }

  // ---- Encoding a query of six single-valued parameters ----

  lemma SixInOrder(a: string, b: string, c: string, d: string, e: string, f: string)
    requires Strings.Less(a, b) && Strings.Less(b, c) && Strings.Less(c, d) && Strings.Less(d, e) && Strings.Less(e, f)
    ensures UrlValues.StrictlyIncreasing([a, b, c, d, e, f])
  {
    UrlValues.IncreasingByAdjacent([a, b, c, d, e, f]);
  }

  lemma SixNested<T>(a: T, b: T, c: T, d: T, e: T, f: T)
    ensures [a, b, c, d, e, f] == [a] + ([b] + ([c] + ([d] + ([e] + [f]))))
  {
  }

  lemma JoinSix(a: string, b: string, c: string, d: string, e: string, f: string)
    ensures UrlValues.Join([a, b, c, d, e, f]) == a + "&" + (b + "&" + (c + "&" + (d + "&" + (e + "&" + f))))
  {
    SixNested(a, b, c, d, e, f);
    UrlValues.JoinCons(e, [f]);
    UrlValues.JoinCons(d, [e] + [f]);
    UrlValues.JoinCons(c, [d] + ([e] + [f]));
    UrlValues.JoinCons(b, [c] + ([d] + ([e] + [f])));
    UrlValues.JoinCons(a, [b] + ([c] + ([d] + ([e] + [f]))));
  }

  lemma SixElements(a: string, b: string, c: string, d: string, e: string, f: string)
    ensures UrlValues.Elements([a, b, c, d, e, f]) == {a, b, c, d, e, f}
  {
    var s := [a, b, c, d, e, f];
    assert s[0] == a && s[1] == b && s[2] == c && s[3] == d && s[4] == e && s[5] == f;
  }

  lemma SixFields(m: map<string, seq<string>>, k1: string, k2: string, k3: string, k4: string, k5: string, k6: string,
                  v1: string, v2: string, v3: string, v4: string, v5: string, v6: string)
    requires k1 in m && m[k1] == [v1] && k2 in m && m[k2] == [v2] && k3 in m && m[k3] == [v3]
    requires k4 in m && m[k4] == [v4] && k5 in m && m[k5] == [v5] && k6 in m && m[k6] == [v6]
    ensures UrlValues.Fields(m, [k1] + ([k2] + ([k3] + ([k4] + ([k5] + [k6]))))) ==
      [UrlValues.Field(k1, v1)] + ([UrlValues.Field(k2, v2)] + ([UrlValues.Field(k3, v3)] +
      ([UrlValues.Field(k4, v4)] + ([UrlValues.Field(k5, v5)] + [UrlValues.Field(k6, v6)]))))
  {
    UrlValues.FieldsCons(m, k6, v6, []);
    assert [k6] + [] == [k6];
    assert [UrlValues.Field(k6, v6)] + [] == [UrlValues.Field(k6, v6)];
    UrlValues.FieldsCons(m, k5, v5, [k6]);
    UrlValues.FieldsCons(m, k4, v4, [k5] + [k6]);
    UrlValues.FieldsCons(m, k3, v3, [k4] + ([k5] + [k6]));
    UrlValues.FieldsCons(m, k2, v2, [k3] + ([k4] + ([k5] + [k6])));
    UrlValues.FieldsCons(m, k1, v1, [k2] + ([k3] + ([k4] + ([k5] + [k6]))));
  }

  lemma Apart(a: string, b: string)
    requires Strings.Less(a, b)
    ensures a != b
  {
    Strings.LessIrreflexive(a);
  }

  /** Six `Add` calls on six different keys, starting from an empty query, in the order
      `buildRequest` makes them: the query holds those six keys, each with exactly the one
      value added for it. */
  lemma AddsInRequestOrder(k1: string, k2: string, k3: string, k4: string, k5: string, k6: string,
                           v1: string, v2: string, v3: string, v4: string, v5: string, v6: string)
    requires Strings.Less(k1, k2) && Strings.Less(k2, k3) && Strings.Less(k3, k4) && Strings.Less(k4, k5) && Strings.Less(k5, k6)
    ensures var m := UrlValues.Added(UrlValues.Added(UrlValues.Added(UrlValues.Added(UrlValues.Added(UrlValues.Added(map[], k1, v1), k4, v4), k5, v5), k6, v6), k3, v3), k2, v2);
      m.Keys == {k1, k2, k3, k4, k5, k6} &&
      m[k1] == [v1] && m[k2] == [v2] && m[k3] == [v3] && m[k4] == [v4] && m[k5] == [v5] && m[k6] == [v6]
  {
    var keys := [k1, k2, k3, k4, k5, k6];
    SixInOrder(k1, k2, k3, k4, k5, k6);
    Apart(keys[0], keys[1]);
    Apart(keys[0], keys[2]);
    Apart(keys[0], keys[3]);
    Apart(keys[0], keys[4]);
    Apart(keys[0], keys[5]);
    Apart(keys[1], keys[2]);
    Apart(keys[1], keys[3]);
    Apart(keys[1], keys[4]);
    Apart(keys[1], keys[5]);
    Apart(keys[2], keys[3]);
    Apart(keys[2], keys[4]);
    Apart(keys[2], keys[5]);
    Apart(keys[3], keys[4]);
    Apart(keys[3], keys[5]);
    Apart(keys[4], keys[5]);
    var m1 := UrlValues.Added(map[], k1, v1);
    var m2 := UrlValues.Added(m1, k4, v4);
    assert m2[k1] == [v1];
    var m3 := UrlValues.Added(m2, k5, v5);
    assert m3[k1] == [v1] && m3[k4] == [v4];
    var m4 := UrlValues.Added(m3, k6, v6);
    assert m4[k1] == [v1] && m4[k4] == [v4] && m4[k5] == [v5];
    var m5 := UrlValues.Added(m4, k3, v3);
    assert m5[k1] == [v1] && m5[k4] == [v4] && m5[k5] == [v5] && m5[k6] == [v6];
    var m6 := UrlValues.Added(m5, k2, v2);
    assert m6[k1] == [v1] && m6[k3] == [v3] && m6[k4] == [v4] && m6[k5] == [v5] && m6[k6] == [v6];
  }

  /** A query of six single-valued parameters, named in increasing order, is written in
      that order. */
  lemma EncodeSix(m: map<string, seq<string>>, k1: string, k2: string, k3: string, k4: string, k5: string, k6: string,
                  v1: string, v2: string, v3: string, v4: string, v5: string, v6: string)
    requires Strings.Less(k1, k2) && Strings.Less(k2, k3) && Strings.Less(k3, k4) && Strings.Less(k4, k5) && Strings.Less(k5, k6)
    requires m.Keys == {k1, k2, k3, k4, k5, k6}
    requires m[k1] == [v1] && m[k2] == [v2] && m[k3] == [v3] && m[k4] == [v4] && m[k5] == [v5] && m[k6] == [v6]
    ensures UrlValues.Encode(m) ==
      UrlValues.Join([UrlValues.Field(k1, v1), UrlValues.Field(k2, v2), UrlValues.Field(k3, v3),
                      UrlValues.Field(k4, v4), UrlValues.Field(k5, v5), UrlValues.Field(k6, v6)])
  {
    var keys := [k1, k2, k3, k4, k5, k6];
    SixInOrder(k1, k2, k3, k4, k5, k6);
    SixFields(m, k1, k2, k3, k4, k5, k6, v1, v2, v3, v4, v5, v6);
    SixElements(k1, k2, k3, k4, k5, k6);
    UrlValues.EncodeInOrder(m, keys);
    SixNested(k1, k2, k3, k4, k5, k6);
    SixNested(UrlValues.Field(k1, v1), UrlValues.Field(k2, v2), UrlValues.Field(k3, v3),
              UrlValues.Field(k4, v4), UrlValues.Field(k5, v5), UrlValues.Field(k6, v6));
  }

  lemma KeysInOrder()
    ensures Strings.Less("client_id", "code_challenge")
    ensures Strings.Less("code_challenge", "code_challenge_method")
    ensures Strings.Less("code_challenge_method", "redirect_uri")
    ensures Strings.Less("redirect_uri", "response_type")
    ensures Strings.Less("response_type", "scope")
  {
  }

  /** A name made of unreserved characters is written as it is. */
  lemma PlainField(key: string, value: string)
    requires forall i :: 0 <= i < |key| ==> UrlValues.IsUnreserved(key[i])
    ensures UrlValues.Field(key, value) == key + "=" + UrlValues.QueryEscape(value)
  {
  }

  /** A field whose name and value are both unreserved text is written as it is. */
  lemma PlainPair(key: string, value: string)
    requires forall i :: 0 <= i < |key| ==> UrlValues.IsUnreserved(key[i])
    requires forall i :: 0 <= i < |value| ==> UrlValues.IsUnreserved(value[i])
    ensures UrlValues.Field(key, value) == key + "=" + value
  {
  }

  lemma ClientIdField(clientId: string)
    ensures UrlValues.Field("client_id", clientId) == "client_id=" + UrlValues.QueryEscape(clientId)
  {
    assert "client_id" + "=" == "client_id=";
    PlainField("client_id", clientId);
  }

  lemma ChallengeField(challenge: string)
    ensures UrlValues.Field("code_challenge", challenge) == "code_challenge=" + UrlValues.QueryEscape(challenge)
  {
    assert "code_challenge" + "=" == "code_challenge=";
    PlainField("code_challenge", challenge);
  }

  lemma RedirectField(redirectUrl: string)
    ensures UrlValues.Field("redirect_uri", redirectUrl) == "redirect_uri=" + UrlValues.QueryEscape(redirectUrl)
  {
    assert "redirect_uri" + "=" == "redirect_uri=";
    PlainField("redirect_uri", redirectUrl);
  }

  lemma MethodText()
    ensures "code_challenge_method" + "=" + "S256" == "code_challenge_method=S256"
  {
  }

  lemma ResponseTypeText()
    ensures "response_type" + "=" + "code" == "response_type=code"
  {
  }

  lemma ScopeText()
    ensures "scope" + "=" + "user-read-private" == "scope=user-read-private"
  {
  }

  lemma MethodField()
    ensures UrlValues.Field("code_challenge_method", "S256") == "code_challenge_method=S256"
  {
    MethodText();
    PlainPair("code_challenge_method", "S256");
  }

  lemma ResponseTypeField()
    ensures UrlValues.Field("response_type", "code") == "response_type=code"
  {
    ResponseTypeText();
    PlainPair("response_type", "code");
  }

  lemma ScopeField()
    ensures UrlValues.Field("scope", "user-read-private") == "scope=user-read-private"
  {
    ScopeText();
    PlainPair("scope", "user-read-private");
  }

  /** The authorization query is written with its parameters sorted by name and each value
      escaped. */
  lemma AuthorizationQueryText(clientId: string, redirectUrl: string, challenge: string)
    ensures UrlValues.Encode(AuthorizationQuery(clientId, redirectUrl, challenge)) ==
      AuthorizationText(clientId, redirectUrl, challenge)
  {
    KeysInOrder();
    AddsInRequestOrder("client_id", "code_challenge", "code_challenge_method", "redirect_uri", "response_type", "scope",
                       clientId, challenge, "S256", redirectUrl, "code", "user-read-private");
    EncodeSix(AuthorizationQuery(clientId, redirectUrl, challenge),
              "client_id", "code_challenge", "code_challenge_method", "redirect_uri", "response_type", "scope",
              clientId, challenge, "S256", redirectUrl, "code", "user-read-private");
    ClientIdField(clientId);
    ChallengeField(challenge);
    RedirectField(redirectUrl);
    MethodField();
    ResponseTypeField();
    ScopeField();
  }

  /** What building the request produces, and which collaborator calls it takes. */
  datatype Built = Built(request: Result<string>, steps: seq<Interaction>)

  /** `buildRequest`: the verifier is generated first; when that fails, the error says so and
      nothing else is called; otherwise the challenge of that verifier goes into the URL. */
  function BuildRequestSpec(clientId: string, redirectUrl: string, generator: PkceGenerator): Built
  {
    match generator.verifier.err
    case Some(cause) =>
      Built(Failure("Error generating the code verifier: " + cause), [GeneratedVerifier])
    case None =>
      var verifier := generator.verifier.value;
      Built(Success(AuthorizationUrl(clientId, redirectUrl, generator.challenge(verifier))),
            [GeneratedVerifier, DerivedChallenge(verifier)])
  }

  /** The URL `buildRequest` returns is the endpoint with the encoding of the query its `Add`
      calls fill, and the challenge is asked for only once a verifier is there, for that
      verifier. */
  lemma BuiltRequestUrl(clientId: string, redirectUrl: string, generator: PkceGenerator)
    ensures var b := BuildRequestSpec(clientId, redirectUrl, generator);
      var challenge := generator.challenge(generator.verifier.value);
      && (b.request.Success? <==> generator.verifier.err.None?)
      && (b.request.Success? ==>
            b.request.value == AuthorizeEndpoint + "?" + UrlValues.Encode(AuthorizationQuery(clientId, redirectUrl, challenge)))
      && (b.request.Success? ==> b.steps == [GeneratedVerifier, DerivedChallenge(generator.verifier.value)])
      && (b.request.Failure? ==> b.steps == [GeneratedVerifier])
      && (b.request.Failure? ==> b.request.error == "Error generating the code verifier: " + generator.verifier.err.value)
  {
    AuthorizationQueryText(clientId, redirectUrl, generator.challenge(generator.verifier.value));
  }

  /** The random generator in the flow: a filled read puts the challenge of the encoded
      random bytes into the URL, where it needs no escaping; a failed read stops the build
      with the reader's error. */
  lemma RandomRequest(clientId: string, redirectUrl: string, read: Pkce.RandomRead, sha256: seq<byte> -> Pkce.Digest)
    requires read.Filled? ==> |read.bytes| == Pkce.CodeVerifierLength
    ensures var b := BuildRequestSpec(clientId, redirectUrl, RandomPkceGenerator(read, sha256));
      read.ReadFailed? ==>
        b == Built(Failure("Error generating the code verifier: " + read.cause), [GeneratedVerifier])
    ensures var b := BuildRequestSpec(clientId, redirectUrl, RandomPkceGenerator(read, sha256));
      read.Filled? ==>
        var challenge := Pkce.GenerateCodeChallenge(sha256, Base64Url.Encode(read.bytes));
        && b.steps == [GeneratedVerifier, DerivedChallenge(Base64Url.Encode(read.bytes))]
        && b.request == Success(AuthorizationUrl(clientId, redirectUrl, challenge))
        && UrlValues.QueryEscape(challenge) == challenge
  {
    if read.Filled? {
      Pkce.EncodedNeedsNoEscaping(Pkce.GenerateCodeChallenge(sha256, Base64Url.Encode(read.bytes)));
    }
  }

  /** How a run of `Authenticate` ends: the error it returns, the code it stores (if any)
      and the collaborator calls it takes. */
  datatype Run = Run(steps: seq<Interaction>, err: Option<string>, storedCode: Option<string>)

  /** Every collaborator call of a complete run, in order. */
  function FullFlow(verifier: string, command: string): seq<Interaction>
  {
    [GeneratedVerifier, DerivedChallenge(verifier), ExecutedCommand(command), AwaitedCallback(CallbackTimeout)]
  }

  /** The command that opens the authorization URL of the generated verifier. */
  function OpenCommand(clientId: string, redirectUrl: string, generator: PkceGenerator): string
  {
    "open " + AuthorizationUrl(clientId, redirectUrl, generator.challenge(generator.verifier.value))
  }

  lemma AppendTwo<T>(s: seq<T>, a: T, b: T)
    ensures s + [a] + [b] == s + [a, b]
  {
  }

  lemma AppendAfter<T>(s: seq<T>, t: seq<T>, a: T, b: T)
    ensures s + t + [a] == s + (t + [a])
    ensures s + t + [a] + [b] == s + (t + [a, b])
  {
  }

  predicate IsPrefix<T(==)>(p: seq<T>, s: seq<T>)
  {
    |p| <= |s| && p == s[..|p|]
  }

  /** `Authenticate`, as a function of its collaborators. */
  function AuthenticateRun(clientId: string, redirectUrl: string, generator: PkceGenerator,
                           executeCommand: string -> Option<string>,
                           callbackHandler: int -> Callback.CallbackResult): (run: Run)
    // A code is stored exactly when the flow returns no error, and it is the callback's.
    ensures run.err.None? <==> run.storedCode.Some?
    ensures run.storedCode.Some? ==> |run.steps| == 4 && run.storedCode.value == callbackHandler(CallbackTimeout).code
    // No command runs without a verifier.
    ensures generator.verifier.err.Some? ==>
      run.steps == [GeneratedVerifier] && run.err == Some("Error generating the code verifier: " + generator.verifier.err.value)
  {
    var built := BuildRequestSpec(clientId, redirectUrl, generator);
    match built.request
    case Failure(e) => Run(built.steps, Some(e), None)
    case Success(url) =>
      var command := "open " + url;
      match executeCommand(command)
      case Some(cause) =>
        Run(built.steps + [ExecutedCommand(command)], Some("Error opening browser window: " + cause), None)
      case None =>
        var callback := callbackHandler(CallbackTimeout);
        var steps := built.steps + [ExecutedCommand(command), AwaitedCallback(CallbackTimeout)];
        if callback.err != "" then Run(steps, Some(callback.err), None)
        else Run(steps, None, Some(callback.code))
  }

  /** The calls of a run are always the first steps of the complete flow, whose command
      opens the authorization URL of the generated verifier's challenge. */
  lemma RunFollowsFlow(clientId: string, redirectUrl: string, generator: PkceGenerator,
                       executeCommand: string -> Option<string>, callbackHandler: int -> Callback.CallbackResult)
    ensures var run := AuthenticateRun(clientId, redirectUrl, generator, executeCommand, callbackHandler);
      1 <= |run.steps| && IsPrefix(run.steps, FullFlow(generator.verifier.value, OpenCommand(clientId, redirectUrl, generator)))
  {
  }

  /** The command runs exactly when there is a verifier; only its failure stops the run after
      three calls, and its error says so. */
  lemma RunStopsAtCommand(clientId: string, redirectUrl: string, generator: PkceGenerator,
                          executeCommand: string -> Option<string>, callbackHandler: int -> Callback.CallbackResult)
    ensures var run := AuthenticateRun(clientId, redirectUrl, generator, executeCommand, callbackHandler);
      var commandErr := executeCommand(OpenCommand(clientId, redirectUrl, generator));
      && (generator.verifier.err.None? ==> |run.steps| >= 3)
      && (|run.steps| == 3 <==> generator.verifier.err.None? && commandErr.Some?)
      && (|run.steps| == 3 ==> run.err == Some("Error opening browser window: " + commandErr.value))
  {
  }

  /** Once the callback has been awaited, its error is returned as it is, and otherwise its
      code is stored. */
  lemma RunEndsWithCallback(clientId: string, redirectUrl: string, generator: PkceGenerator,
                            executeCommand: string -> Option<string>, callbackHandler: int -> Callback.CallbackResult)
    ensures var run := AuthenticateRun(clientId, redirectUrl, generator, executeCommand, callbackHandler);
      var callback := callbackHandler(CallbackTimeout);
      |run.steps| == 4 ==>
        run.err == (if callback.err != "" then Some(callback.err) else None) &&
        run.storedCode == (if callback.err != "" then None else Some(callback.code))
  {
  }

  /** `AuthenticateRun` step by step, after the request has been built. */
  lemma RunAfterRequest(clientId: string, redirectUrl: string, generator: PkceGenerator,
                        executeCommand: string -> Option<string>, callbackHandler: int -> Callback.CallbackResult)
    ensures var built := BuildRequestSpec(clientId, redirectUrl, generator);
      var run := AuthenticateRun(clientId, redirectUrl, generator, executeCommand, callbackHandler);
      var command := OpenCommand(clientId, redirectUrl, generator);
      var callback := callbackHandler(CallbackTimeout);
      && (built.request.Failure? ==> run == Run(built.steps, Some(built.request.error), None))
      && (built.request.Success? && executeCommand(command).Some? ==>
            run == Run(built.steps + [ExecutedCommand(command)], Some("Error opening browser window: " + executeCommand(command).value), None))
      && (built.request.Success? && executeCommand(command).None? ==>
            run == Run(built.steps + [ExecutedCommand(command), AwaitedCallback(CallbackTimeout)],
                       if callback.err != "" then Some(callback.err) else None,
                       if callback.err != "" then None else Some(callback.code)))
  {
  }

  class Authenticator {
    const clientId: string
    const redirectUrl: string
    const commandExecutor: string -> Option<string>
    const pkceGenerator: PkceGenerator
    const callbackHandler: int -> Callback.CallbackResult
    const credentialStore: CredentialStore.Store

    /** The collaborator calls made so far. */
    ghost var interactions: seq<Interaction>

    /** `NewAuthenticator`. */
    constructor (clientId: string, redirectUrl: string, commandExecutor: string -> Option<string>,
                 pkceGenerator: PkceGenerator, callbackHandler: int -> Callback.CallbackResult,
                 credentialStore: CredentialStore.Store)
      ensures this.clientId == clientId && this.redirectUrl == redirectUrl
      ensures this.commandExecutor == commandExecutor && this.pkceGenerator == pkceGenerator
      ensures this.callbackHandler == callbackHandler && this.credentialStore == credentialStore
      ensures interactions == []
    {
      this.clientId := clientId;
      this.redirectUrl := redirectUrl;
      this.commandExecutor := commandExecutor;
      this.pkceGenerator := pkceGenerator;
      this.callbackHandler := callbackHandler;
      this.credentialStore := credentialStore;
      interactions := [];
    }

    /** `buildRequest`: fills a `url.Values` parameter by parameter and returns the URL. */
    method BuildRequest() returns (request: Result<string>)
      modifies this
      ensures var b := BuildRequestSpec(clientId, redirectUrl, pkceGenerator);
        request == b.request && interactions == old(interactions) + b.steps
    {
      var q := new UrlValues.Values();
      q.Add("client_id", clientId);
      q.Add("redirect_uri", redirectUrl);
      q.Add("response_type", "code");
      q.Add("scope", "user-read-private");
      q.Add("code_challenge_method", "S256");

      var verifier := pkceGenerator.verifier;
      interactions := interactions + [GeneratedVerifier];
      if verifier.err.Some? {
        return Failure("Error generating the code verifier: " + verifier.err.value);
      }

      var challenge := pkceGenerator.challenge(verifier.value);
      interactions := interactions + [DerivedChallenge(verifier.value)];
      AppendTwo(old(interactions), GeneratedVerifier, DerivedChallenge(verifier.value));
      q.Add("code_challenge", challenge);

      assert q.entries == AuthorizationQuery(clientId, redirectUrl, challenge);
      AuthorizationQueryText(clientId, redirectUrl, challenge);
      request := Success(AuthorizeEndpoint + "?" + UrlValues.Encode(q.entries));
    }

    /** `Authenticate`: the run `AuthenticateRun` describes, with the code written to the
        credential store and the token left alone. */
    method Authenticate() returns (err: Option<string>)
      modifies this, credentialStore
      ensures var run := AuthenticateRun(clientId, redirectUrl, pkceGenerator, commandExecutor, callbackHandler);
        && err == run.err
        && interactions == old(interactions) + run.steps
        && credentialStore.code == (if run.storedCode.Some? then run.storedCode.value else old(credentialStore.code))
        && credentialStore.token == old(credentialStore.token)
    {
      var request := BuildRequest();
      ghost var built := BuildRequestSpec(clientId, redirectUrl, pkceGenerator);
      RunAfterRequest(clientId, redirectUrl, pkceGenerator, commandExecutor, callbackHandler);
      if request.Failure? {
        return Some(request.error);
      }

      var command := "open " + request.value;
      var commandErr := commandExecutor(command);
      AppendAfter(old(interactions), built.steps, ExecutedCommand(command), AwaitedCallback(CallbackTimeout));
      interactions := interactions + [ExecutedCommand(command)];
      if commandErr.Some? {
        return Some("Error opening browser window: " + commandErr.value);
      }

      var callback := callbackHandler(CallbackTimeout);
      interactions := interactions + [AwaitedCallback(CallbackTimeout)];
      if callback.err != "" {
        return Some(callback.err);
      }

      credentialStore.code := callback.code;
      err := None;
    }
  }
}
