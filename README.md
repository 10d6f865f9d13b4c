# Spotify playlist client: OAuth 2 authorization with PKCE

This project is a Dafny model of the authentication core of the Go client Gprisco/spotify-playlist.
It covers:

- The **authenticator** (`client/auth/authentication.go`). `buildRequest` fills a `url.Values`
  with six parameters and writes them, sorted by name, into the query of
  `https://accounts.spotify.com/authorize`. `Authenticate` generates the PKCE verifier, opens the
  URL with `open <url>`, calls the callback handler with a 30-second timeout and acts on the
  result it returns, keeping the callback's code in the credential store. It stops at the first failure.
- The **token client** (`client/auth/tokenclient/tokenclient.go`). `GetToken` posts a five-field
  form to `https://accounts.spotify.com/api/token` and classifies the outcome, in this order:
  transport error, non-200 status, unreadable body, undecodable JSON, missing or non-string
  `access_token`, then success.
- The **PKCE generator** (`client/auth/pkce.go`). The verifier is 32 random bytes in unpadded
  base64url (section 4.1 of RFC 7636). The challenge is the unpadded base64url form of the
  SHA-256 digest of the verifier (section 4.2 of RFC 7636). The model includes the base64url
  encoder of section 5 of RFC 4648, a decoder, and the example of appendix B of RFC 7636.
- The **callback handler** (`client/auth/callback/callback.go`, with a copy with the same logic in
  `client/auth/callback.go`). A GET request delivers the `code` and `error` query values and is
  answered with status 200 and an empty body. Other methods are ignored.
- The **credential store** (`client/auth/store.go`). A lazily created singleton.

Collaborators the code receives or calls into are parameters of the model. In the authenticator
these are the command executor, the PKCE generator and the callback handler. Elsewhere they are
the random source, SHA-256, the HTTP client and the JSON decoder. Go's `error` values are
modelled by the text their `Error()` method returns.

The Go objects with state or identity become classes:

- `Authenticator`, with a ghost trace of the collaborator calls;
- `Values`;
- `ResponseWriter` and `CallbackHandler`, where the channel becomes the sequence of results sent;
- `Store` and a `Registry` holding the package-level singleton pointer;
- `SpotifyTokenClient`.

The methods are proved against functions of their inputs and state:

- `Authenticator.BuildRequest` against `BuildRequestSpec`. The method fills a `Values` in
  place and encodes it; `AuthorizationQueryText` links that encoding to the URL text of
  `BuildRequestSpec`, and `BuiltRequestUrl` states the URL as the encoding of the query.
- `Authenticator.Authenticate` against `AuthenticateRun`.
- `SpotifyTokenClient.GetToken` against `Classify` applied to the posted `TokenForm`.
- `Values.Add` against `Added`.
- `CallbackHandler.ServeHTTP`, `ResponseWriter.WriteHeader`, `ResponseWriter.Write` and
  `Registry.GetCredentialStore` state their new fields directly, in terms of `Get` and the old
  fields.

The properties the code promises are proved about those functions.

Files:

| file | module |
|---|---|
| `common.dfy` | `Common`: byte, Option, Result, the `(value, err)` pair |
| `strings.dfy` | `Strings`: byte-wise string order, `%d` formatting and its inverse |
| `utf8.dfy` | `Utf8`: `[]byte(s)` |
| `base64url.dfy` | `Base64Url`: `base64.RawURLEncoding` |
| `urlvalues.dfy` | `UrlValues`: `url.Values`, `Add`, `Get`, `QueryEscape`, `Encode` |
| `pkce.dfy` | `Pkce` |
| `callback.dfy` | `Callback` |
| `store.dfy` | `CredentialStore` |
| `authentication.dfy` | `Authentication` |
| `authentication_examples.dfy` | `AuthenticationExamples`: the scenarios of `authentication_test.go` |
| `tokenclient.dfy` | `TokenClient` |
| `tokenclient_examples.dfy` | `TokenClientExamples`: the scenarios of `tokenclient_test.go` |

Some consequences of the code worth stating:

- Errors are formatted texts; there are no error kinds.
- The store's fields are plainly assigned, and `Authenticate` overwrites the code.
- A callback timeout is not an outcome of `Authenticate`. The flow only sees what the callback
  handler returns.
- `Values.Encode` sorts both the authorization query and the token form by key.

The code itself is inconsistent in three places. The model follows the evident intent:

- `authentication.go:21,62` calls `callback.CallbackHandler` as a function of the timeout,
  although `callback/callback.go:10` declares it as a struct. It is modelled as a function from a
  timeout in nanoseconds to a `CallbackResult`.
- `authentication.go:68` writes `Code`, but `store.go:8` declares `code`. The model has a single
  field `code`.
- The third scenario of `authentication_test.go:146-178` passes without reaching the error it
  sets up. Its stand-in executor expects the command `"ignored"`, so the real command is refused
  with the stand-in's mismatch message, not with `Command execution error`.
  `AuthenticationExamples.FailToOpenBrowser` therefore only states that an error is returned.

## Model

| member | source | states |
|---|---|---|
| Authentication.RandomPkceGenerator | client/auth/pkce.go:14-30 | the random generator hands out `GenerateCodeVerifier`'s outcome and `GenerateCodeChallenge` as its challenge function, and a filled read gives a challenge of 43 characters |
| Authentication.AuthorizationQuery | client/auth/authentication.go:87-104 | defines the query `buildRequest` fills: the six `Add` calls in the order `buildRequest` makes them, starting from the empty query of the endpoint URL |
| Authentication.AuthorizationText | client/auth/authentication.go:106 | defines, independently of `Encode`, the expected query text: the six fields sorted by name, the client id, challenge and redirect address escaped |
| Authentication.AuthorizationUrl | client/auth/authentication.go:76-108 | defines the URL of the built request: the authorize endpoint, `?`, then the query text |
| Authentication.AddsInRequestOrder | client/auth/authentication.go:87-104 | for any six keys in strictly increasing order, added to an empty query in the permutation `buildRequest` uses (first, fourth, fifth, sixth, third, second, as client_id, redirect_uri, response_type, scope, code_challenge_method, code_challenge are), the query holds exactly those keys, each with the single value added for it |
| Authentication.EncodeSix | client/auth/authentication.go:106 | a query of six single-valued keys in increasing order is written by `Encode` as their six `key=value` fields in that order, joined with `&` |
| Authentication.KeysInOrder | client/auth/authentication.go:88-104 | the six parameter names are in strictly increasing byte order: client_id, code_challenge, code_challenge_method, redirect_uri, response_type, scope |
| Authentication.AuthorizationQueryText | client/auth/authentication.go:87-106 | the query `buildRequest` fills is encoded as the six fields sorted by name, client id, challenge and redirect address escaped, the constant fields as they are |
| Authentication.BuiltRequestUrl | client/auth/authentication.go:87-108 | the built request exists exactly when the verifier was generated; it is then the endpoint followed by `Encode` of the `Add` chain, after the calls for the verifier and its challenge; otherwise the error is the prefixed generator error after the single verifier call |
| Authentication.RandomRequest | client/auth/authentication.go:94-104 | with the random generator, a failed read stops the build with `Error generating the code verifier: <cause>` after one call; a filled read asks for the challenge of the encoded bytes, which goes into the URL and is left unchanged by `QueryEscape` |
| Authentication.BuildRequestSpec | client/auth/authentication.go:95-108 | a verifier error yields `Error generating the code verifier: <cause>` after the single generator call; otherwise the generator is asked for the verifier's challenge and the result is the authorization URL with that challenge |
| Authentication.OpenCommand | client/auth/authentication.go:52 | defines the command `Authenticate` runs: `open ` followed by the authorization URL of the generated verifier's challenge |
| Authentication.AuthenticateRun | client/auth/authentication.go:44-71 | a code is stored exactly when no error is returned, and it is the callback's code; a verifier failure ends the run after one call with the generator's error, prefixed |
| Authentication.RunFollowsFlow | client/auth/authentication.go:44-71 | the calls of any run are a non-empty prefix of: generate verifier, derive its challenge, run `open <authorization URL>`, await the callback with 30 s |
| Authentication.RunStopsAtCommand | client/auth/authentication.go:52-59 | with a verifier the command always runs; the run stops after it exactly when it fails, with `Error opening browser window: <cause>` |
| Authentication.RunEndsWithCallback | client/auth/authentication.go:62-70 | after the callback, a non-empty callback error is returned as it is and nothing is stored; otherwise no error and the callback's code is stored |
| Authentication.Authenticator.constructor | client/auth/authentication.go:25-41 | `NewAuthenticator` keeps the six collaborators as given, and no call has been made yet |
| Authentication.Authenticator.BuildRequest | client/auth/authentication.go:73-109 | the method's request and its calls into the generator are those of `BuildRequestSpec` |
| Authentication.Authenticator.Authenticate | client/auth/authentication.go:44-71 | the method returns the error of `AuthenticateRun`, makes its calls in its order, writes the store's code only when the run stores one, and leaves the token alone |
| AuthenticationExamples.ExpectedCommandOpened | client/auth/authentication_test.go:69-82 | with the test's client id, redirect address and challenge, the command run is exactly the test's expected `open https://accounts.spotify.com/authorize?client_id=clientId&code_challenge=pkce&...&scope=user-read-private` |
| AuthenticationExamples.MockCommandExecutor | client/auth/authentication_test.go:13-24 | defines the test's executor: it refuses any command but the expected one with a mismatch message, and otherwise returns its configured error |
| AuthenticationExamples.MockPkceGenerator | client/auth/authentication_test.go:27-44 | defines the test's generator: the configured verifier and error, and the configured challenge for any verifier (the panic on another verifier is left out) |
| AuthenticationExamples.MockSucceedingCallbackHandler | client/auth/authentication_test.go:47-52 | defines the callback that returns `mock code` and no error |
| AuthenticationExamples.MockFailingCallbackHandler | client/auth/authentication_test.go:55-62 | defines the callback that returns `an mock error occurred` |
| AuthenticationExamples.UnreservedTexts | client/auth/authentication_test.go:69-95 | the test's client id, challenge and redirect address need no escaping |
| AuthenticationExamples.AuthenticateAndStoreCode | client/auth/authentication_test.go:66-110 | the first scenario returns no error and stores `mock code` |
| AuthenticationExamples.FailToGenerateVerifier | client/auth/authentication_test.go:112-144 | a failing generator makes `Authenticate` return the prefixed generator error and store nothing |
| AuthenticationExamples.FailToOpenBrowser | client/auth/authentication_test.go:146-178 | a failing command makes `Authenticate` return an error and store nothing |
| AuthenticationExamples.FailInCallback | client/auth/authentication_test.go:180-215 | a failing callback makes `Authenticate` return exactly `an mock error occurred` and store nothing |
| TokenClient.FiveAdds | client/auth/tokenclient/tokenclient.go:30-35 | five `Add` calls on five different keys leave exactly those keys, each with its single value |
| TokenClient.TokenForm | client/auth/tokenclient/tokenclient.go:30-35 | defines the posted form as the five `Add` calls in the order `GetToken` makes them, on an empty `url.Values` |
| TokenClient.TokenFormFields | client/auth/tokenclient/tokenclient.go:30-35 | the form holds exactly grant_type=authorization_code, code, redirect_uri, client_id and code_verifier, each read back by `Get` as what was added |
| TokenClient.Classify | client/auth/tokenclient/tokenclient.go:37-68 | every error comes with the empty token; a transport error is returned unchanged; a non-200 status gives `received non-OK response: <status>`; no error exactly when the response is 200, its body reads, decodes, and holds a string `access_token`, which is then the token |
| TokenClient.NonOkError | client/auth/tokenclient/tokenclient.go:46 | defines the error for a non-200 status: `received non-OK response: ` followed by the status in decimal |
| TokenClient.NonOkIgnoresBody | client/auth/tokenclient/tokenclient.go:45-47 | for a non-200 status neither the body nor the decoder changes the outcome |
| TokenClient.NonOkErrorNamesStatus | client/auth/tokenclient/tokenclient.go:46 | the status can be parsed back from the text after `received non-OK response: ` |
| TokenClient.NonOkErrorInjective | client/auth/tokenclient/tokenclient.go:46 | different statuses give different errors |
| TokenClient.UndecodableBody | client/auth/tokenclient/tokenclient.go:57-60 | a 200 body that fails to decode gives `failed to unmarshal JSON: <cause>` and the empty token |
| TokenClient.UnreadableBody | client/auth/tokenclient/tokenclient.go:49-53 | a 200 response whose body cannot be read gives `failed to read response body: <cause>` and the empty token, whatever the decoder |
| TokenClient.NoAccessToken | client/auth/tokenclient/tokenclient.go:63-66 | a decoded object without a string `access_token` gives `access_token not found or is not a string` |
| TokenClient.SpotifyTokenClient.constructor | client/auth/tokenclient/tokenclient.go:11-15 | the client keeps its id, redirect address, HTTP client and decoder |
| TokenClient.SpotifyTokenClient.GetToken | client/auth/tokenclient/tokenclient.go:24-69 | the token and error are those `Classify` gives for posting `TokenForm` to the token endpoint |
| TokenClientExamples.ValidRequestReturnsToken | client/auth/tokenclient/tokenclient_test.go:24-76 | a stand-in that answers only a correctly addressed form with the expected fields makes `GetToken` return `expected-access-token` and no error |
| TokenClientExamples.CheckingPost | client/auth/tokenclient/tokenclient_test.go:28-58 | the test's stand-in, with its `t.Errorf` checks on the address and the five fields (lines 35-47) turned into a refused request; the Go stand-in always answers 200 with the body, and the check of the POST method (line 31) is not modelled |
| TokenClientExamples.TransportErrorReturned | client/auth/tokenclient/tokenclient_test.go:78-102 | a transport error is returned as it is, with the empty token |
| TokenClientExamples.InternalServerErrorText | client/auth/tokenclient/tokenclient_test.go:124 | status 500 is reported as `received non-OK response: 500` |
| TokenClientExamples.InternalServerError | client/auth/tokenclient/tokenclient_test.go:104-129 | a 500 response gives `received non-OK response: 500`, whatever its body |
| TokenClientExamples.EmptyObjectHasNoToken | client/auth/tokenclient/tokenclient_test.go:131-159 | a body decoding to `{}` gives `access_token not found or is not a string` |
| TokenClientExamples.InvalidJsonRejected | client/auth/tokenclient/tokenclient_test.go:161-188 | a body that does not decode gives `failed to unmarshal JSON: ` and the decoder's error |
| Pkce.GenerateCodeVerifier | client/auth/pkce.go:16-24 | a failed read gives the empty verifier and the read's error; a filled read gives no error and a verifier of 43 characters, within 43..128, in the unpadded base64url alphabet, that decodes back to the random bytes |
| Pkce.GenerateCodeChallenge | client/auth/pkce.go:26-30 | the challenge is 43 characters of the unpadded base64url alphabet and decodes to the SHA-256 digest of the verifier's UTF-8 bytes |
| Pkce.EncodedNeedsNoEscaping | client/auth/pkce.go:23 | an encoded verifier or challenge is left unchanged by `QueryEscape` |
| Pkce.EncodeAppendixBOctets | client/auth/pkce_test.go:28 | the 32 octets of appendix B of RFC 7636 encode to the verifier `dBjftJeZ4CVP-mB92K27uhbUJU1p1r_wW1gFWFOEjXk` |
| Pkce.EncodeAppendixBDigest | client/auth/pkce_test.go:29 | the digest listed in appendix B encodes to the challenge `E9Melhoa2OwvFrEMTJguCHaoeK1t8URWbuGJSstw-cM` |
| Pkce.AppendixBChallengeValue | client/auth/pkce_test.go:26-37 | whenever SHA-256 maps the appendix B verifier to appendix B's digest, `GenerateCodeChallenge` returns the expected challenge |
| Base64Url.Encode | client/auth/pkce.go:23 | the unpadded encoding of n bytes has (4n + 2) / 3 characters, all from the URL-safe alphabet |
| Base64Url.Decode | client/auth/pkce_test.go:21 | a successful decoding of s characters has 3·\|s\|/4 bytes |
| Base64Url.DecodeEncode | client/auth/pkce_test.go:20-23 | decoding an encoding gives back the bytes: every verifier decodes without error |
| Base64Url.EncodedHasNoPadding | client/auth/pkce.go:23 | an encoding never holds `=` |
| Base64Url.Value | client/auth/pkce.go:23 | the value of an alphabet letter is below 64 and maps back to that letter |
| Utf8.Encode | client/auth/pkce.go:28 | `[]byte(s)` has at least one byte per character, and exactly the character codes for ASCII text |
| UrlValues.QueryEscape | client/auth/authentication.go:106 | an escaped text holds only unreserved characters, `+` and `%`, and unreserved text is left as it is |
| UrlValues.Get | client/auth/callback/callback.go:18-19 | defines `Values.Get`: the first value of the key, or the empty text when the key is missing or has no value |
| UrlValues.GetAdded | client/auth/callback/callback.go:18-19 | after `Add`, the key reads as its earlier first value, or as the added value when it had none; every other key reads as before |
| UrlValues.Added | client/auth/authentication.go:88-104 | `Add` appends the value to its key's list, creating the key when missing, and leaves the other keys alone |
| UrlValues.Values.constructor | client/auth/tokenclient/tokenclient.go:30 | `url.Values{}`, and the query of the endpoint URL that `buildRequest` starts from (authentication.go:87), hold no keys |
| UrlValues.Values.Add | client/auth/authentication.go:88-104 | the values after the call are `Added` of the values before |
| UrlValues.SortedKeys | client/auth/authentication.go:106 | `Encode` visits every key once, in strictly increasing order, starting from the least key |
| UrlValues.SortedKeysUnique | client/auth/authentication.go:106 | only one list orders a set of keys strictly increasingly |
| UrlValues.IncreasingByAdjacent | client/auth/authentication.go:106 | a list in which each key is less than the next is strictly increasing |
| UrlValues.LeastExists | client/auth/authentication.go:106 | every non-empty set of keys has a least key |
| UrlValues.EncodeInOrder | client/auth/authentication.go:106 | when the keys are an increasing list, `Encode` writes them in that order |
| UrlValues.Encode | client/auth/authentication.go:106 | defines `Values.Encode`: the `key=value` fields of every key in increasing key order, each key's values in the order added, joined with `&` |
| UrlValues.EncodeChars | client/auth/authentication.go:106 | an encoded query holds only escaped characters, `=` and `&`, so no key or value can be read as a separator |
| UrlValues.Field | client/auth/authentication.go:106 | a `key=value` field holds nothing but escaped characters and `=` |
| Strings.FormatIntRoundTrip | client/auth/tokenclient/tokenclient.go:46 | the `%d` text of any integer parses back to it |
| Strings.FormatIntInjective | client/auth/tokenclient/tokenclient.go:46 | different integers print differently |
| Strings.FormatInt | client/auth/tokenclient/tokenclient.go:46 | defines `%d`: a `-` for a negative integer, then the decimal digits of its magnitude; the text is never empty |
| Strings.Less | client/auth/authentication.go:106 | defines the order `Encode` sorts keys by: character by character, a proper prefix first, which agrees with Go's byte-wise comparison of the UTF-8 forms because UTF-8 keeps the order of code points; that agreement is not proved here |
| Strings.LessTransitive | client/auth/authentication.go:106 | the byte order of strings that sorts the keys is transitive |
| Strings.LessTotal | client/auth/authentication.go:106 | any two different strings are ordered one way or the other |
| Callback.ResponseWriter.WriteHeader | client/auth/callback/callback.go:22 | the first status written sticks; the body is unchanged |
| Callback.ResponseWriter.Write | client/auth/callback/callback.go:23 | writing implies status 200 when none was set, and appends to the body |
| Callback.CallbackHandler.ServeHTTP | client/auth/callback/callback.go:14-24 | a GET delivers exactly one result holding the `code` and `error` query values (empty when absent) and sets status 200 unless one was set; any other method changes nothing; the body stays empty (the copy in client/auth/callback.go, lines 14-24, is the same code) |
| Callback.ServeExampleCallback | client/auth/callback/callback_test.go:9-40 | `GET /callback?code=123code&error=mock-error` delivers `123code` and `mock-error`, with status 200 and an empty body |
| Callback.ServeOtherMethod | client/auth/callback/callback.go:15-16 | a request with another method delivers nothing and writes no status |
| Callback.ResponseWriter.constructor | client/auth/callback/callback_test.go:20 | a fresh response recorder has no status written and an empty body |
| Callback.CallbackHandler.constructor | client/auth/callback/callback_test.go:11-14 | a new handler on a fresh channel has delivered no result |
| CredentialStore.Store.constructor | client/auth/store.go:7-10 | a new store has an empty code and token |
| CredentialStore.Registry.constructor | client/auth/store.go:12 | before the first call the package variable `storeSingleton` is nil |
| CredentialStore.Registry.GetCredentialStore | client/auth/store.go:14-25 | the first call creates an empty store and keeps it; every later call returns that same store untouched; the result is never nil |
| CredentialStore.TwoCallsShareOneStore | client/auth/store_test.go:7-19 | two calls return the same store, and it starts empty |

## Proof helpers

These lemmas are steps of the proofs above and state nothing about the code on their own:

- `Authentication.SixInOrder`, `SixNested`, `JoinSix`, `SixElements`, `SixFields`, `Apart`:
  six-element sequence facts used by `EncodeSix` and `AddsInRequestOrder`.
- `Authentication.PlainField`, `PlainPair`, `ClientIdField`, `ChallengeField`, `RedirectField`,
  `MethodField`, `ResponseTypeField`, `ScopeField`, `MethodText`, `ResponseTypeText`,
  `ScopeText`: the six fields of the authorization query, one at a time, for
  `AuthorizationQueryText`.
- `Authentication.AppendTwo`, `AppendAfter`, `RunAfterRequest`: the trace and the run of
  `Authenticate`, step by step.
- `AuthenticationExamples.Regrouped` and the `*Piece` lemmas: the expected command text of the
  test, piece by piece.
- `Pkce.AppendixBOctetsGroups`, `AppendixBDigestGroups`, `Base64Url.DecodeGroup`,
  `DecodeTwoBytes`, `DecodeOneByte`, `DecodeGroupThen`, `FirstThree`, `SplitByte`, `EncodeFrom`,
  `EncodeTail`, `EncodeThirtyTwo`: the encoder and decoder group by group.
- `UrlValues.ElementsCons`, `IncreasingCons`, `IncreasingTail`, `HeadTail`, `LeastUnique`,
  `FieldsCons`, `JoinCons`, `KeyFieldsChars`, `FieldsChars`, `JoinChars`: sorting and joining.
- `Strings.LessIrreflexive`, `NatToStringValue`: the string order and the digits of `%d`.
- `Base64Url.ValueOfLetter`: a letter's value maps back to it.
- `UrlValues.EscapeUnreservedBytes`: unreserved bytes escape to themselves.

## Left out

- I/O is not modelled. This covers running the `open` command, the network exchange of
  `PostForm`, reading the response body, and the local HTTP server of `callback/server.go`. Each
  becomes a parameter that gives the outcome.
- `callback/server.go` `HandleCallback` is not part of this model. It covers the listener, the
  goroutine, the timeout and the shutdown, all of which concern concurrency and time.
- The channel send in `ServeHTTP` is modelled as appending to a sequence. Blocking, goroutine
  scheduling and the order of the send relative to the response writes are not captured.
- `store.go`'s mutex is left out: the model is sequential, and the double-checked lock then
  behaves like a single check.
- `crypto/rand` and `crypto/sha256` are left out. The random bytes and the digest function are
  parameters, with the digest function returning 32 bytes.
- `encoding/json` is left out. The decoder is a parameter giving the decoded object or an error
  text, which means the exact error texts of the library are not modelled. A JSON number is kept
  as its text.
- The transport error text of `net/http` (`Post "<url>": <cause>`) is not modelled.
  `TokenClientExamples.TransportErrorReturned` states only that the client's error is passed on
  unchanged.
- The error branch of `http.NewRequest` (`authentication.go:80-85`) is left out. With a constant
  method and a constant valid URL it cannot be taken.
- Parsing of a raw query string into `url.Values` is left out. A request carries its query
  already split into keys and values.
- `Authentication.RandomPkceGenerator`: a generator value fixes one verifier outcome, so the
  model does not capture that two calls to the random generator give different verifiers.
- `TokenClientExamples.CheckingPost`: the Go stand-in of the first token scenario always
  answers 200 and reports a wrong request through the test's assertions; the model refuses such
  a request instead, and the stand-in's check of the POST method is not modelled.
- `AuthenticationExamples.FailToOpenBrowser`: states only that some error is returned, because
  the test's stand-in refuses the command before its own error is reached.
- A Go `string` is a byte sequence that may hold invalid UTF-8. A Dafny `string` holds only
  Unicode scalar values, so keys, values, codes and tokens with invalid UTF-8 cannot be
  represented.
- `Base64Url.Decode`: does not model the decoder's skipping of newline characters.
- The test stand-in's panic when the generator is asked for the challenge of another verifier
  (`authentication_test.go:38-44`) is not modelled. `Authentication.BuiltRequestUrl` shows that
  the challenge is only ever asked for the generated verifier.
