/** The handler of the OAuth 2 redirect: a GET request to the callback address carries the
    authorization `code` (or an `error`) in its query; the handler passes both on and answers
    200 with an empty body. Any other method is ignored. The channel the Go handler sends on
    is modelled as the sequence of the results delivered so far. */
module Callback {

  import opened Common
  import UrlValues

  /** What the handler passes on: the `code` and `error` parameters, empty when absent. */
  datatype CallbackResult = CallbackResult(code: string, err: string)

  /** The parts of an incoming request the handler looks at: its method (`verb`) and its query,
      already split into `url.Values`. */
  datatype Request = Request(verb: string, query: map<string, seq<string>>)

  const MethodGet := "GET"
  const StatusOK := 200

  /** The response side of an exchange, as `http.ResponseWriter` behaves towards a handler:
      the first status written sticks, and writing a body first implies status 200. */
  class ResponseWriter {
    var status: Option<int>
    var body: seq<byte>

    constructor ()
      ensures status == None && body == []
    {
      status := None;
      body := [];
    }

    method WriteHeader(code: int)
      modifies this
      ensures status == (if old(status).None? then Some(code) else old(status))
      ensures body == old(body)
    {
      if status.None? {
        status := Some(code);
      }
    }

    method Write(data: seq<byte>)
      modifies this
      ensures status == (if old(status).None? then Some(StatusOK) else old(status))
      ensures body == old(body) + data
    {
      if status.None? {
        status := Some(StatusOK);
      }
      body := body + data;
    }
  }

  class CallbackHandler {
    /** The results sent on the channel, oldest first. */
    var channel: seq<CallbackResult>

    constructor ()
      ensures channel == []
    {
      channel := [];
    }

    /** `ServeHTTP`: a GET request delivers exactly one result and gets status 200 with
        an empty body; any other request leaves the channel and the response untouched. */
    method ServeHTTP(w: ResponseWriter, r: Request)
      modifies this, w
      ensures r.verb == MethodGet ==> channel == old(channel) + [CallbackResult(UrlValues.Get(r.query, "code"), UrlValues.Get(r.query, "error"))]
      ensures r.verb == MethodGet ==> w.status == (if old(w.status).None? then Some(StatusOK) else old(w.status))
      ensures r.verb != MethodGet ==> channel == old(channel) && w.status == old(w.status)
      ensures w.body == old(w.body)
    {
      if r.verb == MethodGet {
        var code := UrlValues.Get(r.query, "code");
        var err := UrlValues.Get(r.query, "error");
        channel := channel + [CallbackResult(code, err)];
        w.WriteHeader(StatusOK);
        w.Write([]);
      }
    }
  }

  /** The exchange of the handler's test: `GET /callback?code=123code&error=mock-error` on a
      fresh handler and a fresh response delivers one result with that code and error, and
      the response status is 200. */
  method ServeExampleCallback() returns (delivered: seq<CallbackResult>, status: Option<int>, body: seq<byte>)
    ensures delivered == [CallbackResult("123code", "mock-error")]
    ensures status == Some(StatusOK) && body == []
  {
    var handler := new CallbackHandler();
    var w := new ResponseWriter();
    var query := map["code" := ["123code"], "error" := ["mock-error"]];
    handler.ServeHTTP(w, Request(MethodGet, query));
    delivered, status, body := handler.channel, w.status, w.body;
  }

  /** A request with another method delivers nothing and writes nothing. */
  method ServeOtherMethod(m: string, query: map<string, seq<string>>) returns (delivered: seq<CallbackResult>, status: Option<int>)
    requires m != MethodGet
    ensures delivered == [] && status == None
  {
    var handler := new CallbackHandler();
    var w := new ResponseWriter();
    handler.ServeHTTP(w, Request(m, query));
    delivered, status := handler.channel, w.status;
  }
}
