/** Sending a request: resolving its URL, attaching the fixed and custom
    headers, serialising the body, handing the call to the transport, and
    turning the transport's answer into a response or an error. The
    transport is not run: its answer is an input, and the record of what the
    core handed to it (and whether it read the body) is an output. */
module Execution {
  import opened Wrappers
  import opened Uuids
  import opened Urls
  import opened Http
  import opened Errors
  import opened RequestTypes
  import opened Requests

  datatype RequestKind = GraphQLKind | RestKind

  /** A successful response, tagged with the kind of request that asked for it. */
  datatype Response = Response(kind: RequestKind, url: Url, body: string, status: StatusCode, requestId: Uuid)

  /** The call handed to the transport. */
  datatype HttpCall = HttpCall(verb: Method, url: Url, headers: seq<Header>, body: string)

  /** A response as the transport delivers it: a status, and the body text
      that is read only when asked for (reading may fail). */
  datatype Answer = Answer(status: StatusCode, text: Result<string, string>)

  /** What happened: the call handed to the transport (none when the body
      could not be serialised), whether the response body was read, and the
      outcome. */
  datatype Outcome = Outcome(call: Option<HttpCall>, bodyRead: bool, result: Result<Response, BridgeError>)

  /** The two headers every call carries, ahead of the custom ones. */
  function FixedHeaders(id: Uuid): (hs: seq<Header>)
    ensures |hs| == 2
    ensures hs[0] == Header(ContentTypeName, "application/json")
    ensures hs[1].name == RequestIdName && ParseHyphenated(hs[1].value) == Some(id)
  {
    ParseHyphenatedRoundTrip(id);
    [Header(ContentTypeName, "application/json"), Header(RequestIdName, Hyphenated(id))]
  }

  function KindOf<S>(r: RequestType<S>): RequestKind {
    if r.IsGraphQL() then GraphQLKind else RestKind
  }

  /** What sending a request does, given the payload serialisation and the
      transport's reply (an error, or an answer). */
  function Execute<S>(request: Request<S>, encode: S -> Result<Json, string>, render: Json -> string,
                      reply: Result<Answer, string>): (e: Outcome)
    ensures e.call.None? <==> BodyDocument(request.requestType, encode).Failure?
    ensures e.bodyRead ==> e.call.Some? && reply.Success? && IsSuccess(reply.value.status)
    ensures e.result.Success? ==> e.bodyRead
  {
    var url := Resolve(request.bridge.endpoint, request.path, request.queryPairs);
    var requestType := request.requestType;
    match BodyAsString(requestType, encode, render)
    case Failure(e) => Outcome(None, false, Failure(e))
    case Success(body) =>
      var call := HttpCall(requestType.GetMethod(), url, FixedHeaders(requestType.Id()) + request.customHeaders, body);
      match reply
      case Failure(cause) => Outcome(Some(call), false, Failure(HttpError(url, cause)))
      case Success(Answer(status, text)) =>
        if !IsSuccess(status) then Outcome(Some(call), false, Failure(WrongStatusCode(url, status)))
        else
          match text
          case Failure(cause) => Outcome(Some(call), true, Failure(HttpError(url, cause)))
          case Success(t) => Outcome(Some(call), true, Success(Response(KindOf(requestType), url, t, status, requestType.Id())))
  }

  /** `send` in blocking mode: one step after the other, returning early on
      the first error. */
  method Send<S>(request: Request<S>, encode: S -> Result<Json, string>, render: Json -> string,
                 reply: Result<Answer, string>) returns (e: Outcome)
    ensures e == Execute(request, encode, render, reply)
  {
    var requestType := request.requestType;
    var url := GetUrl(request);
    var headers := [Header(ContentTypeName, "application/json"), Header(RequestIdName, Hyphenated(requestType.Id()))];
    for i := 0 to |request.customHeaders|
      invariant headers == FixedHeaders(requestType.Id()) + request.customHeaders[..i]
    {
      assert request.customHeaders[..i + 1] == request.customHeaders[..i] + [request.customHeaders[i]];
      headers := headers + [request.customHeaders[i]];
    }
    assert request.customHeaders[..|request.customHeaders|] == request.customHeaders;
    var body := BodyAsString(requestType, encode, render);
    if body.Failure? {
      return Outcome(None, false, Failure(body.error));
    }
    var call := HttpCall(requestType.GetMethod(), url, headers, body.value);
    if reply.Failure? {
      var target := GetUrl(request);
      return Outcome(Some(call), false, Failure(HttpError(target, reply.error)));
    }
    var status := reply.value.status;
    if !IsSuccess(status) {
      var target := GetUrl(request);
      return Outcome(Some(call), false, Failure(WrongStatusCode(target, status)));
    }
    var text := reply.value.text;
    if text.Failure? {
      var target := GetUrl(request);
      return Outcome(Some(call), true, Failure(HttpError(target, text.error)));
    }
    var target := GetUrl(request);
    var response;
    match requestType {
      case GraphQL(_) => response := Response(GraphQLKind, target, text.value, status, requestType.Id());
      case Rest(_) => response := Response(RestKind, target, text.value, status, requestType.Id());
    }
    return Outcome(Some(call), true, Success(response));
  }

  /** `send` in non-blocking mode: URL, id and headers are computed up
      front; a serialisation error is an already finished computation; the
      transport call, the status check and the body read are chained
      continuations, each running only when the one before succeeded. */
  function SendDeferred<S>(request: Request<S>, encode: S -> Result<Json, string>, render: Json -> string,
                           reply: Result<Answer, string>): (e: Outcome)
    ensures e.call.None? <==> BodyDocument(request.requestType, encode).Failure?
    ensures e.bodyRead ==> e.call.Some? && reply.Success? && IsSuccess(reply.value.status)
    ensures e.result.Success? ==> e.bodyRead
  {
    var url := Resolve(request.bridge.endpoint, request.path, request.queryPairs);
    var requestId := request.requestType.Id();
    var headers := FixedHeaders(requestId) + request.customHeaders;
    match BodyAsString(request.requestType, encode, render)
    case Failure(e) => Outcome(None, false, Failure(e))
    case Success(body) =>
      var call := HttpCall(request.requestType.GetMethod(), url, headers, body);
      var sent := reply.MapFailure(cause => HttpError(url, cause));
      var checked := sent.AndThen((answer: Answer) =>
        if IsSuccess(answer.status) then Success(answer) else Failure(WrongStatusCode(url, answer.status)));
      var read := checked.AndThen((answer: Answer) =>
        answer.text
          .MapFailure(cause => HttpError(url, cause))
          .MapSuccess(t =>
            if request.requestType.IsGraphQL() then Response(GraphQLKind, url, t, answer.status, requestId)
            else Response(RestKind, url, t, answer.status, requestId)));
      Outcome(Some(call), checked.Success?, read)
  }

  /** Both modes do the same thing, step for step. */
  lemma DeferredAgreesWithBlocking<S>(request: Request<S>, encode: S -> Result<Json, string>, render: Json -> string,
                                      reply: Result<Answer, string>)
    ensures SendDeferred(request, encode, render, reply) == Execute(request, encode, render, reply)
  {
  }

  /** A body that cannot be serialised ends the call before the transport is
      used: nothing is sent, and the transport's behaviour is irrelevant. */
  lemma SerialisationFailureSendsNothing<S>(request: Request<S>, encode: S -> Result<Json, string>, render: Json -> string,
                                            reply: Result<Answer, string>, other: Result<Answer, string>)
    requires BodyDocument(request.requestType, encode).Failure?
    ensures var e := Execute(request, encode, render, reply);
      e.call == None && !e.bodyRead &&
      e.result == Failure(SerdeError(BodyDocument(request.requestType, encode).error)) &&
      e == Execute(request, encode, render, other)
  {
  }

  /** Otherwise exactly one call is handed over: the descriptor's method,
      the resolved URL, `content-type: application/json`, then
      `x-request-id` with the id, then every custom header in order
      (none dropped, none merged), and the serialised body. */
  lemma CallHanded<S>(request: Request<S>, encode: S -> Result<Json, string>, render: Json -> string,
                      reply: Result<Answer, string>)
    requires BodyDocument(request.requestType, encode).Success?
    ensures var e := Execute(request, encode, render, reply);
      var hs := e.call.value.headers;
      e.call.Some? &&
      e.call.value.verb == request.requestType.GetMethod() &&
      e.call.value.url == Resolve(request.bridge.endpoint, request.path, request.queryPairs) &&
      e.call.value.body == render(BodyDocument(request.requestType, encode).value) &&
      |hs| == 2 + |request.customHeaders| &&
      hs[0] == Header(ContentTypeName, "application/json") &&
      hs[1].name == RequestIdName && ParseHyphenated(hs[1].value) == Some(request.requestType.Id()) &&
      hs[2..] == request.customHeaders
  {
  }

  /** A transport failure becomes an HTTP error carrying the URL; the body
      is not read. */
  lemma TransportFailure<S>(request: Request<S>, encode: S -> Result<Json, string>, render: Json -> string, cause: string)
    requires BodyDocument(request.requestType, encode).Success?
    ensures var e := Execute(request, encode, render, Failure(cause));
      !e.bodyRead && e.result == Failure(HttpError(Resolve(request.bridge.endpoint, request.path, request.queryPairs), cause))
  {
  }

  /** A status outside 2xx is a wrong-status error carrying the URL and the
      status; the body is not read, so what it holds makes no difference. */
  lemma WrongStatus<S>(request: Request<S>, encode: S -> Result<Json, string>, render: Json -> string,
                       status: StatusCode, text: Result<string, string>, otherText: Result<string, string>)
    requires BodyDocument(request.requestType, encode).Success? && !IsSuccess(status)
    ensures var e := Execute(request, encode, render, Success(Answer(status, text)));
      !e.bodyRead &&
      e.result == Failure(WrongStatusCode(Resolve(request.bridge.endpoint, request.path, request.queryPairs), status)) &&
      e == Execute(request, encode, render, Success(Answer(status, otherText)))
  {
  }

  /** On 2xx the body is read; a read failure is an HTTP error carrying the
      URL, and a read body gives the response: that URL, status and body,
      the descriptor's id, and the descriptor's kind. */
  lemma SuccessStatus<S>(request: Request<S>, encode: S -> Result<Json, string>, render: Json -> string,
                         status: StatusCode, text: Result<string, string>)
    requires BodyDocument(request.requestType, encode).Success? && IsSuccess(status)
    ensures var e := Execute(request, encode, render, Success(Answer(status, text)));
      var url := Resolve(request.bridge.endpoint, request.path, request.queryPairs);
      e.bodyRead &&
      (text.Failure? ==> e.result == Failure(HttpError(url, text.error))) &&
      (text.Success? ==>
         e.result.Success? &&
         e.result.value.url == url && e.result.value.status == status && e.result.value.body == text.value &&
         e.result.value.requestId == request.requestType.Id() &&
         (e.result.value.kind == GraphQLKind <==> request.requestType.IsGraphQL()) &&
         (e.result.value.kind == RestKind <==> request.requestType.IsRest()))
  {
  }

  /** A response comes back exactly when the body serialised, the transport
      answered with a 2xx status and the body could be read; it then carries
      the same id as the `x-request-id` header that was sent. */
  lemma ResponseExactlyOnSuccess<S>(request: Request<S>, encode: S -> Result<Json, string>, render: Json -> string,
                                    reply: Result<Answer, string>)
    ensures var e := Execute(request, encode, render, reply);
      (e.result.Success? <==>
        BodyDocument(request.requestType, encode).Success? && reply.Success? &&
        IsSuccess(reply.value.status) && reply.value.text.Success?) &&
      (e.result.Success? ==>
         e.call.Some? && |e.call.value.headers| >= 2 &&
         ParseHyphenated(e.call.value.headers[1].value) == Some(e.result.value.requestId))
  {
  }

  /** Every error that comes after serialisation names the resolved URL. */
  lemma ErrorsCarryUrl<S>(request: Request<S>, encode: S -> Result<Json, string>, render: Json -> string,
                          reply: Result<Answer, string>)
    ensures var e := Execute(request, encode, render, reply);
      e.result.Failure? && !e.result.error.SerdeError? ==>
        e.result.error.url == Resolve(request.bridge.endpoint, request.path, request.queryPairs) && e.call.Some?
  {
  }

  /** A 404 never gives a response, whatever the body holds. */
  lemma ExampleNotFound<S>(request: Request<S>, encode: S -> Result<Json, string>, render: Json -> string, text: Result<string, string>)
    requires BodyDocument(request.requestType, encode).Success?
    ensures var e := Execute(request, encode, render, Success(Answer(404, text)));
      e.result.Failure? && e.result.error.WrongStatusCode? && e.result.error.status == 404 && !e.bodyRead
  {
    WrongStatus(request, encode, render, 404, text, text);
  }

  /** On the full success path the outcome is the call with the fixed and
      custom headers, and the response built from the answer. */
  lemma ExecuteOnSuccess<S>(request: Request<S>, encode: S -> Result<Json, string>, render: Json -> string,
                            status: StatusCode, text: string)
    requires BodyDocument(request.requestType, encode).Success? && IsSuccess(status)
    ensures var url := Resolve(request.bridge.endpoint, request.path, request.queryPairs);
      var id := request.requestType.Id();
      Execute(request, encode, render, Success(Answer(status, Success(text))))
        == Outcome(
             Some(HttpCall(request.requestType.GetMethod(), url, FixedHeaders(id) + request.customHeaders,
                           render(BodyDocument(request.requestType, encode).value))),
             true,
             Success(Response(KindOf(request.requestType), url, text, status, id)))
  {
  }

  /** `GET https://api.test` with `.to("widgets").with_query_pair("id", "42")`,
      answered with 200 and `{"ok":true}`, gives a REST response for
      `https://api.test/widgets?id=42` with status 200, that body and the
      request's id. */
  lemma ExampleWidgetsOk<S>(id: Uuid, encode: S -> Result<Json, string>, render: Json -> string)
    ensures var request := New(Bridge(Url("https", "api.test", Hierarchical([""]), None, None)), NewRest(None, Get, id))
                             .To("widgets").WithQueryPair("id", "42");
      Execute(request, encode, render, Success(Answer(200, Success("{\"ok\":true}"))))
        == Outcome(
             Some(HttpCall(Get, Url("https", "api.test", Hierarchical(["widgets"]), Some([("id", "42")]), None),
                           FixedHeaders(id), render(Null))),
             true,
             Success(Response(RestKind, Url("https", "api.test", Hierarchical(["widgets"]), Some([("id", "42")]), None),
                              "{\"ok\":true}", 200, id)))
  {
    var requestType: RequestType<S> := NewRest(None, Get, id);
    var endpoint := Url("https", "api.test", Hierarchical([""]), None, None);
    var request := New(Bridge(endpoint), requestType).To("widgets").WithQueryPair("id", "42");
    assert request == Request(Bridge(endpoint), requestType, [], Some("widgets"), [("id", "42")]);
    ResolveWidgets();
    RestDocument(None, Get, id, encode);
    assert FixedHeaders(id) + [] == FixedHeaders(id);
    assert KindOf(requestType) == RestKind;
    ExecuteOnSuccess(request, encode, render, 200, "{\"ok\":true}");
  }
}
