/** What one call asks for: a GraphQL document or a REST call, each with the
    correlation id given to it when it was made, and the JSON body that is
    serialised for it. */
module RequestTypes {
  import opened Wrappers
  import opened Uuids
  import opened Http
  import opened Errors

  datatype GraphQLBody<S> = GraphQLBody(query: string, variables: Option<S>)

  datatype GraphQLRequest<S> = GraphQLRequest(requestId: Uuid, body: GraphQLBody<S>)

  /** The REST payload is serialised as the value it wraps. */
  datatype RestBody<S> = RestBody(value: S)

  datatype RestRequest<S> = RestRequest(requestId: Uuid, body: Option<RestBody<S>>, verb: Method)

  datatype RequestType<S> = GraphQL(graphql: GraphQLRequest<S>) | Rest(rest: RestRequest<S>) {

    /** The id given at construction, whichever the kind. */
    function Id(): (id: Uuid)
      ensures GraphQL? ==> id == graphql.requestId
      ensures Rest? ==> id == rest.requestId
    {
      match this
      case GraphQL(request) => request.requestId
      case Rest(request) => request.requestId
    }

    predicate IsGraphQL()
      ensures IsGraphQL() <==> GraphQL?
    {
      match this
      case GraphQL(_) => true
      case Rest(_) => false
    }

    predicate IsRest()
      ensures IsRest() <==> !IsGraphQL()
    {
      match this
      case GraphQL(_) => false
      case Rest(_) => true
    }

    /** GraphQL always goes out as POST. */
    function GetMethod(): (m: Method)
      ensures IsGraphQL() ==> m == Post
      ensures IsRest() ==> m == rest.verb
    {
      match this
      case GraphQL(_) => Post
      case Rest(request) => request.verb
    }
  }

  /** `RequestType::rest`; the fresh id is a parameter here. */
  function NewRest<S>(body: Option<S>, verb: Method, id: Uuid): (r: RequestType<S>)
    ensures r.IsRest() && !r.IsGraphQL()
    ensures r.Id() == id && r.GetMethod() == verb
    ensures r.rest.body.Some? <==> body.Some?
    ensures body.Some? ==> r.rest.body.value.value == body.value
  {
    match body
    case None => Rest(RestRequest(id, None, verb))
    case Some(b) => Rest(RestRequest(id, Some(RestBody(b)), verb))
  }

  /** `RequestType::graphql`; the fresh id is a parameter here. */
  function NewGraphQL<S>(query: string, variables: Option<S>, id: Uuid): (r: RequestType<S>)
    ensures r.IsGraphQL() && !r.IsRest()
    ensures r.Id() == id && r.GetMethod() == Post
    ensures r.graphql.body.query == query && r.graphql.body.variables == variables
  {
    GraphQL(GraphQLRequest(id, GraphQLBody(query, variables)))
  }

  /** Every descriptor is of exactly one kind. */
  lemma ExactlyOneKind<S>(r: RequestType<S>)
    ensures r.IsGraphQL() != r.IsRest()
    ensures r.IsGraphQL() ==> r.GetMethod() == Post
  {
  }

  /** The serde data model: the JSON value a body is turned into before it
      is written out as text. */
  datatype Json =
    | Null
    | Bool(b: bool)
    | Number(n: int)
    | Str(s: string)
    | Array(items: seq<Json>)
    | Object(members: seq<(string, Json)>)

  function Keys(members: seq<(string, Json)>): (keys: seq<string>)
    ensures |keys| == |members|
    ensures forall i :: 0 <= i < |members| ==> keys[i] == members[i].0
  {
    if members == [] then [] else [members[0].0] + Keys(members[1..])
  }

  /** The JSON value for a descriptor's body. `encode` is the caller's
      payload type's serialisation, which may fail. A GraphQL body is an
      object whose `variables` member is skipped when absent; a REST body is
      an optional value wrapped transparently, so an absent body is `null`. */
  function BodyDocument<S>(r: RequestType<S>, encode: S -> Result<Json, string>): (doc: Result<Json, string>)
    ensures r.GraphQL? && doc.Success? ==> doc.value.Object?
    ensures doc.Failure? ==>
      match r
      case GraphQL(g) => g.body.variables.Some? && encode(g.body.variables.value) == Failure(doc.error)
      case Rest(x) => x.body.Some? && encode(x.body.value.value) == Failure(doc.error)
  {
    match r
    case GraphQL(request) =>
      var query := ("query", Str(request.body.query));
      (match request.body.variables
       case None => Success(Object([query]))
       case Some(v) => encode(v).MapSuccess(j => Object([query, ("variables", j)])))
    case Rest(request) =>
      match request.body
      case None => Success(Null)
      case Some(RestBody(v)) => encode(v)
  }

  /** The body of a GraphQL request is an object with a `query` member
      holding the document, and a `variables` member exactly when variables
      were given. */
  lemma GraphQLDocument<S>(query: string, variables: Option<S>, id: Uuid, encode: S -> Result<Json, string>)
    ensures var doc := BodyDocument(NewGraphQL(query, variables, id), encode);
      (doc.Success? <==> variables.None? || encode(variables.value).Success?) &&
      (doc.Success? ==>
        doc.value.Object? &&
        Keys(doc.value.members) == (if variables.Some? then ["query", "variables"] else ["query"]) &&
        doc.value.members[0].1 == Str(query) &&
        ("variables" in Keys(doc.value.members) <==> variables.Some?) &&
        (variables.Some? ==> doc.value.members[1].1 == encode(variables.value).value))
  {
  }

  /** The body of a REST request is the payload's own JSON, with no
      wrapping object, and `null` when there is no payload. */
  lemma RestDocument<S>(body: Option<S>, verb: Method, id: Uuid, encode: S -> Result<Json, string>)
    ensures BodyDocument(NewRest(body, verb, id), encode) ==
      if body.Some? then encode(body.value) else Success(Null)
  {
  }

  /** `body_as_string`: the body's JSON written out by `render` (the JSON
      writer, which cannot fail on a JSON value); a payload that cannot be
      serialised gives a serialisation error. */
  function BodyAsString<S>(r: RequestType<S>, encode: S -> Result<Json, string>, render: Json -> string): (res: Result<string, BridgeError>)
    ensures res.Success? <==> BodyDocument(r, encode).Success?
    ensures res.Success? ==> res.value == render(BodyDocument(r, encode).value)
    ensures res.Failure? ==> res.error == SerdeError(BodyDocument(r, encode).error)
  {
    BodyDocument(r, encode).MapSuccess(render).MapFailure(e => SerdeError(e))
  }
}
