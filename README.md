# bridge.rs request core in Dafny

A model of the request layer of `bridge.rs`: the immutable `Request`
builder, the resolution of the URL a request calls, the `RequestType`
descriptor (REST or GraphQL, each with its correlation id) and the
decision logic of `send` in both its blocking and its non-blocking form,
with the network taken out.

Modules, one per component:

- `Wrappers` (`wrappers.dfy`): `Option`, `Result` and the combinators the
  non-blocking `send` is chained from (`map_err`, `and_then`, `map_ok`).
- `Uuids` (`uuids.dfy`): the 16-byte correlation id and its hyphenated
  lower-case text form, which is the value of the `x-request-id` header; a
  parser proves that form loses nothing.
- `Urls` (`urls.dfy`): a URL as opaque scheme and host, a path (a list of
  segments, or an opaque path for URLs that cannot be a base), an optional
  list of `application/x-www-form-urlencoded` query pairs (WHATWG URL
  Standard, section 5.2) and a fragment; the URL library's
  `path_segments`, `set_path` and `append_pair`, with `join("/")` and its
  inverse.
- `Http`, `Errors` (`http.dfy`): methods, status codes, headers, and the
  three failures (`HttpError`, `WrongStatusCode`, a serialisation error).
- `RequestTypes` (`request_type.dfy`): the descriptor, its accessors and
  constructors, and the JSON value its body is serialised from.
- `Requests` (`request.dfy`): the bridge (its endpoint), the builder, and
  `get_url` as an imperative method proved against the function `Resolve`.
- `Execution` (`execution.dfy`): `send`. `Execute` says what sending does for
  a given serialiser and transport reply; the blocking `Send` is a method
  with the header fold as a loop and early returns, proved equal to it; the
  non-blocking `SendDeferred` is written as the chain of continuations and
  proved equal to it too. An `Outcome` records the call handed to the
  transport (none when the body could not be serialised), whether the
  response body was read, and the outcome.

A REST descriptor without a body does not send an empty payload: the code
serialises `Option::None`, i.e. the JSON value `null`
(`RequestTypes.RestDocument`).

A path suffix is appended after the endpoint's non-empty segments with one
`/` between them, so a trailing `/` on the endpoint never doubles. A `/`
inside the suffix is kept as it is, and so is a leading one: `.to("/users")`
on `https://api.test/v1/` calls `https://api.test/v1//users`
(`Requests.ExampleLeadingSlashSuffix`). The one exception is an endpoint with
no non-empty segment, where `set_path` absorbs a single leading `/`.

## Model

| member | source | states |
|---|---|---|
| `Requests.New` | src/request.rs:27-35 | a new request holds the bridge and descriptor with no custom headers, no path suffix and no query pairs |
| `Requests.Request.WithCustomHeaders` | src/request.rs:37-42 | the custom headers become exactly the given list; bridge, descriptor, path and query pairs are unchanged |
| `Requests.Request.To` | src/request.rs:44-49 | the path becomes `Some(suffix)`; everything else is unchanged |
| `Requests.Request.WithQueryPair` | src/request.rs:51-58 | exactly one pair is added at the end, all earlier pairs stay in place; everything else is unchanged |
| `Requests.LastHeadersWin` | src/request.rs:37-42 | a second `with_custom_headers` discards the first list entirely |
| `Requests.LastSuffixWins` | src/request.rs:44-49 | a second `to` overwrites the first suffix |
| `Requests.WithQueryPairsAccumulate` | src/request.rs:51-58 | any number of `with_query_pair` calls leave the earlier pairs followed by the new ones in call order, duplicates kept, and nothing else changed |
| `Requests.NonEmpty` | src/request.rs:206-210 | the filtered segments are all non-empty and are exactly the non-empty segments of the base |
| `Requests.NonEmptyAppend` | src/request.rs:206-210 | filtering keeps the order of the segments it keeps |
| `Requests.Resolve` | src/request.rs:199-224 | the resolved URL keeps scheme, host and fragment and the kind of path, and the path itself when no suffix is set; its path and query are pinned by `ResolveWithSuffix`, `ResolveWithNestedSuffix`, `ResolveLeadingSlashBareHost`, `ResolveOpaque` and `ResolveQuery` |
| `Requests.KeepNonEmpty` | src/request.rs:206-210 | the filter loop over the endpoint's segments yields exactly `NonEmpty` of them, in order |
| `Requests.GetUrl` | src/request.rs:199-224 | the loop that collects the non-empty segments and the fold over the query pairs compute `Resolve` of the endpoint, suffix and pairs |
| `Requests.ResolveQuery` | src/request.rs:218-223 | the builder's pairs follow the endpoint's own query pairs in insertion order; with no pairs the query is left as it is (no `?` added); scheme, host and fragment never change |
| `Requests.ResolveWithoutSuffix` | src/request.rs:204-216 | without a suffix the endpoint's path is used unchanged and only the query pairs are added |
| `Requests.ResolveWithSuffix` | src/request.rs:205-213 | with a suffix free of `/`, the path is the endpoint's non-empty segments followed by the suffix as one final segment |
| `Requests.ResolveWithNestedSuffix` | src/request.rs:205-213 | a suffix holding `/` is cut at its slashes after the endpoint's non-empty segments, also when there are none, unless then the suffix starts with `/` |
| `Requests.ResolveLeadingSlashBareHost` | src/request.rs:205-213 | when the endpoint has no non-empty segment, a suffix starting with `/` loses that one `/`: the path is the rest of the suffix cut at its slashes |
| `Requests.ExampleLeadingSlashSuffix` | src/request.rs:205-213 | a suffix starting with `/` after a non-empty segment yields an empty segment: `/v1/` plus `/users` gives `/v1//users` |
| `Requests.ResolveOpaque` | src/request.rs:201-213 | an endpoint without path segments gets the suffix as its whole path |
| `Requests.ResolvedSegmentsNonEmpty` | src/request.rs:205-213 | a non-empty suffix free of `/` never produces an empty segment, so no doubled or trailing `/` |
| `Requests.TrailingSlashIgnored` | src/request.rs:205-213 | a trailing `/` on the endpoint does not change the resolved URL once a suffix is set |
| `Requests.ExampleTrailingSlash` | src/request.rs:205-213 | `https://api.test/v1/` with suffix `users` resolves to path `/v1/users` |
| `Requests.ResolveWidgets` | src/request.rs:199-224 | `https://api.test` with suffix `widgets` and the pair `id=42` resolves to `https://api.test/widgets?id=42` |
| `Requests.ExampleWidgets` | src/request.rs:199-224 | `https://api.test` with `.to("widgets").with_query_pair("id", "42")` resolves to `https://api.test/widgets?id=42` |
| `Urls.PathSegments` | src/request.rs:201 | `path_segments` gives segments exactly for hierarchical paths |
| `Urls.Join` | src/request.rs:212 | `join("/")` starts with the first part, followed by a `/` when there is a second; `SplitJoin` shows nothing is lost |
| `Urls.Split` | src/request.rs:212 | cutting a text at `/` gives at least one segment, and joining those segments with `/` gives the text back |
| `Urls.SplitJoin` | src/request.rs:211-212 | joining segments with `/` and cutting again gives the same segments |
| `Urls.SplitJoinThen` | src/request.rs:211-212 | joining segments and a free-form suffix and cutting again keeps the segments and cuts only the suffix |
| `Urls.SetPath` | src/request.rs:212 | `set_path` replaces only the path: a hierarchical path is the given text cut at `/` after one leading `/`, never an empty list of segments, and an opaque path is the text itself |
| `Urls.AppendPair` | src/request.rs:221 | `append_pair` creates the query if there is none and adds the pair after the existing ones, touching nothing else |
| `Urls.AppendPairs` | src/request.rs:218-223 | the fold over the pairs adds one query pair per pair and touches nothing but the query; `AppendPairsQuery` gives the pairs and their order |
| `Urls.AppendPairsQuery` | src/request.rs:218-223 | folding `append_pair` over pairs adds exactly those pairs in order, and nothing when there are none |
| `Uuids.Hyphenated` | src/request.rs:70-73 | the id's text is 36 characters, hexadecimal digits with `-` at positions 8, 13, 18 and 23 |
| `Uuids.ParseHyphenatedRoundTrip` | src/request.rs:70-73 | the id can be read back from its header text |
| `Uuids.HyphenatedInjective` | src/request.rs:70-73 | two different ids never give the same `x-request-id` value |
| `RequestTypes.RequestType.Id` | src/request.rs:260-265 | the id stored in either variant; `NewRest` and `NewGraphQL` show it is the id given at construction |
| `RequestTypes.RequestType.IsGraphQL` | src/request.rs:274-279 | true exactly for the GraphQL variant |
| `RequestTypes.RequestType.IsRest` | src/request.rs:281-286 | true exactly when the descriptor is not GraphQL (`ExactlyOneKind`) |
| `RequestTypes.RequestType.GetMethod` | src/request.rs:288-293 | POST for GraphQL, the stored method for REST |
| `RequestTypes.NewRest` | src/request.rs:295-309 | a REST descriptor is REST and not GraphQL, returns the id and method it was made with, and wraps the body exactly when one was given |
| `RequestTypes.NewGraphQL` | src/request.rs:311-319 | a GraphQL descriptor is GraphQL and not REST, returns the id it was made with, uses POST, and keeps query and variables |
| `RequestTypes.ExactlyOneKind` | src/request.rs:274-293 | every descriptor is exactly one of GraphQL and REST, and GraphQL ones use POST |
| `RequestTypes.GraphQLDocument` | src/request.rs:239-244 | a GraphQL body is an object whose keys are exactly `query` then `variables`, or `query` alone when no variables were given, holding the query and the serialised variables; it fails exactly when the variables fail to serialise |
| `RequestTypes.RestDocument` | src/request.rs:253-257 | a REST body is the payload's own JSON with no wrapper, and `null` when there is no payload |
| `RequestTypes.BodyDocument` | src/request.rs:239-257 | a GraphQL body is always an object, and a body fails only when a payload is present and its own serialisation fails with that cause; `GraphQLDocument` and `RestDocument` give the shapes |
| `RequestTypes.BodyAsString` | src/request.rs:267-272 | the body text is the JSON value written out, and a serialisation failure becomes the serialisation error |
| `Http.IsSuccess` | src/request.rs:89 | a status is a success exactly when it is in the 2xx class |
| `Execution.FixedHeaders` | src/request.rs:69-73 | the two fixed headers are `content-type: application/json` and `x-request-id` carrying the id |
| `Execution.Execute` | src/request.rs:63-111 | nothing is handed to the transport exactly when the body fails to serialise; the body is read only after a call that got a 2xx answer; a response needs the body read; the outcome lemmas below pin every case |
| `Execution.Send` | src/request.rs:63-111 | the blocking pipeline (header fold loop, early returns, repeated `get_url`) does exactly what `Execute` says |
| `Execution.SendDeferred` | src/request.rs:113-181 | the continuation chain hands nothing over when serialisation fails, runs the body read only after a 2xx answer, and yields a response only after it; `DeferredAgreesWithBlocking` equates it with `Execute` |
| `Execution.DeferredAgreesWithBlocking` | src/request.rs:113-181 | the non-blocking chain gives the same call, body-read decision and outcome as the blocking one for every input |
| `Execution.SerialisationFailureSendsNothing` | src/request.rs:81-82 | a body that cannot be serialised ends the call with that error before anything is handed to the transport, whatever the transport would do |
| `Execution.CallHanded` | src/request.rs:66-83 | the call carries the descriptor's method, the resolved URL, the serialised body, and the two fixed headers followed by all custom headers in order |
| `Execution.TransportFailure` | src/request.rs:83-87 | a transport failure becomes `HttpError` with the resolved URL and the body is not read |
| `Execution.WrongStatus` | src/request.rs:88-91 | a non-2xx status becomes `WrongStatusCode(url, status)` without reading the body, whatever the body holds |
| `Execution.SuccessStatus` | src/request.rs:92-110 | on 2xx the body is read; a read failure is `HttpError` with the URL, otherwise the response has that URL, status and body, the descriptor's id and the descriptor's kind |
| `Execution.ResponseExactlyOnSuccess` | src/request.rs:81-110 | a response comes back exactly when serialisation, transport, status and body read all succeed, and its id is the one sent in `x-request-id` |
| `Execution.ErrorsCarryUrl` | src/request.rs:84-95 | every error after serialisation names the resolved URL and follows a call handed to the transport |
| `Execution.ExampleNotFound` | src/request.rs:88-91 | a 404 gives `WrongStatusCode` with 404 and no body read |
| `Execution.ExecuteOnSuccess` | src/request.rs:63-111 | on the full success path the call carries the method, URL, fixed then custom headers and the rendered body, and the response carries URL, body, status, id and kind |
| `Execution.ExampleWidgetsOk` | src/request.rs:63-111 | `GET` on `widgets?id=42` answered 200 with `{"ok":true}` gives a REST response with that URL, status, body and id |

## Left out

- The transport itself (`send()`, `text()`): its answer is an input of `Execute`, `Send` and `SendDeferred`, and the transport client held by the bridge is not modelled.
- The futures machinery of the non-blocking `send` (polling, `left_future`/`right_future`, cancellation): only its sequence of continuations is modelled, as `SendDeferred`.
- Fresh ids (`Uuid::new_v4`): the id is a parameter of `NewRest` and `NewGraphQL`; their uniqueness rests on randomness and is not stated.
- JSON writing and the payload type's own serialisation: `encode` (which may fail) and `render` (the JSON writer) are parameters; numbers in the JSON value are integers only.
- Urls.SetPath: follows the path rules of special schemes such as http and https; for a non-special endpoint such as `foo://host`, setting the empty path gives an empty path (and no segments) in the url crate where the model gives one empty segment, and the tab, CR and LF characters the url crate strips from a new path are kept by the model.
- Percent-encoding of paths and query pairs, `.`/`..` resolution and `\` handling in `set_path`: segments and pairs are held decoded.
- An endpoint whose query is not a list of pairs: the model holds every query as pairs.
- Validation of header names and values: headers are plain text.
- `src/errors.rs` and `src/response.rs` are not part of this model; the error and response shapes follow their use in `src/request.rs`.
- `Bridge::new` and `Bridge::request` (src/lib.rs): the bridge is only its endpoint, and a request is made with `Requests.New`.
