/** The request builder: an immutable value that pairs the bridge (which
    holds the endpoint URL) with a descriptor, custom headers, an optional
    path suffix and query pairs; and the resolution of the URL it calls. */
module Requests {
  import opened Wrappers
  import opened Urls
  import opened Http
  import opened RequestTypes

  /** The bridge, as far as a request sees it: the endpoint URL. The
      transport client it also owns is not modelled. */
  datatype Bridge = Bridge(endpoint: Url)

  datatype Request<S> = Request(
    bridge: Bridge,
    requestType: RequestType<S>,
    customHeaders: seq<Header>,
    path: Option<string>,
    queryPairs: seq<QueryPair>)
  {
    /** Replaces the custom headers wholesale; nothing else changes. */
    function WithCustomHeaders(headers: seq<Header>): (r: Request<S>)
      ensures r.customHeaders == headers
      ensures r.bridge == bridge && r.requestType == requestType
      ensures r.path == path && r.queryPairs == queryPairs
    {
      this.(customHeaders := headers)
    }

    /** Sets the path suffix, overwriting any earlier one; nothing else changes. */
    function To(suffix: string): (r: Request<S>)
      ensures r.path == Some(suffix)
      ensures r.bridge == bridge && r.requestType == requestType
      ensures r.customHeaders == customHeaders && r.queryPairs == queryPairs
    {
      this.(path := Some(suffix))
    }

    /** Adds one query pair after the earlier ones, even when a pair with
        the same name is there already; nothing else changes. */
    function WithQueryPair(name: string, value: string): (r: Request<S>)
      ensures |r.queryPairs| == |queryPairs| + 1
      ensures r.queryPairs[..|queryPairs|] == queryPairs && r.queryPairs[|queryPairs|] == (name, value)
      ensures r.bridge == bridge && r.requestType == requestType
      ensures r.customHeaders == customHeaders && r.path == path
    {
      this.(queryPairs := queryPairs + [(name, value)])
    }
  }

  /** `Request::new`: no custom headers, no path suffix, no query pairs. */
  function New<S>(bridge: Bridge, requestType: RequestType<S>): (r: Request<S>)
    ensures r.bridge == bridge && r.requestType == requestType
    ensures r.customHeaders == [] && r.path == None && r.queryPairs == []
  {
    Request(bridge, requestType, [], None, [])
  }

  /** The last `with_custom_headers` wins. */
  lemma LastHeadersWin<S>(r: Request<S>, first: seq<Header>, second: seq<Header>)
    ensures r.WithCustomHeaders(first).WithCustomHeaders(second) == r.WithCustomHeaders(second)
  {
  }

  /** The last `to` wins. */
  lemma LastSuffixWins<S>(r: Request<S>, first: string, second: string)
    ensures r.To(first).To(second) == r.To(second)
  {
  }

  /** Calling `with_query_pair` for each pair of a list, in order. */
  function WithQueryPairs<S>(r: Request<S>, pairs: seq<QueryPair>): Request<S>
    decreases |pairs|
  {
    if pairs == [] then r
    else WithQueryPairs(r.WithQueryPair(pairs[0].0, pairs[0].1), pairs[1..])
  }

  /** Repeated `with_query_pair` calls keep every pair in the order of the
      calls, and change nothing else. */
  lemma {:induction false} WithQueryPairsAccumulate<S>(r: Request<S>, pairs: seq<QueryPair>)
    decreases |pairs|
    ensures WithQueryPairs(r, pairs).queryPairs == r.queryPairs + pairs
    ensures WithQueryPairs(r, pairs).(queryPairs := r.queryPairs) == r
  {
    if pairs != [] {
      var next := r.WithQueryPair(pairs[0].0, pairs[0].1);
      WithQueryPairsAccumulate(next, pairs[1..]);
      assert next.queryPairs + pairs[1..] == r.queryPairs + pairs by {
        assert [pairs[0]] + pairs[1..] == pairs;
      }
    }
  }

  /** Keeps the non-empty segments, in order. */
  function NonEmpty(segs: seq<Segment>): (r: seq<Segment>)
    ensures forall i :: 0 <= i < |r| ==> r[i] != ""
    ensures forall x :: x in r <==> x in segs && x != ""
  {
    if segs == [] then []
    else if segs[0] == "" then NonEmpty(segs[1..])
    else [segs[0]] + NonEmpty(segs[1..])
  }

  lemma {:induction false} NonEmptyAppend(segs: seq<Segment>, x: Segment)
    ensures NonEmpty(segs + [x]) == NonEmpty(segs) + (if x == "" then [] else [x])
  {
    if segs != [] {
      assert (segs + [x])[1..] == segs[1..] + [x];
      NonEmptyAppend(segs[1..], x);
    }
  }

  /** The URL a request calls: the endpoint; when a suffix is set, the
      endpoint's non-empty path segments and the suffix, joined by `/`, as
      the new path; then the query pairs appended in order. */
  function Resolve(endpoint: Url, path: Option<string>, pairs: seq<QueryPair>): (u: Url)
    ensures u.scheme == endpoint.scheme && u.host == endpoint.host && u.fragment == endpoint.fragment
    ensures u.path.Hierarchical? <==> endpoint.path.Hierarchical?
    ensures path.None? ==> u.path == endpoint.path
  {
    var base :=
      match path
      case None => endpoint
      case Some(suffix) =>
        var parts := NonEmpty(PathSegments(endpoint).GetOr([]));
        SetPath(endpoint, Join(parts + [suffix]));
    AppendPairs(base, pairs)
  }

  /** The filter loop of `get_url`: keeps the non-empty segments. */
  method KeepNonEmpty(segs: seq<Segment>) returns (parts: seq<Segment>)
    ensures parts == NonEmpty(segs)
  {
    parts := [];
    for i := 0 to |segs|
      invariant parts == NonEmpty(segs[..i])
    {
      NonEmptyAppend(segs[..i], segs[i]);
      assert segs[..i + 1] == segs[..i] + [segs[i]];
      if segs[i] != "" {
        parts := parts + [segs[i]];
      }
    }
    assert segs[..|segs|] == segs;
  }

  /** `get_url`: clones the endpoint, rebuilds its path when a suffix is
      set, and folds the query pairs into it. */
  method GetUrl<S>(request: Request<S>) returns (url: Url)
    ensures url == Resolve(request.bridge.endpoint, request.path, request.queryPairs)
  {
    var endpoint := request.bridge.endpoint;
    match request.path {
      case Some(suffix) =>
        var parts := KeepNonEmpty(PathSegments(endpoint).GetOr([]));
        endpoint := SetPath(endpoint, Join(parts + [suffix]));
      case None =>
    }
    url := endpoint;
    for i := 0 to |request.queryPairs|
      invariant url == AppendPairs(endpoint, request.queryPairs[..i])
    {
      assert request.queryPairs[..i + 1][..i] == request.queryPairs[..i];
      url := AppendPair(url, request.queryPairs[i]);
    }
    assert request.queryPairs[..|request.queryPairs|] == request.queryPairs;
  }

  /** Query pairs are added after whatever query the endpoint had, one per
      pair and in order; with no pairs the query is left alone (no `?` is
      added). Scheme, host and fragment are never touched. */
  lemma ResolveQuery(endpoint: Url, path: Option<string>, pairs: seq<QueryPair>)
    ensures var u := Resolve(endpoint, path, pairs);
      u.scheme == endpoint.scheme && u.host == endpoint.host && u.fragment == endpoint.fragment &&
      u.query == if pairs == [] then endpoint.query else Some(QueryPairs(endpoint) + pairs)
  {
    match path {
      case None =>
        AppendPairsQuery(endpoint, pairs);
      case Some(suffix) =>
        var parts := NonEmpty(PathSegments(endpoint).GetOr([]));
        AppendPairsQuery(SetPath(endpoint, Join(parts + [suffix])), pairs);
    }
  }

  /** Without a suffix the endpoint's path is used unchanged. */
  lemma ResolveWithoutSuffix(endpoint: Url, pairs: seq<QueryPair>)
    ensures Resolve(endpoint, None, pairs).path == endpoint.path
    ensures Resolve(endpoint, None, pairs) == if pairs == [] then endpoint else endpoint.(query := Some(QueryPairs(endpoint) + pairs))
  {
    AppendPairsQuery(endpoint, pairs);
  }

  /** A text made of segments that starts with a non-empty segment does not
      start with `/`. */
  lemma JoinNoLeadingSlash(parts: seq<Segment>)
    requires parts != [] && parts[0] != ""
    ensures Join(parts) != [] && Join(parts)[0] != '/'
  {
    assert Join(parts)[0] == Join(parts)[..|parts[0]|][0];
  }

  /** With a suffix free of `/`, the new path is the endpoint's non-empty
      segments followed by the suffix as one final segment. */
  lemma ResolveWithSuffix(endpoint: Url, suffix: Segment, pairs: seq<QueryPair>)
    requires endpoint.path.Hierarchical?
    ensures Resolve(endpoint, Some(suffix), pairs).path == Hierarchical(NonEmpty(endpoint.path.segments) + [suffix])
  {
    var parts := NonEmpty(endpoint.path.segments) + [suffix];
    var text := Join(parts);
    if NonEmpty(endpoint.path.segments) != [] {
      JoinNoLeadingSlash(parts);
    } else {
      assert parts == [suffix];
      if suffix != "" {
        assert text == suffix;
        assert text[0] in suffix;
      }
    }
    SplitJoin(parts);
    AppendPairsQuery(SetPath(endpoint, text), pairs);
  }

  /** A suffix that itself holds `/` is cut at its slashes after the
      endpoint's non-empty segments. (Only when the endpoint has no
      non-empty segment and the suffix starts with `/` is that one leading
      `/` absorbed by `set_path`; see ExampleLeadingSlashSuffix for a
      leading `/` after a non-empty segment.) */
  lemma ResolveWithNestedSuffix(endpoint: Url, suffix: string, pairs: seq<QueryPair>)
    requires endpoint.path.Hierarchical?
    requires NonEmpty(endpoint.path.segments) != [] || suffix == [] || suffix[0] != '/'
    ensures Resolve(endpoint, Some(suffix), pairs).path == Hierarchical(NonEmpty(endpoint.path.segments) + Split(suffix))
  {
    var kept := NonEmpty(endpoint.path.segments);
    if kept == [] {
      assert kept + [suffix] == [suffix];
      AppendPairsQuery(SetPath(endpoint, Join([suffix])), pairs);
    } else {
      var text := Join(kept + [suffix]);
      assert (kept + [suffix])[0] == kept[0];
      assert text[0] == text[..|kept[0]|][0];
      SplitJoinThen(kept, suffix);
      AppendPairsQuery(SetPath(endpoint, text), pairs);
    }
  }

  /** With an endpoint that has no non-empty segment, a suffix starting
      with `/` loses that one `/` to `set_path`: the new path is the rest of
      the suffix, split on `/`. */
  lemma ResolveLeadingSlashBareHost(endpoint: Url, suffix: string, pairs: seq<QueryPair>)
    requires endpoint.path.Hierarchical? && NonEmpty(endpoint.path.segments) == []
    requires suffix != [] && suffix[0] == '/'
    ensures Resolve(endpoint, Some(suffix), pairs).path == Hierarchical(Split(suffix[1..]))
  {
    assert NonEmpty(endpoint.path.segments) + [suffix] == [suffix];
    AppendPairsQuery(SetPath(endpoint, Join([suffix])), pairs);
  }

  /** An endpoint that cannot be a base gets the suffix as its whole path. */
  lemma ResolveOpaque(endpoint: Url, suffix: string, pairs: seq<QueryPair>)
    requires endpoint.path.Opaque?
    ensures Resolve(endpoint, Some(suffix), pairs).path == Opaque(suffix)
  {
    AppendPairsQuery(SetPath(endpoint, Join([suffix])), pairs);
  }

  /** A non-empty suffix free of `/` never yields an empty segment, so the
      path has no doubled `/` and no trailing `/`. */
  lemma ResolvedSegmentsNonEmpty(endpoint: Url, suffix: Segment, pairs: seq<QueryPair>)
    requires endpoint.path.Hierarchical? && suffix != ""
    ensures var u := Resolve(endpoint, Some(suffix), pairs);
      u.path.Hierarchical? && forall i :: 0 <= i < |u.path.segments| ==> u.path.segments[i] != ""
  {
    ResolveWithSuffix(endpoint, suffix, pairs);
  }

  /** A trailing `/` on the endpoint changes nothing once a suffix is set. */
  lemma TrailingSlashIgnored(endpoint: Url, segs: seq<Segment>, suffix: string, pairs: seq<QueryPair>)
    ensures Resolve(endpoint.(path := Hierarchical(segs + [""])), Some(suffix), pairs)
         == Resolve(endpoint.(path := Hierarchical(segs)), Some(suffix), pairs)
  {
    var withSlash := endpoint.(path := Hierarchical(segs + [""]));
    var without := endpoint.(path := Hierarchical(segs));
    assert PathSegments(withSlash).GetOr([]) == segs + [""];
    assert PathSegments(without).GetOr([]) == segs;
    NonEmptyAppend(segs, "");
    assert NonEmpty(segs + [""]) == NonEmpty(segs);
  }

  /** `https://api.test/v1/` with suffix `users` gives `/v1/users`. */
  lemma ExampleTrailingSlash()
    ensures var endpoint := Url("https", "api.test", Hierarchical(["v1", ""]), None, None);
      var u := Resolve(endpoint, Some("users"), []);
      u == Url("https", "api.test", Hierarchical(["v1", "users"]), None, None) &&
      "/" + Join(u.path.segments) == "/v1/users"
  {
    var endpoint := Url("https", "api.test", Hierarchical(["v1", ""]), None, None);
    ResolveWithSuffix(endpoint, "users", []);
    assert NonEmpty(["v1", ""]) == ["v1"];
  }

  /** A suffix that starts with `/` after a non-empty segment keeps that
      `/` as a separator of its own, so an empty segment appears:
      `https://api.test/v1/` with suffix `/users` resolves to `/v1//users`. */
  lemma ExampleLeadingSlashSuffix()
    ensures Resolve(Url("https", "api.test", Hierarchical(["v1", ""]), None, None), Some("/users"), []).path
         == Hierarchical(["v1", "", "users"])
    ensures "/" + Join(["v1", "", "users"]) == "/v1//users"
  {
    var endpoint := Url("https", "api.test", Hierarchical(["v1", ""]), None, None);
    assert NonEmpty(["v1", ""]) == ["v1"];
    ResolveWithNestedSuffix(endpoint, "/users", []);
    SplitLeadingSlash();
    assert ["v1"] + ["", "users"] == ["v1", "", "users"];
    JoinDoubledSlash();
  }

  lemma SplitLeadingSlash()
    ensures Split("/users") == ["", "users"]
  {
    assert "" + "/" + "users" == "/users";
    SplitAfterSegment("", "users");
    SplitSegment("users");
  }

  lemma JoinDoubledSlash()
    ensures Join(["v1", "", "users"]) == "v1//users"
  {
    var segs: seq<string> := ["v1", "", "users"];
    JoinCons(segs);
    assert segs[1..] == ["", "users"];
    JoinCons(segs[1..]);
    assert segs[1..][1..] == ["users"];
  }

  /** The URL of the widgets example. */
  lemma ResolveWidgets()
    ensures Resolve(Url("https", "api.test", Hierarchical([""]), None, None), Some("widgets"), [("id", "42")])
         == Url("https", "api.test", Hierarchical(["widgets"]), Some([("id", "42")]), None)
  {
    var endpoint := Url("https", "api.test", Hierarchical([""]), None, None);
    assert NonEmpty([""]) == [];
    ResolveWithSuffix(endpoint, "widgets", [("id", "42")]);
    ResolveQuery(endpoint, Some("widgets"), [("id", "42")]);
    assert QueryPairs(endpoint) + [("id", "42")] == [("id", "42")];
  }

  /** `https://api.test` with `.to("widgets").with_query_pair("id", "42")`
      calls `https://api.test/widgets?id=42`. */
  lemma ExampleWidgets<S>(requestType: RequestType<S>)
    ensures var r := New(Bridge(Url("https", "api.test", Hierarchical([""]), None, None)), requestType)
                       .To("widgets").WithQueryPair("id", "42");
      Resolve(r.bridge.endpoint, r.path, r.queryPairs)
        == Url("https", "api.test", Hierarchical(["widgets"]), Some([("id", "42")]), None)
  {
    var endpoint := Url("https", "api.test", Hierarchical([""]), None, None);
    var r := New(Bridge(endpoint), requestType).To("widgets").WithQueryPair("id", "42");
    assert r.bridge.endpoint == endpoint && r.path == Some("widgets") && r.queryPairs == [("id", "42")];
    ResolveWidgets();
  }
}
