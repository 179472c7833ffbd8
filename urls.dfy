/** The part of a URL the request builder works on: the path (as the URL
    library's list of segments) and the `application/x-www-form-urlencoded`
    query pairs. Scheme and host are opaque; percent-encoding is kept
    abstract, so segments and pairs are held decoded. */
module Urls {
  import opened Wrappers

  /** One path segment: what lies between two `/`. */
  type Segment = s: string | '/' !in s

  /** One query pair, name and value. */
  type QueryPair = (string, string)

  /** A hierarchical path is a list of segments (`/v1/` is `["v1", ""]`,
      `/` is `[""]`); a URL that cannot be a base (`mailto:x`) has an
      opaque path with no segments. */
  datatype Path = Hierarchical(segments: seq<Segment>) | Opaque(text: string)

  /** `query == None` is a URL without `?`; `Some([])` is one ending in `?`. */
  datatype Url = Url(scheme: string, host: string, path: Path, query: Option<seq<QueryPair>>, fragment: Option<string>)

  /** The URL library's `path_segments`. */
  function PathSegments(u: Url): (r: Option<seq<Segment>>)
    ensures r.Some? <==> u.path.Hierarchical?
  {
    match u.path
    case Hierarchical(segs) => Some(segs)
    case Opaque(_) => None
  }

  /** `parts.join("/")`: the parts in order with one `/` between each two. */
  function Join(parts: seq<string>): (s: string)
    ensures parts != [] ==> |s| >= |parts[0]| && s[..|parts[0]|] == parts[0]
    ensures |parts| >= 2 ==> |s| > |parts[0]| && s[|parts[0]|] == '/'
  {
    if parts == [] then ""
    else if |parts| == 1 then parts[0]
    else parts[0] + "/" + Join(parts[1..])
  }

  /** Cuts a string at every `/`; the inverse of Join. */
  function Split(s: string): (r: seq<Segment>)
    ensures |r| >= 1
    ensures Join(r) == s
    decreases |s|
  {
    if s == [] then [""]
    else if s[0] == '/' then
      var t := Split(s[1..]);
      assert Join([""] + t) == "/" + Join(t) by {
        assert ([""] + t)[1..] == t;
      }
      [""] + t
    else
      var t := Split(s[1..]);
      var r := [[s[0]] + t[0]] + t[1..];
      assert Join(r) == [s[0]] + Join(t) by {
        if |t| > 1 {
          assert r[1..] == t[1..];
          assert Join(t) == t[0] + "/" + Join(t[1..]);
        }
      }
      assert [s[0]] + s[1..] == s;
      r
  }

  lemma {:induction false} SplitSegment(p: Segment)
    ensures Split(p) == [p]
  {
    if p != [] {
      SplitSegment(p[1..]);
      assert [p[0]] + p[1..] == p;
    }
  }

  lemma {:induction false} SplitAfterSegment(a: Segment, rest: string)
    ensures Split(a + "/" + rest) == [a] + Split(rest)
  {
    if a == [] {
      assert (a + "/" + rest)[1..] == rest;
    } else {
      assert (a + "/" + rest)[1..] == a[1..] + "/" + rest;
      SplitAfterSegment(a[1..], rest);
      assert [a[0]] + a[1..] == a;
    }
  }

  /** Joining segments and cutting the result again gives the segments back. */
  lemma {:induction false} SplitJoin(parts: seq<Segment>)
    requires parts != []
    ensures Split(Join(parts)) == parts
  {
    if |parts| == 1 {
      SplitSegment(parts[0]);
    } else {
      SplitAfterSegment(parts[0], Join(parts[1..]));
      SplitJoin(parts[1..]);
      assert [parts[0]] + parts[1..] == parts;
    }
  }

  lemma JoinCons(parts: seq<string>)
    requires |parts| >= 2
    ensures Join(parts) == parts[0] + "/" + Join(parts[1..])
  {
  }

  lemma HeadTailAppend<T>(a: seq<T>, r: seq<T>)
    requires a != []
    ensures [a[0]] + (a[1..] + r) == a + r
  {
    assert [a[0]] + a[1..] == a;
  }

  /** Joining segments and then a free-form string: the segments survive,
      and the string is cut at its own slashes. */
  lemma {:induction false} SplitJoinThen(parts: seq<Segment>, rest: string)
    requires parts != []
    ensures Split(Join(parts + [rest])) == parts + Split(rest)
  {
    var all := parts + [rest];
    var tail := all[1..];
    var j := Join(tail);
    JoinCons(all);
    assert Join(all) == parts[0] + "/" + j;
    SplitAfterSegment(parts[0], j);
    var rs := Split(rest);
    if |parts| == 1 {
      assert tail == [rest];
      assert Split(Join(all)) == [parts[0]] + rs;
    } else {
      assert tail == parts[1..] + [rest];
      SplitJoinThen(parts[1..], rest);
      assert Split(Join(all)) == [parts[0]] + (parts[1..] + rs);
      HeadTailAppend(parts, rs);
    }
  }

  /** The URL library's `set_path` (percent-encoding and `.`/`..`
      resolution not modelled): a hierarchical path is re-cut at `/`, after
      dropping one leading `/`; an opaque path takes the text as it is. */
  function SetPath(u: Url, text: string): (r: Url)
    ensures r.scheme == u.scheme && r.host == u.host && r.query == u.query && r.fragment == u.fragment
    ensures r.path.Hierarchical? <==> u.path.Hierarchical?
    ensures u.path.Opaque? ==> r.path == Opaque(text)
    ensures u.path.Hierarchical? && (text == [] || text[0] != '/') ==> Join(r.path.segments) == text
    ensures u.path.Hierarchical? && text != [] && text[0] == '/' ==> "/" + Join(r.path.segments) == text
    ensures r.path.Hierarchical? ==> |r.path.segments| >= 1
  {
    match u.path
    case Opaque(_) => u.(path := Opaque(text))
    case Hierarchical(_) =>
      if text != [] && text[0] == '/' then
        assert "/" + text[1..] == text;
        u.(path := Hierarchical(Split(text[1..])))
      else u.(path := Hierarchical(Split(text)))
  }

  /** The query pairs of a URL, none when it has no query. */
  function QueryPairs(u: Url): seq<QueryPair> {
    match u.query
    case Some(pairs) => pairs
    case None => []
  }

  /** `query_pairs_mut().append_pair(name, value)`: creates the query if
      the URL has none, then adds the pair after the existing ones. */
  function AppendPair(u: Url, pair: QueryPair): (r: Url)
    ensures r.scheme == u.scheme && r.host == u.host && r.path == u.path && r.fragment == u.fragment
    ensures r.query == Some(QueryPairs(u) + [pair])
  {
    u.(query := Some(QueryPairs(u) + [pair]))
  }

  /** Appending pairs one after the other, in order. */
  function AppendPairs(u: Url, pairs: seq<QueryPair>): (r: Url)
    ensures r.scheme == u.scheme && r.host == u.host && r.path == u.path && r.fragment == u.fragment
    ensures |QueryPairs(r)| == |QueryPairs(u)| + |pairs|
  {
    if pairs == [] then u
    else AppendPair(AppendPairs(u, pairs[..|pairs| - 1]), pairs[|pairs| - 1])
  }

  /** Appending pairs adds exactly those pairs, in order, after whatever
      query the URL had; with no pairs the URL is left as it is. */
  lemma {:induction false} AppendPairsQuery(u: Url, pairs: seq<QueryPair>)
    ensures AppendPairs(u, pairs).scheme == u.scheme && AppendPairs(u, pairs).host == u.host
    ensures AppendPairs(u, pairs).path == u.path && AppendPairs(u, pairs).fragment == u.fragment
    ensures AppendPairs(u, pairs).query == if pairs == [] then u.query else Some(QueryPairs(u) + pairs)
  {
    if pairs != [] {
      var init := pairs[..|pairs| - 1];
      AppendPairsQuery(u, init);
      assert QueryPairs(AppendPairs(u, init)) == QueryPairs(u) + init;
      assert init + [pairs[|pairs| - 1]] == pairs;
      assert (QueryPairs(u) + init) + [pairs[|pairs| - 1]] == QueryPairs(u) + pairs;
    }
  }
}
