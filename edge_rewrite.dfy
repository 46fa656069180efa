/** The edge function of deploy/edge/index.js: every viewer request is
    answered with a permanent redirect to the configured base URL, the path
    given a trailing slash when its last segment is a plain word, and the
    query string carried over. */
module EdgeRewrite {
  import opened Wrappers

  /** The fields of the CloudFront request the handler reads: the URI, the
      query string (absent when the request has none) and the value of the
      `x-env-baseurl` custom header of the origin. */
  datatype Request = Request(uri: string, querystring: Option<string>, baseUrl: string)

  datatype Header = Header(key: string, value: string)

  datatype Response = Response(status: string, statusDescription: string, location: seq<Header>)

  /** `\w`, `-` and `_`: the characters the path pattern accepts in the last
      segment (JavaScript's `\w` is ASCII letters, digits and `_`). */
  predicate WordChar(c: char) {
    'a' <= c <= 'z' || 'A' <= c <= 'Z' || '0' <= c <= '9' || c == '_' || c == '-'
  }

  /** Whether `/(\/[\w\-_]+)$/` matches: some '/' is followed, up to the end
      of the URI, by one or more word characters. */
  predicate EndsInWordSegment(uri: string) {
    exists j :: 0 <= j < |uri| - 1 && uri[j] == '/' && AllWord(uri[j + 1..])
  }

  predicate AllWord(s: string) {
    forall k :: 0 <= k < |s| ==> WordChar(s[k])
  }

  /** The matcher, reading the URI from its end: a run of at least one word
      character preceded by '/'. */
  function WordRun(uri: string): (n: nat)
    ensures n <= |uri| && AllWord(uri[|uri| - n..])
    ensures n < |uri| ==> !WordChar(uri[|uri| - n - 1])
  {
    if uri == [] || !WordChar(uri[|uri| - 1]) then 0
    else
      var n := WordRun(uri[..|uri| - 1]);
      assert uri[..|uri| - 1][|uri| - 1 - n..] == uri[|uri| - 1 - n..|uri| - 1];
      n + 1
  }

  predicate Matches(uri: string) {
    var n := WordRun(uri);
    0 < n < |uri| && uri[|uri| - n - 1] == '/'
  }

  /** `request.uri.replace(/(\/[\w\-_]+)$/, "$1/")`: the matched segment is
      kept and a '/' follows it, so the URI gains one trailing slash. */
  function RewritePath(uri: string): (r: string)
    ensures Matches(uri) ==> r == uri + "/"
    ensures !Matches(uri) ==> r == uri
  {
    if Matches(uri) then uri + "/" else uri
  }

  /** The scanning matcher agrees with the regular expression's meaning. */
  lemma MatchesMeaning(uri: string)
    ensures Matches(uri) <==> EndsInWordSegment(uri)
  {
    if EndsInWordSegment(uri) {
      var j :| 0 <= j < |uri| - 1 && uri[j] == '/' && AllWord(uri[j + 1..]);
      SegmentMatches(uri, j);
    }
    if Matches(uri) {
      var n := WordRun(uri);
      assert uri[|uri| - n - 1 + 1..] == uri[|uri| - n..];
    }
  }

  /** A '/' followed by word characters up to the end is where the run of
      word characters starts. */
  lemma SegmentMatches(uri: string, j: nat)
    requires j < |uri| - 1 && uri[j] == '/' && AllWord(uri[j + 1..])
    ensures WordRun(uri) == |uri| - j - 1 && Matches(uri)
  {
    WordRunCovers(uri, j + 1);
    WordRunBefore(uri, j);
  }

  /** The run of word characters reaches back over every word character
      that ends the URI. */
  lemma {:induction false} WordRunCovers(uri: string, i: nat)
    requires i <= |uri| && AllWord(uri[i..])
    ensures WordRun(uri) >= |uri| - i
  {
    if i < |uri| {
      var init := uri[..|uri| - 1];
      assert uri[i..][|uri| - 1 - i] == uri[|uri| - 1];
      assert init[i..] == uri[i..|uri| - 1];
      forall k | 0 <= k < |init[i..]| ensures WordChar(init[i..][k]) {
        assert init[i..][k] == uri[i..][k];
      }
      WordRunCovers(init, i);
    }
  }

  /** The run of word characters stops after any other character. */
  lemma {:induction false} WordRunBefore(uri: string, k: nat)
    requires k < |uri| && !WordChar(uri[k])
    ensures WordRun(uri) <= |uri| - k - 1
  {
    if WordChar(uri[|uri| - 1]) {
      var init := uri[..|uri| - 1];
      assert init[k] == uri[k];
      WordRunBefore(init, k);
    }
  }

  /** A URI ending in '/' is left as it is. */
  lemma SlashEndedUnchanged(uri: string)
    requires |uri| > 0 && uri[|uri| - 1] == '/'
    ensures RewritePath(uri) == uri
  {
  }

  /** A last segment holding any other character, such as '.', is left as
      it is. */
  lemma OtherCharUnchanged(uri: string, k: nat)
    requires k < |uri| && !WordChar(uri[k]) && uri[k] != '/'
    requires forall m :: k < m < |uri| ==> uri[m] != '/'
    ensures RewritePath(uri) == uri
  {
    WordRunBefore(uri, k);
  }

  /** Rewriting a rewritten path changes nothing. */
  lemma RewriteIdempotent(uri: string)
    ensures RewritePath(RewritePath(uri)) == RewritePath(uri)
  {
    var r := RewritePath(uri);
    if Matches(uri) {
      assert r[|r| - 1] == '/';
      SlashEndedUnchanged(r);
    }
  }

  /** The query part: '?' and the query string, or nothing when there is no
      query string or it is empty. */
  function QueryPart(querystring: Option<string>): (p: string)
    ensures querystring.Some? && querystring.value != [] ==> p == "?" + querystring.value
    ensures querystring.None? || querystring.value == [] ==> p == []
  {
    if querystring.Some? && |querystring.value| > 0 then "?" + querystring.value else ""
  }

  /** The handler: status 301 with the one Location header. */
  function Handle(request: Request): (response: Response)
    ensures response.status == "301" && |response.location| == 1
    ensures response.location[0].key == "Location"
  {
    var rewritten := request.baseUrl + RewritePath(request.uri) + QueryPart(request.querystring);
    Response("301", "Permanently moved", [Header("Location", rewritten)])
  }

  /** The Location is the base URL, then the rewritten path, then the query
      part; following the redirect to a path of the same site and redirecting
      again gives the same Location. */
  lemma HandleLocation(request: Request)
    ensures var loc := Handle(request).location[0].value;
            var path := RewritePath(request.uri);
            loc == request.baseUrl + path + QueryPart(request.querystring) &&
            Handle(request.(uri := path)).location[0].value == loc
  {
    RewriteIdempotent(request.uri);
  }
}
