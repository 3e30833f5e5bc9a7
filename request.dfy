/**
 * What `handle_client` does with the raw request before any state is
 * touched: the three whitespace-separated words of the request line, the
 * split of the path at its first `?`, the body of a POST, the choice of
 * route, and the framing of the response it sends back.
 */
module Request {
  import opened Wrappers
  import opened Text

  /** `isspace` in the C locale. */
  predicate IsSpace(c: char)
  {
    c == ' ' || c == '\t' || c == '\n' || c == '\U{B}' || c == '\U{C}' || c == '\r'
  }

  predicate NoSpace(s: string)
  {
    forall k :: 0 <= k < |s| ==> !IsSpace(s[k])
  }

  /** Where `operator>>` stops skipping leading whitespace. */
  function SkipSpace(s: string, i: nat): (j: nat)
    requires i <= |s|
    ensures i <= j <= |s|
    ensures j < |s| ==> !IsSpace(s[j])
    ensures forall k :: i <= k < j ==> IsSpace(s[k])
    decreases |s| - i
  {
    if i < |s| && IsSpace(s[i]) then SkipSpace(s, i + 1) else i
  }

  /** Where a word that starts at `i` ends. */
  function WordEnd(s: string, i: nat): (j: nat)
    requires i <= |s|
    ensures i <= j <= |s|
    ensures j < |s| ==> IsSpace(s[j])
    ensures forall k :: i <= k < j ==> !IsSpace(s[k])
    decreases |s| - i
  {
    if i < |s| && !IsSpace(s[i]) then WordEnd(s, i + 1) else i
  }

  /**
   * `stream >> word` from position `i`: the next whitespace-free run and the
   * position after it; the empty word once the input is exhausted.
   */
  function ReadWord(s: string, i: nat): (r: (string, nat))
    requires i <= |s|
    ensures i <= r.1 <= |s| && NoSpace(r.0)
  {
    var a := SkipSpace(s, i);
    var b := WordEnd(s, a);
    (s[a..b], b)
  }

  /** The word is empty exactly when only whitespace is left. */
  lemma ReadWordEmpty(s: string, i: nat)
    requires i <= |s|
    ensures ReadWord(s, i).0 == [] <==> forall k :: i <= k < |s| ==> IsSpace(s[k])
  {
  }

  datatype RequestLine = RequestLine(verb: string, target: string, version: string)

  /** `request_stream >> method >> path >> version`. */
  function ReadRequestLine(request: string): RequestLine
  {
    var m := ReadWord(request, 0);
    var p := ReadWord(request, m.1);
    var v := ReadWord(request, p.1);
    RequestLine(m.0, p.0, v.0)
  }

  lemma {:induction false} SkipSpaceAt(s: string, i: nat, j: nat)
    requires i <= j <= |s| && (j < |s| ==> !IsSpace(s[j]))
    requires forall k :: i <= k < j ==> IsSpace(s[k])
    ensures SkipSpace(s, i) == j
    decreases j - i
  {
    if i < j {
      SkipSpaceAt(s, i + 1, j);
    }
  }

  lemma {:induction false} WordEndAt(s: string, i: nat, j: nat)
    requires i <= j <= |s| && (j < |s| ==> IsSpace(s[j]))
    requires forall k :: i <= k < j ==> !IsSpace(s[k])
    ensures WordEnd(s, i) == j
    decreases j - i
  {
    if i < j {
      WordEndAt(s, i + 1, j);
    }
  }

  /** After whitespace `pre[i..]`, the next word is `w`. */
  lemma ReadWordAfter(pre: string, w: string, post: string, i: nat)
    requires i <= |pre| && forall k :: i <= k < |pre| ==> IsSpace(pre[k])
    requires |w| > 0 && NoSpace(w)
    requires post == [] || IsSpace(post[0])
    ensures ReadWord(pre + w + post, i) == (w, |pre| + |w|)
  {
    var s := pre + w + post;
    var a := |pre|;
    assert s[a] == w[0];
    SkipSpaceAt(s, i, a);
    forall k | a <= k < a + |w|
      ensures !IsSpace(s[k])
    {
      assert s[k] == w[k - a];
    }
    assert a + |w| < |s| ==> s[a + |w|] == post[0];
    WordEndAt(s, a, a + |w|);
    assert s[a..a + |w|] == w;
  }

  /**
   * A request line written as `METHOD SP TARGET SP VERSION` followed by a line
   * break (or anything starting with whitespace) reads back as its three words.
   */
  lemma RequestLineRoundTrip(m: string, p: string, v: string, rest: string)
    requires |m| > 0 && |p| > 0 && |v| > 0
    requires NoSpace(m) && NoSpace(p) && NoSpace(v)
    requires rest == [] || IsSpace(rest[0])
    ensures ReadRequestLine(m + " " + p + " " + v + rest) == RequestLine(m, p, v)
  {
    LeadingWords(m, p, v, rest);
    LastWord(m, p, v, rest);
  }

  lemma LeadingWords(m: string, p: string, v: string, rest: string)
    requires |m| > 0 && |p| > 0 && NoSpace(m) && NoSpace(p)
    ensures ReadWord(m + " " + p + " " + v + rest, 0) == (m, |m|)
    ensures ReadWord(m + " " + p + " " + v + rest, |m|) == (p, |m| + 1 + |p|)
  {
    FirstWord(m, p, v, rest);
    SecondWord(m, p, v, rest);
  }

  lemma FirstWord(m: string, p: string, v: string, rest: string)
    requires |m| > 0 && NoSpace(m)
    ensures ReadWord(m + " " + p + " " + v + rest, 0) == (m, |m|)
  {
    var post := " " + p + " " + v + rest;
    WordsRegroup(m, " ", p, " ", v, rest);
    assert m + post == [] + m + post;
    ReadWordAfter([], m, post, 0);
  }

  lemma SecondWord(m: string, p: string, v: string, rest: string)
    requires |p| > 0 && NoSpace(p)
    ensures ReadWord(m + " " + p + " " + v + rest, |m|) == (p, |m| + 1 + |p|)
  {
    var pre := m + " ";
    var post := " " + v + rest;
    WordsRegroup(m, " ", p, " ", v, rest);
    assert pre[|m|] == ' ';
    ReadWordAfter(pre, p, post, |m|);
  }

  lemma WordsRegroup(a: string, b: string, c: string, d: string, e: string, f: string)
    ensures a + b + c + d + e + f == a + (b + c + d + e + f)
    ensures a + b + c + d + e + f == (a + b) + c + (d + e + f)
  {
  }

  lemma LastWord(m: string, p: string, v: string, rest: string)
    requires |v| > 0 && NoSpace(v)
    requires rest == [] || IsSpace(rest[0])
    ensures ReadWord(m + " " + p + " " + v + rest, |m| + 1 + |p|) == (v, |m| + |p| + 2 + |v|)
  {
    var pre := m + " " + p + " ";
    assert pre[|m| + 1 + |p|] == ' ';
    ReadWordAfter(pre, v, rest, |m| + 1 + |p|);
  }

  /** The path and the query string: `path` is split at its first `?`. */
  function SplitTarget(target: string): (r: (string, string))
    ensures '?' !in r.0
    ensures '?' in target ==> r.0 + "?" + r.1 == target
    ensures '?' !in target ==> r == (target, "")
  {
    match Find(target, "?", 0)
    case None =>
      assert forall k :: 0 <= k < |target| ==> !MatchAt(target, "?", k) ==> target[k] != '?' by {
        forall k | 0 <= k < |target| && !MatchAt(target, "?", k)
          ensures target[k] != '?'
        {
          assert target[k..k + 1] == [target[k]];
        }
      }
      (target, "")
    case Some(q) =>
      assert target[q..q + 1] == "?";
      assert forall k :: 0 <= k < q ==> target[k] != '?' by {
        forall k | 0 <= k < q
          ensures target[k] != '?'
        {
          assert !MatchAt(target, "?", k);
          assert target[k..k + 1] == [target[k]];
        }
      }
      assert target[..q] + "?" + target[q + 1..] == target;
      (target[..q], target[q + 1..])
  }

  /** The query begins after the first `?`, so a path without one comes back intact. */
  lemma SplitTargetRoundTrip(path: string, query: string)
    requires '?' !in path
    ensures SplitTarget(path + "?" + query) == (path, query)
  {
    var t := path + "?" + query;
    assert t[|path|..|path| + 1] == "?";
    forall k | 0 <= k < |path|
      ensures !MatchAt(t, "?", k)
    {
      assert t[k..k + 1] == [path[k]];
    }
    FindFirstMatch(t, "?", 0, |path|);
    assert t[..|path|] == path;
    assert t[|path| + 1..] == query;
  }

  const HeaderEnd := "\r\n\r\n"

  /** The body of a request: for a POST, everything after the first blank line. */
  function BodyOf(verb: string, request: string): (body: string)
    ensures verb != "POST" ==> body == ""
    ensures |body| <= |request|
  {
    if verb == "POST" then
      match Find(request, HeaderEnd, 0)
      case Some(b) => request[b + 4..]
      case None => ""
    else ""
  }

  /** Headers without a blank line of their own are followed by the whole body. */
  lemma BodyOfRoundTrip(head: string, body: string)
    requires forall k :: 0 <= k < |head| ==> !MatchAt(head + HeaderEnd + body, HeaderEnd, k)
    ensures BodyOf("POST", head + HeaderEnd + body) == body
  {
    var s := head + HeaderEnd + body;
    assert s[|head|..|head| + 4] == HeaderEnd;
    FindFirstMatch(s, HeaderEnd, 0, |head|);
    assert s[|head| + 4..] == body;
  }

  /** The request as the handler sees it. */
  datatype Parsed = Parsed(verb: string, path: string, query: string, body: string)

  function ParseRequest(request: string): (r: Parsed)
    ensures '?' !in r.path
    ensures r.verb != "POST" ==> r.body == ""
  {
    var line := ReadRequestLine(request);
    var split := SplitTarget(line.target);
    Parsed(line.verb, split.0, split.1, BodyOf(line.verb, request))
  }

  /** A request line with a query string is taken apart into verb, path and query. */
  lemma ParseRequestRoundTrip(verb: string, path: string, query: string, rest: string)
    requires |verb| > 0 && NoSpace(verb) && |path| > 0 && NoSpace(path) && NoSpace(query)
    requires '?' !in path
    requires rest == [] || IsSpace(rest[0])
    ensures ParseRequest(verb + " " + (path + "?" + query) + " " + "HTTP/1.1" + rest)
      == Parsed(verb, path, query, BodyOf(verb, verb + " " + (path + "?" + query) + " " + "HTTP/1.1" + rest))
  {
    var target := path + "?" + query;
    assert NoSpace(target) by {
      forall k | 0 <= k < |target|
        ensures !IsSpace(target[k])
      {
        if k < |path| {
          assert target[k] == path[k];
        } else if k > |path| {
          assert target[k] == query[k - |path| - 1];
        }
      }
    }
    RequestLineRoundTrip(verb, target, "HTTP/1.1", rest);
    SplitTargetRoundTrip(path, query);
  }

  /**
   * A POST whose header lines hold no blank line of their own is taken apart
   * into its path, its query and exactly the body that follows the blank line.
   */
  lemma ParsePostRoundTrip(path: string, query: string, head: string, body: string)
    requires |path| > 0 && NoSpace(path) && NoSpace(query) && '?' !in path
    requires head == [] || IsSpace(head[0])
    requires forall k :: 0 <= k < |"POST" + " " + (path + "?" + query) + " " + "HTTP/1.1" + head| ==>
      !MatchAt("POST" + " " + (path + "?" + query) + " " + "HTTP/1.1" + (head + HeaderEnd + body), HeaderEnd, k)
    ensures ParseRequest("POST" + " " + (path + "?" + query) + " " + "HTTP/1.1" + (head + HeaderEnd + body))
      == Parsed("POST", path, query, body)
  {
    var line := "POST" + " " + (path + "?" + query) + " " + "HTTP/1.1";
    var rest := head + HeaderEnd + body;
    assert rest[0] == if head == [] then '\r' else head[0];
    ParseRequestRoundTrip("POST", path, query, rest);
    var pre := line + head;
    SplitAtHead(line, head, HeaderEnd, body);
    forall k | 0 <= k < |pre|
      ensures !MatchAt(pre + HeaderEnd + body, HeaderEnd, k)
    {
    }
    BodyOfRoundTrip(pre, body);
  }

  lemma SplitAtHead(line: string, head: string, e: string, body: string)
    ensures line + (head + e + body) == line + head + e + body
  {
  }

  /** The content type `handle_client` picks for a static asset, by the first suffix found. */
  function ContentType(path: string): string
  {
    if Contains(path, ".css") then "text/css"
    else if Contains(path, ".js") then "application/javascript"
    else if Contains(path, ".png") then "image/png"
    else "text/plain"
  }

  /** Where a request goes: the branches of `handle_client`, tried in order. */
  datatype Route =
    | IndexPage
    | Asset(file: string, contentType: string)
    | BoardRoute
    | MarkRoute
    | SubmitRoute
    | LeaderboardRoute
    | StreamRoute
    | NotFound

  function RouteOf(verb: string, path: string): Route
  {
    if path == "/" || path == "/index.html" then IndexPage
    else if StartsWith(path, "/assets/") then Asset("frontend" + path, ContentType(path))
    else if StartsWith(path, "/api/board/") then BoardRoute
    else if path == "/api/mark_square" && verb == "POST" then MarkRoute
    else if path == "/api/submit_bingo" && verb == "POST" then SubmitRoute
    else if path == "/api/leaderboard" then LeaderboardRoute
    else if path == "/api/leaderboard/stream" then StreamRoute
    else NotFound
  }

  /** Only the two state-changing API paths look at the verb; every other route ignores it. */
  lemma RouteIgnoresVerb(v1: string, v2: string, path: string)
    requires path != "/api/mark_square" && path != "/api/submit_bingo"
    ensures RouteOf(v1, path) == RouteOf(v2, path)
  {
  }

  /** A GET (or any verb but POST) to an API path that changes state is answered 404. */
  lemma StateChangesNeedPost(verb: string)
    requires verb != "POST"
    ensures RouteOf(verb, "/api/mark_square") == NotFound
    ensures RouteOf(verb, "/api/submit_bingo") == NotFound
  {
    Differs("/api/mark_square", "/assets/", 2);
    Differs("/api/mark_square", "/api/board/", 5);
    Differs("/api/submit_bingo", "/assets/", 2);
    Differs("/api/submit_bingo", "/api/board/", 5);
  }

  /** Any path under `/api/board/` asks for the board; `/api/board` itself does not. */
  lemma BoardRouteIsPrefix(verb: string, tail: string)
    ensures RouteOf(verb, "/api/board/" + tail) == BoardRoute
    ensures RouteOf(verb, "/api/board") == NotFound
  {
    var p := "/api/board/" + tail;
    assert p[..11] == "/api/board/";
    assert p[2] == 'p';
    Differs(p, "/assets/", 2);
    Differs("/api/board", "/assets/", 2);
  }

  /** Two strings that differ at position `k` do not share a prefix of length beyond `k`. */
  lemma Differs(s: string, pat: string, k: nat)
    requires k < |s| && k < |pat| && s[k] != pat[k]
    ensures !StartsWith(s, pat)
  {
    if |pat| <= |s| {
      assert s[..|pat|][k] == s[k];
    }
  }

  /** A string whose only dot is at `d` contains a dotted suffix only if it matches there. */
  lemma OnlyDot(s: string, d: nat, pat: string)
    requires |pat| > 1 && pat[0] == '.'
    requires forall k :: 0 <= k < |s| && k != d ==> s[k] != '.'
    requires d + 1 < |s| && s[d + 1] != pat[1]
    ensures !Contains(s, pat)
  {
    forall p | 0 <= p
      ensures !MatchAt(s, pat, p)
    {
      if p + |pat| <= |s| {
        assert s[p..p + |pat|][0] == s[p] && s[p..p + |pat|][1] == s[p + 1];
      }
    }
  }

  /** A string with no dot contains no dotted suffix. */
  lemma NoDot(s: string, pat: string)
    requires |pat| > 0 && pat[0] == '.'
    requires forall k :: 0 <= k < |s| ==> s[k] != '.'
    ensures !Contains(s, pat)
  {
    forall p | 0 <= p
      ensures !MatchAt(s, pat, p)
    {
      if p + |pat| <= |s| {
        assert s[p..p + |pat|][0] == s[p];
      }
    }
  }

  /** The suffix test is a substring test: `.json` contains `.js`. */
  lemma JsonIsServedAsJavaScript()
    ensures ContentType("/assets/data.json") == "application/javascript"
  {
    OnlyDot("/assets/data.json", 12, ".css");
    JsonContainsJs();
  }

  lemma JsonContainsJs()
    ensures Contains("/assets/data.json", ".js")
  {
    var s := "/assets/data.json";
    assert s[12..15] == ".js";
    assert MatchAt(s, ".js", 12);
  }

  /** `.css` is tested first: a path with `.css` anywhere in it is a style sheet, whatever else it holds. */
  lemma CssTestedFirst(path: string, k: nat)
    requires MatchAt(path, ".css", k)
    ensures ContentType(path) == "text/css"
  {
  }

  /** Without `.css`, a path with `.js` anywhere in it, `.json` included, is a script. */
  lemma ScriptUnlessCss(path: string, k: nat)
    requires forall q: nat :: !MatchAt(path, ".css", q)
    requires MatchAt(path, ".js", k)
    ensures ContentType(path) == "application/javascript"
  {
  }

  /** Without `.css` or `.js`, a path with `.png` anywhere in it is an image. */
  lemma ImageUnlessCssOrJs(path: string, k: nat)
    requires forall q: nat :: !MatchAt(path, ".css", q) && !MatchAt(path, ".js", q)
    requires MatchAt(path, ".png", k)
    ensures ContentType(path) == "image/png"
  {
  }

  /** A path holding none of `.css`, `.js` and `.png` is sent as plain text. */
  lemma PlainByDefault(path: string)
    requires forall q: nat :: !MatchAt(path, ".css", q) && !MatchAt(path, ".js", q) && !MatchAt(path, ".png", q)
    ensures ContentType(path) == "text/plain"
  {
  }

  /** A path with no dot at all, such as `/assets/readme`, is sent as plain text. */
  lemma DotlessIsPlain(path: string)
    requires forall k :: 0 <= k < |path| ==> path[k] != '.'
    ensures ContentType(path) == "text/plain"
  {
    NoDot(path, ".css");
    NoDot(path, ".js");
    NoDot(path, ".png");
  }

  /** The reason phrase `send_http_response` writes. */
  function StatusText(status: nat): (r: string)
    ensures r == "OK" <==> status == 200
    ensures r == "Not Found" <==> status == 404
  {
    if status == 200 then "OK" else if status == 404 then "Not Found" else "Error"
  }

  /** 201 (submit accepted) and 400 (rejected request) are both sent with the phrase `Error`. */
  lemma CreatedSaysError()
    ensures StatusText(201) == "Error" && StatusText(400) == "Error"
  {
  }

  /** The header block of a response, through the blank line. */
  function ResponseHead(status: nat, contentType: string, length: nat): string
  {
    "HTTP/1.1 " + HeaderLines(status, contentType, length) + HeaderEnd
  }

  /** The status line after the version, and the four header lines, up to the final line break pair. */
  function HeaderLines(status: nat, contentType: string, length: nat): string
  {
    NatToString(status) + " " + StatusText(status) + "\r\n"
      + "Content-Type: " + contentType + "\r\n"
      + "Content-Length: " + NatToString(length) + "\r\n"
      + "Access-Control-Allow-Origin: *\r\n"
      + "Connection: close"
  }

  /** All that `send_http_response` writes to the socket. */
  function HttpResponse(status: nat, contentType: string, body: string): string
  {
    ResponseHead(status, contentType, |body|) + body
  }

  /**
   * The response ends with the body, its header block ends with a blank
   * line, and the announced length reads back as the length of the body.
   */
  lemma ResponseFraming(status: nat, contentType: string, body: string)
    ensures var r := HttpResponse(status, contentType, body);
      var head := ResponseHead(status, contentType, |body|);
      r == head + body && |head| >= 4 && head[|head| - 4..] == HeaderEnd
      && StartsWith(r, "HTTP/1.1 ")
    ensures DecimalValue(NatToString(|body|)) == |body|
  {
    PrefixSuffix("HTTP/1.1 ", HeaderLines(status, contentType, |body|), HeaderEnd, body);
    NatToStringRoundTrip(|body|);
  }

  /** The opening and the closing piece of a concatenation are where they were put. */
  lemma PrefixSuffix(a: string, m: string, e: string, body: string)
    ensures var h := a + m + e;
      |h| >= |e| && h[|h| - |e|..] == e && (h + body)[..|a|] == a
  {
    var h := a + m + e;
    assert h[|h| - |e|..] == e;
    assert (h + body)[..|a|] == a;
  }
}
