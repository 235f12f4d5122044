/**
 * The minimal HTTP/1.1 client of the modular WiFi firmware: building a
 * request (request line, Host, User-Agent, "Connection: close", the added
 * headers, a blank line), parsing a response (status line, headers split
 * at their first ':' and trimmed, body after the first blank line) and
 * looking up a header by name without regard to ASCII case.
 *
 * Both directions share one layout, `MessageText`: lines joined by CRLF,
 * then a blank line, then the body. The response parser reads back every
 * response laid out this way, and the request builder produces it.
 */
module HttpClient {
  import opened Ints
  import opened Wrappers
  import Text

  const CRLF: string := "\r\n"

  datatype HttpConfig = HttpConfig(userAgent: string, timeoutMs: u32, maxResponseSize: nat)

  /** `HttpConfig::default()` */
  const DEFAULT_HTTP_CONFIG := HttpConfig("ESP32-C3-Client/1.0", 10000, 2048)

  datatype HttpRequest = HttpRequest(requestMethod: string, path: string, host: string, headers: seq<(string, string)>)

  /** `HttpRequest::new` */
  function NewRequest(requestMethod: string, host: string, path: string): (r: HttpRequest)
    ensures r.requestMethod == requestMethod && r.host == host && r.path == path && r.headers == []
  {
    HttpRequest(requestMethod, path, host, [])
  }

  /** `add_header`: the header goes after those already added; nothing else changes. */
  function AddHeader(req: HttpRequest, name: string, value: string): (r: HttpRequest)
    ensures r.headers == req.headers + [(name, value)] && r.(headers := req.headers) == req
  {
    req.(headers := req.headers + [(name, value)])
  }

  /** Lines joined by CRLF, with no CRLF after the last one. */
  function CrlfJoin(lines: seq<string>): (r: string)
    requires |lines| >= 1
    ensures Text.StartsWith(r, lines[0])
  {
    if |lines| == 1 then lines[0] else lines[0] + CRLF + CrlfJoin(lines[1..])
  }

  lemma {:induction false} CrlfJoinAppend(lines: seq<string>, last: string)
    requires |lines| >= 1
    ensures CrlfJoin(lines + [last]) == CrlfJoin(lines) + CRLF + last
    decreases |lines|
  {
    if |lines| > 1 {
      assert (lines + [last])[1..] == lines[1..] + [last];
      CrlfJoinAppend(lines[1..], last);
    }
  }

  /** The head of a message and its body: the lines, a blank line, the body. */
  function MessageText(lines: seq<string>, body: string): string
    requires |lines| >= 1
  {
    CrlfJoin(lines) + CRLF + CRLF + body
  }

  /** "name: value" */
  function HeaderLine(h: (string, string)): string {
    h.0 + ": " + h.1
  }

  function HeaderLines(headers: seq<(string, string)>): (r: seq<string>)
    ensures |r| == |headers|
    ensures forall i :: 0 <= i < |headers| ==> r[i] == HeaderLine(headers[i])
  {
    if headers == [] then [] else HeaderLines(headers[..|headers| - 1]) + [HeaderLine(headers[|headers| - 1])]
  }

  function RequestLine(req: HttpRequest): string {
    req.requestMethod + " " + req.path + " HTTP/1.1"
  }

  /** The three headers every request carries before its own. */
  function StandardHeaders(req: HttpRequest, config: HttpConfig): seq<(string, string)> {
    [("Host", req.host), ("User-Agent", config.userAgent), ("Connection", "close")]
  }

  function RequestLines(req: HttpRequest, config: HttpConfig): seq<string> {
    [RequestLine(req)] + HeaderLines(StandardHeaders(req, config) + req.headers)
  }

  /** The text `build_request` produces. */
  function RequestText(req: HttpRequest, config: HttpConfig): string {
    MessageText(RequestLines(req, config), "")
  }

  /** The request line, the three standard headers, then the request's own headers, in order. */
  lemma RequestLinesShape(req: HttpRequest, config: HttpConfig)
    ensures |RequestLines(req, config)| == 4 + |req.headers|
    ensures RequestLines(req, config)[0] == req.requestMethod + " " + req.path + " HTTP/1.1"
    ensures RequestLines(req, config)[1] == "Host: " + req.host
    ensures RequestLines(req, config)[2] == "User-Agent: " + config.userAgent
    ensures RequestLines(req, config)[3] == "Connection: close"
    ensures forall i :: 0 <= i < |req.headers| ==>
      RequestLines(req, config)[4 + i] == req.headers[i].0 + ": " + req.headers[i].1
  {
    assert "Host: " == "Host" + ": " && "User-Agent: " == "User-Agent" + ": ";
    assert "Connection: close" == "Connection" + ": " + "close";
    var all := StandardHeaders(req, config) + req.headers;
    var lines := RequestLines(req, config);
    assert lines[1] == HeaderLine(all[0]);
    assert lines[2] == HeaderLine(all[1]);
    assert lines[3] == HeaderLine(all[2]);
    forall i | 0 <= i < |req.headers|
      ensures lines[4 + i] == req.headers[i].0 + ": " + req.headers[i].1
    {
      assert lines[4 + i] == HeaderLine(all[3 + i]);
    }
  }

  /** Appending one more line and its CRLF to the joined lines before it. */
  lemma PushLine(prefix: string, lines: seq<string>, k: nat)
    requires 1 <= k < |lines| && prefix == CrlfJoin(lines[..k]) + CRLF
    ensures prefix + (lines[k] + CRLF) == CrlfJoin(lines[..k + 1]) + CRLF
  {
    assert lines[..k + 1] == lines[..k] + [lines[k]];
    CrlfJoinAppend(lines[..k], lines[k]);
  }

  /** The request line and the three standard headers, each followed by CRLF, as `build_request` writes them. */
  lemma RequestHead(req: HttpRequest, config: HttpConfig)
    ensures CrlfJoin(RequestLines(req, config)[..4]) + CRLF ==
      req.requestMethod + " " + req.path + " HTTP/1.1\r\n" + ("Host: " + req.host + "\r\n")
      + ("User-Agent: " + config.userAgent + "\r\n") + "Connection: close\r\n"
  {
    assert " HTTP/1.1\r\n" == " HTTP/1.1" + CRLF;
    assert "Connection: close\r\n" == "Connection: close" + CRLF;
    var lines := RequestLines(req, config);
    RequestLinesShape(req, config);
    var prefix := req.requestMethod + " " + req.path + " HTTP/1.1\r\n";
    assert lines[..1] == [lines[0]];
    PushLine(prefix, lines, 1);
    prefix := prefix + ("Host: " + req.host + "\r\n");
    PushLine(prefix, lines, 2);
    prefix := prefix + ("User-Agent: " + config.userAgent + "\r\n");
    PushLine(prefix, lines, 3);
  }

  /** One more of the request's own headers, written as "name: value" and CRLF. */
  lemma PushHeader(prefix: string, req: HttpRequest, config: HttpConfig, i: nat)
    requires i < |req.headers| && prefix == CrlfJoin(RequestLines(req, config)[..4 + i]) + CRLF
    ensures prefix + (req.headers[i].0 + ": " + req.headers[i].1 + "\r\n") ==
      CrlfJoin(RequestLines(req, config)[..4 + i + 1]) + CRLF
  {
    RequestLinesShape(req, config);
    PushLine(prefix, RequestLines(req, config), 4 + i);
  }

  /** All lines written, the blank line completes the request text. */
  lemma RequestTail(prefix: string, req: HttpRequest, config: HttpConfig)
    requires prefix == CrlfJoin(RequestLines(req, config)[..4 + |req.headers|]) + CRLF
    ensures prefix + "\r\n" == RequestText(req, config)
  {
    var lines := RequestLines(req, config);
    RequestLinesShape(req, config);
    assert lines[..4 + |req.headers|] == lines;
    assert CrlfJoin(lines) + CRLF + CRLF + "" == CrlfJoin(lines) + CRLF + CRLF;
  }

  /** The request text opens with its request line and CRLF. */
  lemma RequestTextStart(req: HttpRequest, config: HttpConfig)
    ensures Text.StartsWith(RequestText(req, config), req.requestMethod + " " + req.path + " HTTP/1.1\r\n")
  {
    var lines := RequestLines(req, config);
    RequestLinesShape(req, config);
    var first := req.requestMethod + " " + req.path + " HTTP/1.1\r\n";
    assert first == lines[0] + CRLF;
    assert CrlfJoin(lines) == lines[0] + CRLF + CrlfJoin(lines[1..]);
    var t := RequestText(req, config);
    assert t == lines[0] + CRLF + (CrlfJoin(lines[1..]) + CRLF + CRLF + "");
    assert t[..|first|] == first;
  }

  /** `build_request` */
  method BuildRequest(req: HttpRequest, config: HttpConfig) returns (request: string)
    ensures request == RequestText(req, config)
    ensures Text.StartsWith(request, req.requestMethod + " " + req.path + " HTTP/1.1\r\n")
  {
    RequestHead(req, config);
    request := req.requestMethod + " " + req.path + " HTTP/1.1\r\n";
    request := request + ("Host: " + req.host + "\r\n");
    request := request + ("User-Agent: " + config.userAgent + "\r\n");
    request := request + "Connection: close\r\n";
    var i := 0;
    while i < |req.headers|
      invariant 0 <= i <= |req.headers|
      invariant request == CrlfJoin(RequestLines(req, config)[..4 + i]) + CRLF
    {
      var (name, value) := req.headers[i];
      PushHeader(request, req, config, i);
      request := request + (name + ": " + value + "\r\n");
      i := i + 1;
    }
    RequestTail(request, req, config);
    request := request + "\r\n";
    RequestTextStart(req, config);
  }

  /** A line of the head: non-empty, with no CR or LF in it. */
  predicate LineOk(l: string) {
    l != [] && '\r' !in l && '\n' !in l
  }

  /** A line ending is LF, with one CR before it removed. */
  function StripCr(l: string): string {
    if |l| > 0 && l[|l| - 1] == '\r' then l[..|l| - 1] else l
  }

  /** `str::lines`: the text cut at each LF, a CR before the LF dropped, no empty last line. */
  function Lines(s: string): seq<string>
    decreases |s|
  {
    if s == [] then []
    else
      match Text.Find(s, "\n")
      case None => [s]
      case Some(i) => [StripCr(s[..i])] + Lines(s[i + 1..])
  }

  /** `p` is found first at `i` when it occurs there and nowhere before. */
  lemma FindAt(s: string, p: string, i: nat)
    requires Text.OccursAt(s, p, i)
    requires forall j :: 0 <= j < i ==> !Text.OccursAt(s, p, j)
    ensures Text.Find(s, p) == Some(i)
  {
  }

  /** A one-character pattern occurs exactly where that character is. */
  lemma OccursAtChar(s: string, c: char)
    ensures forall j :: 0 <= j < |s| ==> (Text.OccursAt(s, [c], j) <==> s[j] == c)
  {
    forall j | 0 <= j < |s|
      ensures Text.OccursAt(s, [c], j) <==> s[j] == c
    {
      assert s[j..j + 1] == [s[j]];
    }
  }

  lemma FindCharAt(s: string, c: char, i: nat)
    requires i < |s| && s[i] == c && c !in s[..i]
    ensures Text.Find(s, [c]) == Some(i)
  {
    assert s[i..i + 1] == [c];
    forall j | 0 <= j < i
      ensures !Text.OccursAt(s, [c], j)
    {
      assert s[..i][j] == s[j];
      assert s[j..j + 1] == [s[j]];
    }
    FindAt(s, [c], i);
  }

  lemma LinesOfLine(l: string)
    requires LineOk(l)
    ensures Lines(l) == [l]
  {
    forall j | 0 <= j < |l|
      ensures !Text.OccursAt(l, "\n", j)
    {
      assert l[j..j + 1] == [l[j]];
    }
  }

  lemma LinesStep(l: string, rest: string)
    requires LineOk(l)
    ensures Lines(l + CRLF + rest) == [l] + Lines(rest)
  {
    var s := l + CRLF + rest;
    assert s[..|l| + 1] == l + "\r";
    FindCharAt(s, '\n', |l| + 1);
    assert StripCr(l + "\r") == l;
    assert s[|l| + 2..] == rest;
  }

  lemma {:induction false} LinesOfCrlfJoin(lines: seq<string>)
    requires |lines| >= 1 && forall k :: 0 <= k < |lines| ==> LineOk(lines[k])
    ensures Lines(CrlfJoin(lines)) == lines
    decreases |lines|
  {
    if |lines| == 1 {
      LinesOfLine(lines[0]);
    } else {
      assert CrlfJoin(lines) == lines[0] + CRLF + CrlfJoin(lines[1..]);
      LinesStep(lines[0], CrlfJoin(lines[1..]));
      LinesOfCrlfJoin(lines[1..]);
      HeadAndTail(lines);
    }
  }

  /** Every CR of the text is followed by LF and then by something other than CR. */
  predicate NoBlankLine(s: string) {
    forall j :: 0 <= j < |s| && s[j] == '\r' ==> j + 2 < |s| && s[j + 1] == '\n' && s[j + 2] != '\r'
  }

  lemma {:induction false} CrlfJoinNoBlankLine(lines: seq<string>)
    requires |lines| >= 1 && forall k :: 0 <= k < |lines| ==> LineOk(lines[k])
    ensures NoBlankLine(CrlfJoin(lines))
    decreases |lines|
  {
    var s := CrlfJoin(lines);
    var l := lines[0];
    if |lines| == 1 {
      assert forall j :: 0 <= j < |s| ==> s[j] in l;
    } else {
      var t := CrlfJoin(lines[1..]);
      CrlfJoinNoBlankLine(lines[1..]);
      assert s == l + CRLF + t;
      assert t[0] == lines[1][0];
      assert forall j :: 0 <= j < |l| ==> s[j] == l[j];
      assert forall j :: |l| + 2 <= j < |s| ==> s[j] == t[j - |l| - 2];
    }
  }

  /** The head and the body of a message: the lines before the first blank line, and what follows it. */
  function ReadMessageHead(data: string): (r: Option<(seq<string>, string)>)
    ensures r.None? <==> Text.Find(data, "\r\n\r\n").None?
  {
    match Text.Find(data, "\r\n\r\n")
    case None => None
    case Some(h) => Some((Lines(data[..h]), if h + 4 < |data| then data[h + 4..] else []))
  }

  /** Every message laid out by `MessageText` is read back as its lines and its body. */
  lemma MessageRoundTrip(lines: seq<string>, body: string)
    requires |lines| >= 1 && forall k :: 0 <= k < |lines| ==> LineOk(lines[k])
    ensures ReadMessageHead(MessageText(lines, body)) == Some((lines, body))
  {
    var head := CrlfJoin(lines);
    var s := MessageText(lines, body);
    CrlfJoinNoBlankLine(lines);
    assert s[|head|..|head| + 4] == "\r\n\r\n";
    forall j | 0 <= j < |head|
      ensures !Text.OccursAt(s, "\r\n\r\n", j)
    {
      assert s[j] == head[j];
      if head[j] == '\r' {
        assert s[j + 2] == head[j + 2];
        assert s[j..j + 4][2] == s[j + 2];
      }
    }
    FindAt(s, "\r\n\r\n", |head|);
    assert s[..|head|] == head;
    LinesOfCrlfJoin(lines);
    assert s[|head| + 4..] == body;
  }

  /** `line.find(':')`, then both sides trimmed; a line without ':' is no header. */
  function ParseHeader(line: string): (r: Option<(string, string)>)
    ensures r.Some? <==> ':' in line
  {
    OccursAtChar(line, ':');
    match Text.Find(line, ":")
    case None => None
    case Some(p) => Some((Text.Trim(line[..p]), Text.Trim(line[p + 1..])))
  }

  /** A header's name stops before the first ':', and neither name nor value starts or ends with whitespace. */
  lemma ParsedHeaderTrimmed(line: string)
    ensures ParseHeader(line).Some? ==> ':' !in ParseHeader(line).value.0
    ensures ParseHeader(line).Some? ==> Trimmed(ParseHeader(line).value.0) && Trimmed(ParseHeader(line).value.1)
  {
    match Text.Find(line, ":")
    case None =>
    case Some(p) =>
      NoColonBefore(line, p);
      TrimIsTrimmed(line[..p]);
      TrimIsTrimmed(line[p + 1..]);
  }

  /** No whitespace at either end. */
  predicate Trimmed(s: string) {
    s == [] || (!Text.IsWhitespace(s[0]) && !Text.IsWhitespace(s[|s| - 1]))
  }

  /** The trimmed text before the first ':' has no ':' in it. */
  lemma NoColonBefore(line: string, p: nat)
    requires Text.Find(line, ":") == Some(p)
    ensures p < |line| && ':' !in Text.Trim(line[..p])
  {
    ColonFreePrefix(line, p);
    var x := line[..p];
    TrimIsTrimmed(x);
    var t := Text.Trim(x);
    var i :| Text.OccursAt(x, t, i);
    InfixAvoids(x, t, i, ':');
  }

  /** Before the first ':' there is none. */
  lemma ColonFreePrefix(line: string, p: nat)
    requires Text.Find(line, ":") == Some(p)
    ensures p < |line| && ':' !in line[..p]
  {
    OccursAtChar(line, ':');
    assert ":" == [':'];
    forall j | 0 <= j < p ensures line[j] != ':' {
      assert !Text.OccursAt(line, ":", j);
    }
  }

  lemma TrimIsTrimmed(s: string)
    ensures Trimmed(Text.Trim(s)) && exists i :: Text.OccursAt(s, Text.Trim(s), i)
  {
    Text.TrimProperties(s);
  }

  /** A character missing from a text is missing from every infix of it. */
  lemma InfixAvoids(x: string, t: string, i: nat, c: char)
    requires Text.OccursAt(x, t, i) && c !in x
    ensures c !in t
  {
  }


  /** The values `f` gives for the elements it accepts, in order. */
  function FilterMap<S, T>(xs: seq<S>, f: S -> Option<T>): (r: seq<T>)
    ensures |r| <= |xs|
  {
    if xs == [] then []
    else
      var rest := FilterMap(xs[..|xs| - 1], f);
      match f(xs[|xs| - 1])
      case None => rest
      case Some(y) => rest + [y]
  }

  lemma FilterMapSnoc<S, T>(xs: seq<S>, x: S, f: S -> Option<T>)
    ensures FilterMap(xs + [x], f) == FilterMap(xs, f) + (if f(x).Some? then [f(x).value] else [])
  {
    assert (xs + [x])[..|xs|] == xs;
  }

  lemma FilterMapStep<S, T>(xs: seq<S>, i: nat, f: S -> Option<T>)
    requires i < |xs|
    ensures FilterMap(xs[..i + 1], f) == FilterMap(xs[..i], f) + (if f(xs[i]).Some? then [f(xs[i]).value] else [])
  {
    assert xs[..i + 1][..i] == xs[..i];
  }

  /** The headers of the lines after the status line, in order. */
  function ParseHeaders(lines: seq<string>): (r: seq<(string, string)>)
    ensures |r| <= |lines|
  {
    FilterMap(lines, ParseHeader)
  }

  /** A header that is read back as written: no ':' in the name, no CR or LF, nothing to trim. */
  predicate CleanHeader(h: (string, string)) {
    ':' !in h.0 && '\r' !in h.0 && '\n' !in h.0 && '\r' !in h.1 && '\n' !in h.1
    && Text.Trim(h.0) == h.0 && Text.Trim(h.1) == h.1
  }

  lemma TrimAfterSpace(v: string)
    ensures Text.Trim(" " + v) == Text.Trim(v)
  {
    assert (" " + v)[1..] == v;
  }

  lemma HeaderLineOk(h: (string, string))
    requires CleanHeader(h)
    ensures LineOk(HeaderLine(h))
  {
    var line := HeaderLine(h);
    assert forall j :: 0 <= j < |h.0| ==> line[j] == h.0[j];
    assert forall j :: |h.0| + 2 <= j < |line| ==> line[j] == h.1[j - |h.0| - 2];
  }

  lemma HeaderRoundTrip(h: (string, string))
    requires CleanHeader(h)
    ensures ParseHeader(HeaderLine(h)) == Some(h)
    ensures LineOk(HeaderLine(h))
  {
    CleanHeaderLineParses(h);
    HeaderLineOk(h);
  }

  lemma CleanHeaderLineParses(h: (string, string))
    requires CleanHeader(h)
    ensures ParseHeader(HeaderLine(h)) == Some(h)
  {
    var line := HeaderLine(h);
    var p := |h.0|;
    assert line[..p] == h.0;
    FindCharAt(line, ':', p);
    assert ":" == [':'];
    assert Text.Find(line, ":") == Some(p);
    assert line[p + 1..] == " " + h.1;
    TrimAfterSpace(h.1);
    assert Text.Trim(line[..p]) == h.0 && Text.Trim(line[p + 1..]) == h.1;
  }

  lemma ParseHeadersSnoc(lines: seq<string>, l: string, h: (string, string))
    requires ParseHeader(l) == Some(h)
    ensures ParseHeaders(lines + [l]) == ParseHeaders(lines) + [h]
  {
    FilterMapSnoc(lines, l, ParseHeader);
  }

  lemma {:induction false} HeadersRoundTrip(headers: seq<(string, string)>)
    requires forall k :: 0 <= k < |headers| ==> CleanHeader(headers[k])
    ensures ParseHeaders(HeaderLines(headers)) == headers
    decreases |headers|
  {
    if headers != [] {
      var n := |headers|;
      var init := headers[..n - 1];
      var h := headers[n - 1];
      ButLastAndLast(headers);
      var l := HeaderLine(h);
      var initLines := HeaderLines(init);
      assert HeaderLines(headers) == initLines + [l];
      HeadersRoundTrip(init);
      HeaderRoundTrip(h);
      ParseHeadersSnoc(initLines, l, h);
    }
  }

  lemma HeaderLinesOk(headers: seq<(string, string)>)
    requires forall k :: 0 <= k < |headers| ==> CleanHeader(headers[k])
    ensures forall k :: 0 <= k < |headers| ==> LineOk(HeaderLines(headers)[k])
  {
    forall k | 0 <= k < |headers| ensures LineOk(HeaderLines(headers)[k]) {
      HeaderLineOk(headers[k]);
    }
  }

  /** "Connection: close" is read back as written. */
  lemma CloseHeaderClean()
    ensures CleanHeader(("Connection", "close"))
  {
    var n, v := "Connection", "close";
    assert !Text.IsWhitespace(n[0]) && !Text.IsWhitespace(n[|n| - 1]);
    assert !Text.IsWhitespace(v[0]) && !Text.IsWhitespace(v[|v| - 1]);
  }

  predicate AllClean(headers: seq<(string, string)>) {
    forall k :: 0 <= k < |headers| ==> CleanHeader(headers[k])
  }

  lemma StandardHeadersClean(req: HttpRequest, config: HttpConfig)
    requires CleanHeader(("Host", req.host)) && CleanHeader(("User-Agent", config.userAgent))
    ensures AllClean(StandardHeaders(req, config))
  {
    CloseHeaderClean();
    var std := StandardHeaders(req, config);
    forall k | 0 <= k < 3 ensures CleanHeader(std[k]) {
      if k == 0 {
        assert std[k] == ("Host", req.host);
      } else if k == 1 {
        assert std[k] == ("User-Agent", config.userAgent);
      } else {
        assert std[k] == ("Connection", "close");
      }
    }
  }

  lemma CleanConcat(a: seq<(string, string)>, b: seq<(string, string)>)
    requires AllClean(a) && AllClean(b)
    ensures AllClean(a + b)
  {
    forall k | 0 <= k < |a + b| ensures CleanHeader((a + b)[k]) {
      if k >= |a| {
        assert (a + b)[k] == b[k - |a|];
      }
    }
  }

  /**
   * A request whose parts are clean is read back, by the parser of
   * responses, as its request line, the Host, User-Agent and
   * "Connection: close" headers and then its own headers in order.
   */
  lemma RequestReadBack(req: HttpRequest, config: HttpConfig)
    requires LineOk(RequestLine(req))
    requires CleanHeader(("Host", req.host)) && CleanHeader(("User-Agent", config.userAgent))
    requires forall k :: 0 <= k < |req.headers| ==> CleanHeader(req.headers[k])
    ensures ReadMessageHead(RequestText(req, config)) == Some((RequestLines(req, config), ""))
    ensures ParseHeaders(RequestLines(req, config)[1..]) == StandardHeaders(req, config) + req.headers
  {
    var std := StandardHeaders(req, config);
    var all := std + req.headers;
    StandardHeadersClean(req, config);
    CleanConcat(std, req.headers);
    HeadersRoundTrip(all);
    HeaderLinesOk(all);
    var lines := RequestLines(req, config);
    assert lines[1..] == HeaderLines(all);
    forall k | 0 <= k < |lines| ensures LineOk(lines[k]) {
      if k > 0 {
        assert lines[k] == HeaderLines(all)[k - 1];
      }
    }
    MessageRoundTrip(lines, "");
  }

  /** The reasons `HttpResponse::parse` gives for refusing a response. */
  datatype ParseError = InvalidFormat | MissingStatusLine | InvalidStatusLine | InvalidStatusCode

  /** The message `HttpResponse::parse` returns for each reason. */
  function ErrorText(e: ParseError): string {
    match e
    case InvalidFormat => "Invalid HTTP response format"
    case MissingStatusLine => "Missing status line"
    case InvalidStatusLine => "Invalid status line format"
    case InvalidStatusCode => "Invalid status code"
  }

  datatype HttpResponse = HttpResponse(statusCode: u16, statusText: string, headers: seq<(string, string)>, body: string)

  /** `HttpResponse::parse` on the response as text. */
  function Parse(data: string): (r: Result<HttpResponse, ParseError>)
    ensures Text.Find(data, "\r\n\r\n").None? <==> r == Err(InvalidFormat)
  {
    match ReadMessageHead(data)
    case None => Err(InvalidFormat)
    case Some((lines, body)) =>
      if lines == [] then Err(MissingStatusLine)
      else
        var parts := Text.Words(lines[0]);
        if |parts| < 3 then Err(InvalidStatusLine)
        else
          match Text.ParseUnsigned(parts[1], U16_MAX)
          case None => Err(InvalidStatusCode)
          case Some(code) => Ok(HttpResponse(code, Text.Join(parts[2..], ' '), ParseHeaders(lines[1..]), body))
  }

  lemma ParseAccepts(data: string, lines: seq<string>, body: string, code: u16)
    requires ReadMessageHead(data) == Some((lines, body)) && lines != []
    requires |Text.Words(lines[0])| >= 3 && Text.ParseUnsigned(Text.Words(lines[0])[1], U16_MAX) == Some(code)
    ensures Parse(data) == Ok(HttpResponse(code, Text.Join(Text.Words(lines[0])[2..], ' '), ParseHeaders(lines[1..]), body))
  {
  }

  lemma ParseHeadersStep(lines: seq<string>, i: nat, header: Option<(string, string)>)
    requires i < |lines| && header == ParseHeader(lines[i])
    ensures ParseHeaders(lines[..i + 1]) == ParseHeaders(lines[..i]) + (if header.Some? then [header.value] else [])
  {
    FilterMapStep(lines, i, ParseHeader);
  }

  /** The header loop of `HttpResponse::parse`: each line with a ':' gives a header, in order. */
  method ParseHeaderLines(lines: seq<string>) returns (headers: seq<(string, string)>)
    ensures headers == ParseHeaders(lines)
  {
    headers := [];
    var i := 0;
    while i < |lines|
      invariant 0 <= i <= |lines|
      invariant headers == ParseHeaders(lines[..i])
    {
      var header := ParseHeader(lines[i]);
      ParseHeadersStep(lines, i, header);
      if header.Some? {
        headers := headers + [header.value];
      }
      i := i + 1;
    }
    assert lines[..i] == lines;
  }

  /** `HttpResponse::parse` */
  method ParseResponse(data: string) returns (r: Result<HttpResponse, ParseError>)
    ensures r == Parse(data)
  {
    var head := ReadMessageHead(data);
    if head.None? {
      return Err(InvalidFormat);
    }
    var (lines, body) := head.value;
    if lines == [] {
      return Err(MissingStatusLine);
    }
    var parts := Text.Words(lines[0]);
    if |parts| < 3 {
      return Err(InvalidStatusLine);
    }
    var code := Text.ParseUnsigned(parts[1], U16_MAX);
    if code.None? {
      return Err(InvalidStatusCode);
    }
    var headers := ParseHeaderLines(lines[1..]);
    ParseAccepts(data, lines, body, code.value);
    r := Ok(HttpResponse(code.value, Text.Join(parts[2..], ' '), headers, body));
  }

  /** The status line of a response: the version, the code in decimal, the reason phrase. */
  function StatusLine(code: u16, reason: seq<string>): string {
    "HTTP/1.1 " + Text.NatToDecimal(code) + " " + Text.Join(reason, ' ')
  }

  /** A response as a server lays it out: status line, header lines, blank line, body. */
  function FormatResponse(code: u16, reason: seq<string>, headers: seq<(string, string)>, body: string): string {
    MessageText([StatusLine(code, reason)] + HeaderLines(headers), body)
  }

  lemma DecimalIsWord(n: nat)
    ensures Text.IsWord(Text.NatToDecimal(n))
  {
    var d := Text.NatToDecimal(n);
    assert forall j :: 0 <= j < |d| ==> Text.IsDigit(d[j]);
  }

  lemma ButLastAndLast<T>(s: seq<T>)
    requires s != []
    ensures s[..|s| - 1] + [s[|s| - 1]] == s
  {
  }

  lemma HeadAndTail<T>(s: seq<T>)
    requires s != []
    ensures [s[0]] + s[1..] == s
  {
  }

  lemma PrependTwo<T>(a: T, b: T, r: seq<T>)
    ensures [a] + ([b] + r) == [a, b] + r
  {
  }

  lemma StatusLineWords(code: u16, reason: seq<string>)
    requires forall k :: 0 <= k < |reason| ==> Text.IsWord(reason[k])
    ensures Text.Words(StatusLine(code, reason)) == ["HTTP/1.1", Text.NatToDecimal(code)] + reason
  {
    var version, d, j := "HTTP/1.1", Text.NatToDecimal(code), Text.Join(reason, ' ');
    assert Text.IsWord(version) by {
      assert forall k :: 0 <= k < |version| ==> version[k] != ' ' && version[k] != '\t' && version[k] != '\n' && version[k] != '\r' && version[k] != '\U{000B}' && version[k] != '\U{000C}';
    }
    DecimalIsWord(code);
    var afterDecimal := " " + j;
    var afterVersion := " " + (d + afterDecimal);
    assert StatusLine(code, reason) == version + afterVersion;
    Text.WordsAfterSpace(j);
    Text.WordsOfJoin(reason);
    assert Text.Words(afterDecimal) == reason;
    Text.WordsOfWord(d, afterDecimal);
    assert Text.Words(d + afterDecimal) == [d] + reason;
    Text.WordsAfterSpace(d + afterDecimal);
    assert Text.Words(afterVersion) == [d] + reason;
    Text.WordsOfWord(version, afterVersion);
    PrependTwo(version, d, reason);
  }

  lemma StatusLineOk(code: u16, reason: seq<string>)
    requires forall k :: 0 <= k < |reason| ==> Text.IsWord(reason[k])
    ensures LineOk(StatusLine(code, reason))
  {
    forall k | 0 <= k < |reason| ensures '\r' !in reason[k] && '\n' !in reason[k] {
      assert Text.IsWord(reason[k]);
    }
    Text.JoinAvoids(reason, ' ', '\r');
    Text.JoinAvoids(reason, ' ', '\n');
    var d := Text.NatToDecimal(code);
    assert forall j :: 0 <= j < |d| ==> Text.IsDigit(d[j]);
  }

  lemma LinesOk(code: u16, reason: seq<string>, headers: seq<(string, string)>)
    requires forall k :: 0 <= k < |reason| ==> Text.IsWord(reason[k])
    requires AllClean(headers)
    ensures var lines := [StatusLine(code, reason)] + HeaderLines(headers);
      forall k :: 0 <= k < |lines| ==> LineOk(lines[k])
  {
    StatusLineOk(code, reason);
    HeaderLinesOk(headers);
    LinesOkCons(StatusLine(code, reason), HeaderLines(headers));
  }

  lemma LinesOkCons(l: string, rest: seq<string>)
    requires LineOk(l) && forall k :: 0 <= k < |rest| ==> LineOk(rest[k])
    ensures forall k :: 0 <= k < |[l] + rest| ==> LineOk(([l] + rest)[k])
  {
    forall k | 0 <= k < |[l] + rest| ensures LineOk(([l] + rest)[k]) {
      if k >= 1 {
        assert ([l] + rest)[k] == rest[k - 1];
      }
    }
  }

  /**
   * Every response laid out with a numeric code, a reason phrase of one
   * or more words and clean headers is parsed back as that code, the
   * reason words joined by single spaces, those headers in order and the
   * body.
   */
  lemma ParseOfFormatted(code: u16, reason: seq<string>, headers: seq<(string, string)>, body: string)
    requires |reason| >= 1 && forall k :: 0 <= k < |reason| ==> Text.IsWord(reason[k])
    requires AllClean(headers)
    ensures Parse(FormatResponse(code, reason, headers, body)) == Ok(HttpResponse(code, Text.Join(reason, ' '), headers, body))
  {
    var data := FormatResponse(code, reason, headers, body);
    var lines := [StatusLine(code, reason)] + HeaderLines(headers);
    assert lines[1..] == HeaderLines(headers);
    LinesOk(code, reason, headers);
    MessageRoundTrip(lines, body);
    StatusLineWords(code, reason);
    var parts := ["HTTP/1.1", Text.NatToDecimal(code)] + reason;
    assert parts[1] == Text.NatToDecimal(code) && parts[2..] == reason;
    Text.DecimalRoundTrip(code, U16_MAX);
    ParseAccepts(data, lines, body, code);
    HeadersRoundTrip(headers);
  }

  /** A head whose status line has fewer than three words is refused, whatever follows it. */
  lemma ShortStatusLineRefused(status: string, rest: seq<string>, body: string)
    requires LineOk(status) && |Text.Words(status)| < 3
    requires forall k :: 0 <= k < |rest| ==> LineOk(rest[k])
    ensures Parse(MessageText([status] + rest, body)) == Err(InvalidStatusLine)
  {
    var lines := [status] + rest;
    LinesOkCons(status, rest);
    MessageRoundTrip(lines, body);
  }

  /** `get_header`: the value of the first header whose name equals `name` up to ASCII case. */
  function FindHeader(headers: seq<(string, string)>, name: string): (r: Option<string>)
    ensures r.None? <==> forall k :: 0 <= k < |headers| ==> !Text.EqIgnoreAsciiCase(headers[k].0, name)
    ensures r.Some? ==> exists k :: 0 <= k < |headers| && Text.EqIgnoreAsciiCase(headers[k].0, name) && r.value == headers[k].1 &&
                          forall j :: 0 <= j < k ==> !Text.EqIgnoreAsciiCase(headers[j].0, name)
  {
    if headers == [] then None
    else if Text.EqIgnoreAsciiCase(headers[0].0, name) then Some(headers[0].1)
    else
      var r := FindHeader(headers[1..], name);
      assert forall k :: 1 <= k < |headers| ==> headers[k] == headers[1..][k - 1];
      r
  }

  /** `get_header` on a response. */
  function GetHeader(resp: HttpResponse, name: string): Option<string> {
    FindHeader(resp.headers, name)
  }
}
