/**
 * The C++ API's router (cpp-api/src/router/router.cpp): slicing the request text, the
 * dispatch on method and path, and the formatting of HTTP responses.
 */
module Router {
  import opened Wrappers
  import Seqs
  import Text
  import Template

  // ---- request parsing ----------------------------------------------------

  /** extract_method: the text before the first space, "GET" when there is none. */
  function ExtractMethod(request: string): (r: string)
    ensures ' ' !in request ==> r == "GET"
    ensures ' ' in request ==> r + " " <= request && ' ' !in r
  {
    match Text.CharIndex(request, ' ')
    case None => "GET"
    case Some(end) =>
      assert request[..end + 1] == request[..end] + " ";
      request[..end]
  }

  /** extract_path: the text between the first and the second space, "/" when either is missing. */
  function ExtractPath(request: string): (r: string)
    ensures ' ' !in request ==> r == "/"
    ensures ' ' !in r
  {
    match Text.CharIndex(request, ' ')
    case None => "/"
    case Some(start) =>
      var rest := request[start + 1..];
      match Text.CharIndex(rest, ' ')
      case None => "/"
      case Some(len) => rest[..len]
  }

  /** With only one space there is no second one to end the path, so the path is "/". */
  lemma OneSpacePath(verb: string, target: string)
    requires ' ' !in verb && ' ' !in target
    ensures ExtractPath(verb + " " + target) == "/"
  {
    var s := verb + " " + target;
    assert s == verb + [' '] + target;
    Text.CharIndexAfter(verb, ' ', target);
    assert s[|verb| + 1..] == target;
  }

  /** A request line: verb, space, target, space, and the rest of the request. */
  function RequestText(verb: string, target: string, rest: string): string {
    verb + " " + target + " " + rest
  }

  /** Method and target are read back from the request line they were written into. */
  lemma RequestLineRoundTrip(verb: string, target: string, rest: string)
    requires ' ' !in verb && ' ' !in target
    ensures ExtractMethod(RequestText(verb, target, rest)) == verb
    ensures ExtractPath(RequestText(verb, target, rest)) == target
  {
    var s := RequestText(verb, target, rest);
    assert s == verb + [' '] + (target + " " + rest);
    Text.CharIndexAfter(verb, ' ', target + " " + rest);
    assert s[..|verb|] == verb;
    var after := s[|verb| + 1..];
    assert after == target + [' '] + rest;
    Text.CharIndexAfter(target, ' ', rest);
    assert after[..|target|] == target;
  }

  /** extract_body: what follows the first blank line "\r\n\r\n", else the first "\n\n", else "". */
  function ExtractBody(request: string): (r: string)
    ensures r == "" || exists i :: 0 <= i <= |request| && r == request[i..]
    ensures !Seqs.Contains(request, "\r\n\r\n") && !Seqs.Contains(request, "\n\n") ==> r == ""
  {
    match Seqs.IndexOf(request, "\r\n\r\n", 0)
    case Some(i) => request[i + 4..]
    case None =>
      match Seqs.IndexOf(request, "\n\n", 0)
      case Some(i) => request[i + 2..]
      case None => ""
  }

  /** The segment's key and value either side of its first '=', if it has one. */
  function SplitPair(segment: string): Option<(string, string)> {
    match Text.CharIndex(segment, '=')
    case None => None
    case Some(i) => Some((segment[..i], segment[i + 1..]))
  }

  /** The parameters the segments leave behind when they are inserted in order. */
  function ParamsOf(segments: seq<string>): map<string, string>
    decreases |segments|
  {
    if segments == [] then map[]
    else
      var m := ParamsOf(segments[..|segments| - 1]);
      match SplitPair(segments[|segments| - 1])
      case None => m
      case Some((k, v)) => m[k := v]
  }

  /** The '&'-separated segments of the query, if the path has one. */
  function QuerySegments(path: string): seq<string> {
    match Text.CharIndex(path, '?')
    case None => []
    case Some(q) => Text.Split(path[q + 1..], '&')
  }

  function QueryParams(path: string): map<string, string> {
    ParamsOf(QuerySegments(path))
  }

  /** extract_query_params: the getline loop over the query's '&'-separated segments. */
  method ExtractQueryParams(path: string) returns (params: map<string, string>)
    ensures params == QueryParams(path)
  {
    params := map[];
    var segments := QuerySegments(path);
    var i := 0;
    while i < |segments|
      invariant 0 <= i <= |segments|
      invariant params == ParamsOf(segments[..i])
    {
      var pair := segments[i];
      assert segments[..i + 1][..i] == segments[..i];
      var eq := Text.CharIndex(pair, '=');
      if eq.Some? {
        params := params[pair[..eq.value] := pair[eq.value + 1..]];
      }
      i := i + 1;
    }
    assert segments[..i] == segments;
  }

  /** The segment has an '=' and key before it. */
  predicate Names(segment: string, key: string) {
    SplitPair(segment).Some? && SplitPair(segment).value.0 == key
  }

  /** No segment after the i-th names the key. */
  predicate NoneNamedAfter(segments: seq<string>, key: string, i: nat) {
    forall j :: i < j < |segments| ==> !Names(segments[j], key)
  }

  /** A key is present exactly when some segment with an '=' names it. */
  lemma {:induction false} ParamsOfKeys(segments: seq<string>, key: string)
    ensures key in ParamsOf(segments) <==> exists i :: 0 <= i < |segments| && Names(segments[i], key)
    decreases |segments|
  {
    if segments != [] {
      var n := |segments| - 1;
      var init := segments[..n];
      ParamsOfKeys(init, key);
      assert forall i :: 0 <= i < n ==> init[i] == segments[i];
    }
  }

  /** The value of a key is the one of the last segment naming it: later duplicates win. */
  lemma {:induction false} ParamsOfLast(segments: seq<string>, key: string)
    requires key in ParamsOf(segments)
    ensures exists i :: 0 <= i < |segments| && SplitPair(segments[i]) == Some((key, ParamsOf(segments)[key])) && NoneNamedAfter(segments, key, i)
    decreases |segments|
  {
    var n := |segments| - 1;
    var init := segments[..n];
    if Names(segments[n], key) {
      assert SplitPair(segments[n]) == Some((key, ParamsOf(segments)[key]));
    } else {
      var last := SplitPair(segments[n]);
      if last.Some? {
        assert ParamsOf(segments) == ParamsOf(init)[last.value.0 := last.value.1];
      } else {
        assert ParamsOf(segments) == ParamsOf(init);
      }
      assert key in ParamsOf(init) && ParamsOf(init)[key] == ParamsOf(segments)[key];
      ParamsOfLast(init, key);
      var i :| 0 <= i < n && SplitPair(init[i]) == Some((key, ParamsOf(init)[key])) && NoneNamedAfter(init, key, i);
      assert SplitPair(segments[i]) == Some((key, ParamsOf(segments)[key]));
      assert forall j :: i < j < n ==> init[j] == segments[j];
    }
  }

  /** Without a '?' there are no parameters. */
  lemma NoQueryNoParams(path: string)
    requires '?' !in path
    ensures QueryParams(path) == map[]
  {
  }

  /** extract_path_param: what follows the prefix, up to a '?', unless that is empty. */
  function ExtractPathParam(path: string, prefix: string): (r: Option<string>)
    ensures r.Some? ==> prefix + r.value <= path && r.value != "" && '?' !in r.value
    ensures r.Some? ==> |prefix + r.value| == |path| || path[|prefix + r.value|] == '?'
    ensures r.None? <==> !(prefix <= path) || |path| == |prefix| || path[|prefix|] == '?'
  {
    if !(prefix <= path) then None
    else
      var param := path[|prefix|..];
      var cut := match Text.CharIndex(param, '?') case None => param case Some(q) => param[..q];
      assert path == prefix + param;
      if cut == "" then None
      else
        assert param[..|cut|] == cut;
        Some(cut)
  }

  /** An identifier written after the prefix is read back, whatever query follows it. */
  lemma PathParamRoundTrip(prefix: string, id: string, query: string)
    requires id != "" && '?' !in id && (query == "" || query[0] == '?')
    ensures ExtractPathParam(prefix + id + query, prefix) == Some(id)
  {
    var path := prefix + id + query;
    assert path[|prefix|..] == id + query;
    if query != "" {
      assert id + query == id + ['?'] + query[1..];
      Text.CharIndexAfter(id, '?', query[1..]);
      assert (id + query)[..|id|] == id;
    } else {
      assert id + query == id;
    }
  }

  // ---- responses ----------------------------------------------------------

  /** status_code_to_string */
  function StatusText(code: int): (r: string)
    ensures r == "Unknown" <==> code !in {200, 201, 400, 404, 500}
  {
    match code
    case 200 => "OK"
    case 201 => "Created"
    case 400 => "Bad Request"
    case 404 => "Not Found"
    case 500 => "Internal Server Error"
    case _ => "Unknown"
  }

  const AllowOrigin := "Access-Control-Allow-Origin: *"
  const AllowMethods := "Access-Control-Allow-Methods: " + "GET, POST, PUT, DELETE, OPTIONS"
  const AllowHeaders := "Access-Control-Allow-Headers: " + "Content-Type, Authorization"
  const ConnectionClose := "Connection: close"

  /** The header lines of create_response, without their line ends. */
  function HeaderLines(code: int, contentType: string, length: nat): seq<string> {
    ["HTTP/1.1 " + Text.IntToString(code) + " " + StatusText(code),
     "Content-Type: " + contentType,
     "Content-Length: " + Text.NatToString(length),
     AllowOrigin, AllowMethods, AllowHeaders, ConnectionClose]
  }

  /** Each line followed by CRLF. */
  function Lines(lines: seq<string>): string {
    if lines == [] then "" else lines[0] + "\r\n" + Lines(lines[1..])
  }

  /** create_response: the header lines, a blank line, then the body verbatim. */
  function CreateResponse(body: string, code: int, contentType: string): string {
    Lines(HeaderLines(code, contentType, |body|)) + "\r\n" + body
  }

  function CreateJsonResponse(json: string, code: int): string {
    CreateResponse(json, code, "application/json")
  }

  const ErrorLayout := Template.Layout("{\"error\":\"", ["\"}"])
  const ErrorCodeLayout := Template.Layout("{\"error\":\"", ["\",\"code\":\"", "\"}"])

  /** The JSON of create_error_response: a "code" member only for a non-empty error code. */
  function ErrorBody(message: string, errorCode: string): string {
    if errorCode == "" then Template.Render(ErrorLayout, [message])
    else Template.Render(ErrorCodeLayout, [message, errorCode])
  }

  function CreateErrorResponse(message: string, code: int, errorCode: string): string {
    CreateResponse(ErrorBody(message, errorCode), code, "application/json")
  }

  /** With quote-free fields the error JSON with a code reads back as message and code. */
  lemma ErrorCodeReadBack(message: string, errorCode: string)
    requires '"' !in message && '"' !in errorCode && errorCode != ""
    ensures Template.Read(ErrorCodeLayout, ErrorBody(message, errorCode)) == Some([message, errorCode])
  {
    Template.ReadRender(ErrorCodeLayout, [message, errorCode]);
  }

  /** Without a code, the error JSON reads back as the message alone. */
  lemma ErrorOnlyReadBack(message: string)
    requires '"' !in message
    ensures Template.Read(ErrorLayout, ErrorBody(message, "")) == Some([message])
  {
    Template.ReadRender(ErrorLayout, [message]);
  }

  /** Without a code, the error JSON has no "code" member. */
  lemma NoCodeMember(message: string)
    requires '"' !in message
    ensures Template.Read(ErrorCodeLayout, ErrorBody(message, "")).None?
  {
    var head := "{\"error\":\"";
    var s := ErrorBody(message, "");
    assert ErrorLayout.seps[1..] == [];
    assert Template.Fill(ErrorLayout.seps, [message]) == message + "\"}" + "";
    assert s == head + (message + "\"}");
    var t := s[|head|..];
    assert t == message + ['"'] + "}";
    Text.CharIndexAfter(message, '"', "}");
    assert t[|message|..] == "\"}";
  }

  predicate CleanLine(line: string) {
    line != [] && '\r' !in line && '\n' !in line
  }

  /** One character that differs from "\r\n\r\n" rules out an occurrence at p. */
  lemma Mismatch(s: string, p: int, k: int)
    requires 0 <= p && 0 <= k < 4 && p + k < |s| && s[p + k] != "\r\n\r\n"[k]
    ensures !Seqs.OccursAt("\r\n\r\n", s, p)
  {
    if p + 4 <= |s| {
      assert s[p..p + 4][k] == s[p + k];
    }
  }

  /** Between clean lines no blank line can start: the first "\r\n\r\n" is the header end. */
  lemma {:induction false} NoEarlyTerminator(lines: seq<string>, body: string, p: int)
    requires |lines| > 0 && forall k :: 0 <= k < |lines| ==> CleanLine(lines[k])
    requires 0 <= p < |Lines(lines)| - 2
    ensures !Seqs.OccursAt("\r\n\r\n", Lines(lines) + "\r\n" + body, p)
    decreases |lines|
  {
    var l := lines[0];
    var tail := Lines(lines[1..]) + "\r\n" + body;
    var s := Lines(lines) + "\r\n" + body;
    assert s == l + "\r\n" + tail;
    if p < |l| {
      assert s[p] == l[p];
      assert l[p] in l;
      Mismatch(s, p, 0);
    } else if p == |l| {
      assert lines[1..] != [];
      var next := lines[1];
      assert lines[1..][0] == next;
      assert Lines(lines[1..]) == next + "\r\n" + Lines(lines[2..]);
      assert CleanLine(next);
      assert s[p + 2] == next[0];
      assert next[0] in next;
      Mismatch(s, p, 2);
    } else if p == |l| + 1 {
      assert s[p] == '\n';
      Mismatch(s, p, 0);
    } else {
      var q := p - |l| - 2;
      assert p + 4 <= |s| ==> s[p..p + 4] == tail[q..q + 4];
      assert lines[1..] != [];
      assert forall k :: 0 <= k < |lines[1..]| ==> lines[1..][k] == lines[k + 1];
      NoEarlyTerminator(lines[1..], body, q);
    }
  }

  lemma {:induction false} LinesEnd(lines: seq<string>)
    requires |lines| > 0
    ensures |Lines(lines)| >= 2 && Lines(lines)[|Lines(lines)| - 2..] == "\r\n"
    decreases |lines|
  {
    if |lines| > 1 {
      LinesEnd(lines[1..]);
    }
  }

  /** The blank line after clean header lines is where the last line's CRLF ends. */
  lemma TerminatorAt(lines: seq<string>, body: string)
    requires |lines| > 0 && forall k :: 0 <= k < |lines| ==> CleanLine(lines[k])
    ensures |Lines(lines)| >= 2
    ensures Seqs.IndexOf(Lines(lines) + "\r\n" + body, "\r\n\r\n", 0) == Some(|Lines(lines)| - 2)
  {
    var h := Lines(lines);
    var s := h + "\r\n" + body;
    LinesEnd(lines);
    var q := |h| - 2;
    assert s[q..q + 4] == h[q..] + "\r\n";
    forall p | 0 <= p < q
      ensures !Seqs.OccursAt("\r\n\r\n", s, p)
    {
      NoEarlyTerminator(lines, body, p);
    }
    Seqs.IndexOfFirst(s, "\r\n\r\n", q);
  }

  /** The body is what follows the header's blank line. */
  lemma FirstTerminator(lines: seq<string>, body: string)
    requires |lines| > 0 && forall k :: 0 <= k < |lines| ==> CleanLine(lines[k])
    ensures ExtractBody(Lines(lines) + "\r\n" + body) == body
  {
    TerminatorAt(lines, body);
    var s := Lines(lines) + "\r\n" + body;
    assert s[|Lines(lines)| + 2..] == body;
  }

  /**
   * A request whose header ends with a bare "\n\n" (no carriage returns before it, and
   * no earlier blank line) and whose body holds no "\r\n\r\n" gives back that body.
   */
  lemma LfBlankLine(head: string, body: string)
    requires '\r' !in head && !Seqs.Contains(head + "\n", "\n\n")
    requires !Seqs.Contains(body, "\r\n\r\n")
    ensures ExtractBody(head + "\n\n" + body) == body
  {
    var s := head + "\n\n" + body;
    var n := |head| + 2;
    forall p | 0 <= p && p + 4 <= |s|
      ensures !Seqs.OccursAt("\r\n\r\n", s, p)
    {
      if p < |head| {
        assert s[p] == head[p];
        assert head[p] in head;
        Mismatch(s, p, 0);
      } else if p < n {
        assert s[p] == '\n';
        Mismatch(s, p, 0);
      } else {
        assert s[p..p + 4] == body[p - n..p - n + 4];
        Seqs.ContainsIff(body, "\r\n\r\n");
        assert !Seqs.OccursAt("\r\n\r\n", body, p - n);
      }
    }
    assert Seqs.IndexOf(s, "\r\n\r\n", 0).None?;
    forall p | 0 <= p < |head|
      ensures !Seqs.OccursAt("\n\n", s, p)
    {
      assert s[p..p + 2] == (head + "\n")[p..p + 2];
      Seqs.ContainsIff(head + "\n", "\n\n");
      assert !Seqs.OccursAt("\n\n", head + "\n", p);
    }
    assert s[|head|..|head| + 2] == "\n\n";
    Seqs.IndexOfFirst(s, "\n\n", |head|);
    assert s[n..] == body;
  }

  /** The examples "GET /x", whose path is "/", and "POST /a\n\nxy", whose body is "xy". */
  lemma ExtractionFallbacks()
    ensures ExtractPath("GET /x") == "/"
    ensures ExtractBody("POST /a\n\nxy") == "xy"
  {
    OneSpacePath("GET", "/x");
    assert "GET /x" == "GET" + " " + "/x";
    var h := "POST /a\n";
    forall p | 0 <= p < 7
      ensures !Seqs.OccursAt("\n\n", h, p)
    {
      assert h[p] != '\n';
      assert p + 2 <= |h| ==> h[p..p + 2][0] == h[p];
    }
    assert Seqs.IndexOf(h, "\n\n", 0).None?;
    assert "POST /a" + "\n" == h;
    assert Seqs.IndexOf("xy", "\r\n\r\n", 0).None?;
    LfBlankLine("POST /a", "xy");
    assert "POST /a\n\nxy" == "POST /a" + "\n\n" + "xy";
  }

  predicate NoBreak(s: string) {
    '\r' !in s && '\n' !in s
  }

  lemma RenderedNoBreak(i: int)
    ensures NoBreak(Text.IntToString(i))
  {
    Text.IntToStringChars(i);
  }

  lemma OriginLineClean()
    ensures CleanLine(AllowOrigin) && CleanLine(ConnectionClose)
  {
  }

  lemma MethodsLineClean()
    ensures CleanLine(AllowMethods)
  {
  }

  lemma HeadersLineClean()
    ensures CleanLine(AllowHeaders)
  {
  }

  lemma StatusLineClean(code: int)
    ensures CleanLine("HTTP/1.1 " + Text.IntToString(code) + " " + StatusText(code))
  {
    RenderedNoBreak(code);
    var status := StatusText(code);
    assert NoBreak(status);
  }

  lemma LengthLineClean(length: nat)
    ensures CleanLine("Content-Length: " + Text.NatToString(length))
  {
    RenderedNoBreak(length);
    assert Text.IntToString(length) == Text.NatToString(length);
  }

  /** Every header line of create_response is clean when the content type is. */
  lemma HeaderLinesClean(code: int, contentType: string, length: nat)
    requires NoBreak(contentType)
    ensures forall k :: 0 <= k < |HeaderLines(code, contentType, length)| ==> CleanLine(HeaderLines(code, contentType, length)[k])
  {
    StatusLineClean(code);
    LengthLineClean(length);
    OriginLineClean();
    MethodsLineClean();
    HeadersLineClean();
    assert CleanLine("Content-Type: " + contentType);
  }

  /** A three-digit status code is rendered as its three digits. */
  lemma ThreeDigits(code: int)
    requires 100 <= code < 1000
    ensures Text.IntToString(code) == [Text.DigitChar(code / 100), Text.DigitChar(code / 10 % 10), Text.DigitChar(code % 10)]
  {
    assert Text.NatToString(code / 10) == Text.NatToString(code / 10 / 10) + [Text.DigitChar(code / 10 % 10)];
    assert code / 10 / 10 == code / 100;
  }

  function StatusLine(code: int): string {
    "HTTP/1.1 " + Text.IntToString(code) + " " + StatusText(code) + "\r\n"
  }

  /**
   * A response's body is recovered verbatim by extract_body, its Content-Length header
   * reads back as the body's length, and its status line carries the code and reason.
   */
  lemma ResponseRoundTrip(body: string, code: int, contentType: string)
    requires NoBreak(contentType)
    ensures ExtractBody(CreateResponse(body, code, contentType)) == body
    ensures var lengthLine := HeaderLines(code, contentType, |body|)[2];
      |lengthLine| > 16 && Text.AllDigits(lengthLine[16..]) && Text.DigitsValue(lengthLine[16..]) == |body|
    ensures StatusLine(code) <= CreateResponse(body, code, contentType)
  {
    var lines := HeaderLines(code, contentType, |body|);
    HeaderLinesClean(code, contentType, |body|);
    FirstTerminator(lines, body);
    Text.NatToStringValue(|body|);
    assert lines[2][16..] == Text.NatToString(|body|);
    assert CreateResponse(body, code, contentType) == StatusLine(code) + Lines(lines[1..]) + "\r\n" + body;
  }

  // ---- routing ------------------------------------------------------------

  /** The handler route selects. */
  datatype Endpoint =
    | Health
    | Metrics
    | OpenApi
    | Shops
    | ShopById(shopId: string)
    | Users
    | PostUser
    | UserById(userId: string)
    | NotFound

  /** The path with its query removed. */
  function PathOnly(fullPath: string): (r: string)
    ensures r <= fullPath && '?' !in r
  {
    match Text.CharIndex(fullPath, '?')
    case None => fullPath
    case Some(q) => fullPath[..q]
  }

  /** The if-chain of route on the method and the query-free path. */
  function Dispatch(verb: string, path: string): Endpoint {
    if (path == "/health" || path == "/api/health") && verb == "GET" then Health
    else if (path == "/metrics" || path == "/api/metrics") && verb == "GET" then Metrics
    else if path == "/api/openapi.yaml" && verb == "GET" then OpenApi
    else if path == "/api/shops" && verb == "GET" then Shops
    else if Text.StartsWith(path, "/api/shops/") && verb == "GET" then
      match ExtractPathParam(path, "/api/shops/")
      case Some(id) => ShopById(id)
      case None => NotFound
    else if path == "/api/users" && verb == "GET" then Users
    else if path == "/api/users" && verb == "POST" then PostUser
    else if Text.StartsWith(path, "/api/users/") && verb == "GET" then
      match ExtractPathParam(path, "/api/users/")
      case Some(id) => UserById(id)
      case None => NotFound
    else NotFound
  }

  const HealthJson := "{\"status\":\"OK\",\"message\":\"Spice Curry C++26 API Server with stdexec\",\"timestamp\":\"2024-01-01T00:00:00Z\"}"
  const MetricsJson := "{\"api\":\"C++26\",\"stdexec\":\"active\",\"async\":\"sender-receiver\",\"architecture\":\"clean\"}"
  const NewUserJson := "{\"id\":\"new-user\",\"username\":\"testuser\",\"email\":\"test@example.com\",\"createdAt\":\"2024-01-01T00:00:00Z\"}"
  const OpenApiText := "openapi: 3.0.3\ninfo:\n  title: Spice Curry Nara API\n  version: 1.0.0"

  /** handle_get_shops: the query parameters are not used yet; the stored JSON is returned. */
  function HandleGetShops(shopsJson: string, params: map<string, string>): string {
    CreateJsonResponse(shopsJson, 200)
  }

  /** `"id":"<id>"` */
  function IdMarker(id: string): string {
    "\"id\":\"" + id + "\""
  }

  /** handle_get_shop_by_id: the whole stored JSON when it mentions the id, else 404. */
  function HandleGetShopById(shopsJson: string, shopId: string): string {
    if Seqs.Contains(shopsJson, IdMarker(shopId)) then CreateJsonResponse(shopsJson, 200)
    else CreateErrorResponse("Shop not found", 404, "NOT_FOUND")
  }

  function HandleGetUserById(usersJson: string, userId: string): string {
    if Seqs.Contains(usersJson, IdMarker(userId)) then CreateJsonResponse(usersJson, 200)
    else CreateErrorResponse("User not found", 404, "NOT_FOUND")
  }

  /** handle_post_user ignores the body and answers with a fixed record. */
  function HandlePostUser(body: string): string {
    CreateJsonResponse(NewUserJson, 201)
  }

  function Handle(endpoint: Endpoint, request: string, query: map<string, string>,
                  shopsJson: string, usersJson: string): string {
    match endpoint
    case Health => CreateJsonResponse(HealthJson, 200)
    case Metrics => CreateJsonResponse(MetricsJson, 200)
    case OpenApi => CreateResponse(OpenApiText, 200, "text/yaml")
    case Shops => HandleGetShops(shopsJson, query)
    case ShopById(id) => HandleGetShopById(shopsJson, id)
    case Users => CreateJsonResponse(usersJson, 200)
    case PostUser => HandlePostUser(ExtractBody(request))
    case UserById(id) => HandleGetUserById(usersJson, id)
    case NotFound => CreateErrorResponse("Endpoint not found", 404, "NOT_FOUND")
  }

  /** route, over the JSON texts the router was constructed with. */
  function Route(request: string, shopsJson: string, usersJson: string): string {
    var fullPath := ExtractPath(request);
    var verb := ExtractMethod(request);
    Handle(Dispatch(verb, PathOnly(fullPath)), request, QueryParams(fullPath), shopsJson, usersJson)
  }

  /** The endpoint route serves for a request line, with the query stripped. */
  lemma RouteRequestLine(verb: string, path: string, query: string, rest: string, shopsJson: string, usersJson: string)
    requires ' ' !in verb && ' ' !in path && ' ' !in query && '?' !in path
    requires query == "" || query[0] == '?'
    ensures Route(RequestText(verb, path + query, rest), shopsJson, usersJson) ==
      Handle(Dispatch(verb, path), RequestText(verb, path + query, rest), QueryParams(path + query), shopsJson, usersJson)
  {
    assert ' ' !in path + query;
    RequestLineRoundTrip(verb, path + query, rest);
    if query != "" {
      assert path + query == path + ['?'] + query[1..];
      Text.CharIndexAfter(path, '?', query[1..]);
      assert (path + query)[..|path|] == path;
    } else {
      assert path + query == path;
    }
  }

  /**
   * The aliases of /health and /metrics are equivalent; only GET and, for /api/users,
   * POST are served; a shop or user path with an empty id is not found.
   */
  lemma DispatchSpec(verb: string, path: string)
    ensures Dispatch(verb, "/health") == Dispatch(verb, "/api/health")
    ensures Dispatch(verb, "/metrics") == Dispatch(verb, "/api/metrics")
    ensures Dispatch(verb, path) != NotFound ==> verb == "GET" || (verb == "POST" && path == "/api/users")
    ensures Dispatch(verb, "/api/shops/") == NotFound && Dispatch(verb, "/api/users/") == NotFound
  {
  }

  /** A non-empty id after /api/shops/ or /api/users/ selects that record's handler. */
  lemma DispatchById(id: string)
    requires id != "" && '?' !in id
    ensures Dispatch("GET", "/api/shops/" + id) == ShopById(id)
    ensures Dispatch("GET", "/api/users/" + id) == UserById(id)
  {
    PathParamRoundTrip("/api/shops/", id, "");
    PathParamRoundTrip("/api/users/", id, "");
    assert "/api/shops/" + id + "" == "/api/shops/" + id;
    assert "/api/users/" + id + "" == "/api/users/" + id;
    var p := "/api/shops/" + id;
    assert p[..11] == "/api/shops/" && p[5] == 's';
    assert p != "/health" && p != "/api/health" && p != "/metrics" && p != "/api/metrics";
    assert p != "/api/openapi.yaml" && p != "/api/shops";
    var u := "/api/users/" + id;
    assert u[..11] == "/api/users/" && u[5] == 'u';
    assert u != "/health" && u != "/api/health" && u != "/metrics" && u != "/api/metrics";
    assert u != "/api/openapi.yaml" && u != "/api/shops" && u != "/api/users";
    assert !Text.StartsWith(u, "/api/shops/") by {
      assert u[5] != "/api/shops/"[5];
    }
  }

  /**
   * get-by-id answers with the whole stored JSON, status 200, when it mentions the id,
   * and otherwise with the 404 error body.
   */
  lemma HandleGetShopByIdSpec(shopsJson: string, shopId: string)
    ensures var response := HandleGetShopById(shopsJson, shopId);
      if Seqs.Contains(shopsJson, IdMarker(shopId)) then
        ExtractBody(response) == shopsJson && StatusLine(200) <= response
      else
        ExtractBody(response) == ErrorBody("Shop not found", "NOT_FOUND") && StatusLine(404) <= response
  {
    if Seqs.Contains(shopsJson, IdMarker(shopId)) {
      ResponseRoundTrip(shopsJson, 200, "application/json");
    } else {
      ResponseRoundTrip(ErrorBody("Shop not found", "NOT_FOUND"), 404, "application/json");
    }
  }

  /** The status lines of the codes the router sends. */
  lemma StatusLines()
    ensures StatusLine(200) == "HTTP/1.1 200 OK\r\n"
    ensures StatusLine(201) == "HTTP/1.1 201 Created\r\n"
    ensures StatusLine(404) == "HTTP/1.1 404 Not Found\r\n"
  {
    ThreeDigits(200);
    ThreeDigits(201);
    ThreeDigits(404);
  }

  lemma HandleGetUserByIdSpec(usersJson: string, userId: string)
    ensures var response := HandleGetUserById(usersJson, userId);
      if Seqs.Contains(usersJson, IdMarker(userId)) then
        ExtractBody(response) == usersJson && StatusLine(200) <= response
      else
        ExtractBody(response) == ErrorBody("User not found", "NOT_FOUND") && StatusLine(404) <= response
  {
    if Seqs.Contains(usersJson, IdMarker(userId)) {
      ResponseRoundTrip(usersJson, 200, "application/json");
    } else {
      ResponseRoundTrip(ErrorBody("User not found", "NOT_FOUND"), 404, "application/json");
    }
  }

  /** "GET /api/shops/<id>?<query> ..." is answered by the shop lookup for that id. */
  lemma RouteShopById(id: string, query: string, rest: string, shopsJson: string, usersJson: string)
    requires id != "" && '?' !in id && ' ' !in id && ' ' !in query
    requires query == "" || query[0] == '?'
    ensures Route(RequestText("GET", "/api/shops/" + id + query, rest), shopsJson, usersJson) == HandleGetShopById(shopsJson, id)
  {
    var path := "/api/shops/" + id;
    assert ' ' !in path && '?' !in path;
    assert path + query == "/api/shops/" + id + query;
    RouteRequestLine("GET", path, query, rest, shopsJson, usersJson);
    DispatchById(id);
  }

  /** Whatever the request, an unmatched one is answered 404 with the NOT_FOUND error body. */
  lemma RouteNotFound(request: string, shopsJson: string, usersJson: string)
    requires Dispatch(ExtractMethod(request), PathOnly(ExtractPath(request))) == NotFound
    ensures var response := Route(request, shopsJson, usersJson);
      ExtractBody(response) == ErrorBody("Endpoint not found", "NOT_FOUND") && StatusLine(404) <= response
  {
    ResponseRoundTrip(ErrorBody("Endpoint not found", "NOT_FOUND"), 404, "application/json");
  }
}
