/** nginx access-log lines: parsing, normalizing, and the round trip through the "combined" format. */
module AccessLog {
  import opened Common
  import opened Text

  /** The value of a raw log field. */
  datatype Field = Words(text: string) | Number(n: int) | Many(items: seq<string>)

  type FieldMap = map<string, Field>

  /** A line either yields fields, or fits no format, or makes the source slice past its end. */
  datatype Parsed = Found(fields: FieldMap) | NoMatch | OutOfRange

  /** The request and status part of a normalized event. */
  datatype Request = Request(
    srcIP: string, httpMethod: string, path: string, proto: string, status: int, size: int, userAgent: string, referer: string,
    user: string, message: string)

  // ---- specification ----

  predicate IsUpper(s: string) {
    s != [] && forall c | c in s :: 'A' <= c <= 'Z'
  }

  /** Method, path and protocol of a request line; all empty unless it starts with a method. */
  function RequestLine(req: string): (string, string, string) {
    var parts := Fields(Trim(req));
    if |parts| >= 2 && |parts[0]| <= 8 && IsUpper(parts[0])
    then (parts[0], parts[1], if |parts| >= 3 then parts[2] else "")
    else ("", "", "")
  }

  /** A quoted token after blanks, and what follows it. */
  function Quoted(s: string): Option<(string, string)> {
    var t := TrimBlanks(s);
    if t == [] || t[0] != '"' then None
    else
      match Index(t[1..], '"')
      case None => None
      case Some(end) => Some((t[1..1 + end], t[1 + end + 1..]))
  }

  function FieldsOf(ip: string, request: string, status: string, referer: string, userAgent: string): FieldMap {
    var base := map["ip" := Words(ip), "request" := Words(request), "status" := Words(status),
                    "referer" := Words(referer), "user_agent" := Words(userAgent)];
    var (m, p, proto) := RequestLine(request);
    if m == "" then base
    else
      var more := base["method" := Words(m)]["path" := Words(p)];
      if proto != "" then more["proto" := Words(proto)] else more
  }

  /** Everything after the time stamp: request, status, referer, user agent. */
  function ParseTail(ip: string, tail: string): Parsed {
    match Quoted(tail)
    case None => NoMatch
    case Some((request, afterRequest)) =>
      if Fields(afterRequest) == [] then OutOfRange
      else
        var status := Fields(afterRequest)[0];
        var rest := match Index(afterRequest, '"') case Some(i) => afterRequest[i..] case None => afterRequest;
        match Quoted(rest)
        case None => NoMatch
        case Some((referer, afterReferer)) =>
          match Quoted(afterReferer)
          case None => NoMatch
          case Some((userAgent, _)) => Found(FieldsOf(ip, request, status, referer, userAgent))
  }

  /** What is left of a line after a part has been passed over, if the part is there and a rest follows. */
  datatype Cut = Missing | Beyond | Rest(text: string)

  /** Passes over the user and the time stamp in brackets. */
  function AfterStamp(user: string): Cut {
    match Index(user, '[')
    case None => Missing
    case Some(i) =>
      match Index(user[i..], ']')
      case None => Missing
      case Some(j) => if j + 2 > |user[i..]| then Beyond else Rest(user[i..][j + 2..])
  }

  /** From the user on. */
  function ParseUser(ip: string, user: string): Parsed {
    match AfterStamp(user)
    case Missing => NoMatch
    case Beyond => OutOfRange
    case Rest(tail) => ParseTail(ip, tail)
  }

  function Address(line: string): (ip: string)
    ensures |ip| <= |line|
  {
    match Index(line, ' ') case Some(i) => line[..i] case None => line
  }

  /** Passes over the address and the dash. */
  function AfterDash(line: string): Cut {
    var ip := Address(line);
    if ip == "" || |ip| > 45 || '"' !in line then Missing
    else if |ip| + 1 > |line| then Beyond
    else
      var rest := line[|ip| + 1..];
      if !("- " <= rest) then Missing else Rest(rest[2..])
  }

  function ParseNginx(line: string): Parsed {
    match AfterDash(line)
    case Missing => NoMatch
    case Beyond => OutOfRange
    case Rest(user) => ParseUser(Address(line), user)
  }

  /** `ssh` stands for the parser of sshd lines, tried when the line is not an access-log line. */
  function ParseLine(line: string, ssh: string -> Parsed): Parsed {
    var t := Trim(line);
    if t == "" then NoMatch
    else
      match ParseNginx(t)
      case NoMatch => ssh(t)
      case found => found
  }

  function FirstText(f: FieldMap, keys: seq<string>): string {
    if keys == [] then ""
    else if keys[0] in f && f[keys[0]].Words? then Trim(f[keys[0]].text)
    else FirstText(f, keys[1..])
  }

  function FirstNumber(f: FieldMap, keys: seq<string>): int {
    if keys == [] then 0
    else
      var here := if keys[0] !in f then None
                  else match f[keys[0]] case Number(n) => Some(n) case Words(t) => ParseInt(Trim(t)) case Many(_) => None;
      if here.Some? then here.value else FirstNumber(f, keys[1..])
  }

  function Normalize(f: FieldMap): Request {
    var (m, p, proto) := RequestLine(FirstText(f, ["request", "request_line", "req"]));
    var httpMethod := if m != "" then m else FirstText(f, ["method", "verb"]);
    var path := if m != "" then p else FirstText(f, ["path", "uri", "endpoint", "url"]);
    var status := FirstNumber(f, ["status", "status_code", "response", "code"]);
    Request(FirstText(f, ["ip", "src_ip", "client_ip", "remote_addr", "host"]),
            httpMethod, if path == "" then "/" else path, proto,
            if status == 0 then FirstNumber(f, ["sc_status"]) else status,
            FirstNumber(f, ["size", "bytes", "body_bytes_sent"]),
            FirstText(f, ["user_agent", "ua", "agent"]), FirstText(f, ["referer", "referrer"]),
            FirstText(f, ["user", "username", "account"]), FirstText(f, ["message", "msg"]))
  }

  // ---- the parser, consuming the line step by step ----

  method AllUpper(s: string) returns (r: bool)
    ensures r == IsUpper(s)
  {
    for i := 0 to |s|
      invariant forall j | 0 <= j < i :: 'A' <= s[j] <= 'Z'
    {
      if s[i] < 'A' || s[i] > 'Z' {
        assert s[i] in s;
        return false;
      }
    }
    return |s| > 0;
  }

  method ParseRequestLine(req: string) returns (httpMethod: string, path: string, proto: string)
    ensures (httpMethod, path, proto) == RequestLine(req)
  {
    httpMethod, path, proto := "", "", "";
    var line := Trim(req);
    if line == "" {
      assert Fields("") == [];
      return;
    }
    var parts := Fields(line);
    if |parts| >= 2 && |parts[0]| <= 8 {
      var upper := AllUpper(parts[0]);
      if upper {
        httpMethod, path := parts[0], parts[1];
        if |parts| >= 3 {
          proto := parts[2];
        }
      }
    }
  }

  method QuotedToken(s: string) returns (ok: bool, token: string, rest: string)
    ensures match Quoted(s)
            case Some((t, r)) => ok && token == t && rest == r
            case None => !ok && rest == s
  {
    token, rest := "", s;
    var t := TrimBlanks(s);
    if |t| == 0 || t[0] != '"' {
      return false, token, rest;
    }
    var end := Index(t[1..], '"');
    if end.None? {
      return false, token, rest;
    }
    return true, t[1..1 + end.value], t[1 + end.value + 1..];
  }

  method ParseNginxCombined(line: string) returns (r: Parsed)
    ensures r == ParseNginx(line)
  {
    var ip, cut := SkipDash(line);
    match cut {
      case Missing => return NoMatch;
      case Beyond => return OutOfRange;
      case Rest(user) => r := ParseFromUser(ip, user);
    }
  }

  method SkipDash(line: string) returns (ip: string, cut: Cut)
    ensures ip == Address(line) && cut == AfterDash(line)
  {
    var rest := line;
    var space := Index(rest, ' ');
    ip := if space.Some? then rest[..space.value] else rest;
    if ip == "" || |ip| > 45 || '"' !in rest {
      return ip, Missing;
    }
    if |ip| + 1 > |rest| {
      return ip, Beyond;
    }
    rest := rest[|ip| + 1..];
    if !("- " <= rest) {
      return ip, Missing;
    }
    rest := rest[2..];
    return ip, Rest(rest);
  }

  method ParseFromUser(ip: string, user: string) returns (r: Parsed)
    ensures r == ParseUser(ip, user)
  {
    var cut := SkipStamp(user);
    match cut {
      case Missing => return NoMatch;
      case Beyond => return OutOfRange;
      case Rest(tail) => r := ParseQuotedPart(ip, tail);
    }
  }

  method SkipStamp(user: string) returns (cut: Cut)
    ensures cut == AfterStamp(user)
  {
    var rest := user;
    var open := Index(rest, '[');
    if open.None? {
      return Missing;
    }
    rest := rest[open.value..];
    var close := Index(rest, ']');
    if close.None? {
      return Missing;
    }
    if close.value + 2 > |rest| {
      return Beyond;
    }
    rest := rest[close.value + 2..];
    return Rest(rest);
  }

  method ParseQuotedPart(ip: string, tail: string) returns (r: Parsed)
    ensures r == ParseTail(ip, tail)
  {
    var ok, request, rest := QuotedToken(tail);
    if !ok {
      return NoMatch;
    }
    var words := Fields(rest);
    if |words| == 0 {
      return OutOfRange;
    }
    var quote := Index(rest, '"');
    if quote.Some? {
      rest := rest[quote.value..];
    }
    var referer, userAgent;
    ok, referer, rest := QuotedToken(rest);
    if !ok {
      return NoMatch;
    }
    ok, userAgent, rest := QuotedToken(rest);
    if !ok {
      return NoMatch;
    }
    var m, p, proto := ParseRequestLine(request);
    var f := map["ip" := Words(ip), "request" := Words(request), "status" := Words(words[0]),
                 "referer" := Words(referer), "user_agent" := Words(userAgent)];
    if m != "" {
      f := f["method" := Words(m)]["path" := Words(p)];
      if proto != "" {
        f := f["proto" := Words(proto)];
      }
    }
    return Found(f);
  }

  // ---- the combined format ----

  /** What one line of the format records. */
  datatype Entry = Entry(
    ip: string, user: string, time: string, httpMethod: string, path: string, proto: string,
    status: nat, bytes: nat, referer: string, userAgent: string)

  /** The line nginx writes: address, user, time, request, status, size, referer, user agent. */
  function Render(e: Entry): string {
    e.ip + " - " + e.user + " [" + e.time + "] " + RenderTail(e)
  }

  function RequestText(e: Entry): string { e.httpMethod + " " + e.path + " " + e.proto }

  function InQuotes(s: string): string { "\"" + s + "\"" }

  function RenderTail(e: Entry): string {
    InQuotes(RequestText(e)) + RenderRest(e)
  }

  function RenderRest(e: Entry): string {
    " " + Decimal(e.status) + " " + Decimal(e.bytes) + " " + InQuotes(e.referer) + " " + InQuotes(e.userAgent)
  }

  predicate WordOf(s: string) { s != [] && NoSpace(s) && '"' !in s }

  /** What the format guarantees of its parts. */
  predicate WellFormed(e: Entry) {
    && e.ip != [] && |e.ip| <= 45 && NoSpace(e.ip)
    && '[' !in e.user && ']' !in e.time
    && IsUpper(e.httpMethod) && |e.httpMethod| <= 8 && WordOf(e.path) && WordOf(e.proto)
    && e.status <= MAX_INT64 && '"' !in e.referer && '"' !in e.userAgent
  }

  // ---- the round trip ----

  lemma QuotedReads(x: string, rest: string)
    requires '"' !in x
    ensures Quoted(InQuotes(x) + rest) == Some((x, rest))
    ensures Quoted(" " + InQuotes(x) + rest) == Some((x, rest))
  {
    var s := InQuotes(x) + rest;
    assert s[0] == '"' && s[1..] == x + ['"'] + rest;
    IndexAfter(x, '"', rest);
    assert (x + ['"'] + rest)[..|x|] == x && s[1..1 + |x|] == x && s[1 + |x| + 1..] == rest;
    assert " " + InQuotes(x) + rest == [' '] + s && ([' '] + s)[1..] == s;
  }

  lemma UpperIsWord(s: string)
    requires IsUpper(s)
    ensures NoSpace(s) && '"' !in s && s != []
  {
  }

  /** A well-formed request line gives back its three parts. */
  lemma RequestLineReads(e: Entry)
    requires WellFormed(e)
    ensures RequestLine(RequestText(e)) == (e.httpMethod, e.path, e.proto)
    ensures Trim(RequestText(e)) == RequestText(e) && '"' !in RequestText(e)
  {
    UpperIsWord(e.httpMethod);
    var req := RequestText(e);
    var tail := e.path + [' '] + e.proto;
    assert req == e.httpMethod + [' '] + tail;
    assert req[0] == e.httpMethod[0] && req[|req| - 1] == e.proto[|e.proto| - 1];
    assert e.httpMethod[0] in e.httpMethod && e.proto[|e.proto| - 1] in e.proto;
    TrimmedStays(req);
    ThreeWords(e.httpMethod, e.path, e.proto);
  }

  lemma ThreeWords(a: string, b: string, c: string)
    requires a != [] && NoSpace(a) && b != [] && NoSpace(b) && c != [] && NoSpace(c)
    ensures Fields(a + [' '] + (b + [' '] + c)) == [a, b, c]
  {
    FieldsStep(a, b + [' '] + c);
    FieldsBlank(b + [' '] + c);
    FieldsStep(b, c);
    FieldsBlank(c);
    FieldsStep(c, "");
    assert [a] + ([b] + [c]) == [a, b, c];
  }

  lemma DigitsAreWords(n: nat)
    ensures Decimal(n) != [] && NoSpace(Decimal(n)) && '"' !in Decimal(n)
  {
    DecimalIsValue(n);
  }

  function AfterStatus(e: Entry): string {
    Decimal(e.bytes) + " " + (InQuotes(e.referer) + (" " + InQuotes(e.userAgent)))
  }

  /** The first word after the request is the status. */
  lemma StatusReads(e: Entry)
    ensures Fields(RenderRest(e)) != [] && Fields(RenderRest(e))[0] == Decimal(e.status)
  {
    DigitsAreWords(e.status);
    var after := Decimal(e.status) + [' '] + AfterStatus(e);
    assert RenderRest(e) == [' '] + after;
    FieldsBlank(after);
    FieldsStep(Decimal(e.status), AfterStatus(e));
  }

  function Lead(e: Entry): string { " " + Decimal(e.status) + " " + Decimal(e.bytes) + " " }

  lemma LeadHasNoQuote(e: Entry)
    ensures '"' !in Lead(e)
  {
    DigitsAreWords(e.status);
    DigitsAreWords(e.bytes);
  }

  /** The first quote after the request opens the referer. */
  lemma QuoteReads(e: Entry)
    ensures var i := Index(RenderRest(e), '"');
            i.Some? && RenderRest(e)[i.value..] == InQuotes(e.referer) + (" " + InQuotes(e.userAgent))
  {
    var quoted := InQuotes(e.referer) + (" " + InQuotes(e.userAgent));
    LeadHasNoQuote(e);
    assert quoted == ['"'] + quoted[1..];
    assert RenderRest(e) == Lead(e) + quoted;
    assert Lead(e) + quoted == Lead(e) + ['"'] + quoted[1..];
    IndexAfter(Lead(e), '"', quoted[1..]);
  }

  lemma TailReads(e: Entry)
    requires WellFormed(e)
    ensures ParseTail(e.ip, RenderTail(e))
            == Found(FieldsOf(e.ip, RequestText(e), Decimal(e.status), e.referer, e.userAgent))
  {
    RequestLineReads(e);
    QuotedReads(RequestText(e), RenderRest(e));
    StatusReads(e);
    QuoteReads(e);
    QuotedReads(e.referer, " " + InQuotes(e.userAgent));
    QuotedReads(e.userAgent, "");
    assert " " + InQuotes(e.userAgent) + "" == " " + InQuotes(e.userAgent);
  }

  function AfterUser(e: Entry): string { "[" + e.time + "] " + RenderTail(e) }

  function AfterAddress(e: Entry): string { "- " + (e.user + " " + AfterUser(e)) }

  lemma StampReads(e: Entry)
    requires WellFormed(e)
    ensures Index(AfterUser(e), ']') == Some(|e.time| + 1)
    ensures |e.time| + 3 <= |AfterUser(e)| && AfterUser(e)[|e.time| + 3..] == RenderTail(e)
  {
    var tail := RenderTail(e);
    assert AfterUser(e) == ("[" + e.time) + [']'] + (" " + tail);
    IndexAfter("[" + e.time, ']', " " + tail);
  }

  lemma UserReads(e: Entry)
    requires WellFormed(e)
    ensures AfterStamp(AfterAddress(e)[2..]) == Rest(RenderTail(e))
  {
    var rest := AfterAddress(e)[2..];
    assert rest == (e.user + " ") + ['['] + AfterUser(e)[1..];
    IndexAfter(e.user + " ", '[', AfterUser(e)[1..]);
    assert rest[|e.user| + 1..] == AfterUser(e);
    StampReads(e);
  }

  lemma DashReads(e: Entry)
    requires WellFormed(e)
    ensures AfterDash(Render(e)) == Rest(AfterAddress(e)[2..]) && Address(Render(e)) == e.ip
  {
    AddressReads(e);
    LineIsTrimmed(e);
  }

  lemma AddressReads(e: Entry)
    requires WellFormed(e)
    ensures Render(e) == e.ip + [' '] + AfterAddress(e)
    ensures Address(Render(e)) == e.ip && Render(e)[|e.ip| + 1..] == AfterAddress(e)
  {
    var line := Render(e);
    assert line == e.ip + [' '] + AfterAddress(e);
    assert IsSpace(' ');
    IndexAfter(e.ip, ' ', AfterAddress(e));
  }

  lemma LineIsTrimmed(e: Entry)
    requires WellFormed(e)
    ensures Trim(Render(e)) == Render(e) && Render(e) != "" && '"' in Render(e)
  {
    var line := Render(e);
    assert line[0] == e.ip[0] && e.ip[0] in e.ip;
    assert line[|line| - 1] == '"' && line[|line| - 1] in line;
    TrimmedStays(line);
  }

  /** Everything before the request is passed over. */
  lemma LineReads(e: Entry)
    requires WellFormed(e)
    ensures ParseNginx(Render(e)) == ParseTail(e.ip, RenderTail(e))
    ensures Trim(Render(e)) == Render(e) && Render(e) != ""
  {
    DashReads(e);
    LineIsTrimmed(e);
    UserReads(e);
  }

  lemma TextAt(f: FieldMap, key: string, others: seq<string>, value: string)
    requires key in f && f[key] == Words(value)
    ensures FirstText(f, [key] + others) == Trim(value)
  {
  }

  lemma NumberAt(f: FieldMap, key: string, others: seq<string>, value: string, n: int)
    requires key in f && f[key] == Words(value) && ParseInt(Trim(value)) == Some(n)
    ensures FirstNumber(f, [key] + others) == n
  {
  }

  /** Normalizing what a well-formed line parsed to. */
  lemma NormalizeReads(e: Entry)
    requires WellFormed(e)
    ensures var f := FieldsOf(e.ip, RequestText(e), Decimal(e.status), e.referer, e.userAgent);
            var r := Normalize(f);
            && r.srcIP == e.ip && r.httpMethod == e.httpMethod && r.path == e.path && r.proto == e.proto
            && r.status == e.status && r.referer == Trim(e.referer) && r.userAgent == Trim(e.userAgent)
  {
    var f := FieldsOf(e.ip, RequestText(e), Decimal(e.status), e.referer, e.userAgent);
    RequestLineReads(e);
    UpperIsWord(e.httpMethod);
    DecimalParses(e.status);
    assert e.ip[0] in e.ip && e.ip[|e.ip| - 1] in e.ip;
    TrimmedStays(e.ip);
    FieldsHeld(e);
    TextAt(f, "request", ["request_line", "req"], RequestText(e));
    TextAt(f, "ip", ["src_ip", "client_ip", "remote_addr", "host"], e.ip);
    TextAt(f, "user_agent", ["ua", "agent"], e.userAgent);
    TextAt(f, "referer", ["referrer"], e.referer);
    NumberAt(f, "status", ["status_code", "response", "code"], Decimal(e.status), e.status);
    NoSecondStatus(f);
  }

  lemma FieldsHeld(e: Entry)
    requires WellFormed(e)
    ensures var f := FieldsOf(e.ip, RequestText(e), Decimal(e.status), e.referer, e.userAgent);
            && "request" in f && f["request"] == Words(RequestText(e)) && "ip" in f && f["ip"] == Words(e.ip)
            && "user_agent" in f && f["user_agent"] == Words(e.userAgent) && "referer" in f && f["referer"] == Words(e.referer)
            && "status" in f && f["status"] == Words(Decimal(e.status)) && "sc_status" !in f
  {
  }

  lemma NoSecondStatus(f: FieldMap)
    requires "sc_status" !in f
    ensures FirstNumber(f, ["sc_status"]) == 0
  {
    assert ["sc_status"][1..] == [];
  }

  /** Any well-formed line, parsed and normalized, gives back its address, request, status, and its
      referer and user agent without surrounding white space. */
  lemma RoundTrip(e: Entry, ssh: string -> Parsed)
    requires WellFormed(e)
    ensures var p := ParseLine(Render(e), ssh);
            && p.Found?
            && var r := Normalize(p.fields);
               && r.srcIP == e.ip && r.httpMethod == e.httpMethod && r.path == e.path && r.proto == e.proto
               && r.status == e.status && r.referer == Trim(e.referer) && r.userAgent == Trim(e.userAgent)
  {
    LineReads(e);
    TailReads(e);
    NormalizeReads(e);
  }

  /** The referer and the user agent come back unchanged exactly when they have no white space at either end. */
  lemma RoundTripIsExactWhenTrimmed(e: Entry, ssh: string -> Parsed)
    requires WellFormed(e)
    ensures ParseLine(Render(e), ssh).Found?
    ensures var r := Normalize(ParseLine(Render(e), ssh).fields);
            r.referer == e.referer && r.userAgent == e.userAgent <==> Trimmed(e.referer) && Trimmed(e.userAgent)
  {
    RoundTrip(e, ssh);
    TrimmedStays(e.referer);
    TrimmedStays(e.userAgent);
  }
}
