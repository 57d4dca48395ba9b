/**
 Printer and reader of both directions: the server's response printer against the client's
 parser, and the client's request printer against the server's parser.
 */
module LocalClient {
  import opened Wrappers
  import opened Ascii
  import opened HttpText
  import Web
  import Service

  const MAX_RESPONSE_BYTES: nat := 65536

  // ---------------------------------------------------------------- the server's printer

  datatype HttpResponse = HttpResponse(status: nat, headers: seq<Field>, body: string)

  function ReasonPhrase(status: nat): string {
    match status
    case 200 => "OK"
    case 400 => "Bad Request"
    case 403 => "Forbidden"
    case 404 => "Not Found"
    case 405 => "Method Not Allowed"
    case 409 => "Conflict"
    case 411 => "Length Required"
    case 413 => "Payload Too Large"
    case 415 => "Unsupported Media Type"
    case 428 => "Precondition Required"
    case 505 => "HTTP Version Not Supported"
    case _ => "Error"
  }

  function StatusLine(status: nat): string { "HTTP/1.1 " + Decimal(status) + " " + ReasonPhrase(status) }

  function ResponseText(r: HttpResponse): string { Message(StatusLine(r.status), r.headers, r.body) }

  /** Appends fields to a started head; every line is closed. */
  method AppendFields(start: string, fields: seq<Field>) returns (output: string)
    ensures output == Join([start] + FieldLines(fields), CRLF) + CRLF
  {
    output := start + CRLF;
    ghost var lines := [start] + FieldLines(fields);
    assert lines[..1] == [start];
    for i := 0 to |fields|
      invariant output == Join(lines[..i + 1], CRLF) + CRLF
    {
      output := output + fields[i].name + ": " + fields[i].value + CRLF;
      AppendLine(lines, i + 1, fields[i]);
    }
    assert lines[..|fields| + 1] == lines;
  }

  lemma AppendLine(lines: seq<string>, k: nat, f: Field)
    requires 0 < k < |lines| && lines[k] == FieldLine(f)
    ensures Join(lines[..k], CRLF) + CRLF + f.name + ": " + f.value + CRLF == Join(lines[..k + 1], CRLF) + CRLF
  {
    JoinSnoc(lines[..k], lines[k]);
    assert lines[..k + 1] == lines[..k] + [lines[k]];
  }

  method ToHttp1Bytes(r: HttpResponse) returns (output: string)
    ensures output == ResponseText(r)
  {
    output := AppendFields(StatusLine(r.status), r.headers);
    output := output + CRLF + r.body;
  }

  // ---------------------------------------------------------------- the client's parser

  datatype ClientError = InvalidResponse | ResponseTooLarge | Disconnected | TimedOut

  datatype LocalResponse = LocalResponse(status: nat, headers: map<string, string>, body: string)

  function ParseStatusLine(line: string): Option<nat> {
    var first := Find(line, " ");
    if first.None? || line[..first.value] != "HTTP/1.1" then None
    else
      var rest := line[first.value + 1..];
      var second := Find(rest, " ");
      if second.None? then None
      else
        var text := rest[..second.value];
        if |text| != 3 || !AllDigits(text) then None else Some(DecimalValue(text))
  }

  /** The platform's unsigned number reader: an optional plus sign and leading zeros are fine. */
  function ParseUsize(value: string): Option<nat> {
    var digits := if value != "" && value[0] == '+' then value[1..] else value;
    if digits == "" || !AllDigits(digits) || DecimalValue(digits) > Web.USIZE_MAX then None
    else Some(DecimalValue(digits))
  }

  /** The rules after the header map: no transfer coding, and the body is exactly as long as announced. */
  function Accept(status: nat, headers: map<string, string>, body: string): Result<LocalResponse, ClientError> {
    if Web.TRANSFER_ENCODING in headers || Web.CONTENT_LENGTH !in headers then Err(InvalidResponse)
    else if ParseUsize(headers[Web.CONTENT_LENGTH]) != Some(|body|) then Err(InvalidResponse)
    else if |body| > MAX_RESPONSE_BYTES then Err(InvalidResponse)
    else Ok(LocalResponse(status, headers, body))
  }

  function ParseResponse(payload: string): Result<LocalResponse, ClientError> {
    match Find(payload, HEAD_END)
    case None => Err(InvalidResponse)
    case Some(end) =>
      if end > Web.MAX_HEADER_BYTES then Err(ResponseTooLarge)
      else if !AllHeadChars(payload[..end]) then Err(InvalidResponse)
      else
        var lines := Split(payload[..end], CRLF);
        match ParseStatusLine(lines[0])
        case None => Err(InvalidResponse)
        case Some(status) =>
          if |lines| - 1 > Web.MAX_HEADER_COUNT then Err(InvalidResponse)
          else
            match HeaderMap(lines[1..], Client)
            case None => Err(InvalidResponse)
            case Some(headers) => Accept(status, headers, payload[end + 4..])
  }

  lemma LowerKeepsValidName(name: string)
    ensures ValidName(Lower(name)) <==> ValidName(name)
  {
    forall i | 0 <= i < |name|
      ensures IsTchar(Lower(name)[i]) <==> IsTchar(name[i])
    {
      assert Lower(name)[i] == LowerChar(name[i]);
    }
    if ValidName(Lower(name)) {
      forall i | 0 <= i < |name| ensures IsTchar(name[i]) { assert IsTchar(Lower(name)[i]); }
    }
  }

  method ReadFields(fields: seq<string>) returns (r: Option<map<string, string>>)
    ensures r == if |fields| > Web.MAX_HEADER_COUNT then None else HeaderMap(fields, Client)
  {
    var headers: map<string, string> := map[];
    for count := 0 to |fields|
      invariant count <= Web.MAX_HEADER_COUNT
      invariant HeaderMap(fields[..count], Client) == Some(headers)
    {
      var line := fields[count];
      HeaderMapNext(fields, count, Client);
      if count >= Web.MAX_HEADER_COUNT || line == "" || IsBlank(line[0]) { return None; }
      var colon := Find(line, ":");
      if colon.None? { return None; }
      var name, value := Lower(line[..colon.value]), Trim(line[colon.value + 1..]);
      LowerKeepsValidName(line[..colon.value]);
      if !ValidName(name) || !ValueOk(value, Client) || name in headers { return None; }
      headers := headers[name := value];
    }
    assert fields[..|fields|] == fields;
    r := Some(headers);
  }

  method ReadResponse(payload: string) returns (r: Result<LocalResponse, ClientError>)
    ensures r == ParseResponse(payload)
  {
    var end := Find(payload, HEAD_END);
    if end.None? { return Err(InvalidResponse); }
    if end.value > Web.MAX_HEADER_BYTES { return Err(ResponseTooLarge); }
    if !AllHeadChars(payload[..end.value]) { return Err(InvalidResponse); }
    var lines := Split(payload[..end.value], CRLF);
    var status := ParseStatusLine(lines[0]);
    if status.None? { return Err(InvalidResponse); }
    var headers := ReadFields(lines[1..]);
    if headers.None? { return Err(InvalidResponse); }
    r := Accept(status.value, headers.value, payload[end.value + 4..]);
  }

  // ---------------------------------------------------------------- response round trip

  /** A response whose fields can be read back: distinct names, its own length, no transfer coding. */
  ghost predicate Servable(r: HttpResponse) {
    && 100 <= r.status < 1000
    && AllPrintableFields(r.headers) && DistinctFields(r.headers)
    && Web.TRANSFER_ENCODING !in FieldMap(r.headers)
    && Field("Content-Length", Decimal(|r.body|)) in r.headers
    && |r.body| <= Web.USIZE_MAX
  }

  lemma StatusLineReads(status: nat)
    requires 100 <= status < 1000
    ensures ParseStatusLine(StatusLine(status)) == Some(status) && StartLineOk(StatusLine(status))
  {
    var text, reason := Decimal(status), ReasonPhrase(status);
    DecimalBounds(status, 3);
    DecimalRoundTrip(status);
    ReasonIsPrintable(status);
    SplitStatusLine(text, reason);
  }

  lemma SplitStatusLine(text: string, reason: string)
    requires AllDigits(text) && |text| == 3 && AllPrintable(reason)
    ensures var line := "HTTP/1.1 " + text + " " + reason;
            ParseStatusLine(line) == Some(DecimalValue(text)) && StartLineOk(line)
  {
    var line := "HTTP/1.1 " + text + " " + reason;
    var rest := text + (" " + reason);
    assert line == "HTTP/1.1" + (" " + rest);
    FindFirstChar("HTTP/1.1", " " + rest, " ");
    assert line[..8] == "HTTP/1.1" && line[9..] == rest;
    FindFirstChar(text, " " + reason, " ");
    assert rest[..3] == text;
    assert AllPrintable("HTTP/1.1 ") && AllPrintable(text) && AllPrintable(" ");
  }

  lemma ReasonIsPrintable(status: nat)
    ensures AllPrintable(ReasonPhrase(status))
  {
    if status < 405 { ShortReasonIsPrintable(status); } else { LongReasonIsPrintable(status); }
  }

  lemma ReasonIsShort(status: nat)
    ensures |ReasonPhrase(status)| <= 30
  {
  }

  lemma ShortReasonIsPrintable(status: nat)
    requires status < 405
    ensures AllPrintable(ReasonPhrase(status))
  {
  }

  lemma LongReasonIsPrintable(status: nat)
    requires 405 <= status
    ensures AllPrintable(ReasonPhrase(status))
  {
    ClientReasonsArePrintable();
    ServerReasonsArePrintable();
  }

  lemma ClientReasonsArePrintable()
    ensures AllPrintable("Method Not Allowed") && AllPrintable("Length Required") && AllPrintable("Payload Too Large")
    ensures AllPrintable("Conflict") && AllPrintable("Error")
  {
  }

  lemma ServerReasonsArePrintable()
    ensures AllPrintable("Unsupported Media Type") && AllPrintable("Precondition Required")
    ensures AllPrintable("HTTP Version Not Supported")
  {
  }

  lemma LowerLengthName()
    ensures Lower("Content-Length") == Web.CONTENT_LENGTH
  {
  }

  lemma DecimalIsTrimmed(n: nat)
    ensures Trim(Decimal(n)) == Decimal(n) && ValueOk(Decimal(n), Server)
    ensures ParseUsize(Decimal(n)) == (if n <= Web.USIZE_MAX then Some(n) else None)
    ensures if n <= Web.USIZE_MAX then Web.ParseContentLength(Decimal(n)) == Ok(n)
            else Web.ParseContentLength(Decimal(n)).Err?
  {
    DecimalRoundTrip(n);
    TrimTrimmed(Decimal(n));
  }

  lemma ClientReadable(fields: seq<Field>)
    requires AllPrintableFields(fields) && DistinctFields(fields)
    ensures Readable(fields, Client)
  {
    forall i | 0 <= i < |fields|
      ensures ValueOk(Trim(fields[i].value), Client)
    {
      TrimKeepsValue(fields[i].value, Client);
    }
  }

  lemma {:induction false} TrimStartKeeps(s: string, reader: Reader)
    requires ValueOk(s, reader)
    ensures ValueOk(TrimStart(s), reader)
  {
    if s != "" && IsBlank(s[0]) { TrimStartKeeps(s[1..], reader); }
  }

  lemma {:induction false} TrimEndKeeps(s: string, reader: Reader)
    requires ValueOk(s, reader)
    ensures ValueOk(TrimEnd(s), reader)
  {
    if s != "" && IsBlank(s[|s| - 1]) { TrimEndKeeps(s[..|s| - 1], reader); }
  }

  lemma TrimKeepsValue(s: string, reader: Reader)
    requires ValueOk(s, reader)
    ensures ValueOk(Trim(s), reader)
  {
    TrimStartKeeps(s, reader);
    TrimEndKeeps(TrimStart(s), reader);
  }

  /** The client's parser on a printed message. */
  lemma PrintedResponseReads(start: string, status: nat, fields: seq<Field>, body: string)
    requires StartLineOk(start) && ParseStatusLine(start) == Some(status)
    requires AllPrintableFields(fields) && DistinctFields(fields)
    ensures ParseResponse(Message(start, fields, body)) ==
              if |Join([start] + FieldLines(fields), CRLF)| > Web.MAX_HEADER_BYTES then Err(ResponseTooLarge)
              else if |fields| > Web.MAX_HEADER_COUNT then Err(InvalidResponse)
              else Accept(status, FieldMap(fields), body)
  {
    MessageLayout(start, fields, body);
    assert ([start] + FieldLines(fields))[1..] == FieldLines(fields);
    ClientReadable(fields);
    PrintedFieldsRead(fields, Client);
  }

  /** The client reads back status, lower-cased fields and body of every servable response,
      and exactly the size limits decide. */
  lemma ResponseRoundTrip(r: HttpResponse)
    requires Servable(r)
    ensures ParseResponse(ResponseText(r)) ==
              if HeadSize(r) > Web.MAX_HEADER_BYTES then Err(ResponseTooLarge)
              else if |r.headers| > Web.MAX_HEADER_COUNT || |r.body| > MAX_RESPONSE_BYTES then Err(InvalidResponse)
              else Ok(LocalResponse(r.status, FieldMap(r.headers), r.body))
  {
    StatusLineReads(r.status);
    PrintedResponseReads(StatusLine(r.status), r.status, r.headers, r.body);
    LengthFieldReads(r.headers, |r.body|);
  }

  function HeadSize(r: HttpResponse): nat { |Join([StatusLine(r.status)] + FieldLines(r.headers), CRLF)| }

  lemma LengthFieldReads(fields: seq<Field>, n: nat)
    requires DistinctFields(fields) && Field("Content-Length", Decimal(n)) in fields
    ensures Web.CONTENT_LENGTH in FieldMap(fields)
    ensures n <= Web.USIZE_MAX ==> ParseUsize(FieldMap(fields)[Web.CONTENT_LENGTH]) == Some(n)
                                   && Web.LengthOf(FieldMap(fields)) == Ok(Some(n))
    ensures n > Web.USIZE_MAX ==> Web.LengthOf(FieldMap(fields)).Err?
  {
    var k :| 0 <= k < |fields| && fields[k] == Field("Content-Length", Decimal(n));
    FieldMapAt(fields, k);
    LowerLengthName();
    DecimalIsTrimmed(n);
  }

  // ---------------------------------------------------------------- the responses the server builds

  function Concat(parts: seq<string>): string {
    if parts == [] then "" else parts[0] + Concat(parts[1..])
  }

  function PolicyParts(nonce: Option<string>): seq<string> {
    match nonce
    case Some(n) =>
      ["default-src 'self'; ", "script-src 'nonce-", n, "'; ", "connect-src 'self'; ", "object-src 'none'; ",
       "base-uri 'none'; ", "form-action 'self'; ", "frame-ancestors 'none'"]
    case None =>
      ["default-src 'self'; ", "object-src 'none'; ", "base-uri 'none'; ", "form-action 'none'; ",
       "frame-ancestors 'none'"]
  }

  function ContentSecurityPolicy(nonce: Option<string>): string { Concat(PolicyParts(nonce)) }

  function BuildResponse(status: nat, contentType: string, body: string, nonce: Option<string>,
                         additional: seq<Field>): HttpResponse {
    HttpResponse(status, FixedFields(contentType, |body|, nonce) + additional, body)
  }

  function FixedFields(contentType: string, length: nat, nonce: Option<string>): seq<Field> {
    [Field("Content-Type", contentType),
     Field("Content-Length", Decimal(length)),
     Field("Connection", "close"),
     Field("Cache-Control", "no-store"),
     Field("Pragma", "no-cache"),
     Field("X-Content-Type-Options", "nosniff"),
     Field("Referrer-Policy", "no-referrer"),
     Field("Content-Security-Policy", ContentSecurityPolicy(nonce)),
     Field("X-Frame-Options", "DENY")]
  }

  /** Names of different length or first letter differ whatever their case. */
  function Code(f: Field): int {
    if f.name == "" then 0 else |f.name| * 1000 + LowerChar(f.name[0]) as int
  }

  ghost predicate Coded(fields: seq<Field>, codes: seq<int>) {
    |fields| == |codes| && forall i :: 0 <= i < |fields| ==> Code(fields[i]) == codes[i]
  }

  lemma CodesDistinguish(fields: seq<Field>, codes: seq<int>)
    requires Coded(fields, codes) && forall i, j :: 0 <= i < j < |codes| ==> codes[i] != codes[j]
    ensures DistinctFields(fields)
  {
    forall i, j | 0 <= i < j < |fields|
      ensures Lower(fields[i].name) != Lower(fields[j].name)
    {
      assert codes[i] != codes[j];
      SameNameSameCode(fields[i], fields[j]);
    }
  }

  lemma SameNameSameCode(f: Field, g: Field)
    ensures Lower(f.name) == Lower(g.name) ==> Code(f) == Code(g)
  {
    if Lower(f.name) == Lower(g.name) && f.name != "" {
      assert Lower(f.name)[0] == Lower(g.name)[0];
    }
  }

  /** The one field a response may carry beside the fixed ones. */
  ghost predicate ExtraOk(additional: seq<Field>) {
    || additional == []
    || (|additional| == 1 && (additional[0].name == "ETag" || additional[0].name == "Set-Cookie")
        && Short(additional[0].value))
  }

  lemma FixedCodes(contentType: string, length: nat, nonce: Option<string>)
    ensures Coded(FixedFields(contentType, length, nonce), FIXED_CODES)
  {
  }

  const FIXED_CODES: seq<int> := [12099, 14099, 10099, 13099, 6112, 22120, 15114, 23099, 15120]

  /** No code of seventeen letters: no field is called transfer-encoding. */
  lemma NoTransferCoding(fields: seq<Field>, codes: seq<int>)
    requires Coded(fields, codes) && forall i :: 0 <= i < |codes| ==> codes[i] / 1000 != 17
    ensures Web.TRANSFER_ENCODING !in FieldMap(fields)
  {
    FieldMapKeys(fields);
    forall i | 0 <= i < |fields|
      ensures Lower(fields[i].name) != Web.TRANSFER_ENCODING
    {
      assert codes[i] / 1000 != 17;
    }
  }

  lemma CodedSnoc(fields: seq<Field>, codes: seq<int>, more: seq<Field>, code: int)
    requires Coded(fields, codes) && |more| == 1 && Code(more[0]) == code
    ensures Coded(fields + more, codes + [code])
  {
  }

  lemma BuiltIsDistinct(fixed: seq<Field>, additional: seq<Field>)
    requires Coded(fixed, FIXED_CODES) && ExtraOk(additional)
    ensures DistinctFields(fixed + additional)
    ensures Web.TRANSFER_ENCODING !in FieldMap(fixed + additional)
  {
    var codes := FIXED_CODES;
    if additional == [] {
      assert fixed + additional == fixed;
    } else {
      var code := if additional[0].name == "ETag" then 4101 else 10115;
      CodedSnoc(fixed, codes, additional, code);
      codes := codes + [code];
    }
    CodesDistinguish(fixed + additional, codes);
    NoTransferCoding(fixed + additional, codes);
  }

  predicate Word(s: string) { forall i :: 0 <= i < |s| ==> IsAlphanumeric(s[i]) || s[i] == '-' }

  lemma WordIsName(s: string)
    requires Word(s) && s != ""
    ensures ValidName(s) && ValueOk(s, Server)
  {
  }

  /** What the server puts into a response: printable text of moderate length. */
  ghost predicate Short(s: string) { ValueOk(s, Server) && |s| <= 120 }

  ghost predicate FieldFits(f: Field) {
    ValidName(f.name) && ValueOk(f.value, Server) && |f.name| <= 30 && |f.value| <= 1080
  }

  lemma ConnectionFieldsFit(length: nat)
    requires length <= Web.USIZE_MAX
    ensures FieldFits(Field("Content-Length", Decimal(length))) && FieldFits(Field("Connection", "close"))
  {
    WordIsName("Content-Length");
    LengthFits(length);
    WordIsName("Connection");
    WordIsName("close");
  }

  lemma LengthFits(length: nat)
    requires length <= Web.USIZE_MAX
    ensures ValueOk(Decimal(length), Server) && |Decimal(length)| <= 20
  {
    DecimalRoundTrip(length);
    U64IsShort(length);
  }

  lemma CachingFieldsFit()
    ensures FieldFits(Field("Cache-Control", "no-store")) && FieldFits(Field("Pragma", "no-cache"))
  {
    WordIsName("Cache-Control");
    WordIsName("no-store");
    WordIsName("Pragma");
    WordIsName("no-cache");
  }

  lemma SafetyFieldsFit()
    ensures FieldFits(Field("X-Content-Type-Options", "nosniff")) && FieldFits(Field("Referrer-Policy", "no-referrer"))
  {
    WordIsName("X-Content-Type-Options");
    WordIsName("nosniff");
    WordIsName("Referrer-Policy");
    WordIsName("no-referrer");
  }

  lemma ContentFieldsFit(contentType: string, policy: string)
    requires Short(contentType) && ValueOk(policy, Server) && |policy| <= 1080
    ensures FieldFits(Field("Content-Type", contentType)) && FieldFits(Field("Content-Security-Policy", policy))
    ensures FieldFits(Field("X-Frame-Options", "DENY"))
  {
    WordIsName("Content-Type");
    WordIsName("Content-Security-Policy");
    WordIsName("X-Frame-Options");
    WordIsName("DENY");
  }

  lemma PolicyFits(nonce: Option<string>)
    requires nonce.Some? ==> Short(nonce.value)
    ensures ValueOk(ContentSecurityPolicy(nonce), Server) && |ContentSecurityPolicy(nonce)| <= 1080
  {
    PolicyHeads();
    PolicyTails();
    ConcatFits(PolicyParts(nonce), 120);
  }

  lemma PeelOne(n: nat, m: nat)
    requires n > 0
    ensures n * m == m + (n - 1) * m
  {
  }

  lemma {:induction false} ConcatFits(parts: seq<string>, m: nat)
    requires forall p :: p in parts ==> ValueOk(p, Server) && |p| <= m
    ensures ValueOk(Concat(parts), Server) && |Concat(parts)| <= |parts| * m
  {
    if parts != [] {
      ConcatFits(parts[1..], m);
      PeelOne(|parts|, m);
    }
  }

  lemma PolicyHeads()
    ensures ValueOk("default-src 'self'; ", Server) && ValueOk("script-src 'nonce-", Server) && ValueOk("'; ", Server)
    ensures ValueOk("connect-src 'self'; ", Server) && ValueOk("object-src 'none'; ", Server)
  {
  }

  lemma PolicyTails()
    ensures ValueOk("base-uri 'none'; ", Server) && ValueOk("form-action 'self'; ", Server)
    ensures ValueOk("form-action 'none'; ", Server) && ValueOk("frame-ancestors 'none'", Server)
  {
  }

  function Pow10(k: nat): nat { if k == 0 then 1 else 10 * Pow10(k - 1) }

  lemma {:induction false} DecimalIsShort(n: nat, k: nat)
    requires 1 <= k && n < Pow10(k)
    ensures |Decimal(n)| <= k
  {
    if n >= 10 { DecimalIsShort(n / 10, k - 1); }
  }

  lemma U64IsShort(n: nat)
    requires n <= Web.USIZE_MAX
    ensures |Decimal(n)| <= 20
  {
    assert Pow10(20) == 1_0000_0000_0000_0000_0000 by {
      assert Pow10(5) == 10_0000;
      assert Pow10(10) == 10_0000 * Pow10(5);
      assert Pow10(15) == 10_0000 * Pow10(10);
      assert Pow10(20) == 10_0000 * Pow10(15);
    }
    DecimalIsShort(n, 20);
  }

  lemma {:induction false} JoinIsShort(lines: seq<string>, m: nat)
    requires lines != [] && forall l :: l in lines ==> |l| <= m
    ensures |Join(lines, CRLF)| <= |lines| * (m + 2)
  {
    assert lines[0] in lines;
    if |lines| > 1 {
      JoinIsShort(lines[1..], m);
      PeelOne(|lines|, m + 2);
    }
  }

  /** All that the round trip needs to know about the fixed fields. */
  ghost predicate FixedOk(fixed: seq<Field>, length: nat) {
    && Coded(fixed, FIXED_CODES) && fixed[1] == Field("Content-Length", Decimal(length))
    && forall i :: 0 <= i < 9 ==> FieldFits(fixed[i])
  }

  lemma FixedFieldsOk(contentType: string, length: nat, nonce: Option<string>)
    requires Short(contentType) && (nonce.Some? ==> Short(nonce.value)) && length <= Web.USIZE_MAX
    ensures FixedOk(FixedFields(contentType, length, nonce), length)
  {
    FixedCodes(contentType, length, nonce);
    ConnectionFieldsFit(length);
    CachingFieldsFit();
    SafetyFieldsFit();
    PolicyFits(nonce);
    ContentFieldsFit(contentType, ContentSecurityPolicy(nonce));
  }

  lemma FittingHeadIsSmall(start: string, fields: seq<Field>)
    requires |start| <= 60 && |fields| <= 10 && forall i :: 0 <= i < |fields| ==> FieldFits(fields[i])
    ensures |Join([start] + FieldLines(fields), CRLF)| <= Web.MAX_HEADER_BYTES
  {
    var lines := [start] + FieldLines(fields);
    forall l | l in lines
      ensures |l| <= 1112
    {
      var i :| 0 <= i < |lines| && lines[i] == l;
      if i > 0 { assert FieldFits(fields[i - 1]); }
    }
    JoinIsShort(lines, 1112);
  }

  lemma StatusLineIsShort(status: nat)
    requires 100 <= status < 1000
    ensures |StatusLine(status)| <= 60
  {
    DecimalBounds(status, 3);
    ReasonIsShort(status);
  }

  lemma FittingResponseRoundTrip(status: nat, fixed: seq<Field>, additional: seq<Field>, body: string)
    requires 100 <= status < 1000 && |body| <= Web.USIZE_MAX && FixedOk(fixed, |body|) && ExtraOk(additional)
    ensures ParseResponse(ResponseText(HttpResponse(status, fixed + additional, body))) ==
              if |body| <= MAX_RESPONSE_BYTES then Ok(LocalResponse(status, FieldMap(fixed + additional), body))
              else Err(InvalidResponse)
  {
    var headers := fixed + additional;
    BuiltIsDistinct(fixed, additional);
    forall i | 0 <= i < |headers| ensures FieldFits(headers[i]) {
      if i == 9 { ExtraFits(additional); }
    }
    StatusLineIsShort(status);
    FittingHeadIsSmall(StatusLine(status), headers);
    FittingIsPrintable(headers);
    assert headers[1] == Field("Content-Length", Decimal(|body|));
    ResponseRoundTrip(HttpResponse(status, headers, body));
  }

  lemma FittingIsPrintable(fields: seq<Field>)
    requires forall i :: 0 <= i < |fields| ==> FieldFits(fields[i])
    ensures AllPrintableFields(fields)
    ensures forall i :: 0 <= i < |fields| ==> ValueOk(Trim(fields[i].value), Server)
  {
    forall i | 0 <= i < |fields|
      ensures ValidName(fields[i].name) && ValueOk(fields[i].value, Client) && ValueOk(Trim(fields[i].value), Server)
    {
      assert FieldFits(fields[i]);
      TrimKeepsValue(fields[i].value, Server);
    }
  }

  lemma ExtraFits(additional: seq<Field>)
    requires ExtraOk(additional) && additional != []
    ensures FieldFits(additional[0])
  {
    WordIsName("ETag");
    WordIsName("Set-Cookie");
  }

  /** Every response the server builds is read back whole, exactly when its body is within the client's limit. */
  lemma BuiltResponseRoundTrip(status: nat, contentType: string, body: string, nonce: Option<string>,
                               additional: seq<Field>)
    requires 100 <= status < 1000 && |body| <= Web.USIZE_MAX
    requires Short(contentType) && (nonce.Some? ==> Short(nonce.value)) && ExtraOk(additional)
    ensures var r := BuildResponse(status, contentType, body, nonce, additional);
            ParseResponse(ResponseText(r)) ==
              if |body| <= MAX_RESPONSE_BYTES then Ok(LocalResponse(status, FieldMap(r.headers), body))
              else Err(InvalidResponse)
  {
    FixedFieldsOk(contentType, |body|, nonce);
    FittingResponseRoundTrip(status, FixedFields(contentType, |body|, nonce), additional, body);
  }

  /** In particular the entity tag arrives as sent, so the client's comparison sees the revision. */
  lemma EntityTagReadsBack(status: nat, contentType: string, body: string, revision: nat)
    requires revision <= Service.U64_MAX
    ensures var headers := FieldMap(BuildResponse(status, contentType, body, None,
                                                  [Field("ETag", Service.EntityTag(revision))]).headers);
            "etag" in headers && headers["etag"] == Service.EntityTag(revision)
            && Service.ParseStrongRevision(headers["etag"]) == Some(revision)
  {
    var tag := Service.EntityTag(revision);
    var additional := [Field("ETag", tag)];
    var fields := FixedFields(contentType, |body|, None) + additional;
    TagIsShort(revision);
    FixedCodes(contentType, |body|, None);
    BuiltIsDistinct(FixedFields(contentType, |body|, None), additional);
    assert fields[9] == additional[0];
    FieldMapAt(fields, 9);
    assert Lower("ETag") == "etag";
    TrimTrimmed(tag);
    Service.EntityTagIsExact(tag, revision);
  }

  lemma TagIsShort(revision: nat)
    requires revision <= Service.U64_MAX
    ensures Short(Service.EntityTag(revision)) && Trimmed(Service.EntityTag(revision))
            && |Service.EntityTag(revision)| <= 22
  {
    DecimalRoundTrip(revision);
    U64IsShort(revision);
  }

  // ---------------------------------------------------------------- the client's read loop

  /** One read of the client: up to `count` bytes, an interruption, or a broken connection. */
  datatype ClientRead = Got(count: nat) | Interrupted | Broken

  const CLIENT_CHUNK: nat := 2048

  ghost predicate Flows(schedule: seq<ClientRead>) {
    forall i :: 0 <= i < |schedule| ==> schedule[i].Got? && schedule[i].count > 0
  }

  function Least(a: nat, b: nat): nat { if a < b then a else b }

  /** Reads to the end of the stream; a response above the limit is refused while it is read.  The
      end of `schedule` is the deadline. */
  method ReadToEnd(wire: string, schedule: seq<ClientRead>) returns (r: Result<string, ClientError>)
    ensures r.Ok? ==> r.value == wire && |wire| <= MAX_RESPONSE_BYTES
    ensures r == Err(ResponseTooLarge) ==> |wire| > MAX_RESPONSE_BYTES
    ensures |schedule| > |wire| && Flows(schedule) ==>
              r == if |wire| <= MAX_RESPONSE_BYTES then Ok(wire) else Err(ResponseTooLarge)
  {
    var payload, pos := "", 0;
    for turn := 0 to |schedule|
      invariant 0 <= pos <= |wire| && payload == wire[..pos] && pos <= MAX_RESPONSE_BYTES
      invariant Flows(schedule) ==> pos >= turn
    {
      match schedule[turn] {
        case Broken => return Err(Disconnected);
        case Interrupted =>
        case Got(count) =>
          var got := Least(Least(count, CLIENT_CHUNK), |wire| - pos);
          if got == 0 && count > 0 {
            assert wire[..|wire|] == wire;
            return Ok(payload);
          }
          if pos + got > MAX_RESPONSE_BYTES { return Err(ResponseTooLarge); }
          payload, pos := payload + wire[pos..pos + got], pos + got;
      }
    }
    r := Err(TimedOut);
  }

  /** What the client makes of everything the server sent. */
  function Receive(wire: string): Result<LocalResponse, ClientError> {
    if |wire| > MAX_RESPONSE_BYTES then Err(ResponseTooLarge) else ParseResponse(wire)
  }

  /** Every response the server builds reaches the client whole exactly when head and body together
      are within the client's limit. */
  lemma BuiltResponseArrives(status: nat, contentType: string, body: string, nonce: Option<string>,
                             additional: seq<Field>)
    requires 100 <= status < 1000 && |body| <= Web.USIZE_MAX
    requires Short(contentType) && (nonce.Some? ==> Short(nonce.value)) && ExtraOk(additional)
    ensures var r := BuildResponse(status, contentType, body, nonce, additional);
            Receive(ResponseText(r)) ==
              if HeadSize(r) + 4 + |body| <= MAX_RESPONSE_BYTES
              then Ok(LocalResponse(status, FieldMap(r.headers), body))
              else Err(ResponseTooLarge)
  {
    BuiltResponseRoundTrip(status, contentType, body, nonce, additional);
    TextSize(BuildResponse(status, contentType, body, nonce, additional));
  }

  lemma TextSize(r: HttpResponse)
    ensures |ResponseText(r)| == HeadSize(r) + 4 + |r.body|
  {
  }
}
