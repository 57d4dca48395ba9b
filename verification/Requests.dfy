/** The client's request printer against the server's parser. */
module Requests {
  import opened Wrappers
  import opened Ascii
  import opened HttpText
  import opened LocalClient
  import Web
  import Service

  // ---------------------------------------------------------------- the client's printer

  function RequestLine(verb: string, path: string): string { verb + " " + path + " HTTP/1.1" }

  function BaseFields(host: string, length: nat): seq<Field> {
    [Field("Host", host),
     Field("Accept", "application/json"),
     Field("Accept-Encoding", "identity"),
     Field("Connection", "close"),
     Field("Content-Length", Decimal(length))]
  }

  function RequestText(verb: string, path: string, fields: seq<Field>, body: string): string {
    Message(RequestLine(verb, path), fields, body)
  }

  /** Prints one request; an extra field that is not printable is refused before anything is sent. */
  method BuildRequest(verb: string, path: string, host: string, extra: seq<Field>, body: string)
    returns (r: Result<string, ClientError>)
    ensures r.Ok? <==> AllPrintableFields(extra)
    ensures r.Ok? ==> r.value == RequestText(verb, path, BaseFields(host, |body|) + extra, body)
  {
    var base := BaseFields(host, |body|);
    ghost var lines := [RequestLine(verb, path)] + FieldLines(base + extra);
    var output := AppendFields(RequestLine(verb, path), base);
    assert lines[..6] == [RequestLine(verb, path)] + FieldLines(base);
    for i := 0 to |extra|
      invariant AllPrintableFields(extra[..i])
      invariant output == Join(lines[..i + 6], CRLF) + CRLF
    {
      if !ValidName(extra[i].name) || !ValueOk(extra[i].value, Client) { return Err(InvalidResponse); }
      output := output + extra[i].name + ": " + extra[i].value + CRLF;
      AppendLine(lines, i + 6, extra[i]);
    }
    assert lines[..|extra| + 6] == lines && extra[..|extra|] == extra;
    output := output + CRLF + body;
    r := Ok(output);
  }

  // ---------------------------------------------------------------- round trip

  lemma JoinThree(a: string, b: string, c: string, p: string)
    ensures Join([a, b, c], p) == a + p + b + p + c
  {
    assert [a, b, c][1..] == [b, c] && [b, c][1..] == [c];
    assert Join([b, c], p) == b + p + c;
  }

  lemma RequestLineSplits(verb: string, path: string)
    requires Without(verb, ' ') && Without(path, ' ')
    ensures Split(RequestLine(verb, path), " ") == [verb, path, "HTTP/1.1"]
  {
    var parts := [verb, path, "HTTP/1.1"];
    JoinThree(verb, path, "HTTP/1.1", " ");
    assert RequestLine(verb, path) == verb + " " + path + " " + "HTTP/1.1" by {
      assert " HTTP/1.1" == " " + "HTTP/1.1";
    }
    assert Without("HTTP/1.1", ' ');
    SplitJoin(parts, " ");
  }

  lemma RequestLineReads(verb: string, path: string)
    requires ValidName(verb) && Web.TargetOk(path)
    ensures Web.ParseRequestLine(RequestLine(verb, path)) == Ok((Web.VerbOf(verb), path))
            && StartLineOk(RequestLine(verb, path))
  {
    forall i | 0 <= i < |verb| ensures IsPrintable(verb[i]) && verb[i] != ' ' { TcharIsPlain(verb[i]); }
    RequestLineSplits(verb, path);
    assert AllPrintable(" HTTP/1.1") && AllPrintable(verb) && AllPrintable(path);
  }

  /** The server's parser on a printed message. */
  lemma PrintedRequestReads(start: string, verb: Web.Verb, target: string, fields: seq<Field>, body: string)
    requires StartLineOk(start) && Web.ParseRequestLine(start) == Ok((verb, target)) && AllPrintableFields(fields)
    ensures Web.Parse(Message(start, fields, body)) ==
              if |Join([start] + FieldLines(fields), CRLF)| > Web.MAX_HEADER_BYTES then Err(Web.PayloadTooLarge)
              else if |fields| > Web.MAX_HEADER_COUNT || !Readable(fields, Server) then Err(Web.BadRequest)
              else Web.Interpret(verb, target, FieldMap(fields), body)
  {
    MessageLayout(start, fields, body);
    assert ([start] + FieldLines(fields))[1..] == FieldLines(fields);
    PrintedFieldsRead(fields, Server);
  }

  /** What the sender can check: sizes, distinct names in any case, no tab inside a value, no
      forbidden field, and no body on a GET. */
  ghost predicate Deliverable(verb: string, path: string, fields: seq<Field>, body: string) {
    && |Join([RequestLine(verb, path)] + FieldLines(fields), CRLF)| <= Web.MAX_HEADER_BYTES
    && |fields| <= Web.MAX_HEADER_COUNT && |body| <= Web.MAX_BODY_BYTES
    && Readable(fields, Server)
    && (forall i, k :: 0 <= i < |fields| && 0 <= k < 4 ==> Lower(fields[i].name) != Web.FORBIDDEN[k])
    && (verb == "GET" ==> body == "")
  }

  /** The server parses a printed request to the same verb, target, fields and body exactly when
      it is deliverable; values come back trimmed. */
  lemma RequestRoundTrip(verb: string, path: string, fields: seq<Field>, body: string)
    requires ValidName(verb) && Web.TargetOk(path) && AllPrintableFields(fields)
    requires Field("Content-Length", Decimal(|body|)) in fields
    ensures var parsed := Web.Parse(RequestText(verb, path, fields, body));
            && (parsed.Ok? <==> Deliverable(verb, path, fields, body))
            && (parsed.Ok? ==>
                parsed.value == Web.ParsedRequest(Web.VerbOf(verb), path, FieldMap(fields), body, Some(|body|)))
  {
    RequestLineReads(verb, path);
    PrintedRequestReads(RequestLine(verb, path), Web.VerbOf(verb), path, fields, body);
    ForbiddenFields(fields);
    if Readable(fields, Server) {
      LengthFieldReads(fields, |body|);
      InterpretPrinted(Web.VerbOf(verb), path, FieldMap(fields), body);
    }
  }

  lemma InterpretPrinted(verb: Web.Verb, path: string, headers: map<string, string>, body: string)
    requires |body| <= Web.USIZE_MAX ==> Web.LengthOf(headers) == Ok(Some(|body|))
    requires |body| > Web.USIZE_MAX ==> Web.LengthOf(headers).Err?
    ensures var r := Web.Interpret(verb, path, headers, body);
            && (r.Ok? <==> !Web.HasForbidden(headers) && |body| <= Web.MAX_BODY_BYTES && (verb.Get? ==> body == ""))
            && (r.Ok? ==> r.value == Web.ParsedRequest(verb, path, headers, body, Some(|body|)))
  {
  }

  lemma ForbiddenFields(fields: seq<Field>)
    ensures Web.HasForbidden(FieldMap(fields)) <==>
            exists i, k :: 0 <= i < |fields| && 0 <= k < 4 && Lower(fields[i].name) == Web.FORBIDDEN[k]
  {
    FieldMapKeys(fields);
    if i, k :| 0 <= i < |fields| && 0 <= k < 4 && Lower(fields[i].name) == Web.FORBIDDEN[k] {
      assert Web.FORBIDDEN[k] in FieldMap(fields);
    }
  }

  /** A tab inside a value passes the client's own check and is refused by the server. */
  lemma InnerTabIsRefused(verb: string, path: string, fields: seq<Field>, body: string, i: nat, j: nat)
    requires ValidName(verb) && Web.TargetOk(path) && AllPrintableFields(fields)
    requires Field("Content-Length", Decimal(|body|)) in fields && i < |fields|
    requires j < |Trim(fields[i].value)| && Trim(fields[i].value)[j] == '\t'
    ensures Web.Parse(RequestText(verb, path, fields, body)).Err?
  {
    TabIsUnreadable(fields, i, j);
    RequestRoundTrip(verb, path, fields, body);
    assert !Deliverable(verb, path, fields, body);
  }

  lemma TabIsUnreadable(fields: seq<Field>, i: nat, j: nat)
    requires i < |fields| && j < |Trim(fields[i].value)| && Trim(fields[i].value)[j] == '\t'
    ensures !Readable(fields, Server)
  {
    assert !ValueOk(Trim(fields[i].value), Server);
  }

  // ---------------------------------------------------------------- the mutation requests

  const CSRF_COOKIE: string := "jbl_aura_csrf="

  function MutationFields(host: string, length: nat, revision: nat, token: string): seq<Field> {
    BaseFields(host, length) +
    [Field("Origin", "http://" + host),
     Field("Content-Type", "application/json"),
     Field("If-Match", Service.EntityTag(revision)),
     Field("X-CSRF-Token", token),
     Field("Cookie", CSRF_COOKIE + token)]
  }

  const MUTATION_CODES: seq<int> := [4104, 6097, 15097, 10099, 14099, 6111, 12099, 8105, 12120, 6099]

  lemma MutationCodes(host: string, length: nat, revision: nat, token: string)
    ensures Coded(MutationFields(host, length, revision, token), MUTATION_CODES)
  {
    BaseCodes(host, length);
  }

  lemma BaseCodes(host: string, length: nat)
    ensures Coded(BaseFields(host, length), MUTATION_CODES[..5])
  {
  }

  lemma BaseFit(host: string, length: nat, i: nat)
    requires Short(host) && length <= Web.USIZE_MAX && i < 5
    ensures FieldFits(BaseFields(host, length)[i])
  {
    match i
    case 0 => WordIsName("Host");
    case 1 => WordIsName("Accept"); JsonIsValue();
    case 2 => WordIsName("Accept-Encoding"); WordIsName("identity");
    case 3 => WordIsName("Connection"); WordIsName("close");
    case _ => WordIsName("Content-Length"); LengthFits(length);
  }

  lemma JsonIsValue()
    ensures ValueOk("application/json", Server)
  {
  }

  ghost predicate Secret(s: string) { ValueOk(s, Server) && |s| <= 64 }

  lemma ExtraFit(host: string, length: nat, revision: nat, token: string, i: nat)
    requires Secret(host) && Secret(token) && revision <= Service.U64_MAX && 5 <= i < 10
    ensures FieldFits(MutationFields(host, length, revision, token)[i])
  {
    match i
    case 5 => WordIsName("Origin"); assert ValueOk("http://", Server);
    case 6 => WordIsName("Content-Type"); JsonIsValue();
    case 7 => WordIsName("If-Match"); TagIsShort(revision);
    case 8 => WordIsName("X-CSRF-Token");
    case _ => WordIsName("Cookie"); assert ValueOk(CSRF_COOKIE, Server);
  }

  ghost predicate MutationOk(fields: seq<Field>, length: nat) {
    && Coded(fields, MUTATION_CODES) && fields[4] == Field("Content-Length", Decimal(length))
    && forall i :: 0 <= i < 10 ==> FieldFits(fields[i])
  }

  lemma MutationFieldsOk(host: string, length: nat, revision: nat, token: string)
    requires Secret(host) && Secret(token) && revision <= Service.U64_MAX && length <= Web.USIZE_MAX
    ensures MutationOk(MutationFields(host, length, revision, token), length)
  {
    MutationCodes(host, length, revision, token);
    forall i | 0 <= i < 10
      ensures FieldFits(MutationFields(host, length, revision, token)[i])
    {
      if i < 5 { BaseFit(host, length, i); } else { ExtraFit(host, length, revision, token, i); }
    }
  }

  /** No code here has the length of a forbidden name. */
  lemma NoForbidden(fields: seq<Field>)
    requires Coded(fields, MUTATION_CODES)
    ensures forall i, k :: 0 <= i < |fields| && 0 <= k < 4 ==> Lower(fields[i].name) != Web.FORBIDDEN[k]
  {
    forall i, k | 0 <= i < |fields| && 0 <= k < 4
      ensures Lower(fields[i].name) != Web.FORBIDDEN[k]
    {
      assert Code(fields[i]) == MUTATION_CODES[i];
    }
  }

  lemma FittingMutationRoundTrip(path: string, fields: seq<Field>, body: string)
    requires Web.TargetOk(path) && |path| <= 40 && |body| <= Web.MAX_BODY_BYTES && MutationOk(fields, |body|)
    ensures Web.Parse(RequestText("POST", path, fields, body))
            == Ok(Web.ParsedRequest(Web.Post, path, FieldMap(fields), body, Some(|body|)))
    ensures DistinctFields(fields)
  {
    CodesDistinguish(fields, MUTATION_CODES);
    NoForbidden(fields);
    FittingHeadIsSmall(RequestLine("POST", path), fields);
    FittingIsPrintable(fields);
    assert fields[4] in fields;
    WordIsName("POST");
    RequestRoundTrip("POST", path, fields, body);
  }

  /** Every mutation the client sends is parsed as sent, and its precondition names the very
      revision the client read. */
  lemma MutationRequestRoundTrip(path: string, host: string, body: string, revision: nat, token: string)
    requires Web.TargetOk(path) && |path| <= 40 && |body| <= Web.MAX_BODY_BYTES
    requires Secret(host) && Secret(token) && revision <= Service.U64_MAX
    ensures var fields := MutationFields(host, |body|, revision, token);
            && Web.Parse(RequestText("POST", path, fields, body))
               == Ok(Web.ParsedRequest(Web.Post, path, FieldMap(fields), body, Some(|body|)))
            && "if-match" in FieldMap(fields)
            && Service.ParseStrongRevision(FieldMap(fields)["if-match"]) == Some(revision)
  {
    var fields := MutationFields(host, |body|, revision, token);
    MutationFieldsOk(host, |body|, revision, token);
    FittingMutationRoundTrip(path, fields, body);
    IfMatchReads(host, |body|, revision, token);
  }

  lemma IfMatchReads(host: string, length: nat, revision: nat, token: string)
    requires revision <= Service.U64_MAX && DistinctFields(MutationFields(host, length, revision, token))
    ensures var headers := FieldMap(MutationFields(host, length, revision, token));
            "if-match" in headers && Service.ParseStrongRevision(headers["if-match"]) == Some(revision)
  {
    FieldMapAt(MutationFields(host, length, revision, token), 7);
    assert Lower("If-Match") == "if-match";
    TagIsShort(revision);
    TrimTrimmed(Service.EntityTag(revision));
    Service.EntityTagIsExact(Service.EntityTag(revision), revision);
  }
}
