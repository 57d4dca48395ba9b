/**
 The server's two readers of the same bytes: the incremental framer that decides when one
 request is buffered, and the strict parser that is the authority on its meaning.
 */
module Web {
  import opened Wrappers
  import opened Ascii
  import opened HttpText

  const MAX_HEADER_BYTES: nat := 16384
  const MAX_HEADER_COUNT: nat := 64
  const MAX_BODY_BYTES: nat := 4096
  const MAX_REQUEST_BYTES: nat := MAX_HEADER_BYTES + 4 + MAX_BODY_BYTES
  const USIZE_MAX: nat := 0xffff_ffff_ffff_ffff

  const CONTENT_LENGTH: string := "content-length"
  const TRANSFER_ENCODING: string := "transfer-encoding"

  datatype RequestError = BadRequest | PayloadTooLarge | HttpVersionNotSupported | LengthRequired

  function ParseContentLength(value: string): Result<nat, RequestError> {
    if !CanonicalDigits(value) then Err(BadRequest)
    else if DecimalValue(value) > USIZE_MAX then Err(PayloadTooLarge)
    else Ok(DecimalValue(value))
  }

  // ---------------------------------------------------------------- framer

  datatype Frame = Incomplete | Complete | Rejected

  /** The body length a list of field lines announces; None when the framer refuses them. */
  function AnnouncedLength(lines: seq<string>): Option<Option<nat>> {
    if lines == [] then Some(None)
    else
      var last := lines[|lines| - 1];
      match AnnouncedLength(lines[..|lines| - 1])
      case None => None
      case Some(seen) => AnnounceOne(seen, last)
  }

  /** The number of body bytes a head asks for; None when the framer refuses the head. */
  function BodyLength(head: string): Option<nat> {
    if !ValidUtf8(head) then None
    else
      var lines := Split(head, CRLF);
      var parts := Split(lines[0], " ");
      if |parts| != 3 then None
      else
        match AnnouncedLength(lines[1..])
        case None => None
        case Some(None) => if parts[0] == "POST" then None else Some(0)
        case Some(Some(n)) => Some(n)
  }

  function FrameOf(raw: string): Frame {
    if |raw| > MAX_REQUEST_BYTES then Rejected
    else
      match Find(raw, HEAD_END)
      case None => if |raw| > MAX_HEADER_BYTES + 4 then Rejected else Incomplete
      case Some(end) =>
        if end > MAX_HEADER_BYTES then Rejected
        else
          match BodyLength(raw[..end])
          case None => Rejected
          case Some(n) =>
            if |raw| < end + 4 + n then Incomplete else if |raw| == end + 4 + n then Complete else Rejected
  }

  lemma {:induction false} AnnouncedLengthPrefix(lines: seq<string>, k: nat)
    requires k <= |lines| && AnnouncedLength(lines[..k]).None?
    ensures AnnouncedLength(lines).None?
    decreases |lines|
  {
    if k == |lines| {
      assert lines[..k] == lines;
    } else {
      assert lines[..|lines| - 1][..k] == lines[..k];
      AnnouncedLengthPrefix(lines[..|lines| - 1], k);
    }
  }

  function AnnounceOne(seen: Option<nat>, line: string): Option<Option<nat>> {
    if !FieldOk(line, Server) || Named(line, TRANSFER_ENCODING) then None
    else if !Named(line, CONTENT_LENGTH) then Some(seen)
    else if seen.Some? then None
    else
      match ParseContentLength(Value(line))
      case Err(_) => None
      case Ok(n) => if n > MAX_BODY_BYTES then None else Some(Some(n))
  }

  /** One turn of the framer's field loop. */
  lemma {:induction false} AnnouncedLengthNext(lines: seq<string>, k: nat, seen: Option<nat>)
    requires k < |lines| && AnnouncedLength(lines[..k]) == Some(seen)
    ensures AnnouncedLength(lines[..k + 1]) == AnnounceOne(seen, lines[k])
    ensures AnnounceOne(seen, lines[k]).None? ==> AnnouncedLength(lines).None?
  {
    assert lines[..k + 1] == lines[..k] + [lines[k]];
    AnnouncedLengthSnoc(lines[..k], lines[k], seen);
    if AnnouncedLength(lines[..k + 1]).None? { AnnouncedLengthPrefix(lines, k + 1); }
  }

  lemma {:induction false} AnnouncedLengthSnoc(front: seq<string>, last: string, seen: Option<nat>)
    requires AnnouncedLength(front) == Some(seen)
    ensures AnnouncedLength(front + [last]) == AnnounceOne(seen, last)
  {
    assert (front + [last])[..|front|] == front;
  }

  lemma {:induction false} AnnouncedLengthBounds(lines: seq<string>)
    ensures AnnouncedLength(lines).Some? && AnnouncedLength(lines).value.Some? ==>
              AnnouncedLength(lines).value.value <= MAX_BODY_BYTES
    ensures AnnouncedLength(lines).Some? ==> AllFieldsOk(lines, Server)
  {
    if lines != [] {
      AnnouncedLengthBounds(lines[..|lines| - 1]);
      assert lines == lines[..|lines| - 1] + [lines[|lines| - 1]];
    }
  }

  /** The checks on one line. */
  method AnnounceLine(seen: Option<nat>, line: string) returns (r: Option<Option<nat>>)
    ensures r == AnnounceOne(seen, line)
  {
    if line == "" || IsBlank(line[0]) { return None; }
    var colon := Find(line, ":");
    if colon.None? { return None; }
    var name, value := line[..colon.value], Trim(line[colon.value + 1..]);
    if name == "" || !AllTchar(name) { return None; }
    if !ValueOk(value, Server) { return None; }
    if Lower(name) == TRANSFER_ENCODING { return None; }
    r := Some(seen);
    if Lower(name) == CONTENT_LENGTH {
      if seen.Some? { return None; }
      var length := ParseContentLength(value);
      if length.Err? || length.value > MAX_BODY_BYTES { return None; }
      r := Some(Some(length.value));
    }
  }

  /** The framer's field loop. */
  method AnnouncedBody(fields: seq<string>) returns (r: Option<Option<nat>>)
    ensures r == AnnouncedLength(fields)
  {
    var contentLength: Option<nat> := None;
    for i := 0 to |fields|
      invariant AnnouncedLength(fields[..i]) == Some(contentLength)
    {
      AnnouncedLengthNext(fields, i, contentLength);
      var next := AnnounceLine(contentLength, fields[i]);
      if next.None? { return None; }
      contentLength := next.value;
    }
    assert fields[..|fields|] == fields;
    r := Some(contentLength);
  }

  /** Decides whether one complete request is buffered. */
  method RequestFrame(raw: string) returns (frame: Frame)
    ensures frame == FrameOf(raw)
  {
    if |raw| > MAX_REQUEST_BYTES { return Rejected; }
    var end := Find(raw, HEAD_END);
    if end.None? { return if |raw| > MAX_HEADER_BYTES + 4 then Rejected else Incomplete; }
    if end.value > MAX_HEADER_BYTES { return Rejected; }
    var head := raw[..end.value];
    if !ValidUtf8(head) { return Rejected; }
    var lines := Split(head, CRLF);
    var parts := Split(lines[0], " ");
    if |parts| != 3 { return Rejected; }
    var contentLength := AnnouncedBody(lines[1..]);
    if contentLength.None? { return Rejected; }
    if parts[0] == "POST" && contentLength.value.None? { return Rejected; }
    var expected := end.value + 4 + (if contentLength.value.Some? then contentLength.value.value else 0);
    // The source's overflow guard on the sum is dead: both parts are already bounded.
    assert expected <= MAX_REQUEST_BYTES by { AnnouncedLengthBounds(lines[1..]); }
    frame := if |raw| < expected then Incomplete else if |raw| == expected then Complete else Rejected;
  }

  lemma BodyLengthBounds(head: string)
    ensures BodyLength(head).Some? ==> BodyLength(head).value <= MAX_BODY_BYTES
  {
    AnnouncedLengthBounds(Split(head, CRLF)[1..]);
  }

  /** The framer is a prefix automaton: a complete request has only incomplete proper prefixes,
      every extension of it is rejected, and rejection is never taken back. */
  lemma FramerIsPrefixAutomaton(raw: string, more: string)
    requires more != ""
    ensures FrameOf(raw + more).Complete? ==> FrameOf(raw).Incomplete?
    ensures FrameOf(raw + more).Incomplete? ==> FrameOf(raw).Incomplete?
    ensures !FrameOf(raw).Incomplete? ==> FrameOf(raw + more).Rejected?
  {
    FindInPrefix(raw, more, HEAD_END);
    var end := Find(raw, HEAD_END);
    if end.Some? {
      assert (raw + more)[..end.value] == raw[..end.value];
      BodyLengthBounds(raw[..end.value]);
    }
  }

  /** Hence the bytes of a stream decide by themselves which prefix, if any, is the request. */
  lemma CompletePrefixIsUnique(wire: string, i: nat, j: nat)
    requires i <= |wire| && j <= |wire| && FrameOf(wire[..i]).Complete?
    ensures j < i ==> FrameOf(wire[..j]).Incomplete?
    ensures j > i ==> FrameOf(wire[..j]).Rejected?
  {
    if j < i {
      assert wire[..i] == wire[..j] + wire[j..i];
      FramerIsPrefixAutomaton(wire[..j], wire[j..i]);
    } else if j > i {
      assert wire[..j] == wire[..i] + wire[i..j];
      FramerIsPrefixAutomaton(wire[..i], wire[i..j]);
    }
  }

  /** What the announced length means, without the loop: well-formed lines, no transfer coding,
      and at most one length field, which carries the number. */
  ghost predicate Announces(lines: seq<string>, length: Option<nat>) {
    && AllFieldsOk(lines, Server)
    && (forall i :: 0 <= i < |lines| ==> !Named(lines[i], TRANSFER_ENCODING))
    && match length
       case None => forall i :: 0 <= i < |lines| ==> !Named(lines[i], CONTENT_LENGTH)
       case Some(n) => n <= MAX_BODY_BYTES && exists k :: CarriesLength(lines, k, n)
  }

  ghost predicate CarriesLength(lines: seq<string>, k: int, n: nat)
    requires AllFieldsOk(lines, Server)
  {
    && 0 <= k < |lines| && Named(lines[k], CONTENT_LENGTH) && ParseContentLength(Value(lines[k])) == Ok(n)
    && forall i :: 0 <= i < |lines| && i != k ==> !Named(lines[i], CONTENT_LENGTH)
  }

  lemma {:induction false} AnnouncedLengthMeaning(lines: seq<string>, length: Option<nat>)
    ensures AnnouncedLength(lines) == Some(length) <==> Announces(lines, length)
  {
    if lines != [] {
      var front, last := lines[..|lines| - 1], lines[|lines| - 1];
      assert lines == front + [last];
      AnnouncedLengthMeaning(front, length);
      AnnouncedLengthMeaning(front, None);
      if FieldOk(last, Server) { AnnouncesStep(front, last, length); }
      else { assert lines[|front|] == last; }
    }
  }

  lemma AnnouncesStep(front: seq<string>, last: string, length: Option<nat>)
    requires FieldOk(last, Server)
    ensures Named(last, TRANSFER_ENCODING) ==> !Announces(front + [last], length)
    ensures !Named(last, TRANSFER_ENCODING) && !Named(last, CONTENT_LENGTH) ==>
              (Announces(front + [last], length) <==> Announces(front, length))
    ensures !Named(last, TRANSFER_ENCODING) && Named(last, CONTENT_LENGTH) ==>
              (Announces(front + [last], length) <==>
                 Announces(front, None) && length.Some? && length.value <= MAX_BODY_BYTES
                 && ParseContentLength(Value(last)) == Ok(length.value))
  {
    var lines := front + [last];
    assert forall i :: 0 <= i < |front| ==> lines[i] == front[i];
    assert lines[|front|] == last;
    assert AllFieldsOk(lines, Server) <==> AllFieldsOk(front, Server) by {
      if AllFieldsOk(lines, Server) {
        forall i | 0 <= i < |front| ensures FieldOk(front[i], Server) { assert FieldOk(lines[i], Server); }
      }
    }
    if AllFieldsOk(front, Server) { CarriesStep(front, last, length); }
  }

  lemma CarriesStep(front: seq<string>, last: string, length: Option<nat>)
    requires FieldOk(last, Server) && AllFieldsOk(front, Server) && AllFieldsOk(front + [last], Server)
    ensures length.Some? && !Named(last, CONTENT_LENGTH) ==>
              ((exists k :: CarriesLength(front + [last], k, length.value)) <==>
               (exists k :: CarriesLength(front, k, length.value)))
    ensures length.Some? && Named(last, CONTENT_LENGTH) ==>
              ((exists k :: CarriesLength(front + [last], k, length.value)) <==>
                 ParseContentLength(Value(last)) == Ok(length.value)
                 && forall i :: 0 <= i < |front| ==> !Named(front[i], CONTENT_LENGTH))
  {
    var lines := front + [last];
    assert forall i :: 0 <= i < |front| ==> lines[i] == front[i];
    assert lines[|front|] == last;
    if length.Some? {
      var n := length.value;
      if Named(last, CONTENT_LENGTH) {
        if k :| CarriesLength(lines, k, n) { assert k == |front|; }
        var unnamed := forall i :: 0 <= i < |front| ==> !Named(front[i], CONTENT_LENGTH);
        if ParseContentLength(Value(last)) == Ok(n) && unnamed {
          assert CarriesLength(lines, |front|, n);
        }
      } else {
        if k :| CarriesLength(lines, k, n) { assert CarriesLength(front, k, n); }
        if k :| CarriesLength(front, k, n) { assert CarriesLength(lines, k, n); }
      }
    }
  }

  // ---------------------------------------------------------------- parser

  datatype Verb = Get | Post | Other

  datatype ParsedRequest = ParsedRequest(verb: Verb, target: string, headers: map<string, string>, body: string,
                                         contentLength: Option<nat>)

  predicate TargetOk(target: string) {
    && target != "" && target[0] == '/' && !("//" <= target)
    && forall i :: 0 <= i < |target| ==> '!' <= target[i] <= '~' && target[i] != '?' && target[i] != '#'
  }

  function VerbOf(text: string): Verb {
    if text == "GET" then Get else if text == "POST" then Post else Other
  }

  function ParseRequestLine(line: string): Result<(Verb, string), RequestError> {
    var parts := Split(line, " ");
    if |parts| != 3 || parts[0] == "" || parts[1] == "" || parts[2] == "" then Err(BadRequest)
    else if parts[2] != "HTTP/1.1" then Err(HttpVersionNotSupported)
    else if !AllTchar(parts[0]) || !TargetOk(parts[1]) then Err(BadRequest)
    else Ok((VerbOf(parts[0]), parts[1]))
  }

  const FORBIDDEN: seq<string> := [TRANSFER_ENCODING, "trailer", "upgrade", "proxy-connection"]

  function LengthOf(headers: map<string, string>): Result<Option<nat>, RequestError> {
    if CONTENT_LENGTH !in headers then Ok(None)
    else
      match ParseContentLength(headers[CONTENT_LENGTH])
      case Ok(n) => Ok(Some(n))
      case Err(error) => Err(error)
  }

  predicate HasForbidden(headers: map<string, string>) { exists k :: 0 <= k < |FORBIDDEN| && FORBIDDEN[k] in headers }

  /** The rules that relate verb, header fields and body. */
  function Interpret(verb: Verb, target: string, headers: map<string, string>, body: string)
    : Result<ParsedRequest, RequestError>
  {
    if HasForbidden(headers) then Err(BadRequest)
    else
      match LengthOf(headers)
      case Err(error) => Err(error)
      case Ok(length) =>
        if verb.Post? && length.None? then Err(LengthRequired)
        else if length.Some? && length.value > MAX_BODY_BYTES then Err(PayloadTooLarge)
        else if |body| != (if length.Some? then length.value else 0) then Err(BadRequest)
        else if verb.Get? && body != "" then Err(BadRequest)
        else Ok(ParsedRequest(verb, target, headers, body, length))
  }

  function Parse(raw: string): Result<ParsedRequest, RequestError> {
    match Find(raw, HEAD_END)
    case None => Err(if |raw| > MAX_HEADER_BYTES then PayloadTooLarge else BadRequest)
    case Some(end) =>
      if end > MAX_HEADER_BYTES then Err(PayloadTooLarge)
      else if !AllHeadChars(raw[..end]) then Err(BadRequest)
      else
        var lines := Split(raw[..end], CRLF);
        match ParseRequestLine(lines[0])
        case Err(error) => Err(error)
        case Ok((verb, target)) =>
          if |lines| - 1 > MAX_HEADER_COUNT then Err(BadRequest)
          else
            match HeaderMap(lines[1..], Server)
            case None => Err(BadRequest)
            case Some(headers) => Interpret(verb, target, headers, raw[end + 4..])
  }

  /** The parser's field loop; every failure is the same bad request. */
  method ParseFields(fields: seq<string>) returns (r: Option<map<string, string>>)
    ensures r == if |fields| > MAX_HEADER_COUNT then None else HeaderMap(fields, Server)
  {
    var headers: map<string, string> := map[];
    for i := 0 to |fields|
      invariant i <= MAX_HEADER_COUNT
      invariant HeaderMap(fields[..i], Server) == Some(headers)
    {
      var line := fields[i];
      HeaderMapNext(fields, i, Server);
      if i + 1 > MAX_HEADER_COUNT || line == "" || IsBlank(line[0]) { return None; }
      var colon := Find(line, ":");
      if colon.None? { return None; }
      var name, value := line[..colon.value], Trim(line[colon.value + 1..]);
      if name == "" || !AllTchar(name) { return None; }
      if !ValueOk(value, Server) { return None; }
      if Lower(name) in headers { return None; }
      headers := headers[Lower(name) := value];
    }
    assert fields[..|fields|] == fields;
    r := Some(headers);
  }

  /** The strict parser. */
  method ParseRequest(raw: string) returns (r: Result<ParsedRequest, RequestError>)
    ensures r == Parse(raw)
  {
    var end := Find(raw, HEAD_END);
    if end.None? { return Err(if |raw| > MAX_HEADER_BYTES then PayloadTooLarge else BadRequest); }
    if end.value > MAX_HEADER_BYTES { return Err(PayloadTooLarge); }
    if !AllHeadChars(raw[..end.value]) { return Err(BadRequest); }
    var lines := Split(raw[..end.value], CRLF);
    var requestLine :- ParseRequestLine(lines[0]);
    var headers := ParseFields(lines[1..]);
    if headers.None? { return Err(BadRequest); }
    r := Interpret(requestLine.0, requestLine.1, headers.value, raw[end.value + 4..]);
  }

  // ---------------------------------------------------------------- agreement

  /** On lines with a header map the framer and the parser read the same length. */
  lemma {:induction false} LengthsAgree(lines: seq<string>, length: Option<nat>)
    requires HeaderMap(lines, Server).Some?
    ensures var m := HeaderMap(lines, Server).value;
            AnnouncedLength(lines) == Some(length) <==>
              TRANSFER_ENCODING !in m && LengthOf(m) == Ok(length) && (length.Some? ==> length.value <= MAX_BODY_BYTES)
  {
    if lines != [] {
      LengthsAgree(lines[..|lines| - 1], length);
      LengthsAgree(lines[..|lines| - 1], None);
    }
  }

  /** What the parser demands beyond a complete frame. */
  ghost predicate Strict(raw: string) {
    Find(raw, HEAD_END).Some? &&
    var head := raw[..Find(raw, HEAD_END).value];
    var lines := Split(head, CRLF);
    && AllHeadChars(head) && ParseRequestLine(lines[0]).Ok? && |lines| - 1 <= MAX_HEADER_COUNT
    && HeaderMap(lines[1..], Server).Some? && !HasForbidden(HeaderMap(lines[1..], Server).value)
    && (ParseRequestLine(lines[0]).value.0.Get? ==> |raw| == |head| + 4)
  }

  /** The parser accepts exactly the complete frames that are also strict: whatever it accepts
      the framer called complete, and the two never disagree about where the body ends. */
  lemma ParserAcceptsStrictFrames(raw: string)
    ensures Parse(raw).Ok? <==> FrameOf(raw).Complete? && Strict(raw)
  {
    if Strict(raw) && Find(raw, HEAD_END).value <= MAX_HEADER_BYTES {
      var end := Find(raw, HEAD_END).value;
      var lines := Split(raw[..end], CRLF);
      HeadCharsAreUtf8(raw[..end], 0);
      var m := HeaderMap(lines[1..], Server).value;
      assert FORBIDDEN[0] == TRANSFER_ENCODING;
      if LengthOf(m).Ok? { LengthsAgree(lines[1..], LengthOf(m).value); }
      if AnnouncedLength(lines[1..]).Some? { LengthsAgree(lines[1..], AnnouncedLength(lines[1..]).value); }
    }
  }

  /** A buffer the framer rejects, and a complete request followed by anything, never parses. */
  lemma RejectedNeverParses(raw: string, more: string)
    ensures FrameOf(raw).Rejected? ==> Parse(raw).Err?
    ensures FrameOf(raw).Complete? && more != "" ==> Parse(raw + more).Err?
  {
    ParserAcceptsStrictFrames(raw);
    if FrameOf(raw).Complete? && more != "" {
      FramerIsPrefixAutomaton(raw, more);
      ParserAcceptsStrictFrames(raw + more);
    }
  }

  // ---------------------------------------------------------------- which error

  ghost predicate IsWord(s: string) { s != "" && Without(s, ' ') }

  /** A request line of three words between single spaces. */
  ghost predicate IsRequestLine(line: string, verb: string, target: string, version: string) {
    IsWord(verb) && IsWord(target) && IsWord(version) && line == verb + " " + target + " " + version
  }

  lemma NotBefore(s: string, c: char, end: nat)
    requires end <= |s| && forall j: nat :: j < end ==> !At(s, j, [c])
    ensures Without(s[..end], c)
  {
    forall j | 0 <= j < end
      ensures s[j] != c
    {
      assert s[j..j + 1] == [s[j]];
      assert !At(s, j, [c]);
    }
  }

  /** Splitting at a character undoes joining and leaves no occurrence behind. */
  lemma {:induction false} SplitIsExact(s: string, c: char)
    ensures Join(Split(s, [c]), [c]) == s
    ensures forall part :: part in Split(s, [c]) ==> Without(part, c)
    decreases |s|
  {
    var found := Find(s, [c]);
    if found.None? {
      NotBefore(s, c, |s|);
      assert s[..|s|] == s;
    } else {
      var i := found.value;
      var rest := Split(s[i + 1..], [c]);
      NotBefore(s, c, i);
      AtFirst(s, i, [c]);
      SplitIsExact(s[i + 1..], c);
      JoinCons(s[..i], rest, [c]);
      assert Split(s, [c]) == [s[..i]] + rest;
      assert s == s[..i] + [c] + s[i + 1..];
    }
  }

  lemma JoinCons(first: string, rest: seq<string>, p: string)
    requires rest != []
    ensures Join([first] + rest, p) == first + p + Join(rest, p)
  {
    assert ([first] + rest)[1..] == rest;
  }

  lemma JoinTwo(words: seq<string>)
    requires |words| == 2
    ensures Join(words, " ") == words[0] + " " + words[1]
  {
    assert Join(words[1..], " ") == words[1..][0];
  }

  lemma JoinThree(words: seq<string>)
    requires |words| == 3
    ensures Join(words, " ") == words[0] + " " + words[1] + " " + words[2]
  {
    JoinTwo(words[1..]);
    var rest := words[1] + " " + words[2];
    assert Join(words, " ") == words[0] + " " + rest;
  }

  lemma ThreeWords(line: string, verb: string, target: string, version: string)
    ensures IsRequestLine(line, verb, target, version) <==>
              Split(line, " ") == [verb, target, version] && verb != "" && target != "" && version != ""
  {
    var words := [verb, target, version];
    JoinThree(words);
    if IsRequestLine(line, verb, target, version) {
      SplitJoin(words, " ");
    }
    SplitIsExact(line, ' ');
    if Split(line, " ") == words {
      assert words[0] == verb && words[1] == target && words[2] == version;
    }
  }

  /** A head of at most 16384 bytes, all of which a head may hold. */
  ghost predicate ReadableHead(raw: string) {
    Find(raw, HEAD_END).Some? && Find(raw, HEAD_END).value <= 16384 && AllHeadChars(raw[..Find(raw, HEAD_END).value])
  }

  ghost function Line(raw: string): string
    requires ReadableHead(raw)
  {
    Split(raw[..Find(raw, HEAD_END).value], CRLF)[0]
  }

  ghost function Fields(raw: string): seq<string>
    requires ReadableHead(raw)
  {
    Split(raw[..Find(raw, HEAD_END).value], CRLF)[1..]
  }

  /** A field that no request may carry. */
  ghost predicate Refusable(line: string)
    requires HasColon(line)
  {
    Named(line, "transfer-encoding") || Named(line, "trailer") || Named(line, "upgrade")
    || Named(line, "proxy-connection")
  }

  /** A head that is in order as far as its line and its fields go. */
  ghost predicate OrderlyHead(raw: string, verb: string) {
    && ReadableHead(raw)
    && (exists target :: IsRequestLine(Line(raw), verb, target, "HTTP/1.1") && TargetOk(target)) && AllTchar(verb)
    && InOrder(Fields(raw))
  }

  ghost predicate InOrder(lines: seq<string>) {
    && |lines| <= 64 && AllFieldsOk(lines, Server) && DistinctNames(lines, Server)
    && forall i :: 0 <= i < |lines| ==> !Refusable(lines[i])
  }

  ghost predicate AnnouncesOver(lines: seq<string>, i: int)
    requires AllFieldsOk(lines, Server)
  {
    && 0 <= i < |lines| && Named(lines[i], "content-length")
    && CanonicalDigits(Value(lines[i])) && DecimalValue(Value(lines[i])) > 4096
  }

  ghost predicate Unannounced(lines: seq<string>)
    requires AllFieldsOk(lines, Server)
  {
    forall i :: 0 <= i < |lines| ==> !Named(lines[i], "content-length")
  }

  lemma LineErrors(line: string)
    ensures ParseRequestLine(line) == Err(HttpVersionNotSupported) <==>
            exists verb, target, version :: IsRequestLine(line, verb, target, version) && version != "HTTP/1.1"
    ensures ParseRequestLine(line).Err? ==> ParseRequestLine(line).error in {BadRequest, HttpVersionNotSupported}
  {
    var parts := Split(line, " ");
    if |parts| == 3 {
      assert parts == [parts[0], parts[1], parts[2]];
      ThreeWords(line, parts[0], parts[1], parts[2]);
    }
    if verb, target, version :| IsRequestLine(line, verb, target, version) && version != "HTTP/1.1" {
      ThreeWords(line, verb, target, version);
    }
  }

  lemma LineAccepts(line: string, verb: string)
    ensures (exists target :: IsRequestLine(line, verb, target, "HTTP/1.1") && TargetOk(target)) && AllTchar(verb) <==>
            ParseRequestLine(line).Ok? && Split(line, " ")[0] == verb
    ensures ParseRequestLine(line).Ok? ==> ParseRequestLine(line).value.0 == VerbOf(Split(line, " ")[0])
  {
    var parts := Split(line, " ");
    if |parts| == 3 {
      assert parts == [parts[0], parts[1], parts[2]];
      ThreeWords(line, parts[0], parts[1], parts[2]);
    }
    if target :| IsRequestLine(line, verb, target, "HTTP/1.1") && TargetOk(target) {
      ThreeWords(line, verb, target, "HTTP/1.1");
    }
  }

  lemma KeyIsField(lines: seq<string>, m: map<string, string>, key: string)
    requires AllFieldsOk(lines, Server) && Holds(m, lines, Server)
    ensures key in m <==> exists i :: 0 <= i < |lines| && Named(lines[i], key)
    ensures forall i :: 0 <= i < |lines| && Named(lines[i], key) ==> key in m && m[key] == Value(lines[i])
  {
    if key in m { var i :| 0 <= i < |lines| && Lower(Name(lines[i])) == key; assert Named(lines[i], key); }
  }

  lemma ForbiddenIsField(lines: seq<string>, m: map<string, string>)
    requires AllFieldsOk(lines, Server) && Holds(m, lines, Server)
    ensures HasForbidden(m) <==> exists i :: 0 <= i < |lines| && Refusable(lines[i])
  {
    assert FORBIDDEN[0] in m || FORBIDDEN[1] in m || FORBIDDEN[2] in m || FORBIDDEN[3] in m <==> HasForbidden(m);
    KeyIsField(lines, m, "transfer-encoding");
    KeyIsField(lines, m, "trailer");
    KeyIsField(lines, m, "upgrade");
    KeyIsField(lines, m, "proxy-connection");
  }

  /** The parser finds a length that is too large. */
  predicate TooLong(length: Result<Option<nat>, RequestError>) {
    length == Err(PayloadTooLarge) || (length.Ok? && length.value.Some? && length.value.value > MAX_BODY_BYTES)
  }

  lemma NoLengthField(lines: seq<string>, m: map<string, string>)
    requires AllFieldsOk(lines, Server) && Holds(m, lines, Server)
    ensures LengthOf(m) == Ok(None) <==> Unannounced(lines)
  {
    KeyIsField(lines, m, CONTENT_LENGTH);
  }

  lemma LengthIsField(lines: seq<string>, m: map<string, string>)
    requires AllFieldsOk(lines, Server) && Holds(m, lines, Server)
    ensures TooLong(LengthOf(m)) <==> exists i :: AnnouncesOver(lines, i)
  {
    KeyIsField(lines, m, CONTENT_LENGTH);
    if i :| AnnouncesOver(lines, i) {
      OverIsTooLong(lines, m, i);
    } else if CONTENT_LENGTH in m {
      var i :| 0 <= i < |lines| && Named(lines[i], CONTENT_LENGTH);
      OverIsTooLong(lines, m, i);
    }
  }

  lemma OverIsTooLong(lines: seq<string>, m: map<string, string>, i: nat)
    requires AllFieldsOk(lines, Server) && i < |lines| && Named(lines[i], CONTENT_LENGTH)
    requires CONTENT_LENGTH in m && m[CONTENT_LENGTH] == Value(lines[i])
    ensures TooLong(LengthOf(m)) <==> AnnouncesOver(lines, i)
  {
  }

  /** What the rules that relate line, fields and body can answer. */
  lemma InterpretErrors(verb: Verb, target: string, headers: map<string, string>, body: string)
    ensures var r := Interpret(verb, target, headers, body);
            && r != Err(HttpVersionNotSupported)
            && (r == Err(LengthRequired) <==> !HasForbidden(headers) && verb.Post? && LengthOf(headers) == Ok(None))
            && (r == Err(PayloadTooLarge) <==> !HasForbidden(headers) && TooLong(LengthOf(headers)))
  {
  }

  ghost function Content(raw: string): string
    requires ReadableHead(raw)
  {
    raw[Find(raw, HEAD_END).value + 4..]
  }

  lemma ParseReadable(raw: string)
    requires ReadableHead(raw)
    ensures Parse(raw) == match ParseRequestLine(Line(raw))
                          case Err(error) => Err(error)
                          case Ok((verb, target)) =>
                            if |Fields(raw)| > 64 || HeaderMap(Fields(raw), Server).None? then Err(BadRequest)
                            else Interpret(verb, target, HeaderMap(Fields(raw), Server).value, Content(raw))
  {
  }

  /** The errors of the fields behind a good request line. */
  lemma FieldErrors(lines: seq<string>, verb: Verb, target: string, body: string)
    ensures HeaderMap(lines, Server).Some? <==> AllFieldsOk(lines, Server) && DistinctNames(lines, Server)
    ensures HeaderMap(lines, Server).Some? ==>
              var r := Interpret(verb, target, HeaderMap(lines, Server).value, body);
              var plain := forall i :: 0 <= i < |lines| ==> !Refusable(lines[i]);
              && r != Err(HttpVersionNotSupported)
              && (r == Err(LengthRequired) <==> plain && verb.Post? && Unannounced(lines))
              && (r == Err(PayloadTooLarge) <==> plain && exists i :: AnnouncesOver(lines, i))
  {
    HeaderMapMeaning(lines, Server);
    if HeaderMap(lines, Server).Some? {
      var m := HeaderMap(lines, Server).value;
      ForbiddenIsField(lines, m);
      NoLengthField(lines, m);
      LengthIsField(lines, m);
      InterpretErrors(verb, target, m, body);
    }
  }

  /** The errors of a readable head, from its line and its fields. */
  lemma HeadErrors(raw: string)
    requires ReadableHead(raw)
    ensures var parsed := ParseRequestLine(Line(raw));
            && (Parse(raw) == Err(HttpVersionNotSupported) <==> parsed == Err(HttpVersionNotSupported))
            && (Parse(raw) == Err(LengthRequired) <==>
                parsed.Ok? && InOrder(Fields(raw)) && parsed.value.0.Post? && Unannounced(Fields(raw)))
            && (Parse(raw) == Err(PayloadTooLarge) <==>
                parsed.Ok? && InOrder(Fields(raw)) && exists i :: AnnouncesOver(Fields(raw), i))
  {
    ParseReadable(raw);
    LineErrors(Line(raw));
    var parsed := ParseRequestLine(Line(raw));
    if parsed.Ok? { FieldErrors(Fields(raw), parsed.value.0, parsed.value.1, Content(raw)); }
  }

  lemma OrderlyLine(raw: string, verb: string)
    requires ReadableHead(raw)
    ensures OrderlyHead(raw, verb) <==>
            ParseRequestLine(Line(raw)).Ok? && Split(Line(raw), " ")[0] == verb && InOrder(Fields(raw))
    ensures ParseRequestLine(Line(raw)).Ok? && Split(Line(raw), " ")[0] == verb ==>
              (ParseRequestLine(Line(raw)).value.0.Post? <==> verb == "POST")
              && (ParseRequestLine(Line(raw)).value.0.Get? <==> verb == "GET")
  {
    LineAccepts(Line(raw), verb);
  }

  predicate HeadTooLong(raw: string) {
    if Find(raw, HEAD_END).None? then |raw| > 16384 else Find(raw, HEAD_END).value > 16384
  }

  lemma UnreadableErrors(raw: string)
    ensures HeadTooLong(raw) ==> !ReadableHead(raw) && Parse(raw) == Err(PayloadTooLarge)
    ensures !HeadTooLong(raw) && !ReadableHead(raw) ==> Parse(raw) == Err(BadRequest)
  {
  }

  /** An orderly head that announces too many bytes. */
  ghost predicate BodyTooLong(raw: string, verb: string) {
    OrderlyHead(raw, verb) && exists i :: AnnouncesOver(Fields(raw), i)
  }

  ghost predicate OtherVersion(raw: string) {
    ReadableHead(raw)
    && exists verb, target, version :: IsRequestLine(Line(raw), verb, target, version) && version != "HTTP/1.1"
  }

  /** Which error a request meets, in terms of its bytes: an unsupported version is seen before the
      fields are, a missing length only in an orderly POST, and too large is the head or the length
      that an orderly head announces.  Everything else that fails is a bad request. */
  lemma ErrorsAreExact(raw: string)
    ensures Parse(raw) == Err(HttpVersionNotSupported) <==> OtherVersion(raw)
    ensures Parse(raw) == Err(LengthRequired) <==> OrderlyHead(raw, "POST") && Unannounced(Fields(raw))
    ensures Parse(raw) == Err(PayloadTooLarge) <==> HeadTooLong(raw) || exists verb :: BodyTooLong(raw, verb)
  {
    UnreadableErrors(raw);
    if ReadableHead(raw) {
      HeadErrors(raw);
      LineErrors(Line(raw));
      OrderlyLine(raw, "POST");
      LargeBody(raw);
    }
  }

  lemma LargeBody(raw: string)
    requires ReadableHead(raw)
    ensures (exists verb :: BodyTooLong(raw, verb)) <==>
            ParseRequestLine(Line(raw)).Ok? && InOrder(Fields(raw)) && exists i :: AnnouncesOver(Fields(raw), i)
  {
    var verb := Split(Line(raw), " ")[0];
    OrderlyLine(raw, verb);
    if InOrder(Fields(raw)) {
      assert BodyTooLong(raw, verb) <==>
             ParseRequestLine(Line(raw)).Ok? && exists i :: AnnouncesOver(Fields(raw), i);
    }
    if other :| BodyTooLong(raw, other) { OrderlyLine(raw, other); }
  }
}
