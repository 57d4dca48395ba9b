/**
 The text of an HTTP/1.1 head, shared by the framer, the server's parser and the client's
 parser: searching, splitting into lines, field lines and the header map.  A byte is a
 character below 256.
 */
module HttpText {
  import opened Wrappers
  import opened Ascii

  const CRLF: string := "\r\n"
  const HEAD_END: string := "\r\n\r\n"

  // ---------------------------------------------------------------- searching

  predicate At(s: string, i: nat, p: string) { i + |p| <= |s| && s[i..i + |p|] == p }

  function FindFrom(s: string, p: string, from: nat): (r: Option<nat>)
    ensures r.Some? ==> from <= r.value && At(s, r.value, p) && forall j: nat :: from <= j < r.value ==> !At(s, j, p)
    ensures r.None? ==> forall j: nat :: from <= j ==> !At(s, j, p)
    decreases |s| - from
  {
    if from + |p| > |s| then None
    else if At(s, from, p) then Some(from)
    else FindFrom(s, p, from + 1)
  }

  /** The first occurrence. */
  function Find(s: string, p: string): (r: Option<nat>)
    ensures r.Some? ==> At(s, r.value, p) && forall j: nat :: j < r.value ==> !At(s, j, p)
    ensures r.None? ==> forall j: nat :: !At(s, j, p)
  {
    FindFrom(s, p, 0)
  }

  lemma FindIs(s: string, p: string, i: nat)
    requires At(s, i, p) && forall j: nat :: j < i ==> !At(s, j, p)
    ensures Find(s, p) == Some(i)
  {
  }

  /** More input can only add a first occurrence that touches it. */
  lemma FindInPrefix(s: string, t: string, p: string)
    ensures Find(s, p).Some? ==> Find(s + t, p) == Find(s, p)
    ensures Find(s, p).None? && Find(s + t, p).Some? ==> Find(s + t, p).value + |p| > |s|
  {
    forall i: nat | i + |p| <= |s|
      ensures At(s + t, i, p) <==> At(s, i, p)
    {
      assert (s + t)[i..i + |p|] == s[i..i + |p|];
    }
    if Find(s, p).Some? { FindIs(s + t, p, Find(s, p).value); }
  }

  lemma AtHeadEnd(s: string, i: nat)
    ensures At(s, i, HEAD_END) <==>
            i + 4 <= |s| && s[i] == '\r' && s[i + 1] == '\n' && s[i + 2] == '\r' && s[i + 3] == '\n'
  {
    if i + 4 <= |s| { assert s[i..i + 4] == [s[i], s[i + 1], s[i + 2], s[i + 3]]; }
  }

  // ---------------------------------------------------------------- splitting and joining

  function Split(s: string, p: string): (parts: seq<string>)
    requires p != ""
    ensures |parts| >= 1
    decreases |s|
  {
    match Find(s, p)
    case None => [s]
    case Some(i) => [s[..i]] + Split(s[i + |p|..], p)
  }

  function Join(lines: seq<string>, p: string): string
    requires lines != []
  {
    if |lines| == 1 then lines[0] else lines[0] + p + Join(lines[1..], p)
  }

  ghost predicate Without(s: string, c: char) { c !in s }

  ghost predicate PlainLine(line: string) { line != "" && Without(line, '\r') }

  lemma AtFirst(s: string, j: nat, p: string)
    requires At(s, j, p) && p != ""
    ensures s[j] == p[0]
  {
    assert s[j..j + |p|][0] == s[j];
  }

  lemma FindFirstChar(a: string, rest: string, p: string)
    requires p != "" && Without(a, p[0]) && p <= rest
    ensures Find(a + rest, p) == Some(|a|)
  {
    var s := a + rest;
    assert s[|a|..|a| + |p|] == rest[..|p|];
    forall j: nat | j < |a|
      ensures !At(s, j, p)
    {
      if At(s, j, p) { AtFirst(s, j, p); }
    }
    FindIs(s, p, |a|);
  }

  lemma FindAbsent(s: string, p: string)
    requires p != "" && Without(s, p[0])
    ensures Find(s, p).None?
  {
    forall j: nat
      ensures !At(s, j, p)
    {
      if At(s, j, p) { AtFirst(s, j, p); }
    }
  }

  /** Joining is undone by splitting when no part holds the separator's first character. */
  lemma {:induction false} SplitJoin(lines: seq<string>, p: string)
    requires lines != [] && p != "" && forall l :: l in lines ==> Without(l, p[0])
    ensures Split(Join(lines, p), p) == lines
  {
    assert lines[0] in lines;
    if |lines| == 1 {
      FindAbsent(lines[0], p);
    } else {
      var rest := Join(lines[1..], p);
      SplitJoin(lines[1..], p);
      var s := lines[0] + (p + rest);
      assert Join(lines, p) == s;
      FindFirstChar(lines[0], p + rest, p);
      assert s[|lines[0]| + |p|..] == rest;
      assert s[..|lines[0]|] == lines[0];
    }
  }

  /** A head of non-empty lines ends exactly where its blank line starts. */
  lemma {:induction false} HeadEndOfMessage(lines: seq<string>, body: string)
    requires lines != [] && forall l :: l in lines ==> PlainLine(l)
    ensures Find(Join(lines, CRLF) + HEAD_END + body, HEAD_END) == Some(|Join(lines, CRLF)|)
  {
    var first := lines[0];
    assert first in lines;
    if |lines| == 1 {
      assert first + HEAD_END + body == first + (HEAD_END + body);
      FindFirstChar(first, HEAD_END + body, HEAD_END);
    } else {
      var tail := Join(lines[1..], CRLF);
      var rest := tail + HEAD_END + body;
      HeadEndOfMessage(lines[1..], body);
      assert Join(lines, CRLF) + HEAD_END + body == first + CRLF + rest;
      JoinStartsWithLine(lines[1..]);
      SkipLine(first, rest, |tail|);
    }
  }

  lemma JoinStartsWithLine(lines: seq<string>)
    requires lines != [] && forall l :: l in lines ==> PlainLine(l)
    ensures Join(lines, CRLF) != "" && Join(lines, CRLF)[0] != '\r'
  {
    assert lines[0] in lines;
    assert lines[0][0] in lines[0];
  }

  lemma SkipLine(first: string, rest: string, n: nat)
    requires Without(first, '\r') && rest != "" && rest[0] != '\r' && Find(rest, HEAD_END) == Some(n)
    ensures Find(first + CRLF + rest, HEAD_END) == Some(|first| + 2 + n)
  {
    var s := first + CRLF + rest;
    var k := |first| + 2;
    assert s[k + n..k + n + 4] == rest[n..n + 4];
    forall j: nat | j < k + n
      ensures !At(s, j, HEAD_END)
    {
      AtHeadEnd(s, j);
      if j >= k {
        AtHeadEnd(rest, j - k);
        assert !At(rest, j - k, HEAD_END);
      }
    }
    FindIs(s, HEAD_END, k + n);
  }

  // ---------------------------------------------------------------- UTF-8

  predicate Between(c: char, low: int, high: int) { low <= c as int <= high }

  /** Length of the well-formed UTF-8 sequence at `i`, by the table of section 4 of RFC 3629. */
  function Utf8Width(s: string, i: nat): (width: nat)
    requires i < |s|
    ensures i + width <= |s|
  {
    var a := s[i];
    if Between(a, 0, 0x7f) then 1
    else if i + 1 >= |s| then 0
    else
      var b := s[i + 1];
      if Between(a, 0xc2, 0xdf) && Between(b, 0x80, 0xbf) then 2
      else if i + 2 >= |s| || !Between(s[i + 2], 0x80, 0xbf) then 0
      else if (a as int == 0xe0 && Between(b, 0xa0, 0xbf))
              || ((Between(a, 0xe1, 0xec) || Between(a, 0xee, 0xef)) && Between(b, 0x80, 0xbf))
              || (a as int == 0xed && Between(b, 0x80, 0x9f)) then 3
      else if i + 3 >= |s| || !Between(s[i + 3], 0x80, 0xbf) then 0
      else if (a as int == 0xf0 && Between(b, 0x90, 0xbf))
              || (Between(a, 0xf1, 0xf3) && Between(b, 0x80, 0xbf))
              || (a as int == 0xf4 && Between(b, 0x80, 0x8f)) then 4
      else 0
  }

  predicate ValidUtf8From(s: string, i: nat)
    requires i <= |s|
    decreases |s| - i
  {
    i == |s| || (Utf8Width(s, i) > 0 && ValidUtf8From(s, i + Utf8Width(s, i)))
  }

  predicate ValidUtf8(s: string) { ValidUtf8From(s, 0) }

  predicate HeadChar(c: char) { c == '\t' || IsPrintable(c) || c == '\r' || c == '\n' }

  predicate AllHeadChars(s: string) { forall i :: 0 <= i < |s| ==> HeadChar(s[i]) }

  lemma {:induction false} HeadCharsAreUtf8(s: string, i: nat)
    requires AllHeadChars(s) && i <= |s|
    ensures ValidUtf8From(s, i)
    decreases |s| - i
  {
    if i < |s| { HeadCharsAreUtf8(s, i + 1); }
  }

  // ---------------------------------------------------------------- field lines

  datatype Field = Field(name: string, value: string)

  function HasColon(line: string): bool { Find(line, ":").Some? }

  function Name(line: string): string
    requires HasColon(line)
  {
    line[..Find(line, ":").value]
  }

  function Value(line: string): string
    requires HasColon(line)
  {
    Trim(line[Find(line, ":").value + 1..])
  }

  /** The server reads values of printable characters; the client also tolerates tabs inside. */
  datatype Reader = Server | Client

  predicate ValidName(name: string) { name != "" && AllTchar(name) }

  predicate ValueOk(value: string, reader: Reader) {
    forall i :: 0 <= i < |value| ==> IsPrintable(value[i]) || (reader.Client? && value[i] == '\t')
  }

  /** What a reader demands of one field line (section 5 of RFC 9112). */
  predicate FieldOk(line: string, reader: Reader) {
    line != "" && !IsBlank(line[0]) && HasColon(line) && ValidName(Name(line)) && ValueOk(Value(line), reader)
  }

  predicate Named(line: string, name: string)
    requires HasColon(line)
  {
    Lower(Name(line)) == name
  }

  /** Field lines become a map from lower-case names; a repeated name is refused. */
  function HeaderMap(lines: seq<string>, reader: Reader): Option<map<string, string>> {
    if lines == [] then Some(map[])
    else
      var last := lines[|lines| - 1];
      match HeaderMap(lines[..|lines| - 1], reader)
      case None => None
      case Some(m) =>
        if !FieldOk(last, reader) || Lower(Name(last)) in m then None
        else Some(m[Lower(Name(last)) := Value(last)])
  }

  ghost predicate AllFieldsOk(lines: seq<string>, reader: Reader) {
    forall i :: 0 <= i < |lines| ==> FieldOk(lines[i], reader)
  }

  ghost predicate DistinctNames(lines: seq<string>, reader: Reader)
    requires AllFieldsOk(lines, reader)
  {
    forall i, j :: 0 <= i < j < |lines| ==> Lower(Name(lines[i])) != Lower(Name(lines[j]))
  }

  ghost predicate Holds(m: map<string, string>, lines: seq<string>, reader: Reader)
    requires AllFieldsOk(lines, reader)
  {
    && (forall i :: 0 <= i < |lines| ==> Lower(Name(lines[i])) in m && m[Lower(Name(lines[i]))] == Value(lines[i]))
    && (forall key :: key in m ==> exists i :: 0 <= i < |lines| && Lower(Name(lines[i])) == key)
  }

  /** The map exists exactly for well-formed lines with pairwise different names, and it holds those lines. */
  lemma {:induction false} HeaderMapMeaning(lines: seq<string>, reader: Reader)
    ensures HeaderMap(lines, reader).Some? <==> AllFieldsOk(lines, reader) && DistinctNames(lines, reader)
    ensures HeaderMap(lines, reader).Some? ==> Holds(HeaderMap(lines, reader).value, lines, reader)
  {
    if lines != [] {
      var front, last := lines[..|lines| - 1], lines[|lines| - 1];
      HeaderMapMeaning(front, reader);
      assert lines == front + [last];
      if HeaderMap(front, reader).Some? {
        HeaderMapStep(front, last, HeaderMap(front, reader).value, reader);
      } else if AllFieldsOk(lines, reader) && DistinctNames(lines, reader) {
        FrontIsDistinct(front, last, reader);
      }
    }
  }

  lemma FrontIsDistinct(front: seq<string>, last: string, reader: Reader)
    requires AllFieldsOk(front + [last], reader) && DistinctNames(front + [last], reader)
    ensures AllFieldsOk(front, reader) && DistinctNames(front, reader)
  {
    var lines := front + [last];
    assert forall i :: 0 <= i < |front| ==> lines[i] == front[i];
  }

  lemma HeaderMapStep(front: seq<string>, last: string, m: map<string, string>, reader: Reader)
    requires AllFieldsOk(front, reader) && DistinctNames(front, reader) && Holds(m, front, reader)
    ensures AllFieldsOk(front + [last], reader) <==> FieldOk(last, reader)
    ensures FieldOk(last, reader) ==> (DistinctNames(front + [last], reader) <==> Lower(Name(last)) !in m)
    ensures FieldOk(last, reader) && Lower(Name(last)) !in m ==>
              Holds(m[Lower(Name(last)) := Value(last)], front + [last], reader)
  {
    var lines := front + [last];
    assert lines[|front|] == last;
    if FieldOk(last, reader) {
      forall i | 0 <= i < |lines| ensures FieldOk(lines[i], reader) { assert i < |front| ==> lines[i] == front[i]; }
      DistinctStep(front, last, m, reader);
      if Lower(Name(last)) !in m { HoldsAfterInsert(front, last, m, reader); }
    }
  }

  lemma DistinctStep(front: seq<string>, last: string, m: map<string, string>, reader: Reader)
    requires AllFieldsOk(front, reader) && DistinctNames(front, reader) && Holds(m, front, reader)
    requires AllFieldsOk(front + [last], reader) && FieldOk(last, reader)
    ensures DistinctNames(front + [last], reader) <==> Lower(Name(last)) !in m
  {
    var lines := front + [last];
    if Lower(Name(last)) in m {
      var i :| 0 <= i < |front| && Lower(Name(front[i])) == Lower(Name(last));
      assert lines[i] == front[i] && lines[|front|] == last;
    } else {
      forall i, j | 0 <= i < j < |lines|
        ensures Lower(Name(lines[i])) != Lower(Name(lines[j]))
      {
        assert lines[i] == front[i];
        if j < |front| { assert lines[j] == front[j]; }
      }
    }
  }

  lemma HoldsAfterInsert(front: seq<string>, last: string, m: map<string, string>, reader: Reader)
    requires AllFieldsOk(front, reader) && AllFieldsOk(front + [last], reader) && Holds(m, front, reader)
             && FieldOk(last, reader) && Lower(Name(last)) !in m
    ensures Holds(m[Lower(Name(last)) := Value(last)], front + [last], reader)
  {
    var lines, m' := front + [last], m[Lower(Name(last)) := Value(last)];
    forall i | 0 <= i < |lines|
      ensures Lower(Name(lines[i])) in m' && m'[Lower(Name(lines[i]))] == Value(lines[i])
    {
      if i < |front| { assert lines[i] == front[i]; }
    }
    forall key | key in m'
      ensures exists i :: 0 <= i < |lines| && Lower(Name(lines[i])) == key
    {
      if key in m {
        var i :| 0 <= i < |front| && Lower(Name(front[i])) == key;
        assert lines[i] == front[i];
      } else {
        assert lines[|front|] == last;
      }
    }
  }

  /** A reader that fails on some prefix of the lines fails on all of them. */
  lemma {:induction false} HeaderMapPrefix(lines: seq<string>, k: nat, reader: Reader)
    requires k <= |lines| && HeaderMap(lines[..k], reader).None?
    ensures HeaderMap(lines, reader).None?
    decreases |lines|
  {
    if k == |lines| {
      assert lines[..k] == lines;
    } else {
      assert lines[..|lines| - 1][..k] == lines[..k];
      HeaderMapPrefix(lines[..|lines| - 1], k, reader);
    }
  }

  /** One turn of a reader's loop. */
  lemma {:induction false} HeaderMapNext(lines: seq<string>, k: nat, reader: Reader)
    requires k < |lines| && HeaderMap(lines[..k], reader).Some?
    ensures var m := HeaderMap(lines[..k], reader).value;
            if !FieldOk(lines[k], reader) || Lower(Name(lines[k])) in m then HeaderMap(lines, reader).None?
            else HeaderMap(lines[..k + 1], reader) == Some(m[Lower(Name(lines[k])) := Value(lines[k])])
  {
    assert lines[..k + 1][..k] == lines[..k];
    if HeaderMap(lines[..k + 1], reader).None? { HeaderMapPrefix(lines, k + 1, reader); }
  }

  // ---------------------------------------------------------------- printed fields

  function FieldLine(f: Field): string { f.name + ": " + f.value }

  function FieldLines(fields: seq<Field>): (lines: seq<string>)
    ensures |lines| == |fields| && forall i :: 0 <= i < |fields| ==> lines[i] == FieldLine(fields[i])
  {
    seq(|fields|, i requires 0 <= i < |fields| => FieldLine(fields[i]))
  }

  lemma TcharIsPlain(c: char)
    requires IsTchar(c)
    ensures c != ':' && c != '\r' && !IsBlank(c) && IsPrintable(c)
  {
  }

  /** A printed field is read back with the same name and its value trimmed. */
  lemma FieldLineReads(f: Field, reader: Reader)
    requires ValidName(f.name)
    ensures var line := FieldLine(f);
            HasColon(line) && Name(line) == f.name && Value(line) == Trim(f.value)
            && (FieldOk(line, reader) <==> ValueOk(Trim(f.value), reader))
  {
    var line := FieldLine(f);
    assert line == f.name + (": " + f.value);
    forall c | c in f.name ensures c != ':' { TcharIsPlain(c); }
    FindFirstChar(f.name, ": " + f.value, ":");
    assert line[|f.name| + 1..] == [' '] + f.value;
    assert ([' '] + f.value)[1..] == f.value;
    TcharIsPlain(f.name[0]);
    assert line[0] == f.name[0];
  }

  lemma FieldLineIsOneLine(f: Field)
    requires ValidName(f.name) && ValueOk(f.value, Client)
    ensures FieldLine(f) != "" && Without(FieldLine(f), '\r') && AllHeadChars(FieldLine(f))
  {
    forall i | 0 <= i < |FieldLine(f)|
      ensures HeadChar(FieldLine(f)[i]) && FieldLine(f)[i] != '\r'
    {
      if i < |f.name| { TcharIsPlain(f.name[i]); }
    }
  }

  // ---------------------------------------------------------------- printed messages

  function FieldMap(fields: seq<Field>): map<string, string> {
    if fields == [] then map[]
    else
      var last := fields[|fields| - 1];
      FieldMap(fields[..|fields| - 1])[Lower(last.name) := Trim(last.value)]
  }

  ghost predicate AllPrintableFields(fields: seq<Field>) {
    forall i :: 0 <= i < |fields| ==> ValidName(fields[i].name) && ValueOk(fields[i].value, Client)
  }

  ghost predicate DistinctFields(fields: seq<Field>) {
    forall i, j :: 0 <= i < j < |fields| ==> Lower(fields[i].name) != Lower(fields[j].name)
  }

  ghost predicate Readable(fields: seq<Field>, reader: Reader) {
    DistinctFields(fields) && forall i :: 0 <= i < |fields| ==> ValueOk(Trim(fields[i].value), reader)
  }

  /** Printed fields form a header map exactly when they are readable, and it is their own map. */
  lemma PrintedFieldsRead(fields: seq<Field>, reader: Reader)
    requires AllPrintableFields(fields)
    ensures HeaderMap(FieldLines(fields), reader).Some? <==> Readable(fields, reader)
    ensures Readable(fields, reader) ==> HeaderMap(FieldLines(fields), reader) == Some(FieldMap(fields))
  {
    var lines := FieldLines(fields);
    HeaderMapMeaning(lines, reader);
    forall i | 0 <= i < |fields|
      ensures HasColon(lines[i]) && Name(lines[i]) == fields[i].name
      ensures FieldOk(lines[i], reader) <==> ValueOk(Trim(fields[i].value), reader)
    {
      FieldLineReads(fields[i], reader);
    }
    if Readable(fields, reader) { PrintedFieldMap(fields, reader); }
  }

  lemma {:induction false} PrintedFieldMap(fields: seq<Field>, reader: Reader)
    requires AllPrintableFields(fields) && HeaderMap(FieldLines(fields), reader).Some?
    ensures HeaderMap(FieldLines(fields), reader) == Some(FieldMap(fields))
  {
    if fields != [] {
      var front := fields[..|fields| - 1];
      assert FieldLines(fields)[..|fields| - 1] == FieldLines(front);
      PrintedFieldMap(front, reader);
      FieldLineReads(fields[|fields| - 1], reader);
    }
  }

  lemma {:induction false} FieldMapKeys(fields: seq<Field>)
    ensures forall key :: key in FieldMap(fields) <==> exists i :: 0 <= i < |fields| && Lower(fields[i].name) == key
  {
    if fields != [] { FieldMapKeys(fields[..|fields| - 1]); }
  }

  lemma {:induction false} FieldMapAt(fields: seq<Field>, i: nat)
    requires DistinctFields(fields) && i < |fields|
    ensures Lower(fields[i].name) in FieldMap(fields)
            && FieldMap(fields)[Lower(fields[i].name)] == Trim(fields[i].value)
  {
    if i < |fields| - 1 { FieldMapAt(fields[..|fields| - 1], i); }
  }

  function Message(start: string, fields: seq<Field>, body: string): string {
    Join([start] + FieldLines(fields), CRLF) + HEAD_END + body
  }

  ghost predicate StartLineOk(start: string) { start != "" && AllPrintable(start) }

  /** What any reader finds in a printed message: its own lines and its own body. */
  lemma MessageLayout(start: string, fields: seq<Field>, body: string)
    requires StartLineOk(start) && AllPrintableFields(fields)
    ensures var lines := [start] + FieldLines(fields);
            var head := Join(lines, CRLF);
            var raw := Message(start, fields, body);
            && Find(raw, HEAD_END) == Some(|head|) && raw[..|head|] == head && raw[|head| + 4..] == body
            && Split(head, CRLF) == lines && AllHeadChars(head)
  {
    var lines := [start] + FieldLines(fields);
    forall l | l in lines
      ensures PlainLine(l) && AllHeadChars(l)
    {
      var i :| 0 <= i < |lines| && lines[i] == l;
      if i > 0 { FieldLineIsOneLine(fields[i - 1]); }
    }
    HeadEndOfMessage(lines, body);
    SplitJoin(lines, CRLF);
    JoinHeadChars(lines);
  }

  lemma {:induction false} JoinHeadChars(lines: seq<string>)
    requires lines != [] && forall l :: l in lines ==> AllHeadChars(l)
    ensures AllHeadChars(Join(lines, CRLF))
  {
    assert lines[0] in lines;
    if |lines| > 1 { JoinHeadChars(lines[1..]); }
  }

  lemma {:induction false} JoinSnoc(lines: seq<string>, line: string)
    requires lines != []
    ensures Join(lines + [line], CRLF) == Join(lines, CRLF) + CRLF + line
  {
    if |lines| > 1 {
      assert (lines + [line])[1..] == lines[1..] + [line];
      JoinSnoc(lines[1..], line);
    } else {
      assert (lines + [line])[1..] == [line];
    }
  }
}
