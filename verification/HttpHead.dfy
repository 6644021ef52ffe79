/** Parsing the head of an HTTP request from a stream, line by line. */
module HttpHead {
  import opened Text

  // ---------- lines of a stream ----------

  /** What is left of a stream, and whether it has not yet reported its end. */
  datatype Source = Source(rest: string, good: bool)

  /** `getline`: once the end has been reported the line is left as it is. */
  function GetLine(src: Source, line: string): (r: (Source, string))
    ensures src.good ==> |r.0.rest| < |src.rest| || (|r.0.rest| <= |src.rest| && !r.0.good)
  {
    if !src.good then (src, line)
    else
      var end := Find(src.rest, '\n', 0);
      if end < |src.rest| then (Source(src.rest[end + 1..], true), src.rest[..end])
      else (Source("", false), src.rest)
  }

  lemma GetLineSplits(line: string, more: string, old': string)
    requires '\n' !in line
    ensures GetLine(Source(line + "\n" + more, true), old') == (Source(more, true), line)
  {
    var text := line + "\n" + more;
    assert text[|line|] == '\n';
    assert forall k | 0 <= k < |line| :: text[k] == line[k];
    assert text[|line| + 1..] == more && text[..|line|] == line;
  }

  // ---------- the header loop ----------

  type Headers = multiset<(string, string)>

  /** What one header line adds. */
  function HeaderOf(line: string): Headers {
    var paramEnd := Find(line, ':', 0);
    if paramEnd + 1 >= |line| then multiset{}
    else
      var valueStart := if line[paramEnd + 1] == ' ' then paramEnd + 2 else paramEnd + 1;
      if valueStart < |line| then multiset{(line[..paramEnd], line[valueStart..|line| - 1])} else multiset{}
  }

  /** The loop reaches a line without a colon. */
  predicate Ends(line: string, src: Source)
    decreases |src.rest|, src.good
  {
    || ':' !in line
    || (src.good && var (src', line') := GetLine(src, line); Ends(line', src'))
  }

  /** The headers read from `line` on, and the stream after the loop. */
  function ReadHeaders(line: string, src: Source, headers: Headers): (Headers, Source)
    requires Ends(line, src)
    decreases |src.rest|, src.good
  {
    if ':' !in line then (headers, src)
    else
      var (src', line') := GetLine(src, line);
      ReadHeaders(line', src', headers + HeaderOf(line))
  }

  /** The line and the stream after n rounds of the loop. */
  function After(n: nat, line: string, src: Source): (string, Source) {
    if n == 0 then (line, src)
    else
      var (line', src') := After(n - 1, line, src);
      if ':' !in line' then (line', src')
      else
        var (src'', line'') := GetLine(src', line');
        (line'', src'')
  }

  lemma {:induction false} AfterFirst(n: nat, line: string, src: Source)
    requires ':' in line
    ensures var (src', line') := GetLine(src, line);
      After(n + 1, line, src) == After(n, line', src')
  {
    if n > 0 {
      AfterFirst(n - 1, line, src);
    }
  }

  lemma {:induction false} StuckForever(n: nat, line: string, src: Source)
    requires ':' in line && !src.good
    ensures After(n, line, src) == (line, src)
  {
    if n > 0 {
      StuckForever(n - 1, line, src);
    }
  }

  /** The loop terminates, after some number of rounds, exactly when `Ends`. */
  lemma {:induction false} TerminatesIffEnds(line: string, src: Source)
    ensures Ends(line, src) <==> exists n: nat :: ':' !in After(n, line, src).0
    decreases |src.rest|, src.good
  {
    if ':' !in line {
      assert ':' !in After(0, line, src).0;
    } else if !src.good {
      forall n: nat
        ensures ':' in After(n, line, src).0
      {
        StuckForever(n, line, src);
      }
    } else {
      var (src', line') := GetLine(src, line);
      TerminatesIffEnds(line', src');
      if Ends(line', src') {
        var n: nat :| ':' !in After(n, line', src').0;
        AfterFirst(n, line, src);
        assert ':' !in After(n + 1, line, src).0;
      }
      if n: nat :| ':' !in After(n, line, src).0 {
        assert n > 0;
        AfterFirst(n - 1, line, src);
        assert ':' !in After(n - 1, line', src').0;
      }
    }
  }

  ghost predicate SomeColonless(pieces: seq<string>, from: nat) {
    exists i :: from <= i < |pieces| && ':' !in pieces[i]
  }

  /** From a stream that has not ended, the loop terminates exactly when some piece of what the
      stream still holds has no colon. */
  lemma {:induction false} EndsIffColonless(line: string, src: Source)
    requires src.good
    ensures var (src', line') := GetLine(src, line);
      Ends(line', src') <==> SomeColonless(Pieces(src.rest, '\n'), 0)
    decreases |src.rest|
  {
    var pieces := Pieces(src.rest, '\n');
    var (src', line') := GetLine(src, line);
    assert pieces[0] == line';
    if src'.good {
      EndsIffColonless(line', src');
      var more := Pieces(src'.rest, '\n');
      assert pieces == [line'] + more;
      if SomeColonless(pieces, 0) {
        var i :| 0 <= i < |pieces| && ':' !in pieces[i];
        assert i > 0 ==> more[i - 1] == pieces[i];
      }
      if SomeColonless(more, 0) {
        var i :| 0 <= i < |more| && ':' !in more[i];
        assert pieces[i + 1] == more[i];
      }
    } else {
      assert pieces == [line'];
    }
  }

  /** Without its line feed the last header is read over and over. */
  lemma UnterminatedHeaderLoops()
    ensures !Ends("Host: a", GetLine(Source("Host: a", true), "GET / HTTP/1.1\r").0)
  {
    hide Find;
    var host := "Host: a";
    LastPiece(host, "GET / HTTP/1.1\r");
    assert host[4] == ':';
  }

  /** The last line, when the stream does not end with a line feed. */
  lemma LastPiece(text: string, line: string)
    requires '\n' !in text
    ensures GetLine(Source(text, true), line) == (Source("", false), text)
  {
  }

  // ---------- the whole head ----------

  datatype Head = Head(verb: string, path: string, version: string, headers: Headers)

  predicate IsRequestLine(line: string) {
    var verbEnd := Find(line, ' ', 0);
    verbEnd < |line| && Find(line, ' ', verbEnd + 1) < |line|
  }

  function RequestLine(line: string): (string, string, string)
    requires IsRequestLine(line)
  {
    var verbEnd := Find(line, ' ', 0);
    var pathEnd := Find(line, ' ', verbEnd + 1);
    (line[..verbEnd], line[verbEnd + 1..pathEnd],
     if pathEnd + 6 < |line| then line[pathEnd + 6..|line| - 1] else "1.0")
  }

  /** The parser's loop terminates on this stream. */
  predicate HeadEnds(src: Source) {
    var (src', line) := GetLine(src, "");
    IsRequestLine(line) ==> var (src'', line') := GetLine(src', line); Ends(line', src'')
  }

  /** The request after parsing, starting from a request's earlier value, and the stream. */
  function Parse(src: Source, request: Head): (Head, Source)
    requires HeadEnds(src)
  {
    var (src', line) := GetLine(src, "");
    if !IsRequestLine(line) then (request, src')
    else
      var (verb, path, version) := RequestLine(line);
      var (src'', line') := GetLine(src', line);
      var (headers, left) := ReadHeaders(line', src'', request.headers);
      (Head(verb, path, version, headers), left)
  }

  /** The parser terminates exactly when the first line is no request line, or some later piece
      has no colon; without any line feed the first line is read twice. */
  lemma HeadEndsIff(text: string)
    ensures var pieces := Pieces(text, '\n');
      HeadEnds(Source(text, true)) <==>
        || !IsRequestLine(pieces[0])
        || (if |pieces| == 1 then ':' !in pieces[0] else SomeColonless(pieces, 1))
  {
    hide IsRequestLine, Find;
    var pieces := Pieces(text, '\n');
    var (src, line) := GetLine(Source(text, true), "");
    if src.good {
      EndsIffColonless(line, src);
      assert pieces == [line] + Pieces(src.rest, '\n');
      if i :| 1 <= i < |pieces| && ':' !in pieces[i] {
        assert Pieces(src.rest, '\n')[i - 1] == pieces[i];
      }
      if i :| 0 <= i < |Pieces(src.rest, '\n')| && ':' !in Pieces(src.rest, '\n')[i] {
        assert pieces[i + 1] == Pieces(src.rest, '\n')[i];
      }
    }
  }

  class Stream {
    var src: Source

    constructor (text: string)
      ensures src == Source(text, true)
    {
      src := Source(text, true);
    }

    method ReadLine(line: string) returns (line': string)
      modifies this
      ensures (src, line') == GetLine(old(src), line)
    {
      if !src.good {
        return line;
      }
      var end := 0;
      while end < |src.rest| && src.rest[end] != '\n'
        invariant src == old(src) && 0 <= end <= |src.rest|
        invariant Find(src.rest, '\n', 0) == Find(src.rest, '\n', end)
      {
        end := end + 1;
      }
      assert Find(src.rest, '\n', 0) == end;
      line' := src.rest[..end];
      assert |src.rest| == end ==> line' == src.rest;
      src := if end < |src.rest| then Source(src.rest[end + 1..], true) else Source("", false);
    }
  }

  class Request {
    var head: Head

    constructor ()
      ensures head == Head("", "", "", multiset{})
    {
      head := Head("", "", "", multiset{});
    }

    method ParseRequest(stream: Stream)
      requires HeadEnds(stream.src)
      modifies this, stream
      ensures (head, stream.src) == Parse(old(stream.src), old(head))
    {
      hide HeaderOf, GetLine, Find;
      var line := stream.ReadLine("");
      var verbEnd := Find(line, ' ', 0);
      if verbEnd < |line| {
        var pathEnd := Find(line, ' ', verbEnd + 1);
        if pathEnd < |line| {
          head := head.(verb := line[..verbEnd], path := line[verbEnd + 1..pathEnd],
                        version := if pathEnd + 6 < |line| then line[pathEnd + 6..|line| - 1] else "1.0");
          line := stream.ReadLine(line);
          ghost var result := ReadHeaders(line, stream.src, head.headers);
          ghost var requestLine := head;
          while ':' in line
            invariant Ends(line, stream.src)
            invariant ReadHeaders(line, stream.src, head.headers) == result
            invariant head == requestLine.(headers := head.headers)
            decreases |stream.src.rest|, stream.src.good
          {
            AddHeader(line);
            line := stream.ReadLine(line);
          }
        }
      }
    }

    method AddHeader(line: string)
      modifies this
      ensures head == old(head).(headers := old(head.headers) + HeaderOf(line))
    {
      var paramEnd := Find(line, ':', 0);
      var valueStart := paramEnd + 1;
      if valueStart < |line| {
        if line[valueStart] == ' ' {
          valueStart := valueStart + 1;
        }
        if valueStart < |line| {
          head := head.(headers := head.headers + multiset{(line[..paramEnd], line[valueStart..|line| - 1])});
        }
      }
    }
  }

  // ---------- the parser undoes the printer ----------

  /** An HTTP/1.1 head as in sections 3.1.1 and 3.2 of RFC 7230. */
  function Render(verb: string, path: string, version: string, headers: seq<(string, string)>): string {
    StartLine(verb, path, version) + "\n" + RenderHeaders(headers)
  }

  function StartLine(verb: string, path: string, version: string): string {
    verb + " " + path + " HTTP/" + version + "\r"
  }

  function HeaderLine(header: (string, string)): string {
    header.0 + ": " + header.1 + "\r"
  }

  function RenderHeaders(headers: seq<(string, string)>): string {
    if headers == [] then "\r\n" else HeaderLine(headers[0]) + "\n" + RenderHeaders(headers[1..])
  }

  /** Names without colon, and nothing with a line feed. */
  predicate Printable(headers: seq<(string, string)>) {
    forall h | h in headers :: ':' !in h.0 && '\n' !in h.0 && '\n' !in h.1
  }

  lemma HeaderLineParsed(name: string, value: string)
    requires ':' !in name && '\n' !in name && '\n' !in value
    ensures var line := HeaderLine((name, value));
      ':' in line && '\n' !in line && HeaderOf(line) == multiset{(name, value)}
  {
    var line := HeaderLine((name, value));
    assert line[|name|] == ':' && line[|name| + 1] == ' ';
    FindAt(line, ':', 0, |name|);
    assert line[..|name|] == name && line[|name| + 2..|line| - 1] == value;
  }

  lemma StartLineParsed(verb: string, path: string, version: string)
    requires ' ' !in verb && ' ' !in path && '\n' !in verb && '\n' !in path && '\n' !in version
    ensures var line := StartLine(verb, path, version);
      '\n' !in line && IsRequestLine(line) && RequestLine(line) == (verb, path, version)
  {
    hide Find;
    var line := StartLine(verb, path, version);
    var verbEnd, pathEnd := |verb|, |verb| + 1 + |path|;
    assert line[verbEnd] == ' ' && line[pathEnd] == ' ';
    FindAt(line, ' ', 0, verbEnd);
    assert forall k | verbEnd + 1 <= k < pathEnd :: line[k] == path[k - verbEnd - 1];
    FindAt(line, ' ', verbEnd + 1, pathEnd);
    assert line[..verbEnd] == verb && line[verbEnd + 1..pathEnd] == path;
    assert line[pathEnd + 6..|line| - 1] == version;
  }

  /** One round of the loop, on a header line. */
  lemma HeaderRound(header: (string, string), more: string, line: string, got: Headers)
    requires Printable([header])
    ensures var (src, line') := GetLine(Source(HeaderLine(header) + "\n" + more, true), line);
      var (src', line'') := GetLine(Source(more, true), line');
      && (Ends(line', src) <==> Ends(line'', src'))
      && (Ends(line', src) ==> ReadHeaders(line', src, got) == ReadHeaders(line'', src', got + multiset{header}))
  {
    hide Find, HeaderLine, HeaderOf, GetLine;
    assert header in [header];
    HeaderLineParsed(header.0, header.1);
    GetLineSplits(HeaderLine(header), more, line);
  }

  lemma EmptyLineRound(body: string, line: string, got: Headers)
    ensures var (src, line') := GetLine(Source("\r\n" + body, true), line);
      Ends(line', src) && ReadHeaders(line', src, got) == (got, Source(body, true))
  {
    hide Find, GetLine;
    assert "\r\n" + body == "\r" + "\n" + body;
    GetLineSplits("\r", body, line);
  }

  lemma {:induction false} HeadersParsed(headers: seq<(string, string)>, body: string, line: string, got: Headers)
    requires Printable(headers)
    ensures var (src, line') := GetLine(Source(RenderHeaders(headers) + body, true), line);
      Ends(line', src) && ReadHeaders(line', src, got) == (got + multiset(headers), Source(body, true))
    decreases |headers|
  {
    hide Find, HeaderLine, HeaderOf, GetLine, Ends, ReadHeaders;
    if headers == [] {
      EmptyLineRound(body, line, got);
      assert got + multiset(headers) == got;
    } else {
      var first, rest := headers[0], headers[1..];
      assert headers == [first] + rest;
      var more := RenderHeaders(rest) + body;
      assert RenderHeaders(headers) + body == HeaderLine(first) + "\n" + more;
      HeaderRound(first, more, line, got);
      HeadersParsed(rest, body, GetLine(Source(HeaderLine(first) + "\n" + more, true), line).1, got + multiset{first});
      assert got + multiset{first} + multiset(rest) == got + multiset(headers);
    }
  }

  /** Parsing a printed head, whatever body follows, gives the head back and leaves the stream at
      the body. */
  lemma ParseUndoesRender(verb: string, path: string, version: string, headers: seq<(string, string)>, body: string)
    requires ' ' !in verb && ' ' !in path && '\n' !in verb && '\n' !in path && '\n' !in version
    requires Printable(headers)
    ensures var src := Source(Render(verb, path, version, headers) + body, true);
      HeadEnds(src) &&
      Parse(src, Head("", "", "", multiset{})) == (Head(verb, path, version, multiset(headers)), Source(body, true))
  {
    hide Find, Ends, ReadHeaders, GetLine, RequestLine, IsRequestLine, StartLine, RenderHeaders;
    var line := StartLine(verb, path, version);
    StartLineParsed(verb, path, version);
    assert Render(verb, path, version, headers) + body == line + "\n" + (RenderHeaders(headers) + body);
    GetLineSplits(line, RenderHeaders(headers) + body, "");
    HeadersParsed(headers, body, line, multiset{});
    assert multiset{} + multiset(headers) == multiset(headers);
  }

  // ---------- any head, not only a printed one ----------

  /** A header line without its line feed gives the name before the first colon and the value after
      it, without one space in front and the last character; a value must be left for that. */
  lemma HeaderFields(name: string, value: string)
    requires ':' !in name
    ensures HeaderOf(name + ":" + value) ==
      if value == "" || value == " " then multiset{}
      else if value[0] == ' ' then multiset{(name, value[1..|value| - 1])}
      else multiset{(name, value[..|value| - 1])}
  {
    hide Find;
    var line := name + ":" + value;
    assert line[|name|] == ':';
    FindAt(line, ':', 0, |name|);
    assert line[|name| + 1..] == value && line[..|name|] == name;
    if value != "" && value != " " {
      var skip := if value[0] == ' ' then 1 else 0;
      assert line[|name| + 1 + skip..|line| - 1] == value[skip..|value| - 1];
    }
  }

  /** A request line has two spaces; its version begins six characters after the second one. */
  lemma RequestFields(verb: string, path: string, rest: string)
    requires ' ' !in verb && ' ' !in path
    ensures var line := verb + " " + path + " " + rest;
      IsRequestLine(line) &&
      RequestLine(line) == (verb, path, if |rest| > 5 then rest[5..|rest| - 1] else "1.0")
  {
    hide Find;
    var line := verb + " " + path + " " + rest;
    var verbEnd, pathEnd := |verb|, |verb| + 1 + |path|;
    assert line[verbEnd] == ' ' && line[pathEnd] == ' ';
    FindAt(line, ' ', 0, verbEnd);
    assert forall k | verbEnd + 1 <= k < pathEnd :: line[k] == path[k - verbEnd - 1];
    FindAt(line, ' ', verbEnd + 1, pathEnd);
    assert line[..verbEnd] == verb && line[verbEnd + 1..pathEnd] == path;
    if |rest| > 5 {
      assert line[pathEnd + 6..|line| - 1] == rest[5..|rest| - 1];
    }
  }

  lemma RequestLineIff(line: string)
    ensures IsRequestLine(line) <==> exists i, j :: 0 <= i < j < |line| && line[i] == ' ' && line[j] == ' '
  {
    hide Find;
    var verbEnd := Find(line, ' ', 0);
    if verbEnd < |line| {
      var pathEnd := Find(line, ' ', verbEnd + 1);
      assert pathEnd < |line| ==> line[pathEnd] == ' ';
    }
  }

  /** A stream that does not begin with a request line loses that line only. */
  lemma NoRequest(line: string, more: string, request: Head)
    requires '\n' !in line && !IsRequestLine(line)
    ensures var src := Source(line + "\n" + more, true);
      HeadEnds(src) && Parse(src, request) == (request, Source(more, true))
  {
    hide Find, GetLine, IsRequestLine, Ends, ReadHeaders;
    GetLineSplits(line, more, "");
  }

  function Lines(lines: seq<string>): string {
    if lines == [] then "" else lines[0] + "\n" + Lines(lines[1..])
  }

  function HeadersOf(lines: seq<string>): Headers {
    if lines == [] then multiset{} else HeaderOf(lines[0]) + HeadersOf(lines[1..])
  }

  lemma {:induction false} LinesRead(lines: seq<string>, last: string, body: string, line: string, got: Headers)
    requires forall l | l in lines :: ':' in l && '\n' !in l
    requires ':' !in last && '\n' !in last
    ensures var (src, line') := GetLine(Source(Lines(lines) + last + "\n" + body, true), line);
      Ends(line', src) && ReadHeaders(line', src, got) == (got + HeadersOf(lines), Source(body, true))
    decreases |lines|
  {
    hide Find, HeaderOf, GetLine, Ends, ReadHeaders;
    if lines == [] {
      assert Lines(lines) + last + "\n" + body == last + "\n" + body;
      GetLineSplits(last, body, line);
      LastLineRead(last, Source(body, true), got);
      assert got + HeadersOf(lines) == got;
    } else {
      var first, rest := lines[0], lines[1..];
      assert first in lines && forall l | l in rest :: l in lines;
      var more := Lines(rest) + last + "\n" + body;
      assert Lines(lines) + last + "\n" + body == first + "\n" + more;
      GetLineSplits(first, more, line);
      HeaderLineRead(first, Source(more, true), got);
      LinesRead(rest, last, body, first, got + HeaderOf(first));
      assert got + HeaderOf(first) + HeadersOf(rest) == got + HeadersOf(lines);
    }
  }

  lemma LastLineRead(line: string, src: Source, got: Headers)
    requires ':' !in line
    ensures Ends(line, src) && ReadHeaders(line, src, got) == (got, src)
  {
  }

  lemma HeaderLineRead(line: string, src: Source, got: Headers)
    requires ':' in line && src.good
    ensures var (src', line') := GetLine(src, line);
      && (Ends(line, src) <==> Ends(line', src'))
      && (Ends(line, src) ==> ReadHeaders(line, src, got) == ReadHeaders(line', src', got + HeaderOf(line)))
  {
    hide Find, HeaderOf;
  }

  /** Any request line, any lines with a colon, and one without: the request becomes the fields of
      the first and, on top of what it had, the headers of the others, and the stream is left after
      the last. */
  lemma ParseReads(first: string, lines: seq<string>, last: string, body: string, request: Head)
    requires IsRequestLine(first) && '\n' !in first
    requires forall l | l in lines :: ':' in l && '\n' !in l
    requires ':' !in last && '\n' !in last
    ensures var src := Source(first + "\n" + Lines(lines) + last + "\n" + body, true);
      var (verb, path, version) := RequestLine(first);
      HeadEnds(src) &&
      Parse(src, request) == (Head(verb, path, version, request.headers + HeadersOf(lines)), Source(body, true))
  {
    hide Find, GetLine, IsRequestLine, RequestLine, Ends, ReadHeaders;
    var more := Lines(lines) + last + "\n" + body;
    assert first + "\n" + Lines(lines) + last + "\n" + body == first + "\n" + more;
    GetLineSplits(first, more, "");
    LinesRead(lines, last, body, first, request.headers);
  }

  /** The server only parses once the stream holds an empty line; then the loop terminates. */
  lemma EmptyLineEnds(before: string, after: string)
    ensures HeadEnds(Source(before + "\r\n\r\n" + after, true))
  {
    hide Pieces, IsRequestLine, HeadEnds, Find;
    var text := before + "\r\n\r\n" + after;
    assert text == (before + "\r") + "\n" + ("\r" + "\n" + after);
    PiecesJoin(before + "\r", '\n', "\r" + "\n" + after);
    PiecesJoin("\r", '\n', after);
    OnePiece("\r", '\n');
    var i := |Pieces(before + "\r", '\n')|;
    assert Pieces(text, '\n')[i] == "\r";
    HeadEndsIff(text);
  }
}
