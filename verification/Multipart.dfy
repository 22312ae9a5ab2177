/** Generation of multipart/form-data bodies for WinHTTP uploads. */
module Multipart {
  import opened Bytes
  import opened Streams

  type Header = (seq<byte>, seq<byte>)

  datatype PartBody = Bytes(content: seq<byte>) | Streamed(source: Source) {
    function Content(): seq<byte> {
      match this
      case Bytes(c) => c
      case Streamed(s) => s.rest
    }
  }

  datatype FormPart = FormPart(
    headers: seq<Header>,
    name: seq<byte>,
    filename: Option<seq<byte>>,
    contentType: seq<byte>,
    body: PartBody
  )

  const QUOTE: byte := 34

  const DASHES: seq<byte> := [45, 45]

  /** `str::replace` with a set of single characters. */
  function Replace(s: seq<byte>, chars: set<byte>, with: seq<byte>): seq<byte> {
    if s == [] then []
    else (if s[0] in chars then with else [s[0]]) + Replace(s[1..], chars, with)
  }

  predicate Lacks(s: seq<byte>, chars: set<byte>) {
    forall i | 0 <= i < |s| :: s[i] !in chars
  }

  lemma {:induction false} ReplaceLacks(s: seq<byte>, chars: set<byte>, with: seq<byte>, others: set<byte>)
    requires Lacks(with, chars) && Lacks(with, others) && Lacks(s, others)
    ensures Lacks(Replace(s, chars, with), chars) && Lacks(Replace(s, chars, with), others)
  {
    if s != [] {
      ReplaceLacks(s[1..], chars, with, others);
    }
  }

  lemma {:induction false} ReplaceAbsent(s: seq<byte>, chars: set<byte>, with: seq<byte>)
    requires Lacks(s, chars)
    ensures Replace(s, chars, with) == s
  {
    if s != [] {
      ReplaceAbsent(s[1..], chars, with);
    }
  }

  lemma {:induction false} ReplaceOneLength(s: seq<byte>, chars: set<byte>, with: byte)
    ensures |Replace(s, chars, [with])| == |s|
  {
    if s != [] {
      ReplaceOneLength(s[1..], chars, with);
    }
  }

  const NEW_LINE: set<byte> := {13, 10}
  const ESCAPED_COLON: seq<byte> := [37, 51, 65]
  const ESCAPED_NEW_LINE: seq<byte> := [92, 110]
  const STRIPPED_CHARS: set<byte> := {34, 92, 47}

  /** `quick_escape_header`: colons leave the key, line breaks leave both. */
  function QuickEscapeHeader(h: Header): Header {
    var key := if COLON in h.0 then Replace(h.0, {COLON}, ESCAPED_COLON) else h.0;
    (EscapeNewLines(key), EscapeNewLines(h.1))
  }

  function EscapeNewLines(s: seq<byte>): seq<byte> {
    if CR in s || LF in s then Replace(s, NEW_LINE, ESCAPED_NEW_LINE) else s
  }

  /** An escaped header can be printed on one line and split at its first colon. */
  lemma EscapedHeaderIsClean(h: Header)
    ensures Lacks(QuickEscapeHeader(h).0, {COLON}) && Lacks(QuickEscapeHeader(h).0, NEW_LINE)
    ensures Lacks(QuickEscapeHeader(h).1, NEW_LINE)
  {
    var key := if COLON in h.0 then Replace(h.0, {COLON}, ESCAPED_COLON) else h.0;
    if COLON in h.0 {
      ReplaceLacks(h.0, {COLON}, ESCAPED_COLON, {});
    }
    assert Lacks(key, {COLON});
    ReplaceLacks(key, NEW_LINE, ESCAPED_NEW_LINE, {COLON});
    ReplaceLacks(h.1, NEW_LINE, ESCAPED_NEW_LINE, {});
  }

  /** Escaping changes nothing in a header that holds none of the escaped characters. */
  lemma CleanHeaderIsKept(h: Header)
    requires Lacks(h.0, {COLON}) && Lacks(h.0, NEW_LINE) && Lacks(h.1, NEW_LINE)
    ensures QuickEscapeHeader(h) == h
  {
  }

  /** Escaping goes byte by byte: in a key a colon becomes `%3A`, in key and value a CR or an LF becomes `\n`. */
  lemma EscapesByteByByte(a: Header, b: Header, c: byte)
    ensures var (key, value) := QuickEscapeHeader((a.0 + b.0, a.1 + b.1));
      && key == QuickEscapeHeader(a).0 + QuickEscapeHeader(b).0
      && value == QuickEscapeHeader(a).1 + QuickEscapeHeader(b).1
    ensures QuickEscapeHeader(([c], [c])) ==
            (if c == 58 then Ascii("%3A") else if c == 13 || c == 10 then Ascii("\\n") else [c],
             if c == 13 || c == 10 then Ascii("\\n") else [c])
    ensures QuickEscapeHeader(([], [])) == ([], [])
  {
    KeyIsReplaced(a.0);
    KeyIsReplaced(b.0);
    KeyIsReplaced(a.0 + b.0);
    ReplaceJoins(a.0, b.0, {COLON}, ESCAPED_COLON);
    ReplaceJoins(Replace(a.0, {COLON}, ESCAPED_COLON), Replace(b.0, {COLON}, ESCAPED_COLON), NEW_LINE,
        ESCAPED_NEW_LINE);
    LinesAreReplaced(a.1);
    LinesAreReplaced(b.1);
    LinesAreReplaced(a.1 + b.1);
    ReplaceJoins(a.1, b.1, NEW_LINE, ESCAPED_NEW_LINE);
    OneEscape(c);
  }

  lemma OneEscape(c: byte)
    ensures QuickEscapeHeader(([c], [c])) ==
            (if c == 58 then Ascii("%3A") else if c == 13 || c == 10 then Ascii("\\n") else [c],
             if c == 13 || c == 10 then Ascii("\\n") else [c])
  {
    assert [c][1..] == [];
    assert Replace([c], NEW_LINE, ESCAPED_NEW_LINE) == if c in NEW_LINE then ESCAPED_NEW_LINE else [c];
    assert Replace([c], {COLON}, ESCAPED_COLON) == if c == COLON then ESCAPED_COLON else [c];
    assert Ascii("%3A") == ESCAPED_COLON && Ascii("\\n") == ESCAPED_NEW_LINE;
  }

  lemma LinesAreReplaced(s: seq<byte>)
    ensures EscapeNewLines(s) == Replace(s, NEW_LINE, ESCAPED_NEW_LINE)
  {
    if CR !in s && LF !in s {
      ReplaceAbsent(s, NEW_LINE, ESCAPED_NEW_LINE);
    }
  }

  lemma KeyIsReplaced(s: seq<byte>)
    ensures QuickEscapeHeader((s, [])).0 == Replace(Replace(s, {COLON}, ESCAPED_COLON), NEW_LINE, ESCAPED_NEW_LINE)
    ensures forall v :: QuickEscapeHeader((s, v)).0 == QuickEscapeHeader((s, [])).0
  {
    if COLON !in s {
      ReplaceAbsent(s, {COLON}, ESCAPED_COLON);
    }
    LinesAreReplaced(Replace(s, {COLON}, ESCAPED_COLON));
  }

  lemma {:induction false} ReplaceJoins(a: seq<byte>, b: seq<byte>, chars: set<byte>, with: seq<byte>)
    ensures Replace(a + b, chars, with) == Replace(a, chars, with) + Replace(b, chars, with)
  {
    if a == [] {
      assert a + b == b;
    } else {
      ReplaceJoins(a[1..], b, chars, with);
      assert (a + b)[1..] == a[1..] + b;
      Assoc(if a[0] in chars then with else [a[0]], Replace(a[1..], chars, with), Replace(b, chars, with));
    }
  }

  function CleanFilename(f: seq<byte>): seq<byte> {
    Replace(f, STRIPPED_CHARS, [95])
  }

  /** Cleaning a filename puts an underscore for each quote, backslash and slash, and changes nothing else. */
  lemma {:induction false} CleanedAt(f: seq<byte>)
    ensures |CleanFilename(f)| == |f|
    ensures forall i | 0 <= i < |f| ::
              CleanFilename(f)[i] == if f[i] == 34 || f[i] == 92 || f[i] == 47 then 95 else f[i]
  {
    if f != [] {
      CleanedAt(f[1..]);
    }
  }

  /** So a filename without them is sent unchanged. */
  lemma CleanFilenameIsKept(f: seq<byte>)
    requires 34 !in f && 92 !in f && 47 !in f
    ensures CleanFilename(f) == f
  {
    CleanedAt(f);
  }

  const DISPOSITION_NAME: string := "Content-Disposition"
  const TYPE_NAME: string := "Content-Type"
  const SEPARATOR: string := ": "
  const FORM_DATA: string := "form-data; name=\""
  const FILENAME: string := "; filename=\""

  /** The fixed text in front of a part's name, and in front of its content type. */
  function DispositionText(): seq<byte> {
    Ascii(DISPOSITION_NAME) + Ascii(SEPARATOR) + Ascii(FORM_DATA)
  }

  function TypeText(): seq<byte> {
    Ascii(TYPE_NAME) + Ascii(SEPARATOR)
  }

  /** The header lines of a part. */
  function DispositionLine(p: FormPart): seq<byte> {
    DispositionText() + p.name + [QUOTE] +
    (if p.filename.Some? then Ascii(FILENAME) + CleanFilename(p.filename.value) + [QUOTE] else [])
  }

  function HeaderLine(h: Header): seq<byte> {
    QuickEscapeHeader(h).0 + Ascii(SEPARATOR) + QuickEscapeHeader(h).1
  }

  function HeaderLines(hs: seq<Header>): seq<seq<byte>> {
    if hs == [] then [] else [HeaderLine(hs[0])] + HeaderLines(hs[1..])
  }

  function Lines(p: FormPart): seq<seq<byte>> {
    [DispositionLine(p), TypeText() + p.contentType] + HeaderLines(p.headers)
  }

  /** Each line with its CRLF. */
  function JoinLines(lines: seq<seq<byte>>): seq<byte> {
    if lines == [] then [] else lines[0] + CRLF + JoinLines(lines[1..])
  }

  lemma {:induction false} JoinLinesAppend(a: seq<seq<byte>>, line: seq<byte>)
    ensures JoinLines(a + [line]) == JoinLines(a) + line + CRLF
  {
    if a == [] {
      assert a + [line] == [line];
      assert JoinLines([line]) == line + CRLF + JoinLines([]);
    } else {
      JoinLinesAppend(a[1..], line);
      assert (a + [line])[1..] == a[1..] + [line];
      var h, t := a[0] + CRLF, JoinLines(a[1..]);
      assert h + (t + line + CRLF) == h + t + line + CRLF;
    }
  }

  lemma {:induction false} HeaderLinesAppend(hs: seq<Header>, h: Header)
    ensures HeaderLines(hs + [h]) == HeaderLines(hs) + [HeaderLine(h)]
  {
    if hs == [] {
      assert hs + [h] == [h];
    } else {
      HeaderLinesAppend(hs[1..], h);
      assert (hs + [h])[1..] == hs[1..] + [h];
    }
  }

  /** A part from its dash-boundary to the blank line before its content. */
  function Head(boundary: seq<byte>, p: FormPart): seq<byte> {
    DASHES + boundary + CRLF + JoinLines(Lines(p)) + CRLF
  }

  /** The simple rendering: head, content and CRLF for each part, then the closing delimiter. */
  function Render(boundary: seq<byte>, parts: seq<FormPart>): seq<byte> {
    if parts == [] then Closing(boundary)
    else Head(boundary, parts[0]) + parts[0].body.Content() + CRLF + Render(boundary, parts[1..])
  }

  function Closing(boundary: seq<byte>): seq<byte> {
    DASHES + boundary + DASHES + CRLF
  }

  /** The parts up to and including the next stream. */
  function GroupLength(parts: seq<FormPart>): (n: nat)
    ensures n <= |parts|
    ensures parts != [] ==> n > 0
    ensures forall i | 0 <= i < n - 1 :: parts[i].body.Bytes?
    ensures n < |parts| ==> parts[n - 1].body.Streamed?
  {
    if parts == [] then 0
    else if parts[0].body.Streamed? then 1
    else 1 + GroupLength(parts[1..])
  }

  function StreamCount(parts: seq<FormPart>): nat {
    if parts == [] then 0
    else (if parts[0].body.Streamed? then 1 else 0) + StreamCount(parts[1..])
  }

  function SumSizes(hs: seq<Header>): nat {
    if hs == [] then 0 else |hs[0].0| + |hs[0].1| + 4 + SumSizes(hs[1..])
  }

  function EstimatePartHeaderSize(p: FormPart): nat {
    72 + |p.name| + (if p.filename.Some? then |p.filename.value| else 0) + |p.contentType| + SumSizes(p.headers)
  }

  function EstimateParts(boundary: seq<byte>, group: seq<FormPart>): nat {
    if group == [] then 0
    else EstimatePartHeaderSize(group[0]) + |boundary| + 6 +
         (if group[0].body.Bytes? then |group[0].body.content| else 0) + EstimateParts(boundary, group[1..])
  }

  /** The capacity asked for the data buffer that ends with the next stream or the closing delimiter. */
  function EstimateNextDataChunkSizeUntilStream(boundary: seq<byte>, parts: seq<FormPart>): nat {
    var n := GroupLength(parts);
    (if n == |parts| then |boundary| + 8 else 0) + EstimateParts(boundary, parts[..n])
  }

  lemma EstimateOfGroup(boundary: seq<byte>, group: seq<FormPart>)
    requires GroupLength(group) == |group|
    ensures EstimateNextDataChunkSizeUntilStream(boundary, group) == |boundary| + 8 + EstimateParts(boundary, group)
  {
    assert group[..|group|] == group;
  }

  /** No header of the part is lengthened by escaping. */
  predicate NothingToEscape(p: FormPart) {
    forall h | h in p.headers :: QuickEscapeHeader(h) == h
  }

  lemma {:induction false} HeaderLinesLength(hs: seq<Header>)
    requires forall h | h in hs :: QuickEscapeHeader(h) == h
    ensures |JoinLines(HeaderLines(hs))| == SumSizes(hs)
  {
    if hs != [] {
      assert hs[0] in hs && forall h | h in hs[1..] :: h in hs;
      HeaderLinesLength(hs[1..]);
      assert HeaderLines(hs)[1..] == HeaderLines(hs[1..]);
      assert |HeaderLine(hs[0])| == |hs[0].0| + 2 + |hs[0].1|;
    }
  }

  /** Without escapes a head with a filename is as long as estimated, and one without is 13 bytes shorter. */
  lemma HeadLength(boundary: seq<byte>, p: FormPart)
    requires NothingToEscape(p)
    ensures |Head(boundary, p)| + (if p.filename.Some? then 0 else 13) == EstimatePartHeaderSize(p) + |boundary| + 4
  {
    HeaderLinesLength(p.headers);
    var lines := Lines(p);
    assert lines[1..][1..] == HeaderLines(p.headers);
    assert |JoinLines(lines)| == |lines[0]| + 2 + |JoinLines(lines[1..])|;
    assert |JoinLines(lines[1..])| == |lines[1]| + 2 + SumSizes(p.headers);
    if p.filename.Some? {
      ReplaceOneLength(p.filename.value, STRIPPED_CHARS, 95);
    }
    assert |DispositionText()| == 38 && |FILENAME| == 12 && |TypeText()| == 14;
  }

  /** One head, appended piece by piece. */
  method AppendHead(body: seq<byte>, boundary: seq<byte>, part: FormPart) returns (r: seq<byte>)
    ensures r == body + Head(boundary, part)
  {
    var head := DASHES;
    head := head + boundary;
    head := head + CRLF;
    ghost var opening := head;
    var lines := DispositionText();
    lines := lines + part.name;
    lines := lines + [QUOTE];
    if part.filename.Some? {
      lines := lines + Ascii(FILENAME);
      lines := lines + CleanFilename(part.filename.value);
      lines := lines + [QUOTE];
    }
    assert lines == DispositionLine(part);
    lines := lines + CRLF;
    ghost var first := [DispositionLine(part)];
    assert JoinLines(first) == DispositionLine(part) + CRLF + JoinLines([]);
    assert lines == JoinLines(first);
    lines := lines + (TypeText() + part.contentType);
    lines := lines + CRLF;
    JoinLinesAppend(first, TypeText() + part.contentType);
    ghost var fixed := [DispositionLine(part), TypeText() + part.contentType];
    assert first + [TypeText() + part.contentType] == fixed;
    assert part.headers[..0] == [];
    for i := 0 to |part.headers|
      invariant lines == JoinLines(fixed + HeaderLines(part.headers[..i]))
    {
      ghost var done := fixed + HeaderLines(part.headers[..i]);
      var line := HeaderLine(part.headers[i]);
      lines := lines + line + CRLF;
      JoinLinesAppend(done, line);
      HeaderLinesAppend(part.headers[..i], part.headers[i]);
      assert part.headers[..i + 1] == part.headers[..i] + [part.headers[i]];
      Assoc(fixed, HeaderLines(part.headers[..i]), [line]);
    }
    assert part.headers[..|part.headers|] == part.headers;
    head := head + lines;
    head := head + CRLF;
    r := body + head;
  }

  /** A head, byte for byte. */
  lemma HeadSays(boundary: seq<byte>, p: FormPart)
    ensures Head(boundary, p) ==
            Ascii("--") + boundary + Ascii("\r\n") +
            (Ascii("Content-Disposition: form-data; name=\"") + p.name + Ascii("\"") +
             (if p.filename.Some? then Ascii("; filename=\"") + CleanFilename(p.filename.value) + Ascii("\"") else []) +
             Ascii("\r\n") +
             (Ascii("Content-Type: ") + p.contentType + Ascii("\r\n") + JoinLines(HeaderLines(p.headers)))) +
            Ascii("\r\n")
    ensures Closing(boundary) == Ascii("--") + boundary + Ascii("--") + Ascii("\r\n")
  {
    TextsSay();
    var lines := Lines(p);
    assert lines[1..][1..] == HeaderLines(p.headers);
    assert JoinLines(lines) ==
           DispositionLine(p) + CRLF + (TypeText() + p.contentType + CRLF + JoinLines(HeaderLines(p.headers)));
  }

  lemma TextsSay()
    ensures DispositionText() == Ascii("Content-Disposition: form-data; name=\"")
    ensures TypeText() == Ascii("Content-Type: ")
    ensures DASHES == Ascii("--") && CRLF == Ascii("\r\n") && [QUOTE] == Ascii("\"")
    ensures forall h :: HeaderLine(h) == QuickEscapeHeader(h).0 + Ascii(": ") + QuickEscapeHeader(h).1
  {
    assert Ascii("\r\n") == [13, 10];
    assert Ascii("--") == [45, 45] && Ascii("\"") == [34];
  }

  /** Pairs of a data buffer and a stream. */
  predicate Pairs(items: seq<Part>) {
    items == [] || (|items| >= 2 && items[0].Data? && items[1].Stream? && Pairs(items[2..]))
  }

  /** Data, stream, data, ..., data. */
  predicate Alternates(items: seq<Part>) {
    items != [] && items[|items| - 1].Data? && Pairs(items[..|items| - 1])
  }

  lemma {:induction false} PairsAppend(items: seq<Part>, data: seq<byte>, source: Source)
    requires Pairs(items)
    ensures Pairs(items + [Data(data), Stream(source)])
  {
    var pair := [Data(data), Stream(source)];
    if items == [] {
      assert items + pair == pair && pair[2..] == [];
    } else {
      PairsAppend(items[2..], data, source);
      assert (items + pair)[2..] == items[2..] + pair;
    }
  }

  /** The streams of the form, in order. */
  function StreamsOf(parts: seq<FormPart>): seq<Part> {
    if parts == [] then []
    else (if parts[0].body.Streamed? then [Stream(parts[0].body.source)] else []) + StreamsOf(parts[1..])
  }

  function StreamItems(items: seq<Part>): seq<Part> {
    if items == [] then []
    else (if items[0].Stream? then [items[0]] else []) + StreamItems(items[1..])
  }

  /** The bytes that one group puts into its data buffer: a stream's content is left out. */
  function GroupBytes(boundary: seq<byte>, group: seq<FormPart>): seq<byte> {
    if group == [] then []
    else if group[0].body.Streamed? then Head(boundary, group[0])
    else Head(boundary, group[0]) + group[0].body.content + CRLF + GroupBytes(boundary, group[1..])
  }

  /** Only the last part of a group can be a stream. */
  predicate IsGroup(group: seq<FormPart>) {
    forall i | 0 <= i < |group| - 1 :: group[i].body.Bytes?
  }

  predicate EndsInStream(group: seq<FormPart>) {
    group != [] && group[|group| - 1].body.Streamed?
  }

  lemma {:induction false} GroupShape(parts: seq<FormPart>)
    ensures var g := parts[..GroupLength(parts)];
      && IsGroup(g) && GroupLength(g) == |g| && (!EndsInStream(g) ==> |g| == |parts|)
  {
    if parts != [] && parts[0].body.Bytes? {
      GroupShape(parts[1..]);
      assert parts[..GroupLength(parts)][1..] == parts[1..][..GroupLength(parts[1..])];
    }
  }

  /** What follows a group in the simple rendering. */
  function AfterGroup(boundary: seq<byte>, parts: seq<FormPart>): seq<byte> {
    var n := GroupLength(parts);
    if EndsInStream(parts[..n]) then parts[n - 1].body.source.rest + CRLF + Render(boundary, parts[n..])
    else Closing(boundary)
  }

  /** A part of bytes in front only makes the next group longer. */
  lemma GroupShifts(parts: seq<FormPart>)
    requires parts != [] && parts[0].body.Bytes?
    ensures var n, m := GroupLength(parts), GroupLength(parts[1..]);
      && n == m + 1 && parts[..n][1..] == parts[1..][..m] && parts[n..] == parts[1..][m..]
      && (EndsInStream(parts[..n]) <==> EndsInStream(parts[1..][..m]))
      && (m > 0 ==> parts[n - 1] == parts[1..][m - 1])
  {
    var n := GroupLength(parts);
    assert parts[..n][1..] == parts[1..][..n - 1] && parts[1..][n - 1..] == parts[n..];
  }

  lemma AfterGroupShifts(boundary: seq<byte>, parts: seq<FormPart>)
    requires parts != [] && parts[0].body.Bytes?
    ensures parts[..GroupLength(parts)][1..] == parts[1..][..GroupLength(parts[1..])]
    ensures AfterGroup(boundary, parts) == AfterGroup(boundary, parts[1..])
  {
    hide Head, Closing, Render;
    GroupShifts(parts);
    hide GroupLength;
  }

  lemma StreamComesFirst(boundary: seq<byte>, parts: seq<FormPart>)
    requires parts != [] && parts[0].body.Streamed?
    ensures Render(boundary, parts) == GroupBytes(boundary, parts[..GroupLength(parts)]) + AfterGroup(boundary, parts)
  {
    hide Head, Closing;
    assert parts[..1] == [parts[0]];
    var head, content, rest := Head(boundary, parts[0]), parts[0].body.source.rest, Render(boundary, parts[1..]);
    Assoc(head, content, CRLF);
    Assoc(head, content + CRLF, rest);
  }

  /** The simple rendering, cut behind the next group. */
  lemma {:induction false} RenderSplits(boundary: seq<byte>, parts: seq<FormPart>)
    ensures Render(boundary, parts) == GroupBytes(boundary, parts[..GroupLength(parts)]) + AfterGroup(boundary, parts)
  {
    hide Head, Closing;
    if parts != [] {
      if parts[0].body.Streamed? {
        StreamComesFirst(boundary, parts);
      } else {
        RenderSplits(boundary, parts[1..]);
        AfterGroupShifts(boundary, parts);
        var g := parts[1..][..GroupLength(parts[1..])];
        Assoc(Head(boundary, parts[0]) + parts[0].body.content + CRLF, GroupBytes(boundary, g),
            AfterGroup(boundary, parts));
      }
    }
    hide AfterGroup;
  }

  /** The streams of a form, cut behind the next group. */
  lemma {:induction false} StreamsSplit(parts: seq<FormPart>)
    ensures var n := GroupLength(parts);
      if EndsInStream(parts[..n]) then
        && StreamsOf(parts) == [Stream(parts[n - 1].body.source)] + StreamsOf(parts[n..])
        && StreamCount(parts) == 1 + StreamCount(parts[n..])
      else StreamsOf(parts) == [] && StreamCount(parts) == 0
  {
    if parts != [] {
      if parts[0].body.Bytes? {
        StreamsSplit(parts[1..]);
        GroupShifts(parts);
        hide GroupLength;
      } else {
        assert parts[..1] == [parts[0]];
      }
    }
  }

  lemma JoinFive<T>(a: seq<T>, b: seq<T>, c: seq<T>, d: seq<T>, e: seq<T>)
    ensures a + (b + c + d + e) == a + b + c + d + e
  {
  }

  function WithoutFilename(group: seq<FormPart>): nat {
    if group == [] then 0 else (if group[0].filename.None? then 1 else 0) + WithoutFilename(group[1..])
  }

  /** Without escapes a group falls short of its estimate by 13 bytes for each part without a filename, and by the line
      break behind a stream. */
  lemma {:induction false} GroupBytesLength(boundary: seq<byte>, group: seq<FormPart>)
    requires IsGroup(group) && forall p | p in group :: NothingToEscape(p)
    ensures |GroupBytes(boundary, group)| + 13 * WithoutFilename(group) + (if EndsInStream(group) then 2 else 0) ==
            EstimateParts(boundary, group)
  {
    hide Head, EstimatePartHeaderSize, NothingToEscape;
    if group != [] {
      var rest := group[1..];
      assert group[0] in group && forall p | p in rest :: p in group;
      HeadLength(boundary, group[0]);
      if group[0].body.Streamed? {
        assert rest == [];
        assert EstimateParts(boundary, rest) == 0 && WithoutFilename(rest) == 0;
      } else {
        assert IsGroup(rest) && (EndsInStream(group) <==> EndsInStream(rest));
        GroupBytesLength(boundary, rest);
      }
    }
  }

  lemma {:induction false} StreamItemsAppend(a: seq<Part>, b: seq<Part>)
    ensures StreamItems(a + b) == StreamItems(a) + StreamItems(b)
  {
    if a == [] {
      assert a + b == b;
    } else {
      StreamItemsAppend(a[1..], b);
      assert (a + b)[1..] == a[1..] + b;
      Assoc(if a[0].Stream? then [a[0]] else [], StreamItems(a[1..]), StreamItems(b));
    }
  }

  lemma ContentOfPair(data: seq<byte>, source: Source)
    ensures Content([Data(data), Stream(source)]) == data + source.rest
    ensures StreamItems([Data(data), Stream(source)]) == [Stream(source)]
  {
    var pair := [Data(data), Stream(source)];
    assert pair[1..] == [Stream(source)];
    assert Content(pair[1..]) == source.rest + Content([]);
    assert StreamItems(pair[1..]) == [Stream(source)] + StreamItems([]);
  }

  /** The inner loop over one group, up to its stream if it has one. */
  method AppendGroup(body: seq<byte>, boundary: seq<byte>, group: seq<FormPart>)
    returns (r: seq<byte>, stream: Option<Source>)
    requires IsGroup(group)
    ensures r == body + GroupBytes(boundary, group)
    ensures stream == if EndsInStream(group) then Some(group[|group| - 1].body.source) else None
  {
    r := body;
    for i := 0 to |group|
      invariant r + GroupBytes(boundary, group[i..]) == body + GroupBytes(boundary, group)
      invariant forall j | 0 <= j < i :: group[j].body.Bytes?
    {
      ghost var before := r;
      r := AppendHead(r, boundary, group[i]);
      match group[i].body {
        case Bytes(content) =>
          r := r + content;
          r := r + CRLF;
          JoinFive(before, Head(boundary, group[i]), content, CRLF, GroupBytes(boundary, group[i + 1..]));
          assert group[i..][1..] == group[i + 1..];
        case Streamed(source) =>
          stream := Some(source);
          return;
      }
    }
    stream := None;
  }

  /** What is out, with the bytes `open` that start the next buffer, followed by the parts left, is the whole form. */
  ghost predicate Said(boundary: seq<byte>, parts: seq<FormPart>, ret: seq<Part>, open: seq<byte>,
      left: seq<FormPart>) {
    Content(ret) + open + Render(boundary, left) == Render(boundary, parts)
  }

  /** Pairs of data and stream so far, with the form's streams in order. */
  ghost predicate Shaped(parts: seq<FormPart>, ret: seq<Part>, left: seq<FormPart>) {
    && StreamItems(ret) + StreamsOf(left) == StreamsOf(parts)
    && |ret| + 2 * StreamCount(left) == 2 * StreamCount(parts)
    && Pairs(ret)
  }

  lemma Account5<T>(a: seq<T>, b: seq<T>, c: seq<T>, d: seq<T>, e: seq<T>, f: seq<T>)
    ensures a + b + (c + (d + e + f)) == a + (b + c + d) + e + f
  {
  }

  lemma SaidStream(boundary: seq<byte>, parts: seq<FormPart>, ret: seq<Part>, open: seq<byte>, left: seq<FormPart>,
                   data: seq<byte>, source: Source)
    requires Said(boundary, parts, ret, open, left) && EndsInStream(left[..GroupLength(left)])
    requires data == open + GroupBytes(boundary, left[..GroupLength(left)])
    requires source == left[GroupLength(left) - 1].body.source
    ensures Said(boundary, parts, ret + [Data(data), Stream(source)], CRLF, left[GroupLength(left)..])
  {
    var n := GroupLength(left);
    RenderSplits(boundary, left);
    ContentAppend(ret, [Data(data), Stream(source)]);
    ContentOfPair(data, source);
    Account5(Content(ret), open, GroupBytes(boundary, left[..n]), source.rest, CRLF, Render(boundary, left[n..]));
  }

  lemma SaidEnd(boundary: seq<byte>, parts: seq<FormPart>, ret: seq<Part>, open: seq<byte>, left: seq<FormPart>,
      data: seq<byte>)
    requires Said(boundary, parts, ret, open, left) && !EndsInStream(left[..GroupLength(left)])
    requires data == open + GroupBytes(boundary, left[..GroupLength(left)])
    ensures Content(ret + [Data(data + Closing(boundary))]) == Render(boundary, parts)
  {
    var g, c := GroupBytes(boundary, left[..GroupLength(left)]), Closing(boundary);
    var last := [Data(data + c)];
    RenderSplits(boundary, left);
    ContentAppend(ret, last);
    assert Content(last) == data + c by {
      assert last[1..] == [];
    }
    Assoc(open, g, c);
    Assoc(Content(ret), open, g + c);
  }

  lemma ShapedStream(parts: seq<FormPart>, ret: seq<Part>, left: seq<FormPart>, data: seq<byte>, source: Source)
    requires Shaped(parts, ret, left) && EndsInStream(left[..GroupLength(left)])
    requires source == left[GroupLength(left) - 1].body.source
    ensures Shaped(parts, ret + [Data(data), Stream(source)], left[GroupLength(left)..])
  {
    StreamsSplit(left);
    StreamItemsAppend(ret, [Data(data), Stream(source)]);
    ContentOfPair(data, source);
    PairsAppend(ret, data, source);
    Assoc(StreamItems(ret), [Stream(source)], StreamsOf(left[GroupLength(left)..]));
  }

  lemma ShapedEnd(parts: seq<FormPart>, ret: seq<Part>, left: seq<FormPart>, data: seq<byte>)
    requires Shaped(parts, ret, left) && !EndsInStream(left[..GroupLength(left)])
    ensures var items := ret + [Data(data)];
      StreamItems(items) == StreamsOf(parts) && Alternates(items) && |items| == 2 * StreamCount(parts) + 1
  {
    StreamsSplit(left);
    StreamItemsAppend(ret, [Data(data)]);
    assert StreamItems([Data(data)]) == [];
    assert (ret + [Data(data)])[..|ret|] == ret;
  }

  /** Every data buffer is within the capacity it was allocated with. */
  predicate Within(items: seq<Part>, reserved: seq<nat>) {
    if items == [] then reserved == []
    else if items[0].Stream? then Within(items[1..], reserved)
    else reserved != [] && |items[0].bytes| <= reserved[0] && Within(items[1..], reserved[1..])
  }

  lemma {:induction false} WithinAppend(items: seq<Part>, reserved: seq<nat>, tail: seq<Part>, capacity: nat)
    requires Within(items, reserved) && Within(tail, [capacity])
    ensures Within(items + tail, reserved + [capacity])
  {
    if items == [] {
      assert items + tail == tail && reserved + [capacity] == [capacity];
    } else {
      WithinAppend(items[1..], if items[0].Stream? then reserved else reserved[1..], tail, capacity);
      assert (items + tail)[1..] == items[1..] + tail;
      if items[0].Data? {
        assert (reserved + [capacity])[1..] == reserved[1..] + [capacity];
      }
    }
  }

  /** The buffer of one group is within its capacity. */
  lemma WithinStep(boundary: seq<byte>, ret: seq<Part>, reserved: seq<nat>, open: seq<byte>, group: seq<FormPart>,
                   tail: seq<Part>, capacity: nat)
    requires Within(ret, reserved) && |open| <= 2 && IsGroup(group)
    requires forall p | p in group :: NothingToEscape(p)
    requires capacity >= |boundary| + 8 + EstimateParts(boundary, group)
    requires |tail| == 1 ==> tail[0] == Data(open + GroupBytes(boundary, group) + Closing(boundary))
    requires |tail| == 2 ==> tail[0] == Data(open + GroupBytes(boundary, group)) && tail[1].Stream?
    requires 1 <= |tail| <= 2
    ensures Within(ret + tail, reserved + [capacity])
  {
    GroupBytesLength(boundary, group);
    assert Within(tail[1..], []);
    WithinAppend(ret, reserved, tail, capacity);
  }

  /** `generate_multipart_body`: parts up to a stream share one data buffer. The result says the same bytes as the
      simple rendering, alternates data and streams, and keeps the streams in order; `reserved` lists the
      capacities its buffers were allocated with, which suffice when nothing has to be escaped. */
  method GenerateMultipartBody(boundary: seq<byte>, parts: seq<FormPart>) returns (ret: seq<Part>, reserved: seq<nat>)
    ensures Content(ret) == Render(boundary, parts)
    ensures Alternates(ret) && |ret| == 2 * StreamCount(parts) + 1
    ensures StreamItems(ret) == StreamsOf(parts)
    ensures (forall p | p in parts :: NothingToEscape(p)) ==> Within(ret, reserved)
  {
    hide Render, GroupBytes, StreamsOf, EstimateParts;
    ghost var plain := forall p | p in parts :: NothingToEscape(p);
    var group, rest := parts[..GroupLength(parts)], parts[GroupLength(parts)..];
    var left := parts;
    var body: seq<byte> := [];
    var capacity := EstimateNextDataChunkSizeUntilStream(boundary, group);
    ret, reserved := [], [];
    GroupShape(parts);
    EstimateOfGroup(boundary, group);
    while true
      invariant group == left[..GroupLength(left)] && rest == left[GroupLength(left)..]
      invariant IsGroup(group) && GroupLength(group) == |group| && (forall p | p in left :: p in parts)
      invariant Said(boundary, parts, ret, body, left) && Shaped(parts, ret, left)
      invariant |body| <= 2
      invariant capacity >= |boundary| + 8 + EstimateParts(boundary, group)
      invariant plain ==> Within(ret, reserved)
      decreases |left|
    {
      ghost var open := body;
      var stream;
      body, stream := AppendGroup(body, boundary, group);
      if plain {
        assert forall p | p in group :: p in left;
        WithinStep(boundary, ret, reserved, open, group,
                   if stream.None? then [Data(body + Closing(boundary))] else [Data(body), Stream(stream.value)],
                   capacity);
      }
      reserved := reserved + [capacity];
      if stream.None? {
        SaidEnd(boundary, parts, ret, open, left, body);
        ShapedEnd(parts, ret, left, body + Closing(boundary));
        break;
      }
      SaidStream(boundary, parts, ret, open, left, body, stream.value);
      ShapedStream(parts, ret, left, body, stream.value);
      ret := ret + [Data(body), Stream(stream.value)];
      left := rest;
      group, rest := left[..GroupLength(left)], left[GroupLength(left)..];
      GroupShape(left);
      EstimateOfGroup(boundary, group);
      capacity := EstimateNextDataChunkSizeUntilStream(boundary, group) + |boundary|;
      body := CRLF;
    }
    body := body + Closing(boundary);
    ret := ret + [Data(body)];
  }
}
