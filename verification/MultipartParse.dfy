/** A multipart/form-data parser (section 5.1.1 of RFC 2046, section 4 of RFC 7578) and the round trip through it. */
module MultipartParse {
  import opened Bytes
  import opened Streams
  import opened Multipart

  /** One received form field. */
  datatype Field = Field(
    name: seq<byte>,
    filename: Option<seq<byte>>,
    contentType: seq<byte>,
    headers: seq<Header>,
    content: seq<byte>
  )

  function Delimiter(boundary: seq<byte>): seq<byte> {
    CRLF + DASHES + boundary
  }

  /** The header lines up to the blank line, and the offset behind it. */
  function ParseLines(s: seq<byte>): Option<(seq<seq<byte>>, nat)>
    decreases |s|
  {
    match Find(CRLF, s, 0)
    case None => None
    case Some(i) =>
      if i == 0 then Some(([], 2))
      else match ParseLines(s[i + 2..]) {
        case None => None
        case Some((lines, used)) => Some(([s[..i]] + lines, i + 2 + used))
      }
  }

  /** The offset of the first byte `c`. */
  function IndexOf(s: seq<byte>, c: byte): (r: Option<nat>)
    ensures r.Some? ==> r.value < |s|
  {
    if s == [] then None
    else if s[0] == c then Some(0)
    else match IndexOf(s[1..], c) {
      case None => None
      case Some(i) => Some(i + 1)
    }
  }

  /** A field line: its name up to the first colon, and its value behind the space that follows. */
  function ParseHeader(line: seq<byte>): Option<Header> {
    match IndexOf(line, COLON)
    case None => None
    case Some(i) =>
      var v := line[i + 1..];
      Some((line[..i], if v != [] && v[0] == 32 then v[1..] else v))
  }

  function ParseHeaders(lines: seq<seq<byte>>): Option<seq<Header>> {
    if lines == [] then Some([])
    else match (ParseHeader(lines[0]), ParseHeaders(lines[1..])) {
      case (Some(h), Some(hs)) => Some([h] + hs)
      case _ => None
    }
  }

  /** The first header of this name, whatever its case, and the others. */
  function TakeHeader(hs: seq<Header>, name: seq<byte>): Option<(seq<byte>, seq<Header>)> {
    if hs == [] then None
    else if EqIgnoreCase(hs[0].0, name) then Some((hs[0].1, hs[1..]))
    else match TakeHeader(hs[1..], name) {
      case None => None
      case Some((v, rest)) => Some((v, [hs[0]] + rest))
    }
  }

  const BACKSLASH: byte := 92

  /** The text of a quoted-string (section 3.3 of RFC 822) behind its opening quote: a backslash stands for the byte
      behind it. Its value, and the offset behind the closing quote. */
  function Quoted(s: seq<byte>): (r: Option<(seq<byte>, nat)>)
    ensures r.Some? ==> |r.value.0| < r.value.1 <= |s|
  {
    if s == [] then None
    else if s[0] == QUOTE then Some(([], 1))
    else
      var step := if s[0] == BACKSLASH then 2 else 1;
      if step > |s| then None
      else match Quoted(s[step..]) {
        case None => None
        case Some((value, used)) => Some(([s[step - 1]] + value, step + used))
      }
  }

  /** A quoted parameter behind `prefix`: its value, and the offset behind the closing quote. */
  function ParseQuoted(s: seq<byte>, prefix: seq<byte>): Option<(seq<byte>, nat)> {
    if !OccursAt(prefix, s, 0) then None
    else match Quoted(s[|prefix|..]) {
      case None => None
      case Some((value, used)) => Some((value, |prefix| + used))
    }
  }

  /** The value of Content-Disposition: the name and the optional filename. */
  function ParseDisposition(v: seq<byte>): Option<(seq<byte>, Option<seq<byte>>)> {
    match ParseQuoted(v, Ascii(FORM_DATA))
    case None => None
    case Some((name, used)) =>
      if used >= |v| then Some((name, None))
      else match ParseQuoted(v[used..], Ascii(FILENAME)) {
        case Some((filename, end)) => if used + end == |v| then Some((name, Some(filename))) else None
        case None => None
      }
  }

  function ParseField(lines: seq<seq<byte>>, content: seq<byte>): Option<Field> {
    match ParseHeaders(lines)
    case None => None
    case Some(hs) =>
      match TakeHeader(hs, Ascii(DISPOSITION_NAME))
      case None => None
      case Some((disposition, hs1)) =>
        match (ParseDisposition(disposition), TakeHeader(hs1, Ascii(TYPE_NAME)))
        case (Some((name, filename)), Some((contentType, hs2))) =>
          Some(Field(name, filename, contentType, hs2, content))
        case _ => None
  }

  /** The parts behind a dash-boundary: the closing dashes and CRLF, or a CRLF, the header lines, and the content
      up to the next delimiter. */
  function ParseParts(boundary: seq<byte>, s: seq<byte>): Option<seq<Field>>
    decreases |s|
  {
    if OccursAt(DASHES, s, 0) then
      if s[2..] == CRLF then Some([]) else None
    else if !OccursAt(CRLF, s, 0) then None
    else ParsePart(boundary, s[2..])
  }

  function ParsePart(boundary: seq<byte>, s: seq<byte>): Option<seq<Field>>
    decreases |s|
  {
    match ParseLines(s)
    case None => None
    case Some((lines, used)) =>
      if used > |s| then None
      else
        var body := s[used..];
        match Find(Delimiter(boundary), body, 0)
        case None => None
        case Some(i) =>
          match (ParseField(lines, body[..i]), ParseParts(boundary, body[i + |Delimiter(boundary)|..]))
          case (Some(f), Some(fs)) => Some([f] + fs)
          case _ => None
  }

  function ParseForm(boundary: seq<byte>, s: seq<byte>): Option<seq<Field>> {
    var opening := DASHES + boundary;
    if OccursAt(opening, s, 0) then ParseParts(boundary, s[|opening|..]) else None
  }

  /** What a receiver should see of a part: the cleaned filename and headers, all else unchanged. */
  function Received(p: FormPart): Field {
    Field(p.name, if p.filename.Some? then Some(CleanFilename(p.filename.value)) else None,
          p.contentType, CleanHeaders(p.headers), p.body.Content())
  }

  function CleanHeaders(hs: seq<Header>): seq<Header> {
    if hs == [] then [] else [QuickEscapeHeader(hs[0])] + CleanHeaders(hs[1..])
  }

  function ReceivedAll(parts: seq<FormPart>): seq<Field> {
    if parts == [] then [] else [Received(parts[0])] + ReceivedAll(parts[1..])
  }

  const SPECIAL: set<byte> := {QUOTE, BACKSLASH}

  /** The strings that the generator prints as they are hold no CRLF and, in the name, no quote and no backslash. */
  predicate Printable(p: FormPart) {
    && Lacks(p.name, SPECIAL) && !Occurs(CRLF, p.name)
    && !Occurs(CRLF, p.contentType)
    && (p.filename.Some? ==> !Occurs(CRLF, p.filename.value))
  }

  predicate AllPrintable(parts: seq<FormPart>) {
    parts == [] || (Printable(parts[0]) && AllPrintable(parts[1..]))
  }

  /** The delimiter stands in no content. */
  predicate NoDelimiter(boundary: seq<byte>, parts: seq<FormPart>) {
    parts == [] || (!Occurs(Delimiter(boundary), parts[0].body.Content()) && NoDelimiter(boundary, parts[1..]))
  }

  /** A delimiter whose boundary holds no CR cannot overlap itself: behind content without it, its first
      occurrence is its own. */
  lemma DelimiterDoesNotOverlap(boundary: seq<byte>, content: seq<byte>, tail: seq<byte>)
    requires CR !in boundary && !Occurs(Delimiter(boundary), content)
    ensures Find(Delimiter(boundary), content + Delimiter(boundary) + tail, 0) == Some(|content|)
  {
    var d := Delimiter(boundary);
    var s := content + d + tail;
    assert forall k | 1 <= k < |d| :: d[k] != CR by {
      assert forall k | 4 <= k < |d| :: d[k] == boundary[k - 4];
    }
    forall i | 0 <= i < |content|
      ensures !OccursAt(d, s, i)
    {
      if i + |d| <= |content| {
        assert content[i..i + |d|] == s[i..i + |d|];
        assert !OccursAt(d, content, i);
      } else if i + |d| <= |s| {
        assert s[i..i + |d|][|content| - i] == s[|content|] == CR;
      }
    }
    assert s[|content|..|content| + |d|] == d;
    FindIs(d, s, 0, |content|);
  }

  /** With the delimiter in the content, an earlier occurrence is found. */
  lemma DelimiterInContent(boundary: seq<byte>, content: seq<byte>, tail: seq<byte>)
    requires Occurs(Delimiter(boundary), content)
    ensures var r := Find(Delimiter(boundary), content + Delimiter(boundary) + tail, 0);
      r.Some? && r.value < |content|
  {
    var d := Delimiter(boundary);
    var s := content + d + tail;
    FindIsFirst(d, s, 0);
    var i :| 0 <= i <= |content| && OccursAt(d, content, i);
    assert s[i..i + |d|] == content[i..i + |d|];
    assert OccursAt(d, s, i);
  }

  /** A line ends at its CRLF; one that holds a CRLF ends there. */
  lemma LineEnds(line: seq<byte>, tail: seq<byte>)
    ensures var r := Find(CRLF, line + CRLF + tail, 0);
      if Occurs(CRLF, line) then r.Some? && r.value < |line| && OccursAt(CRLF, line, r.value) else r == Some(|line|)
  {
    var s := line + CRLF + tail;
    FindIsFirst(CRLF, s, 0);
    forall i | 0 <= i < |line| ensures OccursAt(CRLF, s, i) <==> OccursAt(CRLF, line, i) {
      if i + 2 <= |line| {
        assert s[i..i + 2] == line[i..i + 2];
      } else {
        assert s[i..i + 2][1] == CR;
      }
    }
    assert s[|line|..|line| + 2] == CRLF;
    assert OccursAt(CRLF, s, |line|);
    if Occurs(CRLF, line) {
      var i :| 0 <= i <= |line| && OccursAt(CRLF, line, i);
      assert OccursAt(CRLF, s, i);
    } else {
      forall i | 0 <= i < |line| ensures !OccursAt(CRLF, s, i) {
        assert !OccursAt(CRLF, line, i);
      }
      FindIs(CRLF, s, 0, |line|);
    }
  }

  /** A CRLF in two joined texts stands in one of them, unless it spans both. */
  lemma OccursInJoin(a: seq<byte>, b: seq<byte>)
    requires a == [] || b == [] || a[|a| - 1] != CR || b[0] != LF
    ensures Occurs(CRLF, a + b) <==> Occurs(CRLF, a) || Occurs(CRLF, b)
  {
    if Occurs(CRLF, a + b) {
      var i :| 0 <= i <= |a + b| && OccursAt(CRLF, a + b, i);
      OccursAtInJoin(a, b, i);
      hide OccursAt;
    }
    if Occurs(CRLF, a) {
      var i :| 0 <= i <= |a| && OccursAt(CRLF, a, i);
      OccursAtInJoin(a, b, i);
      hide OccursAt;
    }
    if Occurs(CRLF, b) {
      var i :| 0 <= i <= |b| && OccursAt(CRLF, b, i);
      OccursAtInJoin(a, b, |a| + i);
      hide OccursAt;
    }
  }

  lemma OccursAtInJoin(a: seq<byte>, b: seq<byte>, i: nat)
    requires a == [] || b == [] || a[|a| - 1] != CR || b[0] != LF
    ensures OccursAt(CRLF, a + b, i) <==> OccursAt(CRLF, a, i) || (i >= |a| && OccursAt(CRLF, b, i - |a|))
  {
    if i + 2 <= |a + b| {
      var s := a + b;
      assert s[i..i + 2] == [s[i], s[i + 1]];
      assert i + 2 <= |a| ==> a[i..i + 2] == [s[i], s[i + 1]];
      assert i >= |a| ==> b[i - |a|..i - |a| + 2] == [s[i], s[i + 1]];
    }
  }

  /** A CRLF in a text stands behind the fixed front of it. */
  lemma CutPast(front: seq<byte>, back: seq<byte>, i: nat)
    requires Lacks(front, NEW_LINE) && OccursAt(CRLF, front + back, i)
    ensures |front| <= i && i + 1 < |front| + |back| && OccursAt(CRLF, back, i - |front|)
    ensures (front + back)[..i] == front + back[..i - |front|]
    ensures back[i - |front|] == CR
  {
    var s := front + back;
    assert s[i..i + 2][0] == s[i] == CR;
    assert i >= |front|;
    assert back[i - |front|..i - |front| + 2] == s[i..i + 2];
  }

  lemma LacksHasNone(s: seq<byte>)
    requires Lacks(s, NEW_LINE)
    ensures !Occurs(CRLF, s)
  {
    forall i: nat | i + 2 <= |s| ensures !OccursAt(CRLF, s, i) {
      assert s[i..i + 2][0] == s[i];
    }
  }

  predicate CleanLines(lines: seq<seq<byte>>) {
    lines == [] || (lines[0] != [] && !Occurs(CRLF, lines[0]) && CleanLines(lines[1..]))
  }

  /** One line in front of others, and the blank line that ends them. */
  lemma ParseOneLine(line: seq<byte>, rest: seq<byte>)
    requires !Occurs(CRLF, line)
    ensures ParseLines(line + CRLF + rest) ==
            if line == [] then Some(([], 2))
            else match ParseLines(rest)
              case None => None
              case Some((lines, used)) => Some(([line] + lines, |line| + 2 + used))
  {
    var s := line + CRLF + rest;
    LineEnds(line, rest);
    Window(line, CRLF, rest);
  }

  /** Joined lines are split back. */
  lemma {:induction false} LinesRoundTrip(lines: seq<seq<byte>>, tail: seq<byte>)
    requires CleanLines(lines)
    ensures ParseLines(JoinLines(lines) + CRLF + tail) == Some((lines, |JoinLines(lines)| + 2))
  {
    hide ParseLines, Find;
    if lines == [] {
      LacksHasNone([]);
      ParseOneLine([], tail);
      assert JoinLines(lines) + CRLF + tail == [] + CRLF + tail;
    } else {
      LinesRoundTrip(lines[1..], tail);
      ParseOneLine(lines[0], JoinLines(lines[1..]) + CRLF + tail);
      assert [lines[0]] + lines[1..] == lines;
      FirstLine(lines[0], JoinLines(lines[1..]), tail);
    }
  }

  lemma FirstLine(line: seq<byte>, lines: seq<byte>, tail: seq<byte>)
    ensures line + CRLF + lines + CRLF + tail == line + CRLF + (lines + CRLF + tail)
  {
  }

  lemma {:induction false} IndexAfter(before: seq<byte>, c: byte, after: seq<byte>)
    requires Lacks(before, {c})
    ensures IndexOf(before + [c] + after, c) == Some(|before|)
  {
    var s := before + [c] + after;
    if before != [] {
      IndexAfter(before[1..], c, after);
      assert s[1..] == before[1..] + [c] + after;
    }
  }

  /** A header without a colon in its name is read back. */
  lemma HeaderRoundTrip(name: seq<byte>, value: seq<byte>)
    requires Lacks(name, {COLON})
    ensures ParseHeader(name + Ascii(SEPARATOR) + value) == Some((name, value))
  {
    var line := name + Ascii(SEPARATOR) + value;
    assert Ascii(SEPARATOR) == [COLON] + [32];
    assert line == name + [COLON] + ([32] + value);
    IndexAfter(name, COLON, [32] + value);
    assert line[..|name|] == name && line[|name| + 1..] == [32] + value;
  }

  lemma {:induction false} HeadersRoundTrip(hs: seq<Header>)
    ensures ParseHeaders(HeaderLines(hs)) == Some(CleanHeaders(hs))
    ensures CleanLines(HeaderLines(hs))
  {
    hide ParseHeader, QuickEscapeHeader;
    if hs != [] {
      EscapedHeaderIsClean(hs[0]);
      HeaderRoundTrip(QuickEscapeHeader(hs[0]).0, QuickEscapeHeader(hs[0]).1);
      HeadersRoundTrip(hs[1..]);
      assert HeaderLines(hs)[1..] == HeaderLines(hs[1..]);
      assert Ascii(SEPARATOR) == [58, 32];
      LacksHasNone(HeaderLine(hs[0]));
    }
  }

  /** A quoted value without quotes and backslashes is read back, whatever follows it. */
  lemma {:induction false} PlainIsKept(value: seq<byte>, tail: seq<byte>)
    requires Lacks(value, SPECIAL)
    ensures Quoted(value + [QUOTE] + tail) == Some((value, |value| + 1))
  {
    var s := value + [QUOTE] + tail;
    if value != [] {
      PlainIsKept(value[1..], tail);
      assert s[0] == value[0] && s[1..] == value[1..] + [QUOTE] + tail;
      assert value == [value[0]] + value[1..];
    }
  }

  lemma {:induction false} QuotedNeedsItsEnd(s: seq<byte>)
    requires Lacks(s, {QUOTE})
    ensures Quoted(s) == None
  {
    if |s| > 1 {
      QuotedNeedsItsEnd(s[1..]);
      QuotedNeedsItsEnd(s[2..]);
    }
  }

  /** `w` says what is printed of a name and the quote behind it, as far as it goes; anything may follow. */
  predicate Says(w: seq<byte>, name: seq<byte>) {
    forall i | 0 <= i < |w| && i <= |name| :: w[i] == (name + [QUOTE])[i]
  }

  /** Behind a backslash the value lags: what is read from offset `i` on is not the name from an earlier `o` on, since
      it could only be by backslashes all the way to the closing quote. */
  lemma {:induction false} ValueLags(name: seq<byte>, w: seq<byte>, i: nat, o: nat)
    requires Says(w, name) && o < i <= |name| && i <= |w|
    requires forall k | o <= k < i :: name[k] == BACKSLASH
    ensures var r := Quoted(w[i..]); r.Some? ==> r.value.0 != name[o..]
    decreases |name| - i
  {
    var s := w[i..];
    var r := Quoted(s);
    if r.Some? && r.value.0 == name[o..] {
      assert s[0] == w[i] == (name + [QUOTE])[i];
      assert r.value.0[0] == name[o] == BACKSLASH;
      assert s[1] == w[i + 1] == (name + [QUOTE])[i + 1] == BACKSLASH;
      assert s[2..] == w[i + 2..];
      assert r.value.0[1..] == name[o..][1..] == name[o + 1..];
      ValueLags(name, w, i + 2, o + 1);
    }
  }

  /** A name that holds a quote or a backslash, or is cut, is read back as another one, if at all. */
  lemma {:induction false} NameDiffers(name: seq<byte>, w: seq<byte>)
    requires Says(w, name) && (|w| <= |name| || !Lacks(name, SPECIAL))
    ensures var r := Quoted(w); r.Some? ==> r.value.0 != name
  {
    var r := Quoted(w);
    if r.Some? && r.value.0 == name && name != [] {
      assert name[1..] == r.value.0[1..];
      if name[0] == BACKSLASH {
        ValueLags(name, w, 2, 1);
      } else {
        assert name == [name[0]] + name[1..];
        NameDiffers(name[1..], w[1..]);
      }
    }
  }

  /** A name printed between quotes is read back, whatever follows it, exactly when it holds no quote and no
      backslash. */
  lemma QuotedNameIff(name: seq<byte>, tail: seq<byte>)
    ensures var r := Quoted(name + [QUOTE] + tail);
      (r.Some? && r.value.0 == name) <==> Lacks(name, SPECIAL)
  {
    var w := name + [QUOTE] + tail;
    Window(name, [QUOTE], tail);
    if Lacks(name, SPECIAL) {
      PlainIsKept(name, tail);
    } else {
      NameDiffers(name, w);
    }
  }

  lemma QuotedRoundTrip(prefix: seq<byte>, value: seq<byte>, tail: seq<byte>)
    requires Lacks(value, SPECIAL)
    ensures ParseQuoted(prefix + value + [QUOTE] + tail, prefix) == Some((value, |prefix| + |value| + 1))
  {
    var s := prefix + value + [QUOTE] + tail;
    assert s[0..|prefix|] == prefix;
    assert s[|prefix|..] == value + [QUOTE] + tail;
    PlainIsKept(value, tail);
  }

  lemma NamesAreClean()
    ensures Lacks(Ascii(DISPOSITION_NAME), {COLON}) && Lacks(Ascii(DISPOSITION_NAME), NEW_LINE)
    ensures Lacks(Ascii(TYPE_NAME), {COLON}) && Lacks(Ascii(TYPE_NAME), NEW_LINE)
  {
    assert Lacks(Ascii(DISPOSITION_NAME), {COLON, CR, LF});
    assert Lacks(Ascii(TYPE_NAME), {COLON, CR, LF});
  }

  lemma ParametersAreClean()
    ensures Lacks(Ascii(SEPARATOR), NEW_LINE) && Lacks(Ascii(FORM_DATA), NEW_LINE) && Lacks(Ascii(FILENAME), NEW_LINE)
  {
  }

  lemma FixedTextsAreClean()
    ensures Lacks(DispositionText(), NEW_LINE) && Lacks(TypeText(), NEW_LINE)
  {
    NamesAreClean();
    ParametersAreClean();
    hide Ascii;
  }

  /** The value of the Content-Disposition line. */
  function DispositionValue(p: FormPart): seq<byte> {
    Ascii(FORM_DATA) + p.name + [QUOTE] +
    (if p.filename.Some? then Ascii(FILENAME) + CleanFilename(p.filename.value) + [QUOTE] else [])
  }

  lemma DispositionRoundTrip(p: FormPart)
    requires Lacks(p.name, SPECIAL)
    ensures ParseDisposition(DispositionValue(p)) == Some((p.name, Received(p).filename))
  {
    var v := DispositionValue(p);
    if p.filename.None? {
      QuotedRoundTrip(Ascii(FORM_DATA), p.name, []);
    } else {
      var f := CleanFilename(p.filename.value);
      CleaningKeepsLines(p.filename.value);
      hide CleanFilename, ParseQuoted;
      QuotedRoundTrip(Ascii(FORM_DATA), p.name, Ascii(FILENAME) + f + [QUOTE]);
      QuotedRoundTrip(Ascii(FILENAME), f, []);
      assert Ascii(FILENAME) + f + [QUOTE] + [] == Ascii(FILENAME) + f + [QUOTE];
      Window(Ascii(FORM_DATA) + p.name, [QUOTE], Ascii(FILENAME) + f + [QUOTE]);
    }
  }

  /** The header lines of a part read back to its two fixed headers and its cleaned ones. */
  lemma PartHeaders(p: FormPart)
    ensures ParseHeaders(Lines(p)) ==
            Some([(Ascii(DISPOSITION_NAME), DispositionValue(p))] +
                ([(Ascii(TYPE_NAME), p.contentType)] + CleanHeaders(p.headers)))
  {
    NamesAreClean();
    var lines := Lines(p);
    assert lines[0] == Ascii(DISPOSITION_NAME) + Ascii(SEPARATOR) + DispositionValue(p);
    assert lines[1] == Ascii(TYPE_NAME) + Ascii(SEPARATOR) + p.contentType;
    HeaderRoundTrip(Ascii(DISPOSITION_NAME), DispositionValue(p));
    HeaderRoundTrip(Ascii(TYPE_NAME), p.contentType);
    HeadersRoundTrip(p.headers);
    assert lines[1..][1..] == HeaderLines(p.headers);
    assert ParseHeaders(lines[1..]) == Some([(Ascii(TYPE_NAME), p.contentType)] + CleanHeaders(p.headers));
  }

  lemma TakeFirst(name: seq<byte>, value: seq<byte>, rest: seq<Header>)
    ensures TakeHeader([(name, value)] + rest, name) == Some((value, rest))
  {
    assert ([(name, value)] + rest)[1..] == rest;
  }

  lemma FieldRoundTrip(p: FormPart, content: seq<byte>)
    requires Lacks(p.name, SPECIAL)
    ensures ParseField(Lines(p), content) == Some(Received(p).(content := content))
  {
    PartHeaders(p);
    DispositionRoundTrip(p);
    TakeFirst(Ascii(DISPOSITION_NAME), DispositionValue(p),
        [(Ascii(TYPE_NAME), p.contentType)] + CleanHeaders(p.headers));
    TakeFirst(Ascii(TYPE_NAME), p.contentType, CleanHeaders(p.headers));
  }

  /** Cleaning a filename neither adds nor removes a CRLF. */
  lemma CleaningKeepsLines(f: seq<byte>)
    ensures Occurs(CRLF, CleanFilename(f)) <==> Occurs(CRLF, f)
    ensures |CleanFilename(f)| == |f| && Lacks(CleanFilename(f), SPECIAL)
  {
    CleanedAt(f);
    hide CleanFilename;
    var c := CleanFilename(f);
    forall i: nat | i + 2 <= |f| ensures OccursAt(CRLF, c, i) <==> OccursAt(CRLF, f, i) {
      assert c[i..i + 2] == [c[i], c[i + 1]] && f[i..i + 2] == [f[i], f[i + 1]];
    }
    if Occurs(CRLF, f) {
      var i :| 0 <= i <= |f| && OccursAt(CRLF, f, i);
      assert OccursAt(CRLF, c, i);
    }
    if Occurs(CRLF, c) {
      var i :| 0 <= i <= |c| && OccursAt(CRLF, c, i);
      assert OccursAt(CRLF, f, i);
    }
  }

  /** What stands behind the name in the disposition line. */
  function BehindName(p: FormPart): seq<byte> {
    if p.filename.Some? then Ascii(FILENAME) + CleanFilename(p.filename.value) + [QUOTE] else []
  }

  lemma BehindNameBreaksIff(p: FormPart)
    ensures Occurs(CRLF, BehindName(p)) <==> p.filename.Some? && Occurs(CRLF, p.filename.value)
  {
    ParametersAreClean();
    LacksHasNone([]);
    LacksHasNone([QUOTE]);
    LacksHasNone(Ascii(FILENAME));
    if p.filename.Some? {
      var f := CleanFilename(p.filename.value);
      CleaningKeepsLines(p.filename.value);
      OccursInJoin(Ascii(FILENAME), f);
      OccursInJoin(Ascii(FILENAME) + f, [QUOTE]);
    }
  }

  /** The two fixed lines hold a CRLF exactly when a string printed in them does. */
  lemma LinesBreakIff(p: FormPart)
    ensures Occurs(CRLF, DispositionLine(p)) <==>
        Occurs(CRLF, p.name) || (p.filename.Some? && Occurs(CRLF, p.filename.value))
    ensures Occurs(CRLF, TypeText() + p.contentType) <==> Occurs(CRLF, p.contentType)
  {
    FixedTextsAreClean();
    hide DispositionText, TypeText, Ascii;
    LacksHasNone(DispositionText());
    LacksHasNone(TypeText());
    LacksHasNone([QUOTE]);
    BehindNameBreaksIff(p);
    OccursInJoin(DispositionText(), p.name);
    OccursInJoin(DispositionText() + p.name, [QUOTE]);
    OccursInJoin(DispositionText() + p.name + [QUOTE], BehindName(p));
    OccursInJoin(TypeText(), p.contentType);
    assert DispositionLine(p) == DispositionText() + p.name + [QUOTE] + BehindName(p);
  }

  lemma LinesAreClean(p: FormPart)
    requires Printable(p)
    ensures CleanLines(Lines(p))
  {
    LinesBreakIff(p);
    HeadersRoundTrip(p.headers);
    var lines := Lines(p);
    assert lines[1..][1..] == HeaderLines(p.headers);
    assert DispositionText() != [] && TypeText() != [];
  }

  /** What stands behind the dash-boundary of the first of these parts, or of the closing delimiter. */
  function Behind(boundary: seq<byte>, parts: seq<FormPart>): seq<byte> {
    if parts == [] then DASHES + CRLF
    else CRLF + JoinLines(Lines(parts[0])) + CRLF + parts[0].body.Content() +
         Delimiter(boundary) + Behind(boundary, parts[1..])
  }

  lemma Shift<T>(a: seq<T>, b: seq<T>, c: seq<T>, d: seq<T>, e: seq<T>, f: seq<T>)
    ensures a + b + c + d + c + e + c + (a + b + f) == a + b + (c + d + c + e + (c + a + b) + f)
  {
  }

  lemma {:induction false} RenderIsBehind(boundary: seq<byte>, parts: seq<FormPart>)
    ensures Render(boundary, parts) == DASHES + boundary + Behind(boundary, parts)
  {
    if parts == [] {
      Assoc(DASHES + boundary, DASHES, CRLF);
    } else {
      RenderIsBehind(boundary, parts[1..]);
      Shift(DASHES, boundary, CRLF, JoinLines(Lines(parts[0])), parts[0].body.Content(), Behind(boundary, parts[1..]));
    }
  }

  lemma ParsePartsBehindLine(boundary: seq<byte>, tail: seq<byte>)
    ensures ParseParts(boundary, CRLF + tail) == ParsePart(boundary, tail)
  {
    hide ParsePart;
    Window([], CRLF, tail);
    assert [] + CRLF + tail == CRLF + tail;
  }

  /** Header lines and a body behind a CRLF: the body is read up to the first delimiter found from its start. */
  lemma ParseFirst(boundary: seq<byte>, lines: seq<seq<byte>>, body: seq<byte>)
    requires CleanLines(lines)
    ensures ParseParts(boundary, CRLF + (JoinLines(lines) + CRLF + body)) ==
      match Find(Delimiter(boundary), body, 0)
      case None => None
      case Some(i) =>
        match (ParseField(lines, body[..i]), ParseParts(boundary, body[i + |Delimiter(boundary)|..]))
        case (Some(f), Some(fs)) => Some([f] + fs)
        case _ => None
  {
    hide ParseField, ParseLines, ParseParts, JoinLines, CleanLines, Find, Delimiter;
    LinesRoundTrip(lines, body);
    Window(JoinLines(lines), CRLF, body);
    ParsePartsBehindLine(boundary, JoinLines(lines) + CRLF + body);
  }

  /** One part is read up to the first delimiter found from the start of its content. */
  lemma ParseOnePart(boundary: seq<byte>, parts: seq<FormPart>)
    requires parts != [] && Printable(parts[0])
    ensures var p, behind := parts[0], Behind(boundary, parts[1..]);
      var body := p.body.Content() + Delimiter(boundary) + behind;
      ParseParts(boundary, Behind(boundary, parts)) ==
      match Find(Delimiter(boundary), body, 0)
      case None => None
      case Some(i) =>
        match ParseParts(boundary, body[i + |Delimiter(boundary)|..])
        case None => None
        case Some(fs) => Some([Received(p).(content := body[..i])] + fs)
  {
    hide ParseField, ParseParts, JoinLines, Lines, Find, Delimiter, Received, Occurs;
    var p := parts[0];
    var body := p.body.Content() + Delimiter(boundary) + Behind(boundary, parts[1..]);
    LinesAreClean(p);
    ParseFirst(boundary, Lines(p), body);
    SplitHead(JoinLines(Lines(p)), p.body.Content(), Delimiter(boundary), Behind(boundary, parts[1..]));
    var r := Find(Delimiter(boundary), body, 0);
    if r.Some? {
      FieldRoundTrip(p, body[..r.value]);
    }
  }

  lemma SplitHead(a: seq<byte>, b: seq<byte>, c: seq<byte>, d: seq<byte>)
    ensures CRLF + a + CRLF + b + c + d == CRLF + (a + CRLF + (b + c + d))
  {
  }

  lemma ParseClosing(boundary: seq<byte>)
    ensures ParseParts(boundary, DASHES + CRLF) == Some([])
  {
    assert (DASHES + CRLF)[0..2] == DASHES && (DASHES + CRLF)[2..] == CRLF;
  }

  lemma QuotedBehind(prefix: seq<byte>, w: seq<byte>)
    ensures ParseQuoted(prefix + w, prefix) ==
            match Quoted(w) case None => None case Some((value, used)) => Some((value, |prefix| + used))
  {
    Window([], prefix, w);
    assert [] + prefix + w == prefix + w;
  }

  /** A name that holds a quote or a backslash, or is cut, is not the name that a disposition value says. */
  lemma DispositionDiffers(name: seq<byte>, w: seq<byte>)
    requires Says(w, name) && (|w| <= |name| || !Lacks(name, SPECIAL))
    ensures var r := ParseDisposition(Ascii(FORM_DATA) + w); r.Some? ==> r.value.0 != name
  {
    hide ParseQuoted;
    QuotedBehind(Ascii(FORM_DATA), w);
    NameDiffers(name, w);
  }

  /** A filename that is cut has no closing quote. */
  lemma CutFilenameIsRefused(name: seq<byte>, cut: seq<byte>)
    requires Lacks(name, SPECIAL) && Lacks(cut, {QUOTE})
    ensures ParseDisposition(Ascii(FORM_DATA) + (name + [QUOTE] + (Ascii(FILENAME) + cut))) == None
  {
    var w := name + [QUOTE] + (Ascii(FILENAME) + cut);
    var v := Ascii(FORM_DATA) + w;
    PlainIsKept(name, Ascii(FILENAME) + cut);
    Window(name, [QUOTE], Ascii(FILENAME) + cut);
    QuotedBehind(Ascii(FORM_DATA), w);
    QuotedBehind(Ascii(FILENAME), cut);
    QuotedNeedsItsEnd(cut);
    assert v[|Ascii(FORM_DATA)| + (|name| + 1)..] == w[|name| + 1..];
    assert |Ascii(FILENAME)| > 0;
    hide ParseQuoted, Quoted;
  }

  /** What behind `name="` stands in the first line that the parser finds: all of it, or the front up to a CRLF. */
  predicate FirstLineSays(p: FormPart, w: seq<byte>) {
    var whole := p.name + [QUOTE] + BehindName(p);
    if Occurs(CRLF, whole) then |w| < |whole| && w == whole[..|w|] && OccursAt(CRLF, whole, |w|)
    else w == whole
  }

  /** A part whose name or filename is broken is read back with another name, if at all. */
  lemma BrokenNameIsSeen(p: FormPart, w: seq<byte>)
    requires FirstLineSays(p, w)
    requires !Lacks(p.name, SPECIAL) || Occurs(CRLF, p.name) || (p.filename.Some? && Occurs(CRLF, p.filename.value))
    ensures var r := ParseDisposition(Ascii(FORM_DATA) + w); r.Some? ==> r.value.0 != p.name
  {
    var whole := p.name + [QUOTE] + BehindName(p);
    WholeBreaksIff(p);
    Window(p.name, [QUOTE], BehindName(p));
    hide BehindName, ParseDisposition;
    assert Says(w, p.name) by {
      assert forall i | 0 <= i < |w| :: w[i] == whole[i];
      assert forall i | 0 <= i <= |p.name| :: whole[i] == (p.name + [QUOTE])[i];
    }
    if |w| <= |p.name| || !Lacks(p.name, SPECIAL) {
      DispositionDiffers(p.name, w);
    } else {
      FrontOfFront(whole, |p.name|, |w|);
      BrokenFilenameIsSeen(p, w);
    }
  }

  lemma FrontOfFront(s: seq<byte>, i: nat, j: nat)
    requires i <= j <= |s|
    ensures s[..j][..i] == s[..i] && s[..i] <= s[..j]
  {
  }

  lemma WholeBreaksIff(p: FormPart)
    ensures Occurs(CRLF, p.name + [QUOTE] + BehindName(p)) <==>
            Occurs(CRLF, p.name) || (p.filename.Some? && Occurs(CRLF, p.filename.value))
  {
    BehindNameBreaksIff(p);
    LacksHasNone([QUOTE]);
    OccursInJoin(p.name, [QUOTE]);
    OccursInJoin(p.name + [QUOTE], BehindName(p));
  }

  /** The cut falls into the filename. */
  lemma BrokenFilenameIsSeen(p: FormPart, w: seq<byte>)
    requires Lacks(p.name, SPECIAL) && |w| > |p.name|
    requires var whole := p.name + [QUOTE] + BehindName(p);
      |w| < |whole| && w == whole[..|w|] && OccursAt(CRLF, whole, |w|)
    ensures ParseDisposition(Ascii(FORM_DATA) + w) == None
  {
    var front, behind := p.name + [QUOTE], BehindName(p);
    var k := |w| - |front|;
    WholeOccursPast(front, behind, |w|);
    assert p.filename.Some?;
    var f := CleanFilename(p.filename.value);
    ParametersAreClean();
    CleaningKeepsLines(p.filename.value);
    assert behind == Ascii(FILENAME) + (f + [QUOTE]);
    CutPast(Ascii(FILENAME), f + [QUOTE], k);
    var cut := f[..k - |Ascii(FILENAME)|];
    assert (f + [QUOTE])[..k - |Ascii(FILENAME)|] == cut;
    hide BehindName, ParseDisposition;
    CutFilenameIsRefused(p.name, cut);
  }

  lemma WholeOccursPast(front: seq<byte>, behind: seq<byte>, i: nat)
    requires |front| <= i && OccursAt(CRLF, front + behind, i)
    ensures OccursAt(CRLF, behind, i - |front|) && (front + behind)[..i] == front + behind[..i - |front|]
  {
    assert behind[i - |front|..i - |front| + 2] == (front + behind)[i..i + 2];
  }

  /** A line that holds a CRLF is found only up to it. */
  lemma CutLine(line: seq<byte>, rest: seq<byte>) returns (i: nat)
    requires Occurs(CRLF, line)
    ensures i < |line| && OccursAt(CRLF, line, i)
    ensures var r := ParseLines(line + CRLF + rest); i > 0 && r.Some? ==> r.value.0 != [] && r.value.0[0] == line[..i]
  {
    LineEnds(line, rest);
    var s := line + CRLF + rest;
    i := Find(CRLF, s, 0).value;
    assert s[..i] == line[..i];
  }

  lemma FirstLineIs(p: FormPart, rest: seq<byte>) returns (w: seq<byte>)
    ensures FirstLineSays(p, w)
    ensures var r := ParseLines(DispositionLine(p) + CRLF + rest);
      r.Some? ==> r.value.0 != [] && r.value.0[0] == DispositionText() + w
  {
    var line, text, whole := DispositionLine(p), DispositionText(), p.name + [QUOTE] + BehindName(p);
    FixedTextsAreClean();
    assert text != [];
    hide DispositionText;
    WholeBreaksIff(p);
    LinesBreakIff(p);
    NameFollowsText(p);
    hide DispositionLine, BehindName, Occurs, ParseLines;
    if Occurs(CRLF, whole) {
      var i := CutLine(line, rest);
      CutPast(text, whole, i);
      w := whole[..i - |text|];
    } else {
      w := whole;
      ParseOneLine(line, rest);
    }
  }

  lemma NameFollowsText(p: FormPart)
    ensures DispositionLine(p) == DispositionText() + (p.name + [QUOTE] + BehindName(p)) && DispositionLine(p) != []
  {
    Assoc(DispositionText(), p.name, [QUOTE]);
    Assoc(DispositionText(), p.name + [QUOTE], BehindName(p));
    assert DispositionText() != [];
  }

  /** A field that is read back has the name of its first header line. */
  lemma FieldNamed(lines: seq<seq<byte>>, w: seq<byte>, content: seq<byte>)
    requires lines != [] && lines[0] == DispositionText() + w
    ensures var r := ParseField(lines, content);
      var d := ParseDisposition(Ascii(FORM_DATA) + w);
      r.Some? ==> d.Some? && r.value.name == d.value.0
  {
    hide ParseDisposition, ParseHeader;
    NamesAreClean();
    var v := Ascii(FORM_DATA) + w;
    assert lines[0] == Ascii(DISPOSITION_NAME) + Ascii(SEPARATOR) + v;
    HeaderRoundTrip(Ascii(DISPOSITION_NAME), v);
    var hs := ParseHeaders(lines);
    if hs.Some? {
      assert hs.value[0] == (Ascii(DISPOSITION_NAME), v);
    }
  }

  /** And the content type of its second one. */
  lemma FieldTyped(lines: seq<seq<byte>>, w: seq<byte>, t: seq<byte>, content: seq<byte>)
    requires |lines| >= 2 && lines[0] == DispositionText() + w && lines[1] == TypeText() + t
    ensures var r := ParseField(lines, content); r.Some? ==> r.value.contentType == t
  {
    hide ParseDisposition, ParseHeader;
    NamesAreClean();
    assert lines[0] == Ascii(DISPOSITION_NAME) + Ascii(SEPARATOR) + (Ascii(FORM_DATA) + w);
    HeaderRoundTrip(Ascii(DISPOSITION_NAME), Ascii(FORM_DATA) + w);
    HeaderRoundTrip(Ascii(TYPE_NAME), t);
    var hs := ParseHeaders(lines);
    if hs.Some? {
      var h0, h1 := (Ascii(DISPOSITION_NAME), Ascii(FORM_DATA) + w), (Ascii(TYPE_NAME), t);
      assert lines[1..][0] == lines[1];
      var tail := ParseHeaders(lines[1..]);
      assert tail.Some? && tail.value[0] == h1 && hs.value == [h0] + tail.value;
      assert hs.value[0] == h0 && hs.value[1] == h1;
      assert hs.value == [h0] + hs.value[1..] && hs.value[1..] == [h1] + hs.value[1..][1..];
      TakeFirst(h0.0, h0.1, hs.value[1..]);
      TakeFirst(h1.0, h1.1, hs.value[1..][1..]);
    }
  }

  /** The content type is cut, behind a disposition line that is whole. */
  lemma BrokenTypeIsSeen(p: FormPart, rest: seq<byte>, content: seq<byte>)
    requires !Occurs(CRLF, DispositionLine(p)) && Occurs(CRLF, p.contentType)
    ensures var r := ParseLines(DispositionLine(p) + CRLF + (TypeText() + p.contentType + CRLF + rest));
      r.Some? ==> var f := ParseField(r.value.0, content); f.Some? ==> f.value.contentType != p.contentType
  {
    var line := TypeText() + p.contentType;
    FixedTextsAreClean();
    NameFollowsText(p);
    LinesBreakIff(p);
    hide DispositionLine, DispositionText, TypeText, ParseField;
    ParseOneLine(DispositionLine(p), line + CRLF + rest);
    var i := CutLine(line, rest);
    CutPast(TypeText(), p.contentType, i);
    var t := p.contentType[..i - |TypeText()|];
    var r := ParseLines(DispositionLine(p) + CRLF + (line + CRLF + rest));
    TypeTextIsNotEmpty();
    if r.Some? {
      FieldTyped(r.value.0, p.name + [QUOTE] + BehindName(p), t, content);
    }
  }

  lemma TypeTextIsNotEmpty()
    ensures TypeText() != []
  {
  }

  /** A part that is not printable is read back with another name or another content type, if at all. */
  lemma BrokenPartIsSeen(p: FormPart, body: seq<byte>, content: seq<byte>)
    requires !Printable(p)
    ensures var r := ParseLines(JoinLines(Lines(p)) + CRLF + body);
      r.Some? ==>
        var f := ParseField(r.value.0, content);
        f.Some? ==> f.value.name != p.name || f.value.contentType != p.contentType
  {
    var rest := JoinLines(HeaderLines(p.headers)) + CRLF + body;
    TwoLinesFirst(p, body);
    LinesBreakIff(p);
    hide ParseField, ParseLines, ParseDisposition, DispositionLine, DispositionText, TypeText, JoinLines, Occurs;
    if !Lacks(p.name, SPECIAL) || Occurs(CRLF, p.name) || (p.filename.Some? && Occurs(CRLF, p.filename.value)) {
      var w := FirstLineIs(p, TypeText() + p.contentType + CRLF + rest);
      BrokenNameIsSeen(p, w);
      var r := ParseLines(JoinLines(Lines(p)) + CRLF + body);
      if r.Some? {
        FieldNamed(r.value.0, w, content);
      }
    } else {
      BrokenTypeIsSeen(p, rest, content);
    }
  }

  lemma TwoLinesFirst(p: FormPart, body: seq<byte>)
    ensures JoinLines(Lines(p)) + CRLF + body ==
            DispositionLine(p) + CRLF + (TypeText() + p.contentType + CRLF +
                (JoinLines(HeaderLines(p.headers)) + CRLF + body))
  {
    var a, b, c := DispositionLine(p), TypeText() + p.contentType, JoinLines(HeaderLines(p.headers));
    var lines := Lines(p);
    assert lines[1..][1..] == HeaderLines(p.headers);
    assert JoinLines(lines) == a + CRLF + (b + CRLF + c);
    hide JoinLines, Lines;
    Assoc(a + CRLF, b + CRLF + c, CRLF);
    Assoc(a + CRLF, b + CRLF + c + CRLF, body);
    Assoc(b + CRLF, c, CRLF);
    Assoc(b + CRLF, c + CRLF, body);
  }

  /** A form whose first part is not printable is not read back. */
  lemma BrokenFormIsSeen(boundary: seq<byte>, parts: seq<FormPart>)
    requires parts != [] && !Printable(parts[0])
    ensures ParseParts(boundary, Behind(boundary, parts)) != Some(ReceivedAll(parts))
  {
    hide ParseField, ParseParts, JoinLines, Lines, Find, Delimiter, Printable;
    var p := parts[0];
    var body := p.body.Content() + Delimiter(boundary) + Behind(boundary, parts[1..]);
    var tail := JoinLines(Lines(p)) + CRLF + body;
    SplitHead(JoinLines(Lines(p)), p.body.Content(), Delimiter(boundary), Behind(boundary, parts[1..]));
    ParsePartsBehindLine(boundary, tail);
    var r := ParsePart(boundary, tail);
    if r.Some? {
      var (lines, used) := ParseLines(tail).value;
      var i := Find(Delimiter(boundary), tail[used..], 0).value;
      BrokenPartIsSeen(p, body, tail[used..][..i]);
      assert r.value[0] == ParseField(lines, tail[used..][..i]).value;
      assert ReceivedAll(parts)[0] == Received(p);
    }
  }

  /** The round trip. For a boundary without CR, the receiver sees exactly the parts that were given, with cleaned
      filenames and headers, if and only if every part is printable and the delimiter stands in no content. */
  lemma {:induction false} PartsRoundTripIff(boundary: seq<byte>, parts: seq<FormPart>)
    requires CR !in boundary
    ensures ParseParts(boundary, Behind(boundary, parts)) == Some(ReceivedAll(parts)) <==>
            AllPrintable(parts) && NoDelimiter(boundary, parts)
  {
    hide ParseParts, Delimiter, Occurs, Printable;
    if parts == [] {
      ParseClosing(boundary);
    } else if !Printable(parts[0]) {
      BrokenFormIsSeen(boundary, parts);
    } else {
      var content, behind := parts[0].body.Content(), Behind(boundary, parts[1..]);
      var body := content + Delimiter(boundary) + behind;
      ParseOnePart(boundary, parts);
      PartsRoundTripIff(boundary, parts[1..]);
      if Occurs(Delimiter(boundary), content) {
        DelimiterInContent(boundary, content, behind);
        var i := Find(Delimiter(boundary), body, 0).value;
        assert |body[..i]| < |content|;
        var r := ParseParts(boundary, Behind(boundary, parts));
        assert r.Some? ==> r.value[0] == Received(parts[0]).(content := body[..i]);
        assert ReceivedAll(parts)[0].content == content;
      } else {
        DelimiterDoesNotOverlap(boundary, content, behind);
        Window(content, Delimiter(boundary), behind);
        assert ReceivedAll(parts)[1..] == ReceivedAll(parts[1..]);
        var r := ParseParts(boundary, behind);
        assert r.Some? ==> ([Received(parts[0])] + r.value)[1..] == r.value;
      }
    }
  }

  /** The round trip of a whole form, as `generate_multipart_body` renders it. */
  lemma FormRoundTripIff(boundary: seq<byte>, parts: seq<FormPart>)
    requires CR !in boundary
    ensures ParseForm(boundary, Render(boundary, parts)) == Some(ReceivedAll(parts)) <==>
            AllPrintable(parts) && NoDelimiter(boundary, parts)
  {
    RenderIsBehind(boundary, parts);
    var opening := DASHES + boundary;
    Window([], opening, Behind(boundary, parts));
    assert [] + opening + Behind(boundary, parts) == Render(boundary, parts);
    PartsRoundTripIff(boundary, parts);
  }

  /** A name that is a quote, or a backslash, does not come back. */
  lemma SpecialNameIsLost(boundary: seq<byte>, p: FormPart)
    requires CR !in boundary && (p.name == [QUOTE] || p.name == [BACKSLASH])
    ensures ParseForm(boundary, Render(boundary, [p])) != Some(ReceivedAll([p]))
  {
    hide ParseForm, Render, ReceivedAll;
    assert p.name[0] in SPECIAL;
    FormRoundTripIff(boundary, [p]);
  }

  /** Nothing in the part is cleaned or escaped: no quote, backslash or slash in the filename, no line break in the
      headers, and no colon in their keys. */
  predicate NothingToClean(p: FormPart) {
    && (p.filename.Some? ==> 34 !in p.filename.value && 92 !in p.filename.value && 47 !in p.filename.value)
    && forall h | h in p.headers :: Lacks(h.0, {58, 13, 10}) && Lacks(h.1, {13, 10})
  }

  /** A part as it was given. */
  function AsGiven(p: FormPart): Field {
    Field(p.name, p.filename, p.contentType, p.headers, p.body.Content())
  }

  lemma {:induction false} HeadersAreKept(hs: seq<Header>)
    requires forall h | h in hs :: Lacks(h.0, {58, 13, 10}) && Lacks(h.1, {13, 10})
    ensures CleanHeaders(hs) == hs
  {
    if hs != [] {
      assert hs[0] in hs && forall h | h in hs[1..] :: h in hs;
      CleanHeaderIsKept(hs[0]);
      HeadersAreKept(hs[1..]);
    }
  }

  /** Such a form comes back as it was given, part by part, under the condition of the round trip. */
  lemma CleanFormComesBack(boundary: seq<byte>, parts: seq<FormPart>)
    requires CR !in boundary && AllPrintable(parts) && NoDelimiter(boundary, parts)
    requires forall p | p in parts :: NothingToClean(p)
    ensures ParseForm(boundary, Render(boundary, parts)) ==
            Some(seq(|parts|, i requires 0 <= i < |parts| => AsGiven(parts[i])))
  {
    FormRoundTripIff(boundary, parts);
    ReceivedAsGiven(parts);
  }

  lemma {:induction false} ReceivedAsGiven(parts: seq<FormPart>)
    requires forall p | p in parts :: NothingToClean(p)
    ensures ReceivedAll(parts) == seq(|parts|, i requires 0 <= i < |parts| => AsGiven(parts[i]))
  {
    if parts != [] {
      var p := parts[0];
      assert p in parts && forall q | q in parts[1..] :: q in parts;
      ReceivedAsGiven(parts[1..]);
      HeadersAreKept(p.headers);
      if p.filename.Some? {
        CleanFilenameIsKept(p.filename.value);
      }
      assert Received(p) == AsGiven(p);
    }
  }
}
