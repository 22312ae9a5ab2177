/** The response state that curl's header and write callbacks fill. */
module CurlHeaders {
  import opened Bytes

  /** The fields of `RequestState`. */
  datatype Head = Head(
    status: nat,
    established: bool,
    finished: bool,
    headers: seq<seq<byte>>,
    buffer: seq<byte>
  )

  const NEW_HEAD := Head(0, false, false, [], [])

  /** The status codes after which another header block follows. */
  const CONTINUED: set<nat> := {100, 301, 302, 303, 307, 308}

  const ESTABLISHED: seq<byte> := Ascii("connection established")

  predicate IsWhitespace(b: byte) {
    b == 32 || b == 9 || b == 10 || b == 12 || b == 13
  }

  predicate IsDigit(b: byte) {
    48 <= b < 58
  }

  /** The text up to the first whitespace byte, and what follows it, if there is one. */
  function SplitWord(s: seq<byte>): (r: (seq<byte>, Option<seq<byte>>)) {
    if s == [] then ([], None)
    else if IsWhitespace(s[0]) then ([], Some(s[1..]))
    else
      var (word, rest) := SplitWord(s[1..]);
      ([s[0]] + word, rest)
  }

  function Digits(s: seq<byte>): Option<nat> {
    if s == [] then Some(0)
    else if !IsDigit(s[|s| - 1]) then None
    else match Digits(s[..|s| - 1]) {
      case None => None
      case Some(v) => Some(10 * v + (s[|s| - 1] - 48))
    }
  }

  /** `str::parse::<u16>`. */
  function ParseU16(s: seq<byte>): Option<nat> {
    var digits := if s != [] && s[0] == 43 then s[1..] else s;
    match Digits(digits)
    case Some(v) => if digits != [] && v < 0x1_0000 then Some(v) else None
    case None => None
  }

  function StripLineEnd(line: seq<byte>): seq<byte> {
    if |line| >= 2 && line[|line| - 2..] == CRLF then line[..|line| - 2] else line
  }

  /** `push_header_data`: the state after one header line, and whether a final header block ended. */
  function PushHeader(h: Head, data: seq<byte>): (Head, bool) {
    if data == CRLF then
      if h.status !in CONTINUED && !h.established then (h.(finished := true), true) else (h, false)
    else if COLON in data then
      (h.(headers := h.headers + [StripLineEnd(data)]), false)
    else
      match SplitWord(data).1
      case None => (h.(established := false), false)
      case Some(rest) =>
        var (second, third) := SplitWord(rest);
        var status := ParseU16(second);
        (h.(status := if status.Some? then status.value else h.status,
            established := third.Some? && EqIgnoreCase(third.value, ESTABLISHED + CRLF)), false)
  }

  function WriteBody(h: Head, data: seq<byte>): Head {
    h.(finished := true, buffer := h.buffer + data)
  }

  class RequestState {
    var tempStatusCode: nat
    var isEstablished: bool
    var headerFinished: bool
    var responseHeadersBuffer: seq<seq<byte>>
    var responseBuffer: seq<byte>

    function View(): Head
      reads this
    {
      Head(tempStatusCode, isEstablished, headerFinished, responseHeadersBuffer, responseBuffer)
    }

    constructor ()
      ensures View() == NEW_HEAD
    {
      tempStatusCode, isEstablished, headerFinished := 0, false, false;
      responseHeadersBuffer, responseBuffer := [], [];
    }

    method PushHeaderData(data: seq<byte>) returns (ended: bool)
      modifies this
      ensures (View(), ended) == PushHeader(old(View()), data)
    {
      if data == CRLF {
        if tempStatusCode !in CONTINUED && !isEstablished {
          headerFinished := true;
          return true;
        }
      } else if COLON in data {
        responseHeadersBuffer := responseHeadersBuffer + [StripLineEnd(data)];
      } else {
        var (_, rest) := SplitWord(data);
        isEstablished := false;
        if rest.Some? {
          var (second, third) := SplitWord(rest.value);
          var status := ParseU16(second);
          if status.Some? {
            tempStatusCode := status.value;
          }
          isEstablished := third.Some? && EqIgnoreCase(third.value, ESTABLISHED + CRLF);
        }
      }
      return false;
    }

    method WriteData(data: seq<byte>)
      modifies this
      ensures View() == WriteBody(old(View()), data)
    {
      headerFinished := true;
      responseBuffer := responseBuffer + data;
    }

    predicate DataAvailable()
      reads this
    {
      responseBuffer != []
    }
  }

  /** One header block as a server sends it. */
  datatype Block = Block(version: seq<byte>, code: nat, reason: seq<byte>, fields: seq<seq<byte>>) {

    predicate WellFormed() {
      && COLON !in version && COLON !in reason
      && (forall b | b in version :: !IsWhitespace(b))
      && code < 0x1_0000
      && forall f | f in fields :: COLON in f
    }

    predicate IsFinal() {
      code !in CONTINUED && !EqIgnoreCase(reason, ESTABLISHED)
    }

    function StatusLine(): seq<byte> {
      version + [32] + (Decimal(code) + [32] + (reason + CRLF))
    }

    function Lines(): seq<seq<byte>> {
      [StatusLine()] + FieldLines(fields) + [CRLF]
    }
  }

  function Decimal(n: nat): (s: seq<byte>)
    ensures s != [] && forall b | b in s :: IsDigit(b)
  {
    if n < 10 then [48 + n] else Decimal(n / 10) + [48 + n % 10]
  }

  function FieldLines(fields: seq<seq<byte>>): seq<seq<byte>> {
    if fields == [] then [] else [fields[0] + CRLF] + FieldLines(fields[1..])
  }

  lemma {:induction false} DecimalRoundTrip(n: nat)
    ensures Digits(Decimal(n)) == Some(n)
  {
    var s := Decimal(n);
    if n < 10 {
      assert s[..0] == [];
    } else {
      DecimalRoundTrip(n / 10);
      assert s[..|s| - 1] == Decimal(n / 10);
    }
  }

  lemma {:induction false} SplitWordAt(word: seq<byte>, space: byte, rest: seq<byte>)
    requires IsWhitespace(space) && forall b | b in word :: !IsWhitespace(b)
    ensures SplitWord(word + [space] + rest) == (word, Some(rest))
  {
    var s := word + [space] + rest;
    if word == [] {
      assert s[1..] == rest;
    } else {
      SplitWordAt(word[1..], space, rest);
      assert s[1..] == word[1..] + [space] + rest;
      assert word[0] in word && s[0] == word[0];
      assert [word[0]] + word[1..] == word;
    }
  }

  /** Pushing a list of lines: the state behind them and the number of pushes that ended a final block. */
  function PushAll(h: Head, lines: seq<seq<byte>>): (Head, nat)
    decreases |lines|
  {
    if lines == [] then (h, 0)
    else
      var (h1, ended) := PushHeader(h, lines[0]);
      var (h2, n) := PushAll(h1, lines[1..]);
      (h2, n + if ended then 1 else 0)
  }

  lemma {:induction false} PushAllAppend(h: Head, a: seq<seq<byte>>, b: seq<seq<byte>>)
    ensures var (h1, m) := PushAll(h, a);
      var (h2, n) := PushAll(h1, b);
      PushAll(h, a + b) == (h2, m + n)
    decreases |a|
  {
    if a == [] {
      assert a + b == b;
    } else {
      PushAllAppend(PushHeader(h, a[0]).0, a[1..], b);
      assert (a + b)[1..] == a[1..] + b;
    }
  }

  /** A status line leaves its code and whether it answers a proxy's CONNECT. */
  lemma StatusLinePushed(h: Head, b: Block)
    requires b.WellFormed()
    ensures PushHeader(h, b.StatusLine()) ==
            (h.(status := b.code, established := EqIgnoreCase(b.reason, ESTABLISHED)), false)
  {
    hide ParseU16, EqIgnoreCase;
    var line := b.StatusLine();
    var code := Decimal(b.code);
    assert line[|b.version|] == 32;
    assert line != CRLF by {
      assert 32 in line;
    }
    SplitWordAt(b.version, 32, code + [32] + (b.reason + CRLF));
    SplitWordAt(code, 32, b.reason + CRLF);
    CodeParses(b.code);
    ReasonCompares(b.reason);
  }

  lemma CodeParses(code: nat)
    requires code < 0x1_0000
    ensures ParseU16(Decimal(code)) == Some(code)
  {
    DecimalRoundTrip(code);
    var s := Decimal(code);
    assert IsDigit(s[0]);
  }

  lemma ReasonCompares(reason: seq<byte>)
    ensures EqIgnoreCase(reason + CRLF, ESTABLISHED + CRLF) <==> EqIgnoreCase(reason, ESTABLISHED)
  {
    if EqIgnoreCase(reason + CRLF, ESTABLISHED + CRLF) {
      forall i | 0 <= i < |reason| ensures Lower(reason[i]) == Lower(ESTABLISHED[i]) {
        assert (reason + CRLF)[i] == reason[i] && (ESTABLISHED + CRLF)[i] == ESTABLISHED[i];
      }
    }
  }

  lemma {:induction false} FieldsPushed(h: Head, fields: seq<seq<byte>>)
    requires forall f | f in fields :: COLON in f
    ensures PushAll(h, FieldLines(fields)) == (h.(headers := h.headers + fields), 0)
    decreases |fields|
  {
    if fields == [] {
      assert h.headers + fields == h.headers;
    } else {
      var line := fields[0] + CRLF;
      assert fields[0] in fields;
      assert COLON in line && line != CRLF;
      assert StripLineEnd(line) == fields[0];
      FieldsPushed(h.(headers := h.headers + [fields[0]]), fields[1..]);
      assert h.headers + [fields[0]] + fields[1..] == h.headers + fields;
    }
  }

  /** A whole header block adds exactly its fields, and ends the header exactly when it is final: neither one
      that another block follows nor a proxy's answer to CONNECT. */
  lemma BlockPushed(h: Head, b: Block)
    requires b.WellFormed()
    ensures PushAll(h, b.Lines()) ==
            (h.(status := b.code, established := EqIgnoreCase(b.reason, ESTABLISHED),
                headers := h.headers + b.fields, finished := h.finished || b.IsFinal()),
             if b.IsFinal() then 1 else 0)
  {
    hide EqIgnoreCase, Block.StatusLine;
    StatusLinePushed(h, b);
    var h1 := h.(status := b.code, established := EqIgnoreCase(b.reason, ESTABLISHED));
    FieldsPushed(h1, b.fields);
    var h2 := h1.(headers := h1.headers + b.fields);
    PushAllAppend(h, [b.StatusLine()], FieldLines(b.fields));
    PushAllAppend(h, [b.StatusLine()] + FieldLines(b.fields), [CRLF]);
    assert PushAll(h2, [CRLF]) == (PushHeader(h2, CRLF).0, if PushHeader(h2, CRLF).1 then 1 else 0) by {
      assert [CRLF][1..] == [];
    }
    assert PushAll(h, [b.StatusLine()]) == (h1, 0) by {
      assert [b.StatusLine()][1..] == [];
    }
  }

  function BlockLines(blocks: seq<Block>): seq<seq<byte>> {
    if blocks == [] then [] else blocks[0].Lines() + BlockLines(blocks[1..])
  }

  function FinalBlocks(blocks: seq<Block>): nat {
    if blocks == [] then 0 else (if blocks[0].IsFinal() then 1 else 0) + FinalBlocks(blocks[1..])
  }

  function AllFields(blocks: seq<Block>): seq<seq<byte>> {
    if blocks == [] then [] else blocks[0].fields + AllFields(blocks[1..])
  }

  /** The blocks that do not end the header: those of five redirects and of 100, and a proxy's answer to CONNECT. */
  lemma IsFinalIff(b: Block)
    ensures b.IsFinal() <==>
      && b.code != 100 && b.code != 301 && b.code != 302 && b.code != 303 && b.code != 307 && b.code != 308
      && !EqIgnoreCase(b.reason, Ascii("connection established"))
  {
  }

  /** A line that is neither blank nor a field, as a status line is read: up to its second word it is split at
      whitespace; a second word that is no number below 65536 leaves the old code; and what stands behind it is compared
      as a whole. */
  lemma StatusWordsPushed(h: Head, first: seq<byte>, a: byte, second: seq<byte>, b: byte, third: seq<byte>)
    requires COLON !in first && COLON !in second && COLON !in third
    requires forall c | c in first + second :: c != 32 && !(9 <= c <= 10) && !(12 <= c <= 13)
    requires (a == 32 || 9 <= a <= 10 || 12 <= a <= 13) && (b == 32 || 9 <= b <= 10 || 12 <= b <= 13)
    requires first + [a] + (second + [b] + third) != [13, 10]
    ensures PushHeader(h, first) == (h.(established := false), false)
    ensures var code := if ParseU16(second).Some? then ParseU16(second).value else h.status;
      && PushHeader(h, first + [a] + second) == (h.(status := code, established := false), false)
      && PushHeader(h, first + [a] + (second + [b] + third)) ==
         (h.(status := code, established := EqIgnoreCase(third, Ascii("connection established\r\n"))), false)
  {
    assert forall c | c in first :: c in first + second;
    assert forall c | c in second :: c in first + second;
    OneWordPushed(h, first);
    TwoWordsPushed(h, first, a, second);
    SplitWordAt(first, a, second + [b] + third);
    SplitWordAt(second, b, third);
    assert ESTABLISHED + CRLF == Ascii("connection established\r\n");
    hide SplitWord, ParseU16, EqIgnoreCase;
  }

  lemma OneWordPushed(h: Head, first: seq<byte>)
    requires COLON !in first && forall c | c in first :: !IsWhitespace(c)
    ensures PushHeader(h, first) == (h.(established := false), false)
  {
    NoSpaceNoSplit(first);
    assert first != CRLF;
  }

  lemma TwoWordsPushed(h: Head, first: seq<byte>, a: byte, second: seq<byte>)
    requires COLON !in first && COLON !in second && IsWhitespace(a)
    requires (forall c | c in first :: !IsWhitespace(c)) && (forall c | c in second :: !IsWhitespace(c))
    ensures var code := if ParseU16(second).Some? then ParseU16(second).value else h.status;
      PushHeader(h, first + [a] + second) == (h.(status := code, established := false), false)
  {
    NoSpaceNoSplit(second);
    SplitWordAt(first, a, second);
    assert second != [LF];
    assert first + [a] + second != CRLF;
    hide SplitWord, ParseU16, EqIgnoreCase;
  }

  lemma {:induction false} NoSpaceNoSplit(word: seq<byte>)
    requires forall b | b in word :: !IsWhitespace(b)
    ensures SplitWord(word) == (word, None)
  {
    if word != [] {
      assert word[0] in word && forall b | b in word[1..] :: b in word;
      NoSpaceNoSplit(word[1..]);
      assert [word[0]] + word[1..] == word;
    }
  }

  /** A number is read if it is below 65536, with a plus sign in front or without; anything else is not. */
  lemma ParseU16Is(n: nat, s: seq<byte>)
    ensures ParseU16(Decimal(n)) == ParseU16([43] + Decimal(n)) == if n < 65536 then Some(n) else None
    ensures ParseU16([]) == None && ParseU16([43]) == None
    ensures (exists i | 1 <= i < |s| :: !(48 <= s[i] <= 57)) ==> ParseU16(s) == None
  {
    DecimalIsRead(n);
    NothingIsRead();
    if i :| 1 <= i < |s| && !(48 <= s[i] <= 57) {
      OtherIsNotRead(s, i);
    }
    hide ParseU16, Decimal;
  }

  lemma NothingIsRead()
    ensures ParseU16([]) == None && ParseU16([43]) == None
  {
    assert [43][1..] == [];
  }

  lemma OtherIsNotRead(s: seq<byte>, i: nat)
    requires 1 <= i < |s| && !IsDigit(s[i])
    ensures ParseU16(s) == None
  {
    NoDigits(s, i);
    assert s[1..][i - 1] == s[i];
    NoDigits(s[1..], i - 1);
    hide Digits;
  }

  lemma DecimalIsRead(n: nat)
    ensures ParseU16(Decimal(n)) == ParseU16([43] + Decimal(n)) == if n < 65536 then Some(n) else None
  {
    DecimalRoundTrip(n);
    var s := Decimal(n);
    assert s[0] in s && IsDigit(s[0]);
    assert ([43] + s)[1..] == s;
    hide Decimal, Digits;
  }

  lemma {:induction false} NoDigits(s: seq<byte>, i: nat)
    requires i < |s| && !IsDigit(s[i])
    ensures Digits(s) == None
  {
    if i < |s| - 1 {
      NoDigits(s[..|s| - 1], i);
    }
  }

  /** A field line keeps all its bytes but a CRLF at its end. */
  lemma FieldPushed(h: Head, line: seq<byte>)
    requires COLON in line
    ensures PushHeader(h, line + [13, 10]) == (h.(headers := h.headers + [line]), false)
    ensures (|line| < 2 || line[|line| - 2] != 13 || line[|line| - 1] != 10) ==>
              PushHeader(h, line) == (h.(headers := h.headers + [line]), false)
  {
    var whole := line + CRLF;
    assert COLON in whole && whole[..|line|] == line && whole[|line|..] == CRLF;
    assert whole != CRLF;
    assert |line| >= 2 ==> line[|line| - 2..] == [line[|line| - 2], line[|line| - 1]];
  }

  /** A list of header blocks adds the fields of all of them, final or not, and leaves the code of the last. */
  lemma {:induction false} BlocksPushed(h: Head, blocks: seq<Block>)
    requires forall b | b in blocks :: b.WellFormed()
    ensures var (t, ends) := PushAll(h, BlockLines(blocks));
      && ends == FinalBlocks(blocks) && t.finished == (h.finished || ends > 0)
      && t.headers == h.headers + AllFields(blocks) && t.buffer == h.buffer
      && t.status == if blocks == [] then h.status else blocks[|blocks| - 1].code
    decreases |blocks|
  {
    hide PushHeader, Block.WellFormed, Block.IsFinal, Block.Lines, EqIgnoreCase;
    if blocks == [] {
      assert h.headers + [] == h.headers;
    } else {
      var b, rest := blocks[0], blocks[1..];
      assert b in blocks && forall c | c in rest :: c in blocks;
      BlockPushed(h, b);
      var h1 := PushAll(h, b.Lines()).0;
      PushAllAppend(h, b.Lines(), BlockLines(rest));
      BlocksPushed(h1, rest);
      Assoc(h.headers, b.fields, AllFields(rest));
      assert rest != [] ==> rest[|rest| - 1] == blocks[|blocks| - 1];
      hide PushAll;
    }
  }

  /** A field line split at its first colon, the value without its leading space. */
  function SplitField(line: seq<byte>): Option<(seq<byte>, seq<byte>)> {
    if line == [] then None
    else if line[0] == COLON then Some(([], TrimStart(line[1..])))
    else match SplitField(line[1..]) {
      case None => None
      case Some((key, value)) => Some(([line[0]] + key, value))
    }
  }

  function TrimStart(s: seq<byte>): seq<byte> {
    if s != [] && (IsWhitespace(s[0]) || s[0] == 11) then TrimStart(s[1..]) else s
  }

  /** `CurlAsyncResponse::get_header`: the values under a name, in any case, of the lines that are text. */
  function GetHeader(lines: seq<seq<byte>>, isText: seq<byte> -> bool, name: seq<byte>): seq<seq<byte>> {
    if lines == [] then []
    else (if isText(lines[0]) then ValueUnder(lines[0], name) else []) + GetHeader(lines[1..], isText, name)
  }

  function ValueUnder(line: seq<byte>, name: seq<byte>): seq<seq<byte>> {
    var field := SplitField(line);
    if field.Some? && EqIgnoreCase(field.value.0, name) then [field.value.1] else []
  }

  lemma {:induction false} GetHeaderAppend(a: seq<seq<byte>>, b: seq<seq<byte>>, isText: seq<byte> -> bool,
      name: seq<byte>)
    ensures GetHeader(a + b, isText, name) == GetHeader(a, isText, name) + GetHeader(b, isText, name)
  {
    if a == [] {
      assert a + b == b;
    } else {
      hide ValueUnder;
      assert (a + b)[1..] == a[1..] + b;
      GetHeaderAppend(a[1..], b, isText, name);
      Assoc(if isText(a[0]) then ValueUnder(a[0], name) else [],
            GetHeader(a[1..], isText, name), GetHeader(b, isText, name));
    }
  }

  /** A field's value is found under its name, in any case, without the white space in front of it, and under no
      other name. */
  lemma ValueIsUnderItsName(key: seq<byte>, spaces: seq<byte>, value: seq<byte>, name: seq<byte>)
    requires COLON !in key && forall b | b in spaces :: b == 32 || 9 <= b <= 13
    requires value == [] || !(value[0] == 32 || 9 <= value[0] <= 13)
    ensures ValueUnder(key + [58] + (spaces + value), name) == if EqIgnoreCase(key, name) then [value] else []
  {
    SplitFieldAt(key, spaces + value);
    SpacesAreTrimmed(spaces, value);
  }

  lemma {:induction false} SpacesAreTrimmed(spaces: seq<byte>, value: seq<byte>)
    requires forall b | b in spaces :: b == 32 || 9 <= b <= 13
    requires value == [] || !(value[0] == 32 || 9 <= value[0] <= 13)
    ensures TrimStart(spaces + value) == value
  {
    if spaces == [] {
      assert spaces + value == value;
    } else {
      assert spaces[0] in spaces && forall b | b in spaces[1..] :: b in spaces;
      SpacesAreTrimmed(spaces[1..], value);
      assert (spaces + value)[1..] == spaces[1..] + value;
    }
  }

  /** Behind some header blocks and a last one, the response's values under a name are those of the last block exactly
      when no earlier block, a redirect's or an interim answer's, has a field of that name. */
  lemma HeadersAreTheLastBlocksIff(earlier: seq<Block>, last: Block, isText: seq<byte> -> bool, name: seq<byte>)
    requires forall b | b in earlier + [last] :: b.WellFormed()
    ensures var headers := PushAll(NEW_HEAD, BlockLines(earlier + [last])).0.headers;
      GetHeader(headers, isText, name) == GetHeader(last.fields, isText, name) <==>
      GetHeader(AllFields(earlier), isText, name) == []
  {
    BlocksPushed(NEW_HEAD, earlier + [last]);
    FieldsAppend(earlier, last);
    GetHeaderAppend(AllFields(earlier), last.fields, isText, name);
    assert [] + AllFields(earlier + [last]) == AllFields(earlier + [last]);
    var a, b := GetHeader(AllFields(earlier), isText, name), GetHeader(last.fields, isText, name);
    assert a + b == b ==> |a| == 0;
  }

  lemma {:induction false} FieldsAppend(blocks: seq<Block>, last: Block)
    ensures AllFields(blocks + [last]) == AllFields(blocks) + last.fields
  {
    if blocks == [] {
      assert ([] + [last])[1..] == [];
      assert last.fields + [] == [] + last.fields;
    } else {
      FieldsAppend(blocks[1..], last);
      assert (blocks + [last])[1..] == blocks[1..] + [last];
      Assoc(blocks[0].fields, AllFields(blocks[1..]), last.fields);
    }
  }

  /** Behind a redirect, its Location is still among the response's headers. */
  lemma RedirectKeepsItsLocation(target: seq<byte>, last: Block, isText: seq<byte> -> bool)
    requires last.WellFormed() && isText(Ascii("Location:") + target)
    ensures var redirect := Block(Ascii("HTTP/1.1"), 302, Ascii("Found"), [Ascii("Location:") + target]);
      GetHeader(PushAll(NEW_HEAD, BlockLines([redirect, last])).0.headers, isText, Ascii("Location")) !=
      GetHeader(last.fields, isText, Ascii("Location"))
  {
    var name, line := Ascii("Location"), Ascii("Location:") + target;
    var redirect := Block(Ascii("HTTP/1.1"), 302, Ascii("Found"), [line]);
    assert line == name + [COLON] + target;
    SplitFieldAt(name, target);
    assert COLON in line;
    var fields := AllFields([redirect]);
    assert fields == [line] + AllFields([redirect][1..]) && AllFields([redirect][1..]) == [];
    assert GetHeader(fields, isText, name) != [];
    assert [redirect] + [last] == [redirect, last];
    HeadersAreTheLastBlocksIff([redirect], last, isText, name);
  }

  lemma {:induction false} SplitFieldAt(key: seq<byte>, value: seq<byte>)
    requires COLON !in key
    ensures SplitField(key + [COLON] + value) == Some((key, TrimStart(value)))
  {
    var line := key + [COLON] + value;
    if key == [] {
      assert line[1..] == value;
    } else {
      SplitFieldAt(key[1..], value);
      assert line[1..] == key[1..] + [COLON] + value;
      assert line[0] == key[0] && key[0] in key && [key[0]] + key[1..] == key;
    }
  }
}
