/** The application/x-www-form-urlencoded parser (section 5.1 of the WHATWG URL Standard), and the round trip. */
module FormParse {
  import opened Bytes
  import opened FormEncoding

  /** The offset of the first `c`, or the length. */
  function Until(s: seq<byte>, c: byte): (n: nat)
    ensures n <= |s|
  {
    if s == [] || s[0] == c then 0 else 1 + Until(s[1..], c)
  }

  /** Strictly split on `&`. */
  function SplitFields(s: seq<byte>): seq<seq<byte>>
    decreases |s|
  {
    var n := Until(s, AMPERSAND);
    if n == |s| then [s] else [s[..n]] + SplitFields(s[n + 1..])
  }

  function PlusToSpace(s: seq<byte>): seq<byte> {
    if s == [] then [] else [if s[0] == PLUS then SPACE else s[0]] + PlusToSpace(s[1..])
  }

  /** Percent-decode. */
  function Decode(s: seq<byte>): seq<byte>
    decreases |s|
  {
    if s == [] then []
    else if s[0] == PERCENT && |s| >= 3 && IsHexDigit(s[1]) && IsHexDigit(s[2]) then
      [16 * HexValue(s[1]) + HexValue(s[2])] + Decode(s[3..])
    else [s[0]] + Decode(s[1..])
  }

  function ParseField(s: seq<byte>): Pair {
    var n := Until(s, EQUALS);
    (Decode(PlusToSpace(s[..n])), Decode(PlusToSpace(if n == |s| then [] else s[n + 1..])))
  }

  function ParseFields(texts: seq<seq<byte>>): seq<Pair> {
    if texts == [] then []
    else (if texts[0] == [] then [] else [ParseField(texts[0])]) + ParseFields(texts[1..])
  }

  function Parse(body: seq<byte>): seq<Pair> {
    ParseFields(SplitFields(body))
  }

  predicate Plain(s: seq<byte>) {
    EQUALS !in s && AMPERSAND !in s
  }

  lemma {:induction false} FormTextIsPlain(s: seq<byte>)
    ensures Plain(FormText(s))
  {
    if s != [] {
      FormTextIsPlain(s[1..]);
      assert Plain(FormByte(s[0]));
    }
  }

  lemma {:induction false} UntilFinds(front: seq<byte>, c: byte, back: seq<byte>)
    requires c !in front
    ensures Until(front + [c] + back, c) == |front|
  {
    var s := front + [c] + back;
    if front != [] {
      assert front[0] in front && s[0] == front[0];
      UntilFinds(front[1..], c, back);
      assert s[1..] == front[1..] + [c] + back;
    }
  }

  lemma {:induction false} PlusToSpaceAppend(a: seq<byte>, b: seq<byte>)
    ensures PlusToSpace(a + b) == PlusToSpace(a) + PlusToSpace(b)
  {
    if a == [] {
      assert a + b == b;
    } else {
      PlusToSpaceAppend(a[1..], b);
      assert (a + b)[1..] == a[1..] + b;
    }
  }

  /** Decoding undoes the form of a text, whatever its bytes. */
  lemma {:induction false} TextRoundTrip(s: seq<byte>)
    ensures Decode(PlusToSpace(FormText(s))) == s
  {
    if s != [] {
      var b := s[0];
      TextRoundTrip(s[1..]);
      PlusToSpaceAppend(FormByte(b), FormText(s[1..]));
      ByteRoundTrip(b, PlusToSpace(FormText(s[1..])));
    }
  }

  lemma ByteRoundTrip(b: byte, rest: seq<byte>)
    ensures Decode(PlusToSpace(FormByte(b)) + rest) == [b] + Decode(rest)
  {
    var text := FormByte(b);
    if |text| == 1 {
      assert text[1..] == [];
      assert PlusToSpace(text) == [b];
      assert ([b] + rest)[1..] == rest;
      assert b != PERCENT;
    } else {
      var h, l := HexDigit(b / 16), HexDigit(b % 16);
      assert text[1..] == [h, l] && [h, l][1..] == [l] && [l][1..] == [];
      assert PlusToSpace([l]) == [l] && PlusToSpace([h, l]) == [h, l] && PlusToSpace(text) == text;
      assert (text + rest)[3..] == rest;
      assert HexValue(h) == b / 16 && HexValue(l) == b % 16;
    }
  }

  lemma FieldRoundTrip(name: seq<byte>, value: seq<byte>)
    ensures ParseField(FormText(name) + [EQUALS] + FormText(value)) == (name, value)
  {
    var s := FormText(name) + [EQUALS] + FormText(value);
    FormTextIsPlain(name);
    UntilFinds(FormText(name), EQUALS, FormText(value));
    var n := |FormText(name)|;
    assert s[..n] == FormText(name) && s[n + 1..] == FormText(value);
    TextRoundTrip(name);
    TextRoundTrip(value);
  }

  /** Parsing a form body gives back its fields, all of them and in order: empty names and values and any bytes
      included, and nothing for the text behind the last `&`. */
  lemma {:induction false} FormRoundTrip(fields: seq<Pair>)
    ensures Parse(FormBody(fields)) == fields
  {
    var body := FormBody(fields);
    if fields == [] {
      assert SplitFields(body) == [[]];
      assert ParseFields(SplitFields(body)[1..]) == [];
    } else {
      var (name, value) := fields[0];
      var text := FormText(name) + [EQUALS] + FormText(value);
      var rest := FormBody(fields[1..]);
      FormTextIsPlain(name);
      FormTextIsPlain(value);
      assert AMPERSAND !in text;
      UntilFinds(text, AMPERSAND, rest);
      assert body == text + [AMPERSAND] + rest;
      assert body[..|text|] == text && body[|text| + 1..] == rest;
      assert SplitFields(body) == [text] + SplitFields(rest);
      FieldRoundTrip(name, value);
      FormRoundTrip(fields[1..]);
    }
  }
}
