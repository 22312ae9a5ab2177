/** Form bodies of the curl backend: percent-encoding with `%20` replaced afterwards, and a parser for the result. */
module FormEncoding {
  import opened Bytes

  const SPACE: byte := 32
  const PLUS: byte := 43
  const PERCENT: byte := 37
  const EQUALS: byte := 61
  const AMPERSAND: byte := 38

  /** `%20`. */
  const ESCAPED_SPACE: seq<byte> := [37, 50, 48]

  /** The bytes that `curl_easy_escape` keeps: letters, digits and `-._~`. */
  predicate IsUnreserved(b: byte) {
    48 <= b < 58 || 65 <= b < 91 || 97 <= b < 123 || b == 45 || b == 46 || b == 95 || b == 126
  }

  function EscapeByte(b: byte): (r: seq<byte>) {
    if IsUnreserved(b) then [b] else [PERCENT, HexDigit(b / 16), HexDigit(b % 16)]
  }

  /** `curl_easy_escape`. */
  function Escape(s: seq<byte>): seq<byte> {
    if s == [] then [] else EscapeByte(s[0]) + Escape(s[1..])
  }

  /** What one byte of a field becomes in the body. */
  function FormByte(b: byte): seq<byte> {
    if b == SPACE then [PLUS] else EscapeByte(b)
  }

  /** Letters, digits and `-._~` stand for themselves, a space becomes a plus sign, and any other byte `%` and its two
      digits in upper case. */
  lemma FormByteIs(b: byte)
    ensures FormByte(b) ==
      if (48 <= b <= 57 || 65 <= b <= 90 || 97 <= b <= 122) || b == 45 || b == 46 || b == 95 || b == 126 then [b]
      else if b == 32 then [43]
      else [37, "0123456789ABCDEF"[b / 16] as int, "0123456789ABCDEF"[b % 16] as int]
  {
    HexDigitsAre(b / 16);
    HexDigitsAre(b % 16);
  }

  function FormText(s: seq<byte>): seq<byte> {
    if s == [] then [] else FormByte(s[0]) + FormText(s[1..])
  }

  /** Every `%20`, from the left, replaced by `+`. */
  function Replaced(encoded: seq<byte>): seq<byte>
    decreases |encoded|
  {
    match Find(ESCAPED_SPACE, encoded, 0)
    case None => encoded
    case Some(i) => encoded[..i] + [PLUS] + Replaced(encoded[i + 3..])
  }

  /** `form_url_encode` behind `curl_easy_escape`: the text is appended with each `%20` replaced. */
  method FormUrlEncode(input: seq<byte>, output: seq<byte>) returns (r: seq<byte>)
    ensures r == output + FormText(input)
  {
    r := output;
    if input == [] {
      return;
    }
    var encoded := Escape(input);
    ghost var all := Replaced(encoded);
    while true
      invariant r + Replaced(encoded) == output + all
      decreases |encoded|
    {
      var at := Find(ESCAPED_SPACE, encoded, 0);
      if at == None {
        break;
      }
      var front := encoded[..at.value];
      Assoc(r, front + [PLUS], Replaced(encoded[at.value + 3..]));
      Assoc(r, front, [PLUS]);
      r := r + front;
      r := r + [PLUS];
      encoded := encoded[at.value + 3..];
    }
    r := r + encoded;
    ReplacedEscape(input);
  }

  /** In front of a text, a byte that does not begin a `%20` only shifts the first one. */
  lemma FoundBehind(b: byte, rest: seq<byte>)
    requires !OccursAt(ESCAPED_SPACE, [b] + rest, 0)
    ensures Find(ESCAPED_SPACE, [b] + rest, 0) ==
            match Find(ESCAPED_SPACE, rest, 0) { case None => None case Some(i) => Some(i + 1) }
  {
    hide OccursAt;
    var s := [b] + rest;
    FindIsFirst(ESCAPED_SPACE, s, 0);
    FindIsFirst(ESCAPED_SPACE, rest, 0);
    forall k | 0 < k <= |s| ensures OccursAt(ESCAPED_SPACE, s, k) <==> OccursAt(ESCAPED_SPACE, rest, k - 1) {
      ShiftedOccurrence(b, rest, k);
    }
    var found := Find(ESCAPED_SPACE, rest, 0);
    if found.Some? {
      FindIs(ESCAPED_SPACE, s, 0, found.value + 1);
    }
  }

  /** A byte that does not begin a `%20` passes through. */
  lemma ReplacedStep(b: byte, rest: seq<byte>)
    requires !OccursAt(ESCAPED_SPACE, [b] + rest, 0)
    ensures Replaced([b] + rest) == [b] + Replaced(rest)
  {
    var s := [b] + rest;
    FoundBehind(b, rest);
    var found := Find(ESCAPED_SPACE, rest, 0);
    if found.Some? {
      var i := found.value;
      assert s[i + 1 + 3..] == rest[i + 3..];
      assert s[..i + 1] == [b] + rest[..i];
      Assoc([b], rest[..i], [PLUS]);
      Assoc([b], rest[..i] + [PLUS], Replaced(rest[i + 3..]));
    }
  }

  lemma ShiftedOccurrence(b: byte, rest: seq<byte>, i: nat)
    requires i > 0
    ensures OccursAt(ESCAPED_SPACE, [b] + rest, i) <==> OccursAt(ESCAPED_SPACE, rest, i - 1)
  {
    var s := [b] + rest;
    if i + 3 <= |s| {
      assert s[i..i + 3] == rest[i - 1..i + 2];
    }
  }

  lemma ReplacedSpace(rest: seq<byte>)
    ensures Replaced(ESCAPED_SPACE + rest) == [PLUS] + Replaced(rest)
  {
    var s := ESCAPED_SPACE + rest;
    assert s[0..3] == ESCAPED_SPACE && s[3..] == rest;
    assert OccursAt(ESCAPED_SPACE, s, 0);
    assert s[..0] + [PLUS] == [PLUS];
  }

  lemma NoOccurrence(s: seq<byte>)
    requires s != [] && (s[0] != PERCENT || (|s| >= 3 && !(s[1] == 50 && s[2] == 48)))
    ensures !OccursAt(ESCAPED_SPACE, s, 0)
  {
    if |s| >= 3 {
      assert s[0..3] == [s[0], s[1], s[2]];
    }
  }

  /** An escape other than `%20` passes through whole: what follows `%` cannot begin another one. */
  lemma ReplacedOther(h: byte, l: byte, rest: seq<byte>)
    requires h != PERCENT && l != PERCENT && !(h == 50 && l == 48)
    ensures Replaced([PERCENT, h, l] + rest) == [PERCENT, h, l] + Replaced(rest)
  {
    hide Replaced, OccursAt;
    NoOccurrence([l] + rest);
    ReplacedStep(l, rest);
    NoOccurrence([h] + ([l] + rest));
    ReplacedStep(h, [l] + rest);
    NoOccurrence([PERCENT] + ([h] + ([l] + rest)));
    ReplacedStep(PERCENT, [h] + ([l] + rest));
    assert [PERCENT, h, l] + rest == [PERCENT] + ([h] + ([l] + rest));
    assert [PERCENT, h, l] + Replaced(rest) == [PERCENT] + ([h] + ([l] + Replaced(rest)));
  }

  /** Replacing `%20` after escaping is the per-byte form of the text. */
  lemma {:induction false} ReplacedEscape(s: seq<byte>)
    ensures Replaced(Escape(s)) == FormText(s)
  {
    if s != [] {
      var b, rest := s[0], Escape(s[1..]);
      ReplacedEscape(s[1..]);
      if IsUnreserved(b) {
        NoOccurrence([b] + rest);
        ReplacedStep(b, rest);
      } else if b == SPACE {
        assert EscapeByte(b) == ESCAPED_SPACE;
        ReplacedSpace(rest);
      } else {
        var h, l := HexDigit(b / 16), HexDigit(b % 16);
        assert b / 16 != 2 || b % 16 != 0;
        ReplacedOther(h, l, rest);
      }
    }
  }

  type Pair = (seq<byte>, seq<byte>)

  function FormBody(fields: seq<Pair>): seq<byte> {
    if fields == [] then []
    else FormText(fields[0].0) + [EQUALS] + FormText(fields[0].1) + [AMPERSAND] + FormBody(fields[1..])
  }

  /** A field is written `name=value&`. */
  lemma FormBodySays(name: seq<byte>, value: seq<byte>, rest: seq<Pair>)
    ensures FormBody([(name, value)] + rest) ==
            FormText(name) + Ascii("=") + FormText(value) + Ascii("&") + FormBody(rest)
    ensures FormBody([]) == []
  {
    assert ([(name, value)] + rest)[1..] == rest;
    assert Ascii("=") == [61] && Ascii("&") == [38];
  }

  lemma {:induction false} FormBodySnoc(fields: seq<Pair>, last: Pair)
    ensures FormBody(fields + [last]) ==
        FormBody(fields) + (FormText(last.0) + [EQUALS] + FormText(last.1) + [AMPERSAND])
  {
    var text := FormText(last.0) + [EQUALS] + FormText(last.1) + [AMPERSAND];
    if fields == [] {
      assert fields + [last] == [last] && [last][1..] == [];
      assert text + [] == [] + text;
    } else {
      FormBodySnoc(fields[1..], last);
      assert (fields + [last])[1..] == fields[1..] + [last];
      Assoc(FormText(fields[0].0) + [EQUALS] + FormText(fields[0].1) + [AMPERSAND], FormBody(fields[1..]), text);
    }
  }

  /** The `Body::Form` loop. */
  method EncodeForm(fields: seq<Pair>) returns (buf: seq<byte>)
    ensures buf == FormBody(fields)
  {
    buf := [];
    for i := 0 to |fields|
      invariant buf == FormBody(fields[..i])
    {
      ghost var before := buf;
      var (name, value) := fields[i];
      buf := FormUrlEncode(name, buf);
      buf := buf + [EQUALS];
      buf := FormUrlEncode(value, buf);
      buf := buf + [AMPERSAND];
      FormBodySnoc(fields[..i], fields[i]);
      assert fields[..i + 1] == fields[..i] + [fields[i]];
      JoinPair(before, FormText(name), FormText(value));
    }
    assert fields[..|fields|] == fields;
  }

  lemma JoinPair(before: seq<byte>, name: seq<byte>, value: seq<byte>)
    ensures before + name + [EQUALS] + value + [AMPERSAND] == before + (name + [EQUALS] + value + [AMPERSAND])
  {
    Assoc(before, name, [EQUALS]);
    Assoc(before, name + [EQUALS], value);
    Assoc(before, name + [EQUALS] + value, [AMPERSAND]);
  }
}
