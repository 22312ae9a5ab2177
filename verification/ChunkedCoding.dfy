/** Chunked transfer coding (section 7.1 of RFC 9112): the sizes, the frames and a decoder. */
module ChunkedCoding {
  import opened Bytes

  /** The largest chunk whose frame text fits the writer's 12-byte scratch buffer. */
  const MAX_FRAMED: nat := 0xFFFF_FFFF

  const LAST_CHUNK: seq<byte> := [48, 13, 10, 13, 10]

  /** The size as `{:X}` prints it. */
  function HexSize(n: nat): (s: seq<byte>)
    ensures s != []
  {
    if n < 16 then [HexDigit(n)] else HexSize(n / 16) + [HexDigit(n % 16)]
  }

  function ParseHex(s: seq<byte>): nat
    requires forall b | b in s :: IsHexDigit(b)
  {
    if s == [] then 0 else 16 * ParseHex(s[..|s| - 1]) + HexValue(s[|s| - 1])
  }

  /** Printing a size and parsing it back gives the size. */
  lemma {:induction false} HexRoundTrip(n: nat)
    ensures forall b | b in HexSize(n) :: IsHexDigit(b)
    ensures ParseHex(HexSize(n)) == n
  {
    if n >= 16 {
      HexRoundTrip(n / 16);
      var s := HexSize(n);
      assert s[..|s| - 1] == HexSize(n / 16);
    }
  }

  function Pow16(k: nat): nat {
    if k == 0 then 1 else 16 * Pow16(k - 1)
  }

  lemma {:induction false} HexLength(n: nat, k: nat)
    requires k > 0
    ensures |HexSize(n)| <= k <==> n < Pow16(k)
  {
    if n >= 16 {
      if k == 1 {
        assert Pow16(1) == 16 * Pow16(0);
      } else {
        HexLength(n / 16, k - 1);
      }
    } else {
      Pow16Grows(k);
    }
  }

  lemma {:induction false} Pow16Grows(k: nat)
    ensures k > 0 ==> Pow16(k) >= 16
    ensures Pow16(k) >= 1
  {
    if k > 0 {
      Pow16Grows(k - 1);
    }
  }

  /** The text `hex CRLF CRLF` fits 12 bytes exactly for the sizes up to `MAX_FRAMED`. */
  lemma FrameTextFits(n: nat)
    ensures |HexSize(n)| + 4 <= 12 <==> n <= MAX_FRAMED
  {
    HexLength(n, 8);
    assert Pow16(8) == 0x1_0000_0000 by {
      assert Pow16(4) == 0x1_0000;
    }
  }

  /** One chunk: size, CRLF, data, CRLF. */
  function Chunk(data: seq<byte>): seq<byte> {
    HexSize(|data|) + CRLF + data + CRLF
  }

  /** A size is printed digit by digit, the last one behind the others. */
  lemma HexSays(n: nat, v: nat)
    requires v < 16
    ensures HexSize(v) == ["0123456789ABCDEF"[v] as int]
    ensures n > 0 ==> HexSize(16 * n + v) == HexSize(n) + ["0123456789ABCDEF"[v] as int]
  {
    HexDigitsAre(v);
    if n > 0 {
      assert (16 * n + v) / 16 == n && (16 * n + v) % 16 == v;
    }
  }

  /** A chunk and the last chunk, byte for byte. */
  lemma ChunkSays(data: seq<byte>)
    ensures Chunk(data) == HexSize(|data|) + [13, 10] + data + [13, 10]
    ensures LAST_CHUNK == Ascii("0\r\n\r\n")
  {
  }

  function Chunks(pieces: seq<seq<byte>>): seq<byte> {
    if pieces == [] then [] else Chunk(pieces[0]) + Chunks(pieces[1..])
  }

  lemma {:induction false} ChunksAppend(a: seq<seq<byte>>, b: seq<seq<byte>>)
    ensures Chunks(a + b) == Chunks(a) + Chunks(b)
  {
    if a == [] {
      assert a + b == b;
    } else {
      ChunksAppend(a[1..], b);
      assert (a + b)[1..] == a[1..] + b;
      Assoc(Chunk(a[0]), Chunks(a[1..]), Chunks(b));
    }
  }

  /** The number of hexadecimal digits at the front. */
  function HexRun(s: seq<byte>): (k: nat)
    ensures k <= |s| && forall b | b in s[..k] :: IsHexDigit(b)
    ensures k < |s| ==> !IsHexDigit(s[k])
  {
    if s == [] || !IsHexDigit(s[0]) then 0
    else
      var k := 1 + HexRun(s[1..]);
      assert s[..k] == [s[0]] + s[1..][..k - 1];
      k
  }

  lemma HexRunIs(s: seq<byte>, k: nat)
    requires k < |s| && !IsHexDigit(s[k])
    requires forall b | b in s[..k] :: IsHexDigit(b)
    ensures HexRun(s) == k
  {
    var r := HexRun(s);
    assert forall i | 0 <= i < k :: s[i] == s[..k][i] && IsHexDigit(s[i]);
    assert forall i | 0 <= i < r :: s[i] == s[..r][i] && IsHexDigit(s[i]);
  }

  /** A strict decoder: no chunk extensions and no trailer fields, since the writer sends none.
      The whole input must be one chunked body, so the last chunk can stand only at its end. */
  function Decode(s: seq<byte>): Option<seq<byte>>
    decreases |s|
  {
    var k := HexRun(s);
    if k == 0 || !OccursAt(CRLF, s, k) then None
    else
      var size := ParseHex(s[..k]);
      var rest := s[k + 2..];
      if size == 0 then
        if rest == CRLF then Some([]) else None
      else if !OccursAt(CRLF, rest, size) then None
      else match Decode(rest[size + 2..]) {
        case None => None
        case Some(tail) => Some(rest[..size] + tail)
      }
  }

  /** One size line, one stretch of data of that size and its CRLF, in front of any other bytes. */
  lemma DecodeFrame(hex: seq<byte>, data: seq<byte>, tail: seq<byte>)
    requires data != [] && (forall b | b in hex :: IsHexDigit(b)) && hex != [] && ParseHex(hex) == |data|
    ensures Decode(hex + CRLF + (data + CRLF + tail)) ==
            (match Decode(tail) case None => None case Some(t) => Some(data + t))
  {
    hide HexRun, ParseHex;
    var rest := data + CRLF + tail;
    var s := hex + CRLF + rest;
    Window(hex, CRLF, rest);
    assert s[|hex|] == CR;
    HexRunIs(s, |hex|);
    Window(data, CRLF, tail);
  }

  lemma Reframe(hex: seq<byte>, data: seq<byte>, tail: seq<byte>)
    ensures hex + CRLF + data + CRLF + tail == hex + CRLF + (data + CRLF + tail)
  {
    Assoc(hex + CRLF, data, CRLF);
    Assoc(hex + CRLF, data + CRLF, tail);
  }

  /** Decoding one chunk in front of any other bytes. */
  lemma DecodeChunk(data: seq<byte>, tail: seq<byte>)
    requires data != []
    ensures Decode(Chunk(data) + tail) ==
            (match Decode(tail) case None => None case Some(t) => Some(data + t))
  {
    hide Decode, HexSize, ParseHex;
    HexRoundTrip(|data|);
    DecodeFrame(HexSize(|data|), data, tail);
    Reframe(HexSize(|data|), data, tail);
  }

  lemma DecodeLast()
    ensures Decode(LAST_CHUNK) == Some([])
  {
    var s := LAST_CHUNK;
    HexRunIs(s, 1);
    assert s[..1] == [48];
    assert s[1..3] == CRLF;
    assert s[3..] == CRLF;
  }

  predicate NoneEmpty(pieces: seq<seq<byte>>) {
    forall i | 0 <= i < |pieces| :: |pieces[i]| > 0
  }

  /** Every body written as non-empty chunks and one last chunk decodes to the data joined. */
  lemma {:induction false} DecodeChunks(pieces: seq<seq<byte>>)
    requires NoneEmpty(pieces)
    ensures Decode(Chunks(pieces) + LAST_CHUNK) == Some(Concat(pieces))
  {
    if pieces == [] {
      DecodeLast();
      assert Chunks(pieces) + LAST_CHUNK == LAST_CHUNK;
    } else {
      DecodeChunks(pieces[1..]);
      DecodeChunk(pieces[0], Chunks(pieces[1..]) + LAST_CHUNK);
      Assoc(Chunk(pieces[0]), Chunks(pieces[1..]), LAST_CHUNK);
    }
  }

  /** Nothing before the last chunk is accepted, so a receiver cannot stop early. */
  lemma {:induction false} UnfinishedIsRejected(pieces: seq<seq<byte>>)
    requires NoneEmpty(pieces)
    ensures Decode(Chunks(pieces)) == None
  {
    if pieces != [] {
      UnfinishedIsRejected(pieces[1..]);
      DecodeChunk(pieces[0], Chunks(pieces[1..]));
    }
  }
}
