/** Byte strings: the values that every component of the model reads, frames and writes. */
module Bytes {

  type byte = x: int | 0 <= x < 256

  datatype Option<+T> = None | Some(value: T)

  const CR: byte := 13
  const LF: byte := 10
  const CRLF: seq<byte> := [13, 10]
  const COLON: byte := 58

  /** The bytes of an ASCII literal. */
  function Ascii(s: string): (b: seq<byte>)
    ensures |b| == |s| && forall i | 0 <= i < |s| :: b[i] == s[i] as int % 256
  {
    seq(|s|, i requires 0 <= i < |s| => s[i] as int % 256)
  }

  /** An upper-case hexadecimal digit. */
  function HexDigit(v: nat): byte
    requires v < 16
  {
    if v < 10 then 48 + v else 55 + v
  }

  predicate IsHexDigit(b: byte) {
    48 <= b < 58 || 65 <= b < 71 || 97 <= b < 103
  }

  function HexValue(b: byte): nat
    requires IsHexDigit(b)
  {
    if b < 58 then b - 48 else if b < 71 then b - 55 else b - 87
  }

  function Lower(b: byte): byte {
    if 65 <= b < 91 then b + 32 else b
  }

  /** `eq_ignore_ascii_case`. */
  predicate EqIgnoreCase(a: seq<byte>, b: seq<byte>) {
    |a| == |b| && forall i | 0 <= i < |a| :: Lower(a[i]) == Lower(b[i])
  }

  /** It ignores the case of the 26 letters and nothing else. */
  lemma CaseIsIgnored(a: seq<byte>, b: seq<byte>)
    ensures EqIgnoreCase(a, b) <==>
      |a| == |b| &&
      forall i | 0 <= i < |a| ::
        a[i] == b[i] || (65 <= a[i] <= 90 && b[i] == a[i] + 32) || (65 <= b[i] <= 90 && a[i] == b[i] + 32)
  {
    if EqIgnoreCase(a, b) {
      forall i | 0 <= i < |a|
        ensures a[i] == b[i] || (65 <= a[i] <= 90 && b[i] == a[i] + 32) || (65 <= b[i] <= 90 && a[i] == b[i] + 32)
      {
        assert Lower(a[i]) == Lower(b[i]);
      }
    }
  }

  /** The sixteen digits; digits are printed in upper case and read in either. */
  lemma HexDigitsAre(v: nat)
    requires v < 16
    ensures var upper, lower := "0123456789ABCDEF", "0123456789abcdef";
      && HexDigit(v) == upper[v] as int
      && IsHexDigit(upper[v] as int) && HexValue(upper[v] as int) == v
      && IsHexDigit(lower[v] as int) && HexValue(lower[v] as int) == v
  {
  }

  function Min(a: nat, b: nat): nat {
    if a <= b then a else b
  }

  lemma Assoc<T>(a: seq<T>, b: seq<T>, c: seq<T>)
    ensures a + b + c == a + (b + c)
  {
  }

  /** Three pieces, joined and taken apart again. */
  lemma Window<T>(a: seq<T>, b: seq<T>, c: seq<T>)
    ensures (a + b + c)[..|a|] == a
    ensures (a + b + c)[|a|..|a| + |b|] == b
    ensures (a + b + c)[|a| + |b|..] == c
  {
  }

  /** A stretch of `range` behind its first `i` elements, taken from where `range` stands in `all`. */
  lemma Stretch<T>(all: seq<T>, from: nat, i: nat, n: nat, end: nat)
    requires from + i + n <= end <= |all|
    ensures all[from..end][..i] + all[from + i..from + i + n] == all[from..end][..i + n]
  {
  }

  /** The pieces joined in order. */
  function Concat(pieces: seq<seq<byte>>): seq<byte> {
    if pieces == [] then [] else pieces[0] + Concat(pieces[1..])
  }

  lemma {:induction false} ConcatAppend(a: seq<seq<byte>>, b: seq<seq<byte>>)
    ensures Concat(a + b) == Concat(a) + Concat(b)
  {
    if a == [] {
      assert a + b == b;
    } else {
      ConcatAppend(a[1..], b);
      assert (a + b)[1..] == a[1..] + b;
      Assoc(a[0], Concat(a[1..]), Concat(b));
    }
  }

  /** Whether `pat` stands in `s` at offset `i`. */
  predicate OccursAt(pat: seq<byte>, s: seq<byte>, i: nat) {
    i + |pat| <= |s| && s[i..i + |pat|] == pat
  }

  predicate Occurs(pat: seq<byte>, s: seq<byte>) {
    exists i | 0 <= i <= |s| :: OccursAt(pat, s, i)
  }

  /** The least offset at or after `from` where `pat` stands in `s`. */
  function Find(pat: seq<byte>, s: seq<byte>, from: nat): (r: Option<nat>)
    requires from <= |s|
    ensures r.Some? ==> from <= r.value <= |s| - |pat|
    decreases |s| - from
  {
    if OccursAt(pat, s, from) then Some(from)
    else if from == |s| then None
    else Find(pat, s, from + 1)
  }

  /** What `Find` finds is an occurrence, and there is none before it. */
  lemma {:induction false} FindIsFirst(pat: seq<byte>, s: seq<byte>, from: nat)
    requires from <= |s|
    ensures var r := Find(pat, s, from);
      && (r.Some? ==> OccursAt(pat, s, r.value) && forall i | from <= i < r.value :: !OccursAt(pat, s, i))
      && (r.None? ==> forall i | from <= i <= |s| :: !OccursAt(pat, s, i))
    decreases |s| - from
  {
    if !OccursAt(pat, s, from) && from < |s| {
      FindIsFirst(pat, s, from + 1);
    }
  }

  /** The first offset is determined by that. */
  lemma FindIs(pat: seq<byte>, s: seq<byte>, from: nat, at: nat)
    requires from <= at <= |s| && OccursAt(pat, s, at)
    requires forall i | from <= i < at :: !OccursAt(pat, s, i)
    ensures Find(pat, s, from) == Some(at)
  {
    FindIsFirst(pat, s, from);
  }
}
