/** UTF-8 (section 3 of RFC 3629), as `str::as_bytes` and `String::from_utf8` use it. */
module Utf8Model {
  import opened Prelude

  type Byte = b: int | 0 <= b < 256 witness 0

  /** The continuation byte of the six lowest bits. */
  function Tail(n: nat): Byte { 0x80 + n % 64 }

  function EncodeChar(c: char): seq<Byte> {
    var n := c as int;
    if n < 0x80 then [n]
    else if n < 0x800 then [0xC0 + n / 64, Tail(n)]
    else if n < 0x10000 then [0xE0 + n / 64 / 64, Tail(n / 64), Tail(n)]
    else [0xF0 + n / 64 / 64 / 64, Tail(n / 64 / 64), Tail(n / 64), Tail(n)]
  }

  /** `str::as_bytes` */
  function Encode(s: string): seq<Byte> {
    if s == "" then [] else EncodeChar(s[0]) + Encode(s[1..])
  }

  predicate Continuation(b: Byte) { 0x80 <= b < 0xC0 }

  /** Six more bits after those read so far. */
  function Shift(n: int, b: Byte): int { n * 64 + (b as int - 0x80) }

  /** The scalar value, if it needs exactly this many bytes: no overlong form, no surrogate, nothing past U+10FFFF. */
  function Checked(n: int, width: nat): Option<(char, nat)> {
    if || (width == 2 && 0x80 <= n < 0x800)
       || (width == 3 && (0x800 <= n < 0xD800 || 0xE000 <= n < 0x10000))
       || (width == 4 && 0x10000 <= n < 0x11_0000)
    then Some((n as char, width)) else None
  }

  /** The first character of a byte string and its width. */
  function DecodeFirst(b: seq<Byte>): Option<(char, nat)>
    requires b != []
  {
    var lead := b[0] as int;
    if lead < 0x80 then Some((lead as char, 1))
    else if 0xC0 <= lead < 0xE0 && |b| >= 2 && Continuation(b[1]) then
      Checked(Shift(lead - 0xC0, b[1]), 2)
    else if 0xE0 <= lead < 0xF0 && |b| >= 3 && Continuation(b[1]) && Continuation(b[2]) then
      Checked(Shift(Shift(lead - 0xE0, b[1]), b[2]), 3)
    else if 0xF0 <= lead < 0xF8 && |b| >= 4 && Continuation(b[1]) && Continuation(b[2]) && Continuation(b[3]) then
      Checked(Shift(Shift(Shift(lead - 0xF0, b[1]), b[2]), b[3]), 4)
    else None
  }

  /** `String::from_utf8` */
  function Decode(b: seq<Byte>): Option<string>
    decreases |b|
  {
    if b == [] then Some("")
    else
      var first := DecodeFirst(b);
      if first.None? then None
      else
        FirstHasWidth(b);
        var rest := Decode(b[first.value.1..]);
        if rest.None? then None else Some([first.value.0] + rest.value)
  }

  lemma FirstHasWidth(b: seq<Byte>)
    requires b != [] && DecodeFirst(b).Some?
    ensures 1 <= DecodeFirst(b).value.1 <= |b|
  {
  }

  lemma ShiftTail(n: nat)
    ensures Shift(n / 64, Tail(n)) == n
  {
  }

  lemma TailShift(n: nat, b: Byte)
    requires Continuation(b)
    ensures Shift(n, b) >= 0 && Tail(Shift(n, b)) == b && Shift(n, b) / 64 == n
  {
  }

  lemma DecodeFirstInverts(c: char, rest: seq<Byte>)
    ensures DecodeFirst(EncodeChar(c) + rest) == Some((c, |EncodeChar(c)|))
  {
    hide Shift, Tail;
    var n := c as int;
    ShiftTail(n);
    ShiftTail(n / 64);
    ShiftTail(n / 64 / 64);
    TailIsContinuation(n);
    TailIsContinuation(n / 64);
    TailIsContinuation(n / 64 / 64);
  }

  lemma TailIsContinuation(n: nat)
    ensures Continuation(Tail(n))
  {
  }

  lemma EncodeInvertsFirst(b: seq<Byte>)
    requires b != [] && DecodeFirst(b).Some?
    ensures var (c, w) := DecodeFirst(b).value; w <= |b| && EncodeChar(c) == b[..w]
  {
    hide Shift, Tail;
    var lead := b[0] as int;
    if 0xC0 <= lead < 0xE0 {
      TailShift(lead - 0xC0, b[1]);
    } else if 0xE0 <= lead < 0xF0 {
      TailShift(lead - 0xE0, b[1]);
      TailShift(Shift(lead - 0xE0, b[1]), b[2]);
    } else if 0xF0 <= lead {
      TailShift(lead - 0xF0, b[1]);
      TailShift(Shift(lead - 0xF0, b[1]), b[2]);
      TailShift(Shift(Shift(lead - 0xF0, b[1]), b[2]), b[3]);
    }
  }

  lemma {:induction false} DecodeInvertsEncode(s: string)
    ensures Decode(Encode(s)) == Some(s)
    decreases |s|
  {
    if s != "" {
      var head, rest := EncodeChar(s[0]), Encode(s[1..]);
      DecodeFirstInverts(s[0], rest);
      assert (head + rest)[|head|..] == rest;
      DecodeInvertsEncode(s[1..]);
      assert [s[0]] + s[1..] == s;
    }
  }

  /** Decoding is the exact inverse of encoding: it succeeds on nothing else. */
  lemma {:induction false} DecodeIsInverse(b: seq<Byte>, s: string)
    ensures Decode(b) == Some(s) <==> b == Encode(s)
    decreases |b|
  {
    DecodeInvertsEncode(s);
    if Decode(b) == Some(s) && b != [] {
      var (c, w) := DecodeFirst(b).value;
      EncodeInvertsFirst(b);
      DecodeIsInverse(b[w..], s[1..]);
      assert b == b[..w] + b[w..];
    }
  }

  predicate Ascii(s: string) {
    forall i :: 0 <= i < |s| ==> s[i] as int < 128
  }

  lemma {:induction false} AsciiBytes(s: string)
    requires Ascii(s)
    ensures |Encode(s)| == |s|
    ensures forall i :: 0 <= i < |s| ==> Encode(s)[i] == s[i] as int
    decreases |s|
  {
    if s != "" {
      AsciiBytes(s[1..]);
      assert Encode(s) == [s[0] as int] + Encode(s[1..]);
    }
  }
}
