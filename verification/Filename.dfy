/** src/media.rs: the file name in a `Content-Disposition` header. */
module FilenameModel {
  import opened Prelude
  import opened Utf8Model

  // ------------------------------------------------------------------ character classes

  /** `char::is_whitespace`: the Unicode property White_Space. */
  predicate Whitespace(c: char) {
    var n := c as int;
    || 9 <= n <= 13 || n == 0x20 || n == 0x85 || n == 0xA0 || n == 0x1680 || 0x2000 <= n <= 0x200A
    || n == 0x2028 || n == 0x2029 || n == 0x202F || n == 0x205F || n == 0x3000
  }

  /** `char::is_control`: the category Cc. */
  predicate Control(c: char) {
    c as int < 0x20 || 0x7F <= c as int < 0xA0
  }

  predicate Slash(c: char) { c == '/' || c == '\\' }

  // ------------------------------------------------------------------ string operations

  function TrimStart(s: string): string {
    if s != "" && Whitespace(s[0]) then TrimStart(s[1..]) else s
  }

  function TrimEnd(s: string): string {
    if s != "" && Whitespace(s[|s| - 1]) then TrimEnd(s[..|s| - 1]) else s
  }

  /** `str::trim` */
  function Trim(s: string): string { TrimEnd(TrimStart(s)) }

  /** `str::split` at a character */
  function Split(s: string, sep: char): (parts: seq<string>)
    ensures |parts| > 0
  {
    if s == "" then [""] else Attach(s[0], sep, Split(s[1..], sep))
  }

  function Attach(c: char, sep: char, parts: seq<string>): (r: seq<string>)
    requires |parts| > 0
    ensures |r| > 0
  {
    if c == sep then [""] + parts else [[c] + parts[0]] + parts[1..]
  }

  /** `s.rsplit(['/', '\\']).next()` */
  function AfterSlash(s: string): string {
    if s == "" || Slash(s[|s| - 1]) then "" else AfterSlash(s[..|s| - 1]) + [s[|s| - 1]]
  }

  /** `s.rsplit("''").next()` */
  function AfterQuotes(s: string): string {
    if s == "" || EndsWith(s, "''") then "" else AfterQuotes(s[..|s| - 1]) + [s[|s| - 1]]
  }

  /** `trim_wrapping_quotes` */
  function TrimWrappingQuotes(s: string): string {
    if StartsWith(s, "\"") && EndsWith(s[1..], "\"") then s[1..|s| - 1] else s
  }

  function WithoutControls(s: string): string {
    if s == "" then ""
    else WithoutControls(s[..|s| - 1]) + if Control(s[|s| - 1]) then "" else [s[|s| - 1]]
  }

  /** `sanitize_filename` */
  function Sanitize(raw: string): Option<string> {
    var trimmed := Trim(raw);
    if trimmed == "" then None
    else
      var basename := Trim(AfterSlash(trimmed));
      if basename == "" then None
      else
        var cleaned := WithoutControls(basename);
        if cleaned == "" then None else Some(cleaned)
  }

  // ------------------------------------------------------------------ percent decoding

  function HexDigit(b: Byte): Option<Byte> {
    if '0' as int <= b <= '9' as int then Some(b - '0' as int)
    else if 'a' as int <= b <= 'f' as int then Some(b - 'a' as int + 10)
    else if 'A' as int <= b <= 'F' as int then Some(b - 'A' as int + 10)
    else None
  }

  /** `u8::from_str_radix(hex, 16)` of two bytes: a leading `+` is a sign. */
  function HexPair(high: Byte, low: Byte): Option<Byte> {
    if high == '+' as int then HexDigit(low)
    else if HexDigit(high).Some? && HexDigit(low).Some? then Some(HexDigit(high).value * 16 + HexDigit(low).value)
    else None
  }

  /** `Panics`: the two bytes after a `%` end inside a character, so the string slice of the source panics. */
  datatype Outcome = Decoded(bytes: seq<Byte>) | Rejected | Panics

  function Prepend(bytes: seq<Byte>, rest: Outcome): Outcome {
    if rest.Decoded? then Decoded(bytes + rest.bytes) else rest
  }

  function Unescape(b: seq<Byte>): Outcome
    decreases |b|
  {
    if b == [] then Decoded([])
    else if b[0] == '%' as int && |b| > 2 then
      if |b| > 3 && Continuation(b[3]) then Panics
      else if HexPair(b[1], b[2]).None? then Rejected
      else Prepend([HexPair(b[1], b[2]).value], Unescape(b[3..]))
    else Prepend([b[0]], Unescape(b[1..]))
  }

  datatype Name = Named(name: string) | Unnamed | Crashed

  function NameOf(name: Option<string>): Name {
    if name.Some? then Named(name.value) else Unnamed
  }

  /** `percent_decode(encoded).as_deref().and_then(sanitize_filename)` */
  function DecodedName(encoded: string): Name {
    match Unescape(Encode(encoded))
    case Panics => Crashed
    case Rejected => Unnamed
    case Decoded(bytes) => if Decode(bytes).Some? then NameOf(Sanitize(Decode(bytes).value)) else Unnamed
  }

  const EXT := "filename*="
  const PLAIN := "filename="

  /** What one part of the header says in its `filename*` parameter. */
  function ExtName(part: string): Name {
    var p := Trim(part);
    if StartsWith(p, EXT) then DecodedName(AfterQuotes(TrimWrappingQuotes(Trim(p[|EXT|..])))) else Unnamed
  }

  function PlainName(part: string): Name {
    var p := Trim(part);
    if StartsWith(p, PLAIN) then NameOf(Sanitize(TrimWrappingQuotes(Trim(p[|PLAIN|..])))) else Unnamed
  }

  /** The first part that answers. */
  function First(parts: seq<string>, name: string -> Name): Name {
    if parts == [] then Unnamed
    else if name(parts[0]).Unnamed? then First(parts[1..], name)
    else name(parts[0])
  }

  function FromContentDisposition(value: string): Name {
    var parts := Split(value, ';');
    var ext := First(parts, ExtName);
    if ext.Unnamed? then First(parts, PlainName) else ext
  }

  // ------------------------------------------------------------------ the loops of the source

  method PercentDecode(value: string) returns (out: Outcome)
    ensures out == Unescape(Encode(value))
  {
    var bytes := Encode(value);
    var pushed: seq<Byte> := [];
    var i := 0;
    while i < |bytes|
      invariant 0 <= i <= |bytes|
      invariant Unescape(bytes) == Prepend(pushed, Unescape(bytes[i..]))
    {
      var rest := bytes[i..];
      if bytes[i] == '%' as int && i + 2 < |bytes| {
        if i + 3 < |bytes| && Continuation(bytes[i + 3]) { return Panics; }
        var parsed := HexPair(bytes[i + 1], bytes[i + 2]);
        if parsed.None? { return Rejected; }
        assert rest[3..] == bytes[i + 3..];
        PrependTwice(pushed, [parsed.value], Unescape(bytes[i + 3..]));
        pushed := pushed + [parsed.value];
        i := i + 3;
      } else {
        assert rest[1..] == bytes[i + 1..];
        PrependTwice(pushed, [bytes[i]], Unescape(bytes[i + 1..]));
        pushed := pushed + [bytes[i]];
        i := i + 1;
      }
    }
    out := Decoded(pushed);
  }

  lemma PrependTwice(a: seq<Byte>, b: seq<Byte>, rest: Outcome)
    ensures Prepend(a, Prepend(b, rest)) == Prepend(a + b, rest)
  {
    if rest.Decoded? { assert a + (b + rest.bytes) == a + b + rest.bytes; }
  }

  method FilenameFromContentDisposition(value: string) returns (name: Name)
    ensures name == FromContentDisposition(value)
  {
    var parts := Split(value, ';');
    for i := 0 to |parts|
      invariant First(parts, ExtName) == First(parts[i..], ExtName)
    {
      var part := Trim(parts[i]);
      if StartsWith(part, EXT) {
        var raw := TrimWrappingQuotes(Trim(part[|EXT|..]));
        var decoded := PercentDecode(AfterQuotes(raw));
        if decoded.Panics? { return Crashed; }
        if decoded.Decoded? && Decode(decoded.bytes).Some? {
          var clean := Sanitize(Decode(decoded.bytes).value);
          if clean.Some? { return Named(clean.value); }
        }
      }
      assert parts[i..][1..] == parts[i + 1..];
    }
    for i := 0 to |parts|
      invariant First(parts, PlainName) == First(parts[i..], PlainName)
    {
      var part := Trim(parts[i]);
      if StartsWith(part, PLAIN) {
        var clean := Sanitize(TrimWrappingQuotes(Trim(part[|PLAIN|..])));
        if clean.Some? { return Named(clean.value); }
      }
      assert parts[i..][1..] == parts[i + 1..];
    }
    name := Unnamed;
  }

  // ------------------------------------------------------------------ sanitised names

  predicate SafeName(name: string) {
    name != "" && forall i :: 0 <= i < |name| ==> !Slash(name[i]) && !Control(name[i])
  }

  predicate NoSlash(s: string) { forall i :: 0 <= i < |s| ==> !Slash(s[i]) }

  lemma {:induction false} AfterSlashHasNone(s: string)
    ensures NoSlash(AfterSlash(s))
    ensures AfterSlash(s) == s <==> NoSlash(s)
    decreases |s|
  {
    if s != "" && !Slash(s[|s| - 1]) {
      AfterSlashHasNone(s[..|s| - 1]);
      assert s == s[..|s| - 1] + [s[|s| - 1]];
    }
  }

  /** Trimming cuts at both ends only. */
  lemma {:induction false} TrimIsSlice(s: string)
    ensures exists i, j :: 0 <= i <= j <= |s| && Trim(s) == s[i..j]
  {
    var i := TrimStartIsSuffix(s);
    var j := TrimEndIsPrefix(TrimStart(s));
    assert Trim(s) == s[i..i + j];
  }

  lemma {:induction false} TrimStartIsSuffix(s: string) returns (i: nat)
    ensures i <= |s| && TrimStart(s) == s[i..]
    decreases |s|
  {
    if s != "" && Whitespace(s[0]) {
      i := TrimStartIsSuffix(s[1..]);
      i := i + 1;
    } else {
      i := 0;
    }
  }

  lemma {:induction false} TrimEndIsPrefix(s: string) returns (j: nat)
    ensures j <= |s| && TrimEnd(s) == s[..j]
    decreases |s|
  {
    if s != "" && Whitespace(s[|s| - 1]) {
      j := TrimEndIsPrefix(s[..|s| - 1]);
    } else {
      j := |s|;
    }
  }

  lemma {:induction false} ControlsAreDropped(s: string)
    requires NoSlash(s)
    ensures NoSlash(WithoutControls(s))
    ensures forall i :: 0 <= i < |WithoutControls(s)| ==> !Control(WithoutControls(s)[i])
    ensures |WithoutControls(s)| <= |s|
    ensures WithoutControls(s) == s <==> forall i :: 0 <= i < |s| ==> !Control(s[i])
    decreases |s|
  {
    if s != "" {
      ControlsAreDropped(s[..|s| - 1]);
      assert s == s[..|s| - 1] + [s[|s| - 1]];
    }
  }

  /** A sanitised name, when there is one, is non-empty and free of slashes, backslashes and control characters. */
  lemma SanitizedIsSafe(raw: string)
    ensures Sanitize(raw).Some? ==> SafeName(Sanitize(raw).value)
  {
    var base := AfterSlash(Trim(raw));
    AfterSlashHasNone(Trim(raw));
    TrimIsSlice(base);
    ControlsAreDropped(Trim(base));
  }

  /** A name is kept as it is exactly when it is safe and has no white space at its ends. */
  lemma KeptWhenSafe(raw: string)
    ensures Sanitize(raw) == Some(raw) <==> SafeName(raw) && Trim(raw) == raw
  {
    SanitizedIsSafe(raw);
    if SafeName(raw) && Trim(raw) == raw {
      AfterSlashHasNone(raw);
      ControlsAreDropped(raw);
    } else if Sanitize(raw) == Some(raw) {
      SanitizeShrinks(raw);
    }
  }

  /** Only as many characters as the trimmed name has are left. */
  lemma SanitizeShrinks(raw: string)
    ensures Sanitize(raw).Some? ==> |Sanitize(raw).value| <= |Trim(raw)|
    ensures |Trim(raw)| == |raw| ==> Trim(raw) == raw
    ensures |Trim(raw)| <= |raw|
  {
    var trimmed := Trim(raw);
    TrimIsSlice(raw);
    AfterSlashShrinks(trimmed);
    TrimIsSlice(AfterSlash(trimmed));
    AfterSlashHasNone(trimmed);
    ControlsAreDropped(Trim(AfterSlash(trimmed)));
  }

  lemma {:induction false} AfterSlashShrinks(s: string)
    ensures |AfterSlash(s)| <= |s|
    decreases |s|
  {
    if s != "" && !Slash(s[|s| - 1]) { AfterSlashShrinks(s[..|s| - 1]); }
  }

  // ------------------------------------------------------------------ the extended notation (RFC 5987)

  /** `attr-char` of section 3.2.1 of RFC 5987. */
  predicate AttrChar(c: char) {
    'a' <= c <= 'z' || 'A' <= c <= 'Z' || '0' <= c <= '9' || c in "!#$&+-.^_`|~"
  }

  /** `HEXDIG`, in either case. */
  predicate Hex(c: char) {
    c as int < 256 && HexDigit(c as int).Some?
  }

  /** The text is a `value-chars` of section 3.2.1 of RFC 5987 for these bytes; any byte may be percent-encoded. */
  ghost predicate Writes(text: string, bytes: seq<Byte>)
    decreases |bytes|
  {
    if bytes == [] then text == ""
    else
      || (text != "" && AttrChar(text[0]) && text[0] as int == bytes[0] && Writes(text[1..], bytes[1..]))
      || (|text| >= 3 && WritesOne(text[..3], bytes[0]) && Writes(text[3..], bytes[1..]))
  }

  ghost predicate WritesOne(triple: string, byte: Byte) {
    && |triple| == 3 && triple[0] == '%' && Hex(triple[1]) && Hex(triple[2])
    && HexDigit(triple[1] as int).value * 16 + HexDigit(triple[2] as int).value == byte
  }

  predicate ValueChar(c: char) { AttrChar(c) || c == '%' }

  predicate ValueChars(text: string) {
    forall i :: 0 <= i < |text| ==> ValueChar(text[i])
  }

  lemma ValueCharsAreAscii(text: string)
    requires ValueChars(text)
    ensures Ascii(text)
  {
    forall i | 0 <= i < |text| ensures text[i] as int < 128 {
      assert ValueChar(text[i]);
    }
  }

  lemma TripleIsPlain(triple: string, byte: Byte)
    requires WritesOne(triple, byte)
    ensures ValueChars(triple)
  {
  }

  lemma {:induction false} WritingIsPlain(text: string, bytes: seq<Byte>)
    requires Writes(text, bytes)
    ensures Ascii(text) && ValueChars(text)
    decreases |bytes|
  {
    hide AttrChar, WritesOne, ValueChar, Ascii;
    if bytes == [] {
      assert ValueChars(text);
    } else if text != "" && AttrChar(text[0]) && text[0] as int == bytes[0] && Writes(text[1..], bytes[1..]) {
      WritingIsPlain(text[1..], bytes[1..]);
      LettersAreValueChars(text);
    } else {
      WritingIsPlain(text[3..], bytes[1..]);
      TripleIsPlain(text[..3], bytes[0]);
      assert text == text[..3] + text[3..];
    }
    ValueCharsAreAscii(text);
  }

  lemma LettersAreValueChars(text: string)
    requires text != "" && AttrChar(text[0]) && ValueChars(text[1..])
    ensures ValueChars(text)
  {
    assert text == [text[0]] + text[1..] && ValueChar(text[0]);
  }

  lemma TripleReads(triple: string, byte: Byte)
    requires WritesOne(triple, byte)
    ensures HexPair(triple[1] as int, triple[2] as int) == Some(byte) && triple[0] == '%'
  {
    assert triple[1] != '+';
  }

  lemma UnescapeTriple(b: seq<Byte>, byte: Byte)
    requires |b| >= 3 && b[0] == '%' as int && HexPair(b[1], b[2]) == Some(byte)
    requires |b| > 3 ==> !Continuation(b[3])
    ensures Unescape(b) == Prepend([byte], Unescape(b[3..]))
  {
    hide HexPair, Prepend;
  }

  lemma EncodeTail(text: string, n: nat)
    requires Ascii(text) && n <= |text|
    ensures |Encode(text)| == |text| && Encode(text)[n..] == Encode(text[n..])
    ensures Encode(text)[..n] == Encode(text[..n])
  {
    AsciiBytes(text);
    AsciiBytes(text[n..]);
    AsciiBytes(text[..n]);
  }

  /** Percent decoding reads back every writing of the bytes. */
  lemma {:induction false} UnescapeInvertsWriting(text: string, bytes: seq<Byte>)
    requires Writes(text, bytes)
    ensures Unescape(Encode(text)) == Decoded(bytes)
    decreases |bytes|
  {
    if bytes != [] {
      WritingIsPlain(text, bytes);
      if text != "" && AttrChar(text[0]) && text[0] as int == bytes[0] && Writes(text[1..], bytes[1..]) {
        UnescapeInvertsWriting(text[1..], bytes[1..]);
        UnescapeLetter(text);
      } else {
        UnescapeInvertsWriting(text[3..], bytes[1..]);
        UnescapeEscape(text, bytes[0]);
      }
      assert [bytes[0]] + bytes[1..] == bytes;
    }
  }

  lemma UnescapeLetter(text: string)
    requires Ascii(text) && text != "" && text[0] != '%'
    ensures Unescape(Encode(text)) == Prepend([text[0] as int], Unescape(Encode(text[1..])))
  {
    AsciiBytes(text);
    EncodeTail(text, 1);
  }

  lemma UnescapeEscape(text: string, byte: Byte)
    requires Ascii(text) && |text| >= 3 && WritesOne(text[..3], byte)
    ensures Unescape(Encode(text)) == Prepend([byte], Unescape(Encode(text[3..])))
  {
    AsciiBytes(text);
    EncodeTail(text, 3);
    TripleReads(text[..3], byte);
    UnescapeTriple(Encode(text), byte);
  }

  // ------------------------------------------------------------------ when the slice panics

  predicate EscapeAt(s: string, i: nat) {
    && i + 2 < |s| && s[i] == '%' && s[i + 1] as int < 0x80 && s[i + 2] as int < 0x80
    && HexPair(s[i + 1] as int, s[i + 2] as int).Some?
  }

  /** The two bytes after the `%` end inside a character: of three bytes or more, or the second after a one-byte one. */
  predicate CutsAt(s: string, i: nat) {
    && i + 1 < |s| && s[i] == '%'
    && (s[i + 1] as int >= 0x800 || (s[i + 1] as int < 0x80 && i + 2 < |s| && s[i + 2] as int >= 0x80))
  }

  /** Decoding panics exactly if the two bytes after the first `%` that is no escape end inside a character. */
  lemma {:induction false} PanicsExactly(s: string)
    ensures Unescape(Encode(s)).Panics? <==> exists k :: CutsFirst(s, k)
    decreases |s|
  {
    hide Encode, Unescape, CutsFirst;
    if s == "" || (s[0] == '%' && !EscapeAt(s, 0)) {
      UnescapeOther(s);
      OtherCuts(s);
    } else {
      var n := if s[0] == '%' then 3 else 1;
      UnescapeReads(s, n);
      PanicsExactly(s[n..]);
      if k: nat :| CutsFirst(s[n..], k) {
        CutsLater(s, n, k);
      } else if k: nat :| CutsFirst(s, k) {
        CutsNotEarly(s, n, k);
        CutsLater(s, n, k - n);
      }
    }
  }

  ghost predicate CutsFirst(s: string, k: nat) {
    CutsAt(s, k) && forall i :: 0 <= i < k && s[i] == '%' ==> EscapeAt(s, i)
  }

  lemma CutsNotEarly(s: string, n: nat, k: nat)
    requires s != "" && n == (if s[0] == '%' then 3 else 1) && (s[0] == '%' ==> EscapeAt(s, 0)) && CutsFirst(s, k)
    ensures k >= n
  {
  }

  lemma OtherCuts(s: string)
    requires s == "" || (s[0] == '%' && !EscapeAt(s, 0))
    ensures (exists k :: CutsFirst(s, k)) <==> CutsAt(s, 0)
  {
    if CutsAt(s, 0) { assert CutsFirst(s, 0); }
  }

  lemma CutsLater(s: string, n: nat, k: nat)
    requires s != "" && n == (if s[0] == '%' then 3 else 1) && (s[0] == '%' ==> EscapeAt(s, 0))
    ensures CutsFirst(s, n + k) <==> CutsFirst(s[n..], k)
  {
    assert forall i: nat :: EscapeAt(s, n + i) <==> EscapeAt(s[n..], i);
    assert CutsAt(s, n + k) <==> CutsAt(s[n..], k);
    if CutsFirst(s[n..], k) {
      forall i | 0 <= i < n + k && s[i] == '%' ensures EscapeAt(s, i) {
        if i >= n { assert s[n..][i - n] == '%' && EscapeAt(s, n + (i - n)); }
      }
    }
  }

  lemma {:induction false} UnescapeLiteral(bytes: seq<Byte>, rest: seq<Byte>)
    requires '%' as int !in bytes
    ensures Unescape(bytes + rest) == Prepend(bytes, Unescape(rest))
    decreases |bytes|
  {
    if bytes == [] {
      assert bytes + rest == rest;
      PrependTwice([], [], Unescape(rest));
    } else {
      assert (bytes + rest)[1..] == bytes[1..] + rest;
      UnescapeLiteral(bytes[1..], rest);
      PrependTwice([bytes[0]], bytes[1..], Unescape(rest));
      assert [bytes[0]] + bytes[1..] == bytes;
    }
  }

  /** The bytes of the first character. */
  lemma FirstBytes(s: string)
    requires s != ""
    ensures Encode(s) != [] && !Continuation(Encode(s)[0])
    ensures s[0] as int < 0x80 ==> Encode(s) == [s[0] as int] + Encode(s[1..])
    ensures s[0] as int >= 0x80 ==>
              && |Encode(s)| >= 2 && HexDigit(Encode(s)[0]).None? && Encode(s)[0] != '+' as int
              && Continuation(Encode(s)[1])
    ensures 0x80 <= s[0] as int < 0x800 ==> |EncodeChar(s[0])| == 2 && Encode(s)[2..] == Encode(s[1..])
    ensures s[0] as int >= 0x800 ==> |Encode(s)| >= 3 && Continuation(Encode(s)[2])
    ensures s[0] != '%' ==> '%' as int !in EncodeChar(s[0])
  {
    TailIsContinuation(s[0] as int);
    TailIsContinuation(s[0] as int / 64);
    TailIsContinuation(s[0] as int / 64 / 64);
  }

  lemma UnescapeReads(s: string, n: nat)
    requires s != "" && n == (if s[0] == '%' then 3 else 1) && (s[0] == '%' ==> EscapeAt(s, 0))
    ensures Unescape(Encode(s)).Panics? <==> Unescape(Encode(s[n..])).Panics?
  {
    hide HexPair;
    FirstBytes(s);
    if s[0] != '%' {
      UnescapeLiteral(EncodeChar(s[0]), Encode(s[1..]));
    } else {
      TwoAfter(s);
      if |s| > 3 { FirstBytes(s[3..]); }
      UnescapeTriple(Encode(s), HexPair(s[1] as int, s[2] as int).value);
    }
  }

  lemma ThreeFirst(a: Byte, b: Byte, c: Byte, rest: seq<Byte>)
    ensures [a] + ([b] + ([c] + rest)) == [a, b, c] + rest
    ensures ([a, b, c] + rest)[3..] == rest && (rest != [] ==> ([a, b, c] + rest)[3] == rest[0])
  {
  }

  /** The bytes of a `%` and two characters of one byte. */
  lemma TwoAfter(s: string)
    requires |s| > 2 && s[0] as int < 0x80 && s[1] as int < 0x80 && s[2] as int < 0x80
    ensures Encode(s) == [s[0] as int, s[1] as int, s[2] as int] + Encode(s[3..])
    ensures Encode(s)[3..] == Encode(s[3..])
    ensures |s| > 3 ==> |Encode(s)| > 3 && !Continuation(Encode(s)[3])
    ensures |s| == 3 ==> |Encode(s)| == 3
  {
    hide Encode, EncodeChar, HexDigit, Continuation;
    FirstBytes(s);
    FirstBytes(s[1..]);
    FirstBytes(s[2..]);
    assert s[1..][1..] == s[2..] && s[2..][1..] == s[3..];
    ThreeFirst(s[0] as int, s[1] as int, s[2] as int, Encode(s[3..]));
    if |s| > 3 { FirstBytes(s[3..]); } else { EncodeNothing(); }
  }

  lemma EncodeNothing()
    ensures Encode("") == []
  {
  }

  lemma UnescapeOther(s: string)
    requires s == "" || (s[0] == '%' && !EscapeAt(s, 0))
    ensures Unescape(Encode(s)).Panics? <==> CutsAt(s, 0)
  {
    if |s| > 2 && s[1] as int < 0x80 && s[2] as int < 0x80 {
      TwoAfter(s);
    } else if |s| > 1 {
      var b, rest := Encode(s), Encode(s[1..]);
      FirstBytes(s);
      FirstBytes(s[1..]);
      assert b == ['%' as int] + rest && s[1..][1..] == s[2..];
      if |s| > 2 {
        FirstBytes(s[2..]);
      } else if s[1] as int < 0x80 {
        assert b[1..] == [s[1] as int];
      }
    }
  }

  /** The number parser of the source takes a plus sign for the first digit. */
  lemma SignIsRead(digit: char)
    requires Hex(digit)
    ensures Unescape(Encode("%+" + [digit])) == Decoded([HexDigit(digit as int).value])
  {
    var s := "%+" + [digit];
    hide HexDigit;
    DigitsAreAscii(digit);
    TwoAfter(s);
    UnescapeTriple(Encode(s), HexDigit(digit as int).value);
    EncodeNothing();
  }

  lemma DigitsAreAscii(digit: char)
    requires Hex(digit)
    ensures digit as int < 0x80
  {
  }

  // ------------------------------------------------------------------ the round trip through the header

  const CHARSET := "UTF-8''"

  lemma QuotesEndInQuote(s: string)
    ensures EndsWith(s, "''") ==> s != "" && s[|s| - 1] == '\''
  {
    if EndsWith(s, "''") { assert s[|s| - 2..][1] == s[|s| - 1]; }
  }

  lemma {:induction false} AfterQuotesFinds(lead: string, text: string)
    requires EndsWith(lead, "''") && '\'' !in text
    ensures AfterQuotes(lead + text) == text
    decreases |text|
  {
    var s := lead + text;
    if text == "" {
      assert s == lead;
    } else {
      var n := |text| - 1;
      assert text == text[..n] + [text[n]];
      AfterQuotesFinds(lead, text[..n]);
      assert s[..|s| - 1] == lead + text[..n] && s[|s| - 1] == text[n];
      QuotesEndInQuote(s);
    }
  }

  lemma TrimKeeps(s: string)
    requires s != "" && !Whitespace(s[0]) && !Whitespace(s[|s| - 1])
    ensures Trim(s) == s
  {
  }

  lemma LastOf(lead: string, text: string)
    requires lead != ""
    ensures (lead + text)[0] == lead[0]
    ensures (lead + text)[|lead + text| - 1] == if text == "" then lead[|lead| - 1] else text[|text| - 1]
    ensures StartsWith(lead + text, lead) && (lead + text)[|lead|..] == text
  {
  }

  lemma CharsetText()
    ensures CHARSET != "" && CHARSET[0] == 'U' && CHARSET[|CHARSET| - 1] == '\'' && EndsWith(CHARSET, "''")
    ensures ';' !in CHARSET
  {
    assert CHARSET[|CHARSET| - 2..] == "''";
  }

  lemma ExtText()
    ensures EXT != "" && EXT[0] == 'f' && ';' !in EXT && |EXT| > |PLAIN| - 1 && EXT[8] == '*' && PLAIN[8] == '='
  {
  }

  lemma ValueCharsAreKept(text: string)
    requires ValueChars(text)
    ensures Trim(CHARSET + text) == CHARSET + text
    ensures TrimWrappingQuotes(CHARSET + text) == CHARSET + text
  {
    hide *;
    CharsetText();
    LastOf(CHARSET, text);
    LastValueChar(text);
    QuoteIsNoSpace();
    TrimKeeps(CHARSET + text);
    NotWrapped(CHARSET + text);
  }

  lemma NotWrapped(s: string)
    requires s != "" && s[0] != '"'
    ensures TrimWrappingQuotes(s) == s
  {
  }

  lemma QuoteIsNoSpace()
    ensures !Whitespace('\'') && !Whitespace('U') && !Whitespace('f')
  {
  }

  lemma LastValueChar(text: string)
    requires ValueChars(text)
    ensures text != "" ==> !Whitespace(text[|text| - 1])
    ensures '\'' !in text && ';' !in text
  {
    if text != "" { assert ValueChar(text[|text| - 1]); }
  }

  lemma PartIsWhole(text: string)
    requires ValueChars(text)
    ensures ';' !in EXT + (CHARSET + text) && Trim(EXT + (CHARSET + text)) == EXT + (CHARSET + text)
  {
    hide *;
    ExtText();
    CharsetText();
    LastOf(EXT, CHARSET + text);
    LastOf(CHARSET, text);
    LastValueChar(text);
    QuoteIsNoSpace();
    TrimKeeps(EXT + (CHARSET + text));
  }

  lemma ExtNameReads(part: string, text: string, name: string)
    requires Writes(text, Encode(name)) && Trim(part) == EXT + (CHARSET + text)
    ensures ExtName(part) == NameOf(Sanitize(name))
  {
    WritingIsPlain(text, Encode(name));
    LastOf(EXT, CHARSET + text);
    ValueCharsAreKept(text);
    CharsetText();
    LastValueChar(text);
    AfterQuotesFinds(CHARSET, text);
    ExtNameIs(part, CHARSET + text, text);
    UnescapeInvertsWriting(text, Encode(name));
    DecodedNameIs(text, name);
  }

  lemma ExtNameIs(part: string, raw: string, text: string)
    requires StartsWith(Trim(part), EXT) && Trim(part)[|EXT|..] == raw
    requires Trim(raw) == raw && TrimWrappingQuotes(raw) == raw && AfterQuotes(raw) == text
    ensures ExtName(part) == DecodedName(text)
  {
  }

  lemma DecodedNameIs(text: string, name: string)
    requires Unescape(Encode(text)) == Decoded(Encode(name))
    ensures DecodedName(text) == NameOf(Sanitize(name))
  {
    DecodeInvertsEncode(name);
  }

  /** No parameter of the text is an extended file name. */
  ghost predicate NoExtName(lead: string) {
    forall i :: 0 <= i < |Split(lead, ';')| ==> !StartsWith(Trim(Split(lead, ';')[i]), EXT)
  }

  lemma AttachConcat(c: char, sep: char, a: seq<string>, b: seq<string>)
    requires |a| > 0
    ensures Attach(c, sep, a + b) == Attach(c, sep, a) + b
  {
    if c == sep {
      assert [""] + (a + b) == [""] + a + b;
    } else {
      assert (a + b)[0] == a[0] && (a + b)[1..] == a[1..] + b;
      assert [[c] + a[0]] + (a[1..] + b) == [[c] + a[0]] + a[1..] + b;
    }
  }

  lemma {:induction false} SplitConcat(a: string, b: string, sep: char)
    ensures Split(a + [sep] + b, sep) == Split(a, sep) + Split(b, sep)
    decreases |a|
  {
    hide Attach;
    var s := a + [sep] + b;
    if a == "" {
      assert s[0] == sep && s[1..] == b;
      AttachSep(sep, Split(b, sep));
    } else {
      SplitConcat(a[1..], b, sep);
      assert s[1..] == a[1..] + [sep] + b && s[0] == a[0];
      AttachConcat(a[0], sep, Split(a[1..], sep), Split(b, sep));
    }
  }

  lemma AttachSep(sep: char, parts: seq<string>)
    requires |parts| > 0
    ensures Attach(sep, sep, parts) == [""] + parts
  {
  }

  lemma {:induction false} SplitWhole(s: string, sep: char)
    requires sep !in s
    ensures Split(s, sep) == [s]
    decreases |s|
  {
    if s != "" {
      SplitWhole(s[1..], sep);
      assert s == [s[0]] + s[1..];
    }
  }

  lemma {:induction false} FirstSkips(before: seq<string>, part: string, after: seq<string>, name: string -> Name)
    requires forall i :: 0 <= i < |before| ==> name(before[i]).Unnamed?
    requires !name(part).Unnamed?
    ensures First(before + [part] + after, name) == name(part)
    decreases |before|
  {
    var parts := before + [part] + after;
    if before == [] {
      assert parts[0] == part;
    } else {
      assert parts[0] == before[0] && parts[1..] == before[1..] + [part] + after;
      FirstSkips(before[1..], part, after, name);
    }
  }

  /** The name alone: every string comes back as its sanitised form, whichever bytes the sender chose to encode. */
  lemma ExtNameRoundTrip(text: string, name: string)
    requires Writes(text, Encode(name))
    ensures FromContentDisposition(EXT + (CHARSET + text)) == NameOf(Sanitize(name))
  {
    var part := EXT + (CHARSET + text);
    WritingIsPlain(text, Encode(name));
    PartIsWhole(text);
    SplitWhole(part, ';');
    ExtNameReads(part, text, name);
    NotPlain(part);
    FirstOfOne(part, ExtName);
    FirstOfOne(part, PlainName);
  }

  lemma FirstOfOne(part: string, name: string -> Name)
    ensures First([part], name) == name(part)
  {
  }

  /** The whole reader panics on such a parameter exactly then. */
  lemma HeaderPanicsExactly(text: string)
    requires '\'' !in text && ';' !in text && (text != "" ==> !Whitespace(text[|text| - 1]))
    ensures FromContentDisposition(EXT + (CHARSET + text)).Crashed? <==> exists k :: CutsFirst(text, k)
  {
    hide *;
    var raw, part := CHARSET + text, EXT + (CHARSET + text);
    ExtText();
    CharsetText();
    LastOf(CHARSET, text);
    LastOf(EXT, raw);
    QuoteIsNoSpace();
    TrimKeeps(raw);
    TrimKeeps(part);
    NotWrapped(raw);
    AfterQuotesFinds(CHARSET, text);
    ExtNameIs(part, raw, text);
    SplitWhole(part, ';');
    OnePart(part);
    DecodedNameCrashes(text);
    PanicsExactly(text);
  }

  lemma OnePart(part: string)
    requires Split(part, ';') == [part]
    ensures FromContentDisposition(part).Crashed? <==> ExtName(part).Crashed?
  {
    FirstOfOne(part, ExtName);
    FirstOfOne(part, PlainName);
  }

  lemma DecodedNameCrashes(text: string)
    ensures DecodedName(text).Crashed? <==> Unescape(Encode(text)).Panics?
  {
  }

  /** One such header. */
  lemma AccentAfterDigitPanics()
    ensures FromContentDisposition(EXT + (CHARSET + "%a\U{E9}")).Crashed?
  {
    HeaderPanicsExactly("%a\U{E9}");
    assert CutsFirst("%a\U{E9}", 0);
  }

  lemma NotPlain(part: string)
    requires StartsWith(Trim(part), EXT)
    ensures PlainName(part).Unnamed?
  {
    ExtText();
    assert Trim(part)[8] == EXT[8];
  }

  /** Among other parameters, the extended name wins over every plain one, before or after it. */
  lemma ExtNameWins(lead: string, part: string, tail: string, text: string, name: string)
    requires Writes(text, Encode(name)) && ';' !in part && Trim(part) == EXT + (CHARSET + text)
    requires NoExtName(lead) && Sanitize(name).Some?
    ensures FromContentDisposition(lead + ";" + part + ";" + tail) == Named(Sanitize(name).value)
    ensures FromContentDisposition(lead + ";" + part) == Named(Sanitize(name).value)
  {
    var before, after := Split(lead, ';'), Split(tail, ';');
    ExtNameReads(part, text, name);
    SplitWhole(part, ';');
    SplitConcat(lead, part, ';');
    SplitConcat(lead + ";" + part, tail, ';');
    FirstSkips(before, part, after, ExtName);
    FirstSkips(before, part, [], ExtName);
    assert before + [part] + [] == before + [part];
  }

  const HEX := "0123456789ABCDEF"

  /** Percent-encoding as section 2.1 of RFC 3986 recommends: upper-case digits, unreserved characters left alone. */
  function PercentEncode(bytes: seq<Byte>): string {
    if bytes == [] then ""
    else if AttrChar(bytes[0] as char) then [bytes[0] as char] + PercentEncode(bytes[1..])
    else ['%', HEX[bytes[0] / 16], HEX[bytes[0] % 16]] + PercentEncode(bytes[1..])
  }

  lemma HexOf(n: Byte)
    requires n < 16
    ensures Hex(HEX[n]) && HexDigit(HEX[n] as int).value == n
  {
  }

  /** Every name has a writing. */
  lemma {:induction false} PercentEncodeWrites(bytes: seq<Byte>)
    ensures Writes(PercentEncode(bytes), bytes)
    decreases |bytes|
  {
    if bytes != [] {
      var text, rest := PercentEncode(bytes), PercentEncode(bytes[1..]);
      PercentEncodeWrites(bytes[1..]);
      if AttrChar(bytes[0] as char) {
        assert text[1..] == rest;
      } else {
        HexOf(bytes[0] / 16);
        HexOf(bytes[0] % 16);
        assert text[..3] == ['%', HEX[bytes[0] / 16], HEX[bytes[0] % 16]] && text[3..] == rest;
      }
    }
  }

  // ------------------------------------------------------------------ every header

  /** Whatever the header says, a name taken from it is safe. */
  lemma HeaderNameIsSafe(value: string)
    ensures FromContentDisposition(value).Named? ==> SafeName(FromContentDisposition(value).name)
  {
    var parts := Split(value, ';');
    forall part ensures IsSafe(ExtName(part)) && IsSafe(PlainName(part)) {
      ExtNameIsSafe(part);
      PlainNameIsSafe(part);
    }
    FirstIsSafe(parts, ExtName);
    FirstIsSafe(parts, PlainName);
  }

  predicate IsSafe(n: Name) { n.Named? ==> SafeName(n.name) }

  lemma ExtNameIsSafe(part: string)
    ensures IsSafe(ExtName(part))
  {
    var p := Trim(part);
    if StartsWith(p, EXT) {
      var bytes := Unescape(Encode(AfterQuotes(TrimWrappingQuotes(Trim(p[|EXT|..])))));
      if bytes.Decoded? && Decode(bytes.bytes).Some? {
        SanitizedIsSafe(Decode(bytes.bytes).value);
      }
    }
  }

  lemma PlainNameIsSafe(part: string)
    ensures IsSafe(PlainName(part))
  {
    var p := Trim(part);
    if StartsWith(p, PLAIN) {
      SanitizedIsSafe(TrimWrappingQuotes(Trim(p[|PLAIN|..])));
    }
  }

  lemma {:induction false} FirstIsSafe(parts: seq<string>, name: string -> Name)
    requires forall part :: IsSafe(name(part))
    ensures IsSafe(First(parts, name))
    decreases |parts|
  {
    if parts != [] { FirstIsSafe(parts[1..], name); }
  }

  /** A header of ASCII text, the only kind the caller passes, is always read to the end. */
  lemma AsciiHeaderIsRead(value: string)
    requires Ascii(value)
    ensures FromContentDisposition(value) != Crashed
  {
    var parts := Split(value, ';');
    PartsAreAscii(value, ';');
    forall i | 0 <= i < |parts| ensures !ExtName(parts[i]).Crashed? {
      AsciiPartIsRead(parts[i]);
    }
    FirstIsRead(parts, ExtName);
    FirstIsRead(parts, PlainName);
  }

  lemma {:induction false} FirstIsRead(parts: seq<string>, name: string -> Name)
    requires forall i :: 0 <= i < |parts| ==> !name(parts[i]).Crashed?
    ensures !First(parts, name).Crashed?
    decreases |parts|
  {
    if parts != [] { FirstIsRead(parts[1..], name); }
  }

  lemma {:induction false} PartsAreAscii(s: string, sep: char)
    requires Ascii(s)
    ensures forall i :: 0 <= i < |Split(s, sep)| ==> Ascii(Split(s, sep)[i])
    decreases |s|
  {
    if s != "" { PartsAreAscii(s[1..], sep); }
  }

  lemma AsciiPartIsRead(part: string)
    requires Ascii(part)
    ensures !ExtName(part).Crashed?
  {
    hide Ascii, Trim, AfterQuotes, TrimWrappingQuotes;
    var p := Trim(part);
    AsciiTrim(part);
    if StartsWith(p, EXT) {
      AsciiSlice(p, |EXT|, |p|);
      AsciiTrim(p[|EXT|..]);
      AsciiUnquoted(Trim(p[|EXT|..]));
    }
  }

  lemma AsciiSlice(s: string, i: nat, j: nat)
    requires Ascii(s) && i <= j <= |s|
    ensures Ascii(s[i..j])
    ensures j == |s| ==> s[i..j] == s[i..]
  {
  }

  lemma AsciiTrim(s: string)
    requires Ascii(s)
    ensures Ascii(Trim(s))
  {
    TrimIsSlice(s);
  }

  lemma AsciiUnquoted(s: string)
    requires Ascii(s)
    ensures !DecodedName(AfterQuotes(TrimWrappingQuotes(s))).Crashed?
  {
    var text := AfterQuotes(TrimWrappingQuotes(s));
    AfterQuotesIsAscii(TrimWrappingQuotes(s));
    AsciiBytes(text);
    AsciiIsUnescaped(Encode(text));
  }

  lemma {:induction false} AfterQuotesIsAscii(s: string)
    requires Ascii(s)
    ensures Ascii(AfterQuotes(s))
    decreases |s|
  {
    if s != "" { AfterQuotesIsAscii(s[..|s| - 1]); }
  }

  lemma {:induction false} AsciiIsUnescaped(b: seq<Byte>)
    requires forall i :: 0 <= i < |b| ==> b[i] < 128
    ensures !Unescape(b).Panics?
    decreases |b|
  {
    if b != [] {
      AsciiIsUnescaped(b[1..]);
      if |b| > 2 { AsciiIsUnescaped(b[3..]); }
    }
  }
}
