/** Emoji codes (src/parsers/blocks.rs): hexadecimal code points joined by hyphens. */
module EmojiModel {
  import opened Prelude
  import opened HtmlModel
  import opened BlocksModel

  const HEX := "0123456789abcdef"

  /** The code of a code point as Slack writes it. */
  function HexText(n: nat): string {
    if n < 16 then [HEX[n]] else HexText(n / 16) + [HEX[n % 16]]
  }

  /** The codes of all characters of an emoji, with hyphens between them. */
  function Codes(emoji: string): string {
    if emoji == "" then ""
    else if |emoji| == 1 then HexText(emoji[0] as nat)
    else Codes(emoji[..|emoji| - 1]) + "-" + HexText(emoji[|emoji| - 1] as nat)
  }

  lemma DigitReads(n: nat)
    requires n < 16
    ensures HexDigit(HEX[n]) == Some(n) && HEX[n] != '-' && HEX[n] != '+'
  {
  }

  lemma OneDigit(c: char)
    ensures HexDigits([c]) == HexDigit(c)
  {
    assert [c][..0] == "" && HexDigits("") == Some(0);
  }

  lemma {:induction false} HexReads(n: nat)
    ensures HexDigits(HexText(n)) == Some(n)
    ensures HexText(n) != "" && '-' !in HexText(n) && HexText(n)[0] != '+'
  {
    hide HexDigit;
    DigitReads(n % 16);
    if n >= 16 {
      HexReads(n / 16);
      var t := HexText(n / 16);
      assert (t + [HEX[n % 16]])[..|t|] == t;
    } else {
      OneDigit(HEX[n]);
    }
  }

  lemma CodeReads(c: char)
    ensures DecodeCode(HexText(c as nat)) == [c]
  {
    hide HexDigits, HexText;
    HexReads(c as nat);
  }

  lemma {:induction false} SplitConcat(a: string, b: string, c: char)
    requires c !in b
    ensures Split(a + [c] + b, c) == Split(a, c) + [b]
    decreases |a|
  {
    hide Split, IndexOf;
    var s := a + [c] + b;
    var i := IndexOf(a, c);
    assert s == a + ([c] + b) && ([c] + b)[0] == c;
    IndexOfConcat(a, [c] + b, c);
    IndexOfFirst([c] + b, c);
    SplitFirst(a, c);
    SplitFirst(s, c);
    if i < |a| {
      IndexInside(a, c);
      assert s[..i] == a[..i] && s[i + 1..] == a[i + 1..] + [c] + b;
      SplitConcat(a[i + 1..], b, c);
      assert [a[..i]] + (Split(a[i + 1..], c) + [b]) == [a[..i]] + Split(a[i + 1..], c) + [b];
    } else {
      IndexInside(a, c);
      assert s[..|a|] == a && s[|a| + 1..] == b;
      SplitWhole(b, c);
    }
  }

  lemma IndexInside(a: string, c: char)
    ensures IndexOf(a, c) < |a| <==> c in a
  {
    if c in a {
      var k :| 0 <= k < |a| && a[k] == c;
    }
  }

  lemma IndexOfFirst(s: string, c: char)
    requires s != "" && s[0] == c
    ensures IndexOf(s, c) == 0
  {
  }

  lemma SplitFirst(s: string, c: char)
    ensures var i := IndexOf(s, c);
            Split(s, c) == if i == |s| then [s] else [s[..i]] + Split(s[i + 1..], c)
  {
    hide IndexOf;
  }

  lemma SplitWhole(b: string, c: char)
    requires c !in b
    ensures Split(b, c) == [b]
  {
  }

  lemma DecodeLast(codes: seq<string>, code: string)
    ensures DecodeCodes(codes + [code]) == DecodeCodes(codes) + DecodeCode(code)
  {
    assert (codes + [code])[..|codes|] == codes;
  }

  /** Every sequence of characters is read back from its codes. */
  lemma {:induction false} EmojiRoundTrip(emoji: string)
    requires emoji != ""
    ensures DecodeUnicodeEmoji(Codes(emoji)) == emoji
    decreases |emoji|
  {
    hide HexText, DecodeCode, DecodeCodes, Split;
    var n := |emoji| - 1;
    var c := emoji[n];
    HexReads(c as nat);
    CodeReads(c);
    if n == 0 {
      SplitWhole(HexText(c as nat), '-');
      OneCode(HexText(c as nat));
    } else {
      EmojiRoundTrip(emoji[..n]);
      SplitConcat(Codes(emoji[..n]), HexText(c as nat), '-');
      DecodeLast(Split(Codes(emoji[..n]), '-'), HexText(c as nat));
    }
    assert emoji == emoji[..n] + [c];
  }

  lemma OneCode(code: string)
    ensures DecodeCodes([code]) == DecodeCode(code)
  {
    DecodeLast([], code);
    assert [] + [code] == [code] && "" + DecodeCode(code) == DecodeCode(code);
  }

  /** A code that is no hexadecimal number, or no character, is left out; the others stay in order. */
  lemma CodesOneByOne(a: string, code: string)
    requires '-' !in code
    ensures DecodeUnicodeEmoji(a + "-" + code) == DecodeUnicodeEmoji(a) + DecodeCode(code)
    ensures forall c :: c in code && c != '+' && HexDigit(c).None? ==> DecodeCode(code) == ""
  {
    SplitConcat(a, code, '-');
    DecodeLast(Split(a, '-'), code);
    forall c | c in code && c != '+' && HexDigit(c).None? ensures DecodeCode(code) == "" {
      NoNumber(if code[0] == '+' then code[1..] else code, c);
    }
  }

  lemma {:induction false} NoNumber(s: string, c: char)
    requires c in s && HexDigit(c).None?
    ensures HexDigits(s).None?
    decreases |s|
  {
    var n := |s| - 1;
    if s[n] != c {
      assert s == s[..n] + [s[n]];
      NoNumber(s[..n], c);
    }
  }
}
