/** `normalize_slack_text_basic` (src/parsers/common.rs): the three escapes of Slack text, decoded one by one. */
module SlackTextModel {
  import opened Prelude
  import opened HtmlModel

  function Normalize(text: string): string {
    ReplaceAll(ReplaceAll(ReplaceAll(text, "&amp;", "&"), "&lt;", "<"), "&gt;", ">")
  }

  /** How Slack escapes a character of message text. */
  function SlackChar(c: char): string {
    if c == '&' then "&amp;" else AngleChar(c)
  }

  function AngleChar(c: char): string {
    if c == '<' then "&lt;" else GtChar(c)
  }

  function GtChar(c: char): string {
    if c == '>' then "&gt;" else [c]
  }

  function SlackEscape(text: string): string {
    MapChars(SlackChar, text)
  }

  predicate Contains(s: string, pat: string) {
    pat <= s || (s != "" && Contains(s[1..], pat))
  }

  /** An escape that is not the pattern, but starts like it, is passed over too. */
  lemma ReplaceSkipsEscape(escape: string, rest: string, pat: string, rep: string)
    requires |pat| >= 2 && |escape| >= 2 && escape[0] == pat[0] && escape[1] != pat[1] && pat[0] !in escape[1..]
    ensures ReplaceAll(escape + rest, pat, rep) == escape + ReplaceAll(rest, pat, rep)
  {
    var s := escape + rest;
    assert !(pat <= s) by { assert s[1] == escape[1]; }
    assert s[1..] == escape[1..] + rest;
    ReplaceSkips(escape[1..], rest, pat, rep);
    assert escape == [escape[0]] + escape[1..];
  }

  lemma DecodeAmp(text: string)
    ensures ReplaceAll(SlackEscape(text), "&amp;", "&") == MapChars(AngleChar, text)
  {
    var pass := (s: string) => ReplaceAll(s, "&amp;", "&");
    forall c, tail ensures pass(SlackChar(c) + tail) == AngleChar(c) + pass(tail) {
      if c == '&' { ReplaceHit("&amp;", tail, "&"); }
      else if c == '<' || c == '>' { ReplaceSkipsEscape(AngleChar(c), tail, "&amp;", "&"); }
      else { ReplaceSkips([c], tail, "&amp;", "&"); }
    }
    RecodeMapped(pass, SlackChar, AngleChar, text, "");
    assert MapChars(SlackChar, text) + "" == SlackEscape(text);
    assert MapChars(AngleChar, text) + pass("") == MapChars(AngleChar, text);
  }

  /** `from` escapes `c` as `pat`; `to` leaves `c` alone and otherwise agrees; both write 4-character escapes. */
  ghost predicate Unescapes(c: char, pat: string, from: char -> string, to: char -> string) {
    && |pat| == 4 && pat[0] == '&' && '&' !in pat[1..] && c !in pat && from(c) == pat && to(c) == [c]
    && (forall d :: d != c ==> from(d) == to(d))
    && (forall d :: from(d) == [d] || (|from(d)| == 4 && from(d)[0] == '&' && '&' !in from(d)[1..]))
    && (forall d :: d != c && from(d) != [d] ==> from(d)[1] != pat[1] && d != '&')
    && (forall d :: d in pat ==> from(d) == [d])
  }

  /** A piece of the pattern found in mapped text was there in the text. */
  lemma {:induction false} PrefixOfMapped(w: string, f: char -> string, text: string)
    requires w <= MapChars(f, text) && '&' !in w
    requires forall d :: f(d) == [d] || (f(d) != "" && f(d)[0] == '&')
    ensures w <= text
    decreases |w|
  {
    if w != "" && text != "" {
      var mapped := MapChars(f, text);
      assert w[0] == mapped[0] == f(text[0])[0];
      assert f(text[0]) == [text[0]];
      assert mapped[1..] == MapChars(f, text[1..]);
      PrefixOfMapped(w[1..], f, text[1..]);
      assert w == [w[0]] + w[1..] && text == [text[0]] + text[1..];
    }
  }

  lemma {:induction false} MapUnchanged(f: char -> string, w: string, rest: string)
    requires forall d :: d in w ==> f(d) == [d]
    ensures MapChars(f, w + rest) == w + MapChars(f, rest)
    decreases |w|
  {
    if w == "" {
      assert w + rest == rest && w + MapChars(f, rest) == MapChars(f, rest);
    } else {
      assert (w + rest)[1..] == w[1..] + rest;
      MapUnchanged(f, w[1..], rest);
    }
  }

  /** One decoding pass: it decodes the escapes of `c` and, besides, every literal `pat` of the text. */
  lemma {:induction false} DecodePass(c: char, pat: string, from: char -> string, to: char -> string, text: string)
    requires Unescapes(c, pat, from, to)
    ensures ReplaceAll(MapChars(from, text), pat, [c]) == MapChars(to, ReplaceAll(text, pat, [c]))
    decreases |text|
  {
    if text == "" {
    } else if pat <= text {
      var rest := text[4..];
      assert text == pat + rest;
      MapUnchanged(from, pat, rest);
      ReplaceHit(pat, MapChars(from, rest), [c]);
      DecodePass(c, pat, from, to, rest);
      assert ([c] + ReplaceAll(rest, pat, [c]))[1..] == ReplaceAll(rest, pat, [c]);
    } else {
      var d, rest := text[0], text[1..];
      DecodePass(c, pat, from, to, rest);
      assert ([d] + ReplaceAll(rest, pat, [c]))[1..] == ReplaceAll(rest, pat, [c]);
      if d == c {
        ReplaceHit(pat, MapChars(from, rest), [c]);
      } else if from(d) != [d] {
        ReplaceSkipsEscape(from(d), MapChars(from, rest), pat, [c]);
      } else if d != '&' {
        ReplaceSkips([d], MapChars(from, rest), pat, [c]);
      } else {
        LiteralAmpersand(pat, from, rest);
        assert ([d] + MapChars(from, rest))[1..] == MapChars(from, rest);
      }
    }
  }

  lemma LiteralAmpersand(pat: string, from: char -> string, rest: string)
    requires |pat| == 4 && pat[0] == '&' && '&' !in pat[1..] && !(pat <= "&" + rest)
    requires forall d :: from(d) == [d] || (|from(d)| == 4 && from(d)[0] == '&' && '&' !in from(d)[1..])
    ensures !(pat <= "&" + MapChars(from, rest))
  {
    var s := "&" + MapChars(from, rest);
    if pat <= s {
      assert pat == "&" + pat[1..] && s[1..] == MapChars(from, rest);
      assert pat[1..] <= MapChars(from, rest);
      PrefixOfMapped(pat[1..], from, rest);
      assert false;
    }
  }

  /** Decoding what Slack escapes yields the text with its own literal `&lt;` and `&gt;` decoded as well. */
  lemma NormalizeOfEscape(text: string)
    ensures Normalize(SlackEscape(text)) == ReplaceAll(ReplaceAll(text, "&lt;", "<"), "&gt;", ">")
  {
    hide ReplaceAll, SlackEscape;
    DecodeAmp(text);
    DecodePass('<', "&lt;", AngleChar, GtChar, text);
    DecodePass('>', "&gt;", GtChar, Plain, ReplaceAll(text, "&lt;", "<"));
    MapPlain(ReplaceAll(ReplaceAll(text, "&lt;", "<"), "&gt;", ">"));
  }

  lemma {:induction false} ShorterWhenContained(s: string, pat: string, rep: string)
    requires |rep| < |pat|
    ensures |ReplaceAll(s, pat, rep)| <= |s|
    ensures Contains(s, pat) ==> |ReplaceAll(s, pat, rep)| < |s|
    ensures !Contains(s, pat) ==> ReplaceAll(s, pat, rep) == s
    decreases |s|
  {
    if s != "" {
      ShorterWhenContained(s[1..], pat, rep);
      if pat <= s { ShorterWhenContained(s[|pat|..], pat, rep); }
      assert s == [s[0]] + s[1..];
    }
  }

  /** The decoder is exact on a text if and only if the text itself contains neither `&lt;` nor `&gt;`. */
  lemma NormalizeIsExactWhen(text: string)
    ensures Normalize(SlackEscape(text)) == text <==> !Contains(text, "&lt;") && !Contains(text, "&gt;")
  {
    NormalizeOfEscape(text);
    ShorterWhenContained(text, "&lt;", "<");
    ShorterWhenContained(ReplaceAll(text, "&lt;", "<"), "&gt;", ">");
  }
}
