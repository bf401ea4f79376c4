/**
 Escaping and un-escaping of HTML text: `escape_html` (src/parsers/blocks.rs), `strip_html_tags` and
 `normalize_slack_text_basic` (src/parsers/common.rs).
 */
module HtmlModel {
  import opened Prelude

  /** Four replaces, one after the other. */
  function EscapeHtml(text: string): string {
    ReplaceAll(ReplaceAll(ReplaceAll(ReplaceAll(text, "&", "&amp;"), "<", "&lt;"), ">", "&gt;"), "\"", "&quot;")
  }

  function EscapeChar(c: char): string {
    match c
    case '&' => "&amp;"
    case '<' => "&lt;"
    case '>' => "&gt;"
    case '"' => "&quot;"
    case _ => [c]
  }

  function MapChars(f: char -> string, text: string): string {
    if text == "" then "" else f(text[0]) + MapChars(f, text[1..])
  }

  /** Every leftmost match of `<[^>]*>` is removed; a `<` with no `>` after it stays. */
  function StripTags(html: string): string
    decreases |html|
  {
    if html == "" then ""
    else if html[0] == '<' && IndexOf(html, '>') < |html| then StripTags(html[IndexOf(html, '>') + 1..])
    else [html[0]] + StripTags(html[1..])
  }

  datatype Entity = Entity(name: string, text: string)

  /** The entity `s` starts with, if any. */
  function EntityAt(s: string): Option<Entity> {
    if "&nbsp;" <= s then Some(Entity("&nbsp;", " "))
    else if "&amp;" <= s then Some(Entity("&amp;", "&"))
    else if "&lt;" <= s then Some(Entity("&lt;", "<"))
    else if "&gt;" <= s then Some(Entity("&gt;", ">"))
    else if "&quot;" <= s then Some(Entity("&quot;", "\""))
    else if "&#39;" <= s then Some(Entity("&#39;", "'"))
    else if "&#x27;" <= s then Some(Entity("&#x27;", "'"))
    else None
  }

  /** One left-to-right pass over the named entities. */
  function DecodeEntities(s: string): string
    decreases |s|
  {
    if s == "" then ""
    else
      var e := EntityAt(s);
      if e.Some? then e.value.text + DecodeEntities(s[|e.value.name|..])
      else [s[0]] + DecodeEntities(s[1..])
  }

  function StripHtmlTags(html: string): string {
    DecodeEntities(StripTags(html))
  }

  // ------------------------------------------------------------------ the escaper is a per-character map

  /** Replacing a one-character pattern distributes over concatenation. */
  lemma {:induction false} ReplaceCharConcat(a: string, b: string, c: char, rep: string)
    ensures ReplaceAll(a + b, [c], rep) == ReplaceAll(a, [c], rep) + ReplaceAll(b, [c], rep)
    decreases |a|
  {
    if a == "" {
      assert a + b == b;
    } else {
      assert (a + b)[1..] == a[1..] + b;
      ReplaceCharConcat(a[1..], b, c, rep);
      assert [c] <= a + b <==> [c] <= a;
    }
  }

  lemma EscapeConcat(a: string, b: string)
    ensures EscapeHtml(a + b) == EscapeHtml(a) + EscapeHtml(b)
  {
    ReplaceCharConcat(a, b, '&', "&amp;");
    var a1, b1 := ReplaceAll(a, "&", "&amp;"), ReplaceAll(b, "&", "&amp;");
    ReplaceCharConcat(a1, b1, '<', "&lt;");
    var a2, b2 := ReplaceAll(a1, "<", "&lt;"), ReplaceAll(b1, "<", "&lt;");
    ReplaceCharConcat(a2, b2, '>', "&gt;");
    ReplaceCharConcat(ReplaceAll(a2, ">", "&gt;"), ReplaceAll(b2, ">", "&gt;"), '"', "&quot;");
  }

  lemma {:induction false} ReplaceAbsent(s: string, c: char, rep: string)
    requires c !in s
    ensures ReplaceAll(s, [c], rep) == s
    decreases |s|
  {
    if s != "" {
      ReplaceAbsent(s[1..], c, rep);
      assert s == [s[0]] + s[1..];
    }
  }

  lemma ReplaceThatChar(c: char, rep: string)
    ensures ReplaceAll([c], [c], rep) == rep
  {
    assert [c][1..] == "" && [c][|[c]|..] == "";
    assert rep + "" == rep;
  }

  /** One of the chained replaces, on the text it is applied to. */
  lemma ReplaceIn(s: string, c: char, rep: string)
    ensures ReplaceAll([c], [c], rep) == rep
    ensures c !in s ==> ReplaceAll(s, [c], rep) == s
  {
    ReplaceThatChar(c, rep);
    if c !in s { ReplaceAbsent(s, c, rep); }
  }

  lemma EscapeOne(c: char)
    ensures EscapeHtml([c]) == EscapeChar(c)
  {
    hide ReplaceAll;
    var s1 := if c == '&' then "&amp;" else [c];
    ReplaceIn([c], '&', "&amp;");
    var s2 := if c == '<' then "&lt;" else s1;
    ReplaceIn(s1, '<', "&lt;");
    var s3 := if c == '>' then "&gt;" else s2;
    ReplaceIn(s2, '>', "&gt;");
    ReplaceIn(s3, '"', "&quot;");
  }

  /** No replace touches what an earlier one produced: the chain equals one pass with a character map. */
  lemma {:induction false} EscapeIsCharMap(text: string)
    ensures EscapeHtml(text) == MapChars(EscapeChar, text)
    decreases |text|
  {
    if text == "" {
      assert ReplaceAll("", "&", "&amp;") == "";
    } else {
      EscapeIsCharMap(text[1..]);
      EscapeConcat(text[..1], text[1..]);
      EscapeOne(text[0]);
      assert text == text[..1] + text[1..] && text[..1] == [text[0]];
    }
  }

  // ------------------------------------------------------------------ stripping inverts escaping

  lemma {:induction false} IndexOfConcat(a: string, b: string, c: char)
    ensures c in a ==> IndexOf(a + b, c) == IndexOf(a, c)
    ensures c !in a ==> IndexOf(a + b, c) == |a| + IndexOf(b, c)
    decreases |a|
  {
    if a == "" {
      assert a + b == b;
    } else {
      assert (a + b)[1..] == a[1..] + b;
      IndexOfConcat(a[1..], b, c);
    }
  }

  /** Every `<` has a later `>`: no tag is still open at the end. */
  predicate TagsClosed(s: string)
    decreases |s|
  {
    if s == "" then true
    else if s[0] == '<' then IndexOf(s, '>') < |s| && TagsClosed(s[IndexOf(s, '>') + 1..])
    else TagsClosed(s[1..])
  }

  lemma StripFirst(s: string)
    requires s != ""
    ensures s[0] != '<' ==>
      StripTags(s) == [s[0]] + StripTags(s[1..]) && (TagsClosed(s) <==> TagsClosed(s[1..]))
    ensures s[0] == '<' && IndexOf(s, '>') < |s| ==>
      var rest := s[IndexOf(s, '>') + 1..]; StripTags(s) == StripTags(rest) && (TagsClosed(s) <==> TagsClosed(rest))
    ensures s[0] == '<' && IndexOf(s, '>') == |s| ==> !TagsClosed(s)
  {
  }

  lemma Regroup(a: string, b: string, c: string)
    ensures a + b + c == a + (b + c)
  {
  }

  lemma {:induction false} StripConcat(a: string, b: string)
    requires TagsClosed(a)
    ensures StripTags(a + b) == StripTags(a) + StripTags(b)
    ensures TagsClosed(b) ==> TagsClosed(a + b)
    decreases |a|
  {
    if a == "" {
      assert a + b == b;
    } else {
      hide StripTags, TagsClosed;
      StripConcatStep(a, b);
      var rest := if a[0] == '<' then a[IndexOf(a, '>') + 1..] else a[1..];
      StripConcat(rest, b);
      Regroup(if a[0] == '<' then "" else [a[0]], StripTags(rest), StripTags(b));
    }
  }

  /** The first tag or character of `a` is also that of `a + b`. */
  lemma StripConcatStep(a: string, b: string)
    requires a != "" && TagsClosed(a)
    ensures a[0] == '<' ==> IndexOf(a, '>') < |a|
    ensures var rest := if a[0] == '<' then a[IndexOf(a, '>') + 1..] else a[1..];
            var kept := if a[0] == '<' then "" else [a[0]];
            && TagsClosed(rest) && StripTags(a) == kept + StripTags(rest)
            && StripTags(a + b) == kept + StripTags(rest + b) && (TagsClosed(a + b) <==> TagsClosed(rest + b))
  {
    hide StripTags, TagsClosed;
    StripFirst(a);
    StripFirst(a + b);
    IndexOfConcat(a, b, '>');
    if a[0] == '<' {
      var j := IndexOf(a, '>');
      assert a[j] == '>';
      assert (a + b)[j + 1..] == a[j + 1..] + b;
    } else {
      assert (a + b)[1..] == a[1..] + b;
    }
  }

  lemma {:induction false} StripText(s: string)
    requires '<' !in s
    ensures TagsClosed(s) && StripTags(s) == s
    decreases |s|
  {
    if s != "" {
      StripText(s[1..]);
      assert s == [s[0]] + s[1..];
    }
  }

  /** A single tag disappears. */
  lemma StripTag(inner: string)
    requires '>' !in inner
    ensures TagsClosed("<" + inner + ">") && StripTags("<" + inner + ">") == ""
  {
    var tag := "<" + inner + ">";
    IndexOfConcat("<" + inner, ">", '>');
    assert IndexOf(tag, '>') == |tag| - 1;
    assert tag[|tag|..] == "";
  }

  lemma {:induction false} MapCharsConcat(f: char -> string, a: string, b: string)
    ensures MapChars(f, a + b) == MapChars(f, a) + MapChars(f, b)
    decreases |a|
  {
    if a == "" {
      assert a + b == b;
    } else {
      assert (a + b)[1..] == a[1..] + b;
      MapCharsConcat(f, a[1..], b);
    }
  }

  lemma {:induction false} EscapedHasNoMarkup(text: string)
    ensures '<' !in EscapeHtml(text) && '>' !in EscapeHtml(text) && '"' !in EscapeHtml(text)
    decreases |text|
  {
    EscapeIsCharMap(text);
    if text != "" {
      EscapedHasNoMarkup(text[1..]);
      EscapeIsCharMap(text[1..]);
    }
  }

  /** An entity is recognised by its second character, except for the two numeric ones. */
  lemma EntityAtEscaped(c: char, rest: string)
    requires EscapeChar(c) != [c]
    ensures EntityAt(EscapeChar(c) + rest) == Some(Entity(EscapeChar(c), [c]))
  {
    var e := EscapeChar(c);
    var s := e + rest;
    assert e <= s && s[1] == e[1];
    assert "&nbsp;"[1] == 'n' && "&amp;"[1] == 'a' && "&lt;"[1] == 'l' && "&gt;"[1] == 'g' && "&quot;"[1] == 'q';
  }

  lemma EntityIsRead(name: string, text: string, rest: string)
    requires EntityAt(name + rest) == Some(Entity(name, text)) && name != ""
    ensures DecodeEntities(name + rest) == text + DecodeEntities(rest)
  {
    hide EntityAt;
    assert (name + rest)[|name|..] == rest;
  }

  lemma NumericEntities(rest: string)
    ensures EntityAt("&nbsp;" + rest) == Some(Entity("&nbsp;", " "))
    ensures EntityAt("&#39;" + rest) == Some(Entity("&#39;", "'"))
    ensures EntityAt("&#x27;" + rest) == Some(Entity("&#x27;", "'"))
  {
    var a, b, c := "&nbsp;" + rest, "&#39;" + rest, "&#x27;" + rest;
    assert "&nbsp;" <= a && "&#39;" <= b && "&#x27;" <= c;
    assert b[1] == '#' && c[1] == '#' && c[2] == 'x';
    assert "&nbsp;"[1] == 'n' && "&amp;"[1] == 'a' && "&lt;"[1] == 'l' && "&gt;"[1] == 'g' && "&quot;"[1] == 'q';
    assert "&#39;"[2] == '3';
  }

  /** Besides the four that escaping writes, three more entities are decoded. */
  lemma OtherEntitiesAreDecoded(rest: string)
    ensures DecodeEntities("&nbsp;" + rest) == " " + DecodeEntities(rest)
    ensures DecodeEntities("&#39;" + rest) == "'" + DecodeEntities(rest)
    ensures DecodeEntities("&#x27;" + rest) == "'" + DecodeEntities(rest)
  {
    hide EntityAt, DecodeEntities;
    NumericEntities(rest);
    EntityIsRead("&nbsp;", " ", rest);
    EntityIsRead("&#39;", "'", rest);
    EntityIsRead("&#x27;", "'", rest);
  }

  lemma EntitiesStartWithAmpersand(s: string)
    ensures EntityAt(s).Some? ==> s != "" && s[0] == '&'
  {
    assert "&nbsp;"[0] == '&' && "&amp;"[0] == '&' && "&lt;"[0] == '&' && "&gt;"[0] == '&' && "&quot;"[0] == '&'
           && "&#39;"[0] == '&' && "&#x27;"[0] == '&';
  }

  lemma DecodeEscapedChar(c: char, rest: string)
    ensures DecodeEntities(EscapeChar(c) + rest) == [c] + DecodeEntities(rest)
  {
    hide EntityAt;
    var s := EscapeChar(c) + rest;
    if EscapeChar(c) != [c] {
      EntityAtEscaped(c, rest);
      assert s[|EscapeChar(c)|..] == rest;
    } else {
      assert s[0] == c && s[1..] == rest;
      EntitiesStartWithAmpersand(s);
    }
  }

  /** A pass that turns each encoded character into another encoding re-encodes whole texts. */
  lemma {:induction false} RecodeMapped(
      pass: string -> string, from: char -> string, to: char -> string, text: string, rest: string)
    requires forall c, tail :: pass(from(c) + tail) == to(c) + pass(tail)
    ensures pass(MapChars(from, text) + rest) == MapChars(to, text) + pass(rest)
    decreases |text|
  {
    if text == "" {
      assert MapChars(from, text) + rest == rest && MapChars(to, text) + pass(rest) == pass(rest);
    } else {
      var tail := MapChars(from, text[1..]) + rest;
      RecodeMapped(pass, from, to, text[1..], rest);
      assert MapChars(from, text) + rest == from(text[0]) + tail;
      assert MapChars(to, text) + pass(rest) == to(text[0]) + (MapChars(to, text[1..]) + pass(rest));
    }
  }

  function Plain(c: char): string { [c] }

  lemma {:induction false} MapPlain(text: string)
    ensures MapChars(Plain, text) == text
    decreases |text|
  {
    if text != "" {
      MapPlain(text[1..]);
      assert text == [text[0]] + text[1..];
    }
  }

  lemma DecodeEscaped(text: string, rest: string)
    ensures DecodeEntities(EscapeHtml(text) + rest) == text + DecodeEntities(rest)
  {
    EscapeIsCharMap(text);
    forall c, tail ensures DecodeEntities(EscapeChar(c) + tail) == Plain(c) + DecodeEntities(tail) {
      DecodeEscapedChar(c, tail);
    }
    RecodeMapped(DecodeEntities, EscapeChar, Plain, text, rest);
    MapPlain(text);
  }

  /** Text passes unchanged through escaping and stripping, whatever it contains. */
  lemma StripInvertsEscape(text: string)
    ensures StripHtmlTags(EscapeHtml(text)) == text
  {
    EscapedHasNoMarkup(text);
    StripText(EscapeHtml(text));
    DecodeEscaped(text, "");
    assert EscapeHtml(text) + "" == EscapeHtml(text);
    assert text + DecodeEntities("") == text;
  }
}
