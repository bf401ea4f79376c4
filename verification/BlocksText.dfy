/** The two renderers of rich text compared: what is left of the HTML after `strip_html_tags` against the plain text. */
module BlocksTextModel {
  import opened Prelude
  import opened JsonModel
  import opened HtmlModel
  import opened BlocksModel
  import opened BlocksNestingModel

  /** Free of the characters the renderers would otherwise have to escape. */
  predicate Clean(s: string) {
    '<' !in s && '>' !in s && '&' !in s
  }

  predicate CleanElement(elem: Value) {
    if StrOr(elem, "type", "") == "channel" then '>' !in Copied(elem) else Clean(Copied(elem))
  }

  ghost predicate CleanSection(element: Value) {
    AllIn(CleanElement, GetArray(element, "elements"))
  }

  /** `decode` turns `x` into `p`, whatever follows it. */
  ghost predicate Yields(decode: string -> string, x: string, p: string) {
    forall rest :: decode(x + rest) == p + decode(rest)
  }

  lemma YieldsConcat(decode: string -> string, x: string, y: string, p: string, q: string)
    requires Yields(decode, x, p) && Yields(decode, y, q)
    ensures Yields(decode, x + y, p + q)
  {
    forall rest ensures decode(x + y + rest) == p + q + decode(rest) {
      assert x + y + rest == x + (y + rest);
      assert p + (q + decode(rest)) == p + q + decode(rest);
    }
  }

  lemma {:induction false} PassesThrough(decode: string -> string, x: string, rest: string)
    requires forall c, tail :: c in x ==> decode([c] + tail) == [c] + decode(tail)
    ensures decode(x + rest) == x + decode(rest)
    decreases |x|
  {
    if x == "" {
      assert x + rest == rest && x + decode(rest) == decode(rest);
    } else {
      PassesThrough(decode, x[1..], rest);
      assert x + rest == [x[0]] + (x[1..] + rest);
      assert x + decode(rest) == [x[0]] + (x[1..] + decode(rest));
    }
  }

  /** Stripped of tags and decoded, `html` reads `plain`, whatever follows it. */
  ghost predicate Reads(html: string, plain: string) {
    TagsClosed(html) && Yields(DecodeEntities, StripTags(html), plain)
  }

  lemma ReadsStripped(html: string, plain: string)
    requires Reads(html, plain)
    ensures StripHtmlTags(html) == plain
  {
    assert DecodeEntities(StripTags(html) + "") == plain + DecodeEntities("");
    assert StripTags(html) + "" == StripTags(html);
    assert plain + "" == plain;
  }

  lemma ReadsConcat(a: string, b: string, p: string, q: string)
    requires Reads(a, p) && Reads(b, q)
    ensures Reads(a + b, p + q)
  {
    StripConcat(a, b);
    YieldsConcat(DecodeEntities, StripTags(a), StripTags(b), p, q);
  }

  lemma ReadsEscaped(text: string)
    ensures Reads(EscapeHtml(text), text)
  {
    EscapedHasNoMarkup(text);
    StripText(EscapeHtml(text));
    forall rest { DecodeEscaped(text, rest); }
  }

  lemma NotEscaped(c: char, tail: string)
    requires c != '&'
    ensures DecodeEntities([c] + tail) == [c] + DecodeEntities(tail)
  {
    hide EntityAt;
    var s := [c] + tail;
    assert s[0] == c && s[1..] == tail;
    EntitiesStartWithAmpersand(s);
  }

  lemma ReadsClean(text: string)
    requires '<' !in text && '&' !in text
    ensures Reads(text, text)
  {
    StripText(text);
    forall c, tail | c in text ensures DecodeEntities([c] + tail) == [c] + DecodeEntities(tail) {
      NotEscaped(c, tail);
    }
    forall rest { PassesThrough(DecodeEntities, text, rest); }
  }

  lemma ReadsTag(inner: string)
    requires '>' !in inner
    ensures Reads("<" + inner + ">", "")
  {
    StripTag(inner);
    forall rest ensures DecodeEntities(StripTags("<" + inner + ">") + rest) == "" + DecodeEntities(rest) {
      assert "" + rest == rest && "" + DecodeEntities(rest) == DecodeEntities(rest);
    }
  }

  lemma ReadsElement(open: string, name: string, x: string, plain: string)
    requires Reads(x, plain) && '>' !in open && '>' !in name
    ensures Reads(Element(open, name, x), plain)
  {
    ReadsTag(open);
    var closing := "/" + name;
    ReadsTag(closing);
    assert "<" + closing + ">" == Close(name);
    ReadsConcat(Open(open), x, "", plain);
    ReadsConcat(Open(open) + x, Close(name), "" + plain, "");
    assert "" + plain + "" == plain;
  }

  lemma ReadsStyled(style: Value, flag: string, name: string, x: string, plain: string)
    requires Reads(x, plain) && '>' !in name
    ensures Reads(Styled(style, flag, name, x), plain)
  {
    ReadsElement(name, name, x, plain);
  }

  lemma ReadsStyles(elem: Value, x: string, plain: string)
    requires Reads(x, plain)
    ensures Reads(ApplyTextStyles(elem, x), plain)
  {
    var style := Get(elem, "style");
    if style.Some? {
      var a := Styled(style.value, "code", "code", x);
      ReadsStyled(style.value, "code", "code", x, plain);
      var b := Styled(style.value, "bold", "strong", a);
      ReadsStyled(style.value, "bold", "strong", a, plain);
      var c := Styled(style.value, "italic", "em", b);
      ReadsStyled(style.value, "italic", "em", b, plain);
      ReadsStyled(style.value, "strike", "del", c, plain);
    }
  }

  lemma ReadsLink(url: string, x: string, plain: string)
    requires Reads(x, plain) && '>' !in url
    ensures Reads(Link(url, x), plain)
  {
    ReadsElement("a href=\"" + url + "\"", "a", x, plain);
  }

  // ------------------------------------------------------------------ element by element

  /** What the HTML of an element says to a reader. */
  function Shown(elem: Value): string {
    var kind := StrOr(elem, "type", "");
    if kind == "text" then StrOr(elem, "text", "")
    else if kind == "user" then "@" + StrOr(elem, "user_id", "")
    else if kind == "channel" then "#channel"
    else if kind == "link" then StrOr(elem, "text", StrOr(elem, "url", ""))
    else if kind == "emoji" then Emoji(elem)
    else if kind == "broadcast" then "@" + StrOr(elem, "range", "everyone")
    else if kind == "color" then "\U{25A0}" + " " + StrOr(elem, "value", "#000000")
    else if kind == "date" then
      var fallback := StrOr(elem, "fallback", "");
      if fallback == "" then IntToString(I64Or0(elem, "timestamp")) else fallback
    else if kind == "usergroup" then "@group_" + StrOr(elem, "usergroup_id", "")
    else ""
  }

  lemma ReadsColor(value: string)
    requires Clean(value)
    ensures Reads(Element("font color=\"" + value + "\"", "font", "\U{25A0}") + " " + value, "\U{25A0}" + " " + value)
  {
    var font := Element("font color=\"" + value + "\"", "font", "\U{25A0}");
    ReadsClean("\U{25A0}");
    ReadsElement("font color=\"" + value + "\"", "font", "\U{25A0}", "\U{25A0}");
    ReadsClean(" ");
    ReadsClean(value);
    ReadsConcat(font, " ", "\U{25A0}", " ");
    ReadsConcat(font + " ", value, "\U{25A0}" + " ", value);
  }

  lemma ReadsTime(n: int)
    ensures var t := IntToString(n); Reads(Element("time datetime=\"" + t + "\"", "time", t), t)
  {
    var t := IntToString(n);
    NumbersAreClean(n);
    ReadsClean(t);
    ReadsElement("time datetime=\"" + t + "\"", "time", t, t);
  }

  lemma ReadsDate(elem: Value)
    requires StrOr(elem, "type", "") == "date"
    ensures Reads(RenderElement(elem), Shown(elem))
  {
    hide Reads, EscapeHtml, Element, IntToString, Get, AsStr, ApplyTextStyles, Link, Emoji;
    ReadsEscaped(StrOr(elem, "fallback", ""));
    ReadsTime(I64Or0(elem, "timestamp"));
  }

  lemma ReadsLinkElement(elem: Value)
    requires StrOr(elem, "type", "") == "link"
    ensures Reads(RenderElement(elem), Shown(elem))
  {
    var url := StrOr(elem, "url", "");
    var shown := StrOr(elem, "text", url);
    ReadsEscaped(shown);
    ReadsStyles(elem, EscapeHtml(shown), shown);
    EscapedHasNoMarkup(url);
    ReadsLink(EscapeHtml(url), ApplyTextStyles(elem, EscapeHtml(shown)), shown);
  }

  lemma ReadsMention(id: string)
    requires Clean(id)
    ensures Reads(Link("https://matrix.to/#/@_slack_" + id + ":", "@" + id), "@" + id)
  {
    ReadsClean("@" + id);
    ReadsLink("https://matrix.to/#/@_slack_" + id + ":", "@" + id, "@" + id);
  }

  lemma ReadsChannel(id: string)
    requires '>' !in id
    ensures Reads(Link("https://matrix.to/#/#_slack_" + id + ":", "#channel"), "#channel")
  {
    hide Reads, Link;
    var text := "#channel";
    ReadsClean(text);
    ReadsLink("https://matrix.to/#/#_slack_" + id + ":", text, text);
  }

  lemma ReadsBroadcast(range: string)
    requires Clean(range)
    ensures Reads(Element("font color=\"#FF0000\"", "font", "@" + range), "@" + range)
  {
    ReadsClean("@" + range);
    ReadsElement("font color=\"#FF0000\"", "font", "@" + range, "@" + range);
  }

  lemma ReadsTextElement(elem: Value)
    ensures var text := StrOr(elem, "text", ""); Reads(ApplyTextStyles(elem, EscapeHtml(text)), text)
  {
    var text := StrOr(elem, "text", "");
    ReadsEscaped(text);
    ReadsStyles(elem, EscapeHtml(text), text);
  }

  /** The HTML of every element reads exactly what `Shown` says. */
  lemma ElementReads(elem: Value)
    requires CleanElement(elem)
    ensures Reads(RenderElement(elem), Shown(elem))
  {
    var kind := StrOr(elem, "type", "");
    if kind == "text" { ReadsTextElement(elem); }
    else if kind == "user" { ReadsMention(StrOr(elem, "user_id", "")); }
    else if kind == "channel" { ReadsChannel(StrOr(elem, "channel_id", "")); }
    else if kind == "link" { ReadsLinkElement(elem); }
    else if kind == "emoji" { ReadsClean(Emoji(elem)); }
    else if kind == "broadcast" { ReadsBroadcast(StrOr(elem, "range", "everyone")); }
    else if kind == "color" { ReadsColor(StrOr(elem, "value", "#000000")); }
    else if kind == "date" { ReadsDate(elem); }
    else if kind == "usergroup" { ReadsClean("@group_" + StrOr(elem, "usergroup_id", "")); }
    else { ReadsClean(""); }
  }

  /** The elements on which the two renderers say the same. */
  predicate Agrees(elem: Value) {
    var kind := StrOr(elem, "type", "");
    if kind == "link" then GetStr(elem, "text").None?
    else if kind == "channel" then StrOr(elem, "channel_id", "") == "channel"
    else kind != "color" && kind != "date" && kind != "usergroup"
  }

  lemma NumbersAreNonEmpty(n: int)
    ensures IntToString(n) != ""
  {
  }

  /** For every element, and only those: the stripped HTML equals the plain rendering exactly when `Agrees`. */
  lemma ElementAgreesExactly(elem: Value)
    requires CleanElement(elem)
    ensures StripHtmlTags(RenderElement(elem)) == RenderElementPlain(elem) <==> Agrees(elem)
  {
    hide RenderElement, StripHtmlTags, CleanElement;
    ElementReads(elem);
    ReadsStripped(RenderElement(elem), Shown(elem));
    var kind := StrOr(elem, "type", "");
    if kind == "link" {
      var text := GetStr(elem, "text");
      if text.Some? {
        assert |RenderElementPlain(elem)| > |text.value| == |Shown(elem)|;
      }
    } else if kind == "channel" {
      var id := StrOr(elem, "channel_id", "");
      assert "#channel" == "#" + "channel";
      assert ("#" + id)[1..] == id && "#channel"[1..] == "channel";
    } else if kind == "date" {
      NumbersAreNonEmpty(I64Or0(elem, "timestamp"));
    }
  }

  // ------------------------------------------------------------------ whole sections

  lemma {:induction false} ElementsRead(items: seq<Value>)
    requires forall v :: v in items ==> CleanElement(v)
    ensures Reads(MapConcat(RenderElement, items), MapConcat(Shown, items))
    decreases |items|
  {
    if items == [] {
      ReadsClean("");
    } else {
      var n := |items| - 1;
      ElementsRead(items[..n]);
      ElementReads(items[n]);
      ReadsConcat(MapConcat(RenderElement, items[..n]), RenderElement(items[n]), MapConcat(Shown, items[..n]),
          Shown(items[n]));
    }
  }

  lemma {:induction false} AgreeingShowPlain(items: seq<Value>)
    requires forall v :: v in items ==> CleanElement(v) && Agrees(v)
    ensures MapConcat(Shown, items) == MapConcat(RenderElementPlain, items)
    decreases |items|
  {
    if items != [] {
      var n := |items| - 1;
      AgreeingShowPlain(items[..n]);
      ElementReads(items[n]);
      ReadsStripped(RenderElement(items[n]), Shown(items[n]));
      ElementAgreesExactly(items[n]);
    }
  }

  function OrEmpty(r: Option<string>): string {
    if r.Some? then r.value else ""
  }

  /**
   The two renderers agree on every section made of agreeing elements: text in any mix of styles, users, broadcasts,
   emoji and links without a label.
   */
  lemma SectionsAgree(element: Value)
    requires CleanSection(element) && AllIn(Agrees, GetArray(element, "elements"))
    ensures StripHtmlTags(OrEmpty(RenderSection(element))) == OrEmpty(RenderSectionPlain(element))
  {
    var items := GetArray(element, "elements");
    if items.Some? {
      ElementsRead(items.value);
      AgreeingShowPlain(items.value);
      ReadsStripped(MapConcat(RenderElement, items.value), MapConcat(Shown, items.value));
    } else {
      assert StripHtmlTags("") == "";
    }
  }
}
