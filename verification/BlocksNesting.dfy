/** The HTML produced for blocks and attachments is well nested, whatever JSON they are. */
module BlocksNestingModel {
  import opened Prelude
  import opened JsonModel
  import opened HtmlModel
  import opened NestingModel
  import opened BlocksModel

  /** Every element name the renderers may emit. */
  const TAGS: set<string> := {
    "code", "strong", "em", "del", "a", "font", "time", "pre", "blockquote", "li", "ol", "ul", "table", "tr", "td", "p",
    "img", "figure", "figcaption", "h3", "hr", "br"}

  ghost predicate Nested(s: string) {
    Balanced(s, TAGS)
  }

  /** The string a renderer copies unescaped into HTML, if any. */
  function Copied(elem: Value): string {
    var kind := StrOr(elem, "type", "");
    if kind == "user" then StrOr(elem, "user_id", "")
    else if kind == "channel" then StrOr(elem, "channel_id", "")
    else if kind == "emoji" then Emoji(elem)
    else if kind == "broadcast" then StrOr(elem, "range", "everyone")
    else if kind == "color" then StrOr(elem, "value", "#000000")
    else if kind == "usergroup" then StrOr(elem, "usergroup_id", "")
    else ""
  }

  /** It is harmless: nested where it becomes text, without `>` where it becomes part of a tag. */
  ghost predicate CopyNests(elem: Value) {
    var kind := StrOr(elem, "type", "");
    && (kind != "channel" ==> Nested(Copied(elem)))
    && (kind == "user" || kind == "channel" || kind == "color" ==> '>' !in Copied(elem))
  }

  ghost predicate AllIn(f: Value -> bool, items: Option<seq<Value>>) {
    items.Some? ==> forall v :: v in items.value ==> f(v)
  }

  ghost predicate CopiesNestInSection(element: Value) {
    AllIn(CopyNests, GetArray(element, "elements"))
  }

  ghost predicate CopiesNestInPart(element: Value) {
    if StrOr(element, "type", "") == "rich_text_list" then AllIn(CopiesNestInSection, GetArray(element, "elements"))
    else CopiesNestInSection(element)
  }

  ghost predicate CopiesNestInBlock(block: Value) {
    StrOr(block, "type", "") == "rich_text" ==> AllIn(CopiesNestInPart, GetArray(block, "elements"))
  }

  // ------------------------------------------------------------------ building blocks

  predicate PlainName(name: string) {
    name != "" && forall c :: c in name ==> c != ' ' && c != '>' && c != '/'
  }

  lemma TagNamesArePlain(name: string)
    requires name in TAGS
    ensures PlainName(name)
  {
  }

  lemma NestedElement(open: string, name: string, x: string)
    requires Nested(x) && name in TAGS && IsOpening(open, name)
    ensures Nested(Element(open, name, x))
  {
    TagNamesArePlain(name);
    ElementIsBalanced(open, name, x, TAGS);
  }

  lemma PlainNameOpens(name: string)
    requires PlainName(name)
    ensures IsOpening(name, name)
  {
    NameAlone(name);
    assert name[0] in name && name[|name| - 1] in name;
  }

  lemma NestedTag(name: string, x: string)
    requires Nested(x) && name in TAGS
    ensures Nested(Tag(name, x))
  {
    TagNamesArePlain(name);
    PlainNameOpens(name);
    NestedElement(name, name, x);
  }

  lemma PlainNameWithAttributes(name: string, attributes: string)
    requires PlainName(name) && '>' !in attributes && attributes != "" && attributes[|attributes| - 1] == '"'
    ensures IsOpening(name + " " + attributes, name)
  {
    NameBeforeSpace(name, attributes);
    var open := name + " " + attributes;
    assert open[|open| - 1] == attributes[|attributes| - 1];
    assert open[0] == name[0] && name[0] in name;
  }

  /** An opening tag with attributes. */
  lemma AttributesOpen(name: string, attributes: string)
    requires name in TAGS && '>' !in attributes && attributes != "" && attributes[|attributes| - 1] == '"'
    ensures IsOpening(name + " " + attributes, name)
  {
    TagNamesArePlain(name);
    PlainNameWithAttributes(name, attributes);
  }

  lemma NestedLink(url: string, x: string)
    requires Nested(x) && '>' !in url
    ensures Nested(Link(url, x))
  {
    var attributes := "href=\"" + url + "\"";
    AttributesOpen("a", attributes);
    assert "a href=\"" + url + "\"" == "a" + " " + attributes;
    NestedElement("a href=\"" + url + "\"", "a", x);
  }

  lemma NestedText(s: string)
    requires '<' !in s
    ensures Nested(s)
  {
    TextIsBalanced(s, TAGS);
  }

  lemma TextBeforeScan(prefix: string, raw: string, stack: seq<string>)
    requires '<' !in prefix
    ensures Scan(prefix + raw, stack, TAGS) == Scan(raw, stack, TAGS)
  {
    ScanText(prefix, stack, TAGS);
    ScanConcat(prefix, raw, stack, TAGS);
  }

  lemma PrefixNests(prefix: string, raw: string)
    requires '<' !in prefix
    ensures Nested(prefix + raw) <==> Nested(raw)
  {
    forall stack ensures Scan(prefix + raw, stack, TAGS) == Scan(raw, stack, TAGS) {
      TextBeforeScan(prefix, raw, stack);
    }
  }

  lemma NestedEscaped(text: string)
    ensures Nested(EscapeHtml(text))
  {
    EscapedHasNoMarkup(text);
    NestedText(EscapeHtml(text));
  }

  lemma PlainVoid(name: string, rest: string)
    requires PlainName(name) && (rest != "" ==> rest[0] == ' ')
    ensures TagName(name + rest) == name && (name + rest)[0] != '/'
  {
    assert (name + rest)[0] == name[0] && name[0] in name;
    if rest == "" {
      NameAlone(name);
      assert name + rest == name;
    } else {
      NameBeforeSpace(name, rest[1..]);
      assert name + rest == name + " " + rest[1..];
    }
  }

  lemma NestedVoid(name: string, rest: string)
    requires name in TAGS && '>' !in rest && (rest != "" ==> rest[0] == ' ')
    ensures Nested(Void(name + rest))
  {
    TagNamesArePlain(name);
    PlainVoid(name, rest);
    VoidIsBalanced(name + rest, TAGS);
  }

  lemma {:induction false} DigitsAreDigits(n: nat)
    ensures forall c :: c in Digits(n) ==> '0' <= c <= '9'
  {
    if n >= 10 { DigitsAreDigits(n / 10); }
  }

  lemma NumbersAreClean(n: int)
    ensures forall c :: c in IntToString(n) ==> c == '-' || '0' <= c <= '9'
  {
    DigitsAreDigits(if n < 0 then -n else n);
  }

  lemma {:induction false} NestedMapConcat(f: Value -> string, items: seq<Value>)
    requires forall v :: v in items ==> Nested(f(v))
    ensures Nested(MapConcat(f, items))
    decreases |items|
  {
    if items == [] {
      NestedText("");
    } else {
      NestedMapConcat(f, items[..|items| - 1]);
      ConcatIsBalanced(MapConcat(f, items[..|items| - 1]), f(items[|items| - 1]), TAGS);
    }
  }

  lemma {:induction false} CollectedFrom(f: Value -> Option<string>, items: seq<Value>, part: string)
    requires part in Collect(f, items)
    ensures exists v :: v in items && f(v) == Some(part)
    decreases |items|
  {
    var n := |items| - 1;
    if part in Collect(f, items[..n]) {
      CollectedFrom(f, items[..n], part);
    } else {
      assert f(items[n]) == Some(part);
    }
  }

  ghost predicate NestedIfAny(r: Option<string>) {
    r.Some? ==> Nested(r.value)
  }

  lemma NestedCollect(f: Value -> Option<string>, items: seq<Value>, sep: string)
    requires '<' !in sep && forall v :: v in items ==> NestedIfAny(f(v))
    ensures NestedIfAny(Joined(Collect(f, items), sep))
    ensures Nested(Join(Collect(f, items), sep))
    ensures forall part :: part in Collect(f, items) ==> Nested(part)
  {
    forall part | part in Collect(f, items) ensures Nested(part) {
      CollectedFrom(f, items, part);
    }
    NestedText(sep);
    JoinIsBalanced(Collect(f, items), sep, TAGS);
  }

  // ------------------------------------------------------------------ rich text

  lemma NestedStyled(style: Value, flag: string, name: string, x: string)
    requires Nested(x) && name in TAGS
    ensures Nested(Styled(style, flag, name, x))
  {
    NestedTag(name, x);
  }

  lemma NestedStyles(elem: Value, text: string)
    requires Nested(text)
    ensures Nested(ApplyTextStyles(elem, text))
  {
    var style := Get(elem, "style");
    if style.Some? {
      var a := Styled(style.value, "code", "code", text);
      NestedStyled(style.value, "code", "code", text);
      var b := Styled(style.value, "bold", "strong", a);
      NestedStyled(style.value, "bold", "strong", a);
      NestedStyled(style.value, "italic", "em", b);
      NestedStyled(style.value, "strike", "del", Styled(style.value, "italic", "em", b));
    }
  }

  lemma NestedFont(color: string, x: string)
    requires '>' !in color && Nested(x)
    ensures Nested(Element("font color=\"" + color + "\"", "font", x))
  {
    AttributesOpen("font", "color=\"" + color + "\"");
    assert "font color=\"" + color + "\"" == "font" + " " + ("color=\"" + color + "\"");
    NestedElement("font color=\"" + color + "\"", "font", x);
  }

  lemma NestedColor(value: string)
    requires '>' !in value && Nested(value)
    ensures Nested(Element("font color=\"" + value + "\"", "font", "\U{25A0}") + " " + value)
  {
    var font := Element("font color=\"" + value + "\"", "font", "\U{25A0}");
    NestedText("\U{25A0}");
    NestedFont(value, "\U{25A0}");
    NestedText(" ");
    ConcatIsBalanced(font, " ", TAGS);
    ConcatIsBalanced(font + " ", value, TAGS);
  }

  lemma NestedTime(n: int)
    ensures var t := IntToString(n); Nested(Element("time datetime=\"" + t + "\"", "time", t))
  {
    var t := IntToString(n);
    NumbersAreClean(n);
    AttributesOpen("time", "datetime=\"" + t + "\"");
    assert "time datetime=\"" + t + "\"" == "time" + " " + ("datetime=\"" + t + "\"");
    NestedText(t);
    NestedElement("time datetime=\"" + t + "\"", "time", t);
  }

  lemma NestedBroadcast(range: string)
    requires Nested(range)
    ensures Nested(Element("font color=\"#FF0000\"", "font", "@" + range))
  {
    PrefixNests("@", range);
    NestedFont("#FF0000", "@" + range);
    assert "font color=\"" + "#FF0000" + "\"" == "font color=\"#FF0000\"";
  }

  lemma NestedLinkElement(elem: Value)
    ensures var url := StrOr(elem, "url", "");
            Nested(Link(EscapeHtml(url), ApplyTextStyles(elem, EscapeHtml(StrOr(elem, "text", url)))))
  {
    var url := StrOr(elem, "url", "");
    var shown := StrOr(elem, "text", url);
    NestedEscaped(shown);
    NestedStyles(elem, EscapeHtml(shown));
    EscapedHasNoMarkup(url);
    NestedLink(EscapeHtml(url), ApplyTextStyles(elem, EscapeHtml(shown)));
  }

  lemma ElementIsNested(elem: Value)
    requires CopyNests(elem)
    ensures Nested(RenderElement(elem))
  {
    hide Nested, EscapeHtml, ApplyTextStyles, Get, AsStr, Emoji;
    var kind := StrOr(elem, "type", "");
    if kind == "text" {
      NestedEscaped(StrOr(elem, "text", ""));
      NestedStyles(elem, EscapeHtml(StrOr(elem, "text", "")));
    } else if kind == "user" {
      var id := StrOr(elem, "user_id", "");
      PrefixNests("@", id);
      NestedLink("https://matrix.to/#/@_slack_" + id + ":", "@" + id);
    } else if kind == "channel" {
      NestedText("#channel");
      NestedLink("https://matrix.to/#/#_slack_" + StrOr(elem, "channel_id", "") + ":", "#channel");
    } else if kind == "link" {
      NestedLinkElement(elem);
    } else if kind == "broadcast" {
      NestedBroadcast(StrOr(elem, "range", "everyone"));
    } else if kind == "color" {
      NestedColor(StrOr(elem, "value", "#000000"));
    } else if kind == "date" {
      NestedTime(I64Or0(elem, "timestamp"));
      NestedEscaped(StrOr(elem, "fallback", ""));
    } else if kind == "usergroup" {
      PrefixNests("@group_", StrOr(elem, "usergroup_id", ""));
    } else if kind != "emoji" {
      NestedText("");
    }
  }

  lemma ElementsAreNested(items: seq<Value>)
    requires forall v :: v in items ==> CopyNests(v)
    ensures Nested(MapConcat(RenderElement, items))
  {
    forall v | v in items ensures Nested(RenderElement(v)) { ElementIsNested(v); }
    NestedMapConcat(RenderElement, items);
  }

  lemma SectionIsNested(element: Value)
    requires CopiesNestInSection(element)
    ensures NestedIfAny(RenderSection(element))
  {
    var items := GetArray(element, "elements");
    if items.Some? { ElementsAreNested(items.value); }
  }

  lemma PreformattedIsNested(element: Value)
    ensures NestedIfAny(RenderPreformatted(element))
  {
    var items := GetArray(element, "elements");
    if items.Some? {
      forall v | v in items.value ensures Nested(CodeText(v)) {
        if GetStr(v, "text").Some? { NestedEscaped(GetStr(v, "text").value); }
        NestedText("");
      }
      NestedMapConcat(CodeText, items.value);
      NestedTag("code", MapConcat(CodeText, items.value));
      NestedTag("pre", Tag("code", MapConcat(CodeText, items.value)));
    }
  }

  lemma QuoteIsNested(element: Value)
    requires CopiesNestInSection(element)
    ensures NestedIfAny(RenderQuote(element))
  {
    var items := GetArray(element, "elements");
    if items.Some? {
      ElementsAreNested(items.value);
      NestedTag("blockquote", MapConcat(RenderElement, items.value));
    }
  }

  lemma {:induction false} ItemsAreNested(sections: seq<Option<string>>)
    requires forall s :: s in sections ==> NestedIfAny(s)
    ensures Nested(ListItems(sections))
    decreases |sections|
  {
    if sections == [] {
      NestedText("");
    } else {
      var n := |sections| - 1;
      ItemsAreNested(sections[..n]);
      assert NestedIfAny(sections[n]);
      NestedText("");
      if sections[n].Some? { NestedTag("li", sections[n].value); }
      ConcatIsBalanced(ListItems(sections[..n]), if sections[n].Some? then Tag("li", sections[n].value) else "", TAGS);
    }
  }

  lemma StartOpens(n: nat)
    ensures IsOpening("ol start=\"" + IntToString(n) + "\"", "ol")
  {
    NumbersAreClean(n);
    var attributes := "start=\"" + IntToString(n) + "\"";
    AttributesOpen("ol", attributes);
    assert "ol start=\"" + IntToString(n) + "\"" == "ol" + " " + attributes;
  }

  lemma ListOpens(element: Value)
    ensures IsOpening(ListOpen(element), ListTag(element)) && ListTag(element) in TAGS
  {
    hide IsOpening, IntToString, Get;
    TagNamesArePlain(ListTag(element));
    PlainNameOpens(ListTag(element));
    StartOpens((U64Or0(element, "offset") + 1) % 0x1_0000_0000_0000_0000);
  }

  lemma ListIsNested(element: Value)
    requires AllIn(CopiesNestInSection, GetArray(element, "elements"))
    ensures NestedIfAny(RenderList(element))
  {
    var items := GetArray(element, "elements");
    if items.Some? {
      var sections := MapSeq(RenderSection, items.value);
      forall s | s in sections ensures NestedIfAny(s) {
        var i :| 0 <= i < |sections| && sections[i] == s;
        SectionIsNested(items.value[i]);
      }
      ItemsAreNested(sections);
      ListOpens(element);
      NestedElement(ListOpen(element), ListTag(element), ListItems(sections));
    }
  }

  lemma PartIsNested(element: Value)
    requires CopiesNestInPart(element)
    ensures NestedIfAny(RenderRichTextPart(element))
  {
    var kind := StrOr(element, "type", "");
    if kind == "rich_text_section" { SectionIsNested(element); }
    else if kind == "rich_text_preformatted" { PreformattedIsNested(element); }
    else if kind == "rich_text_quote" { QuoteIsNested(element); }
    else if kind == "rich_text_list" { ListIsNested(element); }
  }

  lemma RichTextIsNested(block: Value)
    requires AllIn(CopiesNestInPart, GetArray(block, "elements"))
    ensures NestedIfAny(RenderRichText(block))
  {
    var items := GetArray(block, "elements");
    if items.Some? {
      forall v | v in items.value ensures NestedIfAny(RenderRichTextPart(v)) { PartIsNested(v); }
      NestedCollect(RenderRichTextPart, items.value, "");
    }
  }

  // ------------------------------------------------------------------ other blocks

  lemma {:induction false} RowsAreNested(cells: seq<string>)
    requires forall c :: c in cells ==> Nested(c)
    ensures Nested(Rows(cells))
    decreases |cells|
  {
    var n := |cells|;
    if n == 0 {
      NestedText("");
    } else if n % 2 == 1 {
      RowsAreNested(cells[..n - 1]);
      NestedTag("tr", cells[n - 1]);
      ConcatIsBalanced(Rows(cells[..n - 1]), Tag("tr", cells[n - 1]), TAGS);
    } else {
      assert Nested(cells[n - 2]) && Nested(cells[n - 1]);
      RowsAreNested(cells[..n - 2]);
      ConcatIsBalanced(cells[n - 2], cells[n - 1], TAGS);
      NestedTag("tr", cells[n - 2] + cells[n - 1]);
      ConcatIsBalanced(Rows(cells[..n - 2]), Tag("tr", cells[n - 2] + cells[n - 1]), TAGS);
    }
  }

  lemma TableIsNested(fields: seq<Value>)
    ensures Nested(Tag("table", Rows(MapSeq(Cell, fields))))
  {
    var cells := MapSeq(Cell, fields);
    forall c | c in cells ensures Nested(c) {
      var i :| 0 <= i < |cells| && cells[i] == c;
      NestedEscaped(StrOr(fields[i], "text", ""));
      NestedTag("td", EscapeHtml(StrOr(fields[i], "text", "")));
    }
    RowsAreNested(cells);
    NestedTag("table", Rows(cells));
  }

  lemma SectionBlockIsNested(block: Value)
    ensures NestedIfAny(RenderSectionBlock(block))
  {
    var text, fields := Get(block, "text"), GetArray(block, "fields");
    if text.Some? { NestedEscaped(StrOr(text.value, "text", "")); }
    if fields.Some? { TableIsNested(fields.value); }
    NestedText("\n");
    JoinIsBalanced(SectionText(block) + SectionTable(block), "\n", TAGS);
  }

  lemma NestedImage(url: string, alt: string, rest: string)
    requires '>' !in url && '>' !in alt && '>' !in rest
    ensures Nested(Void("img src=\"" + url + "\" alt=\"" + alt + rest))
  {
    var attributes := " src=\"" + url + "\" alt=\"" + alt + rest;
    NestedVoid("img", attributes);
    assert "img" + attributes == "img src=\"" + url + "\" alt=\"" + alt + rest;
  }

  lemma ContextPartIsNested(elem: Value)
    ensures NestedIfAny(ContextPart(elem))
  {
    var text, url, alt := StrOr(elem, "text", ""), StrOr(elem, "image_url", ""), StrOr(elem, "alt_text", "");
    NestedEscaped(text);
    NestedTag("em", EscapeHtml(text));
    EscapedHasNoMarkup(url);
    EscapedHasNoMarkup(alt);
    NestedImage(EscapeHtml(url), EscapeHtml(alt), "\" height=\"16\" width=\"16\" ");
  }

  lemma ContextIsNested(block: Value)
    ensures NestedIfAny(RenderContextBlock(block))
  {
    var items := GetArray(block, "elements");
    if items.Some? {
      forall v | v in items.value ensures NestedIfAny(ContextPart(v)) { ContextPartIsNested(v); }
      NestedCollect(ContextPart, items.value, " | ");
      NestedTag("p", Join(Collect(ContextPart, items.value), " | "));
    }
  }

  lemma ImageIsNested(block: Value)
    ensures NestedIfAny(RenderImageBlock(block))
  {
    var url, alt := StrOr(block, "image_url", ""), StrOr(block, "alt_text", "image");
    EscapedHasNoMarkup(url);
    EscapedHasNoMarkup(alt);
    NestedImage(EscapeHtml(url), EscapeHtml(alt), "\" ");
    var image := Void("img src=\"" + EscapeHtml(url) + "\" alt=\"" + EscapeHtml(alt) + "\" ");
    var title := if Get(block, "title").Some? then StrOr(Get(block, "title").value, "text", "") else "";
    NestedEscaped(title);
    NestedTag("figcaption", EscapeHtml(title));
    ConcatIsBalanced(image, Tag("figcaption", EscapeHtml(title)), TAGS);
    NestedTag("figure", image + Tag("figcaption", EscapeHtml(title)));
  }

  lemma HeaderIsNested(block: Value)
    ensures NestedIfAny(RenderHeader(block))
  {
    var text := if Get(block, "text").Some? then StrOr(Get(block, "text").value, "text", "") else "";
    NestedEscaped(text);
    NestedTag("h3", EscapeHtml(text));
  }

  lemma BlockIsNested(block: Value)
    requires CopiesNestInBlock(block)
    ensures NestedIfAny(RenderBlock(block))
  {
    var kind := StrOr(block, "type", "");
    if kind == "rich_text" { RichTextIsNested(block); }
    else if kind == "header" { HeaderIsNested(block); }
    else if kind == "divider" { NestedVoid("hr", ""); assert "hr" + "" == "hr"; }
    else if kind == "section" { SectionBlockIsNested(block); }
    else if kind == "context" { ContextIsNested(block); }
    else if kind == "image" { ImageIsNested(block); }
  }

  // ------------------------------------------------------------------ attachments

  lemma TitledIsNested(attachment: Value, key: string, linkKey: string)
    ensures forall p :: p in Titled(attachment, key, linkKey) ==> Nested(p)
  {
    var text, link := StrOr(attachment, key, ""), StrOr(attachment, linkKey, "");
    NestedEscaped(text);
    NestedTag("strong", EscapeHtml(text));
    EscapedHasNoMarkup(link);
    NestedLink(EscapeHtml(link), EscapeHtml(text));
    NestedTag("strong", Link(EscapeHtml(link), EscapeHtml(text)));
  }

  lemma FieldIsNested(field: Value)
    ensures NestedIfAny(AttachmentField(field))
  {
    var title, value := StrOr(field, "title", ""), StrOr(field, "value", "");
    NestedEscaped(title);
    NestedTag("strong", EscapeHtml(title));
    NestedText(": ");
    NestedEscaped(value);
    ConcatIsBalanced(Tag("strong", EscapeHtml(title)), ": ", TAGS);
    ConcatIsBalanced(Tag("strong", EscapeHtml(title)) + ": ", EscapeHtml(value), TAGS);
  }

  lemma FieldsAreNested(attachment: Value)
    ensures forall p :: p in AttachmentFields(attachment) ==> Nested(p)
  {
    var fields := GetArray(attachment, "fields");
    if fields.Some? {
      forall v | v in fields.value ensures NestedIfAny(AttachmentField(v)) { FieldIsNested(v); }
      NestedCollect(AttachmentField, fields.value, "");
    }
  }

  lemma OptionalTextIsNested(text: Option<string>)
    ensures forall p :: p in EscapedIfAny(text) ==> Nested(p)
  {
    if text.Some? { NestedEscaped(text.value); }
  }

  lemma AttachmentImageIsNested(attachment: Value)
    ensures forall p :: p in AttachmentImage(attachment) ==> Nested(p)
  {
    hide EscapeHtml, Nested, Void;
    var url := StrOr(attachment, "image_url", "");
    AttachmentPicture(url);
  }

  lemma AttachmentPicture(url: string)
    ensures Nested(Void("img src=\"" + EscapeHtml(url) + "\" alt=\"attachment\" "))
  {
    EscapedHasNoMarkup(url);
    NestedImage(EscapeHtml(url), "attachment", "\" ");
    assert "img src=\"" + EscapeHtml(url) + "\" alt=\"" + "attachment" + "\" "
        == "img src=\"" + EscapeHtml(url) + "\" alt=\"attachment\" ";
  }

  lemma PartsAreNested(attachment: Value)
    ensures forall p :: p in AttachmentParts(attachment) ==> Nested(p)
  {
    TitledIsNested(attachment, "author_name", "author_link");
    TitledIsNested(attachment, "title", "title_link");
    OptionalTextIsNested(GetStr(attachment, "pretext"));
    OptionalTextIsNested(AttachmentText(attachment));
    FieldsAreNested(attachment);
    AttachmentImageIsNested(attachment);
    NestedEscaped(StrOr(attachment, "footer", ""));
    NestedTag("em", EscapeHtml(StrOr(attachment, "footer", "")));
  }

  lemma AttachmentIsNested(attachment: Value)
    ensures NestedIfAny(RenderAttachment(attachment))
  {
    PartsAreNested(attachment);
    NestedVoid("br", "");
    assert "br" + "" == "br";
    JoinIsBalanced(AttachmentParts(attachment), Void("br"), TAGS);
    NestedTag("blockquote", Join(AttachmentParts(attachment), Void("br")));
  }

  // ------------------------------------------------------------------ the whole body

  /**
   For every list of blocks and attachments whose copied parts are harmless, the formatted body closes all its
   tags in nesting order and contains no element but the renderers' own.
   */
  lemma FormattedBodyIsNested(blocks: seq<Value>, attachments: seq<Value>)
    requires forall b :: b in blocks ==> CopiesNestInBlock(b)
    ensures NestedIfAny(RenderBlocks(blocks))
    ensures NestedIfAny(RenderAttachments(attachments))
    ensures NestedIfAny(FormattedBody(blocks, attachments))
  {
    forall b | b in blocks ensures NestedIfAny(RenderBlock(b)) { BlockIsNested(b); }
    NestedCollect(RenderBlock, blocks, "\n");
    forall a | a in attachments ensures NestedIfAny(RenderAttachment(a)) { AttachmentIsNested(a); }
    NestedCollect(RenderAttachment, attachments, "\n");
    var b, a := RenderBlocks(blocks), RenderAttachments(attachments);
    if b.Some? && a.Some? {
      NestedText("\n");
      ConcatIsBalanced(b.value, "\n", TAGS);
      ConcatIsBalanced(b.value + "\n", a.value, TAGS);
    }
  }

  // ------------------------------------------------------------------ what the condition on copied text is for

  /** A user group's id is inserted as it is: the output is well nested exactly when the id is. */
  lemma UserGroupNestsExactly(elem: Value)
    requires StrOr(elem, "type", "") == "usergroup"
    ensures Nested(RenderElement(elem)) <==> Nested(StrOr(elem, "usergroup_id", ""))
  {
    PrefixNests("@group_", StrOr(elem, "usergroup_id", ""));
  }

  /** So is an emoji: without a code point to show, the output is well nested exactly when its name is. */
  lemma EmojiNestsExactly(elem: Value)
    requires StrOr(elem, "type", "") == "emoji" && GetStr(elem, "unicode").None?
    ensures Nested(RenderElement(elem)) <==> Nested(StrOr(elem, "name", "") + ":")
  {
    PrefixNests(":", StrOr(elem, "name", "") + ":");
    assert ":" + (StrOr(elem, "name", "") + ":") == Emoji(elem);
  }

  /** Whatever else it contains, a text without angle brackets may be copied. */
  lemma TextMayBeCopied(elem: Value)
    requires '<' !in Copied(elem) && '>' !in Copied(elem)
    ensures CopyNests(elem)
  {
    NestedText(Copied(elem));
  }

  /** So a user group whose id is a lone `<` breaks the nesting. */
  lemma LoneAngleIsNotNested(elem: Value)
    requires StrOr(elem, "type", "") == "usergroup" && StrOr(elem, "usergroup_id", "") == "<"
    ensures !Nested(RenderElement(elem))
  {
    UserGroupNestsExactly(elem);
    assert Scan("<", [], TAGS) == None;
  }
}
