/** Which HTML elements the renderers put around which text. */
module BlocksTagsModel {
  import opened Prelude
  import opened JsonModel
  import opened HtmlModel
  import opened NestingModel
  import opened BlocksModel
  import opened BlocksNestingModel

  /** Nothing but tags, which open these elements, the first one outermost. */
  ghost predicate OpensOnly(open: string, names: seq<string>) {
    && TagsClosed(open) && StripTags(open) == ""
    && forall stack :: Scan(open, stack, TAGS) == Some(stack + names)
  }

  /** Nothing but tags, which close them again. */
  ghost predicate ClosesOnly(close: string, names: seq<string>) {
    && TagsClosed(close) && StripTags(close) == ""
    && forall stack :: Scan(close, stack + names, TAGS) == Some(stack)
  }

  /** The HTML is the text inside exactly these elements, the first one outermost. */
  ghost predicate Wraps(html: string, names: seq<string>, text: string) {
    exists open, close :: OpensOnly(open, names) && ClosesOnly(close, names) && html == open + text + close
  }

  lemma NoTags()
    ensures OpensOnly("", []) && ClosesOnly("", [])
  {
    forall stack: seq<string> ensures stack + [] == stack {}
  }

  lemma Unwrapped(text: string)
    ensures Wraps(text, [], text)
  {
    NoTags();
    assert "" + text + "" == text;
  }

  lemma OneOpens(open: string, name: string)
    requires IsOpening(open, name) && name in TAGS
    ensures OpensOnly(Open(open), [name]) && ClosesOnly(Close(name), [name])
  {
    hide Scan, StripTags, TagsClosed;
    TagNamesArePlain(name);
    StripTag(open);
    var closing := "/" + name;
    StripTag(closing);
    assert "<" + closing + ">" == Close(name);
    forall stack ensures Scan(Open(open), stack, TAGS) == Some(stack + [name]) {
      ScanOpening(open, name, stack, TAGS);
    }
    forall stack ensures Scan(Close(name), stack + [name], TAGS) == Some(stack) {
      ScanClosing(name, stack, TAGS);
    }
  }

  lemma OpenTwice(a: string, outer: seq<string>, b: string, inner: seq<string>)
    requires OpensOnly(a, outer) && OpensOnly(b, inner)
    ensures OpensOnly(a + b, outer + inner)
  {
    hide Scan, StripTags, TagsClosed;
    StripConcat(a, b);
    forall stack ensures Scan(a + b, stack, TAGS) == Some(stack + (outer + inner)) {
      ScanConcat(a, b, stack, TAGS);
      assert stack + outer + inner == stack + (outer + inner);
    }
  }

  lemma CloseTwice(b: string, inner: seq<string>, a: string, outer: seq<string>)
    requires ClosesOnly(b, inner) && ClosesOnly(a, outer)
    ensures ClosesOnly(b + a, outer + inner)
  {
    hide Scan, StripTags, TagsClosed;
    StripConcat(b, a);
    forall stack ensures Scan(b + a, stack + (outer + inner), TAGS) == Some(stack) {
      assert stack + (outer + inner) == stack + outer + inner;
      ScanConcat(b, a, stack + outer + inner, TAGS);
    }
  }

  /** An element around HTML that wraps a text wraps it once more. */
  lemma ElementWraps(open: string, name: string, html: string, names: seq<string>, text: string)
    requires IsOpening(open, name) && name in TAGS && Wraps(html, names, text)
    ensures Wraps(Element(open, name, html), [name] + names, text)
  {
    hide OpensOnly, ClosesOnly, IsOpening, Open, Close;
    var a, b :| OpensOnly(a, names) && ClosesOnly(b, names) && html == a + text + b;
    OneOpens(open, name);
    OpenTwice(Open(open), [name], a, names);
    CloseTwice(b, names, Close(name), [name]);
    assert Element(open, name, html) == (Open(open) + a) + text + (b + Close(name));
  }

  lemma TagWraps(name: string, html: string, names: seq<string>, text: string)
    requires name in TAGS && Wraps(html, names, text)
    ensures Wraps(Tag(name, html), [name] + names, text)
  {
    TagNamesArePlain(name);
    PlainNameOpens(name);
    ElementWraps(name, name, html, names, text);
  }

  lemma TagAround(name: string, text: string)
    requires name in TAGS
    ensures Wraps(Tag(name, text), [name], text)
  {
    Unwrapped(text);
    TagWraps(name, text, [], text);
    assert [name] + [] == [name];
  }

  // ------------------------------------------------------------------ rich text

  predicate HasStyle(elem: Value, flag: string) {
    Get(elem, "style").Some? && Get(Get(elem, "style").value, flag) == Some(Bool(true))
  }

  /** The elements the style asks for, outermost first. */
  function StyleTags(elem: Value): seq<string> {
    (if HasStyle(elem, "strike") then ["del"] else []) + (if HasStyle(elem, "italic") then ["em"] else [])
    + (if HasStyle(elem, "bold") then ["strong"] else []) + (if HasStyle(elem, "code") then ["code"] else [])
  }

  lemma StyledWraps(style: Value, flag: string, name: string, html: string, names: seq<string>, text: string)
    requires name in TAGS && Wraps(html, names, text)
    ensures Wraps(Styled(style, flag, name, html), TagIf(style, flag, name) + names, text)
  {
    hide Wraps, Tag;
    if Flag(style, flag) {
      TagWraps(name, html, names, text);
    } else {
      assert [] + names == names;
    }
  }

  /** Strike is `del`, italic `em`, bold `strong` and code `code`, in this order from outside, and no other element. */
  lemma StylesWrap(elem: Value, text: string)
    ensures Wraps(ApplyTextStyles(elem, text), StyleTags(elem), text)
  {
    hide Wraps, Styled;
    Unwrapped(text);
    if Get(elem, "style").None? {
      assert StyleTags(elem) == [];
    } else {
      var style := Get(elem, "style").value;
      FourStyles(style, text);
      assert StyleTags(elem) == TagIf(style, "strike", "del") + TagIf(style, "italic", "em")
                                + TagIf(style, "bold", "strong") + TagIf(style, "code", "code");
    }
  }

  function TagIf(style: Value, flag: string, name: string): seq<string> {
    if Flag(style, flag) then [name] else []
  }

  lemma FourStyles(style: Value, text: string)
    ensures Wraps(Styled(style, "strike", "del", Styled(style, "italic", "em", Styled(style, "bold", "strong",
                    Styled(style, "code", "code", text)))),
                  TagIf(style, "strike", "del") + TagIf(style, "italic", "em") + TagIf(style, "bold", "strong")
                  + TagIf(style, "code", "code"), text)
  {
    hide Wraps, Styled, TagIf;
    var a := Styled(style, "code", "code", text);
    var b := Styled(style, "bold", "strong", a);
    var c := Styled(style, "italic", "em", b);
    var code, bold := TagIf(style, "code", "code"), TagIf(style, "bold", "strong");
    var italic, strike := TagIf(style, "italic", "em"), TagIf(style, "strike", "del");
    Unwrapped(text);
    StyledWraps(style, "code", "code", text, [], text);
    assert code + [] == code;
    StyledWraps(style, "bold", "strong", a, code, text);
    StyledWraps(style, "italic", "em", b, bold + code, text);
    StyledWraps(style, "strike", "del", c, italic + (bold + code), text);
    assert strike + (italic + (bold + code)) == strike + italic + bold + code;
  }

  /** A text element is its escaped text inside the elements of its style. */
  lemma TextIsWrapped(elem: Value)
    requires StrOr(elem, "type", "") == "text"
    ensures Wraps(RenderElement(elem), StyleTags(elem), EscapeHtml(StrOr(elem, "text", "")))
  {
    StylesWrap(elem, EscapeHtml(StrOr(elem, "text", "")));
  }

  lemma LinkText(url: string, x: string)
    ensures Link(url, x) == "<a href=\"" + url + "\">" + x + "</a>"
  {
    assert Open("a href=\"" + url + "\"") == "<a href=\"" + url + "\">";
  }

  /** A link is an anchor to its escaped address, around its label (or its address) in the elements of its style. */
  lemma LinkIsWrapped(elem: Value) returns (styled: string)
    requires StrOr(elem, "type", "") == "link"
    ensures RenderElement(elem) == "<a href=\"" + EscapeHtml(StrOr(elem, "url", "")) + "\">" + styled + "</a>"
    ensures Wraps(styled, StyleTags(elem), EscapeHtml(StrOr(elem, "text", StrOr(elem, "url", ""))))
  {
    hide Wraps, EscapeHtml, Link, ApplyTextStyles, StyleTags, GetStr;
    var url := StrOr(elem, "url", "");
    var shown := EscapeHtml(StrOr(elem, "text", url));
    styled := ApplyTextStyles(elem, shown);
    StylesWrap(elem, shown);
    LinkText(EscapeHtml(url), styled);
  }

  /** A user is a link to the user's ghost, a channel to the channel's alias. */
  lemma UserIsLinked(elem: Value)
    requires StrOr(elem, "type", "") == "user"
    ensures var id := StrOr(elem, "user_id", "");
            RenderElement(elem)
            == "<a href=\"" + ("https://matrix.to/#/@_slack_" + id + ":") + "\">" + ("@" + id) + "</a>"
  {
    hide GetStr, Link;
    var id := StrOr(elem, "user_id", "");
    LinkText("https://matrix.to/#/@_slack_" + id + ":", "@" + id);
  }

  lemma ChannelIsLinked(elem: Value)
    requires StrOr(elem, "type", "") == "channel"
    ensures var id := StrOr(elem, "channel_id", "");
            RenderElement(elem)
            == "<a href=\"" + ("https://matrix.to/#/#_slack_" + id + ":") + "\">" + "#channel" + "</a>"
  {
    hide GetStr, Link;
    var id := StrOr(elem, "channel_id", "");
    LinkText("https://matrix.to/#/#_slack_" + id + ":", "#channel");
  }

  /** A broadcast stands in a `font` element, a date without a fallback in a `time` element. */
  lemma BroadcastAndDateAreWrapped(elem: Value)
    ensures StrOr(elem, "type", "") == "broadcast" ==>
              Wraps(RenderElement(elem), ["font"], "@" + StrOr(elem, "range", "everyone"))
    ensures StrOr(elem, "type", "") == "date" && StrOr(elem, "fallback", "") == "" ==>
              Wraps(RenderElement(elem), ["time"], IntToString(I64Or0(elem, "timestamp")))
  {
    hide GetStr, Wraps, Element, IntToString, IsOpening;
    BroadcastWraps("@" + StrOr(elem, "range", "everyone"));
    TimeWraps(I64Or0(elem, "timestamp"));
  }

  /** A broadcast is red; a colour is a square in that colour and its value. */
  lemma ColoursAreShown(elem: Value)
    ensures StrOr(elem, "type", "") == "broadcast" ==>
              RenderElement(elem) == "<font color=\"#FF0000\">" + ("@" + StrOr(elem, "range", "everyone")) + "</font>"
    ensures StrOr(elem, "type", "") == "color" ==>
              var value := StrOr(elem, "value", "#000000");
              RenderElement(elem) == "<" + ("font color=\"" + value + "\"") + ">" + "\U{25A0}" + "</font>" + " " + value
  {
    hide GetStr;
    assert Open("font color=\"#FF0000\"") == "<font color=\"#FF0000\">" && Close("font") == "</font>";
  }

  lemma BroadcastWraps(text: string)
    ensures Wraps(Element("font color=\"#FF0000\"", "font", text), ["font"], text)
  {
    hide Wraps, Element, IsOpening;
    var attribute := "color=\"#FF0000\"";
    AttributesOpen("font", attribute);
    assert "font color=\"#FF0000\"" == "font" + " " + attribute;
    Unwrapped(text);
    ElementWraps("font color=\"#FF0000\"", "font", text, [], text);
    assert ["font"] + [] == ["font"];
  }

  lemma TimeWraps(n: int)
    ensures var t := IntToString(n); Wraps(Element("time datetime=\"" + t + "\"", "time", t), ["time"], t)
  {
    hide Wraps, Element, IsOpening, IntToString;
    var t := IntToString(n);
    NumbersAreClean(n);
    AttributesOpen("time", "datetime=\"" + t + "\"");
    assert "time datetime=\"" + t + "\"" == "time" + " " + ("datetime=\"" + t + "\"");
    Unwrapped(t);
    ElementWraps("time datetime=\"" + t + "\"", "time", t, [], t);
    assert ["time"] + [] == ["time"];
  }

  // ------------------------------------------------------------------ containers

  /** Sections, quotes and preformatted text: the concatenated elements, in a `blockquote`, or in `pre` and `code`. */
  lemma ContainersWrap(element: Value, items: seq<Value>)
    requires GetArray(element, "elements") == Some(items)
    ensures var kind, r := StrOr(element, "type", ""), RenderRichTextPart(element);
            var html, code := MapConcat(RenderElement, items), MapConcat(CodeText, items);
            && (kind == "rich_text_section" ==> r == if html == "" then None else Some(html))
            && (kind == "rich_text_quote" ==>
                  (r.Some? <==> html != "") && (r.Some? ==> Wraps(r.value, ["blockquote"], html)))
            && (kind == "rich_text_preformatted" ==>
                  (r.Some? <==> code != "") && (r.Some? ==> Wraps(r.value, ["pre", "code"], code)))
  {
    hide Wraps, Tag, MapConcat, GetStr;
    var html, code := MapConcat(RenderElement, items), MapConcat(CodeText, items);
    TagAround("blockquote", html);
    TagAround("code", code);
    TagWraps("pre", Tag("code", code), ["code"], code);
    assert ["pre"] + ["code"] == ["pre", "code"];
  }

  /** A list is `ol` if its style is `ordered`, and `ul` otherwise. */
  lemma ListIsWrapped(element: Value, items: seq<Value>)
    requires StrOr(element, "type", "") == "rich_text_list" && GetArray(element, "elements") == Some(items)
    ensures RenderRichTextPart(element).Some?
    ensures Wraps(RenderRichTextPart(element).value,
                  [if GetStr(element, "style") == Some("ordered") then "ol" else "ul"],
                  ListItems(MapSeq(RenderSection, items)))
  {
    hide Wraps, Element, ListOpen, IsOpening, GetStr;
    var content := ListItems(MapSeq(RenderSection, items));
    ListOpens(element);
    Unwrapped(content);
    ElementWraps(ListOpen(element), ListTag(element), content, [], content);
    assert [ListTag(element)] + [] == [ListTag(element)];
  }

  /** An ordered list that does not begin at the first number says where it begins. */
  lemma ListStartsAfterOffset(element: Value)
    ensures var ordered, offset := GetStr(element, "style") == Some("ordered"), Get(element, "offset");
            && (forall n :: ordered && offset == Some(Int(n)) && 0 < n < 0xFFFF_FFFF_FFFF_FFFF ==>
                  ListOpen(element) == "ol start=\"" + IntToString(n + 1) + "\"")
            && (ordered && (offset.None? || offset == Some(Int(0))) ==> ListOpen(element) == "ol")
            && (!ordered ==> ListOpen(element) == "ul")
  {
    hide IntToString;
  }

  /** Its items are the sections that render to something, each in an `li`, in order. */
  lemma {:induction false} ItemsOneByOne(a: seq<Option<string>>, b: seq<Option<string>>, text: string)
    ensures ListItems(a + b) == ListItems(a) + ListItems(b)
    ensures ListItems([None]) == "" && Wraps(ListItems([Some(text)]), ["li"], text)
    decreases |b|
  {
    hide Wraps, Tag;
    TagAround("li", text);
    assert "" + Tag("li", text) == Tag("li", text);
    if b == [] {
      assert a + b == a;
    } else {
      var n := |b| - 1;
      ItemsOneByOne(a, b[..n], text);
      assert (a + b)[..|a + b| - 1] == a + b[..n];
      assert ListItems(a) + ListItems(b) == ListItems(a) + ListItems(b[..n]) + ListItems(b)[|ListItems(b[..n])|..];
    }
  }

  // ------------------------------------------------------------------ in order

  /** The elements of a section come in order, each rendered by itself. */
  lemma {:induction false} ConcatOneByOne(f: Value -> string, a: seq<Value>, b: seq<Value>, v: Value)
    ensures MapConcat(f, a + b) == MapConcat(f, a) + MapConcat(f, b) && MapConcat(f, [v]) == f(v)
    decreases |b|
  {
    assert "" + f(v) == f(v);
    if b == [] {
      assert a + b == a;
    } else {
      ConcatOneByOne(f, a, b[..|b| - 1], v);
      assert (a + b)[..|a + b| - 1] == a + b[..|b| - 1];
      assert MapConcat(f, a) + (MapConcat(f, b[..|b| - 1]) + f(b[|b| - 1]))
          == MapConcat(f, a) + MapConcat(f, b[..|b| - 1]) + f(b[|b| - 1]);
    }
  }

  /** So do the parts of a block, the blocks and the attachments, without those that render to nothing. */
  lemma {:induction false} CollectOneByOne(f: Value -> Option<string>, a: seq<Value>, b: seq<Value>, v: Value)
    ensures Collect(f, a + b) == Collect(f, a) + Collect(f, b)
    ensures Collect(f, [v]) == if f(v).None? then [] else [f(v).value]
    decreases |b|
  {
    if b == [] {
      assert a + b == a;
    } else {
      var init, last := b[..|b| - 1], b[|b| - 1];
      CollectOneByOne(f, a, init, v);
      assert (a + b)[..|a + b| - 1] == a + init && (a + b)[|a + b| - 1] == last;
      var tail := if f(last).Some? then [f(last).value] else [];
      assert Collect(f, b) == Collect(f, init) + tail;
      assert Collect(f, a) + Collect(f, init) + tail == Collect(f, a) + (Collect(f, init) + tail);
    }
  }

  /** What is joined keeps its order, with the separator between any two parts and nowhere else. */
  lemma JoinOneByOne(parts: seq<string>, part: string, sep: string)
    ensures Join([part], sep) == part
    ensures parts != [] ==> Join(parts + [part], sep) == Join(parts, sep) + sep + part
  {
    assert (parts + [part])[..|parts|] == parts;
  }

  // ------------------------------------------------------------------ other blocks

  /** A rich text block is its parts one after the other, a divider a rule, and other kinds of block are left out. */
  lemma OtherBlocksAreRendered(block: Value)
    ensures var kind := StrOr(block, "type", "");
            && (kind == "divider" ==> RenderBlock(block) == Some("<hr/>"))
            && (kind == "rich_text" ==> forall items :: GetArray(block, "elements") == Some(items) ==>
                  var parts := Collect(RenderRichTextPart, items);
                  RenderBlock(block) == if parts == [] then None else Some(Join(parts, "")))
            && (kind !in ["divider", "rich_text", "header", "section", "context", "image"] ==> RenderBlock(block).None?)
  {
    hide GetStr, GetArray, RenderRichTextPart, Join, Collect;
    hide RenderHeader, RenderSectionBlock, RenderContextBlock, RenderImageBlock;
    assert Void("hr") == "<hr/>";
    var kinds := ["divider", "rich_text", "header", "section", "context", "image"];
    assert kinds[0] == "divider" && kinds[1] == "rich_text" && kinds[2] == "header" && kinds[3] == "section";
    assert kinds[4] == "context" && kinds[5] == "image";
  }

  /** In preformatted text only the text elements count, escaped and without styles. */
  lemma CodeIsPlainText(elem: Value)
    ensures CodeText(elem) == if StrOr(elem, "type", "") == "text" then EscapeHtml(StrOr(elem, "text", "")) else ""
  {
    EscapeOfNothing();
  }

  lemma EscapeOfNothing()
    ensures EscapeHtml("") == ""
  {
  }

  /** An image among the parts of a context block: a small picture, if it has an address. */
  lemma ContextImageIsSmall(elem: Value)
    requires StrOr(elem, "type", "") == "image"
    ensures var url := StrOr(elem, "image_url", "");
            ContextPart(elem)
            == if url == "" then None
               else Some("<" + ("img src=\"" + EscapeHtml(url) + "\" alt=\"" + EscapeHtml(StrOr(elem, "alt_text", ""))
                                + "\" height=\"16\" width=\"16\" ") + "/>")
  {
    hide GetStr, EscapeHtml;
  }

  /** A header is an `h3` around its escaped text. */
  lemma HeaderIsWrapped(block: Value, text: Value, s: string)
    requires StrOr(block, "type", "") == "header" && Get(block, "text") == Some(text)
    requires GetStr(text, "text") == Some(s)
    ensures RenderBlock(block).Some? && Wraps(RenderBlock(block).value, ["h3"], EscapeHtml(s))
  {
    hide Wraps, Tag;
    TagAround("h3", EscapeHtml(s));
  }

  lemma NoRows()
    ensures Rows([]) == ""
  {
  }

  lemma RowsPair(before: seq<string>, cells: seq<string>)
    requires |cells| % 2 == 0 && |cells| >= 2 && before == cells[..|cells| - 2]
    ensures Rows(cells) == Rows(before) + Tag("tr", cells[|cells| - 2] + cells[|cells| - 1])
  {
    hide Tag;
  }

  lemma RowsSingle(before: seq<string>, cells: seq<string>)
    requires |cells| % 2 == 1 && before == cells[..|cells| - 1]
    ensures Rows(cells) == Rows(before) + Tag("tr", cells[|cells| - 1])
  {
    hide Tag;
  }

  /** A cell is a `td`, and two cells, or an odd last one, stand in a `tr`; the rows come in order. */
  lemma RowsTwoByTwo(cells: seq<string>, x: string, y: string) returns (pair: string, single: string)
    requires |cells| % 2 == 0
    ensures Rows([]) == ""
    ensures Wraps(pair, ["tr"], x + y) && Rows(cells + [x, y]) == Rows(cells) + pair
    ensures Wraps(single, ["tr"], x) && Rows(cells + [x]) == Rows(cells) + single
  {
    hide Wraps, Tag, Rows;
    pair, single := Tag("tr", x + y), Tag("tr", x);
    TagAround("tr", x + y);
    TagAround("tr", x);
    NoRows();
    RowsPair(cells, cells + [x, y]);
    RowsSingle(cells, cells + [x]);
  }

  lemma CellIsWrapped(field: Value)
    ensures Wraps(Cell(field), ["td"], EscapeHtml(StrOr(field, "text", "")))
  {
    hide Wraps, Tag;
    TagAround("td", EscapeHtml(StrOr(field, "text", "")));
  }

  /** A section block: its escaped text, then on a new line the `table` of its fields. */
  lemma SectionBlockIsWrapped(block: Value, text: Value, s: string, fields: seq<Value>) returns (table: string)
    requires StrOr(block, "type", "") == "section" && Get(block, "text") == Some(text)
    requires StrOr(text, "text", "") == s && GetArray(block, "fields") == Some(fields)
    ensures Wraps(table, ["table"], Rows(MapSeq(Cell, fields)))
    ensures RenderBlock(block) == Some(if s == "" then table else EscapeHtml(s) + "\n" + table)
  {
    hide Wraps, Tag, EscapeHtml, Rows, GetStr;
    table := Tag("table", Rows(MapSeq(Cell, fields)));
    TagAround("table", Rows(MapSeq(Cell, fields)));
    JoinOneByOne([EscapeHtml(s)], table, "\n");
    JoinOneByOne([], EscapeHtml(s), "\n");
    JoinOneByOne([], table, "\n");
    assert [EscapeHtml(s)] + [table] == SectionText(block) + SectionTable(block) || s == "";
    assert [] + [table] == [table];
  }

  /** A context block: its parts, text in an `em`, joined inside a `p`. */
  lemma ContextIsWrapped(block: Value, items: seq<Value>)
    requires StrOr(block, "type", "") == "context" && GetArray(block, "elements") == Some(items)
    ensures var parts := Collect(ContextPart, items);
            && (RenderBlock(block).Some? <==> parts != [])
            && (parts != [] ==> Wraps(RenderBlock(block).value, ["p"], Join(parts, " | ")))
  {
    hide Wraps, Tag, ContextPart, GetStr;
    TagAround("p", Join(Collect(ContextPart, items), " | "));
  }

  lemma ContextTextIsWrapped(elem: Value)
    requires StrOr(elem, "type", "") == "mrkdwn" || StrOr(elem, "type", "") == "plain_text"
    ensures var text := StrOr(elem, "text", "");
            && (ContextPart(elem).Some? <==> text != "")
            && (text != "" ==> Wraps(ContextPart(elem).value, ["em"], EscapeHtml(text)))
  {
    hide Wraps, Tag, GetStr;
    TagAround("em", EscapeHtml(StrOr(elem, "text", "")));
  }

  /** An image block: the picture, inside a `figure` with its title if it has one. */
  lemma ImageIsWrapped(block: Value, url: string) returns (caption: string)
    requires StrOr(block, "type", "") == "image" && GetStr(block, "image_url") == Some(url)
    ensures var image := "<" + ("img src=\"" + EscapeHtml(url) + "\" alt=\""
                                + EscapeHtml(StrOr(block, "alt_text", "image")) + "\" ") + "/>";
            var title := if Get(block, "title").Some? then GetStr(Get(block, "title").value, "text") else None;
            && RenderBlock(block).Some?
            && (title.None? ==> RenderBlock(block).value == image)
            && (title.Some? ==>
                  && Wraps(RenderBlock(block).value, ["figure"], image + caption)
                  && Wraps(caption, ["figcaption"], EscapeHtml(title.value)))
  {
    hide Wraps, Tag, GetStr, EscapeHtml;
    var title := if Get(block, "title").Some? then GetStr(Get(block, "title").value, "text") else None;
    var alt := EscapeHtml(StrOr(block, "alt_text", "image"));
    var image := Void("img src=\"" + EscapeHtml(url) + "\" alt=\"" + alt + "\" ");
    caption := "";
    if title.Some? {
      caption := Tag("figcaption", EscapeHtml(title.value));
      TagAround("figcaption", EscapeHtml(title.value));
      TagAround("figure", image + caption);
    }
  }

  /** Blocks come before attachments. */
  lemma BlocksComeFirst(blocks: seq<Value>, attachments: seq<Value>)
    ensures var b, a := Collect(RenderBlock, blocks), Collect(RenderAttachment, attachments);
            var r := FormattedBody(blocks, attachments);
            && (r.None? <==> b == [] && a == [])
            && (b != [] && a != [] ==> r.value == Join(b, "\n") + "\n" + Join(a, "\n"))
            && (b != [] && a == [] ==> r.value == Join(b, "\n"))
            && (b == [] && a != [] ==> r.value == Join(a, "\n"))
  {
    hide RenderBlock, RenderAttachment, Join, Collect;
  }

  // ------------------------------------------------------------------ attachments

  /** A name with a link is an anchor in a `strong`, one without it just a `strong`. */
  lemma TitledIsWrapped(attachment: Value, key: string, linkKey: string, text: string)
    requires GetStr(attachment, key) == Some(text)
    ensures var parts, link := Titled(attachment, key, linkKey), GetStr(attachment, linkKey);
            && |parts| == 1
            && Wraps(parts[0], ["strong"],
                     if link.None? then EscapeHtml(text)
                     else "<a href=\"" + EscapeHtml(link.value) + "\">" + EscapeHtml(text) + "</a>")
  {
    hide Wraps, Tag, GetStr, EscapeHtml, Link;
    var link := GetStr(attachment, linkKey);
    TagAround("strong", EscapeHtml(text));
    if link.Some? {
      LinkText(EscapeHtml(link.value), EscapeHtml(text));
      TagAround("strong", Link(EscapeHtml(link.value), EscapeHtml(text)));
    }
  }

  /** A field is its title in a `strong`, a colon and its value. */
  lemma FieldIsWrapped(field: Value) returns (title: string)
    ensures Wraps(title, ["strong"], EscapeHtml(StrOr(field, "title", "")))
    ensures AttachmentField(field) == if StrOr(field, "title", "") == "" && StrOr(field, "value", "") == "" then None
                                      else Some(title + ": " + EscapeHtml(StrOr(field, "value", "")))
  {
    hide Wraps, Tag, GetStr, EscapeHtml;
    title := Tag("strong", EscapeHtml(StrOr(field, "title", "")));
    TagAround("strong", EscapeHtml(StrOr(field, "title", "")));
  }

  /** An attachment: its parts in order, on lines of their own inside a `blockquote`; previews are left out. */
  lemma AttachmentIsWrapped(attachment: Value)
    ensures var parts := AttachmentParts(attachment);
            && (RenderAttachment(attachment).Some? <==>
                  parts != [] && Get(attachment, "is_msg_unfurl") != Some(Bool(true)))
            && (RenderAttachment(attachment).Some? ==>
                  Wraps(RenderAttachment(attachment).value, ["blockquote"], Join(parts, "<br/>")))
  {
    hide Wraps, Tag, AttachmentParts, Join;
    assert Void("br") == "<br/>";
    TagAround("blockquote", Join(AttachmentParts(attachment), "<br/>"));
  }

  /** Author, title, pretext, text (or else the fallback), fields, picture and footer, in this order. */
  lemma PartsAreInOrder(attachment: Value)
    ensures var text := if GetStr(attachment, "text").Some? then GetStr(attachment, "text")
                        else GetStr(attachment, "fallback");
            AttachmentParts(attachment)
            == Titled(attachment, "author_name", "author_link") + Titled(attachment, "title", "title_link")
               + EscapedIfAny(GetStr(attachment, "pretext")) + EscapedIfAny(text)
               + AttachmentFields(attachment) + AttachmentImage(attachment) + AttachmentFooter(attachment)
    ensures forall s :: EscapedIfAny(Some(s)) == if s == "" then [] else [EscapeHtml(s)]
    ensures EscapedIfAny(None) == []
    ensures forall fields :: GetArray(attachment, "fields") == Some(fields) ==>
              AttachmentFields(attachment) == Collect(AttachmentField, fields)
    ensures GetArray(attachment, "fields").None? ==> AttachmentFields(attachment) == []
    ensures forall url :: GetStr(attachment, "image_url") == Some(url) ==>
              AttachmentImage(attachment) == ["<" + ("img src=\"" + EscapeHtml(url) + "\" alt=\"attachment\" ") + "/>"]
    ensures GetStr(attachment, "image_url").None? ==> AttachmentImage(attachment) == []
    ensures var footer := StrOr(attachment, "footer", "");
            (footer == "" ==> AttachmentFooter(attachment) == [])
            && (footer != "" ==> |AttachmentFooter(attachment)| == 1
                                 && Wraps(AttachmentFooter(attachment)[0], ["em"], EscapeHtml(footer)))
  {
    hide Wraps, Tag, GetStr, GetArray, EscapeHtml, Titled, Collect;
    TagAround("em", EscapeHtml(StrOr(attachment, "footer", "")));
  }
}
