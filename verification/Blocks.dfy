/**
 src/parsers/blocks.rs: Slack blocks and attachments rendered as HTML, and as plain text.  Each renderer is given as
 a function; the methods are the loops of the source and compute the same strings.
 */
module BlocksModel {
  import opened Prelude
  import opened JsonModel
  import opened HtmlModel

  function Open(inner: string): string {
    "<" + inner + ">"
  }

  function Close(name: string): string {
    "</" + name + ">"
  }

  /** `<open>x</name>` */
  function Element(open: string, name: string, x: string): string {
    Open(open) + x + Close(name)
  }

  function Tag(name: string, x: string): string {
    Element(name, name, x)
  }

  function Link(url: string, x: string): string {
    Element("a href=\"" + url + "\"", "a", x)
  }

  /** `<inner/>` */
  function Void(inner: string): string {
    "<" + inner + "/>"
  }

  // ------------------------------------------------------------------ emoji

  function Split(s: string, c: char): seq<string>
    decreases |s|
  {
    var i := IndexOf(s, c);
    if i == |s| then [s] else [s[..i]] + Split(s[i + 1..], c)
  }

  function HexDigit(c: char): Option<nat> {
    if '0' <= c <= '9' then Some((c - '0') as nat)
    else if 'a' <= c <= 'f' then Some((c - 'a') as nat + 10)
    else if 'A' <= c <= 'F' then Some((c - 'A') as nat + 10)
    else None
  }

  function HexDigits(s: string): Option<nat> {
    if s == "" then Some(0) else
    var high, low := HexDigits(s[..|s| - 1]), HexDigit(s[|s| - 1]);
    if high.Some? && low.Some? then Some(high.value * 16 + low.value) else None
  }

  /** `u32::from_str_radix(code, 16)`, which also takes a leading plus sign. */
  function ParseHex(code: string): Option<nat> {
    var digits := if code != "" && code[0] == '+' then code[1..] else code;
    var n := if digits == "" then None else HexDigits(digits);
    if n.Some? && n.value < 0x1_0000_0000 then n else None
  }

  /** The character of a code, if the code is hexadecimal and names a Unicode scalar value. */
  function DecodeCode(code: string): string {
    var n := ParseHex(code);
    if n.Some? && (n.value < 0xD800 || 0xE000 <= n.value < 0x11_0000) then [n.value as char] else ""
  }

  function DecodeCodes(codes: seq<string>): string {
    if codes == [] then "" else DecodeCodes(codes[..|codes| - 1]) + DecodeCode(codes[|codes| - 1])
  }

  function DecodeUnicodeEmoji(unicode: string): string {
    DecodeCodes(Split(unicode, '-'))
  }

  function Emoji(elem: Value): string {
    var unicode := GetStr(elem, "unicode");
    if unicode.Some? then DecodeUnicodeEmoji(unicode.value) else ":" + StrOr(elem, "name", "") + ":"
  }

  // ------------------------------------------------------------------ rich text elements

  function Styled(style: Value, flag: string, name: string, x: string): string {
    if Flag(style, flag) then Tag(name, x) else x
  }

  function ApplyTextStyles(elem: Value, text: string): string {
    var style := Get(elem, "style");
    if style.None? then text else
    Styled(style.value, "strike", "del",
      Styled(style.value, "italic", "em",
        Styled(style.value, "bold", "strong",
          Styled(style.value, "code", "code", text))))
  }

  function RenderElement(elem: Value): string {
    var kind := StrOr(elem, "type", "");
    if kind == "text" then ApplyTextStyles(elem, EscapeHtml(StrOr(elem, "text", "")))
    else if kind == "user" then
      var id := StrOr(elem, "user_id", "");
      Link("https://matrix.to/#/@_slack_" + id + ":", "@" + id)
    else if kind == "channel" then
      Link("https://matrix.to/#/#_slack_" + StrOr(elem, "channel_id", "") + ":", "#channel")
    else if kind == "link" then
      var url := StrOr(elem, "url", "");
      Link(EscapeHtml(url), ApplyTextStyles(elem, EscapeHtml(StrOr(elem, "text", url))))
    else if kind == "emoji" then Emoji(elem)
    else if kind == "broadcast" then Element("font color=\"#FF0000\"", "font", "@" + StrOr(elem, "range", "everyone"))
    else if kind == "color" then
      var value := StrOr(elem, "value", "#000000");
      Element("font color=\"" + value + "\"", "font", "\U{25A0}") + " " + value
    else if kind == "date" then
      var timestamp := IntToString(I64Or0(elem, "timestamp"));
      var fallback := StrOr(elem, "fallback", "");
      if fallback == "" then Element("time datetime=\"" + timestamp + "\"", "time", timestamp) else EscapeHtml(fallback)
    else if kind == "usergroup" then "@group_" + StrOr(elem, "usergroup_id", "")
    else ""
  }

  function RenderElementPlain(elem: Value): string {
    var kind := StrOr(elem, "type", "");
    if kind == "text" then StrOr(elem, "text", "")
    else if kind == "user" then "@" + StrOr(elem, "user_id", "")
    else if kind == "channel" then "#" + StrOr(elem, "channel_id", "")
    else if kind == "link" then
      var url, text := StrOr(elem, "url", ""), GetStr(elem, "text");
      if text.Some? then text.value + " (" + url + ")" else url
    else if kind == "emoji" then Emoji(elem)
    else if kind == "broadcast" then "@" + StrOr(elem, "range", "everyone")
    else ""
  }

  function MapConcat(f: Value -> string, items: seq<Value>): string {
    if items == [] then "" else MapConcat(f, items[..|items| - 1]) + f(items[|items| - 1])
  }

  /** The `Some` results, in order: what the loops push into `parts`. */
  function Collect(f: Value -> Option<string>, items: seq<Value>): seq<string> {
    if items == [] then [] else
    var part := f(items[|items| - 1]);
    Collect(f, items[..|items| - 1]) + if part.Some? then [part.value] else []
  }

  function NonEmpty(s: string): Option<string> {
    if s == "" then None else Some(s)
  }

  function Joined(parts: seq<string>, sep: string): Option<string> {
    if parts == [] then None else Some(Join(parts, sep))
  }

  function RenderSection(element: Value): Option<string> {
    var items := GetArray(element, "elements");
    if items.None? then None else NonEmpty(MapConcat(RenderElement, items.value))
  }

  function RenderSectionPlain(element: Value): Option<string> {
    var items := GetArray(element, "elements");
    if items.None? then None else NonEmpty(MapConcat(RenderElementPlain, items.value))
  }

  // ------------------------------------------------------------------ rich text containers

  function CodeText(elem: Value): string {
    if GetStr(elem, "type") == Some("text") && GetStr(elem, "text").Some?
    then EscapeHtml(GetStr(elem, "text").value) else ""
  }

  function RenderPreformatted(element: Value): Option<string> {
    var items := GetArray(element, "elements");
    if items.None? then None else
    var code := MapConcat(CodeText, items.value);
    if code == "" then None else Some(Tag("pre", Tag("code", code)))
  }

  function RenderQuote(element: Value): Option<string> {
    var items := GetArray(element, "elements");
    if items.None? then None else
    var content := MapConcat(RenderElement, items.value);
    if content == "" then None else Some(Tag("blockquote", content))
  }

  /** Each section that renders to something becomes a list item. */
  function ListItems(sections: seq<Option<string>>): string {
    if sections == [] then "" else
    var section := sections[|sections| - 1];
    ListItems(sections[..|sections| - 1]) + if section.Some? then Tag("li", section.value) else ""
  }

  function MapSeq<T>(f: Value -> T, items: seq<Value>): (r: seq<T>)
    ensures |r| == |items| && forall i :: 0 <= i < |items| ==> r[i] == f(items[i])
  {
    seq(|items|, i requires 0 <= i < |items| => f(items[i]))
  }

  function ListTag(element: Value): string {
    if StrOr(element, "style", "bullet") == "ordered" then "ol" else "ul"
  }

  /** The opening tag; `offset + 1` is a 64-bit addition. */
  function ListOpen(element: Value): string {
    var offset := U64Or0(element, "offset");
    if ListTag(element) == "ol" && offset > 0
    then "ol start=\"" + IntToString((offset + 1) % 0x1_0000_0000_0000_0000) + "\""
    else ListTag(element)
  }

  function RenderList(element: Value): Option<string> {
    var items := GetArray(element, "elements");
    if items.None? then None
    else Some(Element(ListOpen(element), ListTag(element), ListItems(MapSeq(RenderSection, items.value))))
  }

  function RenderRichTextPart(element: Value): Option<string> {
    var kind := StrOr(element, "type", "");
    if kind == "rich_text_section" then RenderSection(element)
    else if kind == "rich_text_preformatted" then RenderPreformatted(element)
    else if kind == "rich_text_quote" then RenderQuote(element)
    else if kind == "rich_text_list" then RenderList(element)
    else None
  }

  function RenderRichText(block: Value): Option<string> {
    var items := GetArray(block, "elements");
    if items.None? then None else Joined(Collect(RenderRichTextPart, items.value), "")
  }

  // ------------------------------------------------------------------ other blocks

  function Cell(field: Value): string {
    Tag("td", EscapeHtml(StrOr(field, "text", "")))
  }

  /** Two cells to a row; an odd last cell has a row of its own. */
  function Rows(cells: seq<string>): string {
    var n := |cells|;
    if n == 0 then ""
    else if n % 2 == 1 then Rows(cells[..n - 1]) + Tag("tr", cells[n - 1])
    else Rows(cells[..n - 2]) + Tag("tr", cells[n - 2] + cells[n - 1])
  }

  function SectionText(block: Value): seq<string> {
    var text := Get(block, "text");
    if text.None? || StrOr(text.value, "text", "") == "" then [] else [EscapeHtml(StrOr(text.value, "text", ""))]
  }

  function SectionTable(block: Value): seq<string> {
    var fields := GetArray(block, "fields");
    if fields.None? then [] else [Tag("table", Rows(MapSeq(Cell, fields.value)))]
  }

  function RenderSectionBlock(block: Value): Option<string> {
    Joined(SectionText(block) + SectionTable(block), "\n")
  }

  function ContextPart(elem: Value): Option<string> {
    var kind := StrOr(elem, "type", "");
    if kind == "mrkdwn" || kind == "plain_text" then
      var text := StrOr(elem, "text", "");
      if text == "" then None else Some(Tag("em", EscapeHtml(text)))
    else if kind == "image" then
      var url := StrOr(elem, "image_url", "");
      if url == "" then None
      else Some(Void("img src=\"" + EscapeHtml(url) + "\" alt=\"" + EscapeHtml(StrOr(elem, "alt_text", ""))
                     + "\" height=\"16\" width=\"16\" "))
    else None
  }

  function RenderContextBlock(block: Value): Option<string> {
    var items := GetArray(block, "elements");
    if items.None? then None else
    var parts := Collect(ContextPart, items.value);
    if parts == [] then None else Some(Tag("p", Join(parts, " | ")))
  }

  function RenderImageBlock(block: Value): Option<string> {
    var url := GetStr(block, "image_url");
    if url.None? then None else
    var alt := EscapeHtml(StrOr(block, "alt_text", "image"));
    var image := Void("img src=\"" + EscapeHtml(url.value) + "\" alt=\"" + alt + "\" ");
    var title := if Get(block, "title").Some? then GetStr(Get(block, "title").value, "text") else None;
    Some(if title.None? then image else Tag("figure", image + Tag("figcaption", EscapeHtml(title.value))))
  }

  function RenderHeader(block: Value): Option<string> {
    var text := if Get(block, "text").Some? then GetStr(Get(block, "text").value, "text") else None;
    if text.None? then None else Some(Tag("h3", EscapeHtml(text.value)))
  }

  function RenderBlock(block: Value): Option<string> {
    var kind := StrOr(block, "type", "");
    if kind == "rich_text" then RenderRichText(block)
    else if kind == "header" then RenderHeader(block)
    else if kind == "divider" then Some(Void("hr"))
    else if kind == "section" then RenderSectionBlock(block)
    else if kind == "context" then RenderContextBlock(block)
    else if kind == "image" then RenderImageBlock(block)
    else None
  }

  function RenderBlocks(blocks: seq<Value>): Option<string> {
    Joined(Collect(RenderBlock, blocks), "\n")
  }

  // ------------------------------------------------------------------ attachments

  function Titled(attachment: Value, key: string, linkKey: string): seq<string> {
    var text, link := GetStr(attachment, key), GetStr(attachment, linkKey);
    if text.None? then []
    else if link.Some? then [Tag("strong", Link(EscapeHtml(link.value), EscapeHtml(text.value)))]
    else [Tag("strong", EscapeHtml(text.value))]
  }

  function EscapedIfAny(text: Option<string>): seq<string> {
    if text.None? || text.value == "" then [] else [EscapeHtml(text.value)]
  }

  function AttachmentField(field: Value): Option<string> {
    var title, value := StrOr(field, "title", ""), StrOr(field, "value", "");
    if title == "" && value == "" then None
    else Some(Tag("strong", EscapeHtml(title)) + ": " + EscapeHtml(value))
  }

  function AttachmentFields(attachment: Value): seq<string> {
    var fields := GetArray(attachment, "fields");
    if fields.None? then [] else Collect(AttachmentField, fields.value)
  }

  function AttachmentImage(attachment: Value): seq<string> {
    var url := GetStr(attachment, "image_url");
    if url.None? then [] else [Void("img src=\"" + EscapeHtml(url.value) + "\" alt=\"attachment\" ")]
  }

  function AttachmentFooter(attachment: Value): seq<string> {
    var footer := StrOr(attachment, "footer", "");
    if footer == "" then [] else [Tag("em", EscapeHtml(footer))]
  }

  function AttachmentText(attachment: Value): Option<string> {
    var text := GetStr(attachment, "text");
    if text.Some? then text else GetStr(attachment, "fallback")
  }

  function AttachmentParts(attachment: Value): seq<string> {
    Titled(attachment, "author_name", "author_link") + Titled(attachment, "title", "title_link")
    + EscapedIfAny(GetStr(attachment, "pretext")) + EscapedIfAny(AttachmentText(attachment))
    + AttachmentFields(attachment) + AttachmentImage(attachment) + AttachmentFooter(attachment)
  }

  function RenderAttachment(attachment: Value): Option<string> {
    if Flag(attachment, "is_msg_unfurl") || AttachmentParts(attachment) == [] then None
    else Some(Tag("blockquote", Join(AttachmentParts(attachment), Void("br"))))
  }

  function RenderAttachments(attachments: seq<Value>): Option<string> {
    Joined(Collect(RenderAttachment, attachments), "\n")
  }

  /** The formatted body of a bridged message: blocks first, then attachments (src/bridge.rs). */
  function FormattedBody(blocks: seq<Value>, attachments: seq<Value>): Option<string> {
    var b, a := RenderBlocks(blocks), RenderAttachments(attachments);
    if b.Some? && a.Some? then Some(b.value + "\n" + a.value) else if b.Some? then b else a
  }

  // ------------------------------------------------------------------ the loops of the source

  method ConcatLoop(f: Value -> string, items: seq<Value>) returns (html: string)
    ensures html == MapConcat(f, items)
  {
    html := "";
    for i := 0 to |items|
      invariant html == MapConcat(f, items[..i])
    {
      assert items[..i + 1][..i] == items[..i];
      html := html + f(items[i]);
    }
    assert items[..|items|] == items;
  }

  method CollectLoop(f: Value -> Option<string>, items: seq<Value>) returns (parts: seq<string>)
    ensures parts == Collect(f, items)
  {
    parts := [];
    for i := 0 to |items|
      invariant parts == Collect(f, items[..i])
    {
      assert items[..i + 1][..i] == items[..i];
      var part := f(items[i]);
      if part.Some? {
        parts := parts + [part.value];
      }
    }
    assert items[..|items|] == items;
  }

  method SectionHtml(element: Value) returns (r: Option<string>)
    ensures r == RenderSection(element)
  {
    var items := GetArray(element, "elements");
    if items.None? { return None; }
    var html := ConcatLoop(RenderElement, items.value);
    r := NonEmpty(html);
  }

  method SectionPlain(element: Value) returns (r: Option<string>)
    ensures r == RenderSectionPlain(element)
  {
    var items := GetArray(element, "elements");
    if items.None? { return None; }
    var text := ConcatLoop(RenderElementPlain, items.value);
    r := NonEmpty(text);
  }

  method ListHtml(element: Value) returns (r: Option<string>)
    ensures r == RenderList(element)
  {
    var items := GetArray(element, "elements");
    if items.None? { return None; }
    var html := AppendItems(Open(ListOpen(element)), MapSeq(RenderSection, items.value));
    r := Some(html + Close(ListTag(element)));
  }

  method AppendItems(start: string, sections: seq<Option<string>>) returns (html: string)
    ensures html == start + ListItems(sections)
  {
    html := start;
    for i := 0 to |sections|
      invariant html == start + ListItems(sections[..i])
    {
      assert sections[..i + 1][..i] == sections[..i];
      if sections[i].Some? {
        html := html + Tag("li", sections[i].value);
      }
    }
    assert sections[..|sections|] == sections;
  }

  /** The number of cells in complete rows when the loop has handled `i` cells. */
  function RowStart(i: nat): nat {
    if i == 0 then 0 else if i % 2 == 1 then i - 1 else i - 2
  }

  function RowCells(cells: seq<string>, i: nat): string
    requires 0 < i <= |cells|
  {
    if i % 2 == 1 then cells[i - 1] else cells[i - 2] + cells[i - 1]
  }

  /** The table after `i` cells, its last row still open. */
  function Partial(cells: seq<string>, i: nat): string
    requires 0 < i <= |cells|
  {
    Open("table") + Rows(cells[..RowStart(i)]) + Open("tr") + RowCells(cells, i)
  }

  method AddCell(before: string, wasOpen: bool, cells: seq<string>, i: nat) returns (table: string, rowOpen: bool)
    requires i < |cells| && (wasOpen <==> i > 0)
    requires before == if wasOpen then Partial(cells, i) else Open("table")
    ensures rowOpen && table == Partial(cells, i + 1)
  {
    table, rowOpen := before, wasOpen;
    if i % 2 == 0 {
      if rowOpen {
        table := table + Close("tr");
        ClosePartial(cells, i);
      }
      table := table + Open("tr");
      rowOpen := true;
    }
    table := table + cells[i];
    GrowPartial(cells, i);
  }

  /** The row-opening loop of a section's fields, with its `row_open` flag. */
  method TableHtml(cells: seq<string>) returns (table: string)
    ensures table == Tag("table", Rows(cells))
  {
    table := Open("table");
    var rowOpen := false;
    for i := 0 to |cells|
      invariant rowOpen <==> i > 0
      invariant table == if rowOpen then Partial(cells, i) else Open("table")
    {
      table, rowOpen := AddCell(table, rowOpen, cells, i);
    }
    if rowOpen {
      table := table + Close("tr");
      ClosePartial(cells, |cells|);
    }
    assert cells[..|cells|] == cells;
    assert cells == [] ==> Open("table") + Rows(cells) == Open("table");
    table := table + Close("table");
  }

  /** The last row of a non-empty table, and the rows before it. */
  lemma RowsLast(cells: seq<string>, i: nat)
    requires 0 < i <= |cells|
    ensures RowStart(i) < i
    ensures Rows(cells[..i]) == Rows(cells[..RowStart(i)]) + (Open("tr") + RowCells(cells, i) + Close("tr"))
  {
    assert cells[..i][..RowStart(i)] == cells[..RowStart(i)];
  }

  lemma Regroup(a: string, b: string, c: string, d: string, e: string)
    ensures a + b + c + d + e == a + (b + (c + d + e))
  {
  }

  lemma ClosePartial(cells: seq<string>, i: nat)
    requires 0 < i <= |cells|
    ensures Partial(cells, i) + Close("tr") == Open("table") + Rows(cells[..i])
  {
    hide Rows, Open, Close, RowCells;
    RowsLast(cells, i);
    Regroup(Open("table"), Rows(cells[..RowStart(i)]), Open("tr"), RowCells(cells, i), Close("tr"));
  }

  /** The cells of the open row: one in an even place starts it, one in an odd place joins the one before. */
  lemma RowCellsGrow(cells: seq<string>, i: nat)
    requires i < |cells|
    ensures i % 2 == 0 ==> RowStart(i + 1) == i && RowCells(cells, i + 1) == cells[i]
    ensures i % 2 == 1 ==> RowStart(i + 1) == RowStart(i) && RowCells(cells, i + 1) == RowCells(cells, i) + cells[i]
  {
  }

  lemma GrowPartial(cells: seq<string>, i: nat)
    requires i < |cells|
    ensures i == 0 ==> Open("table") + Open("tr") + cells[i] == Partial(cells, i + 1)
    ensures i % 2 == 0 ==> Open("table") + Rows(cells[..i]) + Open("tr") + cells[i] == Partial(cells, i + 1)
    ensures i % 2 == 1 ==> Partial(cells, i) + cells[i] == Partial(cells, i + 1)
  {
    hide Open, RowCells;
    RowCellsGrow(cells, i);
    if i == 0 {
      assert Open("table") + Rows(cells[..i]) == Open("table");
    } else if i % 2 == 1 {
      var start := Open("table") + Rows(cells[..RowStart(i)]) + Open("tr");
      assert start + RowCells(cells, i) + cells[i] == start + (RowCells(cells, i) + cells[i]);
    }
  }

  method BlocksHtml(blocks: seq<Value>) returns (r: Option<string>)
    ensures r == RenderBlocks(blocks)
  {
    if blocks == [] { return None; }
    var parts := CollectLoop(RenderBlock, blocks);
    r := Joined(parts, "\n");
  }

  method AttachmentsHtml(attachments: seq<Value>) returns (r: Option<string>)
    ensures r == RenderAttachments(attachments)
  {
    if attachments == [] { return None; }
    var parts := CollectLoop(RenderAttachment, attachments);
    r := Joined(parts, "\n");
  }
}
