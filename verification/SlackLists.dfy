/** `convert_lists_to_html` (src/parsers/slack_parser.rs): a line-by-line machine with two flags. */
module SlackListsModel {
  import opened Prelude
  import opened HtmlModel
  import opened NestingModel

  datatype Line = Bullet(content: string) | Numbered(content: string) | Plain(content: string)

  function DigitPrefix(line: string, digit: char -> bool): (n: nat)
    ensures n <= |line| && (forall i :: 0 <= i < n ==> digit(line[i])) && (n < |line| ==> !digit(line[n]))
  {
    if line == "" || !digit(line[0]) then 0 else 1 + DigitPrefix(line[1..], digit)
  }

  const BULLET := "\U{2022} "

  /** The two line regexes: a bullet and a space, or digits, a full stop and a space; then at least one character. */
  function Classify(line: string, digit: char -> bool): Line {
    var n := DigitPrefix(line, digit);
    if |line| > 2 && BULLET <= line && '\n' !in line[2..] then Bullet(line[2..])
    else if n > 0 && |line| > n + 2 && line[n..n + 2] == ". " && '\n' !in line[n + 2..] then Numbered(line[n + 2..])
    else Plain(line)
  }

  /** The text of an item: at least one character, on one line. */
  predicate IsItemText(content: string) {
    content != "" && '\n' !in content
  }

  lemma BulletText()
    ensures |BULLET| == 2 && BULLET[1] == ' '
  {
  }

  /** A bullet line is a bullet, a space and the item's text. */
  lemma BulletExactly(line: string, digit: char -> bool, content: string)
    ensures Classify(line, digit) == Bullet(content) <==> line == "\U{2022} " + content && IsItemText(content)
  {
    var whole := BULLET + content;
    BulletText();
    assert whole[2..] == content;
    if BULLET <= line { assert line == BULLET + line[2..]; }
  }

  lemma {:induction false} DigitsThenRest(digits: string, rest: string, digit: char -> bool)
    requires (forall c :: c in digits ==> digit(c)) && (rest != "" ==> !digit(rest[0]))
    ensures DigitPrefix(digits + rest, digit) == |digits|
    decreases |digits|
  {
    var s := digits + rest;
    if digits == "" {
      assert s == rest;
    } else {
      assert s[0] == digits[0] && s[1..] == digits[1..] + rest;
      DigitsThenRest(digits[1..], rest, digit);
    }
  }

  /** A numbered line is digits, a full stop, a space and the item's text. */
  lemma NumberedExactly(line: string, digit: char -> bool, content: string)
    requires !digit('.') && !digit('\U{2022}')
    ensures Classify(line, digit) == Numbered(content)
       <==> (exists digits :: IsNumbered(line, digit, digits, content))
  {
    hide Classify, DigitPrefix, IsNumbered;
    var n := DigitPrefix(line, digit);
    if Classify(line, digit) == Numbered(content) { NumberedIsWritten(line, digit, content); }
    if digits :| IsNumbered(line, digit, digits, content) { WrittenIsNumbered(line, digit, digits, content); }
  }

  lemma NumberedParts(line: string, digit: char -> bool, content: string)
    requires Classify(line, digit) == Numbered(content)
    ensures var n := DigitPrefix(line, digit);
            n > 0 && |line| > n + 2 && line[n..n + 2] == ". " && line[n + 2..] == content && '\n' !in content
  {
    hide DigitPrefix;
  }

  lemma AllDigits(line: string, n: nat, digit: char -> bool)
    requires n <= |line| && forall i :: 0 <= i < n ==> digit(line[i])
    ensures forall c :: c in line[..n] ==> digit(c)
  {
  }

  lemma NumberedIsWritten(line: string, digit: char -> bool, content: string)
    requires Classify(line, digit) == Numbered(content)
    ensures var n := DigitPrefix(line, digit); n <= |line| && IsNumbered(line, digit, line[..n], content)
  {
    hide DigitPrefix, Classify;
    var n := DigitPrefix(line, digit);
    NumberedParts(line, digit, content);
    ThreeParts(line, n);
    AllDigits(line, n, digit);
  }

  lemma ThreeParts(s: string, n: nat)
    requires n + 2 <= |s|
    ensures s == s[..n] + s[n..n + 2] + s[n + 2..]
  {
  }

  lemma WrittenIsNumbered(line: string, digit: char -> bool, digits: string, content: string)
    requires IsNumbered(line, digit, digits, content) && !digit('.') && !digit('\U{2022}')
    ensures Classify(line, digit) == Numbered(content)
  {
    hide DigitPrefix;
    var rest := ". " + content;
    assert digits + rest == line;
    DigitsThenRest(digits, rest, digit);
    BulletText();
    var n := |digits|;
    assert line[n..] == rest && line[n..n + 2] == rest[..2] == ". " && line[n + 2..] == rest[2..] == content;
    assert line[0] == digits[0] && digits[0] in digits;
  }

  predicate IsNumbered(line: string, digit: char -> bool, digits: string, content: string) {
    digits != "" && (forall c :: c in digits ==> digit(c)) && line == digits + ". " + content && IsItemText(content)
  }

  /** Every other line is plain, as it stands. */
  lemma OthersArePlain(line: string, digit: char -> bool)
    ensures Classify(line, digit).Plain? ==> Classify(line, digit).content == line
  {
  }

  /** The output so far and the two flags. */
  datatype Machine = Machine(out: string, inUnordered: bool, inOrdered: bool)

  function CloseUnordered(s: Machine): Machine {
    if s.inUnordered then Machine(s.out + "</ul>", false, s.inOrdered) else s
  }

  function CloseOrdered(s: Machine): Machine {
    if s.inOrdered then Machine(s.out + "</ol>", s.inUnordered, false) else s
  }

  function OpenUnordered(s: Machine): Machine {
    if s.inUnordered then s else Machine(s.out + "<ul>", true, s.inOrdered)
  }

  function OpenOrdered(s: Machine): Machine {
    if s.inOrdered then s else Machine(s.out + "<ol>", s.inUnordered, true)
  }

  function Push(s: Machine, text: string): Machine {
    s.(out := s.out + text)
  }

  function ListItem(content: string): string {
    "<li>" + content + "</li>"
  }

  function Step(s: Machine, line: Line): Machine {
    match line
    case Bullet(content) => Push(OpenUnordered(s), ListItem(content))
    case Numbered(content) => Push(OpenOrdered(CloseUnordered(s)), ListItem(content))
    case Plain(text) => Push(CloseOrdered(CloseUnordered(s)), text + "\n")
  }

  function Steps(lines: seq<Line>): Machine {
    if lines == [] then Machine("", false, false) else Step(Steps(lines[..|lines| - 1]), lines[|lines| - 1])
  }

  function ListsToHtml(lines: seq<Line>): string {
    CloseOrdered(CloseUnordered(Steps(lines))).out
  }

  function ClassifyAll(lines: seq<string>, digit: char -> bool): (r: seq<Line>)
    ensures |r| == |lines| && forall i :: 0 <= i < |r| ==> r[i] == Classify(lines[i], digit)
  {
    seq(|lines|, i requires 0 <= i < |lines| => Classify(lines[i], digit))
  }

  method ConvertListsToHtml(lines: seq<string>, digit: char -> bool) returns (result: string)
    ensures result == ListsToHtml(ClassifyAll(lines, digit))
  {
    result := "";
    var inUnordered, inOrdered := false, false;
    for i := 0 to |lines|
      invariant Machine(result, inUnordered, inOrdered) == Steps(ClassifyAll(lines, digit)[..i])
    {
      var line := Classify(lines[i], digit);
      assert ClassifyAll(lines, digit)[..i + 1][..i] == ClassifyAll(lines, digit)[..i];
      if line.Bullet? {
        if !inUnordered {
          result := result + "<ul>";
          inUnordered := true;
        }
        result := result + ("<li>" + line.content + "</li>");
      } else if line.Numbered? {
        if inUnordered {
          result := result + "</ul>";
          inUnordered := false;
        }
        if !inOrdered {
          result := result + "<ol>";
          inOrdered := true;
        }
        result := result + ("<li>" + line.content + "</li>");
      } else {
        if inUnordered {
          result := result + "</ul>";
          inUnordered := false;
        }
        if inOrdered {
          result := result + "</ol>";
          inOrdered := false;
        }
        result := result + (line.content + "\n");
      }
    }
    assert ClassifyAll(lines, digit)[..|lines|] == ClassifyAll(lines, digit);
    if inUnordered {
      result := result + "</ul>";
    }
    if inOrdered {
      result := result + "</ol>";
    }
  }

  // ------------------------------------------------------------------ the tags are well nested

  const LIST_TAGS: set<string> := {"ul", "ol", "li"}

  /** The lists the flags say are open: an unordered list is always inside the ordered one. */
  function Opened(s: Machine): seq<string> {
    (if s.inOrdered then ["ol"] else []) + (if s.inUnordered then ["ul"] else [])
  }

  /** The output has closed everything it opened except the lists the flags say are open. */
  ghost predicate InStep(s: Machine, names: set<string>) {
    forall stack :: Scan(s.out, stack, names) == Some(stack + Opened(s))
  }

  lemma PushKeepsStep(s: Machine, text: string, names: set<string>)
    requires InStep(s, names) && Balanced(text, names)
    ensures InStep(Push(s, text), names)
  {
    forall stack ensures Scan(s.out + text, stack, names) == Some(stack + Opened(s)) {
      ScanConcat(s.out, text, stack, names);
    }
  }

  lemma PlainTags(stack: seq<string>, names: set<string>)
    requires LIST_TAGS <= names
    ensures Scan("<ul>", stack, names) == Some(stack + ["ul"]) && Scan("<ol>", stack, names) == Some(stack + ["ol"])
    ensures Scan("</ul>", stack + ["ul"], names) == Some(stack) && Scan("</ol>", stack + ["ol"], names) == Some(stack)
  {
    hide Scan;
    assert "ul" in names && "ol" in names;
    PlainTag("ul", stack, names);
    PlainTag("ol", stack, names);
    assert "<" + "ul" + ">" == "<ul>" && "</" + "ul" + ">" == "</ul>";
    assert "<" + "ol" + ">" == "<ol>" && "</" + "ol" + ">" == "</ol>";
  }

  lemma PlainTag(name: string, stack: seq<string>, names: set<string>)
    requires name in {"ul", "ol"} && name in names
    ensures Scan("<" + name + ">", stack, names) == Some(stack + [name])
    ensures Scan("</" + name + ">", stack + [name], names) == Some(stack)
  {
    hide Scan;
    NameAlone(name);
    ScanOpening(name, name, stack, names);
    ScanClosing(name, stack, names);
  }

  /** Appending a tag that takes the open lists from `Opened(s)` to `after`. */
  lemma AppendTag(s: Machine, tag: string, after: Machine, names: set<string>)
    requires InStep(s, names) && after.out == s.out + tag
    requires forall stack :: Scan(tag, stack + Opened(s), names) == Some(stack + Opened(after))
    ensures InStep(after, names)
  {
    forall stack ensures Scan(after.out, stack, names) == Some(stack + Opened(after)) {
      ScanConcat(s.out, tag, stack, names);
    }
  }

  lemma ClosingKeepsStep(s: Machine, names: set<string>)
    requires InStep(s, names) && LIST_TAGS <= names
    ensures InStep(CloseUnordered(s), names)
    ensures !s.inUnordered ==> InStep(CloseOrdered(s), names)
  {
    if s.inUnordered {
      forall stack ensures Scan("</ul>", stack + Opened(s), names) == Some(stack + Opened(CloseUnordered(s))) {
        var rest := stack + Opened(CloseUnordered(s));
        assert stack + Opened(s) == rest + ["ul"];
        PlainTags(rest, names);
      }
      AppendTag(s, "</ul>", CloseUnordered(s), names);
    } else if s.inOrdered {
      forall stack ensures Scan("</ol>", stack + Opened(s), names) == Some(stack + Opened(CloseOrdered(s))) {
        assert stack + Opened(s) == stack + ["ol"] && stack + Opened(CloseOrdered(s)) == stack;
        PlainTags(stack, names);
      }
      AppendTag(s, "</ol>", CloseOrdered(s), names);
    }
  }

  lemma OpeningKeepsStep(s: Machine, names: set<string>)
    requires InStep(s, names) && LIST_TAGS <= names
    ensures InStep(OpenUnordered(s), names)
    ensures !s.inUnordered ==> InStep(OpenOrdered(s), names)
  {
    hide Scan;
    if !s.inUnordered {
      forall stack ensures Scan("<ul>", stack + Opened(s), names) == Some(stack + Opened(OpenUnordered(s))) {
        PlainTags(stack + Opened(s), names);
        assert stack + Opened(s) + ["ul"] == stack + Opened(OpenUnordered(s));
      }
      AppendTag(s, "<ul>", OpenUnordered(s), names);
      if !s.inOrdered {
        forall stack ensures Scan("<ol>", stack + Opened(s), names) == Some(stack + Opened(OpenOrdered(s))) {
          PlainTags(stack + Opened(s), names);
          assert stack + Opened(s) + ["ol"] == stack + Opened(OpenOrdered(s));
        }
        AppendTag(s, "<ol>", OpenOrdered(s), names);
      }
    }
  }

  lemma ItemIsBalanced(content: string, names: set<string>)
    requires Balanced(content, names) && LIST_TAGS <= names
    ensures Balanced(ListItem(content), names)
  {
    NameAlone("li");
    assert "li" in names;
    ElementIsBalanced("li", "li", content, names);
    assert "<" + "li" + ">" + content + ("</" + "li" + ">") == ListItem(content);
  }

  lemma StepKeepsStep(s: Machine, line: Line, names: set<string>)
    requires InStep(s, names) && LIST_TAGS <= names && Balanced(line.content, names)
    ensures InStep(Step(s, line), names)
  {
    OpeningKeepsStep(s, names);
    ClosingKeepsStep(s, names);
    ItemIsBalanced(line.content, names);
    if line.Bullet? {
      PushKeepsStep(OpenUnordered(s), ListItem(line.content), names);
    } else if line.Numbered? {
      OpeningKeepsStep(CloseUnordered(s), names);
      PushKeepsStep(OpenOrdered(CloseUnordered(s)), ListItem(line.content), names);
    } else {
      ClosingKeepsStep(CloseUnordered(s), names);
      TextIsBalanced("\n", names);
      ConcatIsBalanced(line.content, "\n", names);
      PushKeepsStep(CloseOrdered(CloseUnordered(s)), line.content + "\n", names);
    }
  }

  lemma {:induction false} FlagsDescribeOpenLists(lines: seq<Line>, names: set<string>)
    requires LIST_TAGS <= names && forall l :: l in lines ==> Balanced(l.content, names)
    ensures InStep(Steps(lines), names)
    decreases |lines|
  {
    if lines == [] {
      assert forall stack: seq<string> :: stack + [] == stack;
    } else {
      FlagsDescribeOpenLists(lines[..|lines| - 1], names);
      assert lines[|lines| - 1] in lines;
      StepKeepsStep(Steps(lines[..|lines| - 1]), lines[|lines| - 1], names);
    }
  }

  /**
   For every sequence of lines whose own markup is balanced the output is balanced, although an ordered list is not
   closed before an unordered one starts.
   */
  lemma ListsAreWellNested(lines: seq<Line>, names: set<string>)
    requires LIST_TAGS <= names && forall l :: l in lines ==> Balanced(l.content, names)
    ensures Balanced(ListsToHtml(lines), names)
  {
    FlagsDescribeOpenLists(lines, names);
    var s := Steps(lines);
    ClosingKeepsStep(s, names);
    ClosingKeepsStep(CloseUnordered(s), names);
    assert forall stack: seq<string> :: stack + [] == stack;
  }

  // ------------------------------------------------------------------ in which list a line stands

  /** What a line itself becomes. */
  function Rendered(line: Line): string {
    if line.Plain? then line.content + "\n" else "<li>" + line.content + "</li>"
  }

  /** Line `j` is numbered, and no plain line follows up to the end. */
  predicate NumberedAt(lines: seq<Line>, j: nat) {
    j < |lines| && lines[j].Numbered? && forall i :: j < i < |lines| ==> !lines[i].Plain?
  }

  /** The lists a line stands in: `ol` since the last numbered line if no plain one came, and `ul` for a bullet. */
  ghost function ListsAround(lines: seq<Line>): seq<string>
    requires lines != []
  {
    (if exists j :: NumberedAt(lines, j) then ["ol"] else []) + (if lines[|lines| - 1].Bullet? then ["ul"] else [])
  }

  /** The output up to the last line, with the lists around that line open. */
  function BeforeLast(s: Machine, line: Line): Machine {
    match line
    case Bullet(_) => OpenUnordered(s)
    case Numbered(_) => OpenOrdered(CloseUnordered(s))
    case Plain(_) => CloseOrdered(CloseUnordered(s))
  }

  lemma NumberedGrows(lines: seq<Line>)
    requires lines != []
    ensures var n := |lines| - 1;
            (exists j :: NumberedAt(lines, j))
            <==> lines[n].Numbered? || (lines[n].Bullet? && exists j :: NumberedAt(lines[..n], j))
  {
    var n := |lines| - 1;
    if lines[n].Numbered? { assert NumberedAt(lines, n); }
    if j: nat :| NumberedAt(lines[..n], j) {
      if lines[n].Bullet? { assert NumberedAt(lines, j); }
    }
    if j: nat :| NumberedAt(lines, j) {
      if j < n { assert NumberedAt(lines[..n], j); }
    }
  }

  /** The flags say which lists the last line stands in. */
  lemma {:induction false} FlagsFollowLines(lines: seq<Line>)
    requires lines != []
    ensures Opened(Steps(lines)) == ListsAround(lines)
    ensures Steps(lines).inUnordered <==> lines[|lines| - 1].Bullet?
    ensures Steps(lines).inOrdered <==> exists j :: NumberedAt(lines, j)
    decreases |lines|
  {
    hide NumberedAt;
    var n := |lines| - 1;
    NumberedGrows(lines);
    if n > 0 {
      FlagsFollowLines(lines[..n]);
    } else {
      NothingNumbered(lines[..n]);
    }
  }

  lemma NothingNumbered(lines: seq<Line>)
    requires lines == []
    ensures !exists j :: NumberedAt(lines, j)
  {
  }

  lemma StepGrows(s: Machine, line: Line)
    ensures s.out <= Step(s, line).out
  {
  }

  lemma {:induction false} StepsGrow(lines: seq<Line>, k: nat)
    requires k <= |lines|
    ensures Steps(lines[..k]).out <= Steps(lines).out
    decreases |lines| - k
  {
    hide Step;
    if k < |lines| {
      StepsGrow(lines, k + 1);
      assert lines[..k + 1][..k] == lines[..k];
      StepGrows(Steps(lines[..k]), lines[k]);
    } else {
      assert lines[..k] == lines;
    }
  }

  /** Two bullets, or two numbered lines. */
  predicate SameKind(a: Line, b: Line) {
    (a.Bullet? && b.Bullet?) || (a.Numbered? && b.Numbered?)
  }

  lemma LastLine(lines: seq<Line>, names: set<string>) returns (before: string)
    requires LIST_TAGS <= names && lines != [] && forall l :: l in lines ==> Balanced(l.content, names)
    ensures Steps(lines).out == before + Rendered(lines[|lines| - 1])
    ensures Scan(before, [], names) == Some(ListsAround(lines))
    ensures var n := |lines| - 1;
            n > 0 && SameKind(lines[n - 1], lines[n]) ==> before == Steps(lines[..n]).out
  {
    hide Scan, ListsAround, NumberedAt;
    var n := |lines| - 1;
    var s, line := Steps(lines[..n]), lines[n];
    var m := BeforeLast(s, line);
    before := m.out;
    FlagsDescribeOpenLists(lines[..n], names);
    OpeningKeepsStep(s, names);
    ClosingKeepsStep(s, names);
    OpeningKeepsStep(CloseUnordered(s), names);
    ClosingKeepsStep(CloseUnordered(s), names);
    assert InStep(m, names) && [] + Opened(m) == Opened(m);
    FlagsFollowLines(lines);
    if n > 0 { FlagsFollowLines(lines[..n]); }
  }

  /**
   Every line of the result stands where it belongs: what precedes it leaves open exactly the lists around it, `ul` for
   a bullet, `ol` for a numbered line and none for a plain one; a line after one of its own kind opens no new list.
   */
  lemma LinesStandInTheirLists(lines: seq<Line>, k: nat, names: set<string>) returns (before: string, after: string)
    requires LIST_TAGS <= names && k < |lines| && forall l :: l in lines ==> Balanced(l.content, names)
    ensures ListsToHtml(lines) == before + Rendered(lines[k]) + after
    ensures Scan(before, [], names) == Some(ListsAround(lines[..k + 1]))
    ensures k > 0 && SameKind(lines[k - 1], lines[k]) ==> EndsWith(before, Rendered(lines[k - 1]))
  {
    hide Scan, ListsAround, Rendered;
    before := LastLine(lines[..k + 1], names);
    StepsGrow(lines, k + 1);
    var sofar := before + Rendered(lines[k]);
    assert sofar <= ListsToHtml(lines);
    after := ListsToHtml(lines)[|sofar|..];
    if k > 0 {
      var b := LastLine(lines[..k], names);
      assert lines[..k + 1][..k] == lines[..k];
    }
  }

  // ------------------------------------------------------------------ the contents survive in order

  /** What the lines contribute besides tags. */
  function Contents(lines: seq<Line>): string {
    if lines == [] then "" else
    var line := lines[|lines| - 1];
    Contents(lines[..|lines| - 1]) + StripTags(line.content) + if line.Plain? then "\n" else ""
  }

  lemma AppendStripped(s: Machine, tag: string)
    requires TagsClosed(s.out) && '>' !in tag
    ensures TagsClosed(s.out + ("<" + tag + ">")) && StripTags(s.out + ("<" + tag + ">")) == StripTags(s.out)
  {
    StripTag(tag);
    StripConcat(s.out, "<" + tag + ">");
    assert StripTags(s.out) + "" == StripTags(s.out);
  }

  /** Opening and closing lists adds nothing but tags. */
  predicate SameText(s: Machine, s': Machine) {
    TagsClosed(s.out) ==> TagsClosed(s'.out) && StripTags(s'.out) == StripTags(s.out)
  }

  lemma ListTagsAddNoText(s: Machine)
    ensures SameText(s, OpenUnordered(s)) && SameText(s, OpenOrdered(s))
    ensures SameText(s, CloseUnordered(s)) && SameText(s, CloseOrdered(s))
  {
    hide StripTags, TagsClosed;
    if TagsClosed(s.out) {
      AppendStripped(s, "ul");
      AppendStripped(s, "ol");
      AppendStripped(s, "/ul");
      AppendStripped(s, "/ol");
      assert "<" + "ul" + ">" == "<ul>" && "<" + "ol" + ">" == "<ol>" && "<" + "/ul" + ">" == "</ul>"
             && "<" + "/ol" + ">" == "</ol>";
    }
  }

  lemma ItemText(content: string)
    requires TagsClosed(content)
    ensures TagsClosed(ListItem(content)) && StripTags(ListItem(content)) == StripTags(content)
  {
    StripTag("li");
    StripTag("/li");
    hide StripTags, TagsClosed;
    assert "<" + "li" + ">" == "<li>" && "<" + "/li" + ">" == "</li>";
    StripConcat("<li>", content);
    StripConcat("<li>" + content, "</li>");
    assert "" + StripTags(content) + "" == StripTags(content);
  }

  lemma StepText(s: Machine, line: Line)
    requires TagsClosed(s.out) && TagsClosed(line.content)
    ensures TagsClosed(Step(s, line).out)
    ensures StripTags(Step(s, line).out)
         == StripTags(s.out) + StripTags(line.content) + if line.Plain? then "\n" else ""
  {
    hide StripTags, TagsClosed;
    ListTagsAddNoText(s);
    ListTagsAddNoText(CloseUnordered(s));
    ItemText(line.content);
    if line.Bullet? {
      StripConcat(OpenUnordered(s).out, ListItem(line.content));
    } else if line.Numbered? {
      StripConcat(OpenOrdered(CloseUnordered(s)).out, ListItem(line.content));
    } else {
      StripText("\n");
      StripConcat(line.content, "\n");
      StripConcat(CloseOrdered(CloseUnordered(s)).out, line.content + "\n");
      assert StripTags(s.out) + (StripTags(line.content) + "\n") == StripTags(s.out) + StripTags(line.content) + "\n";
    }
  }

  lemma {:induction false} StepsText(lines: seq<Line>)
    requires forall l :: l in lines ==> TagsClosed(l.content)
    ensures TagsClosed(Steps(lines).out) && StripTags(Steps(lines).out) == Contents(lines)
    decreases |lines|
  {
    if lines != [] {
      StepsText(lines[..|lines| - 1]);
      assert lines[|lines| - 1] in lines;
      StepText(Steps(lines[..|lines| - 1]), lines[|lines| - 1]);
    }
  }

  /** Removing the tags leaves the line and item contents, in order. */
  lemma ListsKeepContents(lines: seq<Line>)
    requires forall l :: l in lines ==> TagsClosed(l.content)
    ensures StripTags(ListsToHtml(lines)) == Contents(lines)
  {
    StepsText(lines);
    ListTagsAddNoText(Steps(lines));
    ListTagsAddNoText(CloseUnordered(Steps(lines)));
  }
}
