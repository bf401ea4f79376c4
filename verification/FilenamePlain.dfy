/** Plain file names in a header, and what is left of a path. */
module FilenamePlainModel {
  import opened Prelude
  import opened FilenameModel

  // ------------------------------------------------------------------ quotes

  /** Quotes around a value are taken off; any other value stays as it is. */
  lemma OnlyQuotesAroundAreTrimmed(s: string, inner: string)
    ensures TrimWrappingQuotes("\"" + inner + "\"") == inner
    ensures TrimWrappingQuotes(s) == s || s == "\"" + TrimWrappingQuotes(s) + "\""
  {
    var q := "\"" + inner + "\"";
    assert q[1..] == inner + "\"" && q[1..][|q[1..]| - 1..] == "\"";
    assert StartsWith(q, "\"") && q[1..|q| - 1] == inner;
    if StartsWith(s, "\"") && EndsWith(s[1..], "\"") {
      assert s[0] == '"' && s[1..][|s[1..]| - 1] == '"' && s[|s| - 1] == '"';
      assert s == "\"" + s[1..|s| - 1] + "\"";
    }
  }

  lemma PlainText()
    ensures PLAIN != "" && PLAIN[0] == 'f' && ';' !in PLAIN && |PLAIN| == 9 && PLAIN[8] == '='
    ensures EXT[8] == '*' && |EXT| == 10
  {
  }

  lemma NotExtended(part: string)
    requires StartsWith(Trim(part), PLAIN)
    ensures ExtName(part).Unnamed?
  {
    PlainText();
    assert Trim(part)[8] == PLAIN[8];
  }

  /** A part that is such a parameter, with its value in quotes or as it stands. */
  ghost predicate NamesPlain(part: string, name: string) {
    || Trim(part) == PLAIN + ("\"" + name + "\"")
    || (Trim(part) == PLAIN + name && Trim(name) == name && TrimWrappingQuotes(name) == name)
  }

  lemma QuotedIsTrimmed(name: string)
    ensures Trim("\"" + name + "\"") == "\"" + name + "\""
  {
    var q := "\"" + name + "\"";
    assert q[0] == '"' && q[|q| - 1] == '"' && !Whitespace('"');
    TrimKeeps(q);
  }

  lemma PlainNameReads(part: string, name: string)
    requires NamesPlain(part, name)
    ensures ExtName(part).Unnamed? && PlainName(part) == NameOf(Sanitize(name))
  {
    var p := Trim(part);
    var raw := if p == PLAIN + ("\"" + name + "\"") then "\"" + name + "\"" else name;
    PlainText();
    LastOf(PLAIN, raw);
    assert StartsWith(p, PLAIN) && p[|PLAIN|..] == raw;
    NotExtended(part);
    QuotedIsTrimmed(name);
    OnlyQuotesAroundAreTrimmed(raw, name);
    assert Trim(raw) == raw && TrimWrappingQuotes(raw) == name;
    PlainNameIs(part, raw, name);
  }

  lemma PlainNameIs(part: string, raw: string, name: string)
    requires StartsWith(Trim(part), PLAIN) && Trim(part)[|PLAIN|..] == raw
    requires Trim(raw) == raw && TrimWrappingQuotes(raw) == name
    ensures PlainName(part) == NameOf(Sanitize(name))
  {
  }

  /** No part of the text yields a name of its own. */
  ghost predicate Nameless(lead: string) {
    forall i :: 0 <= i < |Split(lead, ';')| ==>
      ExtName(Split(lead, ';')[i]).Unnamed? && PlainName(Split(lead, ';')[i]).Unnamed?
  }

  lemma {:induction false} AllUnnamed(parts: seq<string>, name: string -> Name)
    requires forall i :: 0 <= i < |parts| ==> name(parts[i]).Unnamed?
    ensures First(parts, name).Unnamed?
    decreases |parts|
  {
    if parts != [] { AllUnnamed(parts[1..], name); }
  }

  /** The first plain name of a header without a usable extended one is read, sanitised, with or without its quotes. */
  lemma PlainNameIsRead(lead: string, part: string, tail: string, name: string)
    requires Nameless(lead) && ';' !in part && NamesPlain(part, name) && Sanitize(name).Some?
    requires NoExtName(tail)
    ensures FromContentDisposition(lead + ";" + part + ";" + tail) == Named(Sanitize(name).value)
  {
    hide PlainName, ExtName, Sanitize, Split;
    var before, after := Split(lead, ';'), Split(tail, ';');
    var parts := before + [part] + after;
    PlainNameReads(part, name);
    SplitWhole(part, ';');
    SplitConcat(lead, part, ';');
    SplitConcat(lead + ";" + part, tail, ';');
    NoExtNameIn(tail);
    AllUnnamed(parts, ExtName);
    FirstSkips(before, part, after, PlainName);
  }

  lemma NoExtNameIn(tail: string)
    requires NoExtName(tail)
    ensures forall i :: 0 <= i < |Split(tail, ';')| ==> ExtName(Split(tail, ';')[i]).Unnamed?
  {
    hide Split, Trim;
    forall i | 0 <= i < |Split(tail, ';')| ensures ExtName(Split(tail, ';')[i]).Unnamed? {
      assert !StartsWith(Trim(Split(tail, ';')[i]), EXT);
    }
  }

  /** Such a parameter alone. */
  lemma PlainNameAlone(part: string, name: string)
    requires ';' !in part && NamesPlain(part, name)
    ensures FromContentDisposition(part) == NameOf(Sanitize(name))
  {
    hide PlainName, ExtName, Sanitize;
    PlainNameReads(part, name);
    SplitWhole(part, ';');
    FirstOfOne(part, ExtName);
    FirstOfOne(part, PlainName);
  }

  // ------------------------------------------------------------------ the last component of a path

  /** What stands behind the last slash or backslash. */
  lemma {:induction false} AfterSlashIsTail(lead: string, base: string)
    requires NoSlash(base) && (lead == "" || Slash(lead[|lead| - 1]))
    ensures AfterSlash(lead + base) == base
    decreases |base|
  {
    var s := lead + base;
    if base == "" {
      assert s == lead;
    } else {
      var n := |base| - 1;
      assert base == base[..n] + [base[n]] && s[..|s| - 1] == lead + base[..n] && s[|s| - 1] == base[n];
      AfterSlashIsTail(lead, base[..n]);
    }
  }

  /** Where the classes of control characters and of white space begin and end. */
  lemma ClassesEnd()
    ensures Control('\0') && Control('\U{1F}') && !Control(' ') && !Control('~')
    ensures Control('\U{7F}') && Control('\U{9F}') && !Control('\U{A0}')
    ensures Whitespace(' ') && Whitespace('\t') && Whitespace('\r') && !Whitespace('\U{0E}') && !Whitespace('!')
    ensures Whitespace('\U{85}') && Whitespace('\U{A0}') && Whitespace('\U{1680}') && Whitespace('\U{3000}')
    ensures Whitespace('\U{2000}') && Whitespace('\U{200A}') && !Whitespace('\U{200B}')
  {
  }

  /** Control characters are dropped one by one; all others stay in order. */
  lemma {:induction false} ControlsOneByOne(a: string, b: string, c: char)
    ensures WithoutControls(a + b) == WithoutControls(a) + WithoutControls(b)
    ensures WithoutControls([c]) == if Control(c) then "" else [c]
    decreases |b|
  {
    if b == "" {
      assert a + b == a;
    } else {
      var init, last := b[..|b| - 1], b[|b| - 1];
      ControlsOneByOne(a, init, c);
      assert (a + b)[..|a + b| - 1] == a + init && (a + b)[|a + b| - 1] == last;
      var tail := if Control(last) then "" else [last];
      assert WithoutControls(b) == WithoutControls(init) + tail;
      assert WithoutControls(a) + WithoutControls(init) + tail == WithoutControls(a) + (WithoutControls(init) + tail);
    }
  }

  /** Only white space is taken off, at both ends, and all of it. */
  lemma {:induction false} OnlySpaceIsTrimmed(s: string) returns (i: nat, j: nat)
    ensures i <= j <= |s| && Trim(s) == s[i..j] && (i < j ==> !Whitespace(s[i]) && !Whitespace(s[j - 1]))
    ensures forall k :: 0 <= k < |s| && !(i <= k < j) ==> Whitespace(s[k])
  {
    hide Whitespace;
    i := SpaceBefore(s);
    var n := SpaceBehind(s[i..]);
    j := i + n;
    assert s[i..][..n] == s[i..j];
    forall k | j <= k < |s| ensures Whitespace(s[k]) { assert s[k] == s[i..][k - i]; }
  }

  lemma {:induction false} SpaceBefore(s: string) returns (i: nat)
    ensures i <= |s| && TrimStart(s) == s[i..] && (i < |s| ==> !Whitespace(s[i]))
    ensures forall k :: 0 <= k < i ==> Whitespace(s[k])
    decreases |s|
  {
    hide Whitespace;
    if s != "" && Whitespace(s[0]) {
      var t := s[1..];
      i := SpaceBefore(t);
      assert t[i..] == s[i + 1..];
      forall k | 0 <= k < i + 1 ensures Whitespace(s[k]) {
        if k > 0 { assert s[k] == t[k - 1]; }
      }
      i := i + 1;
    } else {
      i := 0;
    }
  }

  lemma {:induction false} SpaceBehind(s: string) returns (j: nat)
    ensures j <= |s| && TrimEnd(s) == s[..j] && (j > 0 ==> !Whitespace(s[j - 1]))
    ensures forall k :: j <= k < |s| ==> Whitespace(s[k])
    decreases |s|
  {
    hide Whitespace;
    if s != "" && Whitespace(s[|s| - 1]) {
      var t := s[..|s| - 1];
      j := SpaceBehind(t);
      assert t[..j] == s[..j];
    } else {
      j := |s|;
    }
  }

  /** A path is read as its last component, without the space around it and without control characters. */
  lemma PathIsRead(lead: string, base: string)
    requires lead == "" || Slash(lead[|lead| - 1])
    requires NoSlash(base) && Trim(lead + base) == lead + base
    ensures var name := WithoutControls(Trim(base));
            Sanitize(lead + base) == if name == "" then None else Some(name)
  {
    hide Trim, WithoutControls;
    AfterSlashIsTail(lead, base);
    NothingIsLeft();
    assert lead + base == "" ==> base == "";
  }

  lemma NothingIsLeft()
    ensures WithoutControls("") == "" && Trim("") == ""
  {
  }
}
