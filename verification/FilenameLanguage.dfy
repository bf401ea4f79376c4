/**
 The language tag of an extended file name (section 3.2.1 of RFC 5987): src/media.rs looks for `''` and so removes the
 charset only when the tag between its two quotes is empty.
 */
module FilenameLanguageModel {
  import opened Prelude
  import opened Utf8Model
  import opened FilenameModel

  predicate TagChar(c: char) {
    'a' <= c <= 'z' || 'A' <= c <= 'Z' || '0' <= c <= '9' || c == '-'
  }

  /** A language tag: letters, digits and hyphens. */
  predicate LanguageTag(lang: string) {
    forall i :: 0 <= i < |lang| ==> TagChar(lang[i])
  }

  /** `UTF-8'lang'` */
  function Prefix(lang: string): string {
    "UTF-8'" + lang + "'"
  }

  // ------------------------------------------------------------------ the value is not cut

  predicate PairFree(s: string) {
    forall i :: 0 <= i < |s| - 1 ==> s[i] != '\'' || s[i + 1] != '\''
  }

  lemma LastIsKept(s: string)
    requires s != "" && PairFree(s)
    ensures var init := s[..|s| - 1]; PairFree(init) && AfterQuotes(s) == AfterQuotes(init) + [s[|s| - 1]]
  {
    PairAtEnd(s);
  }

  lemma {:induction false} PairFreeIsKept(s: string)
    requires PairFree(s)
    ensures AfterQuotes(s) == s
    decreases |s|
  {
    if s != "" {
      hide AfterQuotes, PairFree;
      LastIsKept(s);
      PairFreeIsKept(s[..|s| - 1]);
      assert s == s[..|s| - 1] + [s[|s| - 1]];
    }
  }

  lemma PairAtEnd(s: string)
    ensures EndsWith(s, "''") ==> |s| >= 2 && s[|s| - 2] == '\'' && s[|s| - 1] == '\''
  {
    if EndsWith(s, "''") {
      assert s[|s| - 2] == s[|s| - 2..][0] && s[|s| - 1] == s[|s| - 2..][1];
    }
  }

  /** The characters of the value: those of RFC 5987 and the quotes. */
  predicate Listed(c: char) { ValueChar(c) || c == '\'' }

  lemma ListedIsPlain(c: char)
    requires Listed(c)
    ensures c != ';' && !Whitespace(c) && !Slash(c) && !Control(c) && c as int < 128
  {
  }

  lemma PrefixText(lang: string)
    requires LanguageTag(lang)
    ensures var p := Prefix(lang);
            && |p| == |lang| + 7 && p[0] == 'U' && p[5] == '\'' && p[|p| - 1] == '\''
            && (forall i :: 0 <= i < |p| ==> Listed(p[i]) && p[i] != '%')
            && (forall i :: 0 <= i < |p| && p[i] == '\'' ==> i == 5 || i == |p| - 1)
  {
    var p := Prefix(lang);
    forall i | 0 <= i < |p| ensures Listed(p[i]) && p[i] != '%' && (p[i] == '\'' ==> i == 5 || i == |p| - 1) {
      if 6 <= i < |p| - 1 { assert p[i] == lang[i - 6] && TagChar(lang[i - 6]); }
    }
  }

  lemma ValueIsPairFree(lang: string, text: string)
    requires LanguageTag(lang) && lang != "" && ValueChars(text)
    ensures PairFree(Prefix(lang) + text)
  {
    PrefixText(lang);
    var p := Prefix(lang);
    var s := p + text;
    forall i | 0 <= i < |s| - 1 ensures s[i] != '\'' || s[i + 1] != '\'' {
      if i + 1 >= |p| { assert ValueChar(text[i + 1 - |p|]); }
    }
  }

  lemma ValueIsListed(lang: string, text: string)
    requires LanguageTag(lang) && ValueChars(text)
    ensures forall i :: 0 <= i < |Prefix(lang) + text| ==> Listed((Prefix(lang) + text)[i])
  {
    PrefixText(lang);
    var p := Prefix(lang);
    forall i | 0 <= i < |p + text| ensures Listed((p + text)[i]) {
      if i >= |p| { assert ValueChar(text[i - |p|]); }
    }
  }

  /** A text of such characters: no separator in it, nothing to trim, all of it ASCII. */
  lemma ListedIsWhole(s: string)
    requires s != "" && forall i :: 0 <= i < |s| ==> Listed(s[i])
    ensures ';' !in s && Trim(s) == s && Ascii(s)
  {
    forall i | 0 <= i < |s| ensures s[i] != ';' && s[i] as int < 128 { ListedIsPlain(s[i]); }
    ListedIsPlain(s[0]);
    ListedIsPlain(s[|s| - 1]);
    TrimKeeps(s);
  }

  /** What precedes the writing is passed through. */
  lemma {:induction false} UnescapeKeeps(plain: string, text: string, bytes: seq<Byte>)
    requires Ascii(plain + text) && '%' !in plain && Unescape(Encode(text)) == Decoded(bytes)
    ensures Unescape(Encode(plain + text)) == Decoded(Encode(plain) + bytes)
    decreases |plain|
  {
    hide Unescape;
    if plain == "" {
      assert plain + text == text && Encode(plain) + bytes == bytes;
    } else {
      hide Encode;
      var s := plain + text;
      assert s[1..] == plain[1..] + text && s[0] == plain[0];
      UnescapeKeeps(plain[1..], text, bytes);
      UnescapeLetter(s);
      EncodeFirst(plain);
      assert [plain[0] as int] + (Encode(plain[1..]) + bytes) == [plain[0] as int] + Encode(plain[1..]) + bytes;
    }
  }

  lemma EncodeFirst(s: string)
    requires s != "" && s[0] as int < 128
    ensures Encode(s) == [s[0] as int] + Encode(s[1..])
  {
  }

  lemma {:induction false} EncodeConcat(a: string, b: string)
    ensures Encode(a + b) == Encode(a) + Encode(b)
    decreases |a|
  {
    if a == "" {
      assert a + b == b;
    } else {
      EncodeConcat(a[1..], b);
      assert (a + b)[1..] == a[1..] + b;
      assert EncodeChar(a[0]) + (Encode(a[1..]) + Encode(b)) == EncodeChar(a[0]) + Encode(a[1..]) + Encode(b);
    }
  }

  lemma DecodedWithPrefix(lang: string, text: string, name: string)
    requires LanguageTag(lang) && Writes(text, Encode(name))
    ensures DecodedName(Prefix(lang) + text) == NameOf(Sanitize(Prefix(lang) + name))
  {
    hide Unescape, Encode, Sanitize;
    var p := Prefix(lang);
    WritingIsPlain(text, Encode(name));
    PrefixText(lang);
    ValueIsListed(lang, text);
    ListedIsWhole(p + text);
    UnescapeInvertsWriting(text, Encode(name));
    UnescapeKeeps(p, text, Encode(name));
    EncodeConcat(p, name);
    DecodedNameIs(p + text, p + name);
  }

  /** The header names the file after charset, tag and name together. */
  lemma TaggedNameReads(lang: string, text: string, name: string)
    requires LanguageTag(lang) && lang != "" && Writes(text, Encode(name))
    ensures FromContentDisposition(EXT + (Prefix(lang) + text)) == NameOf(Sanitize(Prefix(lang) + name))
  {
    hide AfterQuotes, Trim, TrimWrappingQuotes, DecodedName, PlainName, First, Sanitize, Split;
    var raw := Prefix(lang) + text;
    var part := EXT + raw;
    WritingIsPlain(text, Encode(name));
    PrefixText(lang);
    ValueIsListed(lang, text);
    ValueIsPairFree(lang, text);
    ListedIsWhole(raw);
    PartOfRaw(raw);
    NotWrapped(raw);
    PairFreeIsKept(raw);
    ExtNameIs(part, raw, raw);
    DecodedWithPrefix(lang, text, name);
    SplitWhole(part, ';');
    NotPlain(part);
    FirstOfOne(part, ExtName);
    FirstOfOne(part, PlainName);
  }

  lemma PartOfRaw(raw: string)
    requires raw != "" && ';' !in raw && (forall i :: 0 <= i < |raw| ==> Listed(raw[i]))
    ensures ';' !in EXT + raw && Trim(EXT + raw) == EXT + raw && StartsWith(EXT + raw, EXT)
            && (EXT + raw)[|EXT|..] == raw
  {
    hide Trim, Whitespace;
    ExtText();
    LastOf(EXT, raw);
    QuoteIsNoSpace();
    ListedIsPlain(raw[|raw| - 1]);
    TrimKeeps(EXT + raw);
  }

  // ------------------------------------------------------------------ when it still names the same file

  function Quotes(s: string): nat { multiset(s)['\''] }

  lemma {:induction false} TrimStartKeepsQuotes(s: string)
    ensures Quotes(TrimStart(s)) == Quotes(s)
    decreases |s|
  {
    if s != "" && Whitespace(s[0]) {
      TrimStartKeepsQuotes(s[1..]);
      assert s == [s[0]] + s[1..];
    }
  }

  lemma {:induction false} TrimEndKeepsQuotes(s: string)
    ensures Quotes(TrimEnd(s)) == Quotes(s)
    decreases |s|
  {
    if s != "" && Whitespace(s[|s| - 1]) {
      TrimEndKeepsQuotes(s[..|s| - 1]);
      assert s == s[..|s| - 1] + [s[|s| - 1]];
    }
  }

  lemma {:induction false} ControlsAreNoQuotes(s: string)
    ensures Quotes(WithoutControls(s)) == Quotes(s)
    decreases |s|
  {
    if s != "" {
      ControlsAreNoQuotes(s[..|s| - 1]);
      assert s == s[..|s| - 1] + [s[|s| - 1]];
    }
  }

  lemma TrimKeepsNoSlash(s: string)
    requires NoSlash(s)
    ensures NoSlash(Trim(s))
  {
    TrimIsSlice(s);
  }

  /** Without a slash, sanitising keeps all quotes; a name with a quote has a sanitised form. */
  lemma SanitizeKeepsQuotes(s: string)
    requires NoSlash(s)
    ensures Quotes(s) > 0 ==> Sanitize(s).Some?
    ensures Sanitize(s).Some? ==> Quotes(Sanitize(s).value) == Quotes(s)
  {
    hide TrimStart, TrimEnd, WithoutControls, AfterSlash;
    var trimmed := Trim(s);
    TrimStartKeepsQuotes(s);
    TrimEndKeepsQuotes(TrimStart(s));
    TrimKeepsNoSlash(s);
    AfterSlashHasNone(trimmed);
    TrimStartKeepsQuotes(trimmed);
    TrimEndKeepsQuotes(TrimStart(trimmed));
    ControlsAreNoQuotes(Trim(trimmed));
  }

  lemma {:induction false} TrimEndConcat(a: string, b: string)
    ensures TrimEnd(a + b) == if TrimEnd(b) != "" then a + TrimEnd(b) else TrimEnd(a)
    decreases |b|
  {
    if b == "" {
      assert a + b == a;
    } else if Whitespace(b[|b| - 1]) {
      TrimEndConcat(a, b[..|b| - 1]);
      assert (a + b)[..|a + b| - 1] == a + b[..|b| - 1];
    }
  }

  lemma {:induction false} AfterSlashConcat(a: string, b: string)
    requires !NoSlash(b)
    ensures AfterSlash(a + b) == AfterSlash(b)
    decreases |b|
  {
    var n := |b| - 1;
    assert (a + b)[..|a + b| - 1] == a + b[..n] && (a + b)[|a + b| - 1] == b[n];
    if !Slash(b[n]) {
      assert b == b[..n] + [b[n]];
      AfterSlashConcat(a, b[..n]);
    }
  }

  lemma {:induction false} TrimEndKeepsSlash(s: string)
    ensures NoSlash(TrimEnd(s)) <==> NoSlash(s)
    decreases |s|
  {
    if s != "" && Whitespace(s[|s| - 1]) {
      TrimEndKeepsSlash(s[..|s| - 1]);
      assert s == s[..|s| - 1] + [s[|s| - 1]];
      assert !Slash(s[|s| - 1]);
    }
  }

  lemma {:induction false} TrimStartSplits(s: string) returns (space: string)
    ensures s == space + TrimStart(s) && NoSlash(space)
    decreases |s|
  {
    space := "";
    if s != "" && Whitespace(s[0]) {
      space := TrimStartSplits(s[1..]);
      space := [s[0]] + space;
      assert s == [s[0]] + s[1..];
    }
  }

  /** Behind a last slash nothing else matters, whatever precedes it. */
  lemma LastPartIsSame(lead: string, name: string)
    requires lead != "" && !Whitespace(lead[0]) && !NoSlash(name)
    ensures Sanitize(lead + name) == Sanitize(name)
  {
    hide TrimStart, TrimEnd, AfterSlash, WithoutControls, Whitespace, Slash;
    var space := TrimStartSplits(name);
    var rest := TrimStart(name);
    var last := TrimEnd(rest);
    NoSlashConcat(space, rest);
    TrimEndKeepsSlash(rest);
    TrimEndConcat(lead + space, rest);
    assert lead + name == lead + space + rest;
    StartIsKept(lead + name);
    assert Trim(lead + name) == lead + space + last;
    AfterSlashConcat(lead + space, last);
  }

  lemma StartIsKept(s: string)
    requires s != "" && !Whitespace(s[0])
    ensures TrimStart(s) == s
  {
  }

  lemma NoSlashConcat(a: string, b: string)
    ensures NoSlash(a) && NoSlash(b) ==> NoSlash(a + b)
  {
  }

  /** Exactly when a slash in the name hides what precedes it does a language tag do no harm. */
  lemma TagIsHarmlessExactly(lang: string, name: string)
    requires LanguageTag(lang)
    ensures Sanitize(Prefix(lang) + name) == Sanitize(name) <==> !NoSlash(name)
  {
    hide Sanitize;
    var p := Prefix(lang);
    PrefixText(lang);
    ListedIsPlain(p[0]);
    if NoSlash(name) {
      forall i | 0 <= i < |p| ensures !Slash(p[i]) { ListedIsPlain(p[i]); }
      assert NoSlash(p + name);
      SanitizeKeepsQuotes(name);
      SanitizeKeepsQuotes(p + name);
      assert '\'' in p;
      assert Quotes(p + name) == Quotes(p) + Quotes(name) > Quotes(name);
    } else {
      LastPartIsSame(p, name);
    }
  }

  /**
   The header with any tag names the file as its sender meant, that is by the sanitised name, exactly if the tag is
   empty or the name contains a slash or a backslash.
   */
  lemma TaggedNameIsRightExactly(lang: string, text: string, name: string)
    requires LanguageTag(lang) && Writes(text, Encode(name))
    ensures FromContentDisposition(EXT + (Prefix(lang) + text)) == NameOf(Sanitize(name))
            <==> lang == "" || !NoSlash(name)
  {
    hide FromContentDisposition, Sanitize, Writes;
    if lang == "" {
      assert Prefix(lang) == CHARSET;
      ExtNameRoundTrip(text, name);
    } else {
      TaggedNameReads(lang, text, name);
      TagIsHarmlessExactly(lang, name);
    }
  }

  lemma LetterWrites()
    ensures Writes("a", Encode("a")) && ValueChars("a")
  {
    EncodeFirst("a");
    assert "a"[1..] == "" && Encode("a") == [97] && [97][1..] == [];
  }

  /** One such header: the file `a`, tagged as English. */
  lemma EnglishTagIsKept()
    ensures FromContentDisposition(EXT + (Prefix("en") + "a")) == Named(Prefix("en") + "a")
  {
    hide Writes, Encode, FromContentDisposition, Sanitize, Prefix, Listed;
    var name := Prefix("en") + "a";
    LetterWrites();
    TaggedNameReads("en", "a", "a");
    ValueIsListed("en", "a");
    ListedIsWhole(name);
    forall i | 0 <= i < |name| ensures !Slash(name[i]) && !Control(name[i]) { ListedIsPlain(name[i]); }
    KeptWhenSafe(name);
  }
}
