/** `sanitize_markdown` (src/parsers/common.rs): a backslash before every special character that has none yet. */
module MarkdownModel {
  predicate Special(c: char) {
    c == '*' || c == '_' || c == '~' || c == '`' || c == '|'
  }

  /** The text starts with an escape pair: a backslash and the character it protects. */
  predicate StartsPair(s: string) {
    |s| >= 2 && s[0] == '\\'
  }

  function Sanitized(text: string): string {
    if text == "" then ""
    else if StartsPair(text) then text[..2] + Sanitized(text[2..])
    else (if Special(text[0]) then ['\\', text[0]] else [text[0]]) + Sanitized(text[1..])
  }

  /** Every special character is the second half of an escape pair. */
  predicate AllEscaped(s: string) {
    s == ""
    || (if StartsPair(s) then AllEscaped(s[2..]) else !Special(s[0]) && AllEscaped(s[1..]))
  }

  /** The text meant: the backslash of each pair is dropped. */
  function Meaning(s: string): string {
    if s == "" then ""
    else if StartsPair(s) then [s[1]] + Meaning(s[2..])
    else [s[0]] + Meaning(s[1..])
  }

  /** The five characters that are escaped. */
  lemma SpecialCharacters(c: char)
    ensures Sanitized([c]) == if c in "*_~`|" then ['\\', c] else [c]
  {
    assert [c][1..] == "" && Sanitized("") == "";
    var five := "*_~`|";
    assert five[0] == '*' && five[1] == '_' && five[2] == '~' && five[3] == '`' && five[4] == '|';
  }

  method SanitizeMarkdown(text: string) returns (result: string)
    ensures result == Sanitized(text)
  {
    hide Sanitized;
    result := "";
    var i := 0;
    EmptySanitized(result, text[i..]);
    while i < |text|
      invariant 0 <= i <= |text|
      invariant result + Sanitized(text[i..]) == Sanitized(text)
    {
      var c := text[i];
      if c == '\\' && i + 1 < |text| {
        TakePair(result, text, i);
        result := result + [c];
        result := result + [text[i + 1]];
        i := i + 2;
        continue;
      }
      TakeChar(result, text, i);
      if c == '*' || c == '_' || c == '~' || c == '`' || c == '|' {
        result := result + ['\\'];
      }
      result := result + [c];
      i := i + 1;
    }
    EmptySanitized(result, text[i..]);
  }

  lemma EmptySanitized(result: string, rest: string)
    ensures rest == "" ==> result + Sanitized(rest) == result
    ensures result == "" ==> result + Sanitized(rest) == Sanitized(rest)
  {
  }

  lemma TakePair(result: string, text: string, i: nat)
    requires i + 1 < |text| && text[i] == '\\'
    ensures result + Sanitized(text[i..]) == result + [text[i]] + [text[i + 1]] + Sanitized(text[i + 2..])
  {
    var rest := text[i..];
    assert rest[2..] == text[i + 2..] && rest[..2] == [text[i]] + [text[i + 1]];
  }

  lemma TakeChar(result: string, text: string, i: nat)
    requires i < |text| && !StartsPair(text[i..])
    ensures result + Sanitized(text[i..])
         == (if Special(text[i]) then result + ['\\'] else result) + [text[i]] + Sanitized(text[i + 1..])
  {
    var rest := text[i..];
    assert rest[1..] == text[i + 1..] && rest[0] == text[i];
  }

  lemma {:induction false} SanitizedIsEmpty(text: string)
    ensures Sanitized(text) == "" <==> text == ""
    decreases |text|
  {
  }

  /** Sanitising escapes every special character and keeps the meaning. */
  lemma {:induction false} SanitizedIsEscaped(text: string)
    ensures AllEscaped(Sanitized(text)) && Meaning(Sanitized(text)) == Meaning(text)
    decreases |text|
  {
    if text != "" {
      var s := Sanitized(text);
      if StartsPair(text) {
        SanitizedIsEscaped(text[2..]);
        assert s[2..] == Sanitized(text[2..]) && StartsPair(s) && s[1] == text[1];
      } else {
        SanitizedIsEscaped(text[1..]);
        if Special(text[0]) {
          assert s[2..] == Sanitized(text[1..]) && StartsPair(s) && s[1] == text[0];
        } else {
          SanitizedIsEmpty(text[1..]);
          assert s[1..] == Sanitized(text[1..]) && !StartsPair(s);
        }
      }
    }
  }

  /** Text is left unchanged exactly when every special character in it is escaped already. */
  lemma {:induction false} UnchangedWhenEscaped(text: string)
    ensures Sanitized(text) == text <==> AllEscaped(text)
    ensures |Sanitized(text)| >= |text|
    decreases |text|
  {
    if text != "" {
      var s := Sanitized(text);
      if StartsPair(text) {
        UnchangedWhenEscaped(text[2..]);
        assert text == text[..2] + text[2..];
        assert s[2..] == Sanitized(text[2..]);
      } else {
        UnchangedWhenEscaped(text[1..]);
        assert text == [text[0]] + text[1..];
        if !Special(text[0]) { assert s[1..] == Sanitized(text[1..]); }
      }
    }
  }

  /** Sanitising twice is the same as sanitising once. */
  lemma {:induction false} SanitizingIsIdempotent(text: string)
    ensures Sanitized(Sanitized(text)) == Sanitized(text)
  {
    SanitizedIsEscaped(text);
    UnchangedWhenEscaped(Sanitized(text));
  }
}
