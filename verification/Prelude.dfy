/** Small shared datatypes and string helpers. */
module Prelude {

  datatype Option<+T> = None | Some(value: T)

  method PickAny<T>(s: set<T>) returns (x: T)
    requires s != {}
    ensures x in s
  {
    x :| x in s;
  }

  predicate StartsWith(s: string, prefix: string) {
    prefix <= s
  }

  predicate EndsWith(s: string, suffix: string) {
    |suffix| <= |s| && s[|s| - |suffix|..] == suffix
  }

  /** Index of the first occurrence of `c`, or the length. */
  function IndexOf(s: string, c: char): (i: nat)
    ensures i <= |s| && (i < |s| ==> s[i] == c) && (forall k :: 0 <= k < i ==> s[k] != c)
  {
    if s == "" || s[0] == c then 0 else 1 + IndexOf(s[1..], c)
  }

  /** `str::replace`: every leftmost, non-overlapping occurrence of `pat` becomes `rep`. */
  function ReplaceAll(s: string, pat: string, rep: string): string
    requires pat != ""
    decreases |s|
  {
    if s == "" then ""
    else if pat <= s then rep + ReplaceAll(s[|pat|..], pat, rep)
    else [s[0]] + ReplaceAll(s[1..], pat, rep)
  }

  /** Text without the first character of the pattern is passed over. */
  lemma {:induction false} ReplaceSkips(skipped: string, rest: string, pat: string, rep: string)
    requires pat != "" && pat[0] !in skipped
    ensures ReplaceAll(skipped + rest, pat, rep) == skipped + ReplaceAll(rest, pat, rep)
    decreases |skipped|
  {
    var s := skipped + rest;
    if skipped == "" {
      assert s == rest && skipped + ReplaceAll(rest, pat, rep) == ReplaceAll(rest, pat, rep);
    } else {
      assert s[0] == skipped[0] && s[1..] == skipped[1..] + rest;
      assert !(pat <= s) by { assert s[0] != pat[0]; }
      ReplaceSkips(skipped[1..], rest, pat, rep);
      assert skipped + ReplaceAll(rest, pat, rep) == [skipped[0]] + (skipped[1..] + ReplaceAll(rest, pat, rep));
    }
  }

  lemma ReplaceHit(pat: string, rest: string, rep: string)
    requires pat != ""
    ensures ReplaceAll(pat + rest, pat, rep) == rep + ReplaceAll(rest, pat, rep)
  {
    assert (pat + rest)[|pat|..] == rest;
  }

  /** `slice::join` */
  function Join(parts: seq<string>, sep: string): string {
    if |parts| == 0 then ""
    else if |parts| == 1 then parts[0]
    else Join(parts[..|parts| - 1], sep) + sep + parts[|parts| - 1]
  }

  function Digits(n: nat): string {
    if n < 10 then ['0' + n as char] else Digits(n / 10) + ['0' + (n % 10) as char]
  }

  /** Decimal rendering of an integer, as `format!("{}", n)` prints it. */
  function IntToString(n: int): string {
    if n < 0 then "-" + Digits(-n) else Digits(n)
  }

  /** The number a text of decimal digits writes. */
  function DecimalValue(s: string): int {
    if s == "" then 0 else DecimalValue(s[..|s| - 1]) * 10 + (s[|s| - 1] as int - '0' as int)
  }

  /** Printed numbers are read back: digits only, without a leading zero. */
  lemma {:induction false} PrintedNumbersAreRead(n: nat)
    ensures DecimalValue(Digits(n)) == n && Digits(n) != "" && (n > 0 ==> Digits(n)[0] != '0')
    ensures forall c :: c in Digits(n) ==> '0' <= c <= '9'
  {
    var last := ['0' + (n % 10) as char];
    if n >= 10 {
      PrintedNumbersAreRead(n / 10);
      assert Digits(n)[..|Digits(n)| - 1] == Digits(n / 10);
    } else {
      assert last[..0] == "" && DecimalValue("") == 0;
    }
  }

  /** Negative numbers have a sign before their digits. */
  lemma SignsArePrinted(n: int)
    ensures n >= 0 ==> IntToString(n) == Digits(n)
    ensures n < 0 ==> IntToString(n) == "-" + Digits(-n)
  {
  }
}
