/** src/utils/formatting.rs: `:key` placeholders are substituted one variable after the other. */
module PatternModel {
  import opened Prelude

  type Vars = seq<(string, string)>

  function Needle(key: string): string {
    ":" + key
  }

  function ApplyPattern(pattern: string, vars: Vars): string {
    if vars == [] then pattern
    else ReplaceAll(ApplyPattern(pattern, vars[..|vars| - 1]), Needle(vars[|vars| - 1].0), vars[|vars| - 1].1)
  }

  method ApplyPatternString(pattern: string, vars: Vars) returns (result: string)
    ensures result == ApplyPattern(pattern, vars)
  {
    result := pattern;
    for i := 0 to |vars|
      invariant result == ApplyPattern(pattern, vars[..i])
    {
      assert vars[..i + 1][..i] == vars[..i];
      result := ReplaceAll(result, Needle(vars[i].0), vars[i].1);
    }
    assert vars[..|vars|] == vars;
  }

  /** The first variable whose key starts the text, or `|vars|`. */
  function FirstMatch(vars: Vars, s: string): (i: nat)
    ensures i <= |vars| && (i < |vars| ==> vars[i].0 <= s) && (forall j :: 0 <= j < i ==> !(vars[j].0 <= s))
  {
    if vars == [] || vars[0].0 <= s then 0 else 1 + FirstMatch(vars[1..], s)
  }

  /** All placeholders substituted at once, left to right. */
  function Simultaneous(pattern: string, vars: Vars): string
    decreases |pattern|
  {
    if pattern == "" then ""
    else
      var i := FirstMatch(vars, pattern[1..]);
      if pattern[0] == ':' && i < |vars|
      then vars[i].1 + Simultaneous(pattern[1 + |vars[i].0|..], vars)
      else [pattern[0]] + Simultaneous(pattern[1..], vars)
  }

  /** What is left of variable `i`'s placeholder when the first `n` variables have been substituted. */
  function Shown(vars: Vars, i: nat, n: nat): string
    requires i < |vars|
  {
    if i < n then vars[i].1 else Needle(vars[i].0)
  }

  /** As `Simultaneous`, but only the first `n` variables are substituted; the others keep their placeholders. */
  function Partly(pattern: string, vars: Vars, n: nat): string
    decreases |pattern|
  {
    if pattern == "" then ""
    else
      var i := FirstMatch(vars, pattern[1..]);
      if pattern[0] == ':' && i < |vars|
      then Shown(vars, i, n) + Partly(pattern[1 + |vars[i].0|..], vars, n)
      else [pattern[0]] + Partly(pattern[1..], vars, n)
  }

  /** No key is a proper prefix of another or contains a colon. */
  predicate KeysClear(vars: Vars) {
    && (forall i, j :: 0 <= i < |vars| && 0 <= j < |vars| && vars[i].0 <= vars[j].0 ==> vars[i].0 == vars[j].0)
    && (forall i :: 0 <= i < |vars| ==> ':' !in vars[i].0)
  }

  /** A colon of the value starts the key's placeholder, or would with the right text behind the value. */
  predicate Hits(value: string, key: string) {
    exists p :: 0 <= p < |value| && HitsAt(value, key, p)
  }

  predicate HitsAt(value: string, key: string, p: nat)
    requires p < |value|
  {
    value[p] == ':' && (Needle(key) <= value[p..] || value[p..] <= Needle(key))
  }

  /** A later variable finds its placeholder in no earlier value, or leaves it as it is. */
  predicate Clear(vars: Vars) {
    && KeysClear(vars)
    && (forall i, n :: 0 <= i < n < |vars| && Hits(vars[i].1, vars[n].0) ==> vars[n].1 == Needle(vars[n].0))
  }

  /** Every colon of the pattern starts a declared key. */
  predicate ColonsDeclared(pattern: string, vars: Vars) {
    forall i :: 0 <= i < |pattern| && pattern[i] == ':' ==> FirstMatch(vars, pattern[i + 1..]) < |vars|
  }

  lemma SuffixDeclared(pattern: string, vars: Vars, k: nat)
    requires ColonsDeclared(pattern, vars) && k <= |pattern|
    ensures ColonsDeclared(pattern[k..], vars)
  {
    forall i | 0 <= i < |pattern[k..]| && pattern[k..][i] == ':'
      ensures FirstMatch(vars, pattern[k..][i + 1..]) < |vars|
    {
      assert pattern[k..][i + 1..] == pattern[k + i + 1..];
    }
  }

  /** A placeholder of another variable is passed over. */
  lemma OtherPlaceholder(vars: Vars, i: nat, n: nat, rest: string)
    requires KeysClear(vars) && i < |vars| && n < |vars| && vars[i].0 != vars[n].0
    ensures ReplaceAll(Needle(vars[i].0) + rest, Needle(vars[n].0), vars[n].1)
         == Needle(vars[i].0) + ReplaceAll(rest, Needle(vars[n].0), vars[n].1)
  {
    var a, b := vars[i].0, vars[n].0;
    var s := Needle(a) + rest;
    assert s[1..] == a + rest;
    NoHit(a, b, rest);
    ReplaceSkips(a, rest, Needle(b), vars[n].1);
    assert [':'] + (a + ReplaceAll(rest, Needle(b), vars[n].1)) == Needle(a) + ReplaceAll(rest, Needle(b), vars[n].1);
  }

  lemma NoHit(a: string, b: string, rest: string)
    requires !(a <= b) && !(b <= a)
    ensures !(Needle(b) <= Needle(a) + rest)
  {
    if |a| <= |b| {
      var k :| 0 <= k < |a| && a[k] != b[k];
      assert (Needle(a) + rest)[k + 1] == a[k] && Needle(b)[k + 1] == b[k];
    } else {
      var k :| 0 <= k < |b| && a[k] != b[k];
      assert (Needle(a) + rest)[k + 1] == a[k] && Needle(b)[k + 1] == b[k];
    }
  }

  /** A value that is not hit is passed over. */
  lemma {:induction false} UnhitStays(value: string, rest: string, key: string, rep: string)
    requires !Hits(value, key)
    ensures ReplaceAll(value + rest, Needle(key), rep) == value + ReplaceAll(rest, Needle(key), rep)
    decreases |value|
  {
    hide Hits, ReplaceAll;
    var r := ReplaceAll(rest, Needle(key), rep);
    if value == "" {
      assert value + rest == rest && value + r == r;
    } else {
      UnhitHead(value, rest, key);
      ReplaceMiss(value + rest, Needle(key), rep);
      assert (value + rest)[0] == value[0] && (value + rest)[1..] == value[1..] + rest;
      UnhitStays(value[1..], rest, key, rep);
      assert value + r == [value[0]] + (value[1..] + r);
    }
  }

  lemma ReplaceMiss(s: string, pat: string, rep: string)
    requires s != "" && pat != "" && !(pat <= s)
    ensures ReplaceAll(s, pat, rep) == [s[0]] + ReplaceAll(s[1..], pat, rep)
  {
  }

  lemma UnhitHead(value: string, rest: string, key: string)
    requires value != "" && !Hits(value, key)
    ensures !(Needle(key) <= value + rest) && !Hits(value[1..], key)
  {
    assert !HitsAt(value, key, 0) && value[0..] == value;
    if Needle(key) <= value + rest { NotFirst(value, rest, key); }
    forall p | 0 <= p < |value[1..]| ensures !HitsAt(value[1..], key, p) {
      assert value[1..][p..] == value[p + 1..] && !HitsAt(value, key, p + 1);
    }
  }

  lemma NotFirst(value: string, rest: string, key: string)
    requires value != "" && Needle(key) <= value + rest
    ensures value[0] == ':' && (Needle(key) <= value || value <= Needle(key))
  {
    var s := value + rest;
    assert s[0] == Needle(key)[0] && s[0] == value[0];
    if |value| <= |Needle(key)| {
      assert value == s[..|value|] && Needle(key)[..|value|] == s[..|value|];
    } else {
      assert Needle(key) == s[..|Needle(key)|] && value[..|Needle(key)|] == s[..|Needle(key)|];
    }
  }

  lemma {:induction false} ReplaceBySame(s: string, pat: string)
    requires pat != ""
    ensures ReplaceAll(s, pat, pat) == s
    decreases |s|
  {
    if s != "" {
      if pat <= s {
        ReplaceBySame(s[|pat|..], pat);
        assert s == pat + s[|pat|..];
      } else {
        ReplaceBySame(s[1..], pat);
        assert s == [s[0]] + s[1..];
      }
    }
  }

  /** A value already substituted is passed over. */
  lemma ValueStays(vars: Vars, i: nat, n: nat, rest: string)
    requires Clear(vars) && i < n < |vars|
    ensures ReplaceAll(vars[i].1 + rest, Needle(vars[n].0), vars[n].1)
         == vars[i].1 + ReplaceAll(rest, Needle(vars[n].0), vars[n].1)
  {
    hide Hits, KeysClear, ReplaceAll;
    if Hits(vars[i].1, vars[n].0) {
      ReplaceBySame(vars[i].1 + rest, Needle(vars[n].0));
      ReplaceBySame(rest, Needle(vars[n].0));
    } else {
      UnhitStays(vars[i].1, rest, vars[n].0, vars[n].1);
    }
  }

  lemma ShownStep(vars: Vars, i: nat, n: nat, rest: string)
    requires Clear(vars) && i < |vars| && n < |vars| && (i > n ==> vars[i].0 != vars[n].0)
    ensures ReplaceAll(Shown(vars, i, n) + rest, Needle(vars[n].0), vars[n].1)
         == Shown(vars, i, n + 1) + ReplaceAll(rest, Needle(vars[n].0), vars[n].1)
  {
    hide KeysClear, Hits, ReplaceAll;
    if i < n {
      ValueStays(vars, i, n, rest);
    } else if i == n {
      ReplaceHit(Needle(vars[n].0), rest, vars[n].1);
    } else {
      OtherPlaceholder(vars, i, n, rest);
    }
  }

  /** A colon of the pattern starts the placeholder of the first variable that matches. */
  lemma PartlyColon(pattern: string, vars: Vars, n: nat)
    requires ColonsDeclared(pattern, vars) && pattern != "" && pattern[0] == ':'
    ensures var i := FirstMatch(vars, pattern[1..]);
            && i < |vars| && 1 + |vars[i].0| <= |pattern|
            && Partly(pattern, vars, n) == Shown(vars, i, n) + Partly(pattern[1 + |vars[i].0|..], vars, n)
  {
    assert pattern[0 + 1..] == pattern[1..];
  }

  /** Any other character stands for itself. */
  lemma PartlyOther(pattern: string, vars: Vars, n: nat)
    ensures pattern == "" ==> Partly(pattern, vars, n) == ""
    ensures pattern != "" && pattern[0] != ':' ==>
              Partly(pattern, vars, n) == [pattern[0]] + Partly(pattern[1..], vars, n)
  {
  }

  /** And is passed over by every replacement. */
  lemma OtherCharacter(c: char, rest: string, vars: Vars, n: nat)
    requires c != ':' && n < |vars|
    ensures ReplaceAll([c] + rest, Needle(vars[n].0), vars[n].1) == [c] + ReplaceAll(rest, Needle(vars[n].0), vars[n].1)
  {
    ReplaceSkips([c], rest, Needle(vars[n].0), vars[n].1);
  }

  lemma ReplaceNothing(pat: string, rep: string)
    requires pat != ""
    ensures ReplaceAll("", pat, rep) == ""
  {
  }

  /** Replacing the next variable's placeholder everywhere substitutes that variable and nothing else. */
  lemma {:induction false} NextVariable(pattern: string, vars: Vars, n: nat)
    requires Clear(vars) && ColonsDeclared(pattern, vars) && n < |vars|
    ensures ReplaceAll(Partly(pattern, vars, n), Needle(vars[n].0), vars[n].1) == Partly(pattern, vars, n + 1)
    decreases |pattern|
  {
    hide Clear, ColonsDeclared, ReplaceAll, Shown, Partly;
    PartlyOther(pattern, vars, n);
    PartlyOther(pattern, vars, n + 1);
    if pattern == "" {
      ReplaceNothing(Needle(vars[n].0), vars[n].1);
    } else if pattern[0] == ':' {
      var i := FirstMatch(vars, pattern[1..]);
      PartlyColon(pattern, vars, n);
      PartlyColon(pattern, vars, n + 1);
      var rest := pattern[1 + |vars[i].0|..];
      SuffixDeclared(pattern, vars, 1 + |vars[i].0|);
      NextVariable(rest, vars, n);
      ShownStep(vars, i, n, Partly(rest, vars, n));
    } else {
      SuffixDeclared(pattern, vars, 1);
      NextVariable(pattern[1..], vars, n);
      OtherCharacter(pattern[0], Partly(pattern[1..], vars, n), vars, n);
    }
  }

  lemma SplitPlaceholder(pattern: string, key: string)
    requires pattern != "" && pattern[0] == ':' && key <= pattern[1..]
    ensures Needle(key) + pattern[1 + |key|..] == pattern
  {
    assert pattern[1..] == key + pattern[1..][|key|..];
  }

  lemma {:induction false} NothingYet(pattern: string, vars: Vars)
    ensures Partly(pattern, vars, 0) == pattern
    decreases |pattern|
  {
    if pattern != "" {
      var i := FirstMatch(vars, pattern[1..]);
      if pattern[0] == ':' && i < |vars| {
        NothingYet(pattern[1 + |vars[i].0|..], vars);
        SplitPlaceholder(pattern, vars[i].0);
      } else {
        NothingYet(pattern[1..], vars);
        assert pattern == [pattern[0]] + pattern[1..];
      }
    }
  }

  lemma {:induction false} EverythingNow(pattern: string, vars: Vars)
    ensures Partly(pattern, vars, |vars|) == Simultaneous(pattern, vars)
    decreases |pattern|
  {
    if pattern != "" {
      var i := FirstMatch(vars, pattern[1..]);
      if pattern[0] == ':' && i < |vars| { EverythingNow(pattern[1 + |vars[i].0|..], vars); }
      else { EverythingNow(pattern[1..], vars); }
    }
  }

  lemma {:induction false} PrefixOfVariables(pattern: string, vars: Vars, n: nat)
    requires Clear(vars) && ColonsDeclared(pattern, vars) && n <= |vars|
    ensures ApplyPattern(pattern, vars[..n]) == Partly(pattern, vars, n)
    decreases n
  {
    if n == 0 {
      NothingYet(pattern, vars);
    } else {
      assert vars[..n][..n - 1] == vars[..n - 1];
      PrefixOfVariables(pattern, vars, n - 1);
      NextVariable(pattern, vars, n - 1);
    }
  }

  /** Substituting the variables one after the other equals substituting them all at once. */
  lemma SequentialIsSimultaneous(pattern: string, vars: Vars)
    requires Clear(vars) && ColonsDeclared(pattern, vars)
    ensures ApplyPattern(pattern, vars) == Simultaneous(pattern, vars)
  {
    PrefixOfVariables(pattern, vars, |vars|);
    assert vars[..|vars|] == vars;
    EverythingNow(pattern, vars);
  }

  /** The same variables, perhaps in another order. */
  ghost predicate SameVariables(vars: Vars, other: Vars) {
    && (forall v :: v in vars <==> v in other)
    && (forall i, j :: 0 <= i < |vars| && 0 <= j < |vars| && vars[i].0 == vars[j].0 ==> vars[i] == vars[j])
  }

  lemma {:induction false} SimultaneousHasNoOrder(pattern: string, vars: Vars, other: Vars)
    requires KeysClear(vars) && SameVariables(vars, other)
    ensures Simultaneous(pattern, vars) == Simultaneous(pattern, other)
    decreases |pattern|
  {
    hide KeysClear, SameVariables, FirstMatch;
    if pattern != "" {
      var i, j := FirstMatch(vars, pattern[1..]), FirstMatch(other, pattern[1..]);
      SameMatch(vars, other, pattern[1..]);
      if pattern[0] == ':' && i < |vars| {
        SimultaneousHasNoOrder(pattern[1 + |vars[i].0|..], vars, other);
      } else {
        SimultaneousHasNoOrder(pattern[1..], vars, other);
      }
    }
  }

  lemma SameMatch(vars: Vars, other: Vars, s: string)
    requires KeysClear(vars) && SameVariables(vars, other)
    ensures var i, j := FirstMatch(vars, s), FirstMatch(other, s);
            (i < |vars| <==> j < |other|) && (i < |vars| ==> vars[i] == other[j])
  {
    var i, j := FirstMatch(vars, s), FirstMatch(other, s);
    if i < |vars| {
      assert vars[i] in other;
      var k :| 0 <= k < |other| && other[k] == vars[i];
      assert j <= k;
    }
    if j < |other| {
      assert other[j] in vars;
      var k :| 0 <= k < |vars| && vars[k] == other[j];
      assert i <= k;
      assert vars[i].0 <= vars[k].0 || vars[k].0 <= vars[i].0;
    }
  }

  /** The result does not depend on the order in which the variables are given. */
  lemma OrderDoesNotMatter(pattern: string, vars: Vars, other: Vars)
    requires Clear(vars) && Clear(other) && SameVariables(vars, other)
    requires ColonsDeclared(pattern, vars) && ColonsDeclared(pattern, other)
    ensures ApplyPattern(pattern, vars) == ApplyPattern(pattern, other)
  {
    SequentialIsSimultaneous(pattern, vars);
    SequentialIsSimultaneous(pattern, other);
    SimultaneousHasNoOrder(pattern, vars, other);
  }

  // ------------------------------------------------------------------ exactly when, for two variables

  lemma {:induction false} ReplacingGrows(s: string, pat: string, rep: string)
    requires pat != ""
    ensures |rep| >= |pat| ==> |ReplaceAll(s, pat, rep)| >= |s|
    ensures |rep| <= |pat| ==> |ReplaceAll(s, pat, rep)| <= |s|
    decreases |s|
  {
    if s != "" { ReplacingGrows(if pat <= s then s[|pat|..] else s[1..], pat, rep); }
  }

  /** Replacing something that occurs by something else changes the text. */
  lemma {:induction false} ReplacingChanges(s: string, pat: string, rep: string, p: nat)
    requires pat != "" && rep != pat && p <= |s| && pat <= s[p..]
    ensures ReplaceAll(s, pat, rep) != s
    ensures |rep| > |pat| ==> |ReplaceAll(s, pat, rep)| > |s|
    ensures |rep| < |pat| ==> |ReplaceAll(s, pat, rep)| < |s|
    decreases |s|
  {
    var r := ReplaceAll(s, pat, rep);
    if pat <= s {
      ReplacingGrows(s[|pat|..], pat, rep);
      if |rep| == |pat| { assert r[..|pat|] == rep && s[..|pat|] == pat; }
    } else {
      assert s[1..][p - 1..] == s[p..];
      ReplacingChanges(s[1..], pat, rep, p - 1);
      assert r == [s[0]] + ReplaceAll(s[1..], pat, rep) && r[1..] == ReplaceAll(s[1..], pat, rep);
    }
  }

  /** Where a value is hit, some text behind it completes the placeholder. */
  lemma Completion(value: string, key: string) returns (text: string, p: nat)
    requires Hits(value, key) && ':' !in key
    ensures ':' !in text && p <= |value + text| && Needle(key) <= (value + text)[p..]
  {
    var q :| 0 <= q < |value| && HitsAt(value, key, q);
    p := q;
    if Needle(key) <= value[p..] {
      text := "";
      assert value + text == value;
    } else {
      var k := |value| - p;
      text := Needle(key)[k..];
      assert text == key[k - 1..];
      assert (value + text)[p..] == value[p..] + text && value[p..] == Needle(key)[..k];
      assert Needle(key)[..k] + text == Needle(key);
    }
  }

  lemma ColonlessStays(text: string, key: string, rep: string)
    requires ':' !in text
    ensures ReplaceAll(text, Needle(key), rep) == text
  {
    ReplaceSkips(text, "", Needle(key), rep);
    assert text + "" == text;
  }

  lemma {:induction false} ColonlessMeansItself(text: string, vars: Vars)
    requires ':' !in text
    ensures Simultaneous(text, vars) == text
    decreases |text|
  {
    if text != "" {
      ColonlessMeansItself(text[1..], vars);
      assert text == [text[0]] + text[1..];
    }
  }

  /** The first variable's placeholder with a completing text behind it: the second variable rewrites the value. */
  lemma HitIsSeen(v: (string, string), w: (string, string)) returns (pattern: string)
    requires KeysClear([v, w]) && Hits(v.1, w.0) && w.1 != Needle(w.0)
    ensures ColonsDeclared(pattern, [v, w]) && ColonsDeclared(pattern, [w, v])
    ensures ApplyPattern(pattern, [v, w]) != Simultaneous(pattern, [v, w])
    ensures v.0 != w.0 ==> ApplyPattern(pattern, [w, v]) == Simultaneous(pattern, [v, w])
  {
    assert [v, w][0] == v && [v, w][1] == w;
    var text, p := Completion(v.1, w.0);
    pattern := Needle(v.0) + text;
    OnlyColon(v, w, text);
    ApplyTwo(pattern, v, w);
    ApplyTwo(pattern, w, v);
    ReplaceHit(Needle(v.0), text, v.1);
    ColonlessStays(text, v.0, v.1);
    ColonlessStays(text, w.0, w.1);
    ReplacingChanges(v.1 + text, Needle(w.0), w.1, p);
    if v.0 != w.0 { OtherPlaceholder([v, w], 0, 1, text); }
  }

  lemma OnlyColon(v: (string, string), w: (string, string), text: string)
    requires ':' !in v.0 && ':' !in text
    ensures ColonsDeclared(Needle(v.0) + text, [v, w]) && ColonsDeclared(Needle(v.0) + text, [w, v])
    ensures Simultaneous(Needle(v.0) + text, [v, w]) == v.1 + text
  {
    var s := Needle(v.0) + text;
    assert s[1..] == v.0 + text && s[1 + |v.0|..] == text;
    ColonlessMeansItself(text, [v, w]);
    assert [w, v][1..] == [v];
    assert forall i :: 0 < i < |s| ==> s[i] == (v.0 + text)[i - 1];
  }

  lemma ApplyTwo(pattern: string, v: (string, string), w: (string, string))
    ensures ApplyPattern(pattern, [v, w])
         == ReplaceAll(ReplaceAll(pattern, Needle(v.0), v.1), Needle(w.0), w.1)
  {
    assert [v, w][..1] == [v] && [v][..0] == [];
    assert ApplyPattern(pattern, [v]) == ReplaceAll(pattern, Needle(v.0), v.1);
  }

  /** Two variables give what substituting them at once gives, in every pattern, exactly if they are clear. */
  lemma SimultaneousExactly(v: (string, string), w: (string, string))
    requires KeysClear([v, w])
    ensures Clear([v, w]) <==>
              forall pattern :: ColonsDeclared(pattern, [v, w]) ==>
                ApplyPattern(pattern, [v, w]) == Simultaneous(pattern, [v, w])
  {
    hide ApplyPattern, Simultaneous, KeysClear, Hits, ColonsDeclared;
    SwappedKeys(v, w);
    if Clear([v, w]) {
      forall pattern | ColonsDeclared(pattern, [v, w])
        ensures ApplyPattern(pattern, [v, w]) == Simultaneous(pattern, [v, w])
      {
        SequentialIsSimultaneous(pattern, [v, w]);
      }
    } else {
      var pattern := HitIsSeen(v, w);
    }
  }

  /** Two of the variables, in their order, substitute as if at once in every pattern. */
  ghost predicate PairIsSimultaneous(vars: Vars, i: nat, n: nat)
    requires i < n < |vars|
  {
    var pair := [vars[i], vars[n]];
    forall pattern :: ColonsDeclared(pattern, pair) ==> ApplyPattern(pattern, pair) == Simultaneous(pattern, pair)
  }

  /** For any number of variables: they are clear exactly if every two of them substitute as if at once. */
  lemma ClearExactly(vars: Vars)
    requires KeysClear(vars)
    ensures Clear(vars) <==> forall i, n :: 0 <= i < n < |vars| ==> PairIsSimultaneous(vars, i, n)
  {
    hide Hits;
    forall i, n | 0 <= i < n < |vars|
      ensures PairIsSimultaneous(vars, i, n) <==> (Hits(vars[i].1, vars[n].0) ==> vars[n].1 == Needle(vars[n].0))
    {
      assert KeysClear([vars[i], vars[n]]);
      SimultaneousExactly(vars[i], vars[n]);
      SwappedKeys(vars[i], vars[n]);
    }
  }

  /** And their order makes no difference, in any pattern, exactly if they are clear both ways. */
  lemma OrderMattersExactly(v: (string, string), w: (string, string))
    requires KeysClear([v, w]) && v.0 != w.0
    ensures Clear([v, w]) && Clear([w, v]) <==>
              forall pattern :: ColonsDeclared(pattern, [v, w]) ==>
                ApplyPattern(pattern, [v, w]) == ApplyPattern(pattern, [w, v])
  {
    hide ApplyPattern, Simultaneous, KeysClear, Hits, ColonsDeclared;
    SwappedKeys(v, w);
    forall pattern | ColonsDeclared(pattern, [v, w]) ensures ColonsDeclared(pattern, [w, v]) {
      SwappedColons(pattern, v, w);
    }
    if Clear([v, w]) && Clear([w, v]) {
      forall pattern | ColonsDeclared(pattern, [v, w])
        ensures ApplyPattern(pattern, [v, w]) == ApplyPattern(pattern, [w, v])
      {
        OrderDoesNotMatter(pattern, [v, w], [w, v]);
      }
    } else if !Clear([v, w]) {
      var pattern := HitIsSeen(v, w);
    } else {
      var pattern := HitIsSeen(w, v);
    }
  }

  lemma SwappedKeys(v: (string, string), w: (string, string))
    requires KeysClear([v, w])
    ensures KeysClear([w, v]) && (v.0 != w.0 ==> SameVariables([v, w], [w, v]))
    ensures Clear([v, w]) <==> (Hits(v.1, w.0) ==> w.1 == Needle(w.0))
    ensures Clear([w, v]) <==> (Hits(w.1, v.0) ==> v.1 == Needle(v.0))
  {
    hide Hits;
    assert [v, w][0] == v && [v, w][1] == w && [w, v][0] == w && [w, v][1] == v;
  }

  lemma SwappedColons(pattern: string, v: (string, string), w: (string, string))
    requires ColonsDeclared(pattern, [v, w])
    ensures ColonsDeclared(pattern, [w, v])
  {
    assert [v, w][1..] == [w] && [w, v][1..] == [v];
  }

  /** With a colon in a value the order does matter. */
  lemma ColonInValueMatters()
    ensures ApplyPattern(":a", [("a", ":b"), ("b", "x")]) == "x"
    ensures ApplyPattern(":a", [("b", "x"), ("a", ":b")]) == ":b"
  {
    var v, w := ("a", ":b"), ("b", "x");
    assert ReplaceAll("", ":a", ":b") == "" && ReplaceAll("", ":b", "x") == "";
    ReplaceHit(":a", "", ":b");
    ReplaceHit(":b", "", "x");
    assert ":a" + "" == ":a" && ":b" + "" == ":b";
    assert [v, w][..1] == [v] && [v][..0] == [] && [w, v][..1] == [w] && [w][..0] == [];
    assert ApplyPattern(":a", [v]) == ":b";
    ReplaceSkips("a", "", ":b", "x");
    assert !(":b" <= ":a") by { assert ":a"[1] == 'a' && ":b"[1] == 'b'; }
    assert ":a"[1..] == "a" && "a" + "" == "a";
    assert ApplyPattern(":a", [w]) == ":a";
  }
}
