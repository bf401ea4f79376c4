/** Well-nestedness of HTML, character by character. */
module NestingModel {
  import opened Prelude
  import opened HtmlModel

  function TagName(tag: string): string {
    tag[..IndexOf(tag, ' ')]
  }

  /** The effect of the tag `<tag>` on the stack of open elements, or `None` if it may not occur there. */
  function ApplyTag(tag: string, stack: seq<string>, names: set<string>): Option<seq<string>> {
    if tag == "" then None
    else if tag[0] == '/' then
      if stack != [] && stack[|stack| - 1] == tag[1..] then Some(stack[..|stack| - 1]) else None
    else if tag[|tag| - 1] == '/' then
      if TagName(tag[..|tag| - 1]) in names then Some(stack) else None
    else
      if TagName(tag) in names then Some(stack + [TagName(tag)]) else None
  }

  /**
   Reads the whole string: `None` if a tag is unfinished, unknown, or closes another element than the innermost open
   one; otherwise the elements left open.
   */
  function Scan(s: string, stack: seq<string>, names: set<string>): Option<seq<string>>
    decreases |s|
  {
    if s == "" then Some(stack)
    else if s[0] != '<' then Scan(s[1..], stack, names)
    else
      var j := IndexOf(s, '>');
      if j == |s| then None else
      var next := ApplyTag(s[1..j], stack, names);
      if next.None? then None else Scan(s[j + 1..], next.value, names)
  }

  /** Wherever it is put, the string closes every element it opens and no other, using only known element names. */
  ghost predicate Balanced(s: string, names: set<string>) {
    forall stack :: Scan(s, stack, names) == Some(stack)
  }

  /** One character or one tag is read. */
  lemma ScanFirst(s: string, stack: seq<string>, names: set<string>)
    requires s != ""
    ensures s[0] != '<' ==> Scan(s, stack, names) == Scan(s[1..], stack, names)
    ensures s[0] == '<' ==>
      var j := IndexOf(s, '>');
      if j == |s| || ApplyTag(s[1..j], stack, names).None? then Scan(s, stack, names).None?
      else Scan(s, stack, names) == Scan(s[j + 1..], ApplyTag(s[1..j], stack, names).value, names)
  {
  }

  /** The first tag of `a` is the first tag of `a + b`. */
  lemma FirstTagConcat(a: string, b: string)
    requires a != "" && a[0] == '<' && IndexOf(a, '>') < |a|
    ensures var j := IndexOf(a, '>');
            && IndexOf(a + b, '>') == j && j > 0 && (a + b)[1..j] == a[1..j] && (a + b)[j + 1..] == a[j + 1..] + b
  {
    IndexOfConcat(a, b, '>');
    assert a[IndexOf(a, '>')] == '>';
  }

  lemma {:induction false} ScanConcat(a: string, b: string, stack: seq<string>, names: set<string>)
    requires Scan(a, stack, names).Some?
    ensures Scan(a + b, stack, names) == Scan(b, Scan(a, stack, names).value, names)
    decreases |a|
  {
    if a == "" {
      assert a + b == b;
    } else {
      hide Scan, ApplyTag, IndexOf;
      ScanFirst(a, stack, names);
      ScanFirst(a + b, stack, names);
      if a[0] != '<' {
        assert (a + b)[1..] == a[1..] + b;
        ScanConcat(a[1..], b, stack, names);
      } else {
        var j := IndexOf(a, '>');
        FirstTagConcat(a, b);
        ScanConcat(a[j + 1..], b, ApplyTag(a[1..j], stack, names).value, names);
      }
    }
  }

  lemma {:induction false} ScanText(s: string, stack: seq<string>, names: set<string>)
    requires '<' !in s
    ensures Scan(s, stack, names) == Some(stack)
    decreases |s|
  {
    if s != "" {
      ScanText(s[1..], stack, names);
    }
  }

  lemma TextIsBalanced(s: string, names: set<string>)
    requires '<' !in s
    ensures Balanced(s, names)
  {
    forall stack ensures Scan(s, stack, names) == Some(stack) {
      ScanText(s, stack, names);
    }
  }

  lemma ConcatIsBalanced(a: string, b: string, names: set<string>)
    requires Balanced(a, names) && Balanced(b, names)
    ensures Balanced(a + b, names)
  {
    forall stack ensures Scan(a + b, stack, names) == Some(stack) {
      ScanConcat(a, b, stack, names);
    }
  }

  lemma ScanTag(tag: string, stack: seq<string>, names: set<string>)
    requires '>' !in tag
    ensures Scan("<" + tag + ">", stack, names) == ApplyTag(tag, stack, names)
  {
    var s := "<" + tag + ">";
    IndexOfConcat("<" + tag, ">", '>');
    assert IndexOf(s, '>') == |s| - 1;
    assert s[1..|s| - 1] == tag && s[|s|..] == "";
  }

  predicate IsOpening(open: string, name: string) {
    '>' !in open && open != "" && open[0] != '/' && open[|open| - 1] != '/' && TagName(open) == name
  }

  lemma ScanOpening(open: string, name: string, stack: seq<string>, names: set<string>)
    requires IsOpening(open, name) && name in names
    ensures Scan("<" + open + ">", stack, names) == Some(stack + [name])
  {
    ScanTag(open, stack, names);
  }

  lemma ScanClosing(name: string, stack: seq<string>, names: set<string>)
    requires '>' !in name
    ensures Scan("</" + name + ">", stack + [name], names) == Some(stack)
  {
    var tag := "/" + name;
    assert "</" + name + ">" == "<" + tag + ">";
    ScanTag(tag, stack + [name], names);
    assert tag[1..] == name && (stack + [name])[..|stack|] == stack;
  }

  lemma ScanThree(a: string, x: string, z: string, stack: seq<string>, inner: seq<string>, names: set<string>)
    requires Scan(a, stack, names) == Some(inner) && Balanced(x, names) && Scan(z, inner, names) == Some(stack)
    ensures Scan(a + x + z, stack, names) == Some(stack)
  {
    ScanConcat(a, x + z, stack, names);
    assert a + x + z == a + (x + z);
    ScanConcat(x, z, inner, names);
  }

  /** `<open>x</name>` is balanced when `x` is and `open` is an opening tag of the known element. */
  lemma ElementIsBalanced(open: string, name: string, x: string, names: set<string>)
    requires Balanced(x, names) && name in names && IsOpening(open, name) && '>' !in name
    ensures Balanced("<" + open + ">" + x + ("</" + name + ">"), names)
  {
    forall stack ensures Scan("<" + open + ">" + x + ("</" + name + ">"), stack, names) == Some(stack) {
      ScanOpening(open, name, stack, names);
      ScanClosing(name, stack, names);
      ScanThree("<" + open + ">", x, "</" + name + ">", stack, stack + [name], names);
    }
  }

  lemma VoidIsBalanced(inner: string, names: set<string>)
    requires '>' !in inner && inner != "" && inner[0] != '/' && TagName(inner) in names
    ensures Balanced("<" + inner + "/>", names)
  {
    var tag := inner + "/";
    assert "<" + inner + "/>" == "<" + tag + ">";
    assert tag[..|tag| - 1] == inner;
    forall stack ensures Scan("<" + inner + "/>", stack, names) == Some(stack) {
      ScanTag(tag, stack, names);
    }
  }

  lemma {:induction false} NameBeforeSpace(name: string, rest: string)
    requires ' ' !in name
    ensures TagName(name + " " + rest) == name
  {
    IndexOfConcat(name, " " + rest, ' ');
    assert name + " " + rest == name + (" " + rest);
    assert (name + " " + rest)[..|name|] == name;
  }

  lemma NameAlone(name: string)
    requires ' ' !in name
    ensures TagName(name) == name
  {
    assert name[..|name|] == name;
  }

  /** Without a stack: a balanced string leaves an empty stack empty. */
  lemma {:induction false} JoinIsBalanced(parts: seq<string>, sep: string, names: set<string>)
    requires Balanced(sep, names) && forall p :: p in parts ==> Balanced(p, names)
    ensures Balanced(Join(parts, sep), names)
    decreases |parts|
  {
    if |parts| == 0 {
      TextIsBalanced("", names);
    } else if |parts| > 1 {
      var rest, last := parts[..|parts| - 1], parts[|parts| - 1];
      JoinIsBalanced(rest, sep, names);
      ConcatIsBalanced(Join(rest, sep), sep, names);
      ConcatIsBalanced(Join(rest, sep) + sep, last, names);
    }
  }
}
