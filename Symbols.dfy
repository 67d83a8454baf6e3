/**
 * `AbbreviateCppSymbol`: the display form of a C++ symbol in the call graph.
 * The anonymous namespace marker becomes `{}`; then the name is scanned with
 * a template nesting depth, only the characters read at depth 0 are kept,
 * and every `<` that opens a top-level argument list is followed by `...`.
 * So `ns::Foo<int, Bar<int>>::Do` is shown as `ns::Foo<...>::Do`.
 *
 * The scan is specified left to right, one character at a time, as the loop
 * performs it: `Depth(t, s)` is the nesting depth after reading `s` from
 * depth `t`, and `Elide(t, s)` is what reading `s` from depth `t` emits.
 */
module Symbols {
  import opened Strings

  const AnonymousNamespace := "<anonymous-namespace>"
  const AnonymousPlaceholder := "{}"

  predicate IsBracket(c: char)
  {
    c == '<' || c == '>'
  }

  /** The depth after reading `c` at depth `depth`. */
  function Step(depth: int, c: char): int
  {
    if c == '>' then depth - 1 else if c == '<' then depth + 1 else depth
  }

  /**
   * What reading `c` at depth `depth` emits: `c` itself when the depth, after
   * a `>` has closed a level, is 0; and `...` after a `<` that opens level 1.
   */
  function Emit(depth: int, c: char): string
  {
    var t := if c == '>' then depth - 1 else depth;
    (if t == 0 then [c] else "") + (if c == '<' && t + 1 == 1 then "..." else "")
  }

  function Depth(t: int, s: string): int
    decreases |s|
  {
    if |s| == 0 then t else Step(Depth(t, s[..|s| - 1]), s[|s| - 1])
  }

  function Elide(t: int, s: string): string
    decreases |s|
  {
    if |s| == 0 then "" else Elide(t, s[..|s| - 1]) + Emit(Depth(t, s[..|s| - 1]), s[|s| - 1])
  }

  /** The abbreviation of `symbol`. */
  function Abbreviated(symbol: string): string
  {
    Elide(0, Replace(symbol, AnonymousNamespace, AnonymousPlaceholder))
  }

  method AbbreviateCppSymbol(symbol: string) returns (short: string)
    ensures short == Abbreviated(symbol)
  {
    var s := Replace(symbol, AnonymousNamespace, AnonymousPlaceholder);
    short := "";
    var templateCount := 0;
    for i := 0 to |s|
      invariant short == Elide(0, s[..i])
      invariant templateCount == Depth(0, s[..i])
    {
      var c := s[i];
      assert s[..i + 1][..i] == s[..i];
      if c == '>' {
        templateCount := templateCount - 1;
      }
      if templateCount == 0 {
        short := short + [c];
      }
      if c == '<' {
        templateCount := templateCount + 1;
        if templateCount == 1 {
          short := short + "...";
        }
      }
    }
    assert s[..|s|] == s;
  }

  /** Reading `p + q` is reading `p`, then reading `q` from the depth `p` left. */
  lemma {:induction false} ElideAppend(t: int, p: string, q: string)
    ensures Depth(t, p + q) == Depth(Depth(t, p), q)
    ensures Elide(t, p + q) == Elide(t, p) + Elide(Depth(t, p), q)
    decreases |q|
  {
    if |q| == 0 {
      assert p + q == p;
    } else {
      var q' := q[..|q| - 1];
      assert (p + q)[..|p + q| - 1] == p + q';
      assert (p + q)[|p + q| - 1] == q[|q| - 1];
      ElideAppend(t, p, q');
    }
  }

  /** Text without brackets read at depth 0 is emitted as it is. */
  lemma {:induction false} PlainKept(x: string)
    requires forall i :: 0 <= i < |x| ==> !IsBracket(x[i])
    ensures Depth(0, x) == 0 && Elide(0, x) == x
    decreases |x|
  {
    if |x| > 0 {
      var x' := x[..|x| - 1];
      PlainKept(x');
      assert x' + [x[|x| - 1]] == x;
    }
  }

  /** Text without brackets read inside an argument list is dropped. */
  lemma {:induction false} PlainHidden(t: int, x: string)
    requires t >= 1
    requires forall i :: 0 <= i < |x| ==> !IsBracket(x[i])
    ensures Depth(t, x) == t && Elide(t, x) == ""
    decreases |x|
  {
    if |x| > 0 {
      PlainHidden(t, x[..|x| - 1]);
    }
  }

  /**
   * Text read from depth `t` during which the depth never falls below 1 emits
   * nothing: everything inside a template argument list is elided.
   */
  lemma {:induction false} InsideHidden(t: int, m: string)
    requires forall i :: 0 <= i <= |m| ==> Depth(t, m[..i]) >= 1
    ensures Elide(t, m) == ""
    decreases |m|
  {
    if |m| > 0 {
      var m' := m[..|m| - 1];
      assert Depth(t, m'[..|m'|]) >= 1 by {
        assert m[..|m| - 1] == m'[..|m'|];
      }
      assert Depth(t, m[..|m|]) >= 1;
      assert m[..|m|] == m;
      forall i | 0 <= i <= |m'|
        ensures Depth(t, m'[..i]) >= 1
      {
        assert m'[..i] == m[..i];
      }
      InsideHidden(t, m');
    }
  }

  /** Reading one character. */
  lemma {:induction false} OneChar(t: int, c: char)
    ensures Depth(t, [c]) == Step(t, c) && Elide(t, [c]) == Emit(t, c)
  {
    assert [c][..0] == [];
  }

  /** A `<` read at depth 0 opens level 1 and is shown with `...` after it. */
  lemma {:induction false} OpenEmits()
    ensures Step(0, '<') == 1 && Emit(0, '<') == "<..."
  {
  }

  /** A `>` read at depth 1 closes the list and is shown. */
  lemma {:induction false} CloseEmits()
    ensures Step(1, '>') == 0 && Emit(1, '>') == ">"
  {
  }

  /** A name without brackets and the `<` after it show as the name and `<...>`'s opening. */
  lemma {:induction false} OpensList(a: string)
    requires forall i :: 0 <= i < |a| ==> !IsBracket(a[i])
    ensures Depth(0, a + "<") == 1 && Elide(0, a + "<") == a + "<..."
  {
    OpenEmits();
    PlainKept(a);
    var x := a + "<";
    assert x[..|x| - 1] == a && x[|x| - 1] == '<';
  }

  /** The closing `>` of a top-level list is shown and returns to depth 0. */
  lemma {:induction false} ClosesList(x: string, shown: string)
    requires Depth(0, x) == 1 && Elide(0, x) == shown
    ensures Depth(0, x + ">") == 0 && Elide(0, x + ">") == shown + ">"
  {
    CloseEmits();
    var y := x + ">";
    assert y[..|y| - 1] == x && y[|y| - 1] == '>';
  }

  /**
   * A top-level template argument list collapses to `<...>`: after a name
   * without brackets, a `<`, arguments that stay nested and return to depth 1,
   * and the closing `>`, the rest is read at depth 0 again.
   */
  lemma {:induction false} TemplateCollapses(a: string, m: string, b: string)
    requires forall i :: 0 <= i < |a| ==> !IsBracket(a[i])
    requires forall i :: 0 <= i <= |m| ==> Depth(1, m[..i]) >= 1
    requires Depth(1, m) == 1
    ensures Elide(0, a + "<" + m + ">" + b) == a + "<...>" + Elide(0, b)
  {
    OpensList(a);
    InsideHidden(1, m);
    ElideAppend(0, a + "<", m);
    assert Elide(0, a + "<" + m) == a + "<...";
    ClosesList(a + "<" + m, a + "<...");
    ElideAppend(0, a + "<" + m + ">", b);
    assert a + "<..." + ">" == a + "<...>";
  }

  /**
   * A nested list with plain arguments, `p<q>` read from depth 1, never
   * leaves depth 1 and ends there.
   */
  lemma {:induction false} NestedListInside(p: string, q: string)
    requires forall i :: 0 <= i < |p| ==> !IsBracket(p[i])
    requires forall i :: 0 <= i < |q| ==> !IsBracket(q[i])
    ensures var m := p + "<" + q + ">";
      && (forall i :: 0 <= i <= |m| ==> Depth(1, m[..i]) >= 1)
      && Depth(1, m) == 1
  {
    var m := p + "<" + q + ">";
    var x1 := p + "<";
    PlainHidden(1, p);
    ElideAppend(1, p, "<");
    OneChar(1, '<');
    assert Depth(1, x1) == 2;
    ElideAppend(1, x1, q);
    PlainHidden(2, q);
    ElideAppend(1, x1 + q, ">");
    OneChar(2, '>');
    assert m == x1 + q + ">";
    forall i | 0 <= i <= |m|
      ensures Depth(1, m[..i]) >= 1
    {
      if i <= |p| {
        assert m[..i] == p[..i];
        PlainHidden(1, p[..i]);
      } else if i <= |p| + 1 + |q| {
        var y := q[..i - |x1|];
        assert m[..i] == x1 + y;
        ElideAppend(1, x1, y);
        PlainHidden(2, y);
      } else {
        assert m[..i] == m;
      }
    }
  }

  /** A name without angle brackets is shown unchanged. */
  lemma {:induction false} NoBracketsUnchanged(symbol: string)
    requires forall i :: 0 <= i < |symbol| ==> !IsBracket(symbol[i])
    ensures Abbreviated(symbol) == symbol
  {
    assert forall i :: 0 <= i < |symbol| ==> symbol[i] != '<';
    assert '<' !in symbol;
    ReplaceAbsent(symbol, AnonymousNamespace, AnonymousPlaceholder);
    PlainKept(symbol);
  }

  /** `<anonymous-namespace>::X` is shown as `{}::X`. */
  lemma {:induction false} AnonymousNamespaceExample()
    ensures Abbreviated("<anonymous-namespace>::X") == "{}::X"
  {
    var rest := "::X";
    assert "<anonymous-namespace>::X" == AnonymousNamespace + rest;
    assert AnonymousNamespace <= AnonymousNamespace + rest;
    assert (AnonymousNamespace + rest)[|AnonymousNamespace|..] == rest;
    ReplaceAbsent(rest, AnonymousNamespace, AnonymousPlaceholder);
    assert Replace("<anonymous-namespace>::X", AnonymousNamespace, AnonymousPlaceholder) == "{}" + rest;
    assert "{}" + rest == "{}::X";
    PlainKept("{}::X");
  }

  /** The name of the example below holds no anonymous namespace marker. */
  lemma {:induction false} ExampleHasNoMarker(s: string)
    requires s == "ns::Foo<int, Bar<int>>::Do"
    ensures Replace(s, AnonymousNamespace, AnonymousPlaceholder) == s
  {
    forall i | 0 <= i < |s|
      ensures !(AnonymousNamespace <= s[i..])
    {
      if i < 6 {
        assert s[i] == s[..6][i] && s[..6] == "ns::Fo";
      }
    }
    ReplaceNoMatch(s, AnonymousNamespace, AnonymousPlaceholder);
  }

  /**
   * A name with a two-level argument list, `a<p<q>>b` with plain parts,
   * is shown as `a<...>b`.
   */
  lemma {:induction false} NestedTemplateCollapses(a: string, p: string, q: string, b: string)
    requires forall i :: 0 <= i < |a| ==> !IsBracket(a[i])
    requires forall i :: 0 <= i < |p| ==> !IsBracket(p[i])
    requires forall i :: 0 <= i < |q| ==> !IsBracket(q[i])
    requires forall i :: 0 <= i < |b| ==> !IsBracket(b[i])
    ensures Elide(0, a + "<" + (p + "<" + q + ">") + ">" + b) == a + "<...>" + b
  {
    NestedListInside(p, q);
    TemplateCollapses(a, p + "<" + q + ">", b);
    PlainKept(b);
  }

  /**
   * What the scan emits reads back the same way: every `<` it shows is followed by
   * `...`, and reading the output from depth 0 ends at depth 1 exactly
   * when the input was left inside an argument list.
   */
  predicate DotsAfterOpen(o: string)
  {
    forall i :: 0 <= i < |o| && o[i] == '<' ==> i + 1 < |o| && o[i + 1] == '.'
  }

  /** The depth the output is left at: 1 inside an argument list, else 0. */
  function Clamp(depth: int): int
  {
    if depth >= 1 then 1 else 0
  }

  lemma {:induction false} DotsAppend(o: string, e: string)
    requires DotsAfterOpen(o) && DotsAfterOpen(e)
    ensures DotsAfterOpen(o + e)
  {
    forall i | 0 <= i < |o + e| && (o + e)[i] == '<'
      ensures i + 1 < |o + e| && (o + e)[i + 1] == '.'
    {
      if i < |o| {
        assert o[i] == '<';
      } else {
        assert e[i - |o|] == '<';
      }
    }
  }

  /** `<...` read at depth 0 shows itself and leaves depth 1. */
  lemma {:induction false} OpeningReadsBack()
    ensures Elide(0, "<...") == "<..." && Depth(0, "<...") == 1
  {
    OpenEmits();
    OneChar(0, '<');
    PlainHidden(1, "...");
    ElideAppend(0, "<", "...");
    assert "<" + "..." == "<...";
  }

  /** One emitted piece, read from the depth the output is left at, shows itself. */
  lemma {:induction false} EmitReadsBack(depth: int, c: char)
    ensures Elide(Clamp(depth), Emit(depth, c)) == Emit(depth, c)
    ensures Depth(Clamp(depth), Emit(depth, c)) == Clamp(Step(depth, c))
    ensures DotsAfterOpen(Emit(depth, c))
  {
    if c == '>' && depth == 1 {
      CloseEmits();
      OneChar(1, '>');
    } else if c == '<' && depth == 0 {
      OpenEmits();
      OpeningReadsBack();
    } else if !IsBracket(c) && depth == 0 {
      OneChar(0, c);
    } else {
      assert Emit(depth, c) == "";
    }
  }

  /** Scanning the output of a scan again shows it unchanged. */
  lemma {:induction false} ElideReadsBack(s: string)
    ensures Elide(0, Elide(0, s)) == Elide(0, s)
    ensures Depth(0, Elide(0, s)) == Clamp(Depth(0, s))
    ensures DotsAfterOpen(Elide(0, s))
    decreases |s|
  {
    if |s| > 0 {
      var s' := s[..|s| - 1];
      var c := s[|s| - 1];
      ElideReadsBack(s');
      EmitReadsBack(Depth(0, s'), c);
      ElideAppend(0, Elide(0, s'), Emit(Depth(0, s'), c));
      DotsAppend(Elide(0, s'), Emit(Depth(0, s'), c));
    }
  }

  /** An output in which every `<` is followed by `.` holds no anonymous namespace marker. */
  lemma {:induction false} NoMarkerAfterScan(o: string)
    requires DotsAfterOpen(o)
    ensures Replace(o, AnonymousNamespace, AnonymousPlaceholder) == o
  {
    forall i | 0 <= i < |o|
      ensures !(AnonymousNamespace <= o[i..])
    {
      assert AnonymousNamespace[0] == '<' && AnonymousNamespace[1] == 'a';
    }
    ReplaceNoMatch(o, AnonymousNamespace, AnonymousPlaceholder);
  }

  /** Abbreviating an abbreviated name changes nothing. */
  lemma {:induction false} AbbreviatedIdempotent(symbol: string)
    ensures Abbreviated(Abbreviated(symbol)) == Abbreviated(symbol)
  {
    var s := Replace(symbol, AnonymousNamespace, AnonymousPlaceholder);
    ElideReadsBack(s);
    NoMarkerAfterScan(Elide(0, s));
  }

  lemma {:induction false} ReplaceAddsNothing(s: string, pat: string, rep: string, c: char)
    requires |pat| > 0 && c !in s && c !in rep
    ensures c !in Replace(s, pat, rep)
    decreases |s|
  {
    if |s| > 0 {
      if pat <= s {
        assert c !in s[|pat|..] by {
          assert forall x :: x in s[|pat|..] ==> x in s;
        }
        ReplaceAddsNothing(s[|pat|..], pat, rep, c);
      } else {
        assert c !in s[1..] by {
          assert forall x :: x in s[1..] ==> x in s;
        }
        ReplaceAddsNothing(s[1..], pat, rep, c);
      }
    }
  }

  lemma {:induction false} ElideAddsNothing(t: int, s: string, c: char)
    requires c !in s && c != '.'
    ensures c !in Elide(t, s)
    decreases |s|
  {
    if |s| > 0 {
      assert c !in s[..|s| - 1] by {
        assert forall x :: x in s[..|s| - 1] ==> x in s;
      }
      assert s[|s| - 1] in s;
      ElideAddsNothing(t, s[..|s| - 1], c);
    }
  }

  /** Abbreviating adds no character but the braces of `{}` and the dots of `...`. */
  lemma {:induction false} AbbreviatedAddsNothing(symbol: string, c: char)
    requires c !in symbol && c != '{' && c != '}' && c != '.'
    ensures c !in Abbreviated(symbol)
  {
    ReplaceAddsNothing(symbol, AnonymousNamespace, AnonymousPlaceholder, c);
    ElideAddsNothing(0, Replace(symbol, AnonymousNamespace, AnonymousPlaceholder), c);
  }

  /** The example name is `ns::Foo<int, Bar<int>>::Do` put together from its plain parts. */
  lemma {:induction false} ExampleParts()
    ensures "ns::Foo<int, Bar<int>>::Do" == "ns::Foo" + "<" + ("int, Bar" + "<" + "int" + ">") + ">" + "::Do"
  {
    assert "ns::Foo" + "<" == "ns::Foo<";
    assert "int, Bar" + "<" + "int" + ">" == "int, Bar<int>";
    assert "ns::Foo<" + "int, Bar<int>" == "ns::Foo<int, Bar<int>";
    assert "ns::Foo<int, Bar<int>" + ">" == "ns::Foo<int, Bar<int>>";
    assert "ns::Foo<int, Bar<int>>" + "::Do" == "ns::Foo<int, Bar<int>>::Do";
  }

  lemma {:induction false} ExampleCollapses()
    ensures Elide(0, "ns::Foo" + "<" + ("int, Bar" + "<" + "int" + ">") + ">" + "::Do") == "ns::Foo<...>::Do"
  {
    NestedTemplateCollapses("ns::Foo", "int, Bar", "int", "::Do");
    assert "ns::Foo" + "<...>" + "::Do" == "ns::Foo<...>::Do";
  }

  /** `ns::Foo<int, Bar<int>>::Do` is shown as `ns::Foo<...>::Do`. */
  lemma {:induction false} TemplateExample()
    ensures Abbreviated("ns::Foo<int, Bar<int>>::Do") == "ns::Foo<...>::Do"
  {
    ExampleHasNoMarker("ns::Foo<int, Bar<int>>::Do");
    ExampleParts();
    ExampleCollapses();
  }
}
