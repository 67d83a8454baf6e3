/**
 * The markup tag codec: a block of category `X` is written as `^X{` ... `}X_`,
 * and the markup overhead of a piece of rendered text is the number of its
 * characters that belong to complete tags.  The overhead is what the mapper
 * subtracts to turn a rendered column back into a source column.
 *
 * `CountBlockMarkupOverhead` is the scan as the repository writes it: two
 * independent left-to-right searches for the patterns `\^[^{]+{` and
 * `}[^_]+_`.  The two searches can both claim the same characters, so the
 * count can exceed the length of the text (see `OverheadCanExceedLength`).
 * `MarkupOverhead` is the corrected scan that the rest of the model uses: one
 * left-to-right search for either pattern, so every character is counted at
 * most once.  The two agree on text made of plain characters and tags.
 */
module Markup {
  import opened Strings

  /**
   * The two tag formats.  Concealable markup is on by default;
   * `DisableConcealableMarkup` turns both formats into the empty string.
   */
  datatype Config = Config(concealable: bool)

  const DefaultConfig := Config(true)

  function DisableConcealableMarkup(): (cfg: Config)
    ensures forall bt :: StartTag(cfg, bt) == "" && EndTag(cfg, bt) == ""
  {
    Config(false)
  }

  function StartTag(cfg: Config, bt: string): string
  {
    if cfg.concealable then "^" + bt + "{" else ""
  }

  function EndTag(cfg: Config, bt: string): string
  {
    if cfg.concealable then "}" + bt + "_" else ""
  }

  predicate IsDelimiter(c: char)
  {
    c == '^' || c == '{' || c == '}' || c == '_' || c == '\n'
  }

  /** A block type can sit between the delimiters of a tag. */
  predicate ValidBlockType(bt: string)
  {
    |bt| > 0 && forall i :: 0 <= i < |bt| ==> !IsDelimiter(bt[i])
  }

  /** An empty tag (markup disabled), or a complete start or end tag. */
  predicate WellFormedTag(t: string)
  {
    t == "" ||
    (3 <= |t| && ValidBlockType(t[1..|t| - 1]) &&
     ((t[0] == '^' && t[|t| - 1] == '{') || (t[0] == '}' && t[|t| - 1] == '_')))
  }

  /** Text that holds neither tag opener. */
  predicate Plain(p: string)
  {
    forall i :: 0 <= i < |p| ==> p[i] != '^' && p[i] != '}'
  }

  lemma {:induction false} TagsWellFormed(cfg: Config, bt: string)
    requires ValidBlockType(bt)
    ensures WellFormedTag(StartTag(cfg, bt)) && WellFormedTag(EndTag(cfg, bt))
    ensures '\n' !in StartTag(cfg, bt) && '\n' !in EndTag(cfg, bt)
  {
    if cfg.concealable {
      var s, e := StartTag(cfg, bt), EndTag(cfg, bt);
      assert s[1..|s| - 1] == bt && e[1..|e| - 1] == bt;
      assert forall i :: 0 <= i < |s| ==> s[i] != '\n' by {
        forall i | 0 <= i < |s| ensures s[i] != '\n' {
          if 0 < i < |s| - 1 {
            assert s[i] == bt[i - 1];
          }
        }
      }
      assert forall i :: 0 <= i < |e| ==> e[i] != '\n' by {
        forall i | 0 <= i < |e| ensures e[i] != '\n' {
          if 0 < i < |e| - 1 {
            assert e[i] == bt[i - 1];
          }
        }
      }
    }
  }

  /** Index of the first `c` in `s`, or `|s|` when there is none. */
  function Find(s: string, c: char): (i: nat)
    ensures i <= |s|
    ensures i < |s| ==> s[i] == c
    ensures forall j :: 0 <= j < i ==> s[j] != c
    decreases |s|
  {
    if |s| == 0 then 0
    else if s[0] == c then 0
    else 1 + Find(s[1..], c)
  }

  /** `s[..m]` is a match of `open [^close]+ close`. */
  ghost predicate PatternAt(s: string, open: char, close: char, m: nat)
  {
    3 <= m <= |s| && s[0] == open && s[m - 1] == close &&
    forall j :: 1 <= j < m - 1 ==> s[j] != close
  }

  /**
   * Length of the match of `open [^close]+ close` at the start of `s`, or 0.
   * The greedy `[^close]+` stops at the first `close`, so there is at most
   * one match, and this is it.
   */
  function MatchAt(s: string, open: char, close: char): (n: nat)
    ensures n > 0 ==> PatternAt(s, open, close, n)
    ensures forall m :: PatternAt(s, open, close, m) ==> m == n
  {
    if |s| > 0 && s[0] == open then
      var k := Find(s[1..], close);
      if 1 <= k < |s| - 1 then
        assert forall j :: 1 <= j < k + 1 ==> s[j] == s[1..][j - 1];
        k + 2
      else
        assert forall m :: PatternAt(s, open, close, m) ==> s[1..][m - 2] == close;
        0
    else 0
  }

  /** Total length of the successive non-overlapping matches that `re.findall` returns. */
  function ScanMatches(s: string, open: char, close: char): (r: nat)
    ensures r <= |s|
    decreases |s|
  {
    if |s| == 0 then 0
    else
      var n := MatchAt(s, open, close);
      if n > 0 then n + ScanMatches(s[n..], open, close)
      else ScanMatches(s[1..], open, close)
  }

  /** The overhead as the repository computes it: both patterns scanned independently. */
  function CountBlockMarkupOverhead(s: string): nat
  {
    ScanMatches(s, '^', '{') + ScanMatches(s, '}', '_')
  }

  /** The corrected overhead: one scan for either pattern, each character counted once. */
  function MarkupOverhead(s: string): (r: nat)
    ensures r <= |s|
    decreases |s|
  {
    if |s| == 0 then 0
    else
      var a := MatchAt(s, '^', '{');
      var n := if a > 0 then a else MatchAt(s, '}', '_');
      if n > 0 then n + MarkupOverhead(s[n..])
      else MarkupOverhead(s[1..])
  }

  /** A complete tag body followed by anything is matched exactly. */
  lemma {:induction false} MatchAtTag(x: string, b: string, open: char, close: char)
    requires |x| > 0 && close !in x
    ensures MatchAt([open] + x + [close] + b, open, close) == |x| + 2
  {
    var s := [open] + x + [close] + b;
    assert PatternAt(s, open, close, |x| + 2) by {
      forall j | 1 <= j < |x| + 1 ensures s[j] != close {
        assert s[j] == x[j - 1];
      }
    }
  }

  /** Characters without the opener contribute nothing to a scan. */
  lemma {:induction false} ScanSkip(p: string, b: string, open: char, close: char)
    requires open !in p
    ensures ScanMatches(p + b, open, close) == ScanMatches(b, open, close)
    decreases |p|
  {
    if |p| > 0 {
      assert (p + b)[0] == p[0];
      assert (p + b)[1..] == p[1..] + b;
      assert p[0] in p;
      assert open !in p[1..] by {
        assert forall c :: c in p[1..] ==> c in p;
      }
      ScanSkip(p[1..], b, open, close);
    } else {
      assert p + b == b;
    }
  }

  /** A complete match in front contributes its own length to a scan. */
  lemma {:induction false} ScanTag(x: string, b: string, open: char, close: char)
    requires |x| > 0 && close !in x
    ensures ScanMatches([open] + x + [close] + b, open, close) == |x| + 2 + ScanMatches(b, open, close)
  {
    var s := [open] + x + [close] + b;
    MatchAtTag(x, b, open, close);
    assert s[|x| + 2..] == b;
  }

  /** Plain characters contribute nothing to the corrected overhead. */
  lemma {:induction false} OverheadSkip(p: string, b: string)
    requires Plain(p)
    ensures MarkupOverhead(p + b) == MarkupOverhead(b)
    decreases |p|
  {
    if |p| > 0 {
      assert (p + b)[0] == p[0];
      assert (p + b)[1..] == p[1..] + b;
      assert Plain(p[1..]) by {
        forall i | 0 <= i < |p| - 1 ensures p[1..][i] != '^' && p[1..][i] != '}' {
          assert p[1..][i] == p[i + 1];
        }
      }
      OverheadSkip(p[1..], b);
    } else {
      assert p + b == b;
    }
  }

  /** Plain characters contribute nothing to the overhead as written. */
  lemma {:induction false} CountSkip(p: string, b: string)
    requires Plain(p)
    ensures CountBlockMarkupOverhead(p + b) == CountBlockMarkupOverhead(b)
  {
    assert '^' !in p && '}' !in p by {
      forall i | 0 <= i < |p| ensures p[i] != '^' && p[i] != '}' {}
    }
    ScanSkip(p, b, '^', '{');
    ScanSkip(p, b, '}', '_');
  }

  /** Splits a non-empty well-formed tag into opener, body and closer. */
  lemma {:induction false} TagParts(t: string)
    requires WellFormedTag(t) && t != ""
    ensures t == [t[0]] + t[1..|t| - 1] + [t[|t| - 1]]
    ensures t[0] == '^' ==> '{' !in t[1..|t| - 1] && '}' !in t && '_' !in t[1..|t| - 1]
    ensures t[0] == '}' ==> '_' !in t[1..|t| - 1] && '^' !in t
  {
    var x := t[1..|t| - 1];
    assert forall i :: 0 <= i < |x| ==> x[i] == t[i + 1];
    assert forall i :: 0 <= i < |x| ==> !IsDelimiter(x[i]);
  }

  /** A well-formed tag in front adds exactly its length to the corrected overhead. */
  lemma {:induction false} OverheadTag(t: string, b: string)
    requires WellFormedTag(t)
    ensures MarkupOverhead(t + b) == |t| + MarkupOverhead(b)
  {
    if t != "" {
      TagParts(t);
      var x := t[1..|t| - 1];
      var s := t + b;
      assert s == [t[0]] + x + [t[|t| - 1]] + b;
      assert s[|t|..] == b;
      if t[0] == '^' {
        MatchAtTag(x, b, '^', '{');
        assert MatchAt(s, '^', '{') == |t|;
      } else {
        assert MatchAt(s, '^', '{') == 0;
        MatchAtTag(x, b, '}', '_');
        assert MatchAt(s, '}', '_') == |t|;
      }
      assert MarkupOverhead(s) == |t| + MarkupOverhead(s[|t|..]);
    } else {
      assert t + b == b;
    }
  }

  /** A well-formed tag in front adds exactly its length to the overhead as written. */
  lemma {:induction false} CountTag(t: string, b: string)
    requires WellFormedTag(t)
    ensures CountBlockMarkupOverhead(t + b) == |t| + CountBlockMarkupOverhead(b)
  {
    if t != "" {
      TagParts(t);
      var x := t[1..|t| - 1];
      assert t + b == [t[0]] + x + [t[|t| - 1]] + b;
      if t[0] == '^' {
        ScanTag(x, b, '^', '{');
        ScanSkip(t, b, '}', '_');
      } else {
        ScanTag(x, b, '}', '_');
        ScanSkip(t, b, '^', '{');
      }
    } else {
      assert t + b == b;
    }
  }

  /** A block with a plain body: only its two tags count, under either scan. */
  lemma {:induction false} BlockOverhead(start: string, body: string, end: string)
    requires WellFormedTag(start) && Plain(body) && WellFormedTag(end)
    ensures CountBlockMarkupOverhead(start + body + end) == |start| + |end|
    ensures MarkupOverhead(start + body + end) == |start| + |end|
  {
    assert start + body + end == start + (body + (end + ""));
    CountTag(end, "");
    CountSkip(body, end + "");
    CountTag(start, body + (end + ""));
    OverheadTag(end, "");
    OverheadSkip(body, end + "");
    OverheadTag(start, body + (end + ""));
  }

  /** `}S` is not a complete end tag: no scan counts it. */
  lemma {:induction false} UnclosedEndTag()
    ensures CountBlockMarkupOverhead("}S") == 0 && MarkupOverhead("}S") == 0
  {
    var s := "}S";
    assert s[1..] == "S" && "S"[1..] == "";
    assert MatchAt(s, '}', '_') == 0;
  }

  /** `^S{` and `}S_` are well-formed tags. */
  lemma {:induction false} ExampleTags()
    ensures WellFormedTag("^S{") && WellFormedTag("}S_")
  {
    var start, end := "^S{", "}S_";
    assert start[1..|start| - 1] == "S" && end[1..|end| - 1] == "S";
  }

  /** First example of the docstring of `CountBlockMarkupOverhead`: a complete block. */
  lemma {:induction false} CountDocClosed()
    ensures CountBlockMarkupOverhead("^S{foo}S_") == 6
  {
    ExampleTags();
    FooPlain();
    BlockOverhead("^S{", "foo", "}S_");
    assert "^S{" + "foo" + "}S_" == "^S{foo}S_";
  }

  lemma {:induction false} FooPlain()
    ensures Plain("foo")
  {
  }

  /** Second example of that docstring: the unclosed end tag does not count. */
  lemma {:induction false} CountDocUnclosed()
    ensures CountBlockMarkupOverhead("^S{foo}S") == 3
  {
    ExampleTags();
    FooPlain();
    UnclosedEndTag();
    CountSkip("foo", "}S");
    CountTag("^S{", "foo" + "}S");
    assert "^S{" + ("foo" + "}S") == "^S{foo}S";
  }

  /** The corrected overhead agrees on the first example. */
  lemma {:induction false} OverheadDocClosed()
    ensures MarkupOverhead("^S{foo}S_") == 6
  {
    ExampleTags();
    FooPlain();
    BlockOverhead("^S{", "foo", "}S_");
    assert "^S{" + "foo" + "}S_" == "^S{foo}S_";
  }

  /** The corrected overhead agrees on the second example. */
  lemma {:induction false} OverheadDocUnclosed()
    ensures MarkupOverhead("^S{foo}S") == 3
  {
    ExampleTags();
    FooPlain();
    UnclosedEndTag();
    OverheadSkip("foo", "}S");
    OverheadTag("^S{", "foo" + "}S");
    assert "^S{" + ("foo" + "}S") == "^S{foo}S";
  }

  /**
   * The independent scans both claim the `}` and the `a_` of `^}a_{`: the
   * overhead as written is 8 for a text of 5 characters, while the single
   * scan takes the whole text for one start tag.
   */
  lemma {:induction false} OverheadCanExceedLength()
    ensures CountBlockMarkupOverhead("^}a_{") == 8
    ensures MarkupOverhead("^}a_{") == 5
  {
    var s := "^}a_{";
    assert MatchAt(s, '^', '{') == 5 by {
      assert PatternAt(s, '^', '{', 5);
    }
    assert s[5..] == "";
    assert MatchAt(s, '}', '_') == 0;
    assert s[1..] == "}a_{";
    assert MatchAt("}a_{", '}', '_') == 3 by {
      assert PatternAt("}a_{", '}', '_', 3);
    }
    assert "}a_{"[3..] == "{";
    assert MatchAt("{", '}', '_') == 0;
    assert "{"[1..] == "";
  }

  /** Plain text followed by `^`, a body without delimiters and `{`: the scans count the last part whole. */
  lemma {:induction false} OpenTagAfterPlain(p: string, body: string)
    requires Plain(p) && |body| > 0 && '{' !in body && '}' !in body
    ensures CountBlockMarkupOverhead(p + (['^'] + body + ['{'])) == |body| + 2
  {
    var t := ['^'] + body + ['{'];
    CountSkip(p, t);
    assert t + "" == t;
    ScanTag(body, "", '^', '{');
    ScanSkip(t, "", '}', '_');
  }

  /**
   * Plain code such as `a ^ b {` holds no tag, yet the scans as written take
   * `^ b {` for a start tag: its overhead is 5.
   */
  lemma {:induction false} DisabledLineOverhead()
    ensures CountBlockMarkupOverhead("a ^ b {") == 5
  {
    OpenTagAfterPlain("a ", " b ");
    assert "a " + (['^'] + " b " + ['{']) == "a ^ b {";
  }

  /** A rendered line seen as source characters with tags between them. */
  datatype Piece = Char(c: char) | Tag(t: string)

  function Flatten(ps: seq<Piece>): string
    decreases |ps|
  {
    if ps == [] then ""
    else (match ps[0] case Char(c) => [c] case Tag(t) => t) + Flatten(ps[1..])
  }

  /** The source characters of a rendered line, without its tags. */
  function SourceOf(ps: seq<Piece>): string
    decreases |ps|
  {
    if ps == [] then ""
    else (match ps[0] case Char(c) => [c] case Tag(_) => "") + SourceOf(ps[1..])
  }

  function TagLength(ps: seq<Piece>): nat
    decreases |ps|
  {
    if ps == [] then 0
    else (match ps[0] case Char(_) => 0 case Tag(t) => |t|) + TagLength(ps[1..])
  }

  /** Source characters that cannot open a tag, and well-formed tags. */
  predicate Clean(ps: seq<Piece>)
  {
    forall i :: 0 <= i < |ps| ==>
      match ps[i]
      case Char(c) => c != '^' && c != '}'
      case Tag(t) => WellFormedTag(t)
  }

  /** Pieces of source characters only. */
  function Chars(s: string): (ps: seq<Piece>)
    ensures |ps| == |s|
    ensures forall i :: 0 <= i < |s| ==> ps[i] == Char(s[i])
  {
    seq(|s|, i requires 0 <= i < |s| => Char(s[i]))
  }

  lemma {:induction false} FlattenAppend(a: seq<Piece>, b: seq<Piece>)
    ensures Flatten(a + b) == Flatten(a) + Flatten(b)
    ensures SourceOf(a + b) == SourceOf(a) + SourceOf(b)
    ensures TagLength(a + b) == TagLength(a) + TagLength(b)
  {
    FlattenConcat(a, b);
    SourceConcat(a, b);
    TagLengthConcat(a, b);
  }

  lemma {:induction false} FlattenConcat(a: seq<Piece>, b: seq<Piece>)
    ensures Flatten(a + b) == Flatten(a) + Flatten(b)
    decreases |a|
  {
    if a == [] {
      assert a + b == b;
    } else {
      assert (a + b)[0] == a[0] && (a + b)[1..] == a[1..] + b;
      FlattenConcat(a[1..], b);
    }
  }

  lemma {:induction false} SourceConcat(a: seq<Piece>, b: seq<Piece>)
    ensures SourceOf(a + b) == SourceOf(a) + SourceOf(b)
    decreases |a|
  {
    if a == [] {
      assert a + b == b;
    } else {
      assert (a + b)[0] == a[0] && (a + b)[1..] == a[1..] + b;
      SourceConcat(a[1..], b);
    }
  }

  lemma {:induction false} TagLengthConcat(a: seq<Piece>, b: seq<Piece>)
    ensures TagLength(a + b) == TagLength(a) + TagLength(b)
    decreases |a|
  {
    if a == [] {
      assert a + b == b;
    } else {
      assert (a + b)[0] == a[0] && (a + b)[1..] == a[1..] + b;
      TagLengthConcat(a[1..], b);
    }
  }

  /** A rendered line is as long as its source characters and its tags together. */
  lemma {:induction false} FlattenLength(ps: seq<Piece>)
    ensures |Flatten(ps)| == |SourceOf(ps)| + TagLength(ps)
    decreases |ps|
  {
    if ps != [] {
      FlattenLength(ps[1..]);
    }
  }

  /** Characters alone flatten, and project, to themselves. */
  lemma {:induction false} CharsFlatten(s: string)
    ensures Flatten(Chars(s)) == s && SourceOf(Chars(s)) == s && TagLength(Chars(s)) == 0
    decreases |s|
  {
    if s != [] {
      assert Chars(s)[1..] == Chars(s[1..]);
      CharsFlatten(s[1..]);
      assert s == [s[0]] + s[1..];
    }
  }

  /**
   * On a clean line both overhead counts are exactly the length of its tags,
   * so the count of source characters is recovered.
   */
  lemma {:induction false} PiecesOverhead(ps: seq<Piece>)
    requires Clean(ps)
    ensures MarkupOverhead(Flatten(ps)) == TagLength(ps)
    ensures CountBlockMarkupOverhead(Flatten(ps)) == TagLength(ps)
    decreases |ps|
  {
    if ps != [] {
      assert Clean(ps[1..]) by {
        forall i | 0 <= i < |ps| - 1 ensures ps[1..][i] == ps[i + 1] {}
      }
      PiecesOverhead(ps[1..]);
      var rest := Flatten(ps[1..]);
      match ps[0]
      case Char(c) =>
        assert Plain([c]);
        OverheadSkip([c], rest);
        CountSkip([c], rest);
      case Tag(t) =>
        OverheadTag(t, rest);
        CountTag(t, rest);
    }
  }
}
