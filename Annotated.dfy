/**
 * Rendering of annotated text: a snippet of a source file whose ranges
 * carry format types.  Each range with a known type becomes a start tag and
 * an end tag; the tags are spliced into the lines of the text from the last
 * position to the first; each line is then written with an indent, a
 * right-aligned line number and a jump entry for that line of the file.
 */
module Annotated {
  import opened Wrappers
  import opened Strings
  import opened Sorting
  import opened Markup
  import opened Document
  import opened Mapper

  /** Indent of a snippet per nesting level. */
  const SnippetIndent := 4

  /** The format types the renderer gives a tag to, and every other one. */
  datatype FormatType =
    | SyntaxKeyword | SyntaxString | SyntaxComment | SyntaxNumber | SyntaxMacro
    | SyntaxClass | SyntaxConst | SyntaxEscapeSequence | SyntaxDeprecated
    | SyntaxKeywordStrong | QueryMatch | SnippetQueryMatch
    | OtherFormat(code: int)

  /** `GetBlockTypeFromFormatType`: the tag letter of a format type, if it has one. */
  function BlockTypeOf(t: FormatType): (r: Option<string>)
    ensures r.None? <==> t.OtherFormat?
    ensures r.Some? ==> ValidBlockType(r.value) && |r.value| == 1
  {
    match t
    case SyntaxKeyword => Some("k")
    case SyntaxString => Some("s")
    case SyntaxComment => Some("c")
    case SyntaxNumber => Some("0")
    case SyntaxMacro => Some("D")
    case SyntaxClass => Some("C")
    case SyntaxConst => Some("K")
    case SyntaxEscapeSequence => Some("\\")
    case SyntaxDeprecated => Some("-")
    case SyntaxKeywordStrong => Some("k")
    case QueryMatch => Some("$")
    case SnippetQueryMatch => Some("$")
    case OtherFormat(_) => None
  }

  /** A range of the text, with 1-based lines and columns. */
  datatype TextRange = TextRange(startLine: int, startColumn: int, endLine: int, endColumn: int)

  datatype FormatRange = FormatRange(kind: FormatType, range: TextRange)

  datatype AnnotatedText = AnnotatedText(text: string, ranges: seq<FormatRange>)

  /** A tag to splice in before the 1-based `column` of the 1-based `line`. */
  datatype Insertion = Insertion(line: int, column: int, tag: string)

  /** The range ends at column 1 of a line other than its first. */
  predicate EndsAtLineStart(r: TextRange)
  {
    r.endColumn == 1 && r.startLine != r.endLine
  }

  /**
   * What rendering demands of a range with a tag: its positions (after
   * normalisation) are positive and name lines of the text.
   */
  predicate Fits(r: TextRange, textLines: seq<string>)
  {
    && 1 <= r.startLine <= |textLines| && r.startColumn >= 1
    && if EndsAtLineStart(r) then 2 <= r.endLine <= |textLines| + 1
       else 1 <= r.endLine <= |textLines| && r.endColumn >= 1
  }

  predicate RangesFit(rs: seq<FormatRange>, textLines: seq<string>)
  {
    forall i :: 0 <= i < |rs| && BlockTypeOf(rs[i].kind).Some? ==> Fits(rs[i].range, textLines)
  }

  /** A range that ends at the start of a line ends instead at the end of the line before. */
  function Normalise(r: TextRange, textLines: seq<string>): TextRange
    requires EndsAtLineStart(r) ==> 2 <= r.endLine <= |textLines| + 1
  {
    if EndsAtLineStart(r) then
      r.(endLine := r.endLine - 1, endColumn := |textLines[r.endLine - 2]| + 1)
    else r
  }

  /** The 0-based offset in the whole text of a 1-based position. */
  function Offset(textLines: seq<string>, line: int, column: int): int
    requires 1 <= line <= |textLines|
  {
    |Join(textLines[..line - 1], '\n')| + (if line > 1 then 1 else 0) + column - 1
  }

  /**
   * Normalisation moves the end of a range back over exactly one character
   * of the text, the newline that ends the line before.
   */
  lemma {:induction false} NormaliseDropsNewline(r: TextRange, textLines: seq<string>)
    requires EndsAtLineStart(r) && 2 <= r.endLine <= |textLines|
    ensures var n := Normalise(r, textLines);
      n.endLine == r.endLine - 1 &&
      Offset(textLines, n.endLine, n.endColumn) == Offset(textLines, r.endLine, r.endColumn) - 1
  {
    var l := r.endLine;
    if l > 2 {
      JoinAppend(textLines[..l - 2], [textLines[l - 2]], '\n');
      assert textLines[..l - 2] + [textLines[l - 2]] == textLines[..l - 1];
    } else {
      assert textLines[..l - 1] == [textLines[0]];
    }
  }

  /**
   * Every tagged range, once normalised, starts and ends within its lines:
   * no column lies more than one past the end of its line.
   */
  predicate RangesWithin(rs: seq<FormatRange>, textLines: seq<string>)
    requires RangesFit(rs, textLines)
  {
    forall i :: 0 <= i < |rs| && BlockTypeOf(rs[i].kind).Some? ==>
      var n := Normalise(rs[i].range, textLines);
      n.startColumn <= |textLines[n.startLine - 1]| + 1 && n.endColumn <= |textLines[n.endLine - 1]| + 1
  }

  /** The insertions for one range: its end tag, then its start tag; none without a tag. */
  function RangeInsertions(fr: FormatRange, textLines: seq<string>, cfg: Config): (ins: seq<Insertion>)
    requires BlockTypeOf(fr.kind).Some? ==> Fits(fr.range, textLines)
    ensures forall i :: 0 <= i < |ins| ==> InsertionFits(ins[i], textLines) && GoodTag(ins[i])
  {
    match BlockTypeOf(fr.kind)
    case None => []
    case Some(bt) =>
      var n := Normalise(fr.range, textLines);
      TagsWellFormed(cfg, bt);
      [Insertion(n.endLine, n.endColumn, EndTag(cfg, bt)), Insertion(n.startLine, n.startColumn, StartTag(cfg, bt))]
  }

  /** The insertion fits its text: a line of it and a positive column. */
  predicate InsertionFits(x: Insertion, textLines: seq<string>)
  {
    1 <= x.line <= |textLines| && x.column >= 1
  }

  /** The tag of an insertion is a well-formed, single-line tag. */
  predicate GoodTag(x: Insertion)
  {
    WellFormedTag(x.tag) && '\n' !in x.tag
  }

  /** Every insertion names a line of the text and a positive column. */
  predicate AllFit(ins: seq<Insertion>, textLines: seq<string>)
  {
    forall i :: 0 <= i < |ins| ==> InsertionFits(ins[i], textLines)
  }

  /** The column of the insertion is a position of its line: at most one past its end. */
  predicate ColumnWithin(x: Insertion, textLines: seq<string>)
    requires InsertionFits(x, textLines)
  {
    x.column <= |textLines[x.line - 1]| + 1
  }

  /** All insertions of the ranges, in the order of the ranges. */
  function Insertions(rs: seq<FormatRange>, textLines: seq<string>, cfg: Config): (ins: seq<Insertion>)
    requires RangesFit(rs, textLines)
    ensures forall i :: 0 <= i < |ins| ==> InsertionFits(ins[i], textLines) && GoodTag(ins[i])
    decreases |rs|
  {
    if rs == [] then []
    else
      var last := rs[|rs| - 1];
      var init := rs[..|rs| - 1];
      assert RangesFit(init, textLines) by {
        forall i | 0 <= i < |init| ensures init[i] == rs[i] {}
      }
      Insertions(init, textLines, cfg) + RangeInsertions(last, textLines, cfg)
  }

  /** The ranges after rendering: those with a tag normalised, the others as they were. */
  function NormaliseAll(rs: seq<FormatRange>, textLines: seq<string>): (r: seq<FormatRange>)
    requires RangesFit(rs, textLines)
    ensures |r| == |rs|
    ensures forall i :: 0 <= i < |rs| ==> r[i].kind == rs[i].kind
    decreases |rs|
  {
    if rs == [] then []
    else
      var last := rs[|rs| - 1];
      var init := rs[..|rs| - 1];
      assert RangesFit(init, textLines) by {
        forall i | 0 <= i < |init| ensures init[i] == rs[i] {}
      }
      var n := if BlockTypeOf(last.kind).Some? then last.(range := Normalise(last.range, textLines)) else last;
      NormaliseAll(init, textLines) + [n]
  }

  /** The sort key of an insertion. */
  function Position(x: Insertion): (int, int)
  {
    (x.line, x.column)
  }

  /** Descending order of positions: later lines first, later columns first. */
  predicate After(a: (int, int), b: (int, int))
  {
    a.0 > b.0 || (a.0 == b.0 && a.1 > b.1)
  }

  lemma {:induction false} AfterIsStrictTotalOrder()
    ensures StrictTotalOrder(After)
  {
  }

  /** The insertions in splicing order: descending position, ties in list order. */
  function SortInsertions(ins: seq<Insertion>): (r: seq<Insertion>)
    ensures multiset(r) == multiset(ins)
  {
    Sort(ins, Position, After)
  }

  /** The splice order is descending, a permutation, and keeps list order among equal positions. */
  lemma {:induction false} SortInsertionsCorrect(ins: seq<Insertion>, p: (int, int))
    ensures SortedBy(SortInsertions(ins), Position, After)
    ensures multiset(SortInsertions(ins)) == multiset(ins)
    ensures WithKey(SortInsertions(ins), Position, p) == WithKey(ins, Position, p)
  {
    AfterIsStrictTotalOrder();
    SortSorted(ins, Position, After);
    SortStable(ins, Position, After, p);
  }

  /** `text[:c] + tag + text[c:]` with Python's clamping. */
  function SpliceAt(t: string, column: int, tag: string): (r: string)
    requires column >= 1
    ensures |r| == |t| + |tag|
  {
    var c := column - 1;
    SliceParts(t, c);
    Slice(t, 0, c) + tag + Slice(t, c, |t|)
  }

  /** Splicing a single-line tag into a single line leaves a single line. */
  lemma {:induction false} SpliceAtOneLine(t: string, column: int, tag: string)
    requires column >= 1 && '\n' !in t && '\n' !in tag
    ensures '\n' !in SpliceAt(t, column, tag)
  {
    SliceParts(t, column - 1);
  }

  lemma {:induction false} SliceParts(t: string, c: nat)
    ensures |Slice(t, 0, c)| + |Slice(t, c, |t|)| == |t|
    ensures forall x :: x in Slice(t, 0, c) ==> x in t
    ensures forall x :: x in Slice(t, c, |t|) ==> x in t
  {
    if c <= |t| {
      assert Slice(t, 0, c) == t[..c] && Slice(t, c, |t|) == t[c..];
    }
  }

  /** Total length of the tags spliced into 1-based line `l`. */
  function TagsOn(ins: seq<Insertion>, l: int): nat
    decreases |ins|
  {
    if ins == [] then 0
    else TagsOn(ins[..|ins| - 1], l) + (if ins[|ins| - 1].line == l then |ins[|ins| - 1].tag| else 0)
  }

  /** The lines after splicing the insertions in order. */
  function SpliceAll(textLines: seq<string>, ins: seq<Insertion>): (r: seq<string>)
    requires AllFit(ins, textLines)
    ensures |r| == |textLines|
    decreases |ins|
  {
    if ins == [] then textLines
    else
      var x := ins[|ins| - 1];
      assert InsertionFits(x, textLines);
      var init := ins[..|ins| - 1];
      assert forall i :: 0 <= i < |init| ==> init[i] == ins[i];
      var prev := SpliceAll(textLines, init);
      prev[x.line - 1 := SpliceAt(prev[x.line - 1], x.column, x.tag)]
  }

  /** Each line grows by exactly the total length of the tags spliced into it. */
  lemma {:induction false} SpliceAllLengths(textLines: seq<string>, ins: seq<Insertion>)
    requires AllFit(ins, textLines)
    ensures forall l :: 0 <= l < |textLines| ==> |SpliceAll(textLines, ins)[l]| == |textLines[l]| + TagsOn(ins, l + 1)
  {
    forall l | 0 <= l < |textLines|
      ensures |SpliceAll(textLines, ins)[l]| == |textLines[l]| + TagsOn(ins, l + 1)
    {
      SpliceAllLength(textLines, ins, l);
    }
  }

  /** The same for one line `l` (0-based). */
  lemma {:induction false} SpliceAllLength(textLines: seq<string>, ins: seq<Insertion>, l: nat)
    requires AllFit(ins, textLines) && l < |textLines|
    ensures |SpliceAll(textLines, ins)[l]| == |textLines[l]| + TagsOn(ins, l + 1)
    decreases |ins|
  {
    if ins != [] {
      var x := ins[|ins| - 1];
      var init := ins[..|ins| - 1];
      assert forall i :: 0 <= i < |init| ==> init[i] == ins[i];
      SpliceAllLength(textLines, init, l);
      var prev := SpliceAll(textLines, init);
      assert SpliceAll(textLines, ins) == prev[x.line - 1 := SpliceAt(prev[x.line - 1], x.column, x.tag)];
      assert TagsOn(ins, l + 1) == TagsOn(init, l + 1) + (if x.line == l + 1 then |x.tag| else 0);
      if l == x.line - 1 {
        assert SpliceAll(textLines, ins)[l] == SpliceAt(prev[l], x.column, x.tag);
      } else {
        assert SpliceAll(textLines, ins)[l] == prev[l];
      }
    }
  }

  /** Splicing single-line tags into single lines leaves single lines. */
  lemma {:induction false} SpliceAllSingleLines(textLines: seq<string>, ins: seq<Insertion>)
    requires forall i :: 0 <= i < |ins| ==> InsertionFits(ins[i], textLines) && GoodTag(ins[i])
    requires forall l :: 0 <= l < |textLines| ==> '\n' !in textLines[l]
    ensures forall l :: 0 <= l < |textLines| ==> '\n' !in SpliceAll(textLines, ins)[l]
    decreases |ins|
  {
    if ins != [] {
      var init := ins[..|ins| - 1];
      assert forall i :: 0 <= i < |init| ==> init[i] == ins[i];
      SpliceAllSingleLines(textLines, init);
      var x := ins[|ins| - 1];
      var prev := SpliceAll(textLines, init);
      SpliceAtOneLine(prev[x.line - 1], x.column, x.tag);
    }
  }

  /** The insertions on 1-based line `l`, in their order. */
  function OnLine(ins: seq<Insertion>, l: int): (r: seq<Insertion>)
    ensures forall i :: 0 <= i < |r| ==> r[i] in ins && r[i].line == l
    decreases |ins|
  {
    if ins == [] then []
    else
      var x := ins[|ins| - 1];
      OnLine(ins[..|ins| - 1], l) + (if x.line == l then [x] else [])
  }

  /** Splicing a line's own insertions into it, in order. */
  function SpliceLine(t: string, ins: seq<Insertion>): string
    requires forall i :: 0 <= i < |ins| ==> ins[i].column >= 1
    decreases |ins|
  {
    if ins == [] then t
    else
      var x := ins[|ins| - 1];
      assert x.column >= 1;
      SpliceAt(SpliceLine(t, ins[..|ins| - 1]), x.column, x.tag)
  }

  /** Splicing all lines at once is splicing each line with its own insertions. */
  lemma {:induction false} SpliceAllLine(textLines: seq<string>, ins: seq<Insertion>, l: nat)
    requires AllFit(ins, textLines)
    requires l < |textLines|
    ensures SpliceAll(textLines, ins)[l] == SpliceLine(textLines[l], OnLine(ins, l + 1))
    decreases |ins|
  {
    if ins != [] {
      var init := ins[..|ins| - 1];
      assert forall i :: 0 <= i < |init| ==> init[i] == ins[i];
      SpliceAllLine(textLines, init, l);
      SpliceAllLineStep(textLines, ins, l);
    }
  }

  /** The last insertion of `ins`, given the property for the ones before it. */
  lemma {:induction false} SpliceAllLineStep(textLines: seq<string>, ins: seq<Insertion>, l: nat)
    requires AllFit(ins, textLines)
    requires ins != [] && l < |textLines|
    requires SpliceAll(textLines, ins[..|ins| - 1])[l] == SpliceLine(textLines[l], OnLine(ins[..|ins| - 1], l + 1))
    ensures SpliceAll(textLines, ins)[l] == SpliceLine(textLines[l], OnLine(ins, l + 1))
  {
    var x := ins[|ins| - 1];
    var on := OnLine(ins[..|ins| - 1], l + 1);
    SpliceAllLastAt(textLines, ins, l);
    OnLineSnoc(ins, l + 1);
    if x.line == l + 1 {
      SpliceLineLast(textLines[l], on, x);
    }
  }

  /** Line `l` after splicing `ins`: the last insertion changes it only when it is on that line. */
  lemma {:induction false} SpliceAllLastAt(textLines: seq<string>, ins: seq<Insertion>, l: nat)
    requires AllFit(ins, textLines)
    requires ins != [] && l < |textLines|
    ensures var x := ins[|ins| - 1];
      var prev := SpliceAll(textLines, ins[..|ins| - 1])[l];
      SpliceAll(textLines, ins)[l] == if x.line == l + 1 then SpliceAt(prev, x.column, x.tag) else prev
  {
  }

  lemma {:induction false} OnLineSnoc(ins: seq<Insertion>, l: int)
    requires ins != []
    ensures var x := ins[|ins| - 1];
      OnLine(ins, l) == if x.line == l then OnLine(ins[..|ins| - 1], l) + [x] else OnLine(ins[..|ins| - 1], l)
  {
    var x := ins[|ins| - 1];
    if x.line != l {
      assert OnLine(ins[..|ins| - 1], l) + [] == OnLine(ins[..|ins| - 1], l);
    }
  }

  lemma {:induction false} SpliceLineLast(t: string, on: seq<Insertion>, x: Insertion)
    requires forall i :: 0 <= i < |on| ==> on[i].column >= 1
    requires x.column >= 1
    ensures forall i :: 0 <= i < |on + [x]| ==> (on + [x])[i].column >= 1
    ensures SpliceLine(t, on + [x]) == SpliceAt(SpliceLine(t, on), x.column, x.tag)
  {
    assert (on + [x])[..|on|] == on;
    assert forall i :: 0 <= i < |on + [x]| ==> (on + [x])[i].column >= 1 by {
      forall i | 0 <= i < |on + [x]| ensures (on + [x])[i].column >= 1 {
        if i < |on| {
          assert (on + [x])[i] == on[i];
        }
      }
    }
  }

  /** The columns of the insertions never increase. */
  predicate ColumnsDescend(ins: seq<Insertion>)
  {
    forall i, j :: 0 <= i < j < |ins| ==> ins[j].column <= ins[i].column
  }

  /** Every column is a position of `t`: at most one past its end. */
  predicate ColumnsWithin(ins: seq<Insertion>, t: string)
  {
    forall i :: 0 <= i < |ins| ==> 1 <= ins[i].column <= |t| + 1
  }

  /** The column of the last insertion, or one past the end of `t`. */
  function Lowest(ins: seq<Insertion>, t: string): int
  {
    if ins == [] then |t| + 1 else ins[|ins| - 1].column
  }

  /**
   * The pieces of a line after splicing its insertions in descending column
   * order: its own characters, in order, with the tags between them.
   */
  function LinePieces(t: string, ins: seq<Insertion>): (ps: seq<Piece>)
    requires ColumnsDescend(ins) && ColumnsWithin(ins, t)
    ensures SourceOf(ps) == t
    ensures 1 <= Lowest(ins, t) && Lowest(ins, t) - 1 <= |ps|
    ensures forall i :: 0 <= i < Lowest(ins, t) - 1 ==> ps[i] == Char(t[i])
    decreases |ins|
  {
    if ins == [] then
      CharsFlatten(t);
      Chars(t)
    else
      var x := ins[|ins| - 1];
      var init := ins[..|ins| - 1];
      assert forall i :: 0 <= i < |init| ==> init[i] == ins[i];
      assert 1 <= x.column <= |t| + 1;
      assert x.column <= Lowest(init, t);
      var p := LinePieces(t, init);
      var c := x.column - 1;
      TagBetween(p, c, x.tag);
      p[..c] + [Tag(x.tag)] + p[c..]
  }

  /** A tag put between two parts of a piece sequence adds nothing to its source. */
  lemma {:induction false} TagBetween(p: seq<Piece>, c: nat, tag: string)
    requires c <= |p|
    ensures SourceOf(p[..c] + [Tag(tag)] + p[c..]) == SourceOf(p)
  {
    var a, b := p[..c], p[c..];
    assert p == a + b;
    SourceConcat(a, b);
    SourceWithTag(a, b, tag);
  }

  /** ... and puts the tag's text between the texts of the two parts. */
  lemma {:induction false} TagBetweenText(p: seq<Piece>, c: nat, tag: string)
    requires c <= |p|
    ensures Flatten(p[..c] + [Tag(tag)] + p[c..]) == Flatten(p[..c]) + tag + Flatten(p[c..])
    ensures Flatten(p) == Flatten(p[..c]) + Flatten(p[c..])
  {
    var a, b := p[..c], p[c..];
    assert p == a + b;
    FlattenConcat(a, b);
    FlattenWithTag(a, b, tag);
  }

  lemma {:induction false} SourceWithTag(a: seq<Piece>, b: seq<Piece>, tag: string)
    ensures SourceOf(a + [Tag(tag)] + b) == SourceOf(a) + SourceOf(b)
  {
    var m := [Tag(tag)];
    SourceConcat(a + m, b);
    SourceConcat(a, m);
    OneTag(tag);
  }

  lemma {:induction false} FlattenWithTag(a: seq<Piece>, b: seq<Piece>, tag: string)
    ensures Flatten(a + [Tag(tag)] + b) == Flatten(a) + tag + Flatten(b)
  {
    var m := [Tag(tag)];
    FlattenConcat(a + m, b);
    FlattenConcat(a, m);
    OneTag(tag);
  }

  /** A lone tag shows its text and holds no source character. */
  lemma {:induction false} OneTag(tag: string)
    ensures Flatten([Tag(tag)]) == tag && SourceOf([Tag(tag)]) == ""
  {
    assert [Tag(tag)][1..] == [];
  }

  /** The pieces of a plain line with well-formed tags are clean. */
  lemma {:induction false} LinePiecesClean(t: string, ins: seq<Insertion>)
    requires ColumnsDescend(ins) && ColumnsWithin(ins, t)
    requires Plain(t) && TagsWellFormedIn(ins)
    ensures Clean(LinePieces(t, ins))
    decreases |ins|
  {
    if ins != [] {
      var x := ins[|ins| - 1];
      var init := ins[..|ins| - 1];
      assert forall i :: 0 <= i < |init| ==> init[i] == ins[i];
      LinePiecesClean(t, init);
      var p := LinePieces(t, init);
      var c := x.column - 1;
      var r := p[..c] + [Tag(x.tag)] + p[c..];
      forall i | 0 <= i < |r| ensures r[i] == Tag(x.tag) || r[i] in p {}
    }
  }

  /** A run of character pieces flattens to those characters. */
  lemma {:induction false} CharPrefix(ps: seq<Piece>, t: string, c: nat)
    requires c <= |ps| && c <= |t|
    requires forall i :: 0 <= i < c ==> ps[i] == Char(t[i])
    ensures Flatten(ps[..c]) == t[..c]
  {
    assert ps[..c] == Chars(t[..c]);
    CharsFlatten(t[..c]);
  }

  /** Splicing a tag at a column inside the leading run of characters puts a tag piece there. */
  lemma {:induction false} SpliceAtPieces(p: seq<Piece>, t: string, c: nat, tag: string)
    requires c <= |p| && c <= |t|
    requires forall i :: 0 <= i < c ==> p[i] == Char(t[i])
    ensures SpliceAt(Flatten(p), c + 1, tag) == Flatten(p[..c] + [Tag(tag)] + p[c..])
  {
    var q := Flatten(p);
    CharPrefix(p, t, c);
    TagBetweenText(p, c, tag);
    assert |Flatten(p[..c])| == c;
    assert q[..c] == Flatten(p[..c]) && q[c..] == Flatten(p[c..]);
    assert Slice(q, 0, c) == q[..c] && Slice(q, c, |q|) == q[c..];
  }

  /** Splicing in descending column order produces exactly those pieces. */
  lemma {:induction false} SpliceLinePieces(t: string, ins: seq<Insertion>)
    requires ColumnsDescend(ins) && ColumnsWithin(ins, t)
    ensures SpliceLine(t, ins) == Flatten(LinePieces(t, ins))
    decreases |ins|
  {
    if ins == [] {
      CharsFlatten(t);
    } else {
      var x := ins[|ins| - 1];
      var init := ins[..|ins| - 1];
      assert forall i :: 0 <= i < |init| ==> init[i] == ins[i];
      SpliceLinePieces(t, init);
      var p := LinePieces(t, init);
      assert x.column <= Lowest(init, t);
      SpliceAtPieces(p, t, x.column - 1, x.tag);
    }
  }

  /** After sorting, the insertions of every line come in descending column order. */
  lemma {:induction false} OnLineDescends(s: seq<Insertion>, l: int)
    requires SortedBy(s, Position, After)
    ensures ColumnsDescend(OnLine(s, l))
    decreases |s|
  {
    if s != [] {
      var x := s[|s| - 1];
      var init := s[..|s| - 1];
      assert SortedBy(init, Position, After) by {
        forall i, j | 0 <= i < j < |init| ensures !After(Position(init[j]), Position(init[i])) {
          assert init[i] == s[i] && init[j] == s[j];
        }
      }
      OnLineDescends(init, l);
      var on := OnLine(init, l);
      if x.line == l {
        forall i | 0 <= i < |on| ensures x.column <= on[i].column {
          var y := on[i];
          assert y in init;
          var k :| 0 <= k < |init| && init[k] == y;
          assert !After(Position(s[|s| - 1]), Position(s[k]));
        }
      }
    }
  }

  /** What a rendered line holds before the text: indent, right-aligned line number, one space. */
  function Gutter(indent: int, n: nat, width: nat): string
  {
    Spaces(indent) + NumberField(n, width)
  }

  /** The line number right-aligned in `width` columns, then one space. */
  function NumberField(n: nat, width: nat): string
  {
    PadLeft(NatToString(n), width) + " "
  }

  lemma {:induction false} GutterSingleLine(indent: int, n: nat, width: nat)
    ensures '\n' !in Spaces(indent) && '\n' !in PadLeft(NatToString(n), width) + " "
  {
    var s := NatToString(n);
    var r := PadLeft(s, width);
    PaddedDigitsOneLine(s, r);
    assert (r + " ")[|r|] == ' ';
  }

  /** Spaces followed by digits hold no line break. */
  lemma {:induction false} PaddedDigitsOneLine(s: string, r: string)
    requires |s| <= |r| && r[|r| - |s|..] == s
    requires forall i :: 0 <= i < |s| ==> '0' <= s[i] <= '9'
    requires forall i :: 0 <= i < |r| - |s| ==> r[i] == ' '
    ensures '\n' !in r
  {
    forall i | 0 <= i < |r| ensures r[i] != '\n' {
      if i >= |r| - |s| {
        assert r[i] == r[|r| - |s|..][i - (|r| - |s|)];
      }
    }
  }

  /** With a width of at least its digits, the gutter is indent, width and one space long. */
  lemma {:induction false} GutterLength(indent: int, n: nat, last: nat)
    requires n <= last
    ensures |Gutter(indent, n, |NatToString(last)|)| == (if indent < 0 then 0 else indent) + |NatToString(last)| + 1
  {
    NatToStringMonotone(n, last);
  }

  /** The gutters of `count` lines numbered from `first`. */
  function Gutters(count: nat, indent: int, first: int, width: nat): (gs: seq<string>)
    requires first >= 1
    ensures |gs| == count
  {
    seq(count, k => Gutter(indent, if first + k < 1 then 1 else first + k, width))
  }

  lemma {:induction false} TakeAll<T>(s: seq<T>)
    ensures s[..|s|] == s
  {
  }

  lemma {:induction false} TakeOneMore<T>(s: seq<T>, i: nat)
    requires i < |s|
    ensures s[..i + 1] == s[..i] + [s[i]]
  {
  }

  lemma {:induction false} GutterAt(count: nat, indent: int, first: int, width: nat, i: nat)
    requires first >= 1 && i < count
    ensures Gutters(count, indent, first, width)[i] == Gutter(indent, first + i, width)
  {
    assert !(first + i < 1);
  }

  /**
   * One rendered line: a new line holding gutter `g` and the text, whose
   * jump entry leads to line `n` of `filename` from the end of the gutter.
   */
  function EmitLine(d: Doc, text: string, g: string, filename: string, n: int): Doc
    requires n >= 1
  {
    Doc(d.lines + [g + text], d.jumps[|d.lines| := Target(filename, n - 1, |g|)], d.signatures)
  }

  /**
   * The steps the renderer takes for one line (new line, indent, number,
   * jump entry, text) produce exactly `EmitLine` with the indent and the
   * number as the gutter.
   */
  lemma {:induction false} EmitLineSteps(d: Doc, text: string, sp: string, num: string, filename: string, n: int,
                      d1: Doc, d2: Doc, d3: Doc, d4: Doc)
    requires Valid(d) && n >= 1 && '\n' !in text && '\n' !in sp && '\n' !in num
    requires d1 == Newline(d) && d2 == Write(d1, sp) && d3 == Write(d2, num)
    requires d4 == SetTargetForPos(d3, filename, n)
    ensures Write(d4, text) == EmitLine(d, text, sp + num, filename, n)
  {
    WriteLast(d1, sp, d.lines, "");
    assert "" + sp == sp;
    assert d2 == Doc(d.lines + [sp], d.jumps, d.signatures);
    WriteLast(d2, num, d.lines, sp);
    assert d3 == Doc(d.lines + [sp + num], d.jumps, d.signatures);
    TargetOnLast(d3, d.lines, sp + num, filename, n);
    WriteLast(d4, text, d.lines, sp + num);
  }

  /** The entry of a last line `last` is anchored at its end. */
  lemma {:induction false} TargetOnLast(d: Doc, pre: seq<string>, last: string, filename: string, n: int)
    requires Valid(d) && n >= 1 && d.lines == pre + [last]
    ensures SetTargetForPos(d, filename, n) == d.(jumps := d.jumps[|pre| := Target(filename, n - 1, |last|)])
  {
  }

  /** Writing text without a line break onto a last line `last`. */
  lemma {:induction false} WriteLast(d: Doc, s: string, pre: seq<string>, last: string)
    requires Valid(d) && '\n' !in s && d.lines == pre + [last]
    ensures Write(d, s) == d.(lines := pre + [last + s])
  {
    WriteOnLine(d, s);
    assert d.lines[..|d.lines| - 1] == pre;
  }

  /** Each line behind its gutter. */
  function Prefixed(gs: seq<string>, ls: seq<string>): (r: seq<string>)
    requires |gs| == |ls|
    ensures |r| == |ls|
  {
    seq(|ls|, i requires 0 <= i < |ls| => gs[i] + ls[i])
  }

  /** The jump entries of the lines from `base` on: each leads to its own line number, past its gutter. */
  function GutterJumps(base: nat, gs: seq<string>, filename: string, first: int): map<nat, Target>
    requires first >= 1
    decreases |gs|
  {
    if gs == [] then map[]
    else GutterJumps(base, gs[..|gs| - 1], filename, first)[base + |gs| - 1 :=
           Target(filename, first + |gs| - 2, |gs[|gs| - 1]|)]
  }

  lemma {:induction false} GutterJump(base: nat, gs: seq<string>, filename: string, first: int, k: nat)
    requires first >= 1
    ensures var m := GutterJumps(base, gs, filename, first);
      && (k in m <==> base <= k < base + |gs|)
      && (k in m ==> m[k] == Target(filename, first + (k - base) - 1, |gs[k - base]|))
    decreases |gs|
  {
    if gs != [] {
      GutterJump(base, gs[..|gs| - 1], filename, first, k);
    }
  }

  /**
   * Lines of annotated text behind their gutters, numbered from `first`:
   * every line in turn becomes a new rendered line with its own jump entry.
   */
  function EmitLines(d: Doc, ls: seq<string>, gs: seq<string>, filename: string, first: int): (r: Doc)
    requires first >= 1 && |gs| == |ls|
    ensures |r.lines| == |d.lines| + |ls|
    decreases |ls|
  {
    if ls == [] then d
    else EmitLine(EmitLines(d, ls[..|ls| - 1], gs[..|gs| - 1], filename, first), ls[|ls| - 1], gs[|gs| - 1],
                  filename, first + |ls| - 1)
  }

  /**
   * All at once: emitting appends every line behind its gutter and adds the
   * jump entries of the new lines.
   */
  lemma {:induction false} EmitLinesShape(d: Doc, ls: seq<string>, gs: seq<string>, filename: string, first: int)
    requires first >= 1 && |gs| == |ls|
    ensures EmitLines(d, ls, gs, filename, first)
         == Doc(d.lines + Prefixed(gs, ls), d.jumps + GutterJumps(|d.lines|, gs, filename, first), d.signatures)
    decreases |ls|
  {
    if ls == [] {
      assert d.lines + Prefixed(gs, ls) == d.lines;
      assert d.jumps + GutterJumps(|d.lines|, gs, filename, first) == d.jumps;
    } else {
      var init, ginit := ls[..|ls| - 1], gs[..|gs| - 1];
      EmitLinesShape(d, init, ginit, filename, first);
      PrefixedLast(gs, ls);
      JumpsLast(d.jumps, |d.lines|, gs, filename, first);
      assert d.lines + Prefixed(ginit, init) + [gs[|gs| - 1] + ls[|ls| - 1]] == d.lines + Prefixed(gs, ls);
    }
  }

  lemma {:induction false} PrefixedLast(gs: seq<string>, ls: seq<string>)
    requires |gs| == |ls| && ls != []
    ensures Prefixed(gs, ls) == Prefixed(gs[..|gs| - 1], ls[..|ls| - 1]) + [gs[|gs| - 1] + ls[|ls| - 1]]
  {
  }

  /** Emitting lines keeps a buffer valid and only extends it. */
  lemma {:induction false} EmitLinesValid(d: Doc, ls: seq<string>, gs: seq<string>, filename: string, first: int)
    requires Valid(d) && first >= 1 && |gs| == |ls|
    ensures Valid(EmitLines(d, ls, gs, filename, first))
    ensures Extends(d, EmitLines(d, ls, gs, filename, first))
  {
    var r := EmitLines(d, ls, gs, filename, first);
    EmitLinesShape(d, ls, gs, filename, first);
    forall k | k in r.jumps ensures k < |r.lines| && r.jumps[k].anchor <= |r.lines[k]| {
      GutterJump(|d.lines|, gs, filename, first, k);
    }
    forall k | k in r.jumps && k < |d.lines| - 1 ensures k in d.jumps {
      GutterJump(|d.lines|, gs, filename, first, k);
    }
    forall k | k in d.jumps ensures r.jumps[k] == d.jumps[k] {
      GutterJump(|d.lines|, gs, filename, first, k);
    }
  }

  lemma {:induction false} JumpsLast(jumps: map<nat, Target>, base: nat, gs: seq<string>, filename: string, first: int)
    requires first >= 1 && gs != []
    ensures jumps + GutterJumps(base, gs, filename, first)
         == (jumps + GutterJumps(base, gs[..|gs| - 1], filename, first))[base + |gs| - 1 :=
              Target(filename, first + |gs| - 2, |gs[|gs| - 1]|)]
  {
  }

  /** Emitting one more line is emitting the others, then that line. */
  lemma {:induction false} EmitLinesLast(d: Doc, ls: seq<string>, gs: seq<string>, text: string, g: string, filename: string, first: int)
    requires first >= 1 && |gs| == |ls|
    ensures EmitLines(d, ls + [text], gs + [g], filename, first)
         == EmitLine(EmitLines(d, ls, gs, filename, first), text, g, filename, first + |ls|)
  {
    assert (ls + [text])[..|ls|] == ls;
    assert (gs + [g])[..|gs|] == gs;
  }

  /** The rendered line of each emitted line: its gutter, then the line. */
  lemma {:induction false} EmitLinesText(d: Doc, ls: seq<string>, gs: seq<string>, filename: string, first: int, i: nat)
    requires first >= 1 && |gs| == |ls| && i < |ls|
    ensures var r := EmitLines(d, ls, gs, filename, first);
      && r.lines[..|d.lines|] == d.lines
      && r.lines[|d.lines| + i] == gs[i] + ls[i]
      && r.signatures == d.signatures
  {
    EmitLinesShape(d, ls, gs, filename, first);
  }

  /**
   * Emitting gives each new line the jump entry for its own line number,
   * anchored after its gutter, keeps the entries there were and adds no other.
   */
  lemma {:induction false} EmitLinesJumps(d: Doc, ls: seq<string>, gs: seq<string>, filename: string, first: int, k: nat)
    requires Valid(d) && first >= 1 && |gs| == |ls|
    ensures var r := EmitLines(d, ls, gs, filename, first);
      && (|d.lines| <= k < |d.lines| + |ls| ==>
            k in r.jumps && r.jumps[k] == Target(filename, first + (k - |d.lines|) - 1, |gs[k - |d.lines|]|))
      && (k in d.jumps ==> k in r.jumps && r.jumps[k] == d.jumps[k])
      && (k in r.jumps ==> k in d.jumps || |d.lines| <= k < |d.lines| + |ls|)
  {
    EmitLinesShape(d, ls, gs, filename, first);
    GutterJump(|d.lines|, gs, filename, first, k);
  }

  /** Every insertion, in splicing order, fits the text and carries a good tag. */
  lemma {:induction false} SortedInsertionsFit(ins: seq<Insertion>, textLines: seq<string>)
    requires forall i :: 0 <= i < |ins| ==> InsertionFits(ins[i], textLines) && GoodTag(ins[i])
    ensures forall i :: 0 <= i < |SortInsertions(ins)| ==>
      InsertionFits(SortInsertions(ins)[i], textLines) && GoodTag(SortInsertions(ins)[i])
  {
    var s := SortInsertions(ins);
    forall i | 0 <= i < |s| ensures InsertionFits(s[i], textLines) && GoodTag(s[i]) {
      assert s[i] in multiset(ins);
    }
  }

  /** The text lines with all tags spliced in, in splicing order. */
  function SplicedLines(at: AnnotatedText, cfg: Config): (r: seq<string>)
    requires RangesFit(at.ranges, Split(at.text, '\n'))
    ensures |r| == |Split(at.text, '\n')|
    ensures forall l :: 0 <= l < |r| ==> '\n' !in r[l]
  {
    var textLines := Split(at.text, '\n');
    var ins := SortInsertions(Insertions(at.ranges, textLines, cfg));
    SortedInsertionsFit(Insertions(at.ranges, textLines, cfg), textLines);
    SplitPieces(at.text, '\n');
    SpliceAllSingleLines(textLines, ins);
    SpliceAll(textLines, ins)
  }

  /** The width of the line-number column: the digits of the last line number. */
  function NumberWidth(first: int, count: nat): nat
    requires first >= 1 && count >= 1
  {
    |NatToString(first + count - 1)|
  }

  /** `RenderAnnotatedText` on the mapper state. */
  function AnnotatedTextDoc(d: Doc, at: AnnotatedText, indent: int, filename: string, first: int, cfg: Config): (r: Doc)
    requires Valid(d) && first >= 1
    requires RangesFit(at.ranges, Split(at.text, '\n'))
    ensures Valid(r)
  {
    var spliced := SplicedLines(at, cfg);
    var gutters := Gutters(|spliced|, indent, first, NumberWidth(first, |spliced|));
    EmitLinesValid(d, spliced, gutters, filename, first);
    EmitLines(d, spliced, gutters, filename, first)
  }

  /**
   * The first pass of `RenderAnnotatedText`: the tag insertions of the
   * ranges with a known block type, and the ranges with the ends of those
   * normalised.
   */
  method CollectInsertions(ranges: seq<FormatRange>, textLines: seq<string>, cfg: Config)
    returns (insertions: seq<Insertion>, normalised: seq<FormatRange>)
    requires RangesFit(ranges, textLines)
    ensures insertions == Insertions(ranges, textLines, cfg)
    ensures normalised == NormaliseAll(ranges, textLines)
  {
    insertions := [];
    normalised := [];
    var i := 0;
    while i < |ranges|
      invariant 0 <= i <= |ranges|
      invariant RangesFit(ranges[..i], textLines)
      invariant insertions == Insertions(ranges[..i], textLines, cfg)
      invariant normalised == NormaliseAll(ranges[..i], textLines)
    {
      var r := ranges[i];
      var blockType := BlockTypeOf(r.kind);
      assert ranges[..i + 1][..i] == ranges[..i] && ranges[..i + 1][i] == r;
      if blockType.None? {
        normalised := normalised + [r];
      } else {
        var range := r.range;
        if range.endColumn == 1 && range.startLine != range.endLine {
          range := range.(endLine := range.endLine - 1);
          range := range.(endColumn := |textLines[range.endLine - 1]| + 1);
        }
        normalised := normalised + [r.(range := range)];
        insertions := insertions + [Insertion(range.endLine, range.endColumn, EndTag(cfg, blockType.value)),
                                    Insertion(range.startLine, range.startColumn, StartTag(cfg, blockType.value))];
      }
      i := i + 1;
    }
    assert ranges[..i] == ranges;
  }

  lemma {:induction false} SpliceAllUnfold(textLines: seq<string>, ins: seq<Insertion>)
    requires AllFit(ins, textLines) && ins != []
    ensures AllFit(ins[..|ins| - 1], textLines)
    ensures var prev := SpliceAll(textLines, ins[..|ins| - 1]);
      var x := ins[|ins| - 1];
      SpliceAll(textLines, ins) == prev[x.line - 1 := SpliceAt(prev[x.line - 1], x.column, x.tag)]
  {
    assert forall i :: 0 <= i < |ins| - 1 ==> ins[..|ins| - 1][i] == ins[i];
  }

  /** The second pass: splices each tag into its line, in the given order. */
  method SpliceTags(textLines: seq<string>, insertions: seq<Insertion>) returns (spliced: seq<string>)
    requires forall i :: 0 <= i < |insertions| ==> InsertionFits(insertions[i], textLines) && GoodTag(insertions[i])
    ensures spliced == SpliceAll(textLines, insertions)
  {
    spliced := textLines;
    for j := 0 to |insertions|
      invariant spliced == SpliceAll(textLines, insertions[..j])
    {
      SpliceNext(textLines, insertions, j);
      spliced := SpliceInto(spliced, insertions[j]);
    }
    assert insertions[..|insertions|] == insertions;
  }

  /** One iteration of the second pass: the tag goes into its line, before its column. */
  method SpliceInto(lines: seq<string>, x: Insertion) returns (r: seq<string>)
    requires 1 <= x.line <= |lines| && x.column >= 1
    ensures r == lines[x.line - 1 := SpliceAt(lines[x.line - 1], x.column, x.tag)]
  {
    var line, column := x.line - 1, x.column - 1;
    var text := lines[line];
    r := lines[line := Slice(text, 0, column) + x.tag + Slice(text, column, |text|)];
  }

  /** Splicing the first `j + 1` insertions is splicing insertion `j` after the first `j`. */
  lemma {:induction false} SpliceNext(textLines: seq<string>, ins: seq<Insertion>, j: nat)
    requires AllFit(ins, textLines) && j < |ins|
    ensures AllFit(ins[..j], textLines) && AllFit(ins[..j + 1], textLines)
    ensures var prev := SpliceAll(textLines, ins[..j]);
      var x := ins[j];
      SpliceAll(textLines, ins[..j + 1]) == prev[x.line - 1 := SpliceAt(prev[x.line - 1], x.column, x.tag)]
  {
    SpliceAllUnfold(textLines, ins[..j + 1]);
    assert ins[..j + 1][..j] == ins[..j];
  }

  /** One iteration of the last pass: new line, indent, number, jump entry, text. */
  method EmitNumberedLine(mapper: LocationMapper, text: string, indent: int, filename: string, n: int, width: nat)
    requires mapper.Valid() && n >= 1 && '\n' !in text
    modifies mapper
    ensures mapper.Valid()
    ensures mapper.State() == EmitLine(old(mapper.State()), text, Gutter(indent, n, width), filename, n)
  {
    ghost var before := mapper.State();
    var sp, num := Spaces(indent), PadLeft(NatToString(n), width) + " ";
    GutterSingleLine(indent, n, width);
    mapper.Newline();
    ghost var d1 := mapper.State();
    mapper.Write(sp);
    ghost var d2 := mapper.State();
    mapper.Write(num);
    ghost var d3 := mapper.State();
    mapper.SetTargetForPos(filename, n);
    ghost var d4 := mapper.State();
    mapper.Write(text);
    EmitLineSteps(before, text, sp, num, filename, n, d1, d2, d3, d4);
  }

  /** One more line emitted after the first `i`. */
  lemma {:induction false} EmitStep(d0: Doc, ls: seq<string>, gs: seq<string>, i: nat, filename: string, first: int,
                 g: string, before: Doc, after: Doc)
    requires first >= 1 && i < |ls| == |gs| && gs[i] == g
    requires before == EmitLines(d0, ls[..i], gs[..i], filename, first)
    requires after == EmitLine(before, ls[i], g, filename, first + i)
    ensures after == EmitLines(d0, ls[..i + 1], gs[..i + 1], filename, first)
  {
    TakeOneMore(ls, i);
    TakeOneMore(gs, i);
    EmitLinesLast(d0, ls[..i], gs[..i], ls[i], gs[i], filename, first);
  }

  /** The last pass: each line behind its gutter, with its jump entry. */
  method EmitAnnotatedLines(mapper: LocationMapper, spliced: seq<string>, indent: int, filename: string,
                            first: int, width: nat)
    requires mapper.Valid() && first >= 1
    requires forall l :: 0 <= l < |spliced| ==> '\n' !in spliced[l]
    modifies mapper
    ensures mapper.Valid()
    ensures mapper.State() == EmitLines(old(mapper.State()), spliced, Gutters(|spliced|, indent, first, width), filename, first)
  {
    ghost var d0 := mapper.State();
    ghost var gutters := Gutters(|spliced|, indent, first, width);
    for index := 0 to |spliced|
      invariant mapper.Valid()
      invariant mapper.State() == EmittedUpTo(d0, spliced, gutters, filename, first, index)
    {
      GutterAt(|spliced|, indent, first, width, index);
      EmittedNext(d0, spliced, gutters, filename, first, index, Gutter(indent, first + index, width));
      EmitNumberedLine(mapper, spliced[index], indent, filename, first + index, width);
    }
    EmittedAll(d0, spliced, gutters, filename, first);
  }

  /** The buffer after the first `i` lines have been emitted one at a time. */
  ghost function EmittedUpTo(d: Doc, ls: seq<string>, gs: seq<string>, filename: string, first: int, i: nat): Doc
    requires first >= 1 && |gs| == |ls| && i <= |ls|
    decreases i
  {
    if i == 0 then d
    else EmitLine(EmittedUpTo(d, ls, gs, filename, first, i - 1), ls[i - 1], gs[i - 1], filename, first + i - 1)
  }

  lemma {:induction false} EmittedNext(d: Doc, ls: seq<string>, gs: seq<string>, filename: string, first: int, i: nat, g: string)
    requires first >= 1 && |gs| == |ls| && i < |ls| && gs[i] == g
    ensures EmittedUpTo(d, ls, gs, filename, first, i + 1)
         == EmitLine(EmittedUpTo(d, ls, gs, filename, first, i), ls[i], g, filename, first + i)
  {
    assert first + (i + 1) - 1 == first + i;
  }

  /** Emitting the lines one at a time is emitting them all at once. */
  lemma {:induction false} EmittedAll(d: Doc, ls: seq<string>, gs: seq<string>, filename: string, first: int)
    requires first >= 1 && |gs| == |ls|
    ensures EmittedUpTo(d, ls, gs, filename, first, |ls|) == EmitLines(d, ls, gs, filename, first)
  {
    EmittedPrefix(d, ls, gs, filename, first, |ls|);
    TakeAll(ls);
    TakeAll(gs);
  }

  lemma {:induction false} EmittedPrefix(d: Doc, ls: seq<string>, gs: seq<string>, filename: string, first: int, i: nat)
    requires first >= 1 && |gs| == |ls| && i <= |ls|
    ensures EmittedUpTo(d, ls, gs, filename, first, i) == EmitLines(d, ls[..i], gs[..i], filename, first)
    decreases i
  {
    if i == 0 {
      EmitNothing(d, ls[..0], gs[..0], filename, first);
    } else {
      EmittedPrefix(d, ls, gs, filename, first, i - 1);
      EmitStep(d, ls, gs, i - 1, filename, first, gs[i - 1],
               EmittedUpTo(d, ls, gs, filename, first, i - 1), EmittedUpTo(d, ls, gs, filename, first, i));
    }
  }

  lemma {:induction false} EmitNothing(d: Doc, ls: seq<string>, gs: seq<string>, filename: string, first: int)
    requires first >= 1 && ls == [] && gs == []
    ensures EmitLines(d, ls, gs, filename, first) == d
  {
    assert d.lines + Prefixed(gs, ls) == d.lines;
    assert d.jumps + GutterJumps(|d.lines|, gs, filename, first) == d.jumps;
  }

  /**
   * Renders annotated text into the mapper; returns the ranges as the
   * rendering leaves them, with the ends of tagged ranges normalised.
   */
  method RenderAnnotatedText(mapper: LocationMapper, at: AnnotatedText, indent: int, filename: string,
                             first: int, cfg: Config) returns (ranges: seq<FormatRange>)
    requires mapper.Valid()
    requires first >= 1
    requires RangesFit(at.ranges, Split(at.text, '\n'))
    modifies mapper
    ensures mapper.Valid()
    ensures ranges == NormaliseAll(at.ranges, Split(at.text, '\n'))
    ensures mapper.State() == AnnotatedTextDoc(old(mapper.State()), at, indent, filename, first, cfg)
  {
    var textLines := Split(at.text, '\n');
    var width := |NatToString(first + |textLines| - 1)|;
    var insertions;
    insertions, ranges := CollectInsertions(at.ranges, textLines, cfg);
    insertions := SortInsertions(insertions);
    SortedInsertionsFit(Insertions(at.ranges, textLines, cfg), textLines);
    var spliced := SpliceTags(textLines, insertions);
    assert spliced == SplicedLines(at, cfg);
    EmitAnnotatedLines(mapper, spliced, indent, filename, first, width);
  }

  /** The insertions of ranges that lie within their lines lie within their lines. */
  lemma {:induction false} InsertionsWithin(rs: seq<FormatRange>, textLines: seq<string>, cfg: Config)
    requires RangesFit(rs, textLines) && RangesWithin(rs, textLines)
    ensures forall i :: 0 <= i < |Insertions(rs, textLines, cfg)| ==>
      ColumnWithin(Insertions(rs, textLines, cfg)[i], textLines)
    decreases |rs|
  {
    if rs != [] {
      var init := rs[..|rs| - 1];
      RangesWithinInit(rs, textLines);
      InsertionsWithin(init, textLines, cfg);
      LastRangeWithin(rs, textLines, cfg);
      var a := Insertions(init, textLines, cfg);
      var b := RangeInsertions(rs[|rs| - 1], textLines, cfg);
      assert Insertions(rs, textLines, cfg) == a + b;
      AppendWithin(a, b, textLines);
    }
  }

  lemma {:induction false} AppendWithin(a: seq<Insertion>, b: seq<Insertion>, textLines: seq<string>)
    requires forall i :: 0 <= i < |a| ==> InsertionFits(a[i], textLines) && ColumnWithin(a[i], textLines)
    requires forall i :: 0 <= i < |b| ==> InsertionFits(b[i], textLines) && ColumnWithin(b[i], textLines)
    ensures forall i :: 0 <= i < |a + b| ==> InsertionFits((a + b)[i], textLines) && ColumnWithin((a + b)[i], textLines)
  {
    forall i | 0 <= i < |a + b| ensures InsertionFits((a + b)[i], textLines) && ColumnWithin((a + b)[i], textLines) {
      if i < |a| {
        assert (a + b)[i] == a[i];
      } else {
        assert (a + b)[i] == b[i - |a|];
      }
    }
  }

  /** The two insertions of the last range lie within their lines. */
  lemma {:induction false} LastRangeWithin(rs: seq<FormatRange>, textLines: seq<string>, cfg: Config)
    requires RangesFit(rs, textLines) && RangesWithin(rs, textLines) && rs != []
    ensures var b := RangeInsertions(rs[|rs| - 1], textLines, cfg);
      forall i :: 0 <= i < |b| ==> ColumnWithin(b[i], textLines)
  {
    var last := rs[|rs| - 1];
    if BlockTypeOf(last.kind).Some? {
      var n := Normalise(last.range, textLines);
      assert n.startColumn <= |textLines[n.startLine - 1]| + 1 && n.endColumn <= |textLines[n.endLine - 1]| + 1;
      RangeInsertionsAt(last, textLines, cfg);
    }
  }

  /** A range with a tag gives two insertions: at its normalised end, then at its start. */
  lemma {:induction false} RangeInsertionsAt(fr: FormatRange, textLines: seq<string>, cfg: Config)
    requires BlockTypeOf(fr.kind).Some? && Fits(fr.range, textLines)
    ensures var b := RangeInsertions(fr, textLines, cfg);
      var n := Normalise(fr.range, textLines);
      && |b| == 2
      && b[0].line == n.endLine && b[0].column == n.endColumn
      && b[1].line == n.startLine && b[1].column == n.startColumn
  {
  }

  lemma {:induction false} RangesFitInit(rs: seq<FormatRange>, textLines: seq<string>)
    requires RangesFit(rs, textLines) && rs != []
    ensures RangesFit(rs[..|rs| - 1], textLines)
  {
    forall i | 0 <= i < |rs| - 1 ensures rs[..|rs| - 1][i] == rs[i] {}
  }

  lemma {:induction false} RangesWithinInit(rs: seq<FormatRange>, textLines: seq<string>)
    requires RangesFit(rs, textLines) && RangesWithin(rs, textLines) && rs != []
    ensures RangesFit(rs[..|rs| - 1], textLines) && RangesWithin(rs[..|rs| - 1], textLines)
  {
    RangesFitInit(rs, textLines);
    forall i | 0 <= i < |rs| - 1 ensures rs[..|rs| - 1][i] == rs[i] {}
  }

  predicate TagsWellFormedIn(ins: seq<Insertion>)
  {
    forall i :: 0 <= i < |ins| ==> WellFormedTag(ins[i].tag)
  }

  /**
   * The insertions a line receives, taken from a reordering of insertions
   * that lie within their lines, lie within that line and carry
   * well-formed tags.
   */
  lemma {:induction false} OnLineWithin(ins: seq<Insertion>, s: seq<Insertion>, textLines: seq<string>, l: nat)
    requires multiset(s) == multiset(ins) && l < |textLines|
    requires forall i :: 0 <= i < |ins| ==> InsertionFits(ins[i], textLines) && GoodTag(ins[i])
    requires forall i :: 0 <= i < |ins| ==> ColumnWithin(ins[i], textLines)
    ensures ColumnsWithin(OnLine(s, l + 1), textLines[l])
    ensures TagsWellFormedIn(OnLine(s, l + 1))
  {
    var on := OnLine(s, l + 1);
    forall i | 0 <= i < |on| ensures 1 <= on[i].column <= |textLines[l]| + 1 && WellFormedTag(on[i].tag) {
      assert on[i] in multiset(ins);
      var j :| 0 <= j < |ins| && ins[j] == on[i];
      assert InsertionFits(ins[j], textLines) && ColumnWithin(ins[j], textLines) && GoodTag(ins[j]);
    }
  }

  /**
   * Splicing insertions that lie within their lines, in splicing order,
   * leaves each line's own characters in order with the tags between them.
   */
  lemma {:induction false} SpliceAllPieces(textLines: seq<string>, ins: seq<Insertion>, s: seq<Insertion>, l: nat)
    requires forall i :: 0 <= i < |ins| ==> InsertionFits(ins[i], textLines) && GoodTag(ins[i])
    requires forall i :: 0 <= i < |ins| ==> ColumnWithin(ins[i], textLines)
    requires AllFit(s, textLines)
    requires multiset(s) == multiset(ins) && SortedBy(s, Position, After)
    requires l < |textLines|
    ensures exists ps :: SpliceAll(textLines, s)[l] == Flatten(ps) && SourceOf(ps) == textLines[l] &&
                         (Plain(textLines[l]) ==> Clean(ps))
  {
    var t := textLines[l];
    var on := OnLine(s, l + 1);
    OnLineDescends(s, l + 1);
    OnLineWithin(ins, s, textLines, l);
    SpliceAllLine(textLines, s, l);
    SpliceLinePieces(t, on);
    if Plain(t) {
      LinePiecesClean(t, on);
    }
    var ps := LinePieces(t, on);
    assert SpliceAll(textLines, s)[l] == Flatten(ps) && SourceOf(ps) == t;
  }

  /**
   * Each spliced line is the line's own characters, in order, with the tags
   * between them; the tags are well formed, so a line free of markup
   * delimiters splices into clean pieces.
   */
  lemma {:induction false} SplicedLinePieces(at: AnnotatedText, cfg: Config, l: nat)
    requires RangesFit(at.ranges, Split(at.text, '\n')) && RangesWithin(at.ranges, Split(at.text, '\n'))
    requires l < |Split(at.text, '\n')|
    ensures exists ps :: SplicedLines(at, cfg)[l] == Flatten(ps) && SourceOf(ps) == Split(at.text, '\n')[l] &&
                         (Plain(Split(at.text, '\n')[l]) ==> Clean(ps))
  {
    var textLines := Split(at.text, '\n');
    var ins := Insertions(at.ranges, textLines, cfg);
    InsertionsWithin(at.ranges, textLines, cfg);
    SortedInsertionsFit(ins, textLines);
    SortInsertionsCorrect(ins, (0, 0));
    assert SplicedLines(at, cfg) == SpliceAll(textLines, SortInsertions(ins));
    SpliceAllPieces(textLines, ins, SortInsertions(ins), l);
  }

  /** Each emitted line behind a numbered gutter, with its jump entry. */
  lemma {:induction false} EmittedLine(d: Doc, ls: seq<string>, indent: int, filename: string, first: int, l: nat)
    requires Valid(d) && first >= 1 && l < |ls|
    ensures var width := NumberWidth(first, |ls|);
      var r := EmitLines(d, ls, Gutters(|ls|, indent, first, width), filename, first);
      var g := Gutter(indent, first + l, width);
      && |g| == (if indent < 0 then 0 else indent) + width + 1
      && r.lines[|d.lines| + l] == g + ls[l]
      && |d.lines| + l in r.jumps
      && r.jumps[|d.lines| + l] == Target(filename, first + l - 1, |g|)
  {
    var width := NumberWidth(first, |ls|);
    var gs := Gutters(|ls|, indent, first, width);
    GutterAt(|ls|, indent, first, width, l);
    GutterLength(indent, first + l, first + |ls| - 1);
    EmittedLineAt(d, ls, gs, filename, first, l, Gutter(indent, first + l, width));
  }

  /** Line `l` of the emitted lines, whatever its gutter `g`. */
  lemma {:induction false} EmittedLineAt(d: Doc, ls: seq<string>, gs: seq<string>, filename: string, first: int, l: nat, g: string)
    requires Valid(d) && first >= 1 && |gs| == |ls| && l < |ls| && gs[l] == g
    ensures var r := EmitLines(d, ls, gs, filename, first);
      && r.lines[|d.lines| + l] == g + ls[l]
      && |d.lines| + l in r.jumps
      && r.jumps[|d.lines| + l] == Target(filename, first + l - 1, |g|)
  {
    EmitLinesText(d, ls, gs, filename, first, l);
    EmitLinesJumps(d, ls, gs, filename, first, |d.lines| + l);
  }

  /**
   * Rendered line `k` shows source line `t` of `filename`: it holds gutter
   * `g`, then the characters of `t` in order with tags between them, and its
   * entry leads to 1-based `line` of the file from the end of the gutter.
   */
  ghost predicate ShowsLine(r: Doc, k: nat, g: string, t: string, filename: string, line: int)
  {
    && k < |r.lines| && line >= 1
    && k in r.jumps && r.jumps[k] == Target(filename, line - 1, |g|)
    && exists ps :: r.lines[k] == g + Flatten(ps) && SourceOf(ps) == t && (Plain(t) ==> Clean(ps))
  }

  /**
   * Every rendered line of annotated text: its gutter, then the line's own
   * characters in order with the tags between them, and a jump entry that
   * leads to its line of the file from the end of the gutter.
   */
  lemma {:induction false} AnnotatedLine(d: Doc, at: AnnotatedText, indent: int, filename: string, first: int, cfg: Config, l: nat)
    requires Valid(d) && first >= 1
    requires RangesFit(at.ranges, Split(at.text, '\n')) && RangesWithin(at.ranges, Split(at.text, '\n'))
    requires l < |Split(at.text, '\n')|
    ensures |Gutter(indent, first + l, NumberWidth(first, |Split(at.text, '\n')|))|
         == (if indent < 0 then 0 else indent) + NumberWidth(first, |Split(at.text, '\n')|) + 1
    ensures ShowsLine(AnnotatedTextDoc(d, at, indent, filename, first, cfg), |d.lines| + l,
                      Gutter(indent, first + l, NumberWidth(first, |Split(at.text, '\n')|)), Split(at.text, '\n')[l],
                      filename, first + l)
  {
    var textLines := Split(at.text, '\n');
    var spliced := SplicedLines(at, cfg);
    var width := NumberWidth(first, |spliced|);
    assert AnnotatedTextDoc(d, at, indent, filename, first, cfg)
        == EmitLines(d, spliced, Gutters(|spliced|, indent, first, width), filename, first);
    EmittedLine(d, spliced, indent, filename, first, l);
    SplicedLinePieces(at, cfg, l);
    var ps :| spliced[l] == Flatten(ps) && SourceOf(ps) == textLines[l] && (Plain(textLines[l]) ==> Clean(ps));
    assert AnnotatedTextDoc(d, at, indent, filename, first, cfg).lines[|d.lines| + l]
        == Gutter(indent, first + l, width) + Flatten(ps);
  }

  /** A prefix of a piece sequence holding exactly `c` of its source characters. */
  lemma {:induction false} PrefixWithSource(ps: seq<Piece>, c: nat) returns (j: nat)
    requires c <= |SourceOf(ps)|
    ensures j <= |ps| && |SourceOf(ps[..j])| == c
    decreases |ps|
  {
    if c == 0 {
      j := 0;
    } else {
      var j' := PrefixWithSource(ps[1..], if ps[0].Char? then c - 1 else c);
      j := j' + 1;
      assert ps[..j][0] == ps[0] && ps[..j][1..] == ps[1..][..j'];
    }
  }

  /**
   * On a line holding a gutter and then clean pieces, with the entry
   * anchored after the gutter, a click just past a prefix of the pieces
   * leads to the source column just past that prefix's characters.
   */
  lemma {:induction false} ClickAfterPrefix(r: Doc, k: nat, g: string, pre: seq<Piece>, rest: seq<Piece>, column: int, loc: Location)
    requires Valid(r) && k in r.jumps && r.jumps[k].anchor == |g| && r.lines[k] == g + Flatten(pre + rest)
    requires Clean(pre)
    requires column == r.jumps[k].anchor + |Flatten(pre)| + 1
    requires loc == Location(r.jumps[k].file, r.jumps[k].line + 1, |SourceOf(pre)| + 1)
    ensures JumpTargetAt(r, k + 1, column) == Some(loc)
    ensures JumpTargetAtAsWritten(r, k + 1, column) == Success(JumpTargetAt(r, k + 1, column))
    ensures LeadsTo(r, k + 1, column, loc)
  {
    FlattenAppend(pre, rest);
    assert r.lines[k][|g|..|g| + |Flatten(pre)|] == Flatten(pre);
    JumpAcrossPieces(r, k, pre, column);
  }

  /** Some click on such a line leads to each source column. */
  lemma {:induction false} ClickInPieces(r: Doc, k: nat, g: string, ps: seq<Piece>, c: nat) returns (col: int)
    requires Valid(r) && k in r.jumps && r.jumps[k].anchor == |g| && r.lines[k] == g + Flatten(ps)
    requires Clean(ps) && c <= |SourceOf(ps)|
    ensures LeadsTo(r, k + 1, col, Location(r.jumps[k].file, r.jumps[k].line + 1, c + 1))
  {
    var j := PrefixWithSource(ps, c);
    CleanSplit(ps, j);
    col := r.jumps[k].anchor + |Flatten(ps[..j])| + 1;
    ClickAfterPrefix(r, k, g, ps[..j], ps[j..], col, Location(r.jumps[k].file, r.jumps[k].line + 1, c + 1));
  }

  /** A prefix of clean pieces is clean, and it and the rest make up the whole. */
  lemma {:induction false} CleanSplit(ps: seq<Piece>, j: nat)
    requires Clean(ps) && j <= |ps|
    ensures Clean(ps[..j]) && ps[..j] + ps[j..] == ps
  {
    forall i | 0 <= i < j ensures ps[..j][i] == ps[i] {}
  }

  /**
   * A click at 1-based rendered `line` and `column` leads to `loc`, by the
   * query and by the query as written.
   */
  predicate LeadsTo(d: Doc, line: int, column: int, loc: Location)
  {
    && Valid(d) && line > 0 && column > 0
    && JumpTargetAt(d, line, column) == Some(loc)
    && JumpTargetAtAsWritten(d, line, column) == Success(JumpTargetAt(d, line, column))
  }

  /**
   * A click at `column` of the rendered line `base + l` (0-based) leads to
   * column `c + 1` of line `first + l` of `filename`.
   */
  predicate LeadsBack(d: Doc, base: nat, l: nat, column: int, filename: string, first: int, c: nat)
  {
    LeadsTo(d, base + l + 1, column, Location(filename, first + l, c + 1))
  }

  /**
   * On rendered line `base + l`, holding gutter `g` and then the pieces of
   * source line `t`, with the entry for line `first + l` anchored after the
   * gutter, some click leads to each column of `t`.
   */
  lemma {:induction false} ClickOnLine(r: Doc, base: nat, l: nat, g: string, t: string, filename: string, first: int, c: nat)
    requires Valid(r) && ShowsLine(r, base + l, g, t, filename, first + l)
    requires Plain(t) && c <= |t|
    ensures exists col :: LeadsBack(r, base, l, col, filename, first, c)
  {
    var k := base + l;
    var ps :| r.lines[k] == g + Flatten(ps) && SourceOf(ps) == t && Clean(ps);
    var col := ClickInPieces(r, k, g, ps, c);
    assert Location(r.jumps[k].file, r.jumps[k].line + 1, c + 1) == Location(filename, first + l, c + 1);
    assert LeadsBack(r, base, l, col, filename, first, c);
  }

  /**
   * Round trip of annotated text: for a line free of markup delimiters,
   * every 1-based column `c + 1` of it, up to one past its end, is where
   * some position of its rendered line leads back to, both by the query and
   * by the query as written.
   */
  lemma {:induction false} AnnotatedTextRoundTrip(d: Doc, at: AnnotatedText, indent: int, filename: string, first: int, cfg: Config,
                               l: nat, c: nat)
    requires Valid(d) && first >= 1
    requires RangesFit(at.ranges, Split(at.text, '\n')) && RangesWithin(at.ranges, Split(at.text, '\n'))
    requires l < |Split(at.text, '\n')| && Plain(Split(at.text, '\n')[l]) && c <= |Split(at.text, '\n')[l]|
    ensures exists col :: LeadsBack(AnnotatedTextDoc(d, at, indent, filename, first, cfg), |d.lines|, l, col,
                                    filename, first, c)
  {
    var textLines := Split(at.text, '\n');
    var r := AnnotatedTextDoc(d, at, indent, filename, first, cfg);
    var g := Gutter(indent, first + l, NumberWidth(first, |textLines|));
    AnnotatedLine(d, at, indent, filename, first, cfg, l);
    ClickOnLine(r, |d.lines|, l, g, textLines[l], filename, first, c);
  }

  /**
   * Rendering annotated text appends exactly one line per line of the text
   * and keeps the lines there were; each new line is as long as its gutter,
   * its text and the tags spliced into it together.
   */
  lemma {:induction false} AnnotatedTextLines(d: Doc, at: AnnotatedText, indent: int, filename: string, first: int, cfg: Config, l: nat)
    requires Valid(d) && first >= 1
    requires RangesFit(at.ranges, Split(at.text, '\n'))
    requires l < |Split(at.text, '\n')|
    ensures |AnnotatedTextDoc(d, at, indent, filename, first, cfg).lines| == |d.lines| + |Split(at.text, '\n')|
    ensures AnnotatedTextDoc(d, at, indent, filename, first, cfg).lines[..|d.lines|] == d.lines
    ensures AnnotatedTextDoc(d, at, indent, filename, first, cfg).signatures == d.signatures
    ensures |AnnotatedTextDoc(d, at, indent, filename, first, cfg).lines[|d.lines| + l]|
         == (if indent < 0 then 0 else indent) + NumberWidth(first, |Split(at.text, '\n')|) + 1
            + |Split(at.text, '\n')[l]|
            + TagsOn(SortInsertions(Insertions(at.ranges, Split(at.text, '\n'), cfg)), l + 1)
  {
    var textLines := Split(at.text, '\n');
    var ins := Insertions(at.ranges, textLines, cfg);
    var spliced := SplicedLines(at, cfg);
    var width := NumberWidth(first, |spliced|);
    var gs := Gutters(|spliced|, indent, first, width);
    assert AnnotatedTextDoc(d, at, indent, filename, first, cfg) == EmitLines(d, spliced, gs, filename, first);
    EmittedLine(d, spliced, indent, filename, first, l);
    EmitLinesText(d, spliced, gs, filename, first, l);
    SortedInsertionsFit(ins, textLines);
    assert spliced == SpliceAll(textLines, SortInsertions(ins));
    SpliceAllLengths(textLines, SortInsertions(ins));
  }

  /** A snippet of a file: the number of its first line (0 when unknown) and its text. */
  datatype Snippet = Snippet(firstLineNumber: int, text: AnnotatedText)

  /** The snippet's own first line number, or the fallback when it has none. */
  function SnippetFirstLine(s: Snippet, aux: int): int
  {
    if s.firstLineNumber != 0 then s.firstLineNumber else aux
  }

  /** What the separator line between two snippets shows after its indent. */
  const Elision: string := "[...]"

  lemma {:induction false} ElisionOneLine()
    ensures '\n' !in Elision
  {
  }

  /** The `[...]` line that separates a snippet from the one before, leading to its first line. */
  function SeparatorDoc(d: Doc, indent: int, filename: string, first: int): (r: Doc)
    requires Valid(d) && first >= 1
    ensures Valid(r)
  {
    SetTargetForPos(Write(Write(Newline(d), Spaces(indent)), Elision), filename, first)
  }

  /** `RenderSnippet` on the mapper state. */
  function SnippetDoc(d: Doc, index: int, s: Snippet, filename: string, level: int, aux: int, cfg: Config): (r: Doc)
    requires Valid(d) && SnippetFirstLine(s, aux) >= 1
    requires RangesFit(s.text.ranges, Split(s.text.text, '\n'))
    ensures Valid(r)
  {
    var first := SnippetFirstLine(s, aux);
    var indent := SnippetIndent * level;
    var before := if index != 0 then SeparatorDoc(d, indent, filename, first) else d;
    AnnotatedTextDoc(before, s.text, indent, filename, first, cfg)
  }

  /** The separator is a line holding the indent and `[...]`, whose entry is anchored at its end. */
  lemma {:induction false} SeparatorShape(d: Doc, indent: int, filename: string, first: int)
    requires Valid(d) && first >= 1
    ensures SeparatorDoc(d, indent, filename, first) == EmitLine(d, "", Spaces(indent) + Elision, filename, first)
  {
    GutterSingleLine(indent, 0, 0);
    ElisionOneLine();
    var d1 := Newline(d);
    var d2 := Write(d1, Spaces(indent));
    var d3 := Write(d2, Elision);
    var d4 := SetTargetForPos(d3, filename, first);
    EmitLineSteps(d, "", Spaces(indent), Elision, filename, first, d1, d2, d3, d4);
    WriteNothing(d4);
  }

  /**
   * Every snippet but the first is preceded by a `[...]` line; a click
   * anywhere on it, up to one past its end, leads to the first line of the
   * snippet, column 1.
   */
  lemma {:induction false} SnippetSeparator(d: Doc, index: int, s: Snippet, filename: string, level: int, aux: int, cfg: Config,
                         col: int)
    requires Valid(d) && SnippetFirstLine(s, aux) >= 1
    requires RangesFit(s.text.ranges, Split(s.text.text, '\n'))
    requires index != 0
    requires 1 <= col <= |Spaces(SnippetIndent * level)| + 6
    ensures ClickOnSeparator(SnippetDoc(d, index, s, filename, level, aux, cfg), |d.lines|,
                             Spaces(SnippetIndent * level) + Elision, col, filename, SnippetFirstLine(s, aux))
  {
    SnippetKeepsSeparator(d, index, s, filename, level, aux, cfg);
    KeptSeparatorClick(SeparatorDoc(d, SnippetIndent * level, filename, SnippetFirstLine(s, aux)),
                       SnippetDoc(d, index, s, filename, level, aux, cfg), |d.lines|, filename,
                       SnippetFirstLine(s, aux), col);
  }

  /**
   * `r` keeps line `k` of `sep`, whose entry jumps to 1-based line `first`
   * of `filename` and is anchored at the line's end.
   */
  ghost predicate KeptSeparator(sep: Doc, r: Doc, k: nat, filename: string, first: int)
  {
    && Valid(r) && Keeps(sep, r) && k < |sep.lines| && first >= 1
    && k in sep.jumps && sep.jumps[k] == Target(filename, first - 1, |sep.lines[k]|)
  }

  /** The rendered snippet keeps its separator line and the separator's entry. */
  lemma {:induction false} SnippetKeepsSeparator(d: Doc, index: int, s: Snippet, filename: string, level: int, aux: int, cfg: Config)
    requires Valid(d) && SnippetFirstLine(s, aux) >= 1
    requires RangesFit(s.text.ranges, Split(s.text.text, '\n'))
    requires index != 0
    ensures SeparatorDoc(d, SnippetIndent * level, filename, SnippetFirstLine(s, aux)).lines[|d.lines|]
         == Spaces(SnippetIndent * level) + Elision
    ensures KeptSeparator(SeparatorDoc(d, SnippetIndent * level, filename, SnippetFirstLine(s, aux)),
                          SnippetDoc(d, index, s, filename, level, aux, cfg), |d.lines|, filename,
                          SnippetFirstLine(s, aux))
  {
    SeparatorEntry(d, SnippetIndent * level, filename, SnippetFirstLine(s, aux));
    SnippetAfterSeparator(d, index, s, filename, level, aux, cfg);
    AnnotatedTextKeeps(SeparatorDoc(d, SnippetIndent * level, filename, SnippetFirstLine(s, aux)), s.text,
                       SnippetIndent * level, filename, SnippetFirstLine(s, aux), cfg);
  }

  /** A click on a kept line whose entry is anchored at its end leads to column 1 of the entry's line. */
  lemma {:induction false} KeptSeparatorClick(sep: Doc, r: Doc, k: nat, filename: string, first: int, col: int)
    requires KeptSeparator(sep, r, k, filename, first)
    requires 1 <= col <= |sep.lines[k]| + 1
    ensures ClickOnSeparator(r, k, sep.lines[k], col, filename, first)
  {
    KeptEntryAtEnd(sep, r, k, col);
  }

  /** Line `k` of `r` reads `text`, and a click at `col` on it leads to column 1 of line `first`. */
  predicate ClickOnSeparator(r: Doc, k: nat, text: string, col: int, filename: string, first: int)
  {
    && Valid(r) && k < |r.lines| && col >= 1
    && r.lines[k] == text
    && JumpTargetAt(r, k + 1, col) == Some(Location(filename, first, 1))
  }

  /** Rendering a snippet only adds lines and entries: every line and every entry there was is kept. */
  lemma {:induction false} SnippetKeeps(d: Doc, index: int, s: Snippet, filename: string, level: int, aux: int, cfg: Config)
    requires Valid(d) && SnippetFirstLine(s, aux) >= 1
    requires RangesFit(s.text.ranges, Split(s.text.text, '\n'))
    ensures Keeps(d, SnippetDoc(d, index, s, filename, level, aux, cfg))
  {
    if index != 0 {
      SeparatorKeeps(d, SnippetIndent * level, filename, SnippetFirstLine(s, aux));
      SnippetAfterSeparator(d, index, s, filename, level, aux, cfg);
      AnnotatedTextKeeps(SeparatorDoc(d, SnippetIndent * level, filename, SnippetFirstLine(s, aux)), s.text,
                         SnippetIndent * level, filename, SnippetFirstLine(s, aux), cfg);
      KeepsTransitive(d, SeparatorDoc(d, SnippetIndent * level, filename, SnippetFirstLine(s, aux)),
                      SnippetDoc(d, index, s, filename, level, aux, cfg));
    } else {
      AnnotatedTextKeeps(d, s.text, SnippetIndent * level, filename, SnippetFirstLine(s, aux), cfg);
    }
  }

  lemma {:induction false} SeparatorKeeps(d: Doc, indent: int, filename: string, first: int)
    requires Valid(d) && first >= 1
    ensures Keeps(d, SeparatorDoc(d, indent, filename, first))
  {
    SeparatorShape(d, indent, filename, first);
  }

  lemma {:induction false} KeepsTransitive(a: Doc, b: Doc, c: Doc)
    requires Keeps(a, b) && Keeps(b, c)
    ensures Keeps(a, c)
  {
    assert c.lines[..|a.lines|] == c.lines[..|b.lines|][..|a.lines|];
  }

  lemma {:induction false} KeepsGrows(d: Doc, r: Doc)
    requires Valid(d) && Keeps(d, r)
    ensures Grows(d, r)
  {
    assert forall k :: 0 <= k < |d.lines| ==> r.lines[k] == r.lines[..|d.lines|][k];
  }

  /** The separator's line, and its entry anchored at the line's end. */
  lemma {:induction false} SeparatorEntry(d: Doc, indent: int, filename: string, first: int)
    requires Valid(d) && first >= 1
    ensures |SeparatorDoc(d, indent, filename, first).lines| == |d.lines| + 1
    ensures SeparatorDoc(d, indent, filename, first).lines[|d.lines|] == Spaces(indent) + Elision
    ensures |d.lines| in SeparatorDoc(d, indent, filename, first).jumps
    ensures SeparatorDoc(d, indent, filename, first).jumps[|d.lines|]
         == Target(filename, first - 1, |Spaces(indent) + Elision|)
  {
    SeparatorShape(d, indent, filename, first);
  }

  /** A snippet after the first is rendered after its separator. */
  lemma {:induction false} SnippetAfterSeparator(d: Doc, index: int, s: Snippet, filename: string, level: int, aux: int, cfg: Config)
    requires Valid(d) && SnippetFirstLine(s, aux) >= 1
    requires RangesFit(s.text.ranges, Split(s.text.text, '\n'))
    requires index != 0
    ensures SnippetDoc(d, index, s, filename, level, aux, cfg)
         == AnnotatedTextDoc(SeparatorDoc(d, SnippetIndent * level, filename, SnippetFirstLine(s, aux)), s.text,
                             SnippetIndent * level, filename, SnippetFirstLine(s, aux), cfg)
  {
  }

  /**
   * A kept line whose entry is anchored at its end: a click anywhere on it,
   * up to one past its end, leads to column 1 of the entry's line.
   */
  lemma {:induction false} KeptEntryAtEnd(d: Doc, r: Doc, k: nat, col: int)
    requires Valid(r) && Keeps(d, r) && k < |d.lines| && k in d.jumps && d.jumps[k].anchor == |d.lines[k]|
    requires 1 <= col <= d.jumps[k].anchor + 1
    ensures r.lines[k] == d.lines[k]
    ensures JumpTargetAt(r, k + 1, col) == Some(Location(d.jumps[k].file, d.jumps[k].line + 1, 1))
  {
    assert r.lines[k] == r.lines[..|d.lines|][k];
    JumpAtEntry(r, k, col);
  }

  /** `r` keeps every line of `d` and every entry of `d`. */
  ghost predicate Keeps(d: Doc, r: Doc)
  {
    && |d.lines| <= |r.lines| && r.lines[..|d.lines|] == d.lines
    && forall k :: k in d.jumps ==> k in r.jumps && r.jumps[k] == d.jumps[k]
  }

  /** Emitting lines keeps every line there was, and its entry. */
  lemma {:induction false} EmitLinesKeeps(d: Doc, ls: seq<string>, gs: seq<string>, filename: string, first: int)
    requires Valid(d) && first >= 1 && |gs| == |ls|
    ensures Keeps(d, EmitLines(d, ls, gs, filename, first))
  {
    EmitLinesShape(d, ls, gs, filename, first);
    forall k | k in d.jumps ensures EmitLines(d, ls, gs, filename, first).jumps[k] == d.jumps[k] {
      GutterJump(|d.lines|, gs, filename, first, k);
    }
  }

  /** Rendering annotated text keeps every line there was, and its entry. */
  lemma {:induction false} AnnotatedTextKeeps(d: Doc, at: AnnotatedText, indent: int, filename: string, first: int, cfg: Config)
    requires Valid(d) && first >= 1
    requires RangesFit(at.ranges, Split(at.text, '\n'))
    ensures Keeps(d, AnnotatedTextDoc(d, at, indent, filename, first, cfg))
  {
    var spliced := SplicedLines(at, cfg);
    EmitLinesKeeps(d, spliced, Gutters(|spliced|, indent, first, NumberWidth(first, |spliced|)), filename, first);
  }

  /**
   * Renders one snippet of a result: a `[...]` separator before every
   * snippet but the first, then the snippet's text, indented by level.
   */
  method RenderSnippet(mapper: LocationMapper, index: int, s: Snippet, filename: string, level: int, aux: int,
                       cfg: Config)
    requires mapper.Valid() && SnippetFirstLine(s, aux) >= 1
    requires RangesFit(s.text.ranges, Split(s.text.text, '\n'))
    modifies mapper
    ensures mapper.Valid()
    ensures mapper.State() == SnippetDoc(old(mapper.State()), index, s, filename, level, aux, cfg)
  {
    var first := if s.firstLineNumber != 0 then s.firstLineNumber else aux;
    if index != 0 {
      mapper.Newline();
      mapper.Write(Spaces(SnippetIndent * level));
      mapper.Write(Elision);
      mapper.SetTargetForPos(filename, first);
    }
    var _ := RenderAnnotatedText(mapper, s.text, SnippetIndent * level, filename, first, cfg);
  }
}
