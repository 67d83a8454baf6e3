/**
 * Rendering of a call graph.  Each node is a block `N`: its header line,
 * recorded as the node's line by its signature, holds the indent for its
 * depth, an expander (`[-]` when the node has children, `[+]` otherwise), the
 * abbreviated symbol in an `S` block (a jump to where the symbol's scope
 * starts) and the file name in an `F` block.  A call-site snippet follows in
 * a `>` block one level deeper, then a blank line, then the children one
 * level deeper, each a node block of its own.
 */
module CallGraph {
  import opened Wrappers
  import opened Strings
  import opened Markup
  import opened Document
  import opened Mapper
  import opened Annotated
  import opened Symbols

  const NodeIndent := 4

  /**
   * A call-graph node, with the fields the renderer reads.  A line number
   * of 0 stands for a range whose start line is unset, and an empty string for
   * an unset name.
   */
  datatype Node = Node(
    signature: string,
    identifier: string,
    filePath: string,
    callScopeStart: int,
    callSiteStart: int,
    snippet: Snippet,
    snippetFilePath: string,
    children: seq<Node>)

  predicate HasSymbol(n: Node)
  {
    n.filePath != "" && n.identifier != ""
  }

  predicate HasSnippet(n: Node)
  {
    n.snippetFilePath != ""
  }

  /** The line the symbol jumps to: where its scope starts, else the call site, else line 1. */
  function StartLine(n: Node): int
  {
    if n.callScopeStart != 0 then n.callScopeStart else if n.callSiteStart != 0 then n.callSiteStart else 1
  }

  /** The first line of the snippet when it carries none: the call site, else line 1. */
  function SiteLine(n: Node): int
  {
    if n.callSiteStart != 0 then n.callSiteStart else 1
  }

  /** The node's own lines can be rendered: the lines it jumps to are positive and its snippet's ranges fit. */
  predicate OwnRenderable(n: Node)
  {
    && (HasSymbol(n) ==> StartLine(n) >= 1)
    && (HasSnippet(n) ==>
          SnippetFirstLine(n.snippet, SiteLine(n)) >= 1
          && RangesFit(n.snippet.text.ranges, Split(n.snippet.text.text, '\n')))
  }

  /** Every node of the tree can be rendered. */
  predicate Renderable(n: Node)
    decreases n
  {
    OwnRenderable(n) && forall i :: 0 <= i < |n.children| ==> Renderable(n.children[i])
  }

  function Expander(n: Node): string
  {
    if |n.children| > 0 then "[-]" else "[+]"
  }

  /** The start of the header line: the indent for the depth, the expander and a space. */
  function HeaderLead(n: Node, level: int): string
  {
    Spaces(level * NodeIndent) + Expander(n) + " "
  }

  /** The symbol after its `S` start tag: the abbreviated name, then the file in an `F` block. */
  function SymbolRest(n: Node, cfg: Config): string
  {
    Abbreviated(n.identifier) + EndTag(cfg, "S") + " " + StartTag(cfg, "F") + n.filePath + EndTag(cfg, "F")
  }

  /** The symbol: an `S` block that jumps to the start line, a space and an `F` block with the file. */
  function SymbolDoc(d: Doc, n: Node, cfg: Config): (r: Doc)
    requires Valid(d) && StartLine(n) >= 1
    ensures Valid(r)
  {
    Write(SetTargetForPos(Write(d, StartTag(cfg, "S")), n.filePath, StartLine(n)), SymbolRest(n, cfg))
  }

  /** The call-site snippet one level deeper, in a `>` block whose end tag opens the line after it. */
  function SnippetBlockDoc(d: Doc, n: Node, level: int, cfg: Config): (r: Doc)
    requires Valid(d) && OwnRenderable(n) && HasSnippet(n)
    ensures Valid(r)
  {
    var s := SnippetDoc(Write(d, StartTag(cfg, ">")), 0, n.snippet, n.snippetFilePath, level + 1, SiteLine(n), cfg);
    Write(Newline(s), EndTag(cfg, ">"))
  }

  /** The header line up to the end of the symbol. */
  function HeadDoc(d: Doc, n: Node, level: int, cfg: Config): (r: Doc)
    requires Valid(d) && OwnRenderable(n)
    ensures Valid(r)
  {
    var h := Write(SetSignatureForLine(d, n.signature), HeaderLead(n, level));
    if HasSymbol(n) then SymbolDoc(h, n, cfg) else h
  }

  /** The node's own lines: the header, the snippet, and the blank line after them. */
  function OwnDoc(d: Doc, n: Node, level: int, cfg: Config): (r: Doc)
    requires Valid(d) && OwnRenderable(n)
    ensures Valid(r)
  {
    var h := HeadDoc(d, n, level, cfg);
    Newline(if HasSnippet(n) then SnippetBlockDoc(h, n, level, cfg) else Newline(h))
  }

  /** `RenderNode` on the mapper state. */
  function NodeDoc(d: Doc, n: Node, level: int, cfg: Config): (r: Doc)
    requires Valid(d) && Renderable(n)
    ensures Valid(r)
    decreases n, 1, 0
  {
    var own := OwnDoc(Write(d, StartTag(cfg, "N")), n, level, cfg);
    Write(ChildrenDoc(own, n, |n.children|, level, cfg), EndTag(cfg, "N"))
  }

  /** The first `k` children of `n`, one level below `level`. */
  function ChildrenDoc(d: Doc, n: Node, k: nat, level: int, cfg: Config): (r: Doc)
    requires Valid(d) && Renderable(n) && k <= |n.children|
    ensures Valid(r)
    decreases n, 0, k
  {
    if k == 0 then d
    else NodeDoc(ChildrenDoc(d, n, k - 1, level, cfg), n.children[k - 1], level + 1, cfg)
  }

  method RenderNode(mapper: LocationMapper, n: Node, level: int, cfg: Config)
    requires mapper.Valid() && Renderable(n)
    modifies mapper
    ensures mapper.Valid()
    ensures mapper.State() == NodeDoc(old(mapper.State()), n, level, cfg)
    decreases n, 1, 0
  {
    mapper.Write(StartTag(cfg, "N"));
    RenderOwnLines(mapper, n, level, cfg);
    RenderChildren(mapper, n, level, cfg);
    mapper.Write(EndTag(cfg, "N"));
  }

  /** Every child of `n`, in order, one level deeper. */
  method RenderChildren(mapper: LocationMapper, n: Node, level: int, cfg: Config)
    requires mapper.Valid() && Renderable(n)
    modifies mapper
    ensures mapper.Valid()
    ensures mapper.State() == ChildrenDoc(old(mapper.State()), n, |n.children|, level, cfg)
    decreases n, 0, |n.children|
  {
    ghost var start := mapper.State();
    var i := 0;
    while i < |n.children|
      invariant 0 <= i <= |n.children|
      invariant mapper.Valid() && mapper.State() == ChildrenDoc(start, n, i, level, cfg)
    {
      RenderChild(mapper, start, n, i, level, cfg);
      i := i + 1;
    }
  }

  /** Child `i` of `n`, after the ones before it. */
  method RenderChild(mapper: LocationMapper, ghost start: Doc, n: Node, i: nat, level: int, cfg: Config)
    requires Valid(start) && Renderable(n) && i < |n.children|
    requires mapper.Valid() && mapper.State() == ChildrenDoc(start, n, i, level, cfg)
    modifies mapper
    ensures mapper.Valid()
    ensures mapper.State() == ChildrenDoc(start, n, i + 1, level, cfg)
    decreases n, 0, i
  {
    ChildrenDocStep(start, n, i, level, cfg);
    RenderNode(mapper, n.children[i], level + 1, cfg);
  }

  lemma {:induction false} ChildrenDocStep(d: Doc, n: Node, i: nat, level: int, cfg: Config)
    requires Valid(d) && Renderable(n) && i < |n.children|
    ensures Renderable(n.children[i])
    ensures ChildrenDoc(d, n, i + 1, level, cfg) == NodeDoc(ChildrenDoc(d, n, i, level, cfg), n.children[i], level + 1, cfg)
  {
  }

  /** The node's own lines, written inside its `N` block before its children. */
  method RenderOwnLines(mapper: LocationMapper, n: Node, level: int, cfg: Config)
    requires mapper.Valid() && OwnRenderable(n)
    modifies mapper
    ensures mapper.Valid()
    ensures mapper.State() == OwnDoc(old(mapper.State()), n, level, cfg)
  {
    RenderHead(mapper, n, level, cfg);
    if n.snippetFilePath != "" {
      RenderSnippetBlock(mapper, n, level, cfg);
    } else {
      mapper.Newline();
    }
    mapper.Newline();
  }

  /** The header line: signature, indent, expander and, when the node names one, the symbol. */
  method RenderHead(mapper: LocationMapper, n: Node, level: int, cfg: Config)
    requires mapper.Valid() && OwnRenderable(n)
    modifies mapper
    ensures mapper.Valid()
    ensures mapper.State() == HeadDoc(old(mapper.State()), n, level, cfg)
  {
    mapper.SetSignatureForLine(n.signature);
    var expander := if |n.children| > 0 then "[-]" else "[+]";
    mapper.Write(Spaces(level * NodeIndent) + expander + " ");
    if n.filePath != "" && n.identifier != "" {
      RenderSymbol(mapper, n, cfg);
    }
  }

  method RenderSymbol(mapper: LocationMapper, n: Node, cfg: Config)
    requires mapper.Valid() && StartLine(n) >= 1
    modifies mapper
    ensures mapper.Valid()
    ensures mapper.State() == SymbolDoc(old(mapper.State()), n, cfg)
  {
    mapper.Write(StartTag(cfg, "S"));
    var startLine := if n.callScopeStart != 0 then n.callScopeStart
                     else if n.callSiteStart != 0 then n.callSiteStart
                     else 1;
    mapper.SetTargetForPos(n.filePath, startLine);
    var short := AbbreviateCppSymbol(n.identifier);
    ghost var s := mapper.State();
    mapper.Write(short);
    mapper.Write(EndTag(cfg, "S"));
    mapper.Write(" ");
    mapper.Write(StartTag(cfg, "F"));
    mapper.Write(n.filePath);
    mapper.Write(EndTag(cfg, "F"));
    SymbolRestWrites(s, n, cfg);
  }

  method RenderSnippetBlock(mapper: LocationMapper, n: Node, level: int, cfg: Config)
    requires mapper.Valid() && OwnRenderable(n) && HasSnippet(n)
    modifies mapper
    ensures mapper.Valid()
    ensures mapper.State() == SnippetBlockDoc(old(mapper.State()), n, level, cfg)
  {
    var aux := if n.callSiteStart != 0 then n.callSiteStart else 1;
    mapper.Write(StartTag(cfg, ">"));
    RenderSnippet(mapper, 0, n.snippet, n.snippetFilePath, level + 1, aux, cfg);
    mapper.Newline();
    mapper.Write(EndTag(cfg, ">"));
  }

  // Layout of a node's own lines

  /** The node's header and file name fit on one line. */
  predicate OneLine(n: Node)
  {
    '\n' !in n.identifier && '\n' !in n.filePath
  }

  function SymbolText(n: Node, cfg: Config): string
  {
    StartTag(cfg, "S") + SymbolRest(n, cfg)
  }

  /** The text of a node's header line after its `N` start tag. */
  function HeaderText(n: Node, level: int, cfg: Config): string
  {
    HeadText(n, level, cfg) + SnippetTag(n, cfg)
  }

  /** The start tag of the snippet block, which ends the header line when there is a snippet. */
  function SnippetTag(n: Node, cfg: Config): string
  {
    if HasSnippet(n) then StartTag(cfg, ">") else ""
  }

  /** The header line's text up to the end of the symbol. */
  function HeadText(n: Node, level: int, cfg: Config): string
  {
    HeaderLead(n, level) + (if HasSymbol(n) then SymbolText(n, cfg) else "")
  }

  /** The number of lines a node's own part adds: header and blank line, and the snippet with its end tag line. */
  function OwnLineCount(n: Node): nat
  {
    if HasSnippet(n) then |Split(n.snippet.text.text, '\n')| + 2 else 2
  }

  /** The block types hold no line break. */
  lemma {:induction false} BlockTypesOneLine()
    ensures '\n' !in "N" && '\n' !in "S" && '\n' !in "F" && '\n' !in ">"
  {
  }

  lemma {:induction false} TagOneLine(cfg: Config, bt: string)
    requires '\n' !in bt
    ensures '\n' !in StartTag(cfg, bt) && '\n' !in EndTag(cfg, bt)
  {
  }

  lemma {:induction false} SymbolRestOneLine(n: Node, cfg: Config)
    requires OneLine(n)
    ensures '\n' !in SymbolRest(n, cfg)
  {
    AbbreviatedAddsNothing(n.identifier, '\n');
    TagOneLine(cfg, "S");
    TagOneLine(cfg, "F");
  }

  /** The writes after the symbol's jump entry are one write of the rest of the symbol. */
  lemma {:induction false} SymbolRestWrites(s: Doc, n: Node, cfg: Config)
    requires Valid(s)
    ensures Write(Write(Write(Write(Write(Write(s, Abbreviated(n.identifier)), EndTag(cfg, "S")), " "),
                  StartTag(cfg, "F")), n.filePath), EndTag(cfg, "F"))
         == Write(s, SymbolRest(n, cfg))
  {
    var a := Abbreviated(n.identifier);
    WriteConcat(s, a, EndTag(cfg, "S"));
    WriteConcat(s, a + EndTag(cfg, "S"), " ");
    WriteConcat(s, a + EndTag(cfg, "S") + " ", StartTag(cfg, "F"));
    WriteConcat(s, a + EndTag(cfg, "S") + " " + StartTag(cfg, "F"), n.filePath);
    WriteConcat(s, a + EndTag(cfg, "S") + " " + StartTag(cfg, "F") + n.filePath, EndTag(cfg, "F"));
  }

  /** The symbol goes onto the current line, which jumps to where the symbol's scope starts. */
  lemma {:induction false} SymbolShape(d: Doc, n: Node, cfg: Config)
    requires Valid(d) && StartLine(n) >= 1 && OneLine(n)
    ensures var r := SymbolDoc(d, n, cfg);
      && r.lines == d.lines[..Current(d)] + [d.lines[Current(d)] + SymbolText(n, cfg)]
      && Current(d) in r.jumps
      && r.jumps[Current(d)] == Target(n.filePath, StartLine(n) - 1, Column(d) + |StartTag(cfg, "S")|)
      && Extends(d, r)
  {
    SymbolLines(d, n, cfg);
    SymbolJump(d, n, cfg);
    SymbolExtends(d, n, cfg);
  }

  lemma {:induction false} SymbolLines(d: Doc, n: Node, cfg: Config)
    requires Valid(d) && StartLine(n) >= 1 && OneLine(n)
    ensures SymbolDoc(d, n, cfg).lines == d.lines[..Current(d)] + [d.lines[Current(d)] + SymbolText(n, cfg)]
  {
    SymbolRestOneLine(n, cfg);
    TagOneLine(cfg, "S");
    TaggedLine(d, StartTag(cfg, "S"), n.filePath, StartLine(n), SymbolRest(n, cfg));
  }

  /** A jump entry set between two writes leaves the lines as one write of both. */
  lemma {:induction false} TaggedLine(d: Doc, tag: string, file: string, line: int, rest: string)
    requires Valid(d) && line > 0 && '\n' !in tag + rest
    ensures Write(SetTargetForPos(Write(d, tag), file, line), rest).lines
         == d.lines[..Current(d)] + [d.lines[Current(d)] + (tag + rest)]
  {
    WriteConcat(d, tag, rest);
    WriteOnLine(d, tag + rest);
  }

  lemma {:induction false} SymbolJump(d: Doc, n: Node, cfg: Config)
    requires Valid(d) && StartLine(n) >= 1
    ensures var r := SymbolDoc(d, n, cfg);
      Current(d) in r.jumps && r.jumps[Current(d)] == Target(n.filePath, StartLine(n) - 1, Column(d) + |StartTag(cfg, "S")|)
  {
    TagOneLine(cfg, "S");
    WriteOnLine(d, StartTag(cfg, "S"));
  }

  lemma {:induction false} SymbolExtends(d: Doc, n: Node, cfg: Config)
    requires Valid(d) && StartLine(n) >= 1
    ensures Extends(d, SymbolDoc(d, n, cfg))
  {
    var w := Write(d, StartTag(cfg, "S"));
    var s := SetTargetForPos(w, n.filePath, StartLine(n));
    WriteAppends(d, StartTag(cfg, "S"));
    SetTargetOthers(w, n.filePath, StartLine(n));
    WriteAppends(s, SymbolRest(n, cfg));
    ExtendsTransitive(d, w, s);
    ExtendsTransitive(d, s, SymbolDoc(d, n, cfg));
  }

  lemma {:induction false} LeadOneLine(n: Node, level: int)
    ensures '\n' !in HeaderLead(n, level)
  {
  }

  /**
   * The header goes onto the current line, which is recorded as the node's
   * and, when the node names a symbol, jumps to where its scope starts.
   */
  lemma {:induction false} HeadShape(d: Doc, n: Node, level: int, cfg: Config)
    requires Valid(d) && OwnRenderable(n) && OneLine(n)
    ensures var h := HeadDoc(d, n, level, cfg);
      && h.lines == d.lines[..Current(d)] + [d.lines[Current(d)] + HeadText(n, level, cfg)]
      && Current(d) in h.signatures && h.signatures[Current(d)] == n.signature
      && (HasSymbol(n) ==>
            Current(d) in h.jumps
            && h.jumps[Current(d)]
               == Target(n.filePath, StartLine(n) - 1, Column(d) + |HeaderLead(n, level)| + |StartTag(cfg, "S")|))
      && Extends(d, h)
  {
    HeadLines(d, n, level, cfg);
    HeadEntries(d, n, level, cfg);
    HeadExtends(d, n, level, cfg);
  }

  /** The lead: the current line is the node's, and the indent, expander and space go onto it. */
  function LeadDoc(d: Doc, n: Node, level: int): (r: Doc)
    requires Valid(d)
    ensures Valid(r)
  {
    Write(SetSignatureForLine(d, n.signature), HeaderLead(n, level))
  }

  lemma {:induction false} HeadIs(d: Doc, n: Node, level: int, cfg: Config)
    requires Valid(d) && OwnRenderable(n)
    ensures HeadDoc(d, n, level, cfg)
         == if HasSymbol(n) then SymbolDoc(LeadDoc(d, n, level), n, cfg) else LeadDoc(d, n, level)
  {
  }

  lemma {:induction false} LeadLines(d: Doc, n: Node, level: int)
    requires Valid(d)
    ensures LeadDoc(d, n, level).lines == d.lines[..Current(d)] + [d.lines[Current(d)] + HeaderLead(n, level)]
    ensures Extends(d, LeadDoc(d, n, level))
  {
    LeadOneLine(n, level);
    var g := SetSignatureForLine(d, n.signature);
    WriteOnLine(g, HeaderLead(n, level));
    SetSignatureOthers(d, n.signature);
    WriteAppends(g, HeaderLead(n, level));
    ExtendsTransitive(d, g, LeadDoc(d, n, level));
  }

  lemma {:induction false} HeadLines(d: Doc, n: Node, level: int, cfg: Config)
    requires Valid(d) && OwnRenderable(n) && OneLine(n)
    ensures HeadDoc(d, n, level, cfg).lines == d.lines[..Current(d)] + [d.lines[Current(d)] + HeadText(n, level, cfg)]
  {
    HeadIs(d, n, level, cfg);
    LeadLines(d, n, level);
    if HasSymbol(n) {
      SymbolHeadLines(d, n, level, cfg);
    } else {
      assert HeadText(n, level, cfg) == HeaderLead(n, level) + "";
      assert HeaderLead(n, level) + "" == HeaderLead(n, level);
    }
  }

  lemma {:induction false} SymbolHeadLines(d: Doc, n: Node, level: int, cfg: Config)
    requires Valid(d) && OwnRenderable(n) && OneLine(n) && HasSymbol(n)
    ensures var h := LeadDoc(d, n, level);
      SymbolDoc(h, n, cfg).lines == d.lines[..Current(d)] + [d.lines[Current(d)] + HeadText(n, level, cfg)]
  {
    LeadLines(d, n, level);
    var h := LeadDoc(d, n, level);
    SymbolLines(h, n, cfg);
    OnLineTwice(d.lines, h.lines, SymbolDoc(h, n, cfg).lines, HeaderLead(n, level), SymbolText(n, cfg));
    assert HeadText(n, level, cfg) == HeaderLead(n, level) + SymbolText(n, cfg);
  }

  lemma {:induction false} HeadEntries(d: Doc, n: Node, level: int, cfg: Config)
    requires Valid(d) && OwnRenderable(n)
    ensures var h := HeadDoc(d, n, level, cfg);
      && Current(d) in h.signatures && h.signatures[Current(d)] == n.signature
      && (HasSymbol(n) ==>
            Current(d) in h.jumps
            && h.jumps[Current(d)]
               == Target(n.filePath, StartLine(n) - 1, Column(d) + |HeaderLead(n, level)| + |StartTag(cfg, "S")|))
  {
    HeadIs(d, n, level, cfg);
    LeadLines(d, n, level);
    var h := LeadDoc(d, n, level);
    assert Current(h) == Current(d) && Column(h) == Column(d) + |HeaderLead(n, level)|;
    if HasSymbol(n) {
      SymbolJump(h, n, cfg);
    }
  }

  lemma {:induction false} HeadExtends(d: Doc, n: Node, level: int, cfg: Config)
    requires Valid(d) && OwnRenderable(n)
    ensures Extends(d, HeadDoc(d, n, level, cfg))
  {
    HeadIs(d, n, level, cfg);
    LeadLines(d, n, level);
    var h := LeadDoc(d, n, level);
    if HasSymbol(n) {
      SymbolExtends(h, n, cfg);
      ExtendsTransitive(d, h, SymbolDoc(h, n, cfg));
    }
  }

  /** Two pieces written onto the current line one after the other. */
  lemma {:induction false} OnLineTwice(d: seq<string>, h: seq<string>, r: seq<string>, a: string, b: string)
    requires |d| >= 1
    requires h == d[..|d| - 1] + [d[|d| - 1] + a]
    requires r == h[..|h| - 1] + [h[|h| - 1] + b]
    ensures r == d[..|d| - 1] + [d[|d| - 1] + (a + b)]
  {
    assert h[..|h| - 1] == d[..|d| - 1];
    assert d[|d| - 1] + a + b == d[|d| - 1] + (a + b);
  }

  /** The snippet adds its lines after the current one and keeps everything there was. */
  lemma {:induction false} SnippetFacts(w: Doc, n: Node, level: int, cfg: Config)
    requires Valid(w) && OwnRenderable(n) && HasSnippet(n)
    ensures var s := SnippetDoc(w, 0, n.snippet, n.snippetFilePath, level + 1, SiteLine(n), cfg);
      && |s.lines| == |w.lines| + |Split(n.snippet.text.text, '\n')|
      && s.lines[..|w.lines|] == w.lines
      && s.signatures == w.signatures
      && Keeps(w, s)
      && Extends(w, s)
  {
    var first := SnippetFirstLine(n.snippet, SiteLine(n));
    var indent := SnippetIndent * (level + 1);
    var at := n.snippet.text;
    SnippetKeeps(w, 0, n.snippet, n.snippetFilePath, level + 1, SiteLine(n), cfg);
    AnnotatedTextLines(w, at, indent, n.snippetFilePath, first, cfg, 0);
    var spliced := SplicedLines(at, cfg);
    var gutters := Gutters(|spliced|, indent, first, NumberWidth(first, |spliced|));
    EmitLinesValid(w, spliced, gutters, n.snippetFilePath, first);
    assert SnippetDoc(w, 0, n.snippet, n.snippetFilePath, level + 1, SiteLine(n), cfg)
        == EmitLines(w, spliced, gutters, n.snippetFilePath, first);
  }

  /**
   * The snippet block: the `>` start tag ends the current line, the snippet's
   * lines follow, and the end tag opens the line after them.
   */
  lemma {:induction false} SnippetBlockShape(h: Doc, n: Node, level: int, cfg: Config)
    requires Valid(h) && OwnRenderable(n) && HasSnippet(n)
    ensures var b := SnippetBlockDoc(h, n, level, cfg);
      && |b.lines| == |h.lines| + |Split(n.snippet.text.text, '\n')| + 1
      && b.lines[..Current(h)] == h.lines[..Current(h)]
      && b.lines[Current(h)] == h.lines[Current(h)] + StartTag(cfg, ">")
      && b.signatures == h.signatures
      && (Current(h) in h.jumps ==> Current(h) in b.jumps && b.jumps[Current(h)] == h.jumps[Current(h)])
      && Extends(h, b)
  {
    SnippetBlockLines(h, n, level, cfg);
    SnippetBlockEntries(h, n, level, cfg);
    SnippetBlockExtends(h, n, level, cfg);
  }

  /** The state after the snippet, before its end tag line. */
  function SnippetEnd(h: Doc, n: Node, level: int, cfg: Config): (r: Doc)
    requires Valid(h) && OwnRenderable(n) && HasSnippet(n)
    ensures Valid(r)
  {
    SnippetDoc(Write(h, StartTag(cfg, ">")), 0, n.snippet, n.snippetFilePath, level + 1, SiteLine(n), cfg)
  }

  lemma {:induction false} SnippetBlockIs(h: Doc, n: Node, level: int, cfg: Config)
    requires Valid(h) && OwnRenderable(n) && HasSnippet(n)
    ensures SnippetBlockDoc(h, n, level, cfg) == Write(Newline(SnippetEnd(h, n, level, cfg)), EndTag(cfg, ">"))
  {
  }

  lemma {:induction false} SnippetEndShape(h: Doc, n: Node, level: int, cfg: Config)
    requires Valid(h) && OwnRenderable(n) && HasSnippet(n)
    ensures var s := SnippetEnd(h, n, level, cfg);
      && |s.lines| == |h.lines| + |Split(n.snippet.text.text, '\n')|
      && s.lines[..Current(h)] == h.lines[..Current(h)]
      && s.lines[Current(h)] == h.lines[Current(h)] + StartTag(cfg, ">")
      && s.signatures == h.signatures
      && (Current(h) in h.jumps ==> Current(h) in s.jumps && s.jumps[Current(h)] == h.jumps[Current(h)])
      && Extends(h, s)
  {
    TagOneLine(cfg, ">");
    var w := Write(h, StartTag(cfg, ">"));
    SnippetFacts(w, n, level, cfg);
    TagThenLines(h, StartTag(cfg, ">"), SnippetEnd(h, n, level, cfg));
  }

  /** A tag that ends the current line, followed by output that keeps everything and adds lines after it. */
  lemma {:induction false} TagThenLines(h: Doc, tag: string, s: Doc)
    requires Valid(h) && '\n' !in tag
    requires var w := Write(h, tag);
      && |s.lines| >= |w.lines| && s.lines[..|w.lines|] == w.lines && s.signatures == w.signatures
      && Keeps(w, s) && Extends(w, s)
    ensures && |Write(h, tag).lines| == |h.lines|
            && s.lines[..Current(h)] == h.lines[..Current(h)]
            && s.lines[Current(h)] == h.lines[Current(h)] + tag
            && s.signatures == h.signatures
            && (Current(h) in h.jumps ==> Current(h) in s.jumps && s.jumps[Current(h)] == h.jumps[Current(h)])
            && Extends(h, s)
  {
    var c := Current(h);
    var w := Write(h, tag);
    WriteOnLine(h, tag);
    WriteAppends(h, tag);
    assert s.lines[c] == s.lines[..|w.lines|][c];
    assert s.lines[..c] == s.lines[..|w.lines|][..c];
    ExtendsTransitive(h, w, s);
  }

  lemma {:induction false} SnippetBlockLines(h: Doc, n: Node, level: int, cfg: Config)
    requires Valid(h) && OwnRenderable(n) && HasSnippet(n)
    ensures var b := SnippetBlockDoc(h, n, level, cfg);
      && |b.lines| == |h.lines| + |Split(n.snippet.text.text, '\n')| + 1
      && b.lines[..Current(h)] == h.lines[..Current(h)]
      && b.lines[Current(h)] == h.lines[Current(h)] + StartTag(cfg, ">")
  {
    SnippetBlockIs(h, n, level, cfg);
    SnippetEndShape(h, n, level, cfg);
    var e := Newline(SnippetEnd(h, n, level, cfg));
    TagOneLine(cfg, ">");
    WriteOnLine(e, EndTag(cfg, ">"));
  }

  lemma {:induction false} SnippetBlockEntries(h: Doc, n: Node, level: int, cfg: Config)
    requires Valid(h) && OwnRenderable(n) && HasSnippet(n)
    ensures var b := SnippetBlockDoc(h, n, level, cfg);
      && b.signatures == h.signatures
      && (Current(h) in h.jumps ==> Current(h) in b.jumps && b.jumps[Current(h)] == h.jumps[Current(h)])
  {
    SnippetBlockIs(h, n, level, cfg);
    SnippetEndShape(h, n, level, cfg);
  }

  lemma {:induction false} SnippetBlockExtends(h: Doc, n: Node, level: int, cfg: Config)
    requires Valid(h) && OwnRenderable(n) && HasSnippet(n)
    ensures Extends(h, SnippetBlockDoc(h, n, level, cfg))
  {
    SnippetBlockIs(h, n, level, cfg);
    SnippetEndShape(h, n, level, cfg);
    var s := SnippetEnd(h, n, level, cfg);
    var e := Newline(s);
    NewlineAppends(s);
    WriteAppends(e, EndTag(cfg, ">"));
    ExtendsTransitive(h, s, e);
    ExtendsTransitive(h, e, SnippetBlockDoc(h, n, level, cfg));
  }

  /** The node's own part before its blank line: the header, then the snippet block or the end of the header line. */
  function OwnBody(h: Doc, n: Node, level: int, cfg: Config): (r: Doc)
    requires Valid(h) && OwnRenderable(n)
    ensures Valid(r)
  {
    if HasSnippet(n) then SnippetBlockDoc(h, n, level, cfg) else Newline(h)
  }

  lemma {:induction false} OwnIs(d: Doc, n: Node, level: int, cfg: Config)
    requires Valid(d) && OwnRenderable(n)
    ensures OwnDoc(d, n, level, cfg) == Newline(OwnBody(HeadDoc(d, n, level, cfg), n, level, cfg))
  {
  }

  /** Everything the header leaves on its line, and the lines after it, of the own part before its blank line. */
  lemma {:induction false} OwnBodyShape(h: Doc, n: Node, level: int, cfg: Config)
    requires Valid(h) && OwnRenderable(n)
    ensures var b := OwnBody(h, n, level, cfg);
      && |b.lines| == |h.lines| + OwnLineCount(n) - 1
      && b.lines[..Current(h)] == h.lines[..Current(h)]
      && b.lines[Current(h)] == h.lines[Current(h)] + SnippetTag(n, cfg)
      && b.signatures == h.signatures
      && (Current(h) in h.jumps ==> Current(h) in b.jumps && b.jumps[Current(h)] == h.jumps[Current(h)])
      && Extends(h, b)
  {
    if HasSnippet(n) {
      SnippetBlockShape(h, n, level, cfg);
    } else {
      NewlineAppends(h);
      assert h.lines[Current(h)] + "" == h.lines[Current(h)];
    }
  }

  /**
   * The node's own part: the header line, recorded under the node's
   * signature and jumping to its symbol, then the snippet and a blank line.
   * No other line is recorded under a signature.
   */
  lemma {:induction false} OwnShape(d: Doc, n: Node, level: int, cfg: Config)
    requires Valid(d) && OwnRenderable(n) && OneLine(n)
    ensures var o := OwnDoc(d, n, level, cfg);
      && |o.lines| == |d.lines| + OwnLineCount(n)
      && o.lines[..Current(d)] == d.lines[..Current(d)]
      && o.lines[Current(d)] == d.lines[Current(d)] + HeaderText(n, level, cfg)
      && o.lines[|o.lines| - 1] == ""
      && Current(d) in o.signatures && o.signatures[Current(d)] == n.signature
      && (forall k :: k in o.signatures ==> k <= Current(d))
      && (HasSymbol(n) ==>
            Current(d) in o.jumps
            && o.jumps[Current(d)]
               == Target(n.filePath, StartLine(n) - 1, Column(d) + |HeaderLead(n, level)| + |StartTag(cfg, "S")|))
      && Extends(d, o)
  {
    OwnLines(d, n, level, cfg);
    OwnSignatures(d, n, level, cfg);
    if HasSymbol(n) {
      OwnJump(d, n, level, cfg, OwnDoc(d, n, level, cfg));
    }
    OwnExtends(d, n, level, cfg);
  }

  lemma {:induction false} OwnLines(d: Doc, n: Node, level: int, cfg: Config)
    requires Valid(d) && OwnRenderable(n) && OneLine(n)
    ensures var o := OwnDoc(d, n, level, cfg);
      && |o.lines| == |d.lines| + OwnLineCount(n)
      && o.lines[..Current(d)] == d.lines[..Current(d)]
      && o.lines[Current(d)] == d.lines[Current(d)] + HeaderText(n, level, cfg)
      && o.lines[|o.lines| - 1] == ""
  {
    OwnIs(d, n, level, cfg);
    HeadLines(d, n, level, cfg);
    var h := HeadDoc(d, n, level, cfg);
    OwnBodyShape(h, n, level, cfg);
    var b := OwnBody(h, n, level, cfg);
    LineThenMore(d.lines, h.lines, b.lines, Newline(b).lines, HeadText(n, level, cfg), SnippetTag(n, cfg));
  }

  /** Text written onto line `c` in two steps, the second of which may also add lines. */
  lemma {:induction false} LineThenMore(dl: seq<string>, hl: seq<string>, bl: seq<string>, ol: seq<string>, a: string, b: string)
    requires |dl| >= 1 && hl == dl[..|dl| - 1] + [dl[|dl| - 1] + a]
    requires |bl| >= |hl| && bl[..|hl| - 1] == hl[..|hl| - 1] && bl[|hl| - 1] == hl[|hl| - 1] + b
    requires ol == bl + [""]
    ensures ol[..|dl| - 1] == dl[..|dl| - 1] && ol[|dl| - 1] == dl[|dl| - 1] + (a + b) && ol[|ol| - 1] == ""
  {
    assert dl[|dl| - 1] + a + b == dl[|dl| - 1] + (a + b);
  }

  lemma {:induction false} OwnSignatures(d: Doc, n: Node, level: int, cfg: Config)
    requires Valid(d) && OwnRenderable(n) && OneLine(n)
    ensures var o := OwnDoc(d, n, level, cfg);
      && |o.lines| == |d.lines| + OwnLineCount(n)
      && Current(d) in o.signatures && o.signatures[Current(d)] == n.signature
      && (forall k :: k in o.signatures ==> k <= Current(d))
  {
    OwnIs(d, n, level, cfg);
    HeadLines(d, n, level, cfg);
    HeadEntries(d, n, level, cfg);
    var h := HeadDoc(d, n, level, cfg);
    OwnBodyShape(h, n, level, cfg);
  }

  lemma {:induction false} OwnJump(d: Doc, n: Node, level: int, cfg: Config, o: Doc)
    requires Valid(d) && OwnRenderable(n) && OneLine(n) && HasSymbol(n) && o == OwnDoc(d, n, level, cfg)
    ensures |o.lines| == |d.lines| + OwnLineCount(n)
    ensures Current(d) in o.jumps
    ensures o.jumps[Current(d)]
         == Target(n.filePath, StartLine(n) - 1, Column(d) + |HeaderLead(n, level)| + |StartTag(cfg, "S")|)
  {
    OwnIs(d, n, level, cfg);
    HeadLines(d, n, level, cfg);
    HeadEntries(d, n, level, cfg);
    var h := HeadDoc(d, n, level, cfg);
    OwnBodyShape(h, n, level, cfg);
  }

  // The whole tree

  /** Where, from the column at which a node's block starts, the anchor of its symbol's jump lies. */
  function SymbolOffset(n: Node, level: int, cfg: Config): nat
  {
    |StartTag(cfg, "N")| + |HeaderLead(n, level)| + |StartTag(cfg, "S")|
  }

  /** The node's own part only extends the buffer. */
  lemma {:induction false} OwnExtends(d: Doc, n: Node, level: int, cfg: Config)
    requires Valid(d) && OwnRenderable(n)
    ensures Extends(d, OwnDoc(d, n, level, cfg))
  {
    OwnIs(d, n, level, cfg);
    HeadExtends(d, n, level, cfg);
    var h := HeadDoc(d, n, level, cfg);
    OwnBodyShape(h, n, level, cfg);
    var b := OwnBody(h, n, level, cfg);
    NewlineAppends(b);
    ExtendsTransitive(d, h, b);
    ExtendsTransitive(d, b, Newline(b));
  }

  /** A node's block only extends the buffer: nothing above its first line changes. */
  lemma {:induction false} NodeExtends(d: Doc, n: Node, level: int, cfg: Config)
    requires Valid(d) && Renderable(n)
    ensures Extends(d, NodeDoc(d, n, level, cfg))
    decreases n, 1
  {
    var w := Write(d, StartTag(cfg, "N"));
    WriteAppends(d, StartTag(cfg, "N"));
    OwnExtends(w, n, level, cfg);
    var o := OwnDoc(w, n, level, cfg);
    ChildrenExtend(o, n, |n.children|, level, cfg);
    var q := ChildrenDoc(o, n, |n.children|, level, cfg);
    WriteAppends(q, EndTag(cfg, "N"));
    ExtendsTransitive(d, w, o);
    ExtendsTransitive(d, o, q);
    ExtendsTransitive(d, q, NodeDoc(d, n, level, cfg));
  }

  /** The blocks of the first `k` children of a node only extend the buffer. */
  lemma {:induction false} ChildrenExtend(d: Doc, n: Node, k: nat, level: int, cfg: Config)
    requires Valid(d) && Renderable(n) && k <= |n.children|
    ensures Extends(d, ChildrenDoc(d, n, k, level, cfg))
    decreases n, 0, k, 1
  {
    if k == 0 {
      assert ChildrenDoc(d, n, k, level, cfg) == d;
    } else {
      ChildrenExtend(d, n, k - 1, level, cfg);
      ChildExtends(d, n, k, level, cfg);
    }
  }

  /** One more child's block keeps the buffer extended. */
  lemma {:induction false} ChildExtends(d: Doc, n: Node, k: nat, level: int, cfg: Config)
    requires Valid(d) && Renderable(n) && 0 < k <= |n.children|
    requires Extends(d, ChildrenDoc(d, n, k - 1, level, cfg))
    ensures Extends(d, ChildrenDoc(d, n, k, level, cfg))
    decreases n, 0, k, 0
  {
    var p := ChildrenDoc(d, n, k - 1, level, cfg);
    assert Renderable(n.children[k - 1]);
    NodeExtends(p, n.children[k - 1], level + 1, cfg);
    assert ChildrenDoc(d, n, k, level, cfg) == NodeDoc(p, n.children[k - 1], level + 1, cfg);
    ExtendsTransitive(d, p, NodeDoc(p, n.children[k - 1], level + 1, cfg));
  }

  /** After the node's own part, its children and end tag only extend the buffer. */
  lemma {:induction false} NodeTail(d: Doc, n: Node, level: int, cfg: Config)
    requires Valid(d) && Renderable(n)
    ensures Extends(OwnDoc(Write(d, StartTag(cfg, "N")), n, level, cfg), NodeDoc(d, n, level, cfg))
  {
    var o := OwnDoc(Write(d, StartTag(cfg, "N")), n, level, cfg);
    ChildrenExtend(o, n, |n.children|, level, cfg);
    var q := ChildrenDoc(o, n, |n.children|, level, cfg);
    WriteAppends(q, EndTag(cfg, "N"));
    ExtendsTransitive(o, q, NodeDoc(d, n, level, cfg));
  }

  /**
   * A node's block: the header goes onto the current line, which is recorded
   * under the node's signature.
   */
  lemma {:induction false} NodeHeader(d: Doc, n: Node, level: int, cfg: Config, r: Doc)
    requires Valid(d) && Renderable(n) && OneLine(n) && r == NodeDoc(d, n, level, cfg)
    ensures Current(d) < |r.lines|
    ensures r.lines[Current(d)] == d.lines[Current(d)] + (StartTag(cfg, "N") + HeaderText(n, level, cfg))
    ensures Current(d) in r.signatures && r.signatures[Current(d)] == n.signature
  {
    var w := Write(d, StartTag(cfg, "N"));
    TagOneLine(cfg, "N");
    WriteOnLine(d, StartTag(cfg, "N"));
    OwnShape(w, n, level, cfg);
    NodeTail(d, n, level, cfg);
    HeaderAssemble(d, w, OwnDoc(w, n, level, cfg), r,
                   StartTag(cfg, "N"), HeaderText(n, level, cfg), n.signature);
  }

  /** The header line of a node's block, kept through its children and end tag. */
  lemma {:induction false} HeaderAssemble(d: Doc, w: Doc, o: Doc, r: Doc, tag: string, text: string, sig: string)
    requires Valid(d) && |w.lines| == |d.lines| && w.lines[..Current(d)] == d.lines[..Current(d)]
    requires w.lines[Current(d)] == d.lines[Current(d)] + tag
    requires |o.lines| >= |w.lines| + 2 && o.lines[Current(d)] == w.lines[Current(d)] + text
    requires Current(d) in o.signatures && o.signatures[Current(d)] == sig
    requires Extends(o, r)
    ensures Current(d) < |r.lines| && r.lines[Current(d)] == d.lines[Current(d)] + (tag + text)
    ensures Current(d) in r.signatures && r.signatures[Current(d)] == sig
  {
    var c := Current(d);
    assert r.lines[c] == o.lines[c];
    assert d.lines[c] + tag + text == d.lines[c] + (tag + text);
  }

  /** The header line of a node with a symbol jumps to the line where the symbol's scope starts. */
  lemma {:induction false} NodeSymbolJump(d: Doc, n: Node, level: int, cfg: Config, r: Doc)
    requires Valid(d) && Renderable(n) && OneLine(n) && HasSymbol(n) && r == NodeDoc(d, n, level, cfg)
    ensures Current(d) in r.jumps
    ensures r.jumps[Current(d)] == Target(n.filePath, StartLine(n) - 1, Column(d) + SymbolOffset(n, level, cfg))
  {
    var w := Write(d, StartTag(cfg, "N"));
    var o := OwnDoc(w, n, level, cfg);
    OwnJump(w, n, level, cfg, o);
    TaggedOwnJump(d, w, o, n, level, cfg);
    NodeTail(d, n, level, cfg);
    JumpKept(o, r, Current(d), Target(n.filePath, StartLine(n) - 1, Column(d) + SymbolOffset(n, level, cfg)));
  }

  /** The jump the own part records on the line where the node's block starts. */
  lemma {:induction false} TaggedOwnJump(d: Doc, w: Doc, o: Doc, n: Node, level: int, cfg: Config)
    requires Valid(d) && w == Write(d, StartTag(cfg, "N")) && StartLine(n) >= 1
    requires Valid(w) && |o.lines| == |w.lines| + OwnLineCount(n) && Current(w) in o.jumps
    requires o.jumps[Current(w)]
         == Target(n.filePath, StartLine(n) - 1, Column(w) + |HeaderLead(n, level)| + |StartTag(cfg, "S")|)
    ensures Current(d) < |o.lines| - 1
    ensures Current(d) in o.jumps
    ensures o.jumps[Current(d)] == Target(n.filePath, StartLine(n) - 1, Column(d) + SymbolOffset(n, level, cfg))
  {
    BlockTypesOneLine();
    TagOneLine(cfg, "N");
    TagColumn(d, StartTag(cfg, "N"));
  }

  /** Text without a line break moves the column and not the line. */
  lemma {:induction false} TagColumn(d: Doc, tag: string)
    requires Valid(d) && '\n' !in tag
    ensures |Write(d, tag).lines| == |d.lines| && Column(Write(d, tag)) == Column(d) + |tag|
  {
    WriteOnLine(d, tag);
  }

  lemma {:induction false} JumpKept(o: Doc, r: Doc, c: int, t: Target)
    requires Extends(o, r) && 0 <= c < |o.lines| - 1
    requires c in o.jumps && o.jumps[c] == t
    ensures c in r.jumps && r.jumps[c] == t
  {
  }

  /**
   * Every line of a node's own part, the header, the snippet and the blank
   * line after them, maps back to the node's signature; the lines of its
   * children begin after them.
   */
  lemma {:induction false} NodeOwnLines(d: Doc, n: Node, level: int, cfg: Config, r: Doc, line: int)
    requires Valid(d) && Renderable(n) && OneLine(n) && r == NodeDoc(d, n, level, cfg)
    requires Current(d) < line <= Current(d) + OwnLineCount(n)
    ensures SignatureAt(r, line) == Some(n.signature)
  {
    TaggedOwnSignatures(d, n, level, cfg);
    NodeTail(d, n, level, cfg);
    OwnedSignature(OwnDoc(Write(d, StartTag(cfg, "N")), n, level, cfg), r, Current(d), line, n.signature);
  }

  /** The signature entries the own part records after the start tag: one, on the line where the block starts. */
  lemma {:induction false} TaggedOwnSignatures(d: Doc, n: Node, level: int, cfg: Config)
    requires Valid(d) && OwnRenderable(n) && OneLine(n)
    ensures var o := OwnDoc(Write(d, StartTag(cfg, "N")), n, level, cfg);
      && |o.lines| == |d.lines| + OwnLineCount(n)
      && Current(d) in o.signatures && o.signatures[Current(d)] == n.signature
      && (forall k :: k in o.signatures ==> k <= Current(d))
  {
    TagOneLine(cfg, "N");
    TagColumn(d, StartTag(cfg, "N"));
    OwnSignatures(Write(d, StartTag(cfg, "N")), n, level, cfg);
  }

  /**
   * A 1-based line from `c + 1` up to the current line of `o`, where `c` is
   * the last signature entry of `o`, maps to that entry in any extension of `o`.
   */
  lemma {:induction false} OwnedSignature(o: Doc, r: Doc, c: nat, line: int, sig: string)
    requires Extends(o, r) && c < line <= |o.lines| - 1
    requires c in o.signatures && o.signatures[c] == sig
    requires forall k :: k in o.signatures ==> k <= c
    ensures SignatureAt(r, line) == Some(sig)
  {
    var q := line - 1;
    var s := SignatureAt(r, line);
    assert s.Some?;
    var k :| k in r.signatures && k <= q && s.value == r.signatures[k] &&
      forall k' :: k' in r.signatures && k' <= q ==> k' <= k;
    assert k == c;
  }
}
