/**
 * Rendering of a code search response.  With results: a heading line with
 * the query in a `q` block, a blank line, then each result as a numbered
 * file name (a jump to line 1 of the file) followed by its snippets, each in
 * a `>` block, and a truncation notice when the server stopped early.
 * Without results: the query, the server's status message if it has one,
 * and the status code.
 */
module SearchRender {
  import opened Wrappers
  import opened Strings
  import opened Markup
  import opened Document
  import opened Mapper
  import opened Annotated

  /** A search result: the file it is in and its snippets. */
  datatype SearchResult = SearchResult(filename: string, snippets: seq<Snippet>)

  datatype SearchResponse = SearchResponse(
    results: seq<SearchResult>,
    resultsOffset: int,
    hitMaxResults: bool,
    estimatedTotal: int,
    statusMessage: string,
    status: int)

  /**
   * A snippet of a search result is rendered at level 1 with line 1 as the
   * fallback first line: its first line number is positive or unset (0),
   * and its ranges lie within its text.
   */
  predicate SnippetRenderable(s: Snippet)
  {
    SnippetFirstLine(s, 1) >= 1 && RangesFit(s.text.ranges, Split(s.text.text, '\n'))
  }

  predicate SnippetsRenderable(ss: seq<Snippet>)
  {
    forall i :: 0 <= i < |ss| ==> SnippetRenderable(ss[i])
  }

  predicate ResponseRenderable(resp: SearchResponse)
  {
    forall i :: 0 <= i < |resp.results| ==> SnippetsRenderable(resp.results[i].snippets)
  }

  /** Snippet `index` of a result, in a `>` block. */
  function TaggedSnippetDoc(d: Doc, index: int, s: Snippet, filename: string, cfg: Config): (r: Doc)
    requires Valid(d) && SnippetRenderable(s)
    ensures Valid(r)
  {
    Write(SnippetDoc(Write(d, StartTag(cfg, ">")), index, s, filename, 1, 1, cfg), EndTag(cfg, ">"))
  }

  /** The first `n` snippets of a result, each in a `>` block. */
  function SnippetsDoc(d: Doc, ss: seq<Snippet>, n: nat, filename: string, cfg: Config): (r: Doc)
    requires Valid(d) && n <= |ss| && SnippetsRenderable(ss)
    ensures Valid(r)
    decreases n
  {
    if n == 0 then d
    else TaggedSnippetDoc(SnippetsDoc(d, ss, n - 1, filename, cfg), n - 1, ss[n - 1], filename, cfg)
  }

  /** The text that opens a result: its 1-based number and its file name. */
  function ResultHeading(index: int, filename: string): string
  {
    IntToString(index + 1) + ". " + filename
  }

  /** The numbered file name, whose line jumps to line 1 of the file. */
  function ResultHeadDoc(d: Doc, index: int, res: SearchResult): (r: Doc)
    requires Valid(d)
    ensures Valid(r)
  {
    Write(SetTargetForPos(d, res.filename, 1), ResultHeading(index, res.filename))
  }

  /** `RenderSearchResult` on the mapper state. */
  function SearchResultDoc(d: Doc, index: int, res: SearchResult, cfg: Config): (r: Doc)
    requires Valid(d) && SnippetsRenderable(res.snippets)
    ensures Valid(r)
  {
    Newline(SnippetsDoc(ResultHeadDoc(d, index, res), res.snippets, |res.snippets|, res.filename, cfg))
  }

  /** The first `n` results, each followed by a blank line, numbered from the offset. */
  function ResultsDoc(d: Doc, resp: SearchResponse, n: nat, cfg: Config): (r: Doc)
    requires Valid(d) && n <= |resp.results| && ResponseRenderable(resp)
    ensures Valid(r)
    decreases n
  {
    if n == 0 then d
    else Newline(SearchResultDoc(ResultsDoc(d, resp, n - 1, cfg), n - 1 + resp.resultsOffset, resp.results[n - 1], cfg))
  }

  /** The words that introduce the query of a search response. */
  const SearchIntro: string := "CodeSearch results for "

  lemma {:induction false} SearchIntroOneLine()
    ensures '\n' !in SearchIntro
  {
  }

  /** A line that ends with the query in a `q` block, then a blank line. */
  function QueryDoc(d: Doc, intro: string, query: string, cfg: Config): (r: Doc)
    requires Valid(d)
    ensures Fresh(r)
  {
    Newline(Newline(Write(Write(Write(Write(d, intro), StartTag(cfg, "q")), query), EndTag(cfg, "q"))))
  }

  function TruncationNotice(shown: nat, estimated: int): string
  {
    "Search results are truncated. Showing " + NatToString(shown) + " results out of an estimated "
    + IntToString(estimated) + "."
  }

  function StatusLine(status: int): string
  {
    "Status code  : " + IntToString(status)
  }

  /** After the last result: the truncation notice, when the server stopped early. */
  function TruncationDoc(d: Doc, resp: SearchResponse): (r: Doc)
    requires Valid(d)
    ensures Valid(r)
  {
    if resp.hitMaxResults then Newline(Write(d, TruncationNotice(|resp.results|, resp.estimatedTotal))) else d
  }

  /** After the query of a response without results: the server's status message, if any, and the status code. */
  function StatusDoc(d: Doc, resp: SearchResponse): (r: Doc)
    requires Valid(d)
    ensures Valid(r)
  {
    var withMessage := if resp.statusMessage != "" then Newline(Write(d, "Server status: " + resp.statusMessage))
                       else d;
    Newline(Write(withMessage, StatusLine(resp.status)))
  }

  /** `RenderSearchResponse` on the mapper state. */
  function SearchResponseDoc(d: Doc, query: string, resp: SearchResponse, cfg: Config): (r: Doc)
    requires Valid(d) && ResponseRenderable(resp)
    ensures Valid(r)
  {
    if |resp.results| > 0 then
      TruncationDoc(ResultsDoc(QueryDoc(d, SearchIntro, query, cfg), resp, |resp.results|, cfg), resp)
    else
      StatusDoc(QueryDoc(d, "No results for query ", query, cfg), resp)
  }

  lemma {:induction false} SnippetsDocStep(d: Doc, ss: seq<Snippet>, i: nat, filename: string, cfg: Config)
    requires Valid(d) && i < |ss| && SnippetsRenderable(ss)
    ensures SnippetsDoc(d, ss, i + 1, filename, cfg)
         == TaggedSnippetDoc(SnippetsDoc(d, ss, i, filename, cfg), i, ss[i], filename, cfg)
  {
  }

  lemma {:induction false} ResultsDocStep(d: Doc, resp: SearchResponse, i: nat, cfg: Config)
    requires Valid(d) && i < |resp.results| && ResponseRenderable(resp)
    ensures ResultsDoc(d, resp, i + 1, cfg)
         == Newline(SearchResultDoc(ResultsDoc(d, resp, i, cfg), i + resp.resultsOffset, resp.results[i], cfg))
  {
  }

  /** Writes `intro`, the query in a `q` block, and ends the line and a blank line. */
  method RenderQuery(mapper: LocationMapper, intro: string, query: string, cfg: Config)
    requires mapper.Valid()
    modifies mapper
    ensures mapper.Valid()
    ensures mapper.State() == QueryDoc(old(mapper.State()), intro, query, cfg)
  {
    mapper.Write(intro);
    mapper.Write(StartTag(cfg, "q"));
    mapper.Write(query);
    mapper.Write(EndTag(cfg, "q"));
    mapper.Newline();
    mapper.Newline();
  }

  /** One snippet inside a `>` block. */
  method RenderTaggedSnippet(mapper: LocationMapper, index: int, s: Snippet, filename: string, cfg: Config)
    requires mapper.Valid() && SnippetRenderable(s)
    modifies mapper
    ensures mapper.Valid()
    ensures mapper.State() == TaggedSnippetDoc(old(mapper.State()), index, s, filename, cfg)
  {
    mapper.Write(StartTag(cfg, ">"));
    RenderSnippet(mapper, index, s, filename, 1, 1, cfg);
    mapper.Write(EndTag(cfg, ">"));
  }

  /** The numbered file name of a result. */
  method RenderResultHead(mapper: LocationMapper, index: int, res: SearchResult)
    requires mapper.Valid()
    modifies mapper
    ensures mapper.Valid()
    ensures mapper.State() == ResultHeadDoc(old(mapper.State()), index, res)
  {
    mapper.SetTargetForPos(res.filename, 1);
    mapper.Write(ResultHeading(index, res.filename));
  }

  /** Every snippet of a result, each in a `>` block. */
  method RenderSnippets(mapper: LocationMapper, ss: seq<Snippet>, filename: string, cfg: Config)
    requires mapper.Valid() && SnippetsRenderable(ss)
    modifies mapper
    ensures mapper.Valid()
    ensures mapper.State() == SnippetsDoc(old(mapper.State()), ss, |ss|, filename, cfg)
  {
    ghost var head := mapper.State();
    for i := 0 to |ss|
      invariant mapper.Valid()
      invariant mapper.State() == SnippetsDoc(head, ss, i, filename, cfg)
    {
      SnippetsDocStep(head, ss, i, filename, cfg);
      RenderTaggedSnippet(mapper, i, ss[i], filename, cfg);
    }
  }

  method RenderSearchResult(mapper: LocationMapper, index: int, res: SearchResult, cfg: Config)
    requires mapper.Valid() && SnippetsRenderable(res.snippets)
    modifies mapper
    ensures mapper.Valid()
    ensures mapper.State() == SearchResultDoc(old(mapper.State()), index, res, cfg)
  {
    RenderResultHead(mapper, index, res);
    RenderSnippets(mapper, res.snippets, res.filename, cfg);
    mapper.Newline();
  }

  /** Result `i`, numbered from the offset, and the blank line after it. */
  method RenderNumberedResult(mapper: LocationMapper, resp: SearchResponse, i: nat, cfg: Config)
    requires mapper.Valid() && i < |resp.results| && ResponseRenderable(resp)
    modifies mapper
    ensures mapper.Valid()
    ensures mapper.State() == Newline(SearchResultDoc(old(mapper.State()), i + resp.resultsOffset, resp.results[i], cfg))
  {
    RenderSearchResult(mapper, i + resp.resultsOffset, resp.results[i], cfg);
    mapper.Newline();
  }

  /** Every result, numbered from the offset, each followed by a blank line. */
  method RenderResults(mapper: LocationMapper, resp: SearchResponse, cfg: Config)
    requires mapper.Valid() && ResponseRenderable(resp)
    modifies mapper
    ensures mapper.Valid()
    ensures mapper.State() == ResultsDoc(old(mapper.State()), resp, |resp.results|, cfg)
  {
    ghost var head := mapper.State();
    var i := 0;
    while i < |resp.results|
      invariant 0 <= i <= |resp.results|
      invariant mapper.Valid()
      invariant mapper.State() == ResultsDoc(head, resp, i, cfg)
    {
      ResultsDocStep(head, resp, i, cfg);
      RenderNumberedResult(mapper, resp, i, cfg);
      i := i + 1;
    }
  }

  method RenderSearchResponse(mapper: LocationMapper, query: string, resp: SearchResponse, cfg: Config)
    requires mapper.Valid() && ResponseRenderable(resp)
    modifies mapper
    ensures mapper.Valid()
    ensures mapper.State() == SearchResponseDoc(old(mapper.State()), query, resp, cfg)
  {
    if |resp.results| > 0 {
      RenderQuery(mapper, SearchIntro, query, cfg);
      RenderResults(mapper, resp, cfg);
      if resp.hitMaxResults {
        mapper.Write("Search results are truncated. Showing " + NatToString(|resp.results|)
                     + " results out of an estimated " + IntToString(resp.estimatedTotal) + ".");
        mapper.Newline();
      }
    } else {
      RenderQuery(mapper, "No results for query ", query, cfg);
      if resp.statusMessage != "" {
        mapper.Write("Server status: " + resp.statusMessage);
        mapper.Newline();
      }
      mapper.Write("Status code  : " + IntToString(resp.status));
      mapper.Newline();
    }
  }

  // Properties of the rendered response.

  predicate FileNamesOneLine(resp: SearchResponse)
  {
    forall i :: 0 <= i < |resp.results| ==> '\n' !in resp.results[i].filename
  }

  lemma {:induction false} IntToStringOneLine(i: int)
    ensures '\n' !in IntToString(i)
  {
    var s := IntToString(i);
    assert forall j :: 0 <= j < |s| ==> s[j] != '\n' by {
      if i < 0 {
        assert s == "-" + NatToString(-i);
        assert forall j :: 1 <= j < |s| ==> s[j] == NatToString(-i)[j - 1];
      }
    }
  }

  lemma {:induction false} HeadingOneLine(index: int, filename: string)
    requires '\n' !in filename
    ensures '\n' !in ResultHeading(index, filename)
  {
    IntToStringOneLine(index + 1);
  }

  /**
   * Line `k` of `r` begins with `heading` and carries its own entry: line 1
   * of `filename`, anchored at the start of the line.
   */
  ghost predicate OpensResult(r: Doc, k: nat, heading: string, filename: string)
  {
    && k < |r.lines| && heading <= r.lines[k]
    && k in r.jumps && r.jumps[k] == Target(filename, 0, 0)
  }

  lemma {:induction false} OpensResultGrows(d: Doc, r: Doc, k: nat, heading: string, filename: string)
    requires OpensResult(d, k, heading, filename) && Grows(d, r)
    ensures OpensResult(r, k, heading, filename)
  {
    assert d.lines[k] <= r.lines[k];
  }

  /** A click anywhere on a result's first line opens its file at line 1. */
  lemma {:induction false} ResultHeaderClick(r: Doc, k: nat, heading: string, filename: string, col: int)
    requires Valid(r) && OpensResult(r, k, heading, filename) && col >= 1
    ensures JumpTargetAt(r, k + 1, col).Some?
    ensures JumpTargetAt(r, k + 1, col).value.file == filename
    ensures JumpTargetAt(r, k + 1, col).value.line == 1
    ensures col == 1 ==> JumpTargetAt(r, k + 1, col).value.column == 1
  {
    JumpAtEntry(r, k, col);
  }

  lemma {:induction false} TaggedSnippetGrows(d: Doc, index: int, s: Snippet, filename: string, cfg: Config)
    requires Valid(d) && SnippetRenderable(s)
    ensures Grows(d, TaggedSnippetDoc(d, index, s, filename, cfg))
  {
    WriteGrows(d, StartTag(cfg, ">"));
    SnippetKeeps(Write(d, StartTag(cfg, ">")), index, s, filename, 1, 1, cfg);
    KeepsGrows(Write(d, StartTag(cfg, ">")), SnippetDoc(Write(d, StartTag(cfg, ">")), index, s, filename, 1, 1, cfg));
    GrowsTransitive(d, Write(d, StartTag(cfg, ">")), SnippetDoc(Write(d, StartTag(cfg, ">")), index, s, filename, 1, 1, cfg));
    WriteGrows(SnippetDoc(Write(d, StartTag(cfg, ">")), index, s, filename, 1, 1, cfg), EndTag(cfg, ">"));
    GrowsTransitive(d, SnippetDoc(Write(d, StartTag(cfg, ">")), index, s, filename, 1, 1, cfg),
                    TaggedSnippetDoc(d, index, s, filename, cfg));
  }

  /** The buffer after each prefix of a result's snippets. */
  ghost function SnippetsTrace(d: Doc, ss: seq<Snippet>, filename: string, cfg: Config): (ds: seq<Doc>)
    requires Valid(d) && SnippetsRenderable(ss)
    ensures |ds| == |ss| + 1
    ensures forall t :: 0 <= t < |ds| ==> ds[t] == SnippetsDoc(d, ss, t, filename, cfg)
  {
    seq(|ss| + 1, t requires 0 <= t <= |ss| => SnippetsDoc(d, ss, t, filename, cfg))
  }

  lemma {:induction false} SnippetsChain(d: Doc, ss: seq<Snippet>, filename: string, cfg: Config)
    requires Valid(d) && SnippetsRenderable(ss)
    ensures Chain(SnippetsTrace(d, ss, filename, cfg), 0)
  {
    var ds := SnippetsTrace(d, ss, filename, cfg);
    forall t | 0 < t < |ds|
      ensures AdvancesAt(ds, t, 0)
    {
      SnippetAdvancesAt(d, ss, filename, cfg, ds, t);
    }
  }

  lemma {:induction false} SnippetAdvancesAt(d: Doc, ss: seq<Snippet>, filename: string, cfg: Config, ds: seq<Doc>, t: nat)
    requires Valid(d) && SnippetsRenderable(ss) && ds == SnippetsTrace(d, ss, filename, cfg) && 0 < t < |ds|
    ensures AdvancesAt(ds, t, 0)
  {
    assert ds[t] == TaggedSnippetDoc(ds[t - 1], t - 1, ss[t - 1], filename, cfg);
    TaggedSnippetGrows(ds[t - 1], t - 1, ss[t - 1], filename, cfg);
  }

  /** Snippets only add output. */
  lemma {:induction false} SnippetsGrow(d: Doc, ss: seq<Snippet>, filename: string, cfg: Config)
    requires Valid(d) && SnippetsRenderable(ss)
    ensures Grows(d, SnippetsDoc(d, ss, |ss|, filename, cfg))
  {
    SnippetsChain(d, ss, filename, cfg);
    ChainAdvances(SnippetsTrace(d, ss, filename, cfg), 0, 0, |ss|);
  }

  /**
   * `b` is `a` with one more result: `b` is fresh, has at least two more
   * lines, keeps all of `a`, and the line `a` was writing opens the result.
   */
  ghost predicate AddsResult(a: Doc, b: Doc, heading: string, filename: string)
  {
    && Valid(a) && Fresh(b) && Advances(a, b, 2)
    && OpensResult(b, Current(a), heading, filename)
  }

  /** The heading line of a result written on a fresh line. */
  lemma {:induction false} ResultHeadOpens(d: Doc, index: int, res: SearchResult)
    requires Fresh(d) && '\n' !in res.filename
    ensures Grows(d, ResultHeadDoc(d, index, res))
    ensures OpensResult(ResultHeadDoc(d, index, res), Current(d), ResultHeading(index, res.filename), res.filename)
  {
    SetTargetGrows(d, res.filename, 1);
    HeadingOneLine(index, res.filename);
    WriteOnLine(SetTargetForPos(d, res.filename, 1), ResultHeading(index, res.filename));
    WriteGrows(SetTargetForPos(d, res.filename, 1), ResultHeading(index, res.filename));
    GrowsTransitive(d, SetTargetForPos(d, res.filename, 1), ResultHeadDoc(d, index, res));
  }

  /** A result rendered on a fresh line, followed by the blank line the response adds. */
  lemma {:induction false} ResultAdded(d: Doc, index: int, res: SearchResult, cfg: Config)
    requires Fresh(d) && '\n' !in res.filename && SnippetsRenderable(res.snippets)
    ensures AddsResult(d, Newline(SearchResultDoc(d, index, res, cfg)), ResultHeading(index, res.filename), res.filename)
  {
    ResultHeadOpens(d, index, res);
    SnippetsGrow(ResultHeadDoc(d, index, res), res.snippets, res.filename, cfg);
    NewlineGrows(SnippetsDoc(ResultHeadDoc(d, index, res), res.snippets, |res.snippets|, res.filename, cfg));
    NewlineGrows(SearchResultDoc(d, index, res, cfg));
    GrowsTransitive(ResultHeadDoc(d, index, res),
                    SnippetsDoc(ResultHeadDoc(d, index, res), res.snippets, |res.snippets|, res.filename, cfg),
                    SearchResultDoc(d, index, res, cfg));
    GrowsTransitive(ResultHeadDoc(d, index, res), SearchResultDoc(d, index, res, cfg),
                    Newline(SearchResultDoc(d, index, res, cfg)));
    OpensResultGrows(ResultHeadDoc(d, index, res), Newline(SearchResultDoc(d, index, res, cfg)), Current(d),
                     ResultHeading(index, res.filename), res.filename);
    GrowsTransitive(d, ResultHeadDoc(d, index, res), Newline(SearchResultDoc(d, index, res, cfg)));
  }

  lemma {:induction false} ResultsStep(d: Doc, resp: SearchResponse, n: nat, cfg: Config)
    requires Valid(d) && 0 < n <= |resp.results| && ResponseRenderable(resp) && FileNamesOneLine(resp)
    requires Fresh(ResultsDoc(d, resp, n - 1, cfg))
    ensures AddsResult(ResultsDoc(d, resp, n - 1, cfg), ResultsDoc(d, resp, n, cfg),
                       ResultHeading(n - 1 + resp.resultsOffset, resp.results[n - 1].filename),
                       resp.results[n - 1].filename)
  {
    ResultAdded(ResultsDoc(d, resp, n - 1, cfg), n - 1 + resp.resultsOffset, resp.results[n - 1], cfg);
  }

  lemma {:induction false} ResultsFresh(d: Doc, resp: SearchResponse, n: nat, cfg: Config)
    requires Fresh(d) && n <= |resp.results| && ResponseRenderable(resp) && FileNamesOneLine(resp)
    ensures Fresh(ResultsDoc(d, resp, n, cfg))
    decreases n
  {
    if n > 0 {
      ResultsFresh(d, resp, n - 1, cfg);
      ResultsStep(d, resp, n, cfg);
    }
  }

  /** The buffer after each prefix of the results. */
  ghost function ResultsTrace(d: Doc, resp: SearchResponse, cfg: Config): (ds: seq<Doc>)
    requires Valid(d) && ResponseRenderable(resp)
    ensures |ds| == |resp.results| + 1
    ensures forall t :: 0 <= t < |ds| ==> ds[t] == ResultsDoc(d, resp, t, cfg)
  {
    seq(|resp.results| + 1, t requires 0 <= t <= |resp.results| => ResultsDoc(d, resp, t, cfg))
  }

  /** State `t` of `ds` is state `t - 1` with result `t - 1` of `resp` added. */
  ghost predicate AddsResultAt(ds: seq<Doc>, resp: SearchResponse, t: nat)
    requires 0 < t < |ds| && t <= |resp.results|
  {
    AddsResult(ds[t - 1], ds[t], ResultHeading(t - 1 + resp.resultsOffset, resp.results[t - 1].filename),
               resp.results[t - 1].filename)
  }

  /** Each state of `ds` adds the next result of `resp` to the one before. */
  ghost predicate ListsResults(ds: seq<Doc>, resp: SearchResponse)
  {
    && |ds| == |resp.results| + 1
    && forall t :: 0 < t < |ds| ==> AddsResultAt(ds, resp, t)
  }

  lemma {:induction false} ResultsChain(d: Doc, resp: SearchResponse, cfg: Config)
    requires Fresh(d) && ResponseRenderable(resp) && FileNamesOneLine(resp)
    ensures Chain(ResultsTrace(d, resp, cfg), 2) && ListsResults(ResultsTrace(d, resp, cfg), resp)
  {
    var ds := ResultsTrace(d, resp, cfg);
    forall t | 0 < t < |ds| ensures AddsResultAt(ds, resp, t) && AdvancesAt(ds, t, 2) {
      ResultAddedAt(d, resp, cfg, ds, t);
    }
  }

  lemma {:induction false} ResultAddedAt(d: Doc, resp: SearchResponse, cfg: Config, ds: seq<Doc>, t: nat)
    requires Fresh(d) && ResponseRenderable(resp) && FileNamesOneLine(resp)
    requires ds == ResultsTrace(d, resp, cfg) && 0 < t < |ds|
    ensures AddsResultAt(ds, resp, t) && AdvancesAt(ds, t, 2)
  {
    assert ds[t - 1] == ResultsDoc(d, resp, t - 1, cfg) && ds[t] == ResultsDoc(d, resp, t, cfg);
    ResultsFresh(d, resp, t - 1, cfg);
    ResultsStep(d, resp, t, cfg);
  }

  /** A result opened at some state of the chain is still open at its end. */
  lemma {:induction false} ChainKeepsResult(ds: seq<Doc>, resp: SearchResponse, i: nat)
    requires Chain(ds, 2) && ListsResults(ds, resp) && i < |resp.results|
    ensures OpensResult(ds[|resp.results|], Current(ds[i]),
                        ResultHeading(i + resp.resultsOffset, resp.results[i].filename), resp.results[i].filename)
  {
    ChainOpensResult(ds, resp, i);
    ChainGrows(ds, 2, i + 1, |resp.results|);
    OpensResultGrows(ds[i + 1], ds[|resp.results|], Current(ds[i]),
                     ResultHeading(i + resp.resultsOffset, resp.results[i].filename), resp.results[i].filename);
  }

  /** The state after result `i` opens it on the line that was current before it. */
  lemma {:induction false} ChainOpensResult(ds: seq<Doc>, resp: SearchResponse, i: nat)
    requires ListsResults(ds, resp) && i < |resp.results|
    ensures |ds[i].lines| >= 1
    ensures OpensResult(ds[i + 1], Current(ds[i]),
                        ResultHeading(i + resp.resultsOffset, resp.results[i].filename), resp.results[i].filename)
  {
    assert AddsResultAt(ds, resp, i + 1);
  }

  /** Later results only add lines, at least two per result. */
  lemma {:induction false} ResultsGrow(d: Doc, resp: SearchResponse, i: nat, j: nat, cfg: Config)
    requires Fresh(d) && i <= j <= |resp.results| && ResponseRenderable(resp) && FileNamesOneLine(resp)
    ensures Advances(ResultsDoc(d, resp, i, cfg), ResultsDoc(d, resp, j, cfg), if i < j then 2 else 0)
  {
    ResultsChain(d, resp, cfg);
    ChainAdvances(ResultsTrace(d, resp, cfg), 2, i, j);
  }

  /** Text without newlines written on an empty line, followed by a new line. */
  lemma {:induction false} WriteLineLines(d: Doc, s: string)
    requires Valid(d) && d.lines[|d.lines| - 1] == "" && '\n' !in s
    ensures Newline(Write(d, s)).lines == d.lines[..|d.lines| - 1] + [s, ""]
    ensures Newline(Write(d, s)).jumps == d.jumps
  {
    WriteOnLine(d, s);
    assert d.lines[|d.lines| - 1] + s == s;
  }

  /** The text of the query line after its introduction: the query in a `q` block. */
  function QueryText(intro: string, query: string, cfg: Config): string
  {
    intro + StartTag(cfg, "q") + query + EndTag(cfg, "q")
  }

  lemma {:induction false} AppendAssociates(a: string, b: string, c: string, d: string, e: string)
    ensures a + b + c + d + e == a + (b + c + d + e)
  {
  }

  /** The query line, the line break after it and the blank line, with no new entry. */
  lemma {:induction false} QueryLines(d: Doc, intro: string, query: string, cfg: Config)
    requires Valid(d) && '\n' !in intro && '\n' !in query
    ensures QueryDoc(d, intro, query, cfg).lines
         == d.lines[..|d.lines| - 1] + [d.lines[|d.lines| - 1] + QueryText(intro, query, cfg), "", ""]
    ensures QueryDoc(d, intro, query, cfg).jumps == d.jumps
  {
    QueryWrites(d, intro, query, cfg);
    QueryTextOneLine(intro, query, cfg);
    WriteOnLine(d, QueryText(intro, query, cfg));
    TwoNewlines(Write(d, QueryText(intro, query, cfg)), d.lines[..|d.lines| - 1],
                d.lines[|d.lines| - 1] + QueryText(intro, query, cfg));
  }

  lemma {:induction false} TwoNewlines(w: Doc, prefix: seq<string>, last: string)
    requires Valid(w) && w.lines == prefix + [last]
    ensures Newline(Newline(w)).lines == prefix + [last, "", ""]
    ensures Newline(Newline(w)).jumps == w.jumps
  {
  }

  /** The four writes of the query line are one write of its text. */
  lemma {:induction false} QueryWrites(d: Doc, intro: string, query: string, cfg: Config)
    requires Valid(d)
    ensures QueryDoc(d, intro, query, cfg) == Newline(Newline(Write(d, QueryText(intro, query, cfg))))
  {
    var st, et := StartTag(cfg, "q"), EndTag(cfg, "q");
    WriteConcat(d, intro, st);
    WriteConcat(d, intro + st, query);
    WriteConcat(d, intro + st + query, et);
  }

  lemma {:induction false} QueryTextOneLine(intro: string, query: string, cfg: Config)
    requires '\n' !in intro && '\n' !in query
    ensures '\n' !in QueryText(intro, query, cfg)
  {
    TagsWellFormed(cfg, "q");
  }

  /** The line on which result `i` of a response with results begins. */
  ghost function ResultLine(d: Doc, query: string, resp: SearchResponse, i: nat, cfg: Config): nat
    requires Valid(d) && ResponseRenderable(resp) && i <= |resp.results|
  {
    Current(ResultsDoc(QueryDoc(d, SearchIntro, query, cfg), resp, i, cfg))
  }

  /** The truncation notice only adds lines. */
  lemma {:induction false} TruncationGrows(d: Doc, resp: SearchResponse)
    requires Valid(d)
    ensures Grows(d, TruncationDoc(d, resp))
  {
    if resp.hitMaxResults {
      WriteGrows(d, TruncationNotice(|resp.results|, resp.estimatedTotal));
      NewlineGrows(Write(d, TruncationNotice(|resp.results|, resp.estimatedTotal)));
      GrowsTransitive(d, Write(d, TruncationNotice(|resp.results|, resp.estimatedTotal)), TruncationDoc(d, resp));
    }
  }

  /** After the last result only the truncation notice may follow, and it replaces nothing. */
  lemma {:induction false} BodyGrows(d: Doc, query: string, resp: SearchResponse, cfg: Config)
    requires Valid(d) && ResponseRenderable(resp) && |resp.results| > 0
    ensures Grows(ResultsDoc(QueryDoc(d, SearchIntro, query, cfg), resp, |resp.results|, cfg),
                  SearchResponseDoc(d, query, resp, cfg))
  {
    TruncationGrows(ResultsDoc(QueryDoc(d, SearchIntro, query, cfg), resp, |resp.results|, cfg), resp);
  }

  /** Result `i` stays open on its line until the last result is written. */
  lemma {:induction false} ResultKept(q: Doc, resp: SearchResponse, i: nat, cfg: Config)
    requires Fresh(q) && ResponseRenderable(resp) && FileNamesOneLine(resp) && i < |resp.results|
    ensures OpensResult(ResultsDoc(q, resp, |resp.results|, cfg), Current(ResultsDoc(q, resp, i, cfg)),
                        ResultHeading(i + resp.resultsOffset, resp.results[i].filename), resp.results[i].filename)
  {
    ResultsChain(q, resp, cfg);
    ChainKeepsResult(ResultsTrace(q, resp, cfg), resp, i);
  }

  /**
   * Every result of the response is listed: its line begins with its number
   * (counted from the offset) and its file name, and jumps to line 1 of that
   * file.
   */
  lemma {:induction false} ResponseListsResult(d: Doc, query: string, resp: SearchResponse, i: nat, cfg: Config)
    requires Valid(d) && ResponseRenderable(resp) && FileNamesOneLine(resp) && i < |resp.results|
    ensures OpensResult(SearchResponseDoc(d, query, resp, cfg), ResultLine(d, query, resp, i, cfg),
                        ResultHeading(i + resp.resultsOffset, resp.results[i].filename), resp.results[i].filename)
  {
    ResultKept(QueryDoc(d, SearchIntro, query, cfg), resp, i, cfg);
    BodyGrows(d, query, resp, cfg);
    OpensResultGrows(ResultsDoc(QueryDoc(d, SearchIntro, query, cfg), resp, |resp.results|, cfg),
                     SearchResponseDoc(d, query, resp, cfg), ResultLine(d, query, resp, i, cfg),
                     ResultHeading(i + resp.resultsOffset, resp.results[i].filename), resp.results[i].filename);
  }

  /** Clicking anywhere on the line of result `i` of the rendered response `r` opens its file at line 1. */
  lemma {:induction false} ResponseResultClick(d: Doc, query: string, resp: SearchResponse, i: nat, col: int, cfg: Config, r: Doc)
    requires Valid(d) && ResponseRenderable(resp) && FileNamesOneLine(resp) && i < |resp.results| && col >= 1
    requires r == SearchResponseDoc(d, query, resp, cfg)
    ensures JumpTargetAt(r, ResultLine(d, query, resp, i, cfg) + 1, col).Some?
    ensures JumpTargetAt(r, ResultLine(d, query, resp, i, cfg) + 1, col).value.file == resp.results[i].filename
    ensures JumpTargetAt(r, ResultLine(d, query, resp, i, cfg) + 1, col).value.line == 1
  {
    ResponseListsResult(d, query, resp, i, cfg);
    ResultHeaderClick(r, ResultLine(d, query, resp, i, cfg),
                      ResultHeading(i + resp.resultsOffset, resp.results[i].filename), resp.results[i].filename, col);
  }

  /** Results appear in order, at least two lines apart (the heading and the blank line). */
  lemma {:induction false} ResultsInOrder(d: Doc, query: string, resp: SearchResponse, i: nat, j: nat, cfg: Config)
    requires Valid(d) && ResponseRenderable(resp) && FileNamesOneLine(resp) && i < j <= |resp.results|
    ensures ResultLine(d, query, resp, i, cfg) + 2 <= ResultLine(d, query, resp, j, cfg)
  {
    ResultsGrow(QueryDoc(d, SearchIntro, query, cfg), resp, i, j, cfg);
  }

  /**
   * `r` continues `d`'s current line with `text`, then has a blank line and
   * at least one line after it.
   */
  ghost predicate OpensWith(r: Doc, d: Doc, text: string)
    requires |d.lines| >= 1
  {
    && |d.lines| + 1 < |r.lines|
    && r.lines[|d.lines| - 1] == d.lines[|d.lines| - 1] + text
    && r.lines[|d.lines|] == ""
  }

  /**
   * A response with results opens with the query in a `q` block, then a
   * blank line, and its first result begins on the line after.
   */
  lemma {:induction false} ResponseHeading(d: Doc, query: string, resp: SearchResponse, cfg: Config)
    requires Valid(d) && ResponseRenderable(resp) && FileNamesOneLine(resp) && |resp.results| > 0
    requires '\n' !in query
    ensures OpensWith(SearchResponseDoc(d, query, resp, cfg), d, QueryText(SearchIntro, query, cfg))
    ensures ResultLine(d, query, resp, 0, cfg) == |d.lines| + 1
  {
    ResponseOpens(d, query, resp, cfg);
    FirstResultLine(d, query, resp, cfg);
  }

  lemma {:induction false} ResponseOpens(d: Doc, query: string, resp: SearchResponse, cfg: Config)
    requires Valid(d) && ResponseRenderable(resp) && FileNamesOneLine(resp) && |resp.results| > 0
    requires '\n' !in query
    ensures OpensWith(SearchResponseDoc(d, query, resp, cfg), d, QueryText(SearchIntro, query, cfg))
  {
    SearchIntroOneLine();
    QueryShape(d, SearchIntro, query, cfg, QueryDoc(d, SearchIntro, query, cfg));
    BodyAdvances(d, query, resp, cfg);
    OpensFrom(d, QueryDoc(d, SearchIntro, query, cfg), SearchResponseDoc(d, query, resp, cfg),
              QueryText(SearchIntro, query, cfg));
  }

  /** The query line and the blank line after it, as indexed lines. */
  lemma {:induction false} QueryShape(d: Doc, intro: string, query: string, cfg: Config, q: Doc)
    requires Valid(d) && '\n' !in intro && '\n' !in query && q == QueryDoc(d, intro, query, cfg)
    ensures |q.lines| == |d.lines| + 2
    ensures q.lines[|d.lines| - 1] == d.lines[|d.lines| - 1] + QueryText(intro, query, cfg)
    ensures q.lines[|d.lines|] == ""
  {
    QueryLines(d, intro, query, cfg);
  }

  /** The results and the notice come at least two lines after the query line. */
  lemma {:induction false} BodyAdvances(d: Doc, query: string, resp: SearchResponse, cfg: Config)
    requires Valid(d) && ResponseRenderable(resp) && FileNamesOneLine(resp) && |resp.results| > 0
    ensures Advances(QueryDoc(d, SearchIntro, query, cfg), SearchResponseDoc(d, query, resp, cfg), 2)
  {
    ResultsGrow(QueryDoc(d, SearchIntro, query, cfg), resp, 0, |resp.results|, cfg);
    assert ResultsDoc(QueryDoc(d, SearchIntro, query, cfg), resp, 0, cfg)
        == QueryDoc(d, SearchIntro, query, cfg);
    BodyGrows(d, query, resp, cfg);
    AdvancesTransitive(QueryDoc(d, SearchIntro, query, cfg),
                       ResultsDoc(QueryDoc(d, SearchIntro, query, cfg), resp, |resp.results|, cfg),
                       SearchResponseDoc(d, query, resp, cfg), 2, 0);
  }

  lemma {:induction false} OpensFrom(d: Doc, q: Doc, r: Doc, text: string)
    requires 1 <= |d.lines| && |q.lines| == |d.lines| + 2
    requires q.lines[|d.lines| - 1] == d.lines[|d.lines| - 1] + text && q.lines[|d.lines|] == ""
    requires Advances(q, r, 2)
    ensures OpensWith(r, d, text)
  {
    assert r.lines[|d.lines| - 1] == q.lines[|d.lines| - 1];
    assert r.lines[|d.lines|] == q.lines[|d.lines|];
  }

  lemma {:induction false} FirstResultLine(d: Doc, query: string, resp: SearchResponse, cfg: Config)
    requires Valid(d) && ResponseRenderable(resp) && |resp.results| > 0 && '\n' !in query
    ensures ResultLine(d, query, resp, 0, cfg) == |d.lines| + 1
  {
    SearchIntroOneLine();
    QueryShape(d, SearchIntro, query, cfg, QueryDoc(d, SearchIntro, query, cfg));
    assert ResultsDoc(QueryDoc(d, SearchIntro, query, cfg), resp, 0, cfg)
        == QueryDoc(d, SearchIntro, query, cfg);
  }

  /** Each rendered result ends with two blank lines. */
  lemma {:induction false} ResultsEndBlank(d: Doc, resp: SearchResponse, n: nat, cfg: Config)
    requires Valid(d) && 0 < n <= |resp.results| && ResponseRenderable(resp)
    ensures |ResultsDoc(d, resp, n, cfg).lines| >= 2
    ensures ResultsDoc(d, resp, n, cfg).lines[|ResultsDoc(d, resp, n, cfg).lines| - 2] == ""
  {
  }

  lemma {:induction false} NoticeOneLine(shown: nat, estimated: int)
    ensures '\n' !in TruncationNotice(shown, estimated) && TruncationNotice(shown, estimated) != ""
  {
    IntToStringOneLine(shown);
    IntToStringOneLine(estimated);
  }

  /**
   * `r` ends with a blank line, and the line before it is `notice` exactly
   * when `shown`.
   */
  ghost predicate EndsWith(r: Doc, notice: string, shown: bool)
  {
    && |r.lines| >= 2 && r.lines[|r.lines| - 1] == ""
    && (r.lines[|r.lines| - 2] == notice <==> shown)
  }

  /** On a fresh line after a blank one, the notice is the last text exactly when the server stopped early. */
  lemma {:induction false} TruncationFooter(d: Doc, resp: SearchResponse)
    requires Fresh(d) && |d.lines| >= 2 && d.lines[|d.lines| - 2] == ""
    ensures EndsWith(TruncationDoc(d, resp), TruncationNotice(|resp.results|, resp.estimatedTotal), resp.hitMaxResults)
  {
    NoticeOneLine(|resp.results|, resp.estimatedTotal);
    NoticeAfterBlank(d, TruncationDoc(d, resp), TruncationNotice(|resp.results|, resp.estimatedTotal), resp.hitMaxResults);
  }

  /** A one-line notice written, or not, on a fresh line after a blank one. */
  lemma {:induction false} NoticeAfterBlank(d: Doc, r: Doc, notice: string, shown: bool)
    requires Fresh(d) && |d.lines| >= 2 && d.lines[|d.lines| - 2] == ""
    requires '\n' !in notice && notice != ""
    requires r == if shown then Newline(Write(d, notice)) else d
    ensures EndsWith(r, notice, shown)
  {
    if shown {
      WriteOnLine(d, notice);
      assert "" + notice == notice;
    }
  }

  /** The truncation notice closes a response with results exactly when the server hit its limit. */
  lemma {:induction false} ResponseFooter(d: Doc, query: string, resp: SearchResponse, cfg: Config)
    requires Valid(d) && ResponseRenderable(resp) && FileNamesOneLine(resp) && |resp.results| > 0
    ensures EndsWith(SearchResponseDoc(d, query, resp, cfg), TruncationNotice(|resp.results|, resp.estimatedTotal),
                     resp.hitMaxResults)
  {
    ResultsFresh(QueryDoc(d, SearchIntro, query, cfg), resp, |resp.results|, cfg);
    ResultsEndBlank(QueryDoc(d, SearchIntro, query, cfg), resp, |resp.results|, cfg);
    TruncationFooter(ResultsDoc(QueryDoc(d, SearchIntro, query, cfg), resp, |resp.results|, cfg), resp);
  }

  /** On an empty line: the status message line when there is a message, then the status code line. */
  lemma {:induction false} StatusLines(d: Doc, resp: SearchResponse)
    requires Valid(d) && d.lines[|d.lines| - 1] == "" && '\n' !in resp.statusMessage
    ensures StatusDoc(d, resp).lines
         == d.lines[..|d.lines| - 1]
          + (if resp.statusMessage != "" then ["Server status: " + resp.statusMessage] else [])
          + [StatusLine(resp.status), ""]
    ensures StatusDoc(d, resp).jumps == d.jumps
  {
    IntToStringOneLine(resp.status);
    var n := |d.lines|;
    if resp.statusMessage != "" {
      var m := Newline(Write(d, "Server status: " + resp.statusMessage));
      WriteLineLines(d, "Server status: " + resp.statusMessage);
      WriteLineLines(m, StatusLine(resp.status));
      assert m.lines[..|m.lines| - 1] == d.lines[..n - 1] + ["Server status: " + resp.statusMessage];
    } else {
      WriteLineLines(d, StatusLine(resp.status));
      assert d.lines[..n - 1] + [] == d.lines[..n - 1];
    }
  }

  lemma {:induction false} ButLast(s: seq<string>, a: seq<string>, x: string)
    requires s == a + [x, "", ""]
    ensures s[..|s| - 1] == a + [x, ""]
  {
  }

  /**
   * A response without results is the query line, a blank line, the
   * server's status message when it has one, and the status code; it
   * jumps nowhere.
   */
  lemma {:induction false} NoResultsLines(d: Doc, query: string, resp: SearchResponse, cfg: Config)
    requires Valid(d) && |resp.results| == 0 && '\n' !in query && '\n' !in resp.statusMessage
    ensures SearchResponseDoc(d, query, resp, cfg).lines
         == d.lines[..|d.lines| - 1]
          + [d.lines[|d.lines| - 1] + QueryText("No results for query ", query, cfg), ""]
          + (if resp.statusMessage != "" then ["Server status: " + resp.statusMessage] else [])
          + [StatusLine(resp.status), ""]
    ensures SearchResponseDoc(d, query, resp, cfg).jumps == d.jumps
  {
    QueryLines(d, "No results for query ", query, cfg);
    StatusLines(QueryDoc(d, "No results for query ", query, cfg), resp);
    ButLast(QueryDoc(d, "No results for query ", query, cfg).lines, d.lines[..|d.lines| - 1],
            d.lines[|d.lines| - 1] + QueryText("No results for query ", query, cfg));
  }
}
