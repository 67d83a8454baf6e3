/**
 * The entry point of the renderer: a compound response carries a search, a
 * cross-reference or a call-graph response, and the first kind present is
 * rendered into a fresh location mapper.
 */
module Compound {
  import opened Wrappers
  import opened Markup
  import opened Document
  import opened Mapper
  import opened SearchRender
  import opened XrefRender
  import opened CallGraph

  datatype CallGraphResponse = CallGraphResponse(node: Node)

  /** Each field is a repeated field of the response: a kind is present when its list is not empty. */
  datatype CompoundResponse = CompoundResponse(
    searchResponse: seq<SearchResponse>,
    xrefSearchResponse: seq<XrefSearchResponse>,
    callGraphResponse: seq<CallGraphResponse>)

  /** The two ways rendering a compound response fails. */
  datatype RenderError =
    | AssertionError       // the kind present holds other than exactly one response
    | UnknownResponseType  // no kind is present

  /** The response that is rendered, whatever its kind, is one that can be. */
  predicate CompoundRenderable(c: CompoundResponse)
  {
    && (|c.searchResponse| == 1 ==> ResponseRenderable(c.searchResponse[0]))
    && (|c.searchResponse| == 0 && |c.xrefSearchResponse| == 1 ==>
          (c.xrefSearchResponse[0].status == 0 ==> ResponseLinesPositive(c.xrefSearchResponse[0])))
    && (|c.searchResponse| == 0 && |c.xrefSearchResponse| == 0 && |c.callGraphResponse| == 1 ==>
          Renderable(c.callGraphResponse[0].node))
  }

  /** `RenderCompoundResponse`: the state of the mapper it returns, or the error it raises. */
  function CompoundDoc(c: CompoundResponse, query: string, cfg: Config): (r: Result<Doc, RenderError>)
    requires CompoundRenderable(c)
    ensures r.Success? ==> Valid(r.value)
  {
    if |c.searchResponse| > 0 then
      if |c.searchResponse| == 1 then Success(SearchResponseDoc(Empty, query, c.searchResponse[0], cfg))
      else Failure(AssertionError)
    else if |c.xrefSearchResponse| > 0 then
      if |c.xrefSearchResponse| == 1 then Success(XrefResponseDoc(Empty, c.xrefSearchResponse[0], cfg))
      else Failure(AssertionError)
    else if |c.callGraphResponse| > 0 then
      if |c.callGraphResponse| == 1 then Success(NodeDoc(Empty, c.callGraphResponse[0].node, 0, cfg))
      else Failure(AssertionError)
    else
      Failure(UnknownResponseType)
  }

  method RenderCompoundResponse(c: CompoundResponse, query: string, cfg: Config)
      returns (result: Result<LocationMapper, RenderError>)
    requires CompoundRenderable(c)
    ensures result.Success? <==> CompoundDoc(c, query, cfg).Success?
    ensures result.Failure? ==> result.error == CompoundDoc(c, query, cfg).error
    ensures result.Success? ==>
      fresh(result.value) && result.value.Valid() && result.value.State() == CompoundDoc(c, query, cfg).value
  {
    var mapper := new LocationMapper();
    if |c.searchResponse| > 0 {
      if |c.searchResponse| != 1 {
        return Failure(AssertionError);
      }
      RenderSearchResponse(mapper, query, c.searchResponse[0], cfg);
    } else if |c.xrefSearchResponse| > 0 {
      if |c.xrefSearchResponse| != 1 {
        return Failure(AssertionError);
      }
      RenderXrefSearchResponse(mapper, c.xrefSearchResponse[0], cfg);
    } else if |c.callGraphResponse| > 0 {
      if |c.callGraphResponse| != 1 {
        return Failure(AssertionError);
      }
      RenderNode(mapper, c.callGraphResponse[0].node, 0, cfg);
    } else {
      return Failure(UnknownResponseType);
    }
    return Success(mapper);
  }

  // Properties

  /** Which kind is rendered: the first whose list is not empty, in the order search, cross-reference, call graph. */
  function Chosen(c: CompoundResponse): (k: nat)
    ensures k <= 3
  {
    if |c.searchResponse| > 0 then 0
    else if |c.xrefSearchResponse| > 0 then 1
    else if |c.callGraphResponse| > 0 then 2
    else 3
  }

  /** Rendering succeeds exactly when the first kind present holds exactly one response. */
  lemma {:induction false} CompoundSucceeds(c: CompoundResponse, query: string, cfg: Config)
    requires CompoundRenderable(c)
    ensures CompoundDoc(c, query, cfg).Success? <==>
      || (Chosen(c) == 0 && |c.searchResponse| == 1)
      || (Chosen(c) == 1 && |c.xrefSearchResponse| == 1)
      || (Chosen(c) == 2 && |c.callGraphResponse| == 1)
  {
  }

  /** The response type is unknown exactly when all three lists are empty. */
  lemma {:induction false} CompoundUnknown(c: CompoundResponse, query: string, cfg: Config)
    requires CompoundRenderable(c)
    ensures CompoundDoc(c, query, cfg) == Failure(UnknownResponseType) <==>
      c.searchResponse == [] && c.xrefSearchResponse == [] && c.callGraphResponse == []
  {
  }

  /** Once a kind is present, the kinds after it in the order do not change the outcome. */
  lemma {:induction false} CompoundPrecedence(c: CompoundResponse, xs: seq<XrefSearchResponse>, gs: seq<CallGraphResponse>,
                           query: string, cfg: Config)
    requires CompoundRenderable(c) && |c.searchResponse| > 0
    ensures var c' := c.(xrefSearchResponse := xs, callGraphResponse := gs);
      CompoundRenderable(c') && CompoundDoc(c', query, cfg) == CompoundDoc(c, query, cfg)
  {
  }

  /**
   * A call graph is rendered from the first line of an empty buffer: the
   * root's header is the first line, and it and the rest of the root's own
   * lines map to the root's signature.
   */
  lemma {:induction false} CallGraphRoot(c: CompoundResponse, query: string, cfg: Config, r: Doc)
    requires CompoundRenderable(c) && Chosen(c) == 2
    requires CompoundDoc(c, query, cfg) == Success(r)
    requires OneLine(c.callGraphResponse[0].node)
    ensures var root := c.callGraphResponse[0].node;
      && r.lines[0] == StartTag(cfg, "N") + CallGraph.HeaderText(root, 0, cfg)
      && forall line :: 1 <= line <= OwnLineCount(root) ==> SignatureAt(r, line) == Some(root.signature)
  {
    CallGraphRendered(c, query, cfg, r);
    RootLines(c.callGraphResponse[0].node, cfg, r);
  }

  lemma {:induction false} CallGraphRendered(c: CompoundResponse, query: string, cfg: Config, r: Doc)
    requires CompoundRenderable(c) && Chosen(c) == 2
    requires CompoundDoc(c, query, cfg) == Success(r)
    ensures |c.callGraphResponse| == 1 && Renderable(c.callGraphResponse[0].node)
    ensures r == NodeDoc(Empty, c.callGraphResponse[0].node, 0, cfg)
  {
  }

  lemma {:induction false} RootLines(root: Node, cfg: Config, r: Doc)
    requires Renderable(root) && OneLine(root) && r == NodeDoc(Empty, root, 0, cfg)
    ensures r.lines[0] == StartTag(cfg, "N") + CallGraph.HeaderText(root, 0, cfg)
    ensures forall line :: 1 <= line <= OwnLineCount(root) ==> SignatureAt(r, line) == Some(root.signature)
  {
    NodeHeader(Empty, root, 0, cfg, r);
    RootSignatures(root, cfg, r);
  }

  lemma {:induction false} RootSignatures(root: Node, cfg: Config, r: Doc)
    requires Renderable(root) && OneLine(root) && r == NodeDoc(Empty, root, 0, cfg)
    ensures forall line :: 1 <= line <= OwnLineCount(root) ==> SignatureAt(r, line) == Some(root.signature)
  {
    assert Current(Empty) == 0;
    forall line | 1 <= line <= OwnLineCount(root)
      ensures SignatureAt(r, line) == Some(root.signature)
    {
      NodeOwnLines(Empty, root, 0, cfg, r, line);
    }
  }
}
