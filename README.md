# vim-codesearch rendering, modelled in Dafny

This project models `render/render.py` of vim-codesearch. That module turns
Chromium Code Search responses into the text of a Vim buffer:
- plain code search results;
- cross-reference results;
- call graphs.

While it writes, a `LocationMapper` records where each rendered line
leads back to. Vim later asks the mapper three kinds of question:
- which file, line and column a click on the buffer opens;
- which call-graph node a line belongs to;
- where the next or previous file starts.

Rendered text carries concealable markup. A block of type `X` is written as
`^X{` … `}X_`, and Vim's syntax rules hide the tags. When the mapper turns
a click back into a source column, it subtracts the tags it finds between
the anchor of the line's entry and the click.

The model is split into these modules:

- `Markup`: the tag formats, `DisableConcealableMarkup` and
  `CountBlockMarkupOverhead`. The global tag formats become a `Config` value
  that the renderers take as a parameter.
- `Document`: the mapper's state as a value `Doc`:
  - the rendered lines;
  - the jump map, from 0-based line to (file, 0-based line, anchor column);
  - the signature map.

  It also holds the mapper's primitive operations and queries as functions.
- `Mapper`: the class `LocationMapper`. Its fields are the lines and the two
  maps, and its methods update them in place. Each method is specified by the
  `Document` function of the same name, applied to the state before the call.
- `Annotated`: `GetBlockTypeFromFormatType`, `RenderAnnotatedText` (the
  range normalisation, the insertion list, its sort, the splice and the
  numbered lines) and `RenderSnippet`.
- `SearchRender`: `RenderSearchResult` and `RenderSearchResponse`.
- `XrefRender`: `RenderXrefResults` and `RenderXrefSearchResponse`, with the 13
  categories and their order.
- `Symbols`: `AbbreviateCppSymbol`.
- `CallGraph`: `RenderNode`.
- `Compound`: `RenderCompoundResponse`.
- `Strings` and `Sorting`: helpers standing in for Python's `split`,
  `format`, slicing and `list.sort`. The sort is a stable insertion sort
  under a key and a strict total order.

Each renderer is a method on a `LocationMapper` whose postcondition gives the
new state as a pure function of the old one, such as `AnnotatedTextDoc` or
`XrefResponseDoc`. The lemmas then state what the rendered buffer shows and
where a click on it leads.

Where the code and the behaviour described for the tool differ, the model
follows the code:
- `AbbreviateCppSymbol` keeps the `<` and `>` of an elided list, giving
  `Foo<...>`.
- `NextFileLocation` and `PreviousFileLocation` look up the jump map with the
  1-based line they are given, as if it were 0-based.
- A failed cross-reference response writes the status message and the status
  code on the same line.
- The overhead scans stay active when markup is disabled (see Findings).

## Model

| member | source | states |
|---|---|---|
| Markup.DisableConcealableMarkup | render/render.py:481-486 | the configuration it returns makes every start and end tag empty |
| Markup.TagsWellFormed | render/render.py:22-33 | the start tag `^X{` and the end tag `}X_` of a valid block type are each one complete match of the overhead patterns, and hold no newline |
| Markup.MatchAt | render/render.py:36-37 | the length it returns is a match of `open [^close]+ close` at the start of the text, and it is the only such match |
| Markup.ScanMatches | render/render.py:56-57 | the matches that `findall` collects for one pattern never add up to more than the text |
| Markup.CountDocClosed | render/render.py:44-49 | the docstring's first example: `^S{foo}S_` has an overhead of 6 |
| Markup.CountDocUnclosed | render/render.py:51-54 | the docstring's second example: `^S{foo}S` has an overhead of 3 |
| Markup.CountSkip | render/render.py:40-57 | characters that are not markup delimiters add nothing to the overhead |
| Markup.CountTag | render/render.py:40-57 | a complete tag in front of a text adds exactly its own length to the overhead |
| Markup.BlockOverhead | render/render.py:40-57 | a tagged block with a plain body has exactly its two tags as overhead, under the scans as written and under the corrected scan |
| Markup.UnclosedEndTag | render/render.py:51-57 | an incomplete end tag such as `}S` is not counted |
| Markup.OverheadCanExceedLength | render/render.py:56-57 | the two independent scans can count more characters than the text has: 8 for the 5 characters of `^}a_{` |
| Markup.DisabledLineOverhead | render/render.py:56-57 | the plain code `a ^ b {` holds no tag, yet its overhead as written is 5 |
| Markup.PiecesOverhead | render/render.py:40-57 | on a line made of source text and well-formed tags, both overhead counts equal the total length of the tags |
| Markup.MarkupOverhead | render/render.py:40-57 | the corrected single-scan overhead never exceeds the length of the text |
| Document.Write | render/render.py:95-99 | writing changes only the lines, never a jump or signature entry |
| Document.WriteAppends | render/render.py:95-99 | writing `s` appends exactly `s` to the rendered text, adds one line per newline in `s`, and only extends the buffer |
| Document.WriteOnLine | render/render.py:95-99 | text without a newline is appended to the current line and nothing else changes |
| Document.WriteConcat | render/render.py:95-99 | two writes in a row are one write of both texts |
| Document.WriteNothing | render/render.py:95-99 | writing the empty text changes nothing |
| Document.Newline | render/render.py:101-102 | a new empty line is appended and the maps are unchanged |
| Document.NewlineAppends | render/render.py:101-102 | the rendered text gains exactly one newline and the buffer is only extended |
| Document.SetTargetForPos | render/render.py:87-90 | the current line's entry becomes (file, line − 1, current column) and the lines and signatures are unchanged |
| Document.SetTargetOthers | render/render.py:87-90 | no other line's jump entry is added, removed or changed |
| Document.SetSignatureForLine | render/render.py:83-85 | the current line's signature becomes `sig` and the lines and jumps are unchanged |
| Document.SetSignatureOthers | render/render.py:83-85 | no other line's signature entry is added, removed or changed |
| Document.FloorKey | render/render.py:112-116 | the key it returns is the greatest key at or below the line, and there is none exactly when every key is above it |
| Document.AsWrittenQuery | render/render.py:107-126 | `JumpTargetAt` as written, case by case. A non-positive line or column is an assertion failure. There is no target exactly when no entry is at or above the line. A click at or before the anchor gives column 1. A click after it gives distance − overhead + 1, or an assertion failure exactly when the overhead exceeds the distance. The result equals the corrected query whenever the two overhead counts agree |
| Document.CorrectedQuery | render/render.py:107-126 | the corrected query uses the entry of the greatest mapped line at or above the click, maps to that entry's 1-based line, and gives a column between 1 and the distance from the anchor |
| Document.JumpTargetAtUnder | render/render.py:107-126 | with concealable markup on, the intended query is the corrected query |
| Document.JumpAtEntry | render/render.py:111-126 | on a line with its own entry, both queries use that entry; each column is the distance past the anchor less its own overhead count, plus 1 |
| Document.CorrectedJumpAtEntry | render/render.py:111-126 | on a line with its own entry, the corrected column is the distance past the anchor less the single-scan overhead, plus 1 |
| Document.AsWrittenJumpAtEntry | render/render.py:111-126 | on a line with its own entry, the column as written is the distance past the anchor less both scans, plus 1, or an assertion failure when that is negative |
| Document.JumpAcrossPieces | render/render.py:117-126 | round trip: a click just past a clean run of source text and tags after the anchor maps back to the source column just past its source characters, under either query |
| Document.ClickOverGap | render/render.py:117-126 | the corrected column of a click is the length of the text clicked over, less its markup, plus 1 |
| Document.AsWrittenClickOverGap | render/render.py:117-126 | as written, both scans of the text clicked over are subtracted, and the query fails when they exceed its length |
| Document.ClickAtLineEnd | render/render.py:117-126 | as written, a click just past the end of a line subtracts both scans of the text after the anchor, or fails |
| Document.CorrectedClickAtLineEnd | render/render.py:117-126 | the corrected query for the same click subtracts the single-scan overhead |
| Document.DisabledClickAtLineEnd | render/render.py:117-126 | with markup off, the same click maps to the whole length of the text after the anchor |
| Document.FirstLineClick | render/render.py:107-126 | the three queries for a click after the last character of a first line anchored at column 0 |
| Document.DisabledClickExact | render/render.py:117-126 | with markup off, text written after the anchor maps back column for column |
| Document.AsWrittenAssertionFires | render/render.py:119-123 | on the rendered line `^}a_{`, a click after its last character fails the assertion as written, while the corrected query gives column 1 |
| Document.DisabledClickAsWritten | render/render.py:117-126 | with markup off, a click after `a ^ b {` maps to column 3 as written instead of column 8 |
| Document.SignatureAt | render/render.py:159-168 | the signature of the greatest marked line at or above the 1-based line, and none exactly when every marked line is below it |
| Document.LastOther | render/render.py:131-137 | the greatest key in `[1, hi]` whose file is set and is not the current one, and none exactly when there is no such key |
| Document.RunStart | render/render.py:139-146 | the first key of the run of keys with the same file that ends at `j` |
| Document.RunStartUnique | render/render.py:139-146 | a run's start is determined by its two defining properties |
| Document.PreviousFile | render/render.py:128-147 | the result is at least 1 and, for a line of at least 2, at most line − 1. Unless it is 1, the key before it names another file and starts that file's run |
| Mapper.LocationMapper.constructor | render/render.py:78-81 | a new mapper has one empty line and no entries |
| Mapper.LocationMapper.SetSignatureForLine | render/render.py:83-85 | the new state is `Document.SetSignatureForLine` of the old one |
| Mapper.LocationMapper.SetTargetForPos | render/render.py:87-90 | the new state is `Document.SetTargetForPos` of the old one |
| Mapper.LocationMapper.Write | render/render.py:95-99 | the new state is `Document.Write` of the old one, so the text grows by exactly `s` |
| Mapper.LocationMapper.Newline | render/render.py:101-102 | the new state is `Document.Newline` of the old one |
| Mapper.LocationMapper.JumpTargetAt | render/render.py:107-126 | the query as written, with its assertions as `Failure`. `Document.AsWrittenQuery` states its value |
| Mapper.LocationMapper.SignatureAt | render/render.py:159-168 | a failure for a non-positive line, otherwise `Document.SignatureAt` |
| Mapper.LocationMapper.NextFileLocation | render/render.py:149-157 | `line` itself exactly when no key from `line` to the line count names another file. Otherwise it is one past the first such key |
| Mapper.LocationMapper.PreviousFileLocation | render/render.py:128-147 | the two loops compute `Document.PreviousFile` |
| Strings.Split | render/render.py:97 | `split` always gives at least one piece |
| Strings.SplitPieces | render/render.py:97 | no piece of a split holds the separator |
| Strings.JoinSplit | render/render.py:97 | joining the pieces of a split gives back the text |
| Strings.SplitJoin | render/render.py:97 | splitting a join of separator-free pieces gives back the pieces |
| Strings.SplitCount | render/render.py:193 | a text has one more line than it has newlines |
| Strings.SplitConcat | render/render.py:97-99 | the lines of `a + b`: the last line of `a` joins the first line of `b` |
| Strings.Spaces | render/render.py:225 | `' ' * n` is `n` spaces, or nothing for a negative `n` |
| Strings.Slice | render/render.py:221 | Python's `s[lo:hi]` for non-negative bounds: empty when `hi <= lo` or when `lo` is at or past the end, otherwise the text between the bounds, with `hi` clamped to the end |
| Strings.NatToStringValue | render/render.py:196 | `str(n)` reads back as `n` under the independent digit reader `DigitsValue`, and has no leading zero unless `n` is 0 |
| Strings.IntToStringValue | render/render.py:250 | `str(i)` reads back as `i`: a non-negative number is its digits, a negative one is a minus sign followed by the digits of its magnitude |
| Strings.PadLeft | render/render.py:226 | `'{:{w}d}'` ends with the number and is padded on the left with spaces up to width `w` |
| Strings.StrLessTotal | render/render.py:297 | comparison of two different file names orders them one way or the other |
| Strings.StrLessTransitive | render/render.py:297 | comparison of file names is transitive |
| Strings.ReplaceNoMatch | render/render.py:384 | `replace` leaves a text without the pattern as it is |
| Sorting.Sort | render/render.py:212-213 | the sort keeps length and returns a permutation of its input |
| Sorting.SortSorted | render/render.py:212-213 | under a strict total order, the result is sorted by the key |
| Sorting.SortStable | render/render.py:212-213 | elements with equal keys keep their relative order, as Python's sort does |
| Annotated.BlockTypeOf | render/render.py:171-185 | a format type has a tag letter exactly when it is one of the twelve in the table, and that letter is a valid block type |
| Annotated.NormaliseDropsNewline | render/render.py:204-206 | a range ending at column 1 of a later line is moved back over exactly one character, the newline that ends the line before |
| Annotated.RangeInsertions | render/render.py:201-210 | each insertion of a range lies within the text and carries a valid tag |
| Annotated.Insertions | render/render.py:200-210 | every insertion of every range lies within the text and carries a valid tag |
| Annotated.NormaliseAll | render/render.py:200-206 | the ranges after rendering keep their number and their format types |
| Annotated.SortInsertionsCorrect | render/render.py:212-213 | the splice order is descending by line, then column; it is a permutation and keeps list order among equal positions |
| Annotated.SpliceAt | render/render.py:221 | splicing a tag lengthens the line by exactly the tag |
| Annotated.SpliceAll | render/render.py:215-221 | splicing keeps the number of lines |
| Annotated.SpliceAllLengths | render/render.py:215-221 | every line grows by exactly the total length of the tags spliced into it |
| Annotated.SpliceAllLine | render/render.py:215-221 | splicing all lines at once is splicing each line with its own insertions |
| Annotated.GutterLength | render/render.py:196-226 | the indent and the number column take the indent, the width of the last line number, and one space |
| Annotated.EmitLinesText | render/render.py:223-228 | every emitted line is its gutter followed by its text, and the earlier lines are kept |
| Annotated.EmitLinesJumps | render/render.py:223-228 | every emitted line gets the entry for its own line number, anchored after its gutter; earlier entries are kept and no other is added |
| Annotated.CollectInsertions | render/render.py:200-210 | the first loop builds exactly the insertion list and the normalised ranges |
| Annotated.SpliceInto | render/render.py:215-221 | one iteration of the splice loop changes only the insertion's line |
| Annotated.EmitNumberedLine | render/render.py:224-228 | one iteration of the output loop emits one numbered line with its entry |
| Annotated.EmitAnnotatedLines | render/render.py:223-228 | the output loop emits every spliced line behind its gutter |
| Annotated.RenderAnnotatedText | render/render.py:188-228 | it returns the ranges with their ends normalised, and the new state is `AnnotatedTextDoc` of the old one |
| Annotated.AnnotatedTextLines | render/render.py:188-228 | rendering appends exactly one line per text line and keeps the lines there were. Each new line is as long as its gutter, its text and its spliced tags together |
| Annotated.AnnotatedTextRoundTrip | render/render.py:188-228 | round trip: every column of a line without markup delimiters is where some click on its rendered line leads back to, under the corrected query and as written |
| Annotated.ClickInPieces | render/render.py:223-228 | on a line of gutter, source text and tags, some click leads to each source column |
| Annotated.ClickOnLine | render/render.py:223-228 | on the rendered line of a source line, some click leads to each of its columns |
| Annotated.RenderSnippet | render/render.py:231-244 | the new state is `SnippetDoc` of the old one: a separator for every snippet but the first, then the annotated text from the snippet's first line, or from the fallback line when it has none |
| Annotated.SnippetSeparator | render/render.py:238-242 | a click anywhere on a `[...]` separator line leads to column 1 of the snippet's first line |
| Annotated.SnippetKeepsSeparator | render/render.py:238-244 | the separator line and its entry survive the rendering of the snippet's text |
| Annotated.KeptSeparatorClick | render/render.py:238-242 | a click on a kept line whose entry is anchored at its end leads to column 1 of the entry's line |
| Annotated.SnippetKeeps | render/render.py:231-244 | rendering a snippet keeps every line and every entry there was |
| SearchRender.RenderSearchResult | render/render.py:247-254 | the new state is `SearchResultDoc` of the old one: the numbered heading with its entry at line 1, each snippet in a `>` block, and a new line |
| SearchRender.RenderResults | render/render.py:267-269 | every result, numbered from the offset and followed by a blank line |
| SearchRender.RenderSearchResponse | render/render.py:257-289 | the new state is `SearchResponseDoc` of the old one |
| SearchRender.ResponseListsResult | render/render.py:247-269 | every result is listed on a line that begins with its number counted from the offset and its file name, and opens that file |
| SearchRender.ResponseResultClick | render/render.py:249-250 | a click anywhere on a result's line opens its file at line 1 |
| SearchRender.ResultsInOrder | render/render.py:267-269 | results appear in response order, at least two lines apart |
| SearchRender.ResponseHeading | render/render.py:260-265 | a response with results opens with the query in a `q` block, and its first result is two lines further down |
| SearchRender.TruncationFooter | render/render.py:271-276 | the truncation notice is written exactly when the server hit its limit |
| SearchRender.ResponseFooter | render/render.py:257-277 | a response with results ends with the truncation notice exactly when the server hit its limit |
| SearchRender.StatusLines | render/render.py:284-288 | the status message line appears only when there is a message, then the status code line |
| SearchRender.NoResultsLines | render/render.py:278-288 | a response without results is exactly the query line, a blank line, the status message when there is one, and the status code; it adds no entry |
| XrefRender.BinOf | render/render.py:341-365 | every match goes to one of the 13 bins, and to `References` exactly when its kind has no bin of its own |
| XrefRender.BinOrdersAscending | render/render.py:341-368 | the bins' orders ascend with their index, so sorting by order keeps this list; `References` has order 100 |
| XrefRender.CollectBins | render/render.py:359-365 | the loop puts every match into its bin in response order, which is `Bins` |
| XrefRender.BinsPartition | render/render.py:359-365 | every match lands in exactly one bin, so the bins hold all of them |
| XrefRender.KeyBeforeIsStrictTotalOrder | render/render.py:294-297 | the comparison on (file name, line number) is a strict total order |
| XrefRender.SortEntriesCorrect | render/render.py:294-299 | a sorted bin is ordered by file name and then line, is a permutation of the bin, and keeps bin order among equal keys |
| XrefRender.OneHeaderPerFile | render/render.py:301-307 | in a sorted bin only the first match of a file starts a header, so each file gets one header |
| XrefRender.RenderXrefResults | render/render.py:292-318 | the new state is `XrefResultsDoc` of the sorted bin |
| XrefRender.RenderBins | render/render.py:370-376 | the non-empty bins, in ascending order |
| XrefRender.RenderXrefSearchResponse | render/render.py:321-376 | the new state is `XrefResponseDoc` of the old one |
| XrefRender.FailureOnly | render/render.py:323-329 | a failed response appends only its failure text and adds no entry |
| XrefRender.BinShowsEntry | render/render.py:301-318 | every entry of a bin has its row, with its file header above it when it starts the file, within the lines the bin adds |
| XrefRender.HeaderClick | render/render.py:308-312 | a click on a file header opens the file at line 1, at column 1 up to the file name |
| XrefRender.MatchClick | render/render.py:313-318 | a click just after the first `c` characters of a match's text opens its file at the match's line and column `c + 1`, under either query |
| XrefRender.XrefShowsCategory | render/render.py:370-376 | every non-empty bin's category name is on its own line, at least four lines above the next bin's |
| XrefRender.XrefShowsMatch | render/render.py:359-376 | every match of every bin has its row in the response, between its bin's category line and the next bin's |
| XrefRender.CategoriesInOrder | render/render.py:367-376 | categories appear in ascending bin order |
| XrefRender.MatchInItsBin | render/render.py:359-365 | every match of the response is in the bin of its kind and in no other; a match of an unlisted kind is under `References` |
| Symbols.AbbreviateCppSymbol | render/render.py:383-398 | the loop computes `Abbreviated`, the replace followed by the depth-counting fold |
| Symbols.TemplateCollapses | render/render.py:387-397 | a top-level template argument list collapses to `<...>` |
| Symbols.NestedTemplateCollapses | render/render.py:387-397 | a two-level argument list `a<p<q>>b` is shown as `a<...>b` |
| Symbols.NoBracketsUnchanged | render/render.py:383-398 | a name without angle brackets is shown unchanged |
| Symbols.AnonymousNamespaceExample | render/render.py:384 | `<anonymous-namespace>::X` is shown as `{}::X` |
| Symbols.TemplateExample | render/render.py:383-398 | `ns::Foo<int, Bar<int>>::Do` is shown as `ns::Foo<...>::Do` |
| Symbols.AbbreviatedIdempotent | render/render.py:383-398 | abbreviating an abbreviated name changes nothing |
| Symbols.AbbreviatedAddsNothing | render/render.py:383-398 | abbreviating adds no character except the braces of `{}` and the dots of `...` |
| CallGraph.RenderNode | render/render.py:401-454 | the new state is `NodeDoc` of the old one |
| CallGraph.NodeHeader | render/render.py:403-422 | a node's header goes onto the current line after its `N` tag, and that line is recorded under the node's signature |
| CallGraph.NodeSymbolJump | render/render.py:425-434 | the header of a node with a symbol jumps to its scope start, else its call site, else line 1, anchored where the symbol begins |
| CallGraph.NodeOwnLines | render/render.py:413-451 | every line of a node's own part, meaning the header, the snippet and the padding line, maps back to the node's signature |
| CallGraph.NodeExtends | render/render.py:401-454 | a node's block only extends the buffer, changing nothing above its first line |
| CallGraph.OwnLines | render/render.py:413-451 | a node's own part adds its line count, puts its header on the current line, and ends with an empty line |
| Compound.CompoundDoc | render/render.py:457-478 | a successful render yields a valid mapper state |
| Compound.RenderCompoundResponse | render/render.py:457-478 | it returns a fresh mapper in the state `CompoundDoc` gives, or the same error |
| Compound.CompoundSucceeds | render/render.py:460-473 | rendering succeeds exactly when the first kind present holds exactly one response |
| Compound.CompoundUnknown | render/render.py:475-476 | the response type is unknown exactly when all three lists are empty |
| Compound.CompoundPrecedence | render/render.py:460-473 | once search results are present, the other kinds do not change the outcome |
| Compound.CallGraphRoot | render/render.py:470-473 | a call graph starts on an empty buffer: the root's header is the first line, and the root's own lines map to its signature |

## Findings

| source | as written | input that shows it | evidently intended | confidence | as-written member | corrected member |
|---|---|---|---|---|---|---|
| render/render.py:119-123 | the overhead is the sum of two independent scans. One scan for `\^[^{]+{` and one for `}[^_]+_` can both claim the same characters, so the overhead can exceed the text clicked over and `assert target_column >= 0` fails | rendered line `^}a_{` with its entry anchored at column 0, clicked at line 1, column 6: the overhead as written is 8 for 5 characters | each character counts once towards the markup overhead, so the target column is never negative and a click past a run of text and tags maps back to the source column | not executed | Document.AsWrittenAssertionFires | Document.JumpAcrossPieces |
| render/render.py:56-57 | `DisableConcealableMarkup` empties the tag formats, but the overhead scans still look for `^…{` and `}…_` in plain code | rendered line `a ^ b {` with its entry anchored at column 0 and markup disabled, clicked at line 1, column 8: the query gives column 3 | with markup disabled no tag is written, so nothing should be subtracted and the click should map to column 8 | not executed | Document.DisabledClickAsWritten | Document.DisabledClickExact |

The corrected query, `Document.JumpTargetAt`, scans once for either pattern
(`Markup.MarkupOverhead`). `Document.JumpTargetAtUnder` applies it under a
markup setting. The mapper's own `JumpTargetAt` method still computes the
query as written, so the model keeps the repository's behaviour.
`Document.AsWrittenQuery` states when the two agree: whenever the two
overhead counts are equal, which holds on every line of clean text and tags
(`Markup.PiecesOverhead`).

## Left out

- Mapper.LocationMapper.SetTargetForPos: `line > 0` is a precondition, in place of the assertion at render/render.py:88. The same holds for `Document.SetTargetForPos`, and the failing assertion is not modelled.
- Mapper.LocationMapper.JumpTargetAt: the assertions `line > 0` and `column > 0` (render/render.py:109-110) are modelled as `Failure` results, not as exceptions. The corrected `Document.JumpTargetAt` requires positive arguments instead.
- Mapper.LocationMapper.SignatureAt: the assertion `line > 0` (render/render.py:160) is modelled as a `Failure` result. `Document.SignatureAt` requires a positive line instead.
- Annotated.RenderAnnotatedText: requires `RangesFit`, meaning every tagged range's lines and columns are positive and inside the text. That excludes three failures:
  - the IndexError at render/render.py:206 when a range ends at column 1 of a line more than one past the last line of the text, so that `end_line - 1` indexes past the list;
  - the assertions at render/render.py:216-217;
  - the IndexError at render/render.py:220.
- Annotated.RenderSnippet: requires `SnippetFirstLine >= 1`. A zero or negative first line would fail the assertion in `SetTargetForPos`. The same requirement reaches `SearchRender` through `ResponseRenderable` and `CallGraph` through `Renderable`.
- CallGraph.RenderNode: requires `Renderable`, meaning the line a symbol jumps to is positive and every snippet's ranges fit. Without it the assertions of `SetTargetForPos` and `RenderAnnotatedText` would fail.
- XrefRender.RenderXrefResults: requires `LinesPositive`, meaning every match has a positive line number. Otherwise `SetTargetForPos` fails its assertion (render/render.py:315). `RenderXrefSearchResponse` requires the same of every match, as `ResponseLinesPositive`.
- Compound.RenderCompoundResponse: requires `CompoundRenderable`, the preconditions above for whichever response is rendered. A length other than 1 is modelled as the `AssertionError` result.
- Annotated.RenderAnnotatedText: the source changes the ends of the caller's `annotated_text.range` entries in place (render/render.py:204-206). The model returns the normalised ranges instead and never changes its argument, so every render starts from the original ranges. In the source the change persists in the caller's objects: the call graph view renders the same node again after an expand or a fold, and a range whose new end is column 1 of an empty line still after its start line is then moved back a second time (text `a`, ``, `b` with range (1,1)-(3,1) first ends at (2,1), then at (1,2)). The model does not capture this second normalisation.
- SearchRender.RenderSearchResponse: optional protocol fields are modelled with their default values. A missing status message is "" and a missing count or line number is 0, so a field that is absent is not distinguished from one set to its default (render/render.py:257-289).
- Strings.StrLess: Python 2 byte strings are modelled as sequences of characters. File names compare by code point, which agrees with byte order only for ASCII names.
- Markup.DisableConcealableMarkup: the source changes the module's global tag formats. The model passes a `Config` value to every renderer instead, so which setting a renderer uses is explicit.
- Sorting.Sort: Python's `list.sort` with a comparison function is modelled by a stable insertion sort. Only its result, the stable ordered permutation, is modelled, not its algorithm.
- XrefRender.CollectBins: the bins come from a dictionary keyed by kind, and its values are sorted by order. The model keeps the 13 bins in a sequence already in that order, which `BinOrdersAscending` shows is the sorted one.
- Annotated.BlockTypeOf: the format types of the code search protocol are an enumeration here. Any type outside the table is `OtherFormat`.
- The `isinstance` assertions (render/render.py:27, 32, 96, 258, 461, 466, 471) are not modelled, because Dafny's types make them hold.
- `TaggedBlock` (render/render.py:61-73) is not a separate member: each renderer writes the start tag before the block and the end tag after it.
- The `' * '` expander of `RenderNode` (render/render.py:417) cannot be reached, because it is chosen only when the children list is both non-empty and of length 0. The model has no such case.
- The code search client, the protocol messages' decoding, and Vim itself are not part of this model. Neither are `vimsupport.py` and the tests.
