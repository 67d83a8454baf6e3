/**
 * Rendering of a cross-reference response.  A failed response (non-zero
 * status) is a failure message and the status.  Otherwise every match of
 * every file is put into one of thirteen bins by its kind (the twelve kinds
 * with bins of their own, then `References` for everything else), and each
 * non-empty bin is rendered in ascending order of the bins: its name in a
 * `Cat` block, then its matches sorted by file name and line number, with a
 * header line per file that jumps to line 1 of the file and one row per
 * match that jumps to the match's line.
 */
module XrefRender {
  import opened Wrappers
  import opened Strings
  import opened Sorting
  import opened Markup
  import opened Document
  import opened Mapper
  import Annotated
  import SearchRender

  /** The kinds of reference with a bin of their own; any other type id is `Unlisted`. */
  datatype XrefKind =
    | Definition | Declaration | CalledBy | Instantiation | OverriddenBy | Overrides
    | ExtendedBy | ExtendsKind | Generates | GeneratedBy | Annotates | AnnotatedBy
    | Unlisted(typeId: int)

  datatype XrefMatch = XrefMatch(lineNumber: int, lineText: string, kind: XrefKind)

  /** The matches found in one file. */
  datatype XrefFileResult = XrefFileResult(file: string, matches: seq<XrefMatch>)

  datatype XrefSearchResponse = XrefSearchResponse(status: int, statusMessage: string, searchResults: seq<XrefFileResult>)

  /** A match together with the name of its file, as the bins hold them. */
  datatype Entry = Entry(file: string, m: XrefMatch)

  const BinCount: nat := 13

  /** The index of the catch-all bin. */
  const References: nat := 12

  const BinNames: seq<string> :=
    ["Definition", "Declaration", "Called by", "Instantiations", "Overridden by", "Overrides",
     "Extended by", "Extends", "Generates", "Generated by", "Annotates", "Annotated by", "References"]

  const BinOrders: seq<int> := [1, 2, 3, 4, 5, 6, 7, 8, 9, 10, 11, 12, 100]

  /** The bin a match of kind `k` goes to: its own, or `References` when it has none. */
  function BinOf(k: XrefKind): (b: nat)
    ensures b < BinCount
    ensures b == References <==> k.Unlisted?
  {
    match k
    case Definition => 0
    case Declaration => 1
    case CalledBy => 2
    case Instantiation => 3
    case OverriddenBy => 4
    case Overrides => 5
    case ExtendedBy => 6
    case ExtendsKind => 7
    case Generates => 8
    case GeneratedBy => 9
    case Annotates => 10
    case AnnotatedBy => 11
    case Unlisted(_) => References
  }

  /** The bins are listed in ascending order, so sorting them by order keeps this list. */
  lemma {:induction false} BinOrdersAscending()
    ensures |BinNames| == |BinOrders| == BinCount
    ensures forall i, j :: 0 <= i < j < BinCount ==> BinOrders[i] < BinOrders[j]
    ensures BinNames[References] == "References" && BinOrders[References] == 100
  {
  }

  /** The matches of one file, each with the file's name. */
  function FileEntries(file: string, ms: seq<XrefMatch>): (es: seq<Entry>)
    ensures |es| == |ms| && forall i :: 0 <= i < |ms| ==> es[i] == Entry(file, ms[i])
  {
    seq(|ms|, i requires 0 <= i < |ms| => Entry(file, ms[i]))
  }

  /** Every match of the response with its file, in response order. */
  function Entries(rs: seq<XrefFileResult>): seq<Entry>
  {
    if rs == [] then []
    else Entries(rs[..|rs| - 1]) + FileEntries(rs[|rs| - 1].file, rs[|rs| - 1].matches)
  }

  /** The entries of bin `b`, in their order in `es`. */
  function BinEntries(es: seq<Entry>, b: nat): (r: seq<Entry>)
    ensures forall e :: e in r <==> e in es && BinOf(e.m.kind) == b
  {
    if es == [] then []
    else
      var e := es[|es| - 1];
      assert forall x :: x in es <==> x in es[..|es| - 1] || x == e by {
        assert es == es[..|es| - 1] + [e];
      }
      BinEntries(es[..|es| - 1], b) + (if BinOf(e.m.kind) == b then [e] else [])
  }

  lemma {:induction false} BinEntriesAppend(es: seq<Entry>, e: Entry, b: nat)
    ensures BinEntries(es + [e], b) == BinEntries(es, b) + (if BinOf(e.m.kind) == b then [e] else [])
  {
    assert (es + [e])[..|es|] == es;
  }

  lemma {:induction false} BinEntriesAppendLength(es: seq<Entry>, e: Entry, b: nat)
    ensures |BinEntries(es + [e], b)| == |BinEntries(es, b)| + (if BinOf(e.m.kind) == b then 1 else 0)
  {
    BinEntriesAppend(es, e, b);
  }

  lemma {:induction false} EntriesAppend(rs: seq<XrefFileResult>, r: nat)
    requires r < |rs|
    ensures Entries(rs[..r + 1]) == Entries(rs[..r]) + FileEntries(rs[r].file, rs[r].matches)
  {
    assert rs[..r + 1][..r] == rs[..r];
  }

  /** The bins of a response, in bin order. */
  function Bins(resp: XrefSearchResponse): (bins: seq<seq<Entry>>)
    ensures |bins| == BinCount
  {
    seq(BinCount, b requires 0 <= b < BinCount => BinEntries(Entries(resp.searchResults), b))
  }

  /** `bins` holds the bins of the entries `es`. */
  ghost predicate BinsOf(bins: seq<seq<Entry>>, es: seq<Entry>)
  {
    |bins| == BinCount && forall b :: 0 <= b < BinCount ==> bins[b] == BinEntries(es, b)
  }

  /** Appending an entry to its bin keeps the bins of the entries seen so far. */
  lemma {:induction false} BinsAppend(bins: seq<seq<Entry>>, es: seq<Entry>, e: Entry)
    requires BinsOf(bins, es)
    ensures BinsOf(bins[BinOf(e.m.kind) := bins[BinOf(e.m.kind)] + [e]], es + [e])
  {
    forall b | 0 <= b < BinCount {
      BinEntriesAppend(es, e, b);
    }
  }

  lemma {:induction false} FileEntriesAppend(before: seq<Entry>, file: string, ms: seq<XrefMatch>, j: nat)
    requires j < |ms|
    ensures before + FileEntries(file, ms[..j + 1]) == (before + FileEntries(file, ms[..j])) + [Entry(file, ms[j])]
  {
  }

  /** Puts every match of the response into its bin, in response order. */
  method CollectBins(resp: XrefSearchResponse) returns (bins: seq<seq<Entry>>)
    ensures bins == Bins(resp)
  {
    bins := seq(BinCount, _ => []);
    for r := 0 to |resp.searchResults|
      invariant BinsOf(bins, Entries(resp.searchResults[..r]))
    {
      var result := resp.searchResults[r];
      ghost var before := Entries(resp.searchResults[..r]);
      assert before + FileEntries(result.file, result.matches[..0]) == before;
      for j := 0 to |result.matches|
        invariant BinsOf(bins, before + FileEntries(result.file, result.matches[..j]))
      {
        var m := result.matches[j];
        FileEntriesAppend(before, result.file, result.matches, j);
        BinsAppend(bins, before + FileEntries(result.file, result.matches[..j]), Entry(result.file, m));
        bins := bins[BinOf(m.kind) := bins[BinOf(m.kind)] + [Entry(result.file, m)]];
      }
      EntriesAppend(resp.searchResults, r);
      assert result.matches[..|result.matches|] == result.matches;
    }
    assert resp.searchResults[..|resp.searchResults|] == resp.searchResults;
  }

  /** The number of entries in bins `0` to `k - 1`. */
  function BinnedCount(es: seq<Entry>, k: nat): nat
  {
    if k == 0 then 0 else BinnedCount(es, k - 1) + |BinEntries(es, k - 1)|
  }

  lemma {:induction false} BinnedCountAppend(es: seq<Entry>, e: Entry, k: nat)
    ensures BinnedCount(es + [e], k) == BinnedCount(es, k) + (if BinOf(e.m.kind) < k then 1 else 0)
    decreases k
  {
    if k > 0 {
      BinnedCountAppend(es, e, k - 1);
      BinnedCountStep(es, e, k);
    }
  }

  lemma {:induction false} BinnedCountStep(es: seq<Entry>, e: Entry, k: nat)
    requires k > 0
    ensures BinnedCount(es + [e], k) - BinnedCount(es, k)
         == BinnedCount(es + [e], k - 1) - BinnedCount(es, k - 1) + (if BinOf(e.m.kind) == k - 1 then 1 else 0)
  {
    BinEntriesAppendLength(es, e, k - 1);
  }

  lemma {:induction false} BinnedCountEmpty(k: nat)
    ensures BinnedCount([], k) == 0
    decreases k
  {
    if k > 0 {
      BinnedCountEmpty(k - 1);
    }
  }

  /** The bins partition the entries: each lands in exactly one bin, so the bins hold them all. */
  lemma {:induction false} BinsPartition(es: seq<Entry>)
    ensures BinnedCount(es, BinCount) == |es|
    decreases |es|
  {
    if es == [] {
      BinnedCountEmpty(BinCount);
    } else {
      BinsPartition(es[..|es| - 1]);
      BinnedCountAppend(es[..|es| - 1], es[|es| - 1], BinCount);
      assert es[..|es| - 1] + [es[|es| - 1]] == es;
    }
  }

  // Sorting a bin: by file name, then by line number, keeping ties in bin order.

  function EntryKey(e: Entry): (string, int)
  {
    (e.file, e.m.lineNumber)
  }

  /** Python 2 `cmp` on the pair (file name, line number). */
  predicate KeyBefore(a: (string, int), b: (string, int))
  {
    StrLess(a.0, b.0) || (a.0 == b.0 && a.1 < b.1)
  }

  lemma {:induction false} KeyBeforeIsStrictTotalOrder()
    ensures StrictTotalOrder(KeyBefore)
  {
    forall a: (string, int) ensures !KeyBefore(a, a) {
      StrLessIrreflexive(a.0);
    }
    forall a: (string, int), b: (string, int), c: (string, int) | KeyBefore(a, b) && KeyBefore(b, c)
      ensures KeyBefore(a, c)
    {
      if StrLess(a.0, b.0) && StrLess(b.0, c.0) {
        StrLessTransitive(a.0, b.0, c.0);
      }
    }
    forall a: (string, int), b: (string, int) | a != b ensures KeyBefore(a, b) || KeyBefore(b, a) {
      if a.0 != b.0 {
        StrLessTotal(a.0, b.0);
      }
    }
  }

  /** `results.sort(cmp=XrefResultSorter)`. */
  function SortEntries(es: seq<Entry>): (r: seq<Entry>)
    ensures |r| == |es| && multiset(r) == multiset(es)
  {
    Sort(es, EntryKey, KeyBefore)
  }

  /** Sorting keeps the entries, so it keeps their line numbers positive. */
  lemma {:induction false} SortKeepsLinesPositive(es: seq<Entry>)
    requires LinesPositive(es)
    ensures LinesPositive(SortEntries(es))
  {
    var r := SortEntries(es);
    forall i | 0 <= i < |r| ensures r[i].m.lineNumber > 0 {
      assert r[i] in multiset(es);
    }
  }

  /** The sorted bin is ordered by file name and line, a permutation, and keeps bin order among equal keys. */
  lemma {:induction false} SortEntriesCorrect(es: seq<Entry>, k: (string, int))
    ensures SortedBy(SortEntries(es), EntryKey, KeyBefore)
    ensures multiset(SortEntries(es)) == multiset(es)
    ensures WithKey(SortEntries(es), EntryKey, k) == WithKey(es, EntryKey, k)
  {
    KeyBeforeIsStrictTotalOrder();
    SortSorted(es, EntryKey, KeyBefore);
    SortStable(es, EntryKey, KeyBefore, k);
  }

  /** Entry `i` is the first of its file: the first entry, or in another file than the one before. */
  predicate StartsFile(es: seq<Entry>, i: nat)
    requires i < |es|
  {
    i == 0 || es[i].file != es[i - 1].file
  }

  /**
   * In a sorted bin the entries of a file are consecutive, so only the
   * first of them starts the file: a file gets one header.
   */
  lemma {:induction false} OneHeaderPerFile(es: seq<Entry>, i: nat, j: nat)
    requires SortedBy(es, EntryKey, KeyBefore) && i < j < |es| && es[i].file == es[j].file
    ensures !StartsFile(es, j)
  {
    var f, g := es[i].file, es[j - 1].file;
    if g != f {
      assert !KeyBefore(EntryKey(es[j - 1]), EntryKey(es[i]));
      assert !KeyBefore(EntryKey(es[j]), EntryKey(es[j - 1]));
      StrLessTotal(f, g);
    }
  }

  /** Every file of a sorted bin has exactly one entry that starts it, and it is the file's first entry. */
  lemma {:induction false} FirstOfFileStarts(es: seq<Entry>, j: nat)
    requires SortedBy(es, EntryKey, KeyBefore) && j < |es|
    ensures StartsFile(es, j) <==> forall i :: 0 <= i < j ==> es[i].file != es[j].file
  {
    if StartsFile(es, j) {
      forall i | 0 <= i < j ensures es[i].file != es[j].file {
        if es[i].file == es[j].file {
          OneHeaderPerFile(es, i, j);
        }
      }
    }
  }

  // Rendering a bin.

  /** Every match has a positive line number, as `SetTargetForPos` demands. */
  predicate LinesPositive(es: seq<Entry>)
  {
    forall i :: 0 <= i < |es| ==> es[i].m.lineNumber > 0
  }

  /** Two spaces and the file name in an `F` block, jumping to line 1 of the file; then a new line. */
  function FileHeaderDoc(d: Doc, file: string, cfg: Config): (r: Doc)
    requires Valid(d)
    ensures Valid(r)
  {
    Newline(Write(Write(Write(SetTargetForPos(Write(d, Spaces(2)), file, 1), StartTag(cfg, "F")), file), EndTag(cfg, "F")))
  }

  /** The start of a match row: four spaces, the line number, a colon and two spaces. */
  function RowLead(line: int): string
  {
    Spaces(4) + IntToString(line) + ":  "
  }

  /** The row of a match, jumping to the match's line; then a new line. */
  function MatchRowDoc(d: Doc, e: Entry, cfg: Config): (r: Doc)
    requires Valid(d) && e.m.lineNumber > 0
    ensures Valid(r)
  {
    Newline(Write(Write(Write(SetTargetForPos(Write(d, RowLead(e.m.lineNumber)), e.file, e.m.lineNumber),
                              StartTag(cfg, ">")), e.m.lineText), EndTag(cfg, ">")))
  }

  /** Before entry `i`: the header of its file when it starts one, after a blank line unless it is the first. */
  function EntryHeadDoc(d: Doc, es: seq<Entry>, i: nat, cfg: Config): (r: Doc)
    requires Valid(d) && i < |es|
    ensures Valid(r)
  {
    if StartsFile(es, i) then FileHeaderDoc(if i > 0 then Newline(d) else d, es[i].file, cfg) else d
  }

  function EntryDoc(d: Doc, es: seq<Entry>, i: nat, cfg: Config): (r: Doc)
    requires Valid(d) && i < |es| && es[i].m.lineNumber > 0
    ensures Valid(r)
  {
    MatchRowDoc(EntryHeadDoc(d, es, i, cfg), es[i], cfg)
  }

  /** The first `n` entries of an already sorted bin. */
  function XrefResultsDoc(d: Doc, es: seq<Entry>, n: nat, cfg: Config): (r: Doc)
    requires Valid(d) && n <= |es| && LinesPositive(es)
    ensures Valid(r)
    decreases n
  {
    if n == 0 then d else EntryDoc(XrefResultsDoc(d, es, n - 1, cfg), es, n - 1, cfg)
  }

  lemma {:induction false} XrefResultsStep(d: Doc, es: seq<Entry>, n: nat, cfg: Config)
    requires Valid(d) && 0 < n <= |es| && LinesPositive(es)
    ensures XrefResultsDoc(d, es, n, cfg) == EntryDoc(XrefResultsDoc(d, es, n - 1, cfg), es, n - 1, cfg)
  {
  }

  method RenderFileHeader(mapper: LocationMapper, file: string, cfg: Config)
    requires mapper.Valid()
    modifies mapper
    ensures mapper.Valid()
    ensures mapper.State() == FileHeaderDoc(old(mapper.State()), file, cfg)
  {
    mapper.Write(Spaces(2));
    mapper.SetTargetForPos(file, 1);
    mapper.Write(StartTag(cfg, "F"));
    mapper.Write(file);
    mapper.Write(EndTag(cfg, "F"));
    mapper.Newline();
  }

  method RenderMatchRow(mapper: LocationMapper, e: Entry, cfg: Config)
    requires mapper.Valid() && e.m.lineNumber > 0
    modifies mapper
    ensures mapper.Valid()
    ensures mapper.State() == MatchRowDoc(old(mapper.State()), e, cfg)
  {
    mapper.Write(Spaces(4) + IntToString(e.m.lineNumber) + ":  ");
    mapper.SetTargetForPos(e.file, e.m.lineNumber);
    mapper.Write(StartTag(cfg, ">"));
    mapper.Write(e.m.lineText);
    mapper.Write(EndTag(cfg, ">"));
    mapper.Newline();
  }

  /** Entry `i`: its file's header first when the file changes, then its row. */
  method RenderEntry(mapper: LocationMapper, es: seq<Entry>, i: nat, lastFile: Option<string>, cfg: Config)
    returns (file: Option<string>)
    requires mapper.Valid() && i < |es| && es[i].m.lineNumber > 0
    requires lastFile == if i == 0 then None else Some(es[i - 1].file)
    modifies mapper
    ensures mapper.Valid()
    ensures file == Some(es[i].file)
    ensures mapper.State() == EntryDoc(old(mapper.State()), es, i, cfg)
  {
    var e := es[i];
    if lastFile != Some(e.file) {
      if lastFile.Some? {
        mapper.Newline();
      }
      RenderFileHeader(mapper, e.file, cfg);
    }
    RenderMatchRow(mapper, e, cfg);
    file := Some(e.file);
  }

  /**
   * Sorts the bin by file name and line number, then writes each file's
   * header before its first match and a row per match, with a blank line
   * between files.
   */
  method RenderXrefResults(mapper: LocationMapper, results: seq<Entry>, cfg: Config)
    requires mapper.Valid() && LinesPositive(results)
    modifies mapper
    ensures mapper.Valid() && LinesPositive(SortEntries(results))
    ensures mapper.State() == XrefResultsDoc(old(mapper.State()), SortEntries(results), |results|, cfg)
  {
    var sorted := SortEntries(results);
    SortKeepsLinesPositive(results);
    RenderSortedEntries(mapper, sorted, cfg);
  }

  /** The loop of `RenderXrefResults`, over entries already in order. */
  method RenderSortedEntries(mapper: LocationMapper, sorted: seq<Entry>, cfg: Config)
    requires mapper.Valid() && LinesPositive(sorted)
    modifies mapper
    ensures mapper.Valid()
    ensures mapper.State() == XrefResultsDoc(old(mapper.State()), sorted, |sorted|, cfg)
  {
    ghost var start := mapper.State();
    var lastFile: Option<string> := None;
    for i := 0 to |sorted|
      invariant mapper.Valid()
      invariant lastFile == if i == 0 then None else Some(sorted[i - 1].file)
      invariant mapper.State() == XrefResultsDoc(start, sorted, i, cfg)
    {
      lastFile := RenderNextEntry(mapper, sorted, i, lastFile, start, cfg);
    }
  }

  /** One turn of the loop: entry `i` is rendered after the `i` before it. */
  method RenderNextEntry(mapper: LocationMapper, es: seq<Entry>, i: nat, lastFile: Option<string>,
                         ghost start: Doc, cfg: Config)
    returns (file: Option<string>)
    requires mapper.Valid() && Valid(start) && i < |es| && LinesPositive(es)
    requires lastFile == if i == 0 then None else Some(es[i - 1].file)
    requires mapper.State() == XrefResultsDoc(start, es, i, cfg)
    modifies mapper
    ensures mapper.Valid()
    ensures file == Some(es[i].file)
    ensures mapper.State() == XrefResultsDoc(start, es, i + 1, cfg)
  {
    XrefResultsStep(start, es, i + 1, cfg);
    file := RenderEntry(mapper, es, i, lastFile, cfg);
  }

  // Rendering the response.

  /** Every match of the response has a positive line number. */
  predicate ResponseLinesPositive(resp: XrefSearchResponse)
  {
    LinesPositive(Entries(resp.searchResults))
  }

  lemma {:induction false} BinLinesPositive(es: seq<Entry>, b: nat)
    requires LinesPositive(es)
    ensures LinesPositive(BinEntries(es, b))
  {
    var r := BinEntries(es, b);
    forall i | 0 <= i < |r| ensures r[i].m.lineNumber > 0 {
      assert r[i] in r;
    }
  }

  /** The bin's name and a colon. */
  function CategoryName(b: nat): string
    requires b < BinCount
  {
    BinNames[b] + ":"
  }

  /** The bin's name in a `Cat` block; the block's text ends the line, so its end tag opens the next one. */
  function CategoryDoc(d: Doc, b: nat, cfg: Config): (r: Doc)
    requires Valid(d) && b < BinCount
    ensures Valid(r)
  {
    Write(Write(Write(d, StartTag(cfg, "Cat")), CategoryName(b) + "\n"), EndTag(cfg, "Cat"))
  }

  /** A non-empty bin: its category line, its sorted entries, and a blank line. */
  function BinDoc(d: Doc, bin: seq<Entry>, b: nat, cfg: Config): (r: Doc)
    requires Valid(d) && b < BinCount && LinesPositive(bin)
    ensures Valid(r)
  {
    SortKeepsLinesPositive(bin);
    Newline(XrefResultsDoc(CategoryDoc(d, b, cfg), SortEntries(bin), |SortEntries(bin)|, cfg))
  }

  predicate BinsLinesPositive(bins: seq<seq<Entry>>)
  {
    forall b :: 0 <= b < |bins| ==> LinesPositive(bins[b])
  }

  /** Bins `0` to `k - 1` in ascending order, skipping the empty ones. */
  function BinsDoc(d: Doc, bins: seq<seq<Entry>>, k: nat, cfg: Config): (r: Doc)
    requires Valid(d) && |bins| == BinCount && k <= BinCount && BinsLinesPositive(bins)
    ensures Valid(r)
    decreases k
  {
    if k == 0 then d
    else if bins[k - 1] == [] then BinsDoc(d, bins, k - 1, cfg)
    else BinDoc(BinsDoc(d, bins, k - 1, cfg), bins[k - 1], k - 1, cfg)
  }

  /** A failed response: the failure line, the status message if any, and the status code on the same line. */
  function FailureDoc(d: Doc, resp: XrefSearchResponse): (r: Doc)
    requires Valid(d)
    ensures Valid(r)
  {
    var head := Write(d, "No results for query\n");
    var withMessage := if resp.statusMessage != "" then Write(head, "Server status: " + resp.statusMessage) else head;
    Write(withMessage, SearchRender.StatusLine(resp.status))
  }

  lemma {:induction false} ResponseBinsLinesPositive(resp: XrefSearchResponse)
    requires ResponseLinesPositive(resp)
    ensures BinsLinesPositive(Bins(resp))
  {
    forall b | 0 <= b < BinCount {
      BinLinesPositive(Entries(resp.searchResults), b);
    }
  }

  /** `RenderXrefSearchResponse` on the mapper state. */
  function XrefResponseDoc(d: Doc, resp: XrefSearchResponse, cfg: Config): (r: Doc)
    requires Valid(d) && (resp.status == 0 ==> ResponseLinesPositive(resp))
    ensures Valid(r)
  {
    if resp.status != 0 then FailureDoc(d, resp)
    else
      ResponseBinsLinesPositive(resp);
      BinsDoc(d, Bins(resp), BinCount, cfg)
  }

  lemma {:induction false} BinsDocStep(d: Doc, bins: seq<seq<Entry>>, b: nat, cfg: Config)
    requires Valid(d) && |bins| == BinCount && b < BinCount && BinsLinesPositive(bins)
    ensures bins[b] == [] ==> BinsDoc(d, bins, b + 1, cfg) == BinsDoc(d, bins, b, cfg)
    ensures bins[b] != [] ==> BinsDoc(d, bins, b + 1, cfg) == BinDoc(BinsDoc(d, bins, b, cfg), bins[b], b, cfg)
  {
  }

  /** One non-empty bin: the category line, the bin's entries, and a blank line. */
  method RenderBin(mapper: LocationMapper, bin: seq<Entry>, b: nat, cfg: Config)
    requires mapper.Valid() && b < BinCount && LinesPositive(bin)
    modifies mapper
    ensures mapper.Valid()
    ensures mapper.State() == BinDoc(old(mapper.State()), bin, b, cfg)
  {
    mapper.Write(StartTag(cfg, "Cat"));
    mapper.Write(CategoryName(b) + "\n");
    mapper.Write(EndTag(cfg, "Cat"));
    RenderXrefResults(mapper, bin, cfg);
    mapper.Newline();
  }

  /** The failure path: the text of `FailureDoc`, written without a final newline. */
  method RenderFailure(mapper: LocationMapper, resp: XrefSearchResponse)
    requires mapper.Valid()
    modifies mapper
    ensures mapper.Valid()
    ensures mapper.State() == FailureDoc(old(mapper.State()), resp)
  {
    mapper.Write("No results for query\n");
    if resp.statusMessage != "" {
      mapper.Write("Server status: " + resp.statusMessage);
    }
    mapper.Write("Status code  : " + IntToString(resp.status));
  }

  /** The non-empty bins in ascending bin order. */
  method RenderBins(mapper: LocationMapper, bins: seq<seq<Entry>>, cfg: Config)
    requires mapper.Valid() && |bins| == BinCount && BinsLinesPositive(bins)
    modifies mapper
    ensures mapper.Valid()
    ensures mapper.State() == BinsDoc(old(mapper.State()), bins, BinCount, cfg)
  {
    ghost var start := mapper.State();
    for b := 0 to BinCount
      invariant mapper.Valid()
      invariant mapper.State() == BinsDoc(start, bins, b, cfg)
    {
      BinsDocStep(start, bins, b, cfg);
      if |bins[b]| == 0 {
        continue;
      }
      assert BinsDoc(start, bins, b + 1, cfg) == BinDoc(mapper.State(), bins[b], b, cfg);
      RenderBin(mapper, bins[b], b, cfg);
    }
  }

  method RenderXrefSearchResponse(mapper: LocationMapper, resp: XrefSearchResponse, cfg: Config)
    requires mapper.Valid() && (resp.status == 0 ==> ResponseLinesPositive(resp))
    modifies mapper
    ensures mapper.Valid()
    ensures mapper.State() == XrefResponseDoc(old(mapper.State()), resp, cfg)
  {
    if resp.status != 0 {
      RenderFailure(mapper, resp);
      return;
    }
    var bins := CollectBins(resp);
    ResponseBinsLinesPositive(resp);
    RenderBins(mapper, bins, cfg);
  }

  // Layout of a rendered bin.

  /** No file name or line text spans a line break. */
  predicate EntriesOneLine(es: seq<Entry>)
  {
    forall i :: 0 <= i < |es| ==> '\n' !in es[i].file && '\n' !in es[i].m.lineText
  }

  /** The whole row of a match: the lead, then the line's text in a `>` block. */
  function RowText(e: Entry, cfg: Config): string
  {
    RowLead(e.m.lineNumber) + StartTag(cfg, ">") + e.m.lineText + EndTag(cfg, ">")
  }

  /** The file name in an `F` block. */
  function HeaderText(file: string, cfg: Config): string
  {
    StartTag(cfg, "F") + file + EndTag(cfg, "F")
  }

  /**
   * Line `k` of `r` is the row of match `e`, and it jumps to the match's
   * line of its file, anchored just after the lead.
   */
  ghost predicate ShowsMatch(r: Doc, k: int, e: Entry, cfg: Config)
  {
    && e.m.lineNumber > 0 && 0 <= k < |r.lines| && r.lines[k] == RowText(e, cfg)
    && k in r.jumps && r.jumps[k] == Target(e.file, e.m.lineNumber - 1, |RowLead(e.m.lineNumber)|)
  }

  /**
   * Line `k` of `r` is the header of `file` written after `lead`, and it
   * jumps to line 1 of the file, anchored after the two spaces of indent.
   */
  ghost predicate HeadsFile(r: Doc, k: int, lead: string, file: string, cfg: Config)
  {
    && 0 <= k < |r.lines| && r.lines[k] == lead + Spaces(2) + HeaderText(file, cfg)
    && k in r.jumps && r.jumps[k] == Target(file, 0, |lead| + 2)
  }

  lemma {:induction false} ShowsMatchGrows(a: Doc, b: Doc, k: int, e: Entry, cfg: Config)
    requires ShowsMatch(a, k, e, cfg) && k < |a.lines| - 1 && Grows(a, b)
    ensures ShowsMatch(b, k, e, cfg)
  {
  }

  lemma {:induction false} HeadsFileGrows(a: Doc, b: Doc, k: int, lead: string, file: string, cfg: Config)
    requires HeadsFile(a, k, lead, file, cfg) && k < |a.lines| - 1 && Grows(a, b)
    ensures HeadsFile(b, k, lead, file, cfg)
  {
  }

  lemma {:induction false} RowLeadOneLine(line: int)
    ensures '\n' !in RowLead(line)
  {
    SearchRender.IntToStringOneLine(line);
  }

  lemma {:induction false} AppendFour(a: string, b: string, c: string, d: string)
    ensures a + b + c + d == a + (b + c + d)
  {
  }

  /** Three pieces without line breaks written one after another all go onto the current line. */
  lemma {:induction false} WritesOnLine(d: Doc, x: string, y: string, z: string)
    requires Valid(d) && '\n' !in x && '\n' !in y && '\n' !in z
    ensures Write(Write(Write(d, x), y), z).lines == d.lines[..|d.lines| - 1] + [d.lines[|d.lines| - 1] + (x + y + z)]
    ensures Write(Write(Write(d, x), y), z).jumps == d.jumps
    ensures Grows(d, Write(Write(Write(d, x), y), z))
  {
    var n := |d.lines|;
    WriteGrows(d, x);
    WriteGrows(Write(d, x), y);
    GrowsTransitive(d, Write(d, x), Write(Write(d, x), y));
    WriteGrows(Write(Write(d, x), y), z);
    GrowsTransitive(d, Write(Write(d, x), y), Write(Write(Write(d, x), y), z));
    WriteOnLine(d, x);
    WriteOnLine(Write(d, x), y);
    assert Write(d, x).lines[..n - 1] == d.lines[..n - 1];
    WriteOnLine(Write(Write(d, x), y), z);
    assert Write(Write(d, x), y).lines[..n - 1] == d.lines[..n - 1];
    AppendFour(d.lines[n - 1], x, y, z);
  }

  /** A row written on a fresh line fills that line and leaves a fresh one. */
  lemma {:induction false} RowAdded(h: Doc, e: Entry, cfg: Config)
    requires Fresh(h) && e.m.lineNumber > 0 && '\n' !in e.m.lineText
    ensures Grows(h, MatchRowDoc(h, e, cfg)) && Fresh(MatchRowDoc(h, e, cfg))
    ensures |MatchRowDoc(h, e, cfg).lines| == |h.lines| + 1
    ensures ShowsMatch(MatchRowDoc(h, e, cfg), Current(h), e, cfg)
  {
    var n := |h.lines|;
    var lead := RowLead(e.m.lineNumber);
    RowLeadOneLine(e.m.lineNumber);
    TagsWellFormed(cfg, ">");
    var w1 := Write(h, lead);
    WriteOnLine(h, lead);
    assert h.lines[n - 1] + lead == lead;
    var w2 := SetTargetForPos(w1, e.file, e.m.lineNumber);
    WritesOnLine(w2, StartTag(cfg, ">"), e.m.lineText, EndTag(cfg, ">"));
    AppendFour(lead, StartTag(cfg, ">"), e.m.lineText, EndTag(cfg, ">"));
    var w5 := Write(Write(Write(w2, StartTag(cfg, ">")), e.m.lineText), EndTag(cfg, ">"));
    WriteGrows(h, lead);
    SetTargetGrows(w1, e.file, e.m.lineNumber);
    GrowsTransitive(h, w1, w2);
    GrowsTransitive(h, w2, w5);
    NewlineGrows(w5);
    GrowsTransitive(h, w5, Newline(w5));
  }

  /** A file header written on a line without an entry ends that line and leaves a fresh one. */
  lemma {:induction false} HeaderAdded(h: Doc, file: string, cfg: Config)
    requires Valid(h) && Current(h) !in h.jumps && '\n' !in file
    ensures Grows(h, FileHeaderDoc(h, file, cfg)) && Fresh(FileHeaderDoc(h, file, cfg))
    ensures |FileHeaderDoc(h, file, cfg).lines| == |h.lines| + 1
    ensures HeadsFile(FileHeaderDoc(h, file, cfg), Current(h), h.lines[Current(h)], file, cfg)
  {
    var n := |h.lines|;
    TagsWellFormed(cfg, "F");
    var w1 := Write(h, Spaces(2));
    WriteOnLine(h, Spaces(2));
    var w2 := SetTargetForPos(w1, file, 1);
    WritesOnLine(w2, StartTag(cfg, "F"), file, EndTag(cfg, "F"));
    var w5 := Write(Write(Write(w2, StartTag(cfg, "F")), file), EndTag(cfg, "F"));
    WriteGrows(h, Spaces(2));
    SetTargetGrows(w1, file, 1);
    GrowsTransitive(h, w1, w2);
    GrowsTransitive(h, w2, w5);
    NewlineGrows(w5);
    GrowsTransitive(h, w5, Newline(w5));
  }

  /** The number of lines the header part of entry `i` adds: none, the header, or a blank line and the header. */
  function HeadLines(es: seq<Entry>, i: nat): nat
    requires i < |es|
  {
    if !StartsFile(es, i) then 0 else if i > 0 then 2 else 1
  }

  /** What precedes a file header on its line: the line being written for the first entry, else nothing. */
  function HeaderLead(a: Doc, i: nat): string
    requires |a.lines| >= 1
  {
    if i > 0 then "" else a.lines[|a.lines| - 1]
  }

  /** `h` is `a` with the header part of entry `i` added, and a fresh line follows. */
  ghost predicate HeadAdded(a: Doc, h: Doc, es: seq<Entry>, i: nat, cfg: Config)
    requires i < |es|
  {
    && Valid(a) && Fresh(h) && Grows(a, h)
    && |h.lines| == |a.lines| + HeadLines(es, i)
    && (StartsFile(es, i) ==> HeadsFile(h, |h.lines| - 2, HeaderLead(a, i), es[i].file, cfg))
  }

  /** `b` is the fresh `h` with one more line, the row of `e`. */
  ghost predicate RowShown(h: Doc, b: Doc, e: Entry, cfg: Config)
  {
    && Fresh(h) && Fresh(b) && Grows(h, b)
    && |b.lines| == |h.lines| + 1
    && ShowsMatch(b, |h.lines| - 1, e, cfg)
  }

  lemma {:induction false} RowShownByRow(h: Doc, e: Entry, cfg: Config)
    requires Fresh(h) && e.m.lineNumber > 0 && '\n' !in e.m.lineText
    ensures RowShown(h, MatchRowDoc(h, e, cfg), e, cfg)
  {
    RowAdded(h, e, cfg);
  }

  /** The header of the first file, written on the line `a` was writing. */
  lemma {:induction false} FirstHeadAdded(a: Doc, es: seq<Entry>, cfg: Config)
    requires Valid(a) && Current(a) !in a.jumps && 0 < |es| && '\n' !in es[0].file
    ensures HeadAdded(a, FileHeaderDoc(a, es[0].file, cfg), es, 0, cfg)
  {
    HeaderAdded(a, es[0].file, cfg);
  }

  /** A blank line, then the header of a later file. */
  lemma {:induction false} LaterHeadAdded(a: Doc, es: seq<Entry>, i: nat, cfg: Config)
    requires Fresh(a) && 0 < i < |es| && StartsFile(es, i) && '\n' !in es[i].file
    ensures HeadAdded(a, FileHeaderDoc(Newline(a), es[i].file, cfg), es, i, cfg)
  {
    NewlineGrows(a);
    HeaderAdded(Newline(a), es[i].file, cfg);
    GrowsTransitive(a, Newline(a), FileHeaderDoc(Newline(a), es[i].file, cfg));
  }

  /**
   * What comes before the row of entry `i`: nothing, or (when the entry
   * starts its file) the file's header, after a blank line unless it is the
   * first entry; either way a fresh line follows.
   */
  lemma {:induction false} EntryHeadAdded(a: Doc, es: seq<Entry>, i: nat, cfg: Config)
    requires Valid(a) && Current(a) !in a.jumps && (i > 0 ==> Fresh(a))
    requires i < |es| && EntriesOneLine(es)
    ensures HeadAdded(a, EntryHeadDoc(a, es, i, cfg), es, i, cfg)
  {
    if i == 0 {
      FirstHeadAdded(a, es, cfg);
    } else if StartsFile(es, i) {
      LaterHeadAdded(a, es, i, cfg);
    }
  }

  /**
   * `b` is `a` with entry `i` of `es` added: the row of the match on the
   * line before the fresh last one, preceded, when the entry starts its
   * file, by the file's header (on `a`'s own line for the first entry, else
   * after a blank line).
   */
  ghost predicate EntryAdded(a: Doc, b: Doc, es: seq<Entry>, i: nat, cfg: Config)
    requires i < |es|
  {
    && Valid(a) && Fresh(b) && Grows(a, b)
    && |b.lines| == |a.lines| + HeadLines(es, i) + 1
    && ShowsMatch(b, |b.lines| - 2, es[i], cfg)
    && (StartsFile(es, i) ==> HeadsFile(b, |b.lines| - 3, HeaderLead(a, i), es[i].file, cfg))
  }

  lemma {:induction false} EntryAddedFromParts(a: Doc, h: Doc, b: Doc, es: seq<Entry>, i: nat, cfg: Config)
    requires i < |es| && HeadAdded(a, h, es, i, cfg) && RowShown(h, b, es[i], cfg)
    ensures EntryAdded(a, b, es, i, cfg)
  {
    GrowsTransitive(a, h, b);
    if StartsFile(es, i) {
      HeadsFileGrows(h, b, |h.lines| - 2, HeaderLead(a, i), es[i].file, cfg);
    }
  }

  lemma {:induction false} EntryAddedAfter(a: Doc, es: seq<Entry>, i: nat, cfg: Config)
    requires Valid(a) && Current(a) !in a.jumps && (i > 0 ==> Fresh(a))
    requires i < |es| && LinesPositive(es) && EntriesOneLine(es)
    ensures EntryAdded(a, EntryDoc(a, es, i, cfg), es, i, cfg)
  {
    EntryHeadAdded(a, es, i, cfg);
    RowShownByRow(EntryHeadDoc(a, es, i, cfg), es[i], cfg);
    EntryAddedFromParts(a, EntryHeadDoc(a, es, i, cfg), EntryDoc(a, es, i, cfg), es, i, cfg);
  }

  lemma {:induction false} XrefResultsFresh(d: Doc, es: seq<Entry>, n: nat, cfg: Config)
    requires Valid(d) && Current(d) !in d.jumps && n <= |es| && LinesPositive(es) && EntriesOneLine(es)
    ensures n > 0 ==> Fresh(XrefResultsDoc(d, es, n, cfg))
    decreases n
  {
    if n > 0 {
      XrefResultsFresh(d, es, n - 1, cfg);
      EntryAddedAfter(XrefResultsDoc(d, es, n - 1, cfg), es, n - 1, cfg);
    }
  }

  /** The buffer after each prefix of a sorted bin. */
  ghost function XrefResultsTrace(d: Doc, es: seq<Entry>, cfg: Config): (ds: seq<Doc>)
    requires Valid(d) && LinesPositive(es)
    ensures |ds| == |es| + 1
    ensures forall t :: 0 <= t < |ds| ==> ds[t] == XrefResultsDoc(d, es, t, cfg)
  {
    seq(|es| + 1, t requires 0 <= t <= |es| => XrefResultsDoc(d, es, t, cfg))
  }

  /** State `t` of `ds` is state `t - 1` with entry `t - 1` of `es` added. */
  ghost predicate EntryAddedAt(ds: seq<Doc>, es: seq<Entry>, t: nat, cfg: Config)
    requires 0 < t < |ds| && t <= |es|
  {
    EntryAdded(ds[t - 1], ds[t], es, t - 1, cfg)
  }

  /** Each state of `ds` adds the next entry of `es` to the one before. */
  ghost predicate ListsEntries(ds: seq<Doc>, es: seq<Entry>, cfg: Config)
  {
    && |ds| == |es| + 1
    && forall t :: 0 < t < |ds| ==> EntryAddedAt(ds, es, t, cfg)
  }

  lemma {:induction false} XrefResultsStepAdds(d: Doc, es: seq<Entry>, t: nat, cfg: Config)
    requires Valid(d) && Current(d) !in d.jumps && LinesPositive(es) && EntriesOneLine(es) && 0 < t <= |es|
    ensures EntryAdded(XrefResultsDoc(d, es, t - 1, cfg), XrefResultsDoc(d, es, t, cfg), es, t - 1, cfg)
  {
    XrefResultsFresh(d, es, t - 1, cfg);
    EntryAddedAfter(XrefResultsDoc(d, es, t - 1, cfg), es, t - 1, cfg);
  }

  lemma {:induction false} XrefResultsChain(d: Doc, es: seq<Entry>, cfg: Config)
    requires Valid(d) && Current(d) !in d.jumps && LinesPositive(es) && EntriesOneLine(es)
    ensures Chain(XrefResultsTrace(d, es, cfg), 1) && ListsEntries(XrefResultsTrace(d, es, cfg), es, cfg)
  {
    var ds := XrefResultsTrace(d, es, cfg);
    forall t | 0 < t < |ds|
      ensures EntryAddedAt(ds, es, t, cfg) && AdvancesAt(ds, t, 1)
    {
      XrefResultsStepAdds(d, es, t, cfg);
    }
  }

  /**
   * Line `k` of `r` is the row of entry `i` of `es`, and when the entry
   * starts its file, the line above is the file's header written after `lead`.
   */
  ghost predicate ShowsEntry(r: Doc, k: int, es: seq<Entry>, i: nat, lead: string, cfg: Config)
    requires i < |es|
  {
    && ShowsMatch(r, k, es[i], cfg)
    && (StartsFile(es, i) ==> HeadsFile(r, k - 1, lead, es[i].file, cfg))
  }

  /** The row and header an entry adds are still there when the bin is done. */
  lemma {:induction false} ChainKeepsEntry(ds: seq<Doc>, es: seq<Entry>, i: nat, r: Doc, k: int, lead: string, cfg: Config)
    requires Chain(ds, 1) && ListsEntries(ds, es, cfg) && i < |es|
    requires r == ds[|es|] && k == |ds[i + 1].lines| - 2 && lead == HeaderLead(ds[i], i)
    ensures ShowsEntry(r, k, es, i, lead, cfg)
  {
    assert EntryAddedAt(ds, es, i + 1, cfg);
    EntryAddedShows(ds[i], ds[i + 1], es, i, k, cfg);
    ChainGrows(ds, 1, i + 1, |es|);
    ShowsEntryGrows(ds[i + 1], r, k, es, i, lead, cfg);
  }

  lemma {:induction false} EntryAddedShows(a: Doc, b: Doc, es: seq<Entry>, i: nat, k: int, cfg: Config)
    requires i < |es| && EntryAdded(a, b, es, i, cfg) && k == |b.lines| - 2
    ensures ShowsEntry(b, k, es, i, HeaderLead(a, i), cfg) && k < |b.lines| - 1
  {
  }

  /** The row of an entry lies below the line the bin started on and above the fresh last line. */
  lemma {:induction false} ChainRowBounds(ds: seq<Doc>, es: seq<Entry>, i: nat, r: Doc, k: int, cfg: Config)
    requires Chain(ds, 1) && ListsEntries(ds, es, cfg) && i < |es|
    requires r == ds[|es|] && k == |ds[i + 1].lines| - 2
    ensures |ds[0].lines| <= k && k + 2 <= |r.lines|
  {
    assert EntryAddedAt(ds, es, 1, cfg);
    ChainGrows(ds, 1, 1, i + 1);
    ChainGrows(ds, 1, i + 1, |es|);
  }

  /** The line of the row of entry `i` of a bin rendered from `d`. */
  ghost function RowLine(d: Doc, es: seq<Entry>, i: nat, cfg: Config): int
    requires Valid(d) && LinesPositive(es) && i < |es|
  {
    |XrefResultsDoc(d, es, i + 1, cfg).lines| - 2
  }

  /**
   * Every entry of a bin rendered from a line without an entry has its row,
   * jumping to the match's line; an entry that starts its file has the
   * file's header, jumping to line 1, on the line just above its row.
   */
  lemma {:induction false} TraceHeaderLead(d: Doc, es: seq<Entry>, i: nat, cfg: Config)
    requires Valid(d) && LinesPositive(es) && i <= |es|
    ensures HeaderLead(XrefResultsDoc(d, es, i, cfg), i) == HeaderLead(d, i)
  {
    if i == 0 {
      assert XrefResultsDoc(d, es, 0, cfg) == d;
    }
  }

  lemma {:induction false} BinShowsEntry(d: Doc, es: seq<Entry>, i: nat, cfg: Config)
    requires Valid(d) && Current(d) !in d.jumps && LinesPositive(es) && EntriesOneLine(es) && i < |es|
    ensures ShowsEntry(XrefResultsDoc(d, es, |es|, cfg), RowLine(d, es, i, cfg), es, i, HeaderLead(d, i), cfg)
    ensures |d.lines| <= RowLine(d, es, i, cfg) && RowLine(d, es, i, cfg) + 2 <= |XrefResultsDoc(d, es, |es|, cfg).lines|
  {
    XrefResultsChain(d, es, cfg);
    var ds := XrefResultsTrace(d, es, cfg);
    assert ds[i + 1] == XrefResultsDoc(d, es, i + 1, cfg);
    assert ds[|es|] == XrefResultsDoc(d, es, |es|, cfg);
    assert ds[i] == XrefResultsDoc(d, es, i, cfg);
    TraceHeaderLead(d, es, i, cfg);
    ChainKeepsEntry(ds, es, i, XrefResultsDoc(d, es, |es|, cfg), RowLine(d, es, i, cfg), HeaderLead(d, i), cfg);
    ChainRowBounds(ds, es, i, XrefResultsDoc(d, es, |es|, cfg), RowLine(d, es, i, cfg), cfg);
  }

  /**
   * The rows of a bin in order: the first row is on the line after the one
   * `d` was writing (which takes the first header), and each later row
   * follows the previous one directly, or after a blank line and a header
   * when it starts a file.
   */
  lemma {:induction false} BinRowLines(d: Doc, es: seq<Entry>, i: nat, cfg: Config)
    requires Valid(d) && Current(d) !in d.jumps && LinesPositive(es) && EntriesOneLine(es) && i < |es|
    ensures i == 0 ==> RowLine(d, es, i, cfg) == |d.lines|
    ensures i > 0 ==> RowLine(d, es, i, cfg) == RowLine(d, es, i - 1, cfg) + HeadLines(es, i) + 1
  {
    XrefResultsStepAdds(d, es, i + 1, cfg);
  }

  /** Clicking on the header of a file opens the file at line 1, at column 1 up to the file name. */
  lemma {:induction false} HeaderClick(r: Doc, k: nat, lead: string, file: string, col: int, cfg: Config)
    requires Valid(r) && HeadsFile(r, k, lead, file, cfg) && col >= 1
    ensures JumpTargetAt(r, k + 1, col).Some?
    ensures JumpTargetAt(r, k + 1, col).value.file == file && JumpTargetAt(r, k + 1, col).value.line == 1
    ensures col <= |lead| + 3 ==> JumpTargetAt(r, k + 1, col).value.column == 1
  {
    JumpAtEntry(r, k, col);
  }

  /** The pieces of a row after its lead: the start tag and the first `c` characters of the text ... */
  function RowPre(text: string, c: nat, cfg: Config): seq<Piece>
    requires c <= |text|
  {
    [Tag(StartTag(cfg, ">"))] + Chars(text[..c])
  }

  /** ... and the rest of the text and the end tag. */
  function RowRest(text: string, c: nat, cfg: Config): seq<Piece>
    requires c <= |text|
  {
    Chars(text[c..]) + [Tag(EndTag(cfg, ">"))]
  }

  lemma {:induction false} RowPieces(text: string, c: nat, cfg: Config)
    requires Plain(text) && c <= |text|
    ensures Flatten(RowPre(text, c, cfg) + RowRest(text, c, cfg)) == StartTag(cfg, ">") + text + EndTag(cfg, ">")
    ensures Clean(RowPre(text, c, cfg))
    ensures |Flatten(RowPre(text, c, cfg))| == |StartTag(cfg, ">")| + c
    ensures |SourceOf(RowPre(text, c, cfg))| == c
  {
    RowPreShape(text, c, cfg);
    RowFlattens(text, c, cfg);
    RowPreClean(text, c, cfg);
  }

  lemma {:induction false} RowPreShape(text: string, c: nat, cfg: Config)
    requires c <= |text|
    ensures Flatten(RowPre(text, c, cfg)) == StartTag(cfg, ">") + text[..c]
    ensures SourceOf(RowPre(text, c, cfg)) == text[..c]
  {
    var st := StartTag(cfg, ">");
    CharsFlatten(text[..c]);
    FlattenAppend([Tag(st)], Chars(text[..c]));
    assert Flatten([Tag(st)]) == st;
    assert SourceOf([Tag(st)]) == "";
  }

  lemma {:induction false} RowFlattens(text: string, c: nat, cfg: Config)
    requires c <= |text|
    requires Flatten(RowPre(text, c, cfg)) == StartTag(cfg, ">") + text[..c]
    ensures Flatten(RowPre(text, c, cfg) + RowRest(text, c, cfg)) == StartTag(cfg, ">") + text + EndTag(cfg, ">")
  {
    var st, et := StartTag(cfg, ">"), EndTag(cfg, ">");
    var pre, rest := RowPre(text, c, cfg), RowRest(text, c, cfg);
    assert Flatten(rest) == text[c..] + et by {
      CharsFlatten(text[c..]);
      FlattenAppend(Chars(text[c..]), [Tag(et)]);
      assert Flatten([Tag(et)]) == et;
    }
    FlattenAppend(pre, rest);
    Rejoin(st, text, c, et);
  }

  lemma {:induction false} Rejoin(a: string, text: string, c: nat, b: string)
    requires c <= |text|
    ensures (a + text[..c]) + (text[c..] + b) == a + text + b
  {
    assert text[..c] + text[c..] == text;
  }

  lemma {:induction false} RowPreClean(text: string, c: nat, cfg: Config)
    requires Plain(text) && c <= |text|
    ensures Clean(RowPre(text, c, cfg))
  {
    TagsWellFormed(cfg, ">");
    var pre := RowPre(text, c, cfg);
    forall j | 0 <= j < |pre|
      ensures match pre[j] case Char(ch) => ch != '^' && ch != '}' case Tag(t) => WellFormedTag(t)
    {
      if j > 0 {
        assert pre[j] == Char(text[j - 1]);
      }
    }
  }

  /**
   * Clicking on a row just after the first `c` characters of the match's
   * text opens the match's file at its line and at column `c + 1`, with the
   * overhead as written agreeing.
   */
  lemma {:induction false} MatchClick(r: Doc, k: nat, e: Entry, c: nat, cfg: Config)
    requires Valid(r) && ShowsMatch(r, k, e, cfg) && Plain(e.m.lineText) && c <= |e.m.lineText|
    ensures Annotated.LeadsTo(r, k + 1, |RowLead(e.m.lineNumber)| + |StartTag(cfg, ">")| + c + 1,
                              Location(e.file, e.m.lineNumber, c + 1))
  {
    assert r.lines[k] == RowLead(e.m.lineNumber) + StartTag(cfg, ">") + e.m.lineText + EndTag(cfg, ">");
    RowClick(r, k, RowLead(e.m.lineNumber), e.m.lineText, e.file, e.m.lineNumber, c, cfg);
  }

  /** `MatchClick` on a row `g + StartTag + text + EndTag` whose jump starts after the lead `g`. */
  lemma {:induction false} RowClick(r: Doc, k: nat, g: string, text: string, file: string, line: int, c: nat, cfg: Config)
    requires Valid(r) && line > 0 && k in r.jumps && r.jumps[k] == Target(file, line - 1, |g|)
    requires r.lines[k] == g + StartTag(cfg, ">") + text + EndTag(cfg, ">")
    requires Plain(text) && c <= |text|
    ensures Annotated.LeadsTo(r, k + 1, |g| + |StartTag(cfg, ">")| + c + 1, Location(file, line, c + 1))
  {
    RowPieces(text, c, cfg);
    AppendFour(g, StartTag(cfg, ">"), text, EndTag(cfg, ">"));
    Annotated.ClickAfterPrefix(r, k, g, RowPre(text, c, cfg), RowRest(text, c, cfg),
                               |g| + |StartTag(cfg, ">")| + c + 1, Location(file, line, c + 1));
  }

  // The response as a whole.

  /** What a failed response writes, all of it on the mapper's lines with no final line break. */
  function FailureText(resp: XrefSearchResponse): string
  {
    "No results for query\n" + (if resp.statusMessage != "" then "Server status: " + resp.statusMessage else "")
    + SearchRender.StatusLine(resp.status)
  }

  lemma {:induction false} WritesAppend(d: Doc, x: string, y: string, z: string)
    requires Valid(d)
    ensures Text(Write(Write(Write(d, x), y), z)) == Text(d) + (x + y + z)
    ensures Write(Write(Write(d, x), y), z).jumps == d.jumps
    ensures Write(Write(Write(d, x), y), z).signatures == d.signatures
  {
    WriteAppends(d, x);
    WriteAppends(Write(d, x), y);
    WriteAppends(Write(Write(d, x), y), z);
    AppendFour(Text(d), x, y, z);
  }

  /** The failure path is three writes, the middle one empty when there is no status message. */
  lemma {:induction false} FailureWrites(d: Doc, resp: XrefSearchResponse)
    requires Valid(d)
    ensures FailureDoc(d, resp)
         == Write(Write(Write(d, "No results for query\n"),
                        if resp.statusMessage != "" then "Server status: " + resp.statusMessage else ""),
                  SearchRender.StatusLine(resp.status))
  {
    if resp.statusMessage == "" {
      WriteNothing(Write(d, "No results for query\n"));
    }
  }

  /** A failed response writes only its failure text and sets no entry. */
  lemma {:induction false} FailureOnly(d: Doc, resp: XrefSearchResponse, cfg: Config)
    requires Valid(d) && resp.status != 0
    ensures Text(XrefResponseDoc(d, resp, cfg)) == Text(d) + FailureText(resp)
    ensures XrefResponseDoc(d, resp, cfg).jumps == d.jumps && XrefResponseDoc(d, resp, cfg).signatures == d.signatures
  {
    FailureWrites(d, resp);
    WritesAppend(d, "No results for query\n",
                 if resp.statusMessage != "" then "Server status: " + resp.statusMessage else "",
                 SearchRender.StatusLine(resp.status));
  }

  lemma {:induction false} CategoryNameOneLine(b: nat)
    requires b < BinCount
    ensures '\n' !in CategoryName(b)
  {
    assert '\n' !in BinNames[b];
  }

  /** The text of the line a bin's category is written on, after what was already there. */
  function CategoryHeading(b: nat, cfg: Config): string
    requires b < BinCount
  {
    StartTag(cfg, "Cat") + CategoryName(b)
  }

  lemma {:induction false} SplitLineEnd(x: string)
    requires '\n' !in x
    ensures Split(x + "\n", '\n') == [x, ""]
  {
    assert Join([x, ""], '\n') == x + "\n";
    SplitJoin([x, ""], '\n');
  }

  /** Text ending in its only line break ends the current line and starts an empty one. */
  lemma {:induction false} WriteLineEnd(d: Doc, x: string)
    requires Valid(d) && '\n' !in x
    ensures Write(d, x + "\n").lines == d.lines[..|d.lines| - 1] + [d.lines[|d.lines| - 1] + x, ""]
  {
    SplitLineEnd(x);
  }

  /** A start tag, one line of text ending in a line break, and an end tag. */
  lemma {:induction false} BlockLines(d: Doc, st: string, x: string, et: string)
    requires Valid(d) && '\n' !in st && '\n' !in x && '\n' !in et
    ensures Grows(d, Write(Write(Write(d, st), x + "\n"), et))
    ensures Write(Write(Write(d, st), x + "\n"), et).lines
         == d.lines[..|d.lines| - 1] + [d.lines[|d.lines| - 1] + (st + x), et]
  {
    var n := |d.lines|;
    var d1 := Write(d, st);
    WriteOnLine(d, st);
    WriteGrows(d, st);
    var d2 := Write(d1, x + "\n");
    WriteLineEnd(d1, x);
    assert d1.lines[..n - 1] == d.lines[..n - 1];
    WriteGrows(d1, x + "\n");
    GrowsTransitive(d, d1, d2);
    WriteOnLine(d2, et);
    WriteGrows(d2, et);
    GrowsTransitive(d, d2, Write(d2, et));
    assert d.lines[n - 1] + st + x == d.lines[n - 1] + (st + x);
    assert d2.lines == d.lines[..n - 1] + [d.lines[n - 1] + (st + x), ""];
    assert d2.lines[..n] == d.lines[..n - 1] + [d.lines[n - 1] + (st + x)];
    assert d2.lines[n] + et == et;
  }

  /**
   * The category of a bin ends the line being written with the bin's name
   * and a colon; the next line holds the block's end tag and no entry.
   */
  lemma {:induction false} CategoryAdded(d: Doc, b: nat, cfg: Config)
    requires Valid(d) && b < BinCount
    ensures Grows(d, CategoryDoc(d, b, cfg))
    ensures |CategoryDoc(d, b, cfg).lines| == |d.lines| + 1
    ensures CategoryDoc(d, b, cfg).lines[Current(d)] == d.lines[Current(d)] + CategoryHeading(b, cfg)
    ensures CategoryDoc(d, b, cfg).lines[|d.lines|] == EndTag(cfg, "Cat")
    ensures Current(CategoryDoc(d, b, cfg)) !in CategoryDoc(d, b, cfg).jumps
  {
    TagsWellFormed(cfg, "Cat");
    CategoryNameOneLine(b);
    BlockLines(d, StartTag(cfg, "Cat"), CategoryName(b), EndTag(cfg, "Cat"));
  }

  lemma {:induction false} SortKeepsOneLine(es: seq<Entry>)
    requires EntriesOneLine(es)
    ensures EntriesOneLine(SortEntries(es))
  {
    var r := SortEntries(es);
    forall i | 0 <= i < |r| ensures '\n' !in r[i].file && '\n' !in r[i].m.lineText {
      assert r[i] in multiset(es);
    }
  }

  /** The line of the row of entry `i` of bin `b`, sorted, rendered from `d`. */
  ghost function BinRowLine(d: Doc, bin: seq<Entry>, b: nat, i: nat, cfg: Config): int
    requires Valid(d) && b < BinCount && LinesPositive(bin) && i < |bin|
  {
    SortKeepsLinesPositive(bin);
    RowLine(CategoryDoc(d, b, cfg), SortEntries(bin), i, cfg)
  }

  /** What precedes a file header in a bin: the category's end tag for the first file, else nothing. */
  function BinHeaderLead(i: nat, cfg: Config): string
  {
    if i > 0 then "" else EndTag(cfg, "Cat")
  }

  /** Line `k` of `r`, between the category line and the end, shows entry `i` of the sorted bin. */
  ghost predicate BinEntryShown(d: Doc, r: Doc, k: int, bin: seq<Entry>, i: nat, cfg: Config)
    requires Valid(d) && i < |bin|
  {
    && |SortEntries(bin)| == |bin|
    && Current(d) < k < |r.lines| - 1
    && ShowsEntry(r, k, SortEntries(bin), i, BinHeaderLead(i, cfg), cfg)
  }

  /** Line `k` of `r` is the category line of bin `b`, written after `lead`. */
  ghost predicate HeadsBin(r: Doc, k: int, lead: string, b: nat, cfg: Config)
    requires b < BinCount
  {
    0 <= k < |r.lines| && r.lines[k] == lead + CategoryHeading(b, cfg)
  }

  /**
   * `r` is `d` with bin `b` added: the category ends `d`'s line, every entry
   * of the sorted bin is shown below it, a blank line ends the bin and `r`
   * is fresh.
   */
  ghost predicate BinShown(d: Doc, r: Doc, bin: seq<Entry>, b: nat, cfg: Config)
    requires Valid(d) && b < BinCount && LinesPositive(bin)
  {
    && Fresh(r) && Grows(d, r) && |d.lines| + 4 <= |r.lines|
    && HeadsBin(r, Current(d), d.lines[Current(d)], b, cfg)
    && forall i :: 0 <= i < |bin| ==> BinEntryShown(d, r, BinRowLine(d, bin, b, i, cfg), bin, i, cfg)
  }

  lemma {:induction false} ShowsEntryGrows(a: Doc, b: Doc, k: int, es: seq<Entry>, i: nat, lead: string, cfg: Config)
    requires i < |es| && ShowsEntry(a, k, es, i, lead, cfg) && k < |a.lines| - 1 && Grows(a, b)
    ensures ShowsEntry(b, k, es, i, lead, cfg)
  {
  }

  /** The first file header of a bin follows the category's end tag. */
  lemma {:induction false} CategoryHeaderLead(d: Doc, b: nat, i: nat, cfg: Config)
    requires Valid(d) && b < BinCount
    ensures HeaderLead(CategoryDoc(d, b, cfg), i) == BinHeaderLead(i, cfg)
  {
    CategoryAdded(d, b, cfg);
    var c := CategoryDoc(d, b, cfg);
    assert |c.lines| - 1 == |d.lines|;
  }

  lemma {:induction false} BinEntryKept(d: Doc, bin: seq<Entry>, b: nat, i: nat, cfg: Config)
    requires Valid(d) && b < BinCount && LinesPositive(bin) && EntriesOneLine(bin) && i < |bin|
    ensures BinEntryShown(d, BinDoc(d, bin, b, cfg), BinRowLine(d, bin, b, i, cfg), bin, i, cfg)
  {
    var c := CategoryDoc(d, b, cfg);
    CategoryAdded(d, b, cfg);
    var es := SortEntries(bin);
    SortKeepsLinesPositive(bin);
    SortKeepsOneLine(bin);
    BinShowsEntry(c, es, i, cfg);
    CategoryHeaderLead(d, b, i, cfg);
    var rs := XrefResultsDoc(c, es, |es|, cfg);
    NewlineGrows(rs);
    ShowsEntryGrows(rs, Newline(rs), RowLine(c, es, i, cfg), es, i, BinHeaderLead(i, cfg), cfg);
  }

  lemma {:induction false} BinAdded(d: Doc, bin: seq<Entry>, b: nat, cfg: Config)
    requires Valid(d) && b < BinCount && bin != [] && LinesPositive(bin) && EntriesOneLine(bin)
    ensures BinShown(d, BinDoc(d, bin, b, cfg), bin, b, cfg)
  {
    var c := CategoryDoc(d, b, cfg);
    CategoryAdded(d, b, cfg);
    var es := SortEntries(bin);
    SortKeepsLinesPositive(bin);
    SortKeepsOneLine(bin);
    XrefResultsChain(c, es, cfg);
    var ds := XrefResultsTrace(c, es, cfg);
    assert EntryAddedAt(ds, es, 1, cfg);
    ChainGrows(ds, 1, 0, |es|);
    ChainGrows(ds, 1, 1, |es|);
    XrefResultsFresh(c, es, |es|, cfg);
    var rs := XrefResultsDoc(c, es, |es|, cfg);
    assert ds[|es|] == rs;
    GrowsTransitive(d, c, rs);
    NewlineGrows(rs);
    GrowsTransitive(d, rs, Newline(rs));
    forall i | 0 <= i < |bin| ensures BinEntryShown(d, BinDoc(d, bin, b, cfg), BinRowLine(d, bin, b, i, cfg), bin, i, cfg) {
      BinEntryKept(d, bin, b, i, cfg);
    }
  }

  predicate BinsOneLine(bins: seq<seq<Entry>>)
  {
    forall b :: 0 <= b < |bins| ==> EntriesOneLine(bins[b])
  }

  /** An empty bin adds nothing; a non-empty one is shown. */
  ghost predicate BinStep(a: Doc, r: Doc, bin: seq<Entry>, b: nat, cfg: Config)
    requires Valid(a) && b < BinCount && LinesPositive(bin)
  {
    if bin == [] then r == a else BinShown(a, r, bin, b, cfg)
  }

  lemma {:induction false} BinsStepShown(d: Doc, bins: seq<seq<Entry>>, b: nat, cfg: Config)
    requires Valid(d) && |bins| == BinCount && b < BinCount && BinsLinesPositive(bins) && BinsOneLine(bins)
    ensures BinStep(BinsDoc(d, bins, b, cfg), BinsDoc(d, bins, b + 1, cfg), bins[b], b, cfg)
    ensures Advances(BinsDoc(d, bins, b, cfg), BinsDoc(d, bins, b + 1, cfg), 0)
  {
    if bins[b] != [] {
      BinAdded(BinsDoc(d, bins, b, cfg), bins[b], b, cfg);
    }
    BinStepGrows(BinsDoc(d, bins, b, cfg), BinsDoc(d, bins, b + 1, cfg), bins[b], b, cfg);
  }

  /** The buffer after each prefix of the bins. */
  ghost function BinsTrace(d: Doc, bins: seq<seq<Entry>>, cfg: Config): (ds: seq<Doc>)
    requires Valid(d) && |bins| == BinCount && BinsLinesPositive(bins)
    ensures |ds| == BinCount + 1
    ensures forall t :: 0 <= t < |ds| ==> ds[t] == BinsDoc(d, bins, t, cfg)
  {
    seq(BinCount + 1, t requires 0 <= t <= BinCount => BinsDoc(d, bins, t, cfg))
  }

  /** State `t` of `ds` is state `t - 1` with bin `t - 1` added. */
  ghost predicate BinStepAt(ds: seq<Doc>, bins: seq<seq<Entry>>, t: nat, cfg: Config)
    requires 0 < t < |ds| && t <= |bins| && t <= BinCount && Valid(ds[t - 1]) && BinsLinesPositive(bins)
  {
    BinStep(ds[t - 1], ds[t], bins[t - 1], t - 1, cfg)
  }

  /** Each state of `ds` adds the next bin to the one before. */
  ghost predicate ListsBins(ds: seq<Doc>, bins: seq<seq<Entry>>, cfg: Config)
  {
    && |ds| == BinCount + 1 && |bins| == BinCount && BinsLinesPositive(bins)
    && (forall t :: 0 <= t < |ds| ==> Valid(ds[t]))
    && forall t :: 0 < t < |ds| ==> BinStepAt(ds, bins, t, cfg)
  }

  lemma {:induction false} BinStepGrows(a: Doc, r: Doc, bin: seq<Entry>, b: nat, cfg: Config)
    requires Valid(a) && b < BinCount && LinesPositive(bin) && BinStep(a, r, bin, b, cfg)
    ensures Advances(a, r, 0)
  {
  }

  lemma {:induction false} BinsChain(d: Doc, bins: seq<seq<Entry>>, cfg: Config)
    requires Valid(d) && |bins| == BinCount && BinsLinesPositive(bins) && BinsOneLine(bins)
    ensures Chain(BinsTrace(d, bins, cfg), 0) && ListsBins(BinsTrace(d, bins, cfg), bins, cfg)
  {
    var ds := BinsTrace(d, bins, cfg);
    forall t | 0 < t < |ds|
      ensures BinStepAt(ds, bins, t, cfg) && AdvancesAt(ds, t, 0)
    {
      BinsStepShown(d, bins, t - 1, cfg);
    }
  }

  /** The category line of a non-empty bin is still there at the end of the chain. */
  lemma {:induction false} ChainKeepsCategory(ds: seq<Doc>, bins: seq<seq<Entry>>, b: nat, cfg: Config)
    requires Chain(ds, 0) && ListsBins(ds, bins, cfg) && b < BinCount && bins[b] != []
    ensures HeadsBin(ds[BinCount], Current(ds[b]), ds[b].lines[Current(ds[b])], b, cfg)
    ensures Current(ds[b]) + 4 <= Current(ds[b + 1])
  {
    assert BinStepAt(ds, bins, b + 1, cfg);
    ChainGrows(ds, 0, b + 1, BinCount);
  }

  /** What bin `b` shows is still there at the end of the chain, above the next bin's category. */
  lemma {:induction false} ChainKeepsBin(ds: seq<Doc>, bins: seq<seq<Entry>>, b: nat, i: nat, a: Doc, r: Doc, k: int, next: int, cfg: Config)
    requires Chain(ds, 0) && ListsBins(ds, bins, cfg) && b < BinCount && i < |bins[b]|
    requires a == ds[b] && r == ds[BinCount] && k == BinRowLine(ds[b], bins[b], b, i, cfg) && next == Current(ds[b + 1])
    ensures BinEntryShown(a, r, k, bins[b], i, cfg)
    ensures k < next
  {
    ListedBinShows(ds, bins, b, i, k, cfg);
    ChainGrows(ds, 0, b + 1, BinCount);
    BinEntryGrows(a, ds[b + 1], r, k, bins[b], i, cfg);
  }

  lemma {:induction false} ListedBinShows(ds: seq<Doc>, bins: seq<seq<Entry>>, b: nat, i: nat, k: int, cfg: Config)
    requires ListsBins(ds, bins, cfg) && b < BinCount && i < |bins[b]|
    requires k == BinRowLine(ds[b], bins[b], b, i, cfg)
    ensures BinEntryShown(ds[b], ds[b + 1], k, bins[b], i, cfg) && k < Current(ds[b + 1])
  {
    assert BinStepAt(ds, bins, b + 1, cfg);
    BinStepShows(ds[b], ds[b + 1], bins[b], b, i, k, cfg);
  }

  lemma {:induction false} BinStepShows(a: Doc, m: Doc, bin: seq<Entry>, b: nat, i: nat, k: int, cfg: Config)
    requires Valid(a) && b < BinCount && LinesPositive(bin) && i < |bin| && BinStep(a, m, bin, b, cfg)
    requires k == BinRowLine(a, bin, b, i, cfg)
    ensures BinEntryShown(a, m, k, bin, i, cfg) && k < Current(m)
  {
  }

  lemma {:induction false} BinEntryGrows(d: Doc, m: Doc, r: Doc, k: int, bin: seq<Entry>, i: nat, cfg: Config)
    requires Valid(d) && i < |bin| && BinEntryShown(d, m, k, bin, i, cfg) && Grows(m, r)
    ensures BinEntryShown(d, r, k, bin, i, cfg)
  {
    ShowsEntryGrows(m, r, k, SortEntries(bin), i, BinHeaderLead(i, cfg), cfg);
  }

  /** Every file name and line text of the response is on one line. */
  predicate ResponseOneLine(resp: XrefSearchResponse)
  {
    EntriesOneLine(Entries(resp.searchResults))
  }

  lemma {:induction false} ResponseBinsOneLine(resp: XrefSearchResponse)
    requires ResponseOneLine(resp)
    ensures BinsOneLine(Bins(resp))
  {
    forall b, i | 0 <= b < BinCount && 0 <= i < |Bins(resp)[b]|
      ensures '\n' !in Bins(resp)[b][i].file && '\n' !in Bins(resp)[b][i].m.lineText
    {
      assert Bins(resp)[b][i] in Bins(resp)[b];
    }
  }

  /** A successful response whose matches have positive line numbers and one-line names and texts. */
  predicate Listable(resp: XrefSearchResponse)
  {
    resp.status == 0 && ResponseLinesPositive(resp) && ResponseOneLine(resp)
  }

  /** The line on which the category of bin `b` is written (for `b == BinCount`, the line after the last bin). */
  ghost function CategoryLine(d: Doc, resp: XrefSearchResponse, b: nat, cfg: Config): int
    requires Valid(d) && Listable(resp) && b <= BinCount
  {
    ResponseBinsLinesPositive(resp);
    Current(BinsDoc(d, Bins(resp), b, cfg))
  }

  /** What the category of bin `b` is written after: the text on its line before it. */
  ghost function CategoryLead(d: Doc, resp: XrefSearchResponse, b: nat, cfg: Config): string
    requires Valid(d) && Listable(resp) && b <= BinCount
  {
    ResponseBinsLinesPositive(resp);
    var a := BinsDoc(d, Bins(resp), b, cfg);
    a.lines[Current(a)]
  }

  /** The line of the row of entry `i` of bin `b`, in sorted order. */
  ghost function MatchLine(d: Doc, resp: XrefSearchResponse, b: nat, i: nat, cfg: Config): int
    requires Valid(d) && Listable(resp) && b < BinCount && i < |Bins(resp)[b]|
  {
    ResponseBinsLinesPositive(resp);
    BinRowLine(BinsDoc(d, Bins(resp), b, cfg), Bins(resp)[b], b, i, cfg)
  }

  lemma {:induction false} ResponseChain(d: Doc, resp: XrefSearchResponse, cfg: Config)
    requires Valid(d) && Listable(resp)
    ensures BinsLinesPositive(Bins(resp))
    ensures Chain(BinsTrace(d, Bins(resp), cfg), 0) && ListsBins(BinsTrace(d, Bins(resp), cfg), Bins(resp), cfg)
    ensures BinsTrace(d, Bins(resp), cfg)[BinCount] == XrefResponseDoc(d, resp, cfg)
  {
    ResponseBinsLinesPositive(resp);
    ResponseBinsOneLine(resp);
    BinsChain(d, Bins(resp), cfg);
  }

  /**
   * A non-empty bin's category (its name in a `Cat` block and a colon) is
   * on its own line of the response, at least four lines above the next
   * bin's category: the end tag with the first file's header, a row, and
   * the blank line that ends the bin.
   */
  lemma {:induction false} XrefShowsCategory(d: Doc, resp: XrefSearchResponse, b: nat, cfg: Config)
    requires Valid(d) && Listable(resp) && b < BinCount && Bins(resp)[b] != []
    ensures HeadsBin(XrefResponseDoc(d, resp, cfg), CategoryLine(d, resp, b, cfg), CategoryLead(d, resp, b, cfg), b, cfg)
    ensures CategoryLine(d, resp, b, cfg) + 4 <= CategoryLine(d, resp, b + 1, cfg)
  {
    ResponseChain(d, resp, cfg);
    ChainKeepsCategory(BinsTrace(d, Bins(resp), cfg), Bins(resp), b, cfg);
  }

  /**
   * Every entry of every bin, in sorted order, has its row in the response
   * (and its file's header above it when it starts the file), below its
   * bin's category line and above the next bin's.
   */
  lemma {:induction false} XrefShowsMatch(d: Doc, resp: XrefSearchResponse, b: nat, i: nat, cfg: Config)
    requires Valid(d) && Listable(resp) && b < BinCount && i < |Bins(resp)[b]|
    ensures BinEntryShown(BinsDoc(d, Bins(resp), b, cfg), XrefResponseDoc(d, resp, cfg), MatchLine(d, resp, b, i, cfg),
                          Bins(resp)[b], i, cfg)
    ensures CategoryLine(d, resp, b, cfg) < MatchLine(d, resp, b, i, cfg) < CategoryLine(d, resp, b + 1, cfg)
  {
    ResponseChain(d, resp, cfg);
    var ds := BinsTrace(d, Bins(resp), cfg);
    assert ds[b] == BinsDoc(d, Bins(resp), b, cfg);
    assert ds[b + 1] == BinsDoc(d, Bins(resp), b + 1, cfg);
    ChainKeepsBin(ds, Bins(resp), b, i, BinsDoc(d, Bins(resp), b, cfg), XrefResponseDoc(d, resp, cfg),
                  MatchLine(d, resp, b, i, cfg), CategoryLine(d, resp, b + 1, cfg), cfg);
  }

  /** Bins appear in ascending bin order: a later bin's category comes after every line of an earlier non-empty bin. */
  lemma {:induction false} CategoriesInOrder(d: Doc, resp: XrefSearchResponse, b: nat, c: nat, cfg: Config)
    requires Valid(d) && Listable(resp) && b < c <= BinCount
    ensures CategoryLine(d, resp, b, cfg) <= CategoryLine(d, resp, c, cfg)
    ensures Bins(resp)[b] != [] ==> CategoryLine(d, resp, b, cfg) + 4 <= CategoryLine(d, resp, c, cfg)
  {
    ResponseChain(d, resp, cfg);
    var ds := BinsTrace(d, Bins(resp), cfg);
    ChainAdvances(ds, 0, b, c);
    ChainAdvances(ds, 0, b + 1, c);
    if Bins(resp)[b] != [] {
      ChainKeepsCategory(ds, Bins(resp), b, cfg);
    }
  }

  /** Match `j` of file `r` is an entry of the response. */
  lemma {:induction false} EntriesHold(rs: seq<XrefFileResult>, r: nat, j: nat)
    requires r < |rs| && j < |rs[r].matches|
    ensures Entry(rs[r].file, rs[r].matches[j]) in Entries(rs)
    decreases |rs|
  {
    var last := |rs| - 1;
    if r < last {
      EntriesHold(rs[..last], r, j);
    } else {
      assert FileEntries(rs[last].file, rs[last].matches)[j] == Entry(rs[r].file, rs[r].matches[j]);
    }
  }

  /**
   * Every match of the response is in the bin of its kind and in no other,
   * so a match whose kind has no bin of its own is under `References`.
   */
  lemma {:induction false} MatchInItsBin(resp: XrefSearchResponse, r: nat, j: nat)
    requires r < |resp.searchResults| && j < |resp.searchResults[r].matches|
    ensures var e := Entry(resp.searchResults[r].file, resp.searchResults[r].matches[j]);
      && e in SortEntries(Bins(resp)[BinOf(e.m.kind)])
      && (forall b :: 0 <= b < BinCount && b != BinOf(e.m.kind) ==> e !in Bins(resp)[b])
      && (e.m.kind.Unlisted? ==> e in Bins(resp)[References])
  {
    var e := Entry(resp.searchResults[r].file, resp.searchResults[r].matches[j]);
    EntriesHold(resp.searchResults, r, j);
    assert e in Bins(resp)[BinOf(e.m.kind)];
    assert e in multiset(Bins(resp)[BinOf(e.m.kind)]);
  }
}
