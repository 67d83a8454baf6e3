/**
 * The state of a location mapper as a value: the rendered lines, the jump
 * map and the signature map.  Both maps are keyed by the 0-based index of the
 * rendered line that was last when the entry was set.  The primitive
 * operations (`Write`, `Newline`, `SetTargetForPos`, `SetSignatureForLine`)
 * and the queries (`JumpTargetAt`, `SignatureAt`) are defined here once; the
 * `LocationMapper` class and every renderer are specified in terms of them.
 */
module Document {
  import opened Wrappers
  import opened Strings
  import opened Markup

  /**
   * A jump entry: the file, the 0-based line in that file, and the anchor,
   * the column of the rendered line at which the file's text starts.
   */
  datatype Target = Target(file: string, line: nat, anchor: nat)

  /** A jump target as the editor receives it: file, 1-based line and column. */
  datatype Location = Location(file: string, line: int, column: int)

  datatype Doc = Doc(lines: seq<string>, jumps: map<nat, Target>, signatures: map<nat, string>)

  /** A fresh mapper: one empty line and no entries. */
  const Empty: Doc := Doc([""], map[], map[])

  /**
   * There is always a line; every key names an existing line; every anchor
   * lies within its line.
   */
  predicate Valid(d: Doc)
  {
    && |d.lines| >= 1
    && (forall k :: k in d.jumps ==> k < |d.lines| && d.jumps[k].anchor <= |d.lines[k]|)
    && (forall k :: k in d.signatures ==> k < |d.lines|)
  }

  /** The index of the line being written. */
  function Current(d: Doc): nat
    requires |d.lines| >= 1
  {
    |d.lines| - 1
  }

  /** The length of the line being written. */
  function Column(d: Doc): nat
    requires |d.lines| >= 1
  {
    |d.lines[Current(d)]|
  }

  /** The whole rendered buffer. */
  function Text(d: Doc): string
  {
    Join(d.lines, '\n')
  }

  /**
   * `r` is `d` with more output: finished lines and their entries are as
   * they were, no entry appears on a finished line, and the line that was
   * being written has only grown.
   */
  ghost predicate Extends(d: Doc, r: Doc)
  {
    && 1 <= |d.lines| <= |r.lines|
    && (forall k :: 0 <= k < |d.lines| - 1 ==> r.lines[k] == d.lines[k])
    && d.lines[|d.lines| - 1] <= r.lines[|d.lines| - 1]
    && (forall k :: k in d.jumps && k < |d.lines| - 1 ==> k in r.jumps && r.jumps[k] == d.jumps[k])
    && (forall k :: k in r.jumps && k < |d.lines| - 1 ==> k in d.jumps)
    && (forall k :: k in d.signatures && k < |d.lines| - 1 ==> k in r.signatures && r.signatures[k] == d.signatures[k])
    && (forall k :: k in r.signatures && k < |d.lines| - 1 ==> k in d.signatures)
  }

  lemma {:induction false} ExtendsTransitive(a: Doc, b: Doc, c: Doc)
    requires Extends(a, b) && Extends(b, c)
    ensures Extends(a, c)
  {
    var n := |a.lines| - 1;
    if n < |b.lines| - 1 {
      assert c.lines[n] == b.lines[n];
    } else {
      assert b.lines[n] <= c.lines[n];
    }
  }

  /**
   * `write(s)`: the first piece of `s` (up to its first newline) goes on the
   * current line, every further piece starts a new line.
   */
  function Write(d: Doc, s: string): (r: Doc)
    requires Valid(d)
    ensures Valid(r)
    ensures r.jumps == d.jumps && r.signatures == d.signatures
  {
    d.(lines := Merge(d.lines, Split(s, '\n')))
  }

  /**
   * Writing appends `s` to the rendered text, one line per newline in `s`,
   * and only extends the buffer.
   */
  lemma {:induction false} WriteAppends(d: Doc, s: string)
    requires Valid(d)
    ensures var r := Write(d, s);
      && Text(r) == Text(d) + s
      && |r.lines| == |d.lines| + Count(s, '\n')
      && Extends(d, r)
  {
    MergeLastJoin(d.lines, Split(s, '\n'), '\n');
    JoinSplit(s, '\n');
    SplitCount(s, '\n');
  }

  /** Text without a newline goes onto the current line. */
  lemma {:induction false} WriteOnLine(d: Doc, s: string)
    requires Valid(d) && '\n' !in s
    ensures Write(d, s).lines == d.lines[..|d.lines| - 1] + [d.lines[|d.lines| - 1] + s]
  {
    SplitJoin([s], '\n');
  }

  /** Two writes in a row are one write of both pieces. */
  lemma {:induction false} WriteConcat(d: Doc, a: string, b: string)
    requires Valid(d)
    ensures Write(Write(d, a), b) == Write(d, a + b)
  {
    SplitConcat(a, b, '\n');
    MergeTwice(d.lines, Split(a, '\n'), Split(b, '\n'));
  }

  /** Writing nothing changes nothing. */
  lemma {:induction false} WriteNothing(d: Doc)
    requires Valid(d)
    ensures Write(d, "") == d
  {
    WriteOnLine(d, "");
    assert d.lines[|d.lines| - 1] + "" == d.lines[|d.lines| - 1];
    assert d.lines[..|d.lines| - 1] + [d.lines[|d.lines| - 1]] == d.lines;
  }

  /** `newline()`: starts an empty line. */
  function Newline(d: Doc): (r: Doc)
    requires Valid(d)
    ensures Valid(r)
    ensures |r.lines| == |d.lines| + 1 && r.lines[|d.lines|] == ""
    ensures r.jumps == d.jumps && r.signatures == d.signatures
  {
    d.(lines := d.lines + [""])
  }

  /** A new line appends a newline to the rendered text and only extends the buffer. */
  lemma {:induction false} NewlineAppends(d: Doc)
    requires Valid(d)
    ensures Text(Newline(d)) == Text(d) + "\n" && Extends(d, Newline(d))
  {
    JoinAppend(d.lines, [""], '\n');
  }

  /**
   * `SetTargetForPos(fn, line)`: the current line jumps to 1-based `line`
   * of `file`, anchored at the current column.
   */
  function SetTargetForPos(d: Doc, file: string, line: int): (r: Doc)
    requires Valid(d)
    requires line > 0
    ensures Valid(r)
    ensures r.lines == d.lines && r.signatures == d.signatures
    ensures Current(d) in r.jumps && r.jumps[Current(d)] == Target(file, line - 1, Column(d))
  {
    d.(jumps := d.jumps[Current(d) := Target(file, line - 1, Column(d))])
  }

  /** Setting a target touches no other line's entry and only extends the buffer. */
  lemma {:induction false} SetTargetOthers(d: Doc, file: string, line: int)
    requires Valid(d) && line > 0
    ensures var r := SetTargetForPos(d, file, line);
      && (forall k :: k != Current(d) ==> (k in r.jumps <==> k in d.jumps))
      && (forall k :: k in d.jumps && k != Current(d) ==> r.jumps[k] == d.jumps[k])
      && Extends(d, r)
  {
  }

  /** `SetSignatureForLine(sig)`: the current line belongs to the call-graph node `sig`. */
  function SetSignatureForLine(d: Doc, sig: string): (r: Doc)
    requires Valid(d)
    ensures Valid(r)
    ensures r.lines == d.lines && r.jumps == d.jumps
    ensures Current(d) in r.signatures && r.signatures[Current(d)] == sig
  {
    d.(signatures := d.signatures[Current(d) := sig])
  }

  /** Setting a signature touches no other line's signature and only extends the buffer. */
  lemma {:induction false} SetSignatureOthers(d: Doc, sig: string)
    requires Valid(d)
    ensures var r := SetSignatureForLine(d, sig);
      && (forall k :: k != Current(d) ==> (k in r.signatures <==> k in d.signatures))
      && (forall k :: k in d.signatures && k != Current(d) ==> r.signatures[k] == d.signatures[k])
      && Extends(d, r)
  {
  }

  /**
   * `r` is `d` with more output and no entry replaced: finished lines are
   * as they were, the line being written has only grown, and every entry of
   * `d` is in `r` unchanged.
   */
  ghost predicate Grows(d: Doc, r: Doc)
  {
    && 1 <= |d.lines| <= |r.lines|
    && (forall k :: 0 <= k < |d.lines| - 1 ==> r.lines[k] == d.lines[k])
    && d.lines[|d.lines| - 1] <= r.lines[|d.lines| - 1]
    && (forall k :: k in d.jumps ==> k in r.jumps && r.jumps[k] == d.jumps[k])
  }

  /** The line being written is empty and has no entry yet. */
  predicate Fresh(d: Doc)
  {
    Valid(d) && d.lines[|d.lines| - 1] == "" && Current(d) !in d.jumps
  }

  lemma {:induction false} GrowsTransitive(a: Doc, b: Doc, c: Doc)
    requires Grows(a, b) && Grows(b, c)
    ensures Grows(a, c)
  {
    var n := |a.lines| - 1;
    if n < |b.lines| - 1 {
      assert c.lines[n] == b.lines[n];
    } else {
      assert b.lines[n] <= c.lines[n];
    }
  }

  lemma {:induction false} WriteGrows(d: Doc, s: string)
    requires Valid(d)
    ensures Grows(d, Write(d, s))
  {
    WriteAppends(d, s);
  }

  /** A new line grows the buffer and leaves it fresh. */
  lemma {:induction false} NewlineGrows(d: Doc)
    requires Valid(d)
    ensures Grows(d, Newline(d)) && Fresh(Newline(d))
  {
  }

  /** Setting a target on a line that has none yet replaces no entry. */
  lemma {:induction false} SetTargetGrows(d: Doc, file: string, line: int)
    requires Valid(d) && line > 0 && Current(d) !in d.jumps
    ensures Grows(d, SetTargetForPos(d, file, line))
  {
  }

  /** `a` grows into `b`, adding at least `gap` lines. */
  ghost predicate Advances(a: Doc, b: Doc, gap: nat)
  {
    Grows(a, b) && |a.lines| + gap <= |b.lines|
  }

  lemma {:induction false} AdvancesTransitive(a: Doc, b: Doc, c: Doc, g1: nat, g2: nat)
    requires Advances(a, b, g1) && Advances(b, c, g2)
    ensures Advances(a, c, g1 + g2)
  {
    GrowsTransitive(a, b, c);
  }

  /** State `t - 1` of `ds` advances into state `t`. */
  ghost predicate AdvancesAt(ds: seq<Doc>, t: nat, gap: nat)
    requires 0 < t < |ds|
  {
    Advances(ds[t - 1], ds[t], gap)
  }

  /** A run of buffer states, each advancing into the next by at least `gap` lines. */
  ghost predicate Chain(ds: seq<Doc>, gap: nat)
  {
    && (forall t :: 0 <= t < |ds| ==> Valid(ds[t]))
    && (forall t :: 0 < t < |ds| ==> AdvancesAt(ds, t, gap))
  }

  /** Any state of a chain advances into every later one, by at least `gap` lines. */
  lemma {:induction false} ChainAdvances(ds: seq<Doc>, gap: nat, i: nat, j: nat)
    requires Chain(ds, gap) && i <= j < |ds|
    ensures Advances(ds[i], ds[j], if i < j then gap else 0)
    decreases j
  {
    if i < j {
      ChainAdvances(ds, gap, i, j - 1);
      assert AdvancesAt(ds, j, gap);
      AdvancesTransitive(ds[i], ds[j - 1], ds[j], if i < j - 1 then gap else 0, gap);
    }
  }

  lemma {:induction false} ChainGrows(ds: seq<Doc>, gap: nat, i: nat, j: nat)
    requires Chain(ds, gap) && i <= j < |ds|
    ensures Grows(ds[i], ds[j])
  {
    ChainAdvances(ds, gap, i, j);
  }

  /** The greatest key at or below `q`, if there is one. */
  function FloorKey(keys: set<nat>, q: int): (r: Option<nat>)
    ensures r.Some? ==> r.value in keys && r.value <= q
    ensures r.Some? ==> forall k :: k in keys && k <= q ==> k <= r.value
    ensures r.None? <==> forall k :: k in keys ==> q < k
    decreases q
  {
    if q < 0 then None
    else if q in keys then Some(q)
    else FloorKey(keys, q - 1)
  }

  /** The rendered text between the anchor of entry `k` and the 0-based cursor column `col`. */
  function Gap(d: Doc, k: nat, col: nat): string
    requires Valid(d) && k in d.jumps
  {
    Slice(d.lines[k], d.jumps[k].anchor, col)
  }

  /**
   * `JumpTargetAt(line, column)` for a 1-based rendered position: the entry
   * of the greatest mapped line at or above it gives the file and line; the
   * column is the distance from the anchor less the markup in between.
   */
  function JumpTargetAt(d: Doc, line: int, column: int): (r: Option<Location>)
    requires Valid(d)
    requires line > 0 && column > 0
  {
    match FloorKey(d.jumps.Keys, line - 1)
    case None => None
    case Some(k) =>
      var t := d.jumps[k];
      var col := column - 1;
      var target := if t.anchor < col then col - t.anchor - MarkupOverhead(Gap(d, k, col)) else 0;
      Some(Location(t.file, t.line + 1, target + 1))
  }

  /**
   * The corrected query uses the entry of the greatest mapped line at or
   * above the position, and its column lies between 1 and the distance from
   * the anchor.
   */
  lemma {:induction false} CorrectedQuery(d: Doc, line: int, column: int)
    requires Valid(d)
    requires line > 0 && column > 0
    ensures JumpTargetAt(d, line, column).None? <==> forall k :: k in d.jumps ==> k > line - 1
    ensures JumpTargetAt(d, line, column).Some? ==>
      exists k :: k in d.jumps && k <= line - 1 &&
        (forall k' :: k' in d.jumps && k' <= line - 1 ==> k' <= k) &&
        JumpTargetAt(d, line, column).value.file == d.jumps[k].file && JumpTargetAt(d, line, column).value.line == d.jumps[k].line + 1 &&
        1 <= JumpTargetAt(d, line, column).value.column &&
        (column - 1 <= d.jumps[k].anchor ==> JumpTargetAt(d, line, column).value.column == 1) &&
        (column - 1 > d.jumps[k].anchor ==> JumpTargetAt(d, line, column).value.column <= column - d.jumps[k].anchor)
  {
    match FloorKey(d.jumps.Keys, line - 1)
    case None =>
    case Some(k) =>
  }

  /**
   * `JumpTargetAt(line, column)` as the repository computes it, with the
   * overhead counted by the two independent scans.  Each `Failure` is one of
   * its assertions: a position that is not 1-based, or a target column below
   * zero.  The entry used is the greatest mapped line at or above the query
   * (`FloorKey`); past its anchor the column is the distance less the
   * overhead, at or before it the column is 1.
   */
  function JumpTargetAtAsWritten(d: Doc, line: int, column: int): (r: Result<Option<Location>, string>)
    requires Valid(d)
  {
    if line <= 0 then Failure("line > 0")
    else if column <= 0 then Failure("column > 0")
    else
      match FloorKey(d.jumps.Keys, line - 1)
      case None => Success(None)
      case Some(k) =>
        var t := d.jumps[k];
        var col := column - 1;
        var target := if t.anchor < col then col - t.anchor - CountBlockMarkupOverhead(Gap(d, k, col)) else 0;
        if target < 0 then Failure("target_column >= 0")
        else Success(Some(Location(t.file, t.line + 1, target + 1)))
  }

  /** What `JumpTargetAtAsWritten` returns, case by case, and where it agrees with the corrected query. */
  lemma {:induction false} AsWrittenQuery(d: Doc, line: int, column: int)
    requires Valid(d)
    ensures line <= 0 ==> JumpTargetAtAsWritten(d, line, column) == Failure("line > 0")
    ensures line > 0 && column <= 0 ==> JumpTargetAtAsWritten(d, line, column) == Failure("column > 0")
    ensures line > 0 && column > 0 ==> (JumpTargetAtAsWritten(d, line, column) == Success(None) <==> forall k :: k in d.jumps ==> k > line - 1)
    ensures line > 0 && column > 0 ==>
      match FloorKey(d.jumps.Keys, line - 1)
      case None => true
      case Some(k) =>
        var t, over := d.jumps[k], CountBlockMarkupOverhead(Gap(d, k, column - 1));
        && (column - 1 <= t.anchor ==> JumpTargetAtAsWritten(d, line, column) == Success(Some(Location(t.file, t.line + 1, 1))))
        && (t.anchor < column - 1 ==> (JumpTargetAtAsWritten(d, line, column).Failure? <==> over > column - 1 - t.anchor))
        && (t.anchor < column - 1 && over <= column - 1 - t.anchor ==>
              JumpTargetAtAsWritten(d, line, column) == Success(Some(Location(t.file, t.line + 1, column - 1 - t.anchor - over + 1))))
        && (over == MarkupOverhead(Gap(d, k, column - 1)) ==> JumpTargetAtAsWritten(d, line, column) == Success(JumpTargetAt(d, line, column)))
  {
    if line > 0 && column > 0 {
      match FloorKey(d.jumps.Keys, line - 1)
      case None =>
      case Some(k) =>
        assert |Gap(d, k, column - 1)| <= column - 1 - d.jumps[k].anchor || column - 1 <= d.jumps[k].anchor;
    }
  }

  /**
   * The corrected query under a markup setting: with concealable markup on it
   * is `JumpTargetAt`; with it off the rendered text holds no tags, so
   * nothing is subtracted from the distance to the anchor.
   */
  function JumpTargetAtUnder(cfg: Config, d: Doc, line: int, column: int): (r: Option<Location>)
    requires Valid(d) && line > 0 && column > 0
    ensures cfg.concealable ==> r == JumpTargetAt(d, line, column)
  {
    if cfg.concealable then JumpTargetAt(d, line, column)
    else
      match FloorKey(d.jumps.Keys, line - 1)
      case None => None
      case Some(k) =>
        var t := d.jumps[k];
        Some(Location(t.file, t.line + 1, (if t.anchor < column - 1 then column - 1 - t.anchor else 0) + 1))
  }

  /**
   * With markup off, text written after an entry's anchor on the same line
   * maps back column for column: a click just past `s` lands just past `s`
   * in the source.
   */
  lemma {:induction false} DisabledClickExact(cfg: Config, d: Doc, s: string, w: Doc)
    requires !cfg.concealable && Valid(d) && Current(d) in d.jumps && d.jumps[Current(d)].anchor == Column(d)
    requires '\n' !in s && w == Write(d, s)
    ensures JumpTargetAtUnder(cfg, w, Current(d) + 1, Column(d) + |s| + 1)
         == Some(Location(d.jumps[Current(d)].file, d.jumps[Current(d)].line + 1, |s| + 1))
  {
    var k := Current(d);
    WriteOnLine(d, s);
    assert Current(w) == k && w.jumps == d.jumps;
    assert FloorKey(w.jumps.Keys, k) == Some(k);
  }

  /**
   * A click just after the last character of a line with its own entry,
   * where `g` is the text after the anchor: the query as written subtracts,
   * from the length of `g`, the two independent scans of `g`.
   */
  lemma {:induction false} ClickAtLineEnd(d: Doc, k: nat, column: int, g: string)
    requires Valid(d) && k in d.jumps && d.jumps[k].anchor < |d.lines[k]|
    requires column == |d.lines[k]| + 1 && g == d.lines[k][d.jumps[k].anchor..]
    ensures JumpTargetAtAsWritten(d, k + 1, column)
         == if CountBlockMarkupOverhead(g) > |g| then Failure("target_column >= 0")
            else Success(Some(Location(d.jumps[k].file, d.jumps[k].line + 1, |g| - CountBlockMarkupOverhead(g) + 1)))
  {
    assert Gap(d, k, |d.lines[k]|) == g && |g| == |d.lines[k]| - d.jumps[k].anchor;
    assert FloorKey(d.jumps.Keys, k) == Some(k);
  }

  /** The same click under the corrected scan. */
  lemma {:induction false} CorrectedClickAtLineEnd(d: Doc, k: nat, column: int, g: string)
    requires Valid(d) && k in d.jumps && d.jumps[k].anchor < |d.lines[k]|
    requires column == |d.lines[k]| + 1 && g == d.lines[k][d.jumps[k].anchor..]
    ensures JumpTargetAt(d, k + 1, column) == Some(Location(d.jumps[k].file, d.jumps[k].line + 1, |g| - MarkupOverhead(g) + 1))
  {
    assert FloorKey(d.jumps.Keys, k) == Some(k);
    var t := d.jumps[k];
    assert Gap(d, k, column - 1) == g;
    assert JumpTargetAt(d, k + 1, column) == Some(Location(t.file, t.line + 1, column - 1 - t.anchor - MarkupOverhead(g) + 1));
  }

  /** The same click with markup off: the whole length of `g`. */
  lemma {:induction false} DisabledClickAtLineEnd(d: Doc, k: nat, column: int, g: string)
    requires Valid(d) && k in d.jumps && d.jumps[k].anchor < |d.lines[k]|
    requires column == |d.lines[k]| + 1 && g == d.lines[k][d.jumps[k].anchor..]
    ensures JumpTargetAtUnder(Config(false), d, k + 1, column) == Some(Location(d.jumps[k].file, d.jumps[k].line + 1, |g| + 1))
  {
    assert |g| == |d.lines[k]| - d.jumps[k].anchor;
    assert FloorKey(d.jumps.Keys, k) == Some(k);
  }

  /** The three queries clicked after the last character of a first line anchored at column 0. */
  lemma {:induction false} FirstLineClick(d: Doc, text: string, file: string)
    requires Valid(d) && 0 in d.jumps && d.jumps[0] == Target(file, 0, 0) && d.lines[0] == text && |text| > 0
    ensures JumpTargetAtAsWritten(d, 1, |text| + 1)
         == if CountBlockMarkupOverhead(text) > |text| then Failure("target_column >= 0")
            else Success(Some(Location(file, 1, |text| - CountBlockMarkupOverhead(text) + 1)))
    ensures JumpTargetAt(d, 1, |text| + 1) == Some(Location(file, 1, |text| - MarkupOverhead(text) + 1))
    ensures JumpTargetAtUnder(Config(false), d, 1, |text| + 1) == Some(Location(file, 1, |text| + 1))
  {
    assert d.lines[0][0..] == text;
    ClickAtLineEnd(d, 0, |text| + 1, text);
    CorrectedClickAtLineEnd(d, 0, |text| + 1, text);
    DisabledClickAtLineEnd(d, 0, |text| + 1, text);
  }

  /**
   * With markup off, the rendered line `a ^ b {` anchored at column 0 holds
   * no tag, yet the scans as written find `^ b {` in it and map a click
   * after its last character to column 3 instead of column 8.
   */
  lemma {:induction false} DisabledClickAsWritten(d: Doc)
    requires d == Doc(["a ^ b {"], map[0 := Target("f", 0, 0)], map[])
    ensures JumpTargetAtAsWritten(d, 1, 8) == Success(Some(Location("f", 1, 3)))
    ensures JumpTargetAtUnder(DisableConcealableMarkup(), d, 1, 8) == Some(Location("f", 1, 8))
  {
    DisabledLineOverhead();
    FirstLineClick(d, "a ^ b {", "f");
  }

  /**
   * Round trip of the position mapping: when the text after an entry's
   * anchor starts with a clean run of source characters and tags, the
   * rendered column just past that run maps back to the 1-based source
   * column just past its source characters, and the overhead as written
   * agrees.
   */
  lemma {:induction false} JumpAcrossPieces(d: Doc, k: nat, ps: seq<Piece>, column: int)
    requires Valid(d) && k in d.jumps && Clean(ps)
    requires d.jumps[k].anchor + |Flatten(ps)| <= |d.lines[k]|
    requires d.lines[k][d.jumps[k].anchor..d.jumps[k].anchor + |Flatten(ps)|] == Flatten(ps)
    requires column == d.jumps[k].anchor + |Flatten(ps)| + 1
    ensures JumpTargetAt(d, k + 1, column) == Some(Location(d.jumps[k].file, d.jumps[k].line + 1, |SourceOf(ps)| + 1))
    ensures JumpTargetAtAsWritten(d, k + 1, column) == Success(JumpTargetAt(d, k + 1, column))
  {
    PiecesOverhead(ps);
    FlattenLength(ps);
    ClickOverGap(d, k, column, Flatten(ps));
    AsWrittenClickOverGap(d, k, column, Flatten(ps));
  }

  /**
   * A click on a line with its own entry, where `g` is the rendered text
   * from the anchor to the click: the corrected query gives the length of
   * `g` less its markup.
   */
  lemma {:induction false} ClickOverGap(d: Doc, k: nat, column: int, g: string)
    requires Valid(d) && k in d.jumps && d.jumps[k].anchor + |g| <= |d.lines[k]|
    requires d.lines[k][d.jumps[k].anchor..d.jumps[k].anchor + |g|] == g && column == d.jumps[k].anchor + |g| + 1
    ensures JumpTargetAt(d, k + 1, column) == Some(Location(d.jumps[k].file, d.jumps[k].line + 1, |g| - MarkupOverhead(g) + 1))
  {
    assert FloorKey(d.jumps.Keys, k) == Some(k);
    var t := d.jumps[k];
    assert Gap(d, k, column - 1) == g;
    var m := MarkupOverhead(g);
    if |g| == 0 {
      assert m == 0;
      assert JumpTargetAt(d, k + 1, column) == Some(Location(t.file, t.line + 1, 1));
    } else {
      assert JumpTargetAt(d, k + 1, column) == Some(Location(t.file, t.line + 1, column - 1 - t.anchor - m + 1));
    }
  }

  /** The same click as written: the two scans of `g` are subtracted instead. */
  lemma {:induction false} AsWrittenClickOverGap(d: Doc, k: nat, column: int, g: string)
    requires Valid(d) && k in d.jumps && d.jumps[k].anchor + |g| <= |d.lines[k]|
    requires d.lines[k][d.jumps[k].anchor..d.jumps[k].anchor + |g|] == g && column == d.jumps[k].anchor + |g| + 1
    ensures JumpTargetAtAsWritten(d, k + 1, column)
         == if CountBlockMarkupOverhead(g) > |g| then Failure("target_column >= 0")
            else Success(Some(Location(d.jumps[k].file, d.jumps[k].line + 1, |g| - CountBlockMarkupOverhead(g) + 1)))
  {
    assert FloorKey(d.jumps.Keys, k) == Some(k);
    var t := d.jumps[k];
    var target := if t.anchor < column - 1 then column - 1 - t.anchor - CountBlockMarkupOverhead(Gap(d, k, column - 1)) else 0;
    assert JumpTargetAtAsWritten(d, k + 1, column)
        == if target < 0 then Failure("target_column >= 0") else Success(Some(Location(t.file, t.line + 1, target + 1)));
    assert Gap(d, k, column - 1) == g && |g| == column - 1 - t.anchor;
  }

  /** At a line that has its own entry, the query uses that entry. */
  lemma {:induction false} JumpAtEntry(d: Doc, k: nat, column: int)
    requires Valid(d) && k in d.jumps && column > 0
    ensures JumpTargetAt(d, k + 1, column) ==
      Some(Location(d.jumps[k].file, d.jumps[k].line + 1,
        (if d.jumps[k].anchor < column - 1
         then column - 1 - d.jumps[k].anchor - MarkupOverhead(Gap(d, k, column - 1)) else 0) + 1))
    ensures JumpTargetAtAsWritten(d, k + 1, column) ==
      var target := if d.jumps[k].anchor < column - 1
        then column - 1 - d.jumps[k].anchor - CountBlockMarkupOverhead(Gap(d, k, column - 1)) else 0;
      if target < 0 then Failure("target_column >= 0")
      else Success(Some(Location(d.jumps[k].file, d.jumps[k].line + 1, target + 1)))
  {
    CorrectedJumpAtEntry(d, k, column);
    AsWrittenJumpAtEntry(d, k, column);
  }

  lemma {:induction false} CorrectedJumpAtEntry(d: Doc, k: nat, column: int)
    requires Valid(d) && k in d.jumps && column > 0
    ensures JumpTargetAt(d, k + 1, column) ==
      Some(Location(d.jumps[k].file, d.jumps[k].line + 1,
        (if d.jumps[k].anchor < column - 1
         then column - 1 - d.jumps[k].anchor - MarkupOverhead(Gap(d, k, column - 1)) else 0) + 1))
  {
    assert FloorKey(d.jumps.Keys, k + 1 - 1) == Some(k);
  }

  lemma {:induction false} AsWrittenJumpAtEntry(d: Doc, k: nat, column: int)
    requires Valid(d) && k in d.jumps && column > 0
    ensures JumpTargetAtAsWritten(d, k + 1, column) ==
      var target := if d.jumps[k].anchor < column - 1
        then column - 1 - d.jumps[k].anchor - CountBlockMarkupOverhead(Gap(d, k, column - 1)) else 0;
      if target < 0 then Failure("target_column >= 0")
      else Success(Some(Location(d.jumps[k].file, d.jumps[k].line + 1, target + 1)))
  {
    assert FloorKey(d.jumps.Keys, k + 1 - 1) == Some(k);
  }

  /**
   * A rendered line `^}a_{` anchored at column 0: clicking after its last
   * character makes the overhead as written (8) exceed the 5 characters
   * clicked over, so the assertion fails, while the corrected overhead maps
   * the click to column 1.
   */
  lemma {:induction false} AsWrittenAssertionFires(d: Doc)
    requires d == Doc(["^}a_{"], map[0 := Target("f", 0, 0)], map[])
    ensures JumpTargetAtAsWritten(d, 1, 6) == Failure("target_column >= 0")
    ensures JumpTargetAt(d, 1, 6) == Some(Location("f", 1, 1))
  {
    OverheadCanExceedLength();
    FirstLineClick(d, "^}a_{", "f");
  }

  /** `SignatureAt(line)`: the signature of the greatest marked line at or above the 1-based `line`. */
  function SignatureAt(d: Doc, line: int): (r: Option<string>)
    requires line > 0
    ensures r.None? <==> forall k :: k in d.signatures ==> k > line - 1
    ensures r.Some? ==>
      exists k :: k in d.signatures && k <= line - 1 && r.value == d.signatures[k] &&
        forall k' :: k' in d.signatures && k' <= line - 1 ==> k' <= k
  {
    match FloorKey(d.signatures.Keys, line - 1)
    case None => None
    case Some(k) => Some(d.signatures[k])
  }

  /** The file of the entry stored at key `k`, or `''` when there is none. */
  function FileAt(d: Doc, k: int): string
  {
    if k >= 0 && k in d.jumps then d.jumps[k].file else ""
  }

  /** Key `k` has an entry for a file other than `current`. */
  predicate IsOther(d: Doc, current: string, k: int)
  {
    FileAt(d, k) != "" && FileAt(d, k) != current
  }

  /** The greatest key in `[1, hi]` whose file is non-empty and not `current`. */
  function LastOther(d: Doc, current: string, hi: int): (r: Option<nat>)
    ensures r.Some? ==> 1 <= r.value <= hi && IsOther(d, current, r.value)
    ensures r.Some? ==> forall k :: r.value < k <= hi ==> !IsOther(d, current, k)
    ensures r.None? <==> forall k :: 1 <= k <= hi ==> !IsOther(d, current, k)
    decreases hi
  {
    if hi < 1 then None
    else if IsOther(d, current, hi) then Some(hi)
    else LastOther(d, current, hi - 1)
  }

  /** The least `s >= 1` such that every key in `[s, j]` has file `f`. */
  function RunStart(d: Doc, f: string, j: nat): (s: nat)
    requires 1 <= j && FileAt(d, j) == f
    ensures 1 <= s <= j
    ensures forall k :: s <= k <= j ==> FileAt(d, k) == f
    ensures s > 1 ==> FileAt(d, s - 1) != f
    decreases j
  {
    if j > 1 && FileAt(d, j - 1) == f then RunStart(d, f, j - 1) else j
  }

  /** A run start is determined by its two defining properties. */
  lemma {:induction false} RunStartUnique(d: Doc, f: string, j: nat, s: nat)
    requires 1 <= s <= j && FileAt(d, j) == f
    requires forall k :: s <= k <= j ==> FileAt(d, k) == f
    requires s > 1 ==> FileAt(d, s - 1) != f
    ensures RunStart(d, f, j) == s
  {
    var t := RunStart(d, f, j);
    if s > 1 {
      assert !(t <= s - 1 <= j);
    }
    if t > 1 {
      assert !(s <= t - 1 <= j);
    }
  }

  /**
   * What `PreviousFileLocation(line)` returns: the key `line` (one below the
   * 1-based cursor) names the current file; the search starts two keys
   * further up at the last key of another file and walks up that file's run
   * of keys; the result is one past the run's first key, or 1 when the run
   * reaches key 1 or there is no other file.
   */
  function PreviousFile(d: Doc, line: int): (r: int)
    ensures 1 <= r
    ensures line >= 2 ==> r <= line - 1
    ensures r != 1 ==> 3 <= r && IsOther(d, FileAt(d, line), r - 1) && FileAt(d, r - 2) != FileAt(d, r - 1)
  {
    match LastOther(d, FileAt(d, line), line - 2)
    case None => 1
    case Some(j) =>
      var s := RunStart(d, FileAt(d, j), j);
      if s == 1 then 1 else s + 1
  }
}
