/**
 * `LocationMapper`: the object the renderers write into.  It keeps the
 * rendered lines and the two maps as fields and changes them in place; each
 * method is specified by the operation of the same name on `Document.Doc`,
 * applied to the state before the call.
 */
module Mapper {
  import opened Wrappers
  import opened Strings
  import opened Document

  class LocationMapper {
    var lines: seq<string>
    var jumpMap: map<nat, Target>
    var signatureMap: map<nat, string>

    /** The mapper's state as a value. */
    function State(): Doc
      reads this
    {
      Doc(lines, jumpMap, signatureMap)
    }

    predicate Valid()
      reads this
    {
      Document.Valid(State())
    }

    constructor ()
      ensures State() == Document.Empty
      ensures Valid()
    {
      lines := [""];
      jumpMap := map[];
      signatureMap := map[];
    }

    method SetSignatureForLine(sig: string)
      requires Valid()
      modifies this
      ensures State() == Document.SetSignatureForLine(old(State()), sig)
      ensures Valid()
    {
      var current := |lines| - 1;
      signatureMap := signatureMap[current := sig];
    }

    method SetTargetForPos(file: string, line: int)
      requires Valid()
      requires line > 0
      modifies this
      ensures State() == Document.SetTargetForPos(old(State()), file, line)
      ensures Valid()
    {
      var current := |lines| - 1;
      jumpMap := jumpMap[current := Target(file, line - 1, Column())];
    }

    /** `column()`: the length of the line being written. */
    function Column(): nat
      reads this
      requires Valid()
    {
      |lines[|lines| - 1]|
    }

    method Write(s: string)
      requires Valid()
      modifies this
      ensures State() == Document.Write(old(State()), s)
      ensures Valid()
    {
      var parts := Split(s, '\n');
      lines := lines[..|lines| - 1] + [lines[|lines| - 1] + parts[0]] + parts[1..];
    }

    method Newline()
      requires Valid()
      modifies this
      ensures State() == Document.Newline(old(State()))
      ensures Valid()
    {
      lines := lines + [""];
    }

    function Lines(): seq<string>
      reads this
    {
      lines
    }

    /**
     * `JumpTargetAt(line, column)` as the repository computes it; a `Failure`
     * is an assertion of the query that does not hold.
     */
    method JumpTargetAt(line: int, column: int) returns (r: Result<Option<Location>, string>)
      requires Valid()
      ensures r == Document.JumpTargetAtAsWritten(State(), line, column)
    {
      r := Document.JumpTargetAtAsWritten(State(), line, column);
    }

    /** `SignatureAt(line)`; a `Failure` is the assertion that `line` is 1-based. */
    method SignatureAt(line: int) returns (r: Result<Option<string>, string>)
      ensures line <= 0 ==> r == Failure("line > 0")
      ensures line > 0 ==> r == Success(Document.SignatureAt(State(), line))
    {
      if line <= 0 {
        return Failure("line > 0");
      }
      r := Success(Document.SignatureAt(State(), line));
    }

    /**
     * The key `line` (one below the 1-based cursor) names the current file;
     * the result is one past the first key at or after it whose file is set
     * and differs, or `line` itself when there is no such key.
     */
    method NextFileLocation(line: int) returns (r: int)
      requires Valid()
      ensures var d, cur := State(), FileAt(State(), line);
        r == line <==> forall k :: line <= k <= |d.lines| ==> !IsOther(d, cur, k)
      ensures var d, cur := State(), FileAt(State(), line);
        r != line ==>
          && line < r <= |d.lines|
          && IsOther(d, cur, r - 1)
          && forall k :: line <= k < r - 1 ==> !IsOther(d, cur, k)
    {
      var d := State();
      var current := FileAt(d, line);
      var k := line;
      while k <= |lines|
        invariant line <= k
        invariant k <= |lines| + 1 || k == line
        invariant forall j :: line <= j < k ==> !IsOther(d, current, j)
        decreases |lines| + 1 - k
      {
        var f := FileAt(d, k);
        if f != "" && f != current {
          assert line <= k <= |d.lines| && IsOther(d, current, k);
          return k + 1;
        }
        k := k + 1;
      }
      return line;
    }

    method PreviousFileLocation(line: int) returns (r: int)
      requires Valid()
      ensures r == PreviousFile(State(), line)
    {
      var d := State();
      var current := FileAt(d, line);
      var k := line - 2;
      var newFile := "";
      var found := false;
      while k >= 1
        invariant k <= line - 2
        invariant forall j :: k < j <= line - 2 ==> !IsOther(d, current, j)
        invariant !found
        decreases k
      {
        var f := FileAt(d, k);
        if f != "" && f != current {
          newFile, found := f, true;
          break;
        }
        k := k - 1;
      }
      ghost var last := LastOther(d, current, line - 2);
      if !found {
        assert last.None?;
        return 1;
      }
      assert 1 <= k && IsOther(d, current, k);
      assert last.Some? && last.value == k;
      ghost var top := k;
      var oldLine := k;
      k := k - 1;
      while k >= 1
        invariant oldLine == k + 1 && 1 <= oldLine <= top
        invariant forall m :: oldLine <= m <= top ==> FileAt(d, m) == newFile
        decreases k
      {
        var f := FileAt(d, k);
        if f != newFile {
          RunStartUnique(d, newFile, top, oldLine);
          return oldLine + 1;
        }
        oldLine := k;
        k := k - 1;
      }
      RunStartUnique(d, newFile, top, oldLine);
      return 1;
    }
  }
}
