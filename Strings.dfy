/**
 * The handful of Python string operations the renderer relies on, written
 * out on `seq<char>`: `str.split`, `str.join`, `str.replace`, slicing with
 * clamped bounds, `str(int)`, right-aligned integer formatting and string
 * ordering.  One character of a `string` stands for one byte of the
 * Python 2 `str` the renderer works on.
 */
module Strings {

  /** `s.split(sep)`: the pieces between separators, always at least one. */
  function Split(s: string, sep: char): (parts: seq<string>)
    ensures |parts| >= 1
    decreases |s|
  {
    if |s| == 0 then [""]
    else
      var rest := Split(s[1..], sep);
      if s[0] == sep then [""] + rest
      else [[s[0]] + rest[0]] + rest[1..]
  }

  /** No piece of a split holds the separator. */
  lemma {:induction false} SplitPieces(s: string, sep: char)
    ensures forall i :: 0 <= i < |Split(s, sep)| ==> sep !in Split(s, sep)[i]
    decreases |s|
  {
    if |s| > 0 {
      SplitPieces(s[1..], sep);
      var rest := Split(s[1..], sep);
      var parts := Split(s, sep);
      if s[0] == sep {
        assert parts == [""] + rest;
        forall i | 0 <= i < |parts| ensures sep !in parts[i] {
          if i > 0 {
            assert parts[i] == rest[i - 1];
          }
        }
      } else {
        assert parts == [[s[0]] + rest[0]] + rest[1..];
        forall i | 0 <= i < |parts| ensures sep !in parts[i] {
          if i > 0 {
            assert parts[i] == rest[i];
          } else {
            assert sep !in rest[0];
          }
        }
      }
    }
  }

  /** `sep.join(parts)`. */
  function Join(parts: seq<string>, sep: char): string
    decreases |parts|
  {
    if |parts| == 0 then ""
    else if |parts| == 1 then parts[0]
    else parts[0] + [sep] + Join(parts[1..], sep)
  }

  /** Number of occurrences of `c` in `s`. */
  function Count(s: string, c: char): nat
    decreases |s|
  {
    if |s| == 0 then 0 else (if s[0] == c then 1 else 0) + Count(s[1..], c)
  }

  /** Joining the pieces of a split gives back the string. */
  lemma {:induction false} JoinSplit(s: string, sep: char)
    ensures Join(Split(s, sep), sep) == s
    decreases |s|
  {
    if |s| > 0 {
      var rest := Split(s[1..], sep);
      JoinSplit(s[1..], sep);
      if s[0] == sep {
        assert Split(s, sep) == [""] + rest;
        assert s == [sep] + s[1..];
      } else {
        var parts := Split(s, sep);
        assert parts == [[s[0]] + rest[0]] + rest[1..];
        if |rest| == 1 {
          assert s == [s[0]] + s[1..];
        } else {
          assert parts[1..] == rest[1..];
          assert Join(rest, sep) == rest[0] + [sep] + Join(rest[1..], sep);
          assert s == [s[0]] + s[1..];
        }
      }
    }
  }

  /** Splitting a join of separator-free pieces gives back the pieces. */
  lemma {:induction false} SplitJoin(parts: seq<string>, sep: char)
    requires |parts| >= 1
    requires forall i :: 0 <= i < |parts| ==> sep !in parts[i]
    ensures Split(Join(parts, sep), sep) == parts
    decreases |parts|, |parts[0]|
  {
    var p := parts[0];
    if |p| == 0 {
      if |parts| > 1 {
        SplitJoin(parts[1..], sep);
        var j := Join(parts, sep);
        assert j == [sep] + Join(parts[1..], sep);
        assert j[1..] == Join(parts[1..], sep);
        assert parts == [""] + parts[1..];
      }
    } else {
      var parts' := [p[1..]] + parts[1..];
      assert forall i :: 0 <= i < |parts'| ==> sep !in parts'[i] by {
        forall i | 0 <= i < |parts'| ensures sep !in parts'[i] {
          if i == 0 {
            assert forall c :: c in p[1..] ==> c in p;
          } else {
            assert parts'[i] == parts[i];
          }
        }
      }
      SplitJoin(parts', sep);
      var j := Join(parts, sep);
      JoinConsFirst(p, parts[1..], sep);
      assert j == [p[0]] + Join(parts', sep);
      assert j[0] == p[0] && j[1..] == Join(parts', sep);
      assert p[0] != sep by { assert p[0] in p; }
      assert [p[0]] + p[1..] == p;
      assert [[p[0]] + p[1..]] + parts[1..] == parts;
    }
  }

  /** Taking the first character off the first piece takes it off the join. */
  lemma {:induction false} JoinConsFirst(p: string, rest: seq<string>, sep: char)
    requires |p| > 0
    ensures Join([p] + rest, sep) == [p[0]] + Join([p[1..]] + rest, sep)
  {
    if |rest| > 0 {
      assert ([p] + rest)[1..] == rest;
      assert ([p[1..]] + rest)[1..] == rest;
    }
  }

  /** Number of pieces = number of separators + 1. */
  lemma {:induction false} SplitCount(s: string, sep: char)
    ensures |Split(s, sep)| == Count(s, sep) + 1
    decreases |s|
  {
    if |s| > 0 {
      SplitCount(s[1..], sep);
    }
  }

  /** A join of two non-empty lists puts one separator between the joins. */
  lemma {:induction false} JoinAppend(a: seq<string>, b: seq<string>, sep: char)
    requires |a| >= 1 && |b| >= 1
    ensures Join(a + b, sep) == Join(a, sep) + [sep] + Join(b, sep)
    decreases |a|
  {
    if |a| == 1 {
      assert (a + b)[1..] == b;
    } else {
      assert (a + b)[1..] == a[1..] + b;
      JoinAppend(a[1..], b, sep);
    }
  }

  /** The first piece of `b` appended to the last element of `a`, the other pieces after it. */
  function Merge(a: seq<string>, b: seq<string>): (r: seq<string>)
    requires |a| >= 1 && |b| >= 1
    ensures |r| == |a| + |b| - 1
  {
    a[..|a| - 1] + [a[|a| - 1] + b[0]] + b[1..]
  }

  /** Merging is associative. */
  lemma {:induction false} MergeTwice(a: seq<string>, b: seq<string>, c: seq<string>)
    requires |a| >= 1 && |b| >= 1 && |c| >= 1
    ensures Merge(Merge(a, b), c) == Merge(a, Merge(b, c))
  {
    var n, m := |a|, |b| - 1;
    var l := Merge(a, b);
    var bc := Merge(b, c);
    if m == 0 {
      assert l[..|l| - 1] == a[..n - 1];
      assert bc == [b[0] + c[0]] + c[1..];
      assert a[n - 1] + b[0] + c[0] == a[n - 1] + (b[0] + c[0]);
    } else {
      assert l[..|l| - 1] == a[..n - 1] + [a[n - 1] + b[0]] + b[1..m];
      assert bc[0] == b[0];
      assert bc[1..] == b[1..m] + [b[m] + c[0]] + c[1..];
    }
  }

  /**
   * Appending the first piece of `b` to the last element of `a` and the
   * other pieces as new elements appends `Join(b)` to `Join(a)`.
   */
  lemma {:induction false} MergeLastJoin(a: seq<string>, b: seq<string>, sep: char)
    requires |a| >= 1 && |b| >= 1
    ensures Join(Merge(a, b), sep) == Join(a, sep) + Join(b, sep)
  {
    var n := |a|;
    var x, y := a[n - 1], b[0];
    var mid := [x + y] + b[1..];
    assert Join(mid, sep) == x + Join(b, sep) by {
      if |b| > 1 {
        assert mid[1..] == b[1..];
        assert Join(b, sep) == y + [sep] + Join(b[1..], sep);
      }
    }
    if n == 1 {
      assert a[..n - 1] + [x + y] + b[1..] == mid;
    } else {
      assert a[..n - 1] + [x + y] + b[1..] == a[..n - 1] + mid;
      JoinAppend(a[..n - 1], mid, sep);
      JoinAppend(a[..n - 1], [x], sep);
      assert a[..n - 1] + [x] == a;
    }
  }

  /** The pieces of `a + b`: the last piece of `a` joins the first of `b`. */
  lemma {:induction false} SplitConcat(a: string, b: string, sep: char)
    ensures Split(a + b, sep) == Merge(Split(a, sep), Split(b, sep))
  {
    var pa, pb := Split(a, sep), Split(b, sep);
    var m := |pa| - 1;
    var merged := pa[..m] + [pa[m] + pb[0]] + pb[1..];
    SplitPieces(a, sep);
    SplitPieces(b, sep);
    forall i | 0 <= i < |merged| ensures sep !in merged[i] {
      if i < m { assert merged[i] == pa[i]; }
      else if i == m { assert merged[i] == pa[m] + pb[0]; }
      else { assert merged[i] == pb[i - m]; }
    }
    MergeLastJoin(pa, pb, sep);
    JoinSplit(a, sep);
    JoinSplit(b, sep);
    SplitJoin(merged, sep);
  }

  /** `' ' * n`. */
  function Spaces(n: int): (s: string)
    ensures |s| == if n < 0 then 0 else n
    ensures forall i :: 0 <= i < |s| ==> s[i] == ' '
  {
    if n <= 0 then "" else seq(n, _ => ' ')
  }

  /** Python's `s[lo:hi]` for non-negative bounds: both bounds clamp to `|s|`. */
  function Slice(s: string, lo: nat, hi: nat): (r: string)
    ensures |r| <= |s|
    ensures hi <= lo ==> r == ""
    ensures lo <= hi <= |s| ==> r == s[lo..hi]
    ensures lo <= |s| <= hi ==> r == s[lo..]
    ensures |s| <= lo ==> r == ""
  {
    var a := if lo < |s| then lo else |s|;
    var b := if hi < |s| then hi else |s|;
    if b <= a then "" else s[a..b]
  }

  function DigitChar(d: nat): char
    requires d < 10
  {
    "0123456789"[d]
  }

  /** `str(n)` for a non-negative integer: its decimal digits. */
  function NatToString(n: nat): (s: string)
    ensures 1 <= |s|
    ensures forall i :: 0 <= i < |s| ==> '0' <= s[i] <= '9'
    decreases n
  {
    if n < 10 then [DigitChar(n)] else NatToString(n / 10) + [DigitChar(n % 10)]
  }

  /** `str(i)` for any integer: a minus sign, then the digits. */
  function IntToString(i: int): (s: string)
    ensures 1 <= |s|
    ensures i >= 0 ==> s == NatToString(i)
    ensures i < 0 ==> s == "-" + NatToString(-i)
  {
    if i < 0 then "-" + NatToString(-i) else NatToString(i)
  }

  /** The value of a decimal digit; any other character reads as 0. */
  function DigitValue(c: char): nat
  {
    if '0' <= c <= '9' then (c as int - '0' as int) as nat else 0
  }

  /** Reads a string of decimal digits from left to right, as `int(s)` does. */
  function DigitsValue(s: string): nat
    decreases |s|
  {
    if |s| == 0 then 0 else DigitsValue(s[..|s| - 1]) * 10 + DigitValue(s[|s| - 1])
  }

  lemma {:induction false} DigitCharValue(d: nat)
    requires d < 10
    ensures DigitValue(DigitChar(d)) == d
  {
    if d == 0 { assert DigitChar(d) == '0'; }
    else if d == 1 { assert DigitChar(d) == '1'; }
    else if d == 2 { assert DigitChar(d) == '2'; }
    else if d == 3 { assert DigitChar(d) == '3'; }
    else if d == 4 { assert DigitChar(d) == '4'; }
    else if d == 5 { assert DigitChar(d) == '5'; }
    else if d == 6 { assert DigitChar(d) == '6'; }
    else if d == 7 { assert DigitChar(d) == '7'; }
    else if d == 8 { assert DigitChar(d) == '8'; }
    else { assert DigitChar(d) == '9'; }
  }

  /**
   * `str(n)` reads back as `n` and has no leading zero unless `n` is 0, so
   * it is the decimal representation of `n`.
   */
  lemma {:induction false} NatToStringValue(n: nat)
    ensures DigitsValue(NatToString(n)) == n
    ensures n > 0 ==> NatToString(n)[0] != '0'
    decreases n
  {
    if n < 10 {
      DigitCharValue(n);
      assert NatToString(n)[..0] == [];
    } else {
      NatToStringValue(n / 10);
      DigitCharValue(n % 10);
      var s := NatToString(n);
      assert s[..|s| - 1] == NatToString(n / 10);
      assert s[|s| - 1] == DigitChar(n % 10);
      assert s[0] == NatToString(n / 10)[0];
    }
  }

  /** `str(i)` reads back as `i`: its digits give the magnitude, after a minus sign when `i` is negative. */
  lemma {:induction false} IntToStringValue(i: int)
    ensures i >= 0 ==> DigitsValue(IntToString(i)) == i
    ensures i < 0 ==> IntToString(i)[0] == '-' && DigitsValue(IntToString(i)[1..]) == -i
  {
    if i >= 0 {
      NatToStringValue(i);
    } else {
      NatToStringValue(-i);
      assert IntToString(i)[1..] == NatToString(-i);
    }
  }

  /** A larger number never has fewer digits. */
  lemma {:induction false} NatToStringMonotone(m: nat, n: nat)
    requires m <= n
    ensures |NatToString(m)| <= |NatToString(n)|
    decreases n
  {
    if 10 <= m {
      NatToStringMonotone(m / 10, n / 10);
    }
  }

  /** `'{:{w}d}'.format(n)`: `str(n)` right-aligned in a field of width `w`. */
  function PadLeft(s: string, w: nat): (r: string)
    ensures |r| == if |s| < w then w else |s|
    ensures s <= r[|r| - |s|..] && r[|r| - |s|..] == s
    ensures forall i :: 0 <= i < |r| - |s| ==> r[i] == ' '
  {
    if |s| < w then Spaces(w - |s|) + s else s
  }

  /** Python 2 `cmp` on `str`: byte-wise lexicographic order. */
  predicate StrLess(a: string, b: string)
    decreases |a|
  {
    if |a| == 0 then |b| > 0
    else if |b| == 0 then false
    else if a[0] != b[0] then a[0] < b[0]
    else StrLess(a[1..], b[1..])
  }

  lemma {:induction false} StrLessIrreflexive(a: string)
    ensures !StrLess(a, a)
    decreases |a|
  {
    if |a| > 0 {
      StrLessIrreflexive(a[1..]);
    }
  }

  lemma {:induction false} StrLessTransitive(a: string, b: string, c: string)
    requires StrLess(a, b) && StrLess(b, c)
    ensures StrLess(a, c)
    decreases |a|
  {
    if |a| > 0 && |b| > 0 && |c| > 0 && a[0] == b[0] && b[0] == c[0] {
      StrLessTransitive(a[1..], b[1..], c[1..]);
    }
  }

  lemma {:induction false} StrLessTotal(a: string, b: string)
    requires a != b
    ensures StrLess(a, b) || StrLess(b, a)
    decreases |a|
  {
    if |a| > 0 && |b| > 0 && a[0] == b[0] {
      assert a == [a[0]] + a[1..] && b == [b[0]] + b[1..];
      StrLessTotal(a[1..], b[1..]);
    }
  }

  /** `s.replace(pat, rep)`: every non-overlapping occurrence, left to right. */
  function Replace(s: string, pat: string, rep: string): string
    requires |pat| > 0
    decreases |s|
  {
    if |s| == 0 then ""
    else if pat <= s then rep + Replace(s[|pat|..], pat, rep)
    else [s[0]] + Replace(s[1..], pat, rep)
  }

  /** A string that never contains the pattern's first character is left as it is. */
  lemma {:induction false} ReplaceAbsent(s: string, pat: string, rep: string)
    requires |pat| > 0
    requires pat[0] !in s
    ensures Replace(s, pat, rep) == s
    decreases |s|
  {
    if |s| > 0 {
      assert s[0] in s;
      assert pat[0] !in s[1..] by {
        assert forall c :: c in s[1..] ==> c in s;
      }
      ReplaceAbsent(s[1..], pat, rep);
      assert s == [s[0]] + s[1..];
    }
  }

  /** A string in which the pattern occurs nowhere is left as it is. */
  lemma {:induction false} ReplaceNoMatch(s: string, pat: string, rep: string)
    requires |pat| > 0
    requires forall i :: 0 <= i < |s| ==> !(pat <= s[i..])
    ensures Replace(s, pat, rep) == s
    decreases |s|
  {
    if |s| > 0 {
      assert !(pat <= s[0..]) && s[0..] == s;
      forall i | 0 <= i < |s[1..]|
        ensures !(pat <= s[1..][i..])
      {
        assert s[1..][i..] == s[i + 1..];
      }
      ReplaceNoMatch(s[1..], pat, rep);
      assert s == [s[0]] + s[1..];
    }
  }


}
