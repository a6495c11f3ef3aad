/**
 * The few JavaScript string and array built-ins that `splitMessage` and `display` rely on,
 * stated over `seq<char>`: `lastIndexOf` with a one-character needle,
 * `Array.prototype.join`, concatenation of a list of strings, and the
 * splitting at a separator that undoes `join`.
 */
module Strings {

  /**
   * `s.lastIndexOf(c, from)` for a one-character needle and a position
   * `from >= 0`: the largest index `i <= from` holding `c`, or -1. A
   * position past the end is clamped to the last index, as JavaScript does.
   */
  function LastIndexOf(s: string, c: char, from: nat): (r: int)
    ensures -1 <= r <= from && r < |s|
    ensures 0 <= r ==> s[r] == c
    decreases from
  {
    if from >= |s| then
      (if |s| == 0 then -1 else LastIndexOf(s, c, |s| - 1))
    else if s[from] == c then from
    else if from == 0 then -1
    else LastIndexOf(s, c, from - 1)
  }

  /** No occurrence of `c` lies after the one `LastIndexOf` finds, up to `from`. */
  lemma {:induction false} LastIndexOfIsLast(s: string, c: char, from: nat)
    ensures forall j :: LastIndexOf(s, c, from) < j <= from && j < |s| ==> s[j] != c
    decreases from
  {
    if from >= |s| {
      if |s| > 0 { LastIndexOfIsLast(s, c, |s| - 1); }
    } else if s[from] != c && from > 0 {
      LastIndexOfIsLast(s, c, from - 1);
    }
  }

  /** The strings of `parts` one after another. */
  function Concat(parts: seq<string>): string {
    if parts == [] then "" else parts[0] + Concat(parts[1..])
  }

  lemma ConcatCons(first: string, rest: seq<string>)
    ensures Concat([first] + rest) == first + Concat(rest)
  {
    assert ([first] + rest)[1..] == rest;
  }

  lemma ConcatSingle(part: string)
    ensures Concat([part]) == part
  {
    ConcatCons(part, []);
    assert [part] + [] == [part];
  }

  /** Cutting the suffix of `s` from `i` at `j`. */
  lemma SliceCut(s: string, i: nat, j: nat)
    requires i <= j <= |s|
    ensures s[i..j] + s[j..] == s[i..]
  {
  }

  /** `lines.join(sep)`: the lines with one `sep` between neighbours. */
  function Join(lines: seq<string>, sep: char): string {
    if |lines| == 0 then ""
    else if |lines| == 1 then lines[0]
    else lines[0] + [sep] + Join(lines[1..], sep)
  }

  /** `s.split(sep)`: the maximal pieces of `s` between occurrences of `sep`. */
  function SplitOn(s: string, sep: char): (r: seq<string>)
    ensures |r| >= 1
  {
    if |s| == 0 then [""]
    else
      var rest := SplitOn(s[1..], sep);
      if s[0] == sep then [""] + rest
      else [[s[0]] + rest[0]] + rest[1..]
  }

  /** `sep` does not occur in `s`. */
  predicate Free(s: string, sep: char) {
    forall i :: 0 <= i < |s| ==> s[i] != sep
  }

  /** Splitting a piece free of `sep`, followed by `sep` and more text. */
  lemma {:induction false} SplitOnPrefix(a: string, b: string, sep: char)
    requires Free(a, sep)
    ensures SplitOn(a + [sep] + b, sep) == [a] + SplitOn(b, sep)
  {
    if |a| == 0 {
      assert a + [sep] + b == [sep] + b;
      assert ([sep] + b)[1..] == b;
    } else {
      assert (a + [sep] + b)[1..] == a[1..] + [sep] + b;
      assert Free(a[1..], sep) by {
        forall i | 0 <= i < |a[1..]| ensures a[1..][i] != sep { assert a[1..][i] == a[i + 1]; }
      }
      SplitOnPrefix(a[1..], b, sep);
      assert [a[0]] + a[1..] == a;
    }
  }

  /** A piece free of `sep` splits to itself. */
  lemma {:induction false} SplitOnFree(a: string, sep: char)
    requires Free(a, sep)
    ensures SplitOn(a, sep) == [a]
  {
    if |a| > 0 {
      assert Free(a[1..], sep) by {
        forall i | 0 <= i < |a[1..]| ensures a[1..][i] != sep { assert a[1..][i] == a[i + 1]; }
      }
      SplitOnFree(a[1..], sep);
      assert [a[0]] + a[1..] == a;
    }
  }

  /**
   * Splitting undoes joining: a non-empty list of lines none of which
   * contains `sep` comes back from its join unchanged.
   */
  lemma {:induction false} SplitOnJoin(lines: seq<string>, sep: char)
    requires |lines| >= 1
    requires forall k :: 0 <= k < |lines| ==> Free(lines[k], sep)
    ensures SplitOn(Join(lines, sep), sep) == lines
  {
    if |lines| == 1 {
      SplitOnFree(lines[0], sep);
    } else {
      SplitOnJoin(lines[1..], sep);
      SplitOnPrefix(lines[0], Join(lines[1..], sep), sep);
      assert [lines[0]] + lines[1..] == lines;
    }
  }
}
