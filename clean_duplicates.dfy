/**
 * clean_duplicates.py: locate the first `cleanupIceBlocksArray` method that
 * starts after line index 5000 of GameScene.js, find its closing line by
 * per-line brace counting, and splice a fixed three-line comment over it.
 * The result goes to `<file>.fixed`; the source file is never rewritten.
 */
module CleanDuplicates {

  const Marker: string := "cleanupIceBlocksArray"
  const MinStart: int := 5000
  const FixedSuffix: string := ".fixed"

  /** The three lines written in place of the duplicate method. */
  const Replacement: seq<string> := [
    "    // This method has been consolidated with the implementation at line 1717\n",
    "    // to eliminate code duplication\n",
    "\n"
  ]

  /** Python's `t in s` for strings: `t` occurs somewhere in `s`. */
  predicate Contains(s: string, t: string)
    decreases |s|
  {
    |t| <= |s| && (s[..|t|] == t || Contains(s[1..], t))
  }

  /** A one-character pattern occurs exactly when that character is in the string. */
  lemma {:induction false} ContainsChar(s: string, c: char)
    ensures Contains(s, [c]) <==> c in s
    decreases |s|
  {
    if |s| > 0 {
      ContainsChar(s[1..], c);
      assert s == [s[0]] + s[1..];
    }
  }

  /** A line that may open the duplicate method (the threshold is checked separately). */
  predicate IsCandidate(line: string, marker: string)
  {
    Contains(line, marker) && Contains(line, "{")
  }

  /** Change of the brace counter caused by one line: '{' and '}' are counted independently. */
  function Delta(line: string): int
  {
    (if Contains(line, "{") then 1 else 0) - (if Contains(line, "}") then 1 else 0)
  }

  /** Brace depth after processing lines start+1 .. j, starting from depth 1 at `start`. */
  function Depth(lines: seq<string>, start: nat, j: nat): int
    requires start <= j < |lines|
    decreases j - start
  {
    if j == start then 1 else Depth(lines, start, j - 1) + Delta(lines[j])
  }

  /** Index of the first candidate line at or after `i` whose index exceeds `minStart`, or -1. */
  function CandidateFrom(lines: seq<string>, marker: string, minStart: int, i: nat): (r: int)
    requires i <= |lines|
    ensures r == -1 || (i <= r < |lines| && r > minStart && IsCandidate(lines[r], marker))
    ensures r == -1 <==> forall k :: i <= k < |lines| ==> !(k > minStart && IsCandidate(lines[k], marker))
    ensures r != -1 ==> forall k :: i <= k < r ==> !(k > minStart && IsCandidate(lines[k], marker))
    decreases |lines| - i
  {
    if i == |lines| then -1
    else if IsCandidate(lines[i], marker) && i > minStart then i
    else CandidateFrom(lines, marker, minStart, i + 1)
  }

  /** Index of the first line j' >= j at which the counter (worth `depth` before line j) reaches 0, or -1. */
  function ClosingFrom(lines: seq<string>, j: nat, depth: int): int
    requires j <= |lines|
    decreases |lines| - j
  {
    if j == |lines| then -1
    else if depth + Delta(lines[j]) == 0 then j
    else ClosingFrom(lines, j + 1, depth + Delta(lines[j]))
  }

  /** The end index the script computes for a given start (or -1 when there is no start). */
  function EndFor(lines: seq<string>, start: int): int
    requires -1 <= start < |lines|
  {
    if start == -1 then -1 else ClosingFrom(lines, start + 1, 1)
  }

  /** lines[:start] + replacement + lines[end+1:], Python's slice assignment. */
  function Spliced(lines: seq<string>, start: nat, end: nat, replacement: seq<string>): seq<string>
    requires start <= end < |lines|
  {
    lines[..start] + replacement + lines[end + 1..]
  }

  /** The file the script writes: always `<path>.fixed`, never the input path. */
  function OutputPath(path: string): (r: string)
    ensures |r| == |path| + |FixedSuffix| && r[..|path|] == path
    ensures r != path
  {
    path + FixedSuffix
  }

  /**
   * The scan loop: the outer loop stops at the first candidate; the inner loop
   * counts braces until the depth returns to 0.
   */
  method FindBlock(lines: seq<string>, marker: string, minStart: int) returns (start: int, end: int)
    ensures start == CandidateFrom(lines, marker, minStart, 0)
    ensures end == EndFor(lines, start)
  {
    start := -1;
    end := -1;
    var i := 0;
    while i < |lines|
      invariant 0 <= i <= |lines|
      invariant CandidateFrom(lines, marker, minStart, 0) == CandidateFrom(lines, marker, minStart, i)
      decreases |lines| - i
    {
      if Contains(lines[i], marker) && Contains(lines[i], "{") && i > minStart {
        start := i;
        var braceCount := 1;
        var j := i + 1;
        while j < |lines|
          invariant i + 1 <= j <= |lines|
          invariant end == -1
          invariant ClosingFrom(lines, i + 1, 1) == ClosingFrom(lines, j, braceCount)
          decreases |lines| - j
        {
          if Contains(lines[j], "{") {
            braceCount := braceCount + 1;
          }
          if Contains(lines[j], "}") {
            braceCount := braceCount - 1;
          }
          if braceCount == 0 {
            end := j;
            break;
          }
          j := j + 1;
        }
        return;
      }
      i := i + 1;
    }
  }

  /** What the script does with a file: the contents of `<path>.fixed`, or nothing written. */
  datatype Outcome = Written(path: string, contents: seq<string>) | NotWritten

  method Clean(filePath: string, lines: seq<string>) returns (r: Outcome)
    ensures var s := CandidateFrom(lines, Marker, MinStart, 0);
            var e := EndFor(lines, s);
            if s != -1 && e != -1 then
              s < e < |lines| && r == Written(OutputPath(filePath), Spliced(lines, s, e, Replacement))
            else r == NotWritten
  {
    var start, end := FindBlock(lines, Marker, MinStart);
    if start != -1 && end != -1 {
      ClosingFromBounds(lines, start + 1, 1);
      var fixed := lines[..start] + Replacement + lines[end + 1..];
      r := Written(filePath + FixedSuffix, fixed);
    } else {
      r := NotWritten;
    }
  }

  lemma {:induction false} ClosingFromBounds(lines: seq<string>, j: nat, depth: int)
    requires j <= |lines|
    ensures ClosingFrom(lines, j, depth) == -1 || j <= ClosingFrom(lines, j, depth) < |lines|
    decreases |lines| - j
  {
    if j < |lines| && depth + Delta(lines[j]) != 0 {
      ClosingFromBounds(lines, j + 1, depth + Delta(lines[j]));
    }
  }

  /**
   * The closing index is exactly the first later line at which the depth
   * (1 at the start line, then +1 per line containing '{' and -1 per line
   * containing '}') is 0; -1 when the depth never returns to 0.
   */
  lemma {:induction false} ClosingFromIsFirstZero(lines: seq<string>, start: nat, j: nat, depth: int)
    requires start < j <= |lines|
    requires depth == Depth(lines, start, j - 1)
    ensures var e := ClosingFrom(lines, j, depth);
            (e == -1 <==> forall k :: j <= k < |lines| ==> Depth(lines, start, k) != 0) &&
            (e != -1 ==> j <= e < |lines| && Depth(lines, start, e) == 0 &&
                         forall k :: j <= k < e ==> Depth(lines, start, k) != 0)
    decreases |lines| - j
  {
    if j < |lines| {
      assert Depth(lines, start, j) == depth + Delta(lines[j]);
      if depth + Delta(lines[j]) != 0 {
        ClosingFromIsFirstZero(lines, start, j + 1, depth + Delta(lines[j]));
      }
    }
  }

  /** When a block is found, its end lies strictly after its start, and the block is balanced. */
  lemma EndAfterStart(lines: seq<string>, marker: string, minStart: int)
    ensures var s := CandidateFrom(lines, marker, minStart, 0);
            var e := EndFor(lines, s);
            e != -1 ==> 0 <= s < e < |lines| && Depth(lines, s, e) == 0 &&
                        forall k :: s < k < e ==> Depth(lines, s, k) != 0
  {
    var s := CandidateFrom(lines, marker, minStart, 0);
    if s != -1 {
      ClosingFromIsFirstZero(lines, s, s + 1, 1);
    }
  }

  /** A line holding both '{' and '}' leaves the brace counter unchanged. */
  lemma BothBracesKeepDepth(lines: seq<string>, start: nat, j: nat)
    requires start < j < |lines|
    requires Contains(lines[j], "{") && Contains(lines[j], "}")
    ensures Depth(lines, start, j) == Depth(lines, start, j - 1)
  {
  }

  /**
   * The splice keeps every line before the block, then the three fixed lines,
   * then every line after the block, in order; its length is
   * len - (end - start + 1) + 3.
   */
  lemma SplicedShape(lines: seq<string>, start: nat, end: nat)
    requires start <= end < |lines|
    ensures var out := Spliced(lines, start, end, Replacement);
            |out| == |lines| - (end - start + 1) + 3 &&
            (forall k :: 0 <= k < start ==> out[k] == lines[k]) &&
            out[start..start + 3] == Replacement &&
            (forall k :: end < k < |lines| ==> out[k - (end - start + 1) + 3] == lines[k])
  {
    var out := Spliced(lines, start, end, Replacement);
    assert out[start..start + 3] == Replacement by {
      assert out == lines[..start] + Replacement + lines[end + 1..];
    }
  }

  /**
   * Only the first candidate is examined: here the first candidate (line 0)
   * never rebalances, so nothing is found although the later candidate at
   * line 2 closes at line 3.
   */
  lemma OnlyFirstCandidateExamined()
    ensures var lines := ["f{\n", "{\n", "f{\n", "}\n"];
            CandidateFrom(lines, "f", -1, 0) == 0 &&
            EndFor(lines, 0) == -1 &&
            CandidateFrom(lines, "f", -1, 2) == 2 &&
            EndFor(lines, 2) == 3
  {
    var lines := ["f{\n", "{\n", "f{\n", "}\n"];
    ContainsChar(lines[0], 'f');
    ContainsChar(lines[0], '{');
    forall k | 1 <= k < 4
      ensures Delta(lines[k]) == (if k == 3 then -1 else 1)
    {
      ContainsChar(lines[k], '{');
      ContainsChar(lines[k], '}');
    }
  }
}
