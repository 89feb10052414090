/** Text by lines, as Python's `splitlines(keepends=True)` and `"".join` read and write it.

    A newline ends a line and stays on it, so a text's lines joined are the text. The other way
    round holds for lines only the last of which lacks its newline, which is what a text splits
    into, and for no others. */
module Texts {

  // A line with its end, as `splitlines(keepends=True)` gives it; a newline ends a line.
  type Line = string

  // ── splitting and joining ──────────────────────────────────────────────────

  predicate Ended(line: Line) {
    line != "" && line[|line| - 1] == '\n'
  }

  /** A line has a character, and a newline nowhere but at its end. */
  predicate Clean(line: Line) {
    line != "" && forall i :: 0 <= i < |line| - 1 ==> line[i] != '\n'
  }

  ghost predicate AllClean(lines: seq<Line>) {
    forall i :: 0 <= i < |lines| ==> Clean(lines[i])
  }

  ghost predicate AllEnded(lines: seq<Line>) {
    forall i :: 0 <= i < |lines| ==> Ended(lines[i])
  }

  /** Lines a text splits into: only the last may lack its newline. */
  ghost predicate WellSplit(lines: seq<Line>) {
    AllClean(lines) && forall i :: 0 <= i < |lines| - 1 ==> Ended(lines[i])
  }

  function FirstLine(text: string): (n: nat)
    requires text != ""
    ensures 0 < n <= |text| && Clean(text[..n]) && (n < |text| ==> Ended(text[..n]))
  {
    if text[0] == '\n' || |text| == 1 then 1
    else
      var n := 1 + FirstLine(text[1..]);
      assert text[..n] == [text[0]] + text[1..][..n - 1];
      n
  }

  function SplitLines(text: string): (lines: seq<Line>)
    ensures WellSplit(lines)
    ensures lines == [] <==> text == ""
    decreases |text|
  {
    if text == "" then []
    else
      var n := FirstLine(text);
      [text[..n]] + SplitLines(text[n..])
  }

  function Join(lines: seq<Line>): string {
    if lines == [] then "" else lines[0] + Join(lines[1..])
  }

  lemma JoinCons(line: Line, rest: seq<Line>)
    ensures Join([line] + rest) == line + Join(rest)
  {
    assert ([line] + rest)[1..] == rest;
  }

  lemma {:induction false} JoinSplit(text: string)
    ensures Join(SplitLines(text)) == text
    decreases |text|
  {
    if text != "" {
      var n := FirstLine(text);
      JoinSplit(text[n..]);
      JoinCons(text[..n], SplitLines(text[n..]));
    }
  }

  lemma {:induction false} FirstLineIs(line: Line, rest: string)
    requires Clean(line) && (rest != "" ==> Ended(line))
    ensures FirstLine(line + rest) == |line|
  {
    if |line| > 1 {
      assert (line + rest)[1..] == line[1..] + rest;
      FirstLineIs(line[1..], rest);
    }
  }

  /** Lines read back from their text just when only the last lacks its newline. */
  lemma {:induction false} SplitJoin(lines: seq<Line>)
    requires AllClean(lines)
    ensures SplitLines(Join(lines)) == lines <==> WellSplit(lines)
  {
    if WellSplit(lines) {
      if lines != [] {
        var rest := Join(lines[1..]);
        assert forall i :: 0 <= i < |lines[1..]| ==> lines[1..][i] == lines[i + 1];
        SplitJoin(lines[1..]);
        FirstLineIs(lines[0], rest);
        assert (lines[0] + rest)[..|lines[0]|] == lines[0] && (lines[0] + rest)[|lines[0]|..] == rest;
      }
    }
  }
}
