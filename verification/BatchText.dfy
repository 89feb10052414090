/** When a merged file's text has, line for line, the lines `plan_batch` counted in it. */
module BatchText {
  import opened Prelude
  import opened Seeding
  import opened Texts
  import opened LineEdits
  import opened Batches

  lemma SplitConcat(a: seq<Line>, b: seq<Line>)
    ensures WellSplit(a + b) <==>
            AllClean(a) && (if b == [] then WellSplit(a) else AllEnded(a) && WellSplit(b))
  {
    if WellSplit(a + b) {
      forall i | 0 <= i < |a| ensures Clean(a[i]) && (b != [] || i < |a| - 1 ==> Ended(a[i])) {
        assert (a + b)[i] == a[i];
      }
      forall i | 0 <= i < |b| ensures Clean(b[i]) && (i < |b| - 1 ==> Ended(b[i])) {
        assert (a + b)[|a| + i] == b[i];
      }
    }
  }

  predicate RunsOn(h: Hunk<Line>) {
    h.lines != [] && !Ended(h.lines[|h.lines| - 1])
  }

  /** No hunk that leaves its last line open is followed by one that writes a line. */
  ghost predicate NoneRunsOn(hs: seq<Placed<Line>>) {
    forall i, j :: 0 <= i < j < |hs| && hs[j].hunk.lines != [] ==> !RunsOn(hs[i].hunk)
  }

  /** Each hunk alone makes a text's lines of `lines`. */
  ghost predicate EachAlone(lines: seq<Line>, hs: seq<Placed<Line>>) {
    forall i :: 0 <= i < |hs| ==> InBounds(lines, hs[i].hunk) && WellSplit(Splice(lines, hs[i].hunk))
  }

  lemma AloneFacts(lines: seq<Line>, h: Hunk<Line>)
    requires InBounds(lines, h) && WellSplit(Splice(lines, h))
    ensures h.lines != [] ==> AllEnded(lines[..h.start])
    ensures h.end < |lines| ==> AllEnded(h.lines)
    ensures WellSplit(h.lines)
    ensures AllEnded(h.lines) <==> !RunsOn(h)
  {
    SplitConcat(lines[..h.start], h.lines + lines[h.end..]);
    SplitConcat(h.lines, lines[h.end..]);
    assert forall i :: 0 <= i < |h.lines| - 1 ==> Ended(h.lines[i]);
  }

  /** At the end of the file, only later hunks' lines can follow. */
  lemma {:induction false} AtEnd(lines: seq<Line>, hs: seq<Placed<Line>>, at: nat)
    requires at <= |lines| && Chain(lines, hs, at)
    ensures Merged(lines, hs, at) == [] ==> forall i :: 0 <= i < |hs| ==> hs[i].hunk.lines == []
    ensures at == |lines| && Merged(lines, hs, at) != [] ==>
              exists i :: 0 <= i < |hs| && hs[i].hunk.lines != [] && hs[i].hunk.start == |lines|
  {
    if hs != [] {
      var h := hs[0].hunk;
      AtEnd(lines, hs[1..], h.end);
      if at == |lines| && Merged(lines, hs, at) != [] {
        if h.lines != [] {
          assert hs[0].hunk.start == |lines|;
        } else {
          var i :| 0 <= i < |hs[1..]| && hs[1..][i].hunk.lines != [] && hs[1..][i].hunk.start == |lines|;
          assert hs[i + 1] == hs[1..][i];
        }
      }
      if Merged(lines, hs, at) == [] {
        assert Merged(lines, hs[1..], h.end) == [];
        forall i | 0 <= i < |hs| ensures hs[i].hunk.lines == [] {
          assert i > 0 ==> hs[i] == hs[1..][i - 1];
        }
      }
    }
  }

  /** The lines up to the next thing written are all ended. */
  lemma GapEnded(lines: seq<Line>, hs: seq<Placed<Line>>, at: nat)
    requires hs != [] && at <= |lines| && Chain(lines, hs, at) && WellSplit(lines) && EachAlone(lines, hs)
    requires hs[0].hunk.lines + Merged(lines, hs[1..], hs[0].hunk.end) != []
    ensures AllEnded(lines[at..hs[0].hunk.start])
  {
    var h := hs[0].hunk;
    if h.start == |lines| {
      AtEnd(lines, hs[1..], h.end);
      if h.lines != [] {
        AloneFacts(lines, h);
        EndedPart(lines, h.start, at);
      } else {
        var i :| 0 <= i < |hs[1..]| && hs[1..][i].hunk.lines != [] && hs[1..][i].hunk.start == |lines|;
        assert hs[i + 1] == hs[1..][i];
        AloneFacts(lines, hs[i + 1].hunk);
        EndedPart(lines, |lines|, at);
      }
    }
  }

  lemma EndedPart(lines: seq<Line>, upto: nat, at: nat)
    requires at <= upto <= |lines| && AllEnded(lines[..upto])
    ensures AllEnded(lines[at..upto])
  {
    forall i | 0 <= i < upto - at ensures Ended(lines[at..upto][i]) {
      assert lines[at..upto][i] == lines[..upto][at + i];
    }
  }

  lemma PartSplit(lines: seq<Line>, a: nat, b: nat)
    requires a <= b <= |lines| && WellSplit(lines)
    ensures WellSplit(lines[a..b])
  {
  }

  /** Whether the first hunk's own lines join well onto what follows them. */
  lemma FirstJoins(lines: seq<Line>, hs: seq<Placed<Line>>, at: nat)
    requires hs != [] && at <= |lines| && Chain(lines, hs, at) && WellSplit(lines) && EachAlone(lines, hs)
    ensures var h := hs[0].hunk;
            var rest := Merged(lines, hs[1..], h.end);
            (rest == [] || AllEnded(h.lines)) <==>
            forall j :: 1 <= j < |hs| && hs[j].hunk.lines != [] ==> !RunsOn(h)
  {
    var h := hs[0].hunk;
    AloneFacts(lines, h);
    AtEnd(lines, hs[1..], h.end);
    assert forall j :: 1 <= j < |hs| ==> hs[j] == hs[1..][j - 1];
    if h.end == |lines| && Merged(lines, hs[1..], h.end) != [] {
      var i :| 0 <= i < |hs[1..]| && hs[1..][i].hunk.lines != [] && hs[1..][i].hunk.start == |lines|;
      assert hs[i + 1] == hs[1..][i];
    }
  }

  lemma {:induction false} MergedSplits(lines: seq<Line>, hs: seq<Placed<Line>>, at: nat)
    requires at <= |lines| && Chain(lines, hs, at) && WellSplit(lines) && EachAlone(lines, hs)
    ensures AllClean(Merged(lines, hs, at))
    ensures WellSplit(Merged(lines, hs, at)) <==> NoneRunsOn(hs)
  {
    if hs == [] {
      PartSplit(lines, at, |lines|);
      assert lines[at..|lines|] == lines[at..];
    } else {
      var h := hs[0].hunk;
      var (gap, rest) := (lines[at..h.start], Merged(lines, hs[1..], h.end));
      assert forall i :: 0 <= i < |hs[1..]| ==> hs[1..][i] == hs[i + 1];
      MergedSplits(lines, hs[1..], h.end);
      PartSplit(lines, at, h.start);
      AloneFacts(lines, h);
      if h.lines + rest != [] {
        GapEnded(lines, hs, at);
      }
      PiecesSplit(gap, h.lines, rest);
      FirstJoins(lines, hs, at);
      NoneRunsOnCons(hs);
    }
  }

  lemma PiecesSplit(gap: seq<Line>, own: seq<Line>, rest: seq<Line>)
    requires WellSplit(gap) && WellSplit(own) && AllClean(rest) && (own + rest != [] ==> AllEnded(gap))
    ensures AllClean(gap + own + rest)
    ensures WellSplit(gap + own + rest) <==> WellSplit(rest) && (rest == [] || AllEnded(own))
  {
    SplitConcat(gap, own + rest);
    SplitConcat(own, rest);
    assert gap + own + rest == gap + (own + rest);
  }

  lemma NoneRunsOnCons(hs: seq<Placed<Line>>)
    requires hs != []
    ensures NoneRunsOn(hs) <==>
            NoneRunsOn(hs[1..]) && forall j :: 1 <= j < |hs| && hs[j].hunk.lines != [] ==> !RunsOn(hs[0].hunk)
  {
    assert forall i :: 0 <= i < |hs[1..]| ==> hs[1..][i] == hs[i + 1];
    if NoneRunsOn(hs[1..]) && forall j :: 1 <= j < |hs| && hs[j].hunk.lines != [] ==> !RunsOn(hs[0].hunk) {
      forall i, j | 0 <= i < j < |hs| && hs[j].hunk.lines != [] ensures !RunsOn(hs[i].hunk) {
        if i > 0 {
          assert hs[1..][i - 1] == hs[i] && hs[1..][j - 1] == hs[j];
        }
      }
    }
  }

  /** The text written for a file has, line for line, the lines the plan counted, exactly when no
      joined entry that writes its last line there without a newline is followed by another
      entry's lines. */
  lemma TextReadsBack(tree: Tree, faults: seq<Fault>, plan: Plan, f: Path)
    requires IsPlan(tree, faults, plan) && f in plan.texts
    ensures SplitLines(plan.texts[f]) == FileText(tree, faults, f) <==>
            NoneRunsOn(InFile(Joined(tree, faults, |faults|), f, |faults|))
  {
    FileChain(tree, faults, |faults|, f);
    JoinedAlone(tree, faults, f);
    MergedSplits(LinesOf(tree, f), InFile(Joined(tree, faults, |faults|), f, |faults|), 0);
    SplitJoin(FileText(tree, faults, f));
  }

  lemma JoinedAlone(tree: Tree, faults: seq<Fault>, f: Path)
    ensures EachAlone(LinesOf(tree, f), InFile(Joined(tree, faults, |faults|), f, |faults|))
  {
    var joined := Joined(tree, faults, |faults|);
    var hs := InFile(joined, f, |faults|);
    InFileMembers(joined, f, |faults|);
    JoinedOk(tree, faults, |faults|);
    forall i | 0 <= i < |hs|
      ensures InBounds(LinesOf(tree, f), hs[i].hunk) && WellSplit(Splice(LinesOf(tree, f), hs[i].hunk))
    {
      OwnAlone(tree, faults[hs[i].position], joined[hs[i].position], f);
    }
  }

  lemma OwnAlone(tree: Tree, fault: Fault, hunks: Hunks, f: Path)
    requires OwnHunks(tree, fault, hunks) && f in hunks
    ensures InBounds(LinesOf(tree, f), hunks[f]) && WellSplit(Splice(LinesOf(tree, f), hunks[f]))
  {
    HunkIsChange(tree, fault, hunks, f);
    ChangeIsExact(LinesOf(tree, f), SplitLines(Edits(tree, fault, map[]).value[f]));
  }

  /** Where that holds of a file, each entry's region of it names, in the text as written, exactly
      the lines the entry's own fault writes. */
  lemma RegionHoldsInText(tree: Tree, faults: seq<Fault>, plan: Plan, p: nat, r: Region)
    requires IsPlan(tree, faults, plan) && p in plan.regions && r in plan.regions[p]
    requires NoneRunsOn(InFile(Joined(tree, faults, |faults|), r.file, |faults|))
    ensures p < |faults| && Edits(tree, faults[p], map[]).Ok? && r.file in Edits(tree, faults[p], map[]).value
    ensures r.file in plan.texts && 1 <= r.first <= r.last <= |SplitLines(plan.texts[r.file])|
    ensures SplitLines(plan.texts[r.file])[r.first - 1..r.last] ==
            ChangedLines(LinesOf(tree, r.file), SplitLines(Edits(tree, faults[p], map[]).value[r.file])).lines
  {
    RegionHoldsOwnLines(tree, faults, plan, p, r);
    TextReadsBack(tree, faults, plan, r.file);
  }

  // ── two entries that each leave the last line open ─────────────────────────

  lemma {:induction false} JoinOnto(a: seq<Line>, line: Line)
    ensures Join(a + [line]) == Join(a) + line
  {
    if a == [] {
      assert [] + [line] == [line] && line + "" == line && "" + line == line;
      assert [line][1..] == [];
    } else {
      assert (a + [line])[1..] == a[1..] + [line];
      JoinOnto(a[1..], line);
      assert a[0] + (Join(a[1..]) + line) == a[0] + Join(a[1..]) + line;
    }
  }

  lemma {:induction false} HeadOfPrefix(a: seq<Line>, b: seq<Line>)
    ensures CommonHead(a, a + b) == |a|
  {
    if a != [] {
      assert (a + b)[1..] == a[1..] + b;
      HeadOfPrefix(a[1..], b);
    }
  }

  /** A line with no newline, put at the end of a text whose every line has one. */
  ghost predicate OpensLast(text: string, line: Line) {
    AllEnded(SplitLines(text)) && line != "" && '\n' !in line
  }

  lemma OpenLineChange(text: string, line: Line)
    requires OpensLast(text, line)
    ensures var lines := SplitLines(text);
            ChangedLines(lines, SplitLines(text + line)) == Hunk(|lines|, |lines|, [line])
  {
    var lines := SplitLines(text);
    JoinSplit(text);
    JoinOnto(lines, line);
    OpenLineSplits(lines, line);
    AppendChange(lines, line);
  }

  lemma OpenLineSplits(lines: seq<Line>, line: Line)
    requires AllClean(lines) && AllEnded(lines) && line != "" && '\n' !in line
    ensures SplitLines(Join(lines + [line])) == lines + [line]
  {
    SplitJoin(lines + [line]);
  }

  lemma AppendChange(lines: seq<Line>, line: Line)
    ensures ChangedLines(lines, lines + [line]) == Hunk(|lines|, |lines|, [line])
  {
    HeadOfPrefix(lines, [line]);
    assert (lines + [line])[|lines|..] == [line] && lines[|lines|..] == [];
  }

  /** `fault` edits one file, by such a line. */
  ghost predicate Opens(tree: Tree, fault: Fault, f: Path, line: Line) {
    f in tree && OpensLast(tree[f], line) && Edits(tree, fault, map[]) == Ok(map[f := tree[f] + line])
  }

  lemma OpensHunks(tree: Tree, fault: Fault, f: Path, line: Line)
    requires Opens(tree, fault, f, line)
    ensures var at := |LinesOf(tree, f)|; HunksOf(tree, map[f := tree[f] + line]) == map[f := Hunk(at, at, [line])]
    ensures WritesLine(HunksOf(tree, map[f := tree[f] + line]))
  {
    OpenLineChange(tree[f], line);
    var hunks := HunksOf(tree, map[f := tree[f] + line]);
    assert f in hunks && hunks[f].lines != [];
  }

  /** Such an entry joins whatever entries its hunk doesn't clash with. */
  lemma JudgedOpen(tree: Tree, joined: map<nat, Hunks>, fault: Fault, f: Path, line: Line)
    requires Opens(tree, fault, f, line)
    requires var at := |LinesOf(tree, f)|; forall p :: p in joined ==> !Clash(joined[p], map[f := Hunk(at, at, [line])])
    ensures var at := |LinesOf(tree, f)|; Judge(tree, joined, fault) == Ok(map[f := Hunk(at, at, [line])])
  {
    OpensHunks(tree, fault, f, line);
  }

  lemma JoinedTwo(tree: Tree, faults: seq<Fault>, first: Hunks, second: Hunks)
    requires |faults| == 2 && Judge(tree, map[], faults[0]) == Ok(first)
    requires Judge(tree, map[0 := first], faults[1]) == Ok(second)
    ensures Joined(tree, faults, 2) == map[0 := first, 1 := second]
  {
    assert Joined(tree, faults, 0) == map[];
    assert Joined(tree, faults, 1) == map[0 := first];
  }

  lemma BothJoin(tree: Tree, faults: seq<Fault>, f: Path, b: Line, c: Line)
    requires |faults| == 2 && Opens(tree, faults[0], f, b) && Opens(tree, faults[1], f, c)
    ensures var at := |LinesOf(tree, f)|;
            Joined(tree, faults, 2) == map[0 := map[f := Hunk(at, at, [b])], 1 := map[f := Hunk(at, at, [c])]]
  {
    var at := |LinesOf(tree, f)|;
    var (first, second) := (map[f := Hunk(at, at, [b])], map[f := Hunk(at, at, [c])]);
    JudgedOpen(tree, map[], faults[0], f, b);
    JudgedOpen(tree, map[0 := first], faults[1], f, c);
    JoinedTwo(tree, faults, first, second);
  }

  lemma BothRunOn(f: Path, at: nat, b: Line, c: Line)
    requires b != "" && '\n' !in b && c != "" && '\n' !in c
    ensures var joined := map[0 := map[f := Hunk(at, at, [b])], 1 := map[f := Hunk(at, at, [c])]];
            !NoneRunsOn(InFile(joined, f, 2))
  {
    var joined: map<nat, Hunks> := map[0 := map[f := Hunk(at, at, [b])], 1 := map[f := Hunk(at, at, [c])]];
    var hs := InFile(joined, f, 2);
    assert |Collect(joined, f, 1)| == 1 && |Collect(joined, f, 2)| == 2;
    InFileMembers(joined, f, 2);
    assert RunsOn(hs[0].hunk) && hs[1].hunk.lines != [];
  }

  lemma BothInFile(tree: Tree, faults: seq<Fault>, f: Path, b: Line, c: Line)
    requires |faults| == 2 && Opens(tree, faults[0], f, b) && Opens(tree, faults[1], f, c)
    ensures var joined := Joined(tree, faults, 2);
            joined.Keys == {0, 1} && f in TouchedBy(joined) && !NoneRunsOn(InFile(joined, f, 2))
  {
    BothJoin(tree, faults, f, b, c);
    BothRunOn(f, |LinesOf(tree, f)|, b, c);
    assert f in Joined(tree, faults, 2)[0];
  }

  /** Whatever two entries each add such a line to one file, both join, and the text written for
      it hasn't the lines the plan counted. */
  lemma OpenLinesRunTogether(tree: Tree, faults: seq<Fault>, plan: Plan, f: Path, b: Line, c: Line)
    requires |faults| == 2 && Opens(tree, faults[0], f, b) && Opens(tree, faults[1], f, c)
    requires IsPlan(tree, faults, plan)
    ensures Joined(tree, faults, 2).Keys == {0, 1}
    ensures f in plan.texts && SplitLines(plan.texts[f]) != FileText(tree, faults, f)
  {
    BothInFile(tree, faults, f, b, c);
    TextReadsBack(tree, faults, plan, f);
  }

  /** For one: a file of one line, and two faults that each put a word after it. */
  method PlanTwoWords() returns (tree: Tree, faults: seq<Fault>, plan: Plan)
    ensures tree == map[["f"] := "a\n"]
    ensures faults == [[Replace(["f"], "a\n", "a\nb")], [Replace(["f"], "a\n", "a\nc")]]
    ensures IsPlan(tree, faults, plan) && Joined(tree, faults, 2).Keys == {0, 1}
    ensures ["f"] in plan.texts && SplitLines(plan.texts[["f"]]) != FileText(tree, faults, ["f"])
  {
    tree := map[["f"] := "a\n"];
    faults := [[Replace(["f"], "a\n", "a\nb")], [Replace(["f"], "a\n", "a\nc")]];
    plan := PlanBatch(tree, faults);
    assert "a\n" + "b" == "a\nb" && "a\n" + "c" == "a\nc";
    WordOpens(tree, "b");
    WordOpens(tree, "c");
    OpenLinesRunTogether(tree, faults, plan, ["f"], "b", "c");
  }

  lemma WordOpens(tree: Tree, word: string)
    requires tree == map[["f"] := "a\n"] && word != "" && '\n' !in word
    ensures Opens(tree, [Replace(["f"], "a\n", "a\n" + word)], ["f"], word)
  {
    var (text, item) := ("a\n", Replace(["f"], "a\n", "a\n" + word));
    assert [item][1..] == [];
    assert text[|text|..] == "" && Count(text, text) == 1;
    assert ReplaceAll(text, text, text + word) == text + word + "" == text + word;
    assert FirstLine(text) == 2 by {
      assert text[1..] == "\n";
    }
    assert SplitLines(text) == [text[..2]] + SplitLines(text[2..]) && text[2..] == "";
  }
}
