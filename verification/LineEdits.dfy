/** What one edit of a sequence of lines changes (`changed_lines` of tools/check-guards-fire.py),
    and several edits of one file merged into it (the second half of `plan_batch`). */
module LineEdits {

  // ── what one edit changes ──────────────────────────────────────────────────

  /** Lines `[start, end)` give way to `lines`. */
  datatype Hunk<T> = Hunk(start: nat, end: nat, lines: seq<T>)

  function CommonHead<T(==)>(a: seq<T>, b: seq<T>): (n: nat)
    ensures n <= |a| && n <= |b| && a[..n] == b[..n]
    ensures n < |a| && n < |b| ==> a[n] != b[n]
  {
    if a == [] || b == [] || a[0] != b[0] then 0
    else
      var n := CommonHead(a[1..], b[1..]);
      assert a[..1 + n] == [a[0]] + a[1..][..n] && b[..1 + n] == [b[0]] + b[1..][..n];
      1 + n
  }

  function CommonTail<T(==)>(a: seq<T>, b: seq<T>): (n: nat)
    ensures n <= |a| && n <= |b|
  {
    if a == [] || b == [] || a[|a| - 1] != b[|b| - 1] then 0
    else 1 + CommonTail(a[..|a| - 1], b[..|b| - 1])
  }

  lemma {:induction false} TailIsShared<T>(a: seq<T>, b: seq<T>, n: nat)
    requires n == CommonTail(a, b)
    ensures a[|a| - n..] == b[|b| - n..]
  {
    if n > 0 {
      TailIsShared(a[..|a| - 1], b[..|b| - 1], n - 1);
      SuffixGrows(a, n - 1);
      SuffixGrows(b, n - 1);
    }
  }

  lemma {:induction false} TailStops<T>(a: seq<T>, b: seq<T>, n: nat)
    requires n == CommonTail(a, b) && n < |a| && n < |b|
    ensures a[|a| - 1 - n] != b[|b| - 1 - n]
  {
    if n > 0 {
      TailStops(a[..|a| - 1], b[..|b| - 1], n - 1);
    }
  }

  lemma SuffixGrows<T>(xs: seq<T>, n: nat)
    requires n < |xs|
    ensures var front := xs[..|xs| - 1]; xs[|xs| - (n + 1)..] == front[|front| - n..] + [xs[|xs| - 1]]
  {
  }

  function ChangedLines<T(==)>(old_: seq<T>, new_: seq<T>): Hunk<T> {
    var head := CommonHead(old_, new_);
    Between(old_, new_, head, CommonTail(old_[head..], new_[head..]))
  }

  /** The change of all but the first `head` and the last `tail` lines. */
  function Between<T>(old_: seq<T>, new_: seq<T>, head: nat, tail: nat): Hunk<T>
    requires head + tail <= |old_| && head + tail <= |new_|
  {
    Hunk(head, |old_| - tail, new_[head..|new_| - tail])
  }

  method FindHead<T(==)>(a: seq<T>, b: seq<T>) returns (head: nat)
    ensures head == CommonHead(a, b)
  {
    head := 0;
    while head < |a| && head < |b| && a[head] == b[head]
      invariant head <= |a| && head <= |b|
      invariant CommonHead(a, b) == head + CommonHead(a[head..], b[head..])
    {
      assert a[head..][1..] == a[head + 1..] && b[head..][1..] == b[head + 1..];
      head := head + 1;
    }
  }

  lemma TailStep<T>(a: seq<T>, b: seq<T>, tail: nat)
    requires tail < |a| && tail < |b| && a[|a| - 1 - tail] == b[|b| - 1 - tail]
    ensures CommonTail(a[..|a| - tail], b[..|b| - tail]) == 1 + CommonTail(a[..|a| - (tail + 1)], b[..|b| - (tail + 1)])
  {
    var (x, y) := (a[..|a| - tail], b[..|b| - tail]);
    assert x[..|x| - 1] == a[..|a| - (tail + 1)] && y[..|y| - 1] == b[..|b| - (tail + 1)];
  }

  method FindTail<T(==)>(a: seq<T>, b: seq<T>) returns (tail: nat)
    ensures tail == CommonTail(a, b)
  {
    tail := 0;
    assert a[..|a|] == a && b[..|b|] == b;
    while tail < |a| && tail < |b| && a[|a| - 1 - tail] == b[|b| - 1 - tail]
      invariant tail <= |a| && tail <= |b|
      invariant CommonTail(a, b) == tail + CommonTail(a[..|a| - tail], b[..|b| - tail])
    {
      TailStep(a, b, tail);
      tail := tail + 1;
    }
  }

  /** `changed_lines`: the shared head first, and of what is left of the two the shared tail. */
  method FindChange<T(==)>(old_: seq<T>, new_: seq<T>) returns (hunk: Hunk<T>)
    ensures hunk == ChangedLines(old_, new_)
  {
    var head := FindHead(old_, new_);
    var tail := FindTail(old_[head..], new_[head..]);
    hunk := Hunk(head, |old_| - tail, new_[head..|new_| - tail]);
  }

  ghost predicate InBounds<T>(lines: seq<T>, h: Hunk<T>) {
    h.start <= h.end <= |lines|
  }

  function Splice<T>(lines: seq<T>, h: Hunk<T>): seq<T>
    requires h.start <= h.end <= |lines|
  {
    lines[..h.start] + (h.lines + lines[h.end..])
  }

  lemma SameTails<T>(old_: seq<T>, new_: seq<T>, head: nat, tail: nat)
    requires head <= |old_| && head <= |new_| && tail == CommonTail(old_[head..], new_[head..])
    ensures old_[|old_| - tail..] == new_[|new_| - tail..]
    ensures head + tail < |old_| && head + tail < |new_| ==> old_[|old_| - 1 - tail] != new_[|new_| - 1 - tail]
  {
    var (a, b) := (old_[head..], new_[head..]);
    TailIsShared(a, b, tail);
    if tail < |a| && tail < |b| {
      TailStops(a, b, tail);
    }
    assert a[|a| - tail..] == old_[|old_| - tail..] && b[|b| - tail..] == new_[|new_| - tail..];
  }

  lemma Pieces<T>(xs: seq<T>, a: nat, b: nat, c: nat)
    requires a <= b <= c <= |xs|
    ensures xs[a..b] + (xs[b..c] + xs[c..]) == xs[a..]
  {
  }

  /** Putting back what changed makes the edited text. */
  lemma ChangeIsExact<T>(old_: seq<T>, new_: seq<T>)
    ensures InBounds(old_, ChangedLines(old_, new_))
    ensures Splice(old_, ChangedLines(old_, new_)) == new_
  {
    var head, tail := SharedEnds(old_, new_);
    SpliceShared(old_, new_, head, tail);
  }

  lemma SharedEnds<T>(old_: seq<T>, new_: seq<T>) returns (head: nat, tail: nat)
    ensures head + tail <= |old_| && head + tail <= |new_|
    ensures old_[..head] == new_[..head] && old_[|old_| - tail..] == new_[|new_| - tail..]
    ensures ChangedLines(old_, new_) == Between(old_, new_, head, tail)
  {
    head := CommonHead(old_, new_);
    tail := CommonTail(old_[head..], new_[head..]);
    SameTails(old_, new_, head, tail);
  }

  lemma SpliceShared<T>(old_: seq<T>, new_: seq<T>, head: nat, tail: nat)
    requires head + tail <= |old_| && head + tail <= |new_|
    requires old_[..head] == new_[..head] && old_[|old_| - tail..] == new_[|new_| - tail..]
    ensures Splice(old_, Between(old_, new_, head, tail)) == new_
  {
  }

  /** And nothing smaller would: neither end of what it takes out is what it puts in. Of several such
      changes, it's the one that starts behind all the lines that the two share at their start. */
  lemma ChangeIsLeast<T>(old_: seq<T>, new_: seq<T>)
    ensures var n := ChangedLines(old_, new_).start;
            && n <= |old_| && n <= |new_| && old_[..n] == new_[..n]
            && (n < |old_| && n < |new_| ==> old_[n] != new_[n])
    ensures var h := ChangedLines(old_, new_);
            h.start < h.end && h.lines != [] ==>
              && h.end <= |old_|
              && old_[h.start] != h.lines[0] && old_[h.end - 1] != h.lines[|h.lines| - 1]
  {
    var head := CommonHead(old_, new_);
    SameTails(old_, new_, head, CommonTail(old_[head..], new_[head..]));
  }

  // ── merging ────────────────────────────────────────────────────────────────

  /** A batch entry's change to one file. */
  datatype Placed<T> = Placed(position: nat, hunk: Hunk<T>)

  /** Each hunk starts no sooner than the one before it ends, and none before `at`. */
  ghost predicate Chain<T>(lines: seq<T>, hs: seq<Placed<T>>, at: nat) {
    hs == [] ||
    (at <= hs[0].hunk.start <= hs[0].hunk.end <= |lines| && Chain(lines, hs[1..], hs[0].hunk.end))
  }

  /** `lines` from `at` on with every hunk in. */
  ghost function Merged<T>(lines: seq<T>, hs: seq<Placed<T>>, at: nat): seq<T>
    requires at <= |lines| && Chain(lines, hs, at)
  {
    if hs == [] then lines[at..]
    else lines[at..hs[0].hunk.start] + hs[0].hunk.lines + Merged(lines, hs[1..], hs[0].hunk.end)
  }

  /** The lines, from 0, that a hunk's own lines take in the merged file. */
  datatype Stretch = Stretch(first: nat, after: nat)

  ghost function Stretches<T>(hs: seq<Placed<T>>, at: nat, from: nat): (r: seq<Stretch>)
    ensures |r| == |hs|
  {
    if hs == [] then []
    else
      var first := from + (if hs[0].hunk.start >= at then hs[0].hunk.start - at else 0);
      var after := first + |hs[0].hunk.lines|;
      [Stretch(first, after)] + Stretches(hs[1..], hs[0].hunk.end, after)
  }

  /** The second half of `plan_batch` for one file: copy up to each hunk, note where its lines
      land, and put them in. */
  method Merge<T>(lines: seq<T>, hs: seq<Placed<T>>) returns (out: seq<T>, stretches: seq<Stretch>)
    requires Chain(lines, hs, 0)
    ensures out == Merged(lines, hs, 0) && stretches == Stretches(hs, 0, 0)
  {
    out, stretches := [], [];
    var at: nat := 0;
    for i := 0 to |hs|
      invariant at <= |lines| && Chain(lines, hs[i..], at)
      invariant out + Merged(lines, hs[i..], at) == Merged(lines, hs, 0)
      invariant stretches + Stretches(hs[i..], at, |out|) == Stretches(hs, 0, 0)
    {
      var h := hs[i].hunk;
      assert hs[i..][1..] == hs[i + 1..];
      MergedStep(lines, hs[i..], at, out);
      StretchStep(hs[i..], at, |out|, stretches);
      out := out + lines[at..h.start];
      stretches := stretches + [Stretch(|out|, |out| + |h.lines|)];
      out := out + h.lines;
      at := h.end;
    }
    out := out + lines[at..];
  }

  lemma MergedStep<T>(lines: seq<T>, hs: seq<Placed<T>>, at: nat, before: seq<T>)
    requires hs != [] && at <= |lines| && Chain(lines, hs, at)
    ensures var h := hs[0].hunk;
            before + Merged(lines, hs, at) == before + lines[at..h.start] + h.lines + Merged(lines, hs[1..], h.end)
  {
    Regroup(before, lines[at..hs[0].hunk.start], hs[0].hunk.lines, Merged(lines, hs[1..], hs[0].hunk.end));
  }

  lemma Regroup<T>(a: seq<T>, b: seq<T>, c: seq<T>, d: seq<T>)
    ensures a + (b + c + d) == a + b + c + d == a + b + (c + d)
  {
  }

  lemma StretchStep<T>(hs: seq<Placed<T>>, at: nat, from: nat, done: seq<Stretch>)
    requires hs != [] && at <= hs[0].hunk.start
    ensures var first := from + hs[0].hunk.start - at;
            var after := first + |hs[0].hunk.lines|;
            var rest := Stretches(hs[1..], hs[0].hunk.end, after);
            && Stretches(hs, at, from) == [Stretch(first, after)] + rest
            && done + Stretches(hs, at, from) == done + [Stretch(first, after)] + rest
  {
    var first := from + hs[0].hunk.start - at;
    var after := first + |hs[0].hunk.lines|;
    var rest := Stretches(hs[1..], hs[0].hunk.end, after);
    assert Stretches(hs, at, from) == [Stretch(first, after)] + rest;
    assert done + ([Stretch(first, after)] + rest) == done + [Stretch(first, after)] + rest;
  }

  /** Each hunk's lines are exactly what its stretch of the merged file holds, and the stretches
      follow one another. */
  lemma {:induction false} StretchesHoldLines<T>(lines: seq<T>, hs: seq<Placed<T>>, at: nat, before: seq<T>, i: nat)
    requires at <= |lines| && Chain(lines, hs, at) && i < |hs|
    ensures var merged := before + Merged(lines, hs, at);
            var s := Stretches(hs, at, |before|);
            && |before| <= s[i].first <= s[i].after <= |merged|
            && merged[s[i].first..s[i].after] == hs[i].hunk.lines
    ensures forall j :: i < j < |hs| ==> Stretches(hs, at, |before|)[i].after <= Stretches(hs, at, |before|)[j].first
  {
    var h := hs[0].hunk;
    var next := before + lines[at..h.start] + h.lines;
    assert before + Merged(lines, hs, at) == next + Merged(lines, hs[1..], h.end);
    if i > 0 {
      StretchesHoldLines(lines, hs[1..], h.end, next, i - 1);
    } else {
      forall j | 0 < j < |hs| ensures |next| <= Stretches(hs, at, |before|)[j].first {
        StretchesHoldLines(lines, hs[1..], h.end, next, j - 1);
      }
    }
  }

  /** The merged file with the original lines put back at every stretch but entry `p`'s. */
  ghost function UndoOthers<T>(merged: seq<T>, lines: seq<T>, hs: seq<Placed<T>>, stretches: seq<Stretch>, from: nat,
                               p: nat): seq<T>
    requires |stretches| == |hs|
    decreases |hs|
  {
    if hs == [] then (if from <= |merged| then merged[from..] else [])
    else
      var (h, s) := (hs[0].hunk, stretches[0]);
      Slice(merged, from, s.first)
      + ((if hs[0].position == p then Slice(merged, s.first, s.after) else Slice(lines, h.start, h.end))
         + UndoOthers(merged, lines, hs[1..], stretches[1..], s.after, p))
  }

  ghost function Slice<T>(xs: seq<T>, a: nat, b: nat): seq<T> {
    if a <= b <= |xs| then xs[a..b] else []
  }

  ghost predicate NotAmong<T>(hs: seq<Placed<T>>, p: nat) {
    forall i :: 0 <= i < |hs| ==> hs[i].position != p
  }

  lemma UndoHead<T>(merged: seq<T>, lines: seq<T>, hs: seq<Placed<T>>, stretches: seq<Stretch>, from: nat, p: nat,
                    gap: seq<T>, own: seq<T>, was: seq<T>)
    requires hs != [] && |stretches| == |hs|
    requires Slice(merged, from, stretches[0].first) == gap
    requires Slice(merged, stretches[0].first, stretches[0].after) == own
    requires Slice(lines, hs[0].hunk.start, hs[0].hunk.end) == was
    ensures UndoOthers(merged, lines, hs, stretches, from, p) ==
            gap + ((if hs[0].position == p then own else was)
                   + UndoOthers(merged, lines, hs[1..], stretches[1..], stretches[0].after, p))
  {
  }

  lemma UndoStep<T>(lines: seq<T>, hs: seq<Placed<T>>, at: nat, before: seq<T>, p: nat)
    requires hs != [] && at <= |lines| && Chain(lines, hs, at)
    ensures var h := hs[0].hunk;
            var next := before + lines[at..h.start] + h.lines;
            && before + Merged(lines, hs, at) == next + Merged(lines, hs[1..], h.end)
            && UndoOthers(before + Merged(lines, hs, at), lines, hs, Stretches(hs, at, |before|), |before|, p) ==
               lines[at..h.start]
               + ((if hs[0].position == p then h.lines else lines[h.start..h.end])
                  + UndoOthers(next + Merged(lines, hs[1..], h.end), lines, hs[1..],
                               Stretches(hs[1..], h.end, |next|), |next|, p))
  {
    var h := hs[0].hunk;
    MergedStep(lines, hs, at, before);
    UndoPieces(lines, hs, at, before, lines[at..h.start], Merged(lines, hs[1..], h.end), p);
  }

  lemma UndoPieces<T>(lines: seq<T>, hs: seq<Placed<T>>, at: nat, before: seq<T>, gap: seq<T>, rest: seq<T>, p: nat)
    requires hs != [] && at <= hs[0].hunk.start <= hs[0].hunk.end <= |lines| && |gap| == hs[0].hunk.start - at
    ensures var h := hs[0].hunk;
            var next := before + gap + h.lines;
            UndoOthers(next + rest, lines, hs, Stretches(hs, at, |before|), |before|, p) ==
            gap + ((if hs[0].position == p then h.lines else lines[h.start..h.end])
                   + UndoOthers(next + rest, lines, hs[1..], Stretches(hs[1..], h.end, |next|), |next|, p))
  {
    var h := hs[0].hunk;
    StretchStep(hs, at, |before|, []);
    SlicesOf(before, gap, h.lines, rest);
    UndoHead(before + gap + h.lines + rest, lines, hs, Stretches(hs, at, |before|), |before|, p,
             gap, h.lines, lines[h.start..h.end]);
  }

  lemma SlicesOf<T>(before: seq<T>, gap: seq<T>, own: seq<T>, rest: seq<T>)
    ensures var (merged, first) := (before + gap + own + rest, |before| + |gap|);
            Slice(merged, |before|, first) == gap && Slice(merged, first, first + |own|) == own
  {
    Regroup(before, gap, own, rest);
    SliceOf(before, gap, own + rest);
    SliceOf(before + gap, own, rest);
  }

  lemma SliceOf<T>(a: seq<T>, b: seq<T>, c: seq<T>)
    ensures Slice(a + b + c, |a|, |a| + |b|) == b
  {
  }

  lemma NotAmongRest<T>(hs: seq<Placed<T>>, p: nat)
    requires hs != [] && NotAmong(hs, p)
    ensures hs[0].position != p && NotAmong(hs[1..], p)
  {
  }

  lemma {:induction false} UndoAll<T>(lines: seq<T>, hs: seq<Placed<T>>, at: nat, before: seq<T>, p: nat)
    requires at <= |lines| && Chain(lines, hs, at) && NotAmong(hs, p)
    ensures UndoOthers(before + Merged(lines, hs, at), lines, hs, Stretches(hs, at, |before|), |before|, p) ==
            lines[at..]
    decreases |hs|
  {
    if hs != [] {
      UndoStep(lines, hs, at, before, p);
      var h := hs[0].hunk;
      NotAmongRest(hs, p);
      UndoAll(lines, hs[1..], h.end, before + lines[at..h.start] + h.lines, p);
      Pieces(lines, at, h.start, h.end);
    }
  }

  lemma {:induction false} UndoAllButOne<T>(lines: seq<T>, hs: seq<Placed<T>>, at: nat, before: seq<T>, i: nat)
    requires at <= |lines| && Chain(lines, hs, at) && i < |hs|
    requires forall j :: 0 <= j < |hs| && j != i ==> hs[j].position != hs[i].position
    ensures at <= hs[i].hunk.start <= hs[i].hunk.end <= |lines|
    ensures UndoOthers(before + Merged(lines, hs, at), lines, hs, Stretches(hs, at, |before|), |before|,
                       hs[i].position) ==
            lines[at..hs[i].hunk.start] + (hs[i].hunk.lines + lines[hs[i].hunk.end..])
    decreases |hs|
  {
    var p := hs[i].position;
    UndoStep(lines, hs, at, before, p);
    var h := hs[0].hunk;
    var next := before + lines[at..h.start] + h.lines;
    if i == 0 {
      UndoAll(lines, hs[1..], h.end, next, p);
    } else {
      assert hs[1..][i - 1] == hs[i];
      UndoAllButOne(lines, hs[1..], h.end, next, i - 1);
      UpTo(lines, at, h.start, h.end, hs[i].hunk.start, hs[i].hunk.lines + lines[hs[i].hunk.end..]);
    }
  }

  lemma UpTo<T>(xs: seq<T>, a: nat, b: nat, c: nat, d: nat, rest: seq<T>)
    requires a <= b <= c <= d <= |xs|
    ensures xs[a..b] + (xs[b..c] + (xs[c..d] + rest)) == xs[a..d] + rest
  {
  }

  /** Undoing every other entry's lines leaves the text the entry's own edit makes. */
  lemma UndoLeavesOwnEdit<T>(lines: seq<T>, hs: seq<Placed<T>>, i: nat, after: seq<T>)
    requires Chain(lines, hs, 0) && i < |hs| && hs[i].hunk == ChangedLines(lines, after)
    requires forall j :: 0 <= j < |hs| && j != i ==> hs[j].position != hs[i].position
    ensures UndoOthers(Merged(lines, hs, 0), lines, hs, Stretches(hs, 0, 0), 0, hs[i].position) == after
  {
    UndoAllButOne(lines, hs, 0, [], i);
    assert [] + Merged(lines, hs, 0) == Merged(lines, hs, 0);
    ChangeIsExact(lines, after);
    assert lines[0..hs[i].hunk.start] == lines[..hs[i].hunk.start];
  }
}
