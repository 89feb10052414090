/** `trace_calls` of tools/check-guards-fire.py: a log of several processes' calls, some in pieces,
    and each one's calls read back whole. */
module Traces {

  const UNFINISHED := " <unfinished ...>"

  /** A line as its pattern reads it: one that names no call, a call's later piece, or its start. */
  datatype Line =
    | Noise
    | Resumed(pid: int, rest: string)
    | Fresh(pid: int, name: string, body: string)

  datatype Call = Call(pid: int, name: string, body: string)

  datatype Started = Started(name: string, head: string)

  datatype State = State(pending: map<int, Started>, calls: seq<Call>)

  predicate EndsOpen(body: string) {
    |UNFINISHED| <= |body| && body[|body| - |UNFINISHED|..] == UNFINISHED
  }

  /** A call's body as far as it goes: kept for its next piece if it ends open, else whole. */
  function Take(s: State, pid: int, name: string, body: string): State {
    if EndsOpen(body) then s.(pending := s.pending[pid := Started(name, body[..|body| - |UNFINISHED|])])
    else s.(calls := s.calls + [Call(pid, name, body)])
  }

  function Next(s: State, line: Line): State {
    match line
    case Noise => s
    case Fresh(pid, name, body) => Take(s, pid, name, body)
    case Resumed(pid, rest) =>
      if pid !in s.pending then s
      else Take(s.(pending := s.pending - {pid}), pid, s.pending[pid].name, s.pending[pid].head + rest)
  }

  function After(s: State, lines: seq<Line>): State
    decreases |lines|
  {
    if lines == [] then s else After(Next(s, lines[0]), lines[1..])
  }

  const START := State(map[], [])

  method TraceCalls(lines: seq<Line>) returns (out: seq<Call>)
    ensures out == After(START, lines).calls
  {
    var pending: map<int, Started> := map[];
    out := [];
    for i := 0 to |lines|
      invariant After(START, lines) == After(State(pending, out), lines[i..])
    {
      assert lines[i..][1..] == lines[i + 1..];
      var line := lines[i];
      if line.Noise? || (line.Resumed? && line.pid !in pending) {
        continue;
      }
      var name, body;
      if line.Resumed? {
        name, body := pending[line.pid].name, pending[line.pid].head + line.rest;
        pending := pending - {line.pid};
      } else {
        name, body := line.name, line.body;
      }
      if EndsOpen(body) {
        pending := pending[line.pid := Started(name, body[..|body| - |UNFINISHED|])];
        continue;
      }
      out := out + [Call(line.pid, name, body)];
    }
  }

  /** A line that names no call, and a later piece of one that never began, leave nothing behind. */
  lemma StrayLeavesNothing(s: State, line: Line, rest: seq<Line>)
    requires line.Noise? || (line.Resumed? && line.pid !in s.pending)
    ensures After(s, [line] + rest) == After(s, rest)
  {
    assert ([line] + rest)[1..] == rest;
  }

  // ── each process for itself ────────────────────────────────────────────────

  predicate Of(line: Line, pid: int) {
    !line.Noise? && line.pid == pid
  }

  function LinesOf(lines: seq<Line>, pid: int): seq<Line> {
    if lines == [] then []
    else if Of(lines[0], pid) then [lines[0]] + LinesOf(lines[1..], pid)
    else LinesOf(lines[1..], pid)
  }

  function CallsOf(calls: seq<Call>, pid: int): seq<Call> {
    if calls == [] then []
    else if calls[|calls| - 1].pid == pid then CallsOf(calls[..|calls| - 1], pid) + [calls[|calls| - 1]]
    else CallsOf(calls[..|calls| - 1], pid)
  }

  ghost predicate SameFor(s: State, t: State, pid: int) {
    && CallsOf(s.calls, pid) == CallsOf(t.calls, pid)
    && (pid in s.pending <==> pid in t.pending)
    && (pid in s.pending ==> s.pending[pid] == t.pending[pid])
  }

  lemma TakeSame(s: State, t: State, pid: int, name: string, body: string)
    requires CallsOf(s.calls, pid) == CallsOf(t.calls, pid)
    requires (pid !in s.pending && pid !in t.pending) || SameFor(s, t, pid)
    ensures SameFor(Take(s, pid, name, body), Take(t, pid, name, body), pid)
  {
    if !EndsOpen(body) {
      OneMoreCall(s.calls, Call(pid, name, body), pid);
      OneMoreCall(t.calls, Call(pid, name, body), pid);
    }
  }

  lemma OneMoreCall(calls: seq<Call>, call: Call, pid: int)
    ensures CallsOf(calls + [call], pid) ==
            if call.pid == pid then CallsOf(calls, pid) + [call] else CallsOf(calls, pid)
  {
    assert (calls + [call])[..|calls|] == calls;
  }

  lemma OthersLeave(s: State, line: Line, pid: int)
    requires !Of(line, pid)
    ensures SameFor(Next(s, line), s, pid)
  {
    var calls := Next(s, line).calls;
    if calls != s.calls {
      OneMoreCall(s.calls, calls[|s.calls|], pid);
    }
  }

  /** What one process's calls are doesn't depend on the lines of any other between them. */
  lemma {:induction false} ReadsApart(s: State, t: State, lines: seq<Line>, pid: int)
    requires SameFor(s, t, pid)
    ensures SameFor(After(s, lines), After(t, LinesOf(lines, pid)), pid)
    decreases |lines|
  {
    if lines != [] {
      var (line, rest) := (lines[0], lines[1..]);
      if Of(line, pid) {
        var mine := LinesOf(lines, pid);
        assert mine == [line] + LinesOf(rest, pid) && mine[1..] == LinesOf(rest, pid);
        NextSame(s, t, line);
        ReadsApart(Next(s, line), Next(t, line), rest, pid);
      } else {
        OthersLeave(s, line, pid);
        ReadsApart(Next(s, line), t, rest, pid);
      }
    }
  }

  lemma NextSame(s: State, t: State, line: Line)
    requires !line.Noise? && SameFor(s, t, line.pid)
    ensures SameFor(Next(s, line), Next(t, line), line.pid)
  {
    match line
    case Fresh(pid, name, body) => TakeSame(s, t, pid, name, body);
    case Resumed(pid, rest) =>
      if pid in s.pending {
        TakeSame(s.(pending := s.pending - {pid}), t.(pending := t.pending - {pid}), pid,
                 s.pending[pid].name, s.pending[pid].head + rest);
      }
  }

  // ── how strace prints one process's calls ──────────────────────────────────

  /** A call and the pieces its body is printed in, one when it is printed whole. */
  datatype Printed = Printed(name: string, parts: seq<string>)

  function Whole(parts: seq<string>): string {
    if parts == [] then "" else parts[0] + Whole(parts[1..])
  }

  /** The pieces after the first, each but the last left open. */
  function Rest(pid: int, parts: seq<string>): seq<Line> {
    if parts == [] then []
    else if |parts| == 1 then [Resumed(pid, parts[0])]
    else [Resumed(pid, parts[0] + UNFINISHED)] + Rest(pid, parts[1..])
  }

  function Print(pid: int, c: Printed): seq<Line>
    requires c.parts != []
  {
    if |c.parts| == 1 then [Fresh(pid, c.name, c.parts[0])]
    else [Fresh(pid, c.name, c.parts[0] + UNFINISHED)] + Rest(pid, c.parts[1..])
  }

  ghost predicate Printable(printed: seq<Printed>) {
    forall i :: 0 <= i < |printed| ==> printed[i].parts != [] && !EndsOpen(Whole(printed[i].parts))
  }

  function PrintAll(pid: int, printed: seq<Printed>): seq<Line>
    requires forall i :: 0 <= i < |printed| ==> printed[i].parts != []
  {
    if printed == [] then [] else Print(pid, printed[0]) + PrintAll(pid, printed[1..])
  }

  function CallsIn(pid: int, printed: seq<Printed>): seq<Call> {
    if printed == [] then []
    else [Call(pid, printed[0].name, Whole(printed[0].parts))] + CallsIn(pid, printed[1..])
  }

  lemma {:induction false} AfterConcat(s: State, a: seq<Line>, b: seq<Line>)
    ensures After(s, a + b) == After(After(s, a), b)
    decreases |a|
  {
    if a == [] {
      assert a + b == b;
    } else {
      assert (a + b)[1..] == a[1..] + b;
      AfterConcat(Next(s, a[0]), a[1..], b);
    }
  }

  lemma OpenEnds(body: string)
    ensures EndsOpen(body + UNFINISHED)
    ensures (body + UNFINISHED)[..|body + UNFINISHED| - |UNFINISHED|] == body
  {
  }

  /** A later piece that ends open adds to what is kept, and one that doesn't ends the call. */
  lemma ResumedNext(s: State, pid: int, name: string, head: string, part: string)
    requires pid in s.pending && s.pending[pid] == Started(name, head)
    ensures Next(s, Resumed(pid, part + UNFINISHED)) == s.(pending := s.pending[pid := Started(name, head + part)])
    ensures Next(s, Resumed(pid, part)) == Take(s.(pending := s.pending - {pid}), pid, name, head + part)
  {
    OpenEnds(head + part);
    assert head + (part + UNFINISHED) == head + part + UNFINISHED;
    assert (s.pending - {pid})[pid := Started(name, head + part)] == s.pending[pid := Started(name, head + part)];
  }

  lemma AfterOne(s: State, line: Line, rest: seq<Line>)
    ensures After(s, [line] + rest) == After(Next(s, line), rest)
  {
    assert ([line] + rest)[1..] == rest;
  }

  lemma WholeCons(head: string, parts: seq<string>)
    requires parts != []
    ensures head + Whole(parts) == head + parts[0] + Whole(parts[1..])
  {
  }

  /** After a call's start, its later pieces join it up. */
  lemma {:induction false} RestJoins(s: State, pid: int, name: string, head: string, parts: seq<string>)
    requires parts != [] && pid in s.pending && s.pending[pid] == Started(name, head)
    ensures After(s, Rest(pid, parts)) == Take(s.(pending := s.pending - {pid}), pid, name, head + Whole(parts))
    decreases |parts|, 1
  {
    ResumedNext(s, pid, name, head, parts[0]);
    WholeCons(head, parts);
    if |parts| == 1 {
      assert head + parts[0] + "" == head + parts[0];
      AfterOne(s, Resumed(pid, parts[0]), []);
      assert Rest(pid, parts) == [Resumed(pid, parts[0])] + [];
    } else {
      RestOnward(s, pid, name, head, parts);
    }
  }

  lemma {:induction false} RestOnward(s: State, pid: int, name: string, head: string, parts: seq<string>)
    requires |parts| > 1 && pid in s.pending && s.pending[pid] == Started(name, head)
    requires Next(s, Resumed(pid, parts[0] + UNFINISHED))
          == s.(pending := s.pending[pid := Started(name, head + parts[0])])
    ensures After(s, Rest(pid, parts))
         == Take(s.(pending := s.pending - {pid}), pid, name, head + parts[0] + Whole(parts[1..]))
    decreases |parts|, 0
  {
    var next := s.(pending := s.pending[pid := Started(name, head + parts[0])]);
    AfterOne(s, Resumed(pid, parts[0] + UNFINISHED), Rest(pid, parts[1..]));
    RestJoins(next, pid, name, head + parts[0], parts[1..]);
    assert next.pending - {pid} == s.pending - {pid};
  }

  /** What reading one call adds: the call, unless its own text ends as an unfinished piece does. */
  function GivenOne(pid: int, c: Printed): seq<Call> {
    if EndsOpen(Whole(c.parts)) then [] else [Call(pid, c.name, Whole(c.parts))]
  }

  function Given(pid: int, printed: seq<Printed>): seq<Call> {
    if printed == [] then [] else GivenOne(pid, printed[0]) + Given(pid, printed[1..])
  }

  lemma TakeGives(s: State, pid: int, c: Printed)
    ensures Take(s, pid, c.name, Whole(c.parts)).calls == s.calls + GivenOne(pid, c)
  {
  }

  /** Whatever is still kept from a call before it. */
  lemma PrintGives(s: State, pid: int, c: Printed)
    requires c.parts != []
    ensures After(s, Print(pid, c)).calls == s.calls + GivenOne(pid, c)
  {
    WholeCons("", c.parts);
    assert "" + Whole(c.parts) == Whole(c.parts) && "" + c.parts[0] == c.parts[0];
    if |c.parts| == 1 {
      assert c.parts[0] + "" == c.parts[0];
      AfterOne(s, Fresh(pid, c.name, c.parts[0]), []);
      assert Print(pid, c) == [Fresh(pid, c.name, c.parts[0])] + [];
      TakeGives(s, pid, c);
    } else {
      SplitGives(s, pid, c);
    }
  }

  lemma SplitGives(s: State, pid: int, c: Printed)
    requires |c.parts| > 1 && Whole(c.parts) == c.parts[0] + Whole(c.parts[1..])
    ensures After(s, Print(pid, c)).calls == s.calls + GivenOne(pid, c)
  {
    var first := Fresh(pid, c.name, c.parts[0] + UNFINISHED);
    var next := s.(pending := s.pending[pid := Started(c.name, c.parts[0])]);
    OpenEnds(c.parts[0]);
    AfterOne(s, first, Rest(pid, c.parts[1..]));
    assert Next(s, first) == next;
    RestJoins(next, pid, c.name, c.parts[0], c.parts[1..]);
    TakeGives(next.(pending := next.pending - {pid}), pid, c);
  }

  lemma {:induction false} PrintAllGives(s: State, pid: int, printed: seq<Printed>)
    requires forall i :: 0 <= i < |printed| ==> printed[i].parts != []
    ensures After(s, PrintAll(pid, printed)).calls == s.calls + Given(pid, printed)
    decreases |printed|
  {
    if printed == [] {
      assert s.calls + [] == s.calls;
    } else {
      var (c, rest) := (printed[0], printed[1..]);
      var next := After(s, Print(pid, c));
      AfterConcat(s, Print(pid, c), PrintAll(pid, rest));
      PrintGives(s, pid, c);
      PrintAllGives(next, pid, rest);
      Onto(s.calls, GivenOne(pid, c), Given(pid, rest));
    }
  }

  lemma Onto(calls: seq<Call>, some: seq<Call>, rest: seq<Call>)
    ensures calls + some + rest == calls + (some + rest)
  {
  }

  /** All the calls are given exactly when none ends so. */
  lemma {:induction false} AllGiven(pid: int, printed: seq<Printed>)
    requires forall i :: 0 <= i < |printed| ==> printed[i].parts != []
    ensures |Given(pid, printed)| <= |CallsIn(pid, printed)| == |printed|
    ensures Given(pid, printed) == CallsIn(pid, printed) <==> Printable(printed)
  {
    if printed != [] {
      var rest := printed[1..];
      AllGiven(pid, rest);
      PrintableCons(printed);
      if Printable(rest) && !EndsOpen(Whole(printed[0].parts)) {
        assert Given(pid, printed) == CallsIn(pid, printed);
      } else if !EndsOpen(Whole(printed[0].parts)) {
        assert Given(pid, printed)[1..] == Given(pid, rest) && CallsIn(pid, printed)[1..] == CallsIn(pid, rest);
      }
    }
  }

  lemma PrintableCons(printed: seq<Printed>)
    requires printed != [] && printed[0].parts != []
    ensures Printable(printed) <==> Printable(printed[1..]) && !EndsOpen(Whole(printed[0].parts))
  {
    assert forall i :: 0 < i < |printed| ==> printed[i] == printed[1..][i - 1];
  }

  lemma {:induction false} GivenMine(pid: int, printed: seq<Printed>)
    ensures forall i :: 0 <= i < |Given(pid, printed)| ==> Given(pid, printed)[i].pid == pid
  {
    if printed != [] {
      GivenMine(pid, printed[1..]);
    }
  }

  lemma {:induction false} AllMine(calls: seq<Call>, pid: int)
    requires forall i :: 0 <= i < |calls| ==> calls[i].pid == pid
    ensures CallsOf(calls, pid) == calls
  {
    if calls != [] {
      AllMine(calls[..|calls| - 1], pid);
      assert calls == calls[..|calls| - 1] + [calls[|calls| - 1]];
    }
  }

  /** Whatever the interleaving, each process's calls come back joined and in the order they ended,
      all but those whose own text ends as an unfinished piece does; so all of them, exactly when
      none does. */
  lemma InterleavingReadsBack(lines: seq<Line>, pid: int, printed: seq<Printed>)
    requires forall i :: 0 <= i < |printed| ==> printed[i].parts != []
    requires LinesOf(lines, pid) == PrintAll(pid, printed)
    ensures CallsOf(After(START, lines).calls, pid) == Given(pid, printed)
    ensures CallsOf(After(START, lines).calls, pid) == CallsIn(pid, printed) <==> Printable(printed)
  {
    ReadsApart(START, START, lines, pid);
    PrintAllGives(START, pid, printed);
    assert [] + Given(pid, printed) == Given(pid, printed);
    GivenMine(pid, printed);
    AllMine(Given(pid, printed), pid);
    AllGiven(pid, printed);
  }
}
