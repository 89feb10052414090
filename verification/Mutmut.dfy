/** The mutation ratchet of tools/check-mutmut.py, and when what a stopped run left could still
    change its decisions. */
module Mutmut {
  import opened Prelude
  import opened Greedy
  import opened Sharding

  // ── one mutant's exit code ─────────────────────────────────────────────────

  datatype Status = Survived | Killed | NoTests | Skipped | Timeout | TypeCheck | Segfault

  /** mutmut's names for its exit codes, less `interrupted`. */
  function Named(code: int): Option<Status> {
    if code == 0 then Some(Survived)
    else if code == 1 || code == 3 then Some(Killed)
    else if code == 5 || code == 33 then Some(NoTests)
    else if code == 34 then Some(Skipped)
    else if code == 36 || code == 24 || code == -24 || code == 152 || code == 255 then Some(Timeout)
    else if code == 37 then Some(TypeCheck)
    else if code == -11 || code == -9 then Some(Segfault)
    else None
  }

  predicate Caught(status: Status) {
    status.Killed? || status.TypeCheck? || status.Segfault? || status.Skipped?
  }

  datatype Failure = NoVerdict(name: string) | UnknownCode(name: string, code: int)

  /** What a recorded code says: nothing when the run ended first (none at all, or 2), an error
      for one that is neither named nor a signal's, and else a status, a signal counting as
      killed. `signals` are the platform's. */
  function Read(name: string, code: Option<int>, signals: set<int>): Result<Status, Failure> {
    if code == None || code == Some(2) then Err(NoVerdict(name))
    else match Named(code.value)
      case Some(status) => Ok(status)
      case None => if -code.value in signals then Ok(Killed) else Err(UnknownCode(name, code.value))
  }

  // ── tally ──────────────────────────────────────────────────────────────────

  datatype Mutant = Mutant(name: string, code: Option<int>)

  /** One function on one side: its mutants that were judged, those of them no test reaches, those
      that never ran, and the names of the survivors. */
  datatype Tally = Tally(total: nat, unreached: nat, unrun: nat, counted: seq<string>)

  function Tallied(t: Tally, m: Mutant, status: Status): Tally {
    t.(total := t.total + 1,
       unreached := t.unreached + (if status.NoTests? then 1 else 0),
       counted := if !status.NoTests? && !Caught(status) then t.counted + [m.name] else t.counted)
  }

  /** One mutant's part of a tally, `stopped` being that the budget ended the run. */
  function Step(t: Tally, m: Mutant, signals: set<int>, stopped: bool): Result<Tally, Failure> {
    if m.code == None && stopped then Ok(t.(unrun := t.unrun + 1))
    else match Read(m.name, m.code, signals)
      case Err(failure) => Err(failure)
      case Ok(status) => Ok(Tallied(t, m, status))
  }

  function Counts(mutants: seq<Mutant>, signals: set<int>, stopped: bool): Result<Tally, Failure> {
    if mutants == [] then Ok(Tally(0, 0, 0, []))
    else
      var n := |mutants| - 1;
      match Counts(mutants[..n], signals, stopped)
      case Err(failure) => Err(failure)
      case Ok(t) => Step(t, mutants[n], signals, stopped)
  }

  // ── what a tally counts, by exit code ──────────────────────────────────────

  /** The tests passed with the mutant in, or ran out of time. */
  predicate Survives(code: Option<int>) {
    code.Some? && code.value in [0, 36, 24, -24, 152, 255]
  }

  /** No test called the function. */
  predicate Unreached(code: Option<int>) {
    code.Some? && code.value in [5, 33]
  }

  /** A test failed, the mutant couldn't run, or a signal ended the run. */
  predicate IsCaught(code: Option<int>, signals: set<int>) {
    code.Some? && (code.value in [1, 3, 34, 37, -11, -9] || -code.value in signals)
  }

  /** A mutant whose tests didn't end, or ended with a code that says nothing. */
  predicate Unreadable(m: Mutant, signals: set<int>, stopped: bool) {
    if m.code == None then !stopped
    else m.code == Some(2) || !(Survives(m.code) || Unreached(m.code) || IsCaught(m.code, signals))
  }

  /** The names of the mutants that survive, in order. */
  function Survivors(mutants: seq<Mutant>): seq<string> {
    if mutants == [] then []
    else
      var n := |mutants| - 1;
      Survivors(mutants[..n]) + if Survives(mutants[n].code) then [mutants[n].name] else []
  }

  function HowMany(mutants: seq<Mutant>, those: Mutant -> bool): nat {
    if mutants == [] then 0
    else
      var n := |mutants| - 1;
      HowMany(mutants[..n], those) + if those(mutants[n]) then 1 else 0
  }

  ghost predicate CountsAll(mutants: seq<Mutant>, t: Tally) {
    && t.counted == Survivors(mutants)
    && t.unreached == HowMany(mutants, (m: Mutant) => Unreached(m.code))
    && t.unrun == HowMany(mutants, (m: Mutant) => m.code == None)
    && t.total + t.unrun == |mutants|
  }

  /** The first mutant that can't be read is `i`, and this is what is said of it. */
  ghost predicate FailsFirst(mutants: seq<Mutant>, signals: set<int>, stopped: bool, i: nat, failure: Failure) {
    && i < |mutants| && Unreadable(mutants[i], signals, stopped)
    && (forall j :: 0 <= j < i ==> !Unreadable(mutants[j], signals, stopped))
    && failure == if mutants[i].code in [None, Some(2)] then NoVerdict(mutants[i].name)
                  else UnknownCode(mutants[i].name, mutants[i].code.value)
  }

  ghost predicate Tells(mutants: seq<Mutant>, signals: set<int>, stopped: bool, out: Result<Tally, Failure>) {
    if out.Ok? then (forall i :: 0 <= i < |mutants| ==> !Unreadable(mutants[i], signals, stopped))
                    && CountsAll(mutants, out.value)
    else exists i: nat :: FailsFirst(mutants, signals, stopped, i, out.error)
  }

  lemma StepTells(t: Tally, m: Mutant, signals: set<int>, stopped: bool)
    ensures var out := Step(t, m, signals, stopped);
            if Unreadable(m, signals, stopped) then
              out == Err(if m.code in [None, Some(2)] then NoVerdict(m.name) else UnknownCode(m.name, m.code.value))
            else
              out == Ok(Tally(t.total + (if m.code == None then 0 else 1),
                              t.unreached + (if Unreached(m.code) then 1 else 0),
                              t.unrun + (if m.code == None then 1 else 0),
                              t.counted + if Survives(m.code) then [m.name] else []))
  {
    if !Unreadable(m, signals, stopped) && m.code.Some? && !Survives(m.code) {
      assert t.counted + [] == t.counted;
    }
  }

  /** What a tally says, by exit code: who survived, and how many were unreached or never ran; or the
      first mutant whose code can't be read. */
  lemma {:induction false} CountsTell(mutants: seq<Mutant>, signals: set<int>, stopped: bool)
    ensures Tells(mutants, signals, stopped, Counts(mutants, signals, stopped))
  {
    if mutants != [] {
      var n := |mutants| - 1;
      CountsTell(mutants[..n], signals, stopped);
      var before := Counts(mutants[..n], signals, stopped);
      if before.Err? {
        var i: nat :| FailsFirst(mutants[..n], signals, stopped, i, before.error);
        assert FailsFirst(mutants, signals, stopped, i, before.error);
      } else {
        StepTells(before.value, mutants[n], signals, stopped);
        assert forall i :: 0 <= i < n ==> mutants[..n][i] == mutants[i];
        if Unreadable(mutants[n], signals, stopped) {
          assert FailsFirst(mutants, signals, stopped, n, Counts(mutants, signals, stopped).error);
        }
      }
    }
  }

  method TallyUp(mutants: seq<Mutant>, signals: set<int>, stopped: bool) returns (out: Result<Tally, Failure>)
    ensures out == Counts(mutants, signals, stopped)
    ensures Tells(mutants, signals, stopped, out)
  {
    CountsTell(mutants, signals, stopped);
    var t := Tally(0, 0, 0, []);
    for i := 0 to |mutants|
      invariant Counts(mutants[..i], signals, stopped) == Ok(t)
    {
      assert mutants[..i + 1][..i] == mutants[..i];
      var next := Step(t, mutants[i], signals, stopped);
      if next.Err? {
        FailsOn(mutants, i + 1, signals, stopped);
        return next;
      }
      t := next.value;
    }
    assert mutants[..|mutants|] == mutants;
    return Ok(t);
  }

  lemma {:induction false} FailsOn(mutants: seq<Mutant>, i: nat, signals: set<int>, stopped: bool)
    requires i <= |mutants| && Counts(mutants[..i], signals, stopped).Err?
    ensures Counts(mutants, signals, stopped) == Counts(mutants[..i], signals, stopped)
    decreases |mutants| - i
  {
    if i == |mutants| {
      assert mutants[..i] == mutants;
    } else {
      assert mutants[..i + 1][..i] == mutants[..i];
      FailsOn(mutants, i + 1, signals, stopped);
    }
  }

  // ── how an unfinished run could end ────────────────────────────────────────

  /** `full` is `part` with a code for each mutant it left unrun. */
  ghost predicate Finishes(part: seq<Mutant>, full: seq<Mutant>) {
    && |part| == |full|
    && forall i :: 0 <= i < |part| ==>
                     part[i].name == full[i].name && (part[i].code.Some? ==> full[i].code == part[i].code)
  }

  /** `full` can be what `part` becomes once its unrun mutants have run. */
  ghost predicate Grows(part: Tally, full: Tally) {
    && full.unrun == 0
    && full.total == part.total + part.unrun
    && part.unreached <= full.unreached && |part.counted| <= |full.counted|
    && full.unreached + |full.counted| <= part.unreached + |part.counted| + part.unrun
  }

  ghost predicate Sound(t: Tally) {
    t.unreached + |t.counted| <= t.total
  }

  lemma StepGrows(part: Tally, full: Tally, m: Mutant, n: Mutant, signals: set<int>, stopped: bool)
    requires Grows(part, full) && Sound(part) && Sound(full)
    requires m.name == n.name && (m.code.Some? ==> n.code == m.code)
    requires Step(part, m, signals, stopped).Ok? && Step(full, n, signals, false).Ok?
    ensures Grows(Step(part, m, signals, stopped).value, Step(full, n, signals, false).value)
    ensures Sound(Step(part, m, signals, stopped).value) && Sound(Step(full, n, signals, false).value)
  {
    if m.code == None {
      assert stopped && n.code.Some?;
    } else {
      assert Read(m.name, m.code, signals) == Read(n.name, n.code, signals);
    }
  }

  /** However the mutants left end, a finished run's tally has at
      least the unreached and the counted mutants of the stopped one, and room for no more than
      its unrun ones besides. */
  lemma {:induction false} FinishedGrows(part: seq<Mutant>, full: seq<Mutant>, signals: set<int>, stopped: bool,
                                         p: Tally, f: Tally)
    requires Finishes(part, full)
    requires Counts(part, signals, stopped) == Ok(p) && Counts(full, signals, false) == Ok(f)
    ensures Grows(p, f) && Sound(p) && Sound(f)
    decreases |part|
  {
    if part != [] {
      var n := |part| - 1;
      var p0 := CountsStep(part, signals, stopped);
      var f0 := CountsStep(full, signals, false);
      FinishesFront(part, full);
      FinishedGrows(part[..n], full[..n], signals, stopped, p0, f0);
      StepGrows(p0, f0, part[n], full[n], signals, stopped);
    } else {
      assert full == [];
    }
  }

  lemma FinishesFront(part: seq<Mutant>, full: seq<Mutant>)
    requires Finishes(part, full) && part != []
    ensures |part| == |full| && Finishes(part[..|part| - 1], full[..|part| - 1])
    ensures part[|part| - 1].name == full[|part| - 1].name
    ensures part[|part| - 1].code.Some? ==> full[|part| - 1].code == part[|part| - 1].code
  {
    var n := |part| - 1;
    forall i | 0 <= i < n
      ensures part[..n][i].name == full[..n][i].name
      ensures part[..n][i].code.Some? ==> full[..n][i].code == part[..n][i].code
    {
      assert part[..n][i] == part[i] && full[..n][i] == full[i];
    }
  }

  lemma CountsStep(mutants: seq<Mutant>, signals: set<int>, stopped: bool) returns (t: Tally)
    requires mutants != [] && Counts(mutants, signals, stopped).Ok?
    ensures Counts(mutants[..|mutants| - 1], signals, stopped) == Ok(t)
    ensures Step(t, mutants[|mutants| - 1], signals, stopped) == Counts(mutants, signals, stopped)
  {
    t := Counts(mutants[..|mutants| - 1], signals, stopped).value;
  }

  // ── verdict ────────────────────────────────────────────────────────────────

  datatype Verdict = More | Passes | Undecided

  /** What `verdict` sees of one function: whether the base has it, whether the base's suites
      measured its script, its tally here, and the base's if that was run. */
  datatype Seen = Seen(onBase: bool, baseSuites: bool, head: Tally, base: Option<Tally>)

  predicate NeverReached(base: Tally) {
    base.total > 0 && base.unreached == base.total
  }

  function Before(s: Seen): nat {
    if s.base.Some? then |s.base.value.counted| else 0
  }

  /** Whether the function is held to a base count. */
  predicate Held(s: Seen) {
    if !s.onBase then true
    else if s.base.Some? && NeverReached(s.base.value) then false
    else if s.base.Some? then true
    else s.baseSuites && s.head.counted == []
  }

  function Decide(s: Seen): Verdict {
    var more := Held(s) && |s.head.counted| > Before(s);
    if (more && s.base.Some? && s.base.value.unrun > 0) || (Held(s) && !more && s.head.unrun > 0) then Undecided
    else if more then More
    else Passes
  }

  /** More survive than on the base, where there is a count to go by: a new function's is none, and an
      old one's the base's, if it was measured there and some test reached some mutant of it. */
  predicate Grew(s: Seen) {
    if !s.onBase then |s.head.counted| > if s.base.Some? then |s.base.value.counted| else 0
    else s.base.Some? && (s.base.value.total == 0 || s.base.value.unreached < s.base.value.total)
         && |s.head.counted| > |s.base.value.counted|
  }

  /** What a verdict says of finished counts: more just when the function grew, and nothing is left
      undecided. */
  lemma FinishedVerdict(s: Seen)
    requires s.head.unrun == 0 && (s.base.Some? ==> s.base.value.unrun == 0 && Sound(s.base.value))
    ensures Decide(s) == if Grew(s) then More else Passes
  {
  }

  /** And of a stopped run's: more only against a whole base count; and nothing decided against a part
      of one, nor in a function's favour while mutants of it are still to run and some count is, or
      may yet be, held against it. */
  lemma StoppedVerdict(s: Seen)
    requires s.base.Some? ==> Sound(s.base.value)
    ensures Decide(s) == More <==> Grew(s) && (s.base.Some? ==> s.base.value.unrun == 0)
    ensures Decide(s) == Undecided <==>
            if Grew(s) then s.base.Some? && s.base.value.unrun > 0
            else s.head.unrun > 0 && (!s.onBase || (s.base.None? && s.baseSuites && s.head.counted == []) ||
                                      (s.base.Some? && (s.base.value.total == 0 ||
                                                        s.base.value.unreached < s.base.value.total)))
  {
  }

  /** A function's base is measured when the base has it, its suites measured it, and some mutant
      survives here. */
  predicate Measured(s: Seen) {
    s.onBase && s.baseSuites && s.head.counted != []
  }

  /** `s` is what the gate shows `verdict`: a base tally for each measured function and no other. */
  predicate FromGate(s: Seen) {
    s.base.Some? == Measured(s)
  }

  /** `full` is how the run `part` is of could have ended with no budget, head and base. */
  ghost predicate Completes(part: Seen, full: Seen) {
    && full.onBase == part.onBase && full.baseSuites == part.baseSuites
    && Grows(part.head, full.head) && Sound(part.head) && Sound(full.head)
    && FromGate(part) && FromGate(full)
    && (part.base.Some? ==> full.base.Some? && Grows(part.base.value, full.base.value)
                            && Sound(part.base.value) && Sound(full.base.value))
    && (full.base.Some? ==> full.base.value.unrun == 0)
  }

  /** A function reported as having more survivors than its base still does when everything runs. */
  lemma MoreStands(part: Seen, full: Seen)
    requires Completes(part, full) && Decide(part) == More
    ensures Decide(full) == More
  {
  }

  /** A function that is held and passes still passes. */
  lemma HeldPassStands(part: Seen, full: Seen)
    requires Completes(part, full) && Held(part) && Decide(part) == Passes
    ensures Decide(full) == Passes
  {
  }

  /** The one pass the unrun mutants can overturn: a base whose mutants so far no test reached,
      taken to have no count to hold the function to, with some of its mutants still to run. */
  predicate Overturnable(s: Seen) {
    s.base.Some? && NeverReached(s.base.value) && s.base.value.unrun > 0
  }

  /** Every way the run could have ended gives the verdict it was given. */
  ghost predicate Final(part: Seen) {
    forall full :: Completes(part, full) ==> Decide(full) == Decide(part)
  }

  /** How an overturned pass goes: what was left unrun, here and on the base, is reached and killed. */
  function Overturning(part: Seen): Seen
    requires Overturnable(part)
  {
    part.(head := RestKilled(part.head), base := Some(RestKilled(part.base.value)))
  }

  /** A tally with what was left unrun counted as killed. */
  function RestKilled(t: Tally): Tally {
    t.(total := t.total + t.unrun, unrun := 0)
  }

  function Ended(m: Mutant): Mutant {
    if m.code == None then m.(code := Some(1)) else m
  }

  lemma KilledStep(before: Tally, m: Mutant, signals: set<int>, t: Tally)
    requires Step(before, m, signals, true) == Ok(t)
    ensures Step(RestKilled(before), Ended(m), signals, false) == Ok(RestKilled(t))
  {
  }

  lemma CountsOneMore(mutants: seq<Mutant>, m: Mutant, signals: set<int>, stopped: bool, t: Tally)
    requires Counts(mutants, signals, stopped) == Ok(t)
    ensures Counts(mutants + [m], signals, stopped) == Step(t, m, signals, stopped)
  {
    assert (mutants + [m])[..|mutants|] == mutants;
  }

  lemma FinishesOneMore(part: seq<Mutant>, full: seq<Mutant>, m: Mutant)
    requires part != [] && Finishes(part[..|part| - 1], full) && m == Ended(part[|part| - 1])
    ensures Finishes(part, full + [m])
  {
    assert forall i :: 0 <= i < |part| - 1 ==> part[..|part| - 1][i] == part[i];
  }

  /** It is a way a run can go: whatever was left unrun may all be killed. */
  lemma {:induction false} UnrunCanAllBeKilled(part: seq<Mutant>, signals: set<int>, t: Tally)
    returns (full: seq<Mutant>)
    requires Counts(part, signals, true) == Ok(t)
    ensures Finishes(part, full) && Counts(full, signals, false) == Ok(RestKilled(t))
  {
    if part == [] {
      full := [];
    } else {
      var last := part[|part| - 1];
      var before := CountsStep(part, signals, true);
      var rest := UnrunCanAllBeKilled(part[..|part| - 1], signals, before);
      full := rest + [Ended(last)];
      KilledStep(before, last, signals, t);
      CountsOneMore(rest, Ended(last), signals, false, RestKilled(before));
      FinishesOneMore(part, rest, Ended(last));
    }
  }

  lemma OverturnableIsNot(part: Seen)
    requires FromGate(part) && Sound(part.head) && (part.base.Some? ==> Sound(part.base.value))
    requires part.onBase && Overturnable(part)
    ensures Decide(part) == Passes
    ensures Completes(part, Overturning(part)) && Decide(Overturning(part)) == More
  {
  }

  /** A verdict that is given is final exactly when it isn't that one. */
  lemma DecidedIsFinalIff(part: Seen)
    requires FromGate(part) && Sound(part.head) && (part.base.Some? ==> Sound(part.base.value))
    requires Decide(part) != Undecided
    ensures Final(part) <==> !(part.onBase && Overturnable(part))
  {
    if part.onBase && Overturnable(part) {
      OverturnableIsNot(part);
    } else {
      forall full | Completes(part, full) ensures Decide(full) == Decide(part) {
        if Decide(part) == More {
          MoreStands(part, full);
        } else if Held(part) {
          HeldPassStands(part, full);
        }
      }
    }
  }

  // ── the whole gate ─────────────────────────────────────────────────────────

  function Exit(seen: seq<Seen>): int {
    if exists i :: 0 <= i < |seen| && Decide(seen[i]) == More then 1 else 0
  }

  /** Exit 1 when a function grew. */
  method ExitCode(seen: seq<Seen>) returns (code: int)
    ensures code == Exit(seen)
    ensures code == 1 <==> exists i :: 0 <= i < |seen| && Decide(seen[i]) == More
    ensures code == 0 || code == 1
  {
    for i := 0 to |seen|
      invariant forall j :: 0 <= j < i ==> Decide(seen[j]) != More
    {
      if Decide(seen[i]) == More {
        return 1;
      }
    }
    return 0;
  }

  /** Leave out the base of a function nothing survives in, as the gate does. */
  function Trimmed(s: Seen): Seen {
    if s.head.counted == [] then s.(base := None) else s
  }

  /** Measuring the base only of functions some mutant survives in never changes which functions
      are said to have grown, in a whole run or a stopped one. */
  lemma TrimmingKeepsMore(s: Seen)
    ensures Decide(Trimmed(s)) == More <==> Decide(s) == More
  {
  }

  function TrimmedAll(seen: seq<Seen>): (r: seq<Seen>)
    ensures |r| == |seen| && forall i :: 0 <= i < |r| ==> r[i] == Trimmed(seen[i])
  {
    if seen == [] then [] else [Trimmed(seen[0])] + TrimmedAll(seen[1..])
  }

  /** The whole gate, so: what it exits with over all its functions is the same either way. */
  lemma TrimmingKeepsExit(seen: seq<Seen>)
    ensures Exit(TrimmedAll(seen)) == Exit(seen)
  {
    var trimmed := TrimmedAll(seen);
    forall i | 0 <= i < |seen| ensures Decide(trimmed[i]) == More <==> Decide(seen[i]) == More {
      TrimmingKeepsMore(seen[i]);
    }
  }

  // ── shard ──────────────────────────────────────────────────────────────────

  /** A changed function, with its weight. The list is in path and key order. */
  datatype Changed = Changed(script: nat, key: string, weight: nat)

  function ChangedWeights(items: seq<Changed>): (ws: seq<nat>)
    ensures |ws| == |items| && forall i :: 0 <= i < |ws| ==> ws[i] == items[i].weight
  {
    if items == [] then [] else [items[0].weight] + ChangedWeights(items[1..])
  }

  /** The functions of shard `k` of `n`, as positions in the list. */
  method ShardOf(items: seq<Changed>, k: nat, n: nat) returns (mine: set<nat>)
    requires k < n
    ensures n == 1 ==> mine == Upto(|items|)
    ensures n > 1 ==> forall i: nat :: i in mine <==> i in Bins(ChangedWeights(items), Range(|items|), Empty(n))[k]
  {
    if n == 1 {
      return Upto(|items|);
    }
    var order := Order(ChangedWeights(items), Range(|items|));
    mine := TakeShare(order, Weights(ChangedWeights(items), order), k, Empty(n));
  }

  method TakeShare(order: seq<nat>, ws: seq<nat>, k: nat, from: seq<nat>) returns (mine: set<nat>)
    requires k < |from| && |ws| == |order|
    ensures forall j: nat :: j in mine <==> j in Chosen(order, Fill(from, ws).place, k)
  {
    var load := from;
    mine := {};
    ghost var fills := Fills(from, ws);
    assert order[..0] == [];
    for i := 0 to |order|
      invariant load == fills[i].load
      invariant mine == Share(order[..i], fills[i].place, k)
    {
      var lightest := Lightest(load);
      ShareOneMore(order, fills[i].place, lightest, i, k);
      assert Placed(fills[i], fills[i + 1], ws[i]);
      load := load[lightest := load[lightest] + ws[i]];
      if lightest == k {
        mine := mine + {order[i]};
      }
    }
    assert order[..|order|] == order;
  }

  /** What stands in this bin. */
  ghost function Share(order: seq<nat>, place: seq<nat>, k: nat): set<nat>
    requires |place| == |order|
  {
    set j | j in Chosen(order, place, k)
  }

  lemma ShareOneMore(order: seq<nat>, place: seq<nat>, b: nat, i: nat, k: nat)
    requires |place| == i < |order|
    ensures Share(order[..i + 1], place + [b], k) == Share(order[..i], place, k) + (if b == k then {order[i]} else {})
  {
    ChosenOneMore(order, place, b, i, k);
  }

  lemma ChosenOneMore(order: seq<nat>, place: seq<nat>, b: nat, i: nat, k: nat)
    requires |place| == i < |order|
    ensures Chosen(order[..i + 1], place + [b], k) ==
            Chosen(order[..i], place, k) + (if b == k then [order[i]] else [])
  {
    assert order[..i + 1][..i] == order[..i] && (place + [b])[..i] == place;
  }

  /** The shards of a list partition it. */
  lemma MutantShardsPartition(items: seq<Changed>, n: nat, i: nat)
    requires n > 0 && i < |items|
    ensures exists k :: 0 <= k < n && i in Bins(ChangedWeights(items), Range(|items|), Empty(n))[k]
    ensures forall k, l :: (0 <= k < n && 0 <= l < n
                            && i in Bins(ChangedWeights(items), Range(|items|), Empty(n))[k]
                            && i in Bins(ChangedWeights(items), Range(|items|), Empty(n))[l]) ==> k == l
  {
    var keys := Range(|items|);
    assert keys[i] == i;
    InOneBin(ChangedWeights(items), keys, n, i);
  }

  lemma InOneBin(weight: seq<nat>, keys: seq<nat>, n: nat, i: nat)
    requires n > 0 && NoDuplicates(keys) && i in keys
    ensures exists k :: 0 <= k < n && i in Bins(weight, keys, Empty(n))[k]
    ensures forall k, l :: (0 <= k < n && 0 <= l < n && i in Bins(weight, keys, Empty(n))[k]
                            && i in Bins(weight, keys, Empty(n))[l]) ==> k == l
  {
    BinsPartition(weight, keys, Empty(n), i);
  }
}
