/** Reading one run back to the entries seeded together in it: `attribute` and `attribute_lines`
    of tools/check-guards-fire.py. */
module Attribution {
  import opened Prelude
  import opened Seeding
  import opened Batches

  datatype Level = Error | Ice | Lower

  datatype Span = Span(file: Path, first: nat, last: nat)

  /** One line of output, parsed: plain text, JSON cut short, a record of another kind, or a
      diagnostic. `fromRustc` is that its code is rustc's, or it has none; `spans` are
      its primary ones. `Ice` is a level that starts with `error` and isn't it. */
  datatype Said =
    | Plain
    | Broken
    | Other
    | Diagnostic(level: Level, fromRustc: bool, spans: seq<Span>, rendered: string)

  predicate Contains(text: string, part: string) {
    exists i :: 0 <= i <= |text| && part <= text[i..]
  }

  predicate Carries(messages: seq<string>, p: nat, rendered: string) {
    p < |messages| && messages[p] != "" && Contains(rendered, messages[p])
  }

  predicate InRegion(regions: set<Region>, span: Span) {
    exists r :: r in regions && r.file == span.file && r.first <= span.first && span.last <= r.last
  }

  /** Every span, and there is one, lies on entry `p`'s lines. */
  predicate OnLinesOf(regions: map<nat, set<Region>>, p: nat, spans: seq<Span>) {
    p in regions && spans != [] && forall i :: 0 <= i < |spans| ==> InRegion(regions[p], spans[i])
  }

  predicate StopsCompile(line: Said) {
    line.Diagnostic? && !line.level.Lower? && line.fromRustc
  }

  predicate IsLint(line: Said) {
    line.Diagnostic? && line.level == Error
  }

  /** The first entry, in position order, below `n` whose lines hold the spans. */
  function Owner(regions: map<nat, set<Region>>, spans: seq<Span>, n: nat): (owner: Option<nat>)
    ensures owner.Some? ==> owner.value < n && OnLinesOf(regions, owner.value, spans)
    ensures owner.Some? ==> forall p: nat :: p < owner.value ==> !OnLinesOf(regions, p, spans)
    ensures owner.None? ==> forall p: nat :: p < n ==> !OnLinesOf(regions, p, spans)
  {
    if n == 0 then None
    else
      var before := Owner(regions, spans, n - 1);
      if before.Some? then before else if OnLinesOf(regions, n - 1, spans) then Some(n - 1) else None
  }

  ghost predicate Silences(code: int, said: seq<Said>) {
    code == 0 || exists line :: line in said && (line.Broken? || StopsCompile(line))
  }

  /** An error in the run carries `p`'s message on `p`'s own lines. */
  ghost predicate Fires(said: seq<Said>, regions: map<nat, set<Region>>, messages: seq<string>, p: nat) {
    exists line :: line in said && IsLint(line) && Carries(messages, p, line.rendered)
                   && Owner(regions, line.spans, |messages|) == Some(p)
  }

  /** An error carries it on no one entry's lines. */
  ghost predicate Taints(said: seq<Said>, regions: map<nat, set<Region>>, messages: seq<string>, p: nat) {
    exists line :: line in said && IsLint(line) && Carries(messages, p, line.rendered)
                   && Owner(regions, line.spans, |messages|) == None
  }

  ghost predicate Proves(said: seq<Said>, code: int, regions: map<nat, set<Region>>, messages: seq<string>, p: nat) {
    && !Silences(code, said) && p in regions
    && Fires(said, regions, messages, p) && !Taints(said, regions, messages, p)
  }

  /** Of the entries of `regions`, those the run proves and those it doesn't. */
  method Attribute(said: seq<Said>, code: int, regions: map<nat, set<Region>>, messages: seq<string>)
    returns (proven: set<nat>, unproven: set<nat>)
    requires forall p :: p in regions ==> p < |messages|
    ensures forall p :: p in proven <==> Proves(said, code, regions, messages, p)
    ensures unproven == regions.Keys - proven
  {
    if code == 0 {
      return {}, regions.Keys;
    }
    var fired, tainted := {}, {};
    for i := 0 to |said|
      invariant forall k :: 0 <= k < i ==> !said[k].Broken? && !StopsCompile(said[k])
      invariant forall p :: p in fired <==> p in regions && Fires(said[..i], regions, messages, p)
      invariant forall p :: p in tainted <==> p in regions && Taints(said[..i], regions, messages, p)
    {
      var line := said[i];
      if line.Broken? || StopsCompile(line) {
        assert line in said;
        return {}, regions.Keys;
      }
      OneMoreLine(said, i, regions, messages);
      if IsLint(line) {
        var owner := Owner(regions, line.spans, |messages|);
        var carrying := set p | p in regions && Carries(messages, p, line.rendered);
        if owner.Some? {
          fired := fired + (carrying * {owner.value});
        } else {
          tainted := tainted + carrying;
        }
      }
    }
    assert said[..|said|] == said;
    proven := fired - tainted;
    unproven := regions.Keys - proven;
  }

  lemma OneMoreLine(said: seq<Said>, i: nat, regions: map<nat, set<Region>>, messages: seq<string>)
    requires i < |said|
    ensures forall p :: Fires(said[..i + 1], regions, messages, p) <==>
                        Fires(said[..i], regions, messages, p) || Fires([said[i]], regions, messages, p)
    ensures forall p :: Taints(said[..i + 1], regions, messages, p) <==>
                        Taints(said[..i], regions, messages, p) || Taints([said[i]], regions, messages, p)
  {
    assert said[..i + 1] == said[..i] + [said[i]];
    assert said[i] in [said[i]];
  }

  /** No two entries' regions share a line of a file. */
  ghost predicate Disjoint(regions: map<nat, set<Region>>) {
    forall p, q, r, s :: (p in regions && q in regions && p != q && r in regions[p] && s in regions[q]
                          && r.file == s.file) ==>
                           r.last < s.first || s.last < r.first
  }

  /** With regions that don't meet, a diagnostic is on at most one entry's lines, so whose it is
      doesn't depend on the order the entries are looked at in. */
  lemma OneOwner(regions: map<nat, set<Region>>, spans: seq<Span>, p: nat, q: nat)
    requires Disjoint(regions) && OnLinesOf(regions, p, spans) && OnLinesOf(regions, q, spans)
    requires forall i :: 0 <= i < |spans| ==> spans[i].first <= spans[i].last
    ensures p == q
  {
    assert InRegion(regions[p], spans[0]) && InRegion(regions[q], spans[0]);
    var r :| r in regions[p] && r.file == spans[0].file && r.first <= spans[0].first && spans[0].last <= r.last;
    var s :| s in regions[q] && s.file == spans[0].file && s.first <= spans[0].first && spans[0].last <= s.last;
  }

  /** What an entry counted as proven has behind it, and what it can't have: an error carrying its
      message wholly on its own lines and no one else's, and no error carrying it off every
      entry's lines. */
  lemma ProvenMeans(said: seq<Said>, code: int, regions: map<nat, set<Region>>, messages: seq<string>, p: nat)
    requires Disjoint(regions) && forall p :: p in regions ==> p < |messages|
    requires forall line, i :: line in said && line.Diagnostic? && 0 <= i < |line.spans| ==>
                                 line.spans[i].first <= line.spans[i].last
    requires Proves(said, code, regions, messages, p)
    ensures exists line :: line in said && IsLint(line) && Carries(messages, p, line.rendered)
                           && OnLinesOf(regions, p, line.spans)
                           && forall q :: q != p ==> !OnLinesOf(regions, q, line.spans)
    ensures forall line :: line in said && IsLint(line) && Carries(messages, p, line.rendered) ==>
                             exists q :: OnLinesOf(regions, q, line.spans)
  {
    var line :| line in said && IsLint(line) && Carries(messages, p, line.rendered)
                && Owner(regions, line.spans, |messages|) == Some(p);
    forall q | q != p ensures !OnLinesOf(regions, q, line.spans) {
      if OnLinesOf(regions, q, line.spans) {
        OneOwner(regions, line.spans, p, q);
      }
    }
    forall line | line in said && IsLint(line) && Carries(messages, p, line.rendered)
      ensures exists q :: OnLinesOf(regions, q, line.spans)
    {
      var owner := Owner(regions, line.spans, |messages|);
      assert owner.Some?;
      assert OnLinesOf(regions, owner.value, line.spans);
    }
  }

  /** Each error's spans are on one entry's lines, or on none's, as its owner says. */
  lemma OwnerIs(regions: map<nat, set<Region>>, spans: seq<Span>, n: nat, p: nat)
    requires Disjoint(regions) && forall q :: q in regions ==> q < n
    requires forall i :: 0 <= i < |spans| ==> spans[i].first <= spans[i].last
    ensures Owner(regions, spans, n) == Some(p) <==> OnLinesOf(regions, p, spans)
    ensures Owner(regions, spans, n) == None <==> forall q :: !OnLinesOf(regions, q, spans)
  {
    if OnLinesOf(regions, p, spans) {
      OneOwner(regions, spans, p, Owner(regions, spans, n).value);
    }
  }

  /** Exactly what proves an entry: a run that failed, whose every line could be read and none of which
      stops the compile, with an error that carries the entry's message on the entry's own lines, and
      none that carries it on no entry's. */
  lemma ProvenIff(said: seq<Said>, code: int, regions: map<nat, set<Region>>, messages: seq<string>, p: nat)
    requires Disjoint(regions) && forall q :: q in regions ==> q < |messages|
    requires forall line, i :: line in said && line.Diagnostic? && 0 <= i < |line.spans| ==>
                                 line.spans[i].first <= line.spans[i].last
    ensures Proves(said, code, regions, messages, p) <==>
            && p in regions && code != 0
            && (forall line :: line in said ==>
                                 !line.Broken? && !(line.Diagnostic? && !line.level.Lower? && line.fromRustc))
            && (exists line :: line in said && line.Diagnostic? && line.level == Error
                               && Carries(messages, p, line.rendered) && OnLinesOf(regions, p, line.spans))
            && (forall line :: line in said && line.Diagnostic? && line.level == Error
                               && Carries(messages, p, line.rendered) ==>
                                 exists q :: OnLinesOf(regions, q, line.spans))
  {
    forall line | line in said && line.Diagnostic?
      ensures Owner(regions, line.spans, |messages|) == Some(p) <==> OnLinesOf(regions, p, line.spans)
      ensures Owner(regions, line.spans, |messages|) == None <==> forall q :: !OnLinesOf(regions, q, line.spans)
    {
      OwnerIs(regions, line.spans, |messages|, p);
    }
  }

  /** The order the diagnostics come in changes nothing. */
  lemma OrderFree(said: seq<Said>, shuffled: seq<Said>, code: int, regions: map<nat, set<Region>>,
                  messages: seq<string>, p: nat)
    requires multiset(said) == multiset(shuffled)
    ensures Proves(said, code, regions, messages, p) == Proves(shuffled, code, regions, messages, p)
  {
    assert forall line :: line in said <==> line in multiset(said);
    assert forall line :: line in shuffled <==> line in multiset(shuffled);
  }

  // ── script batches ─────────────────────────────────────────────────────────

  /** The lines, among the first `n`, that carry a message. */
  function Carrying(lines: seq<string>, message: string, n: nat): (r: seq<nat>)
    requires n <= |lines|
    ensures Increasing(r)
    ensures forall i: nat :: i in r <==> i < n && message != "" && Contains(lines[i], message)
  {
    if n == 0 then []
    else
      var rest := Carrying(lines, message, n - 1);
      assert forall k :: 0 <= k < |rest| ==> rest[k] in rest;
      if message != "" && Contains(lines[n - 1], message) then rest + [n - 1] else rest
  }

  /** The entries that seeded a file the line names, under the reader `names` of its paths. */
  function NamedIn(names: (string, Path) -> bool, files: seq<set<Path>>, line: string): set<nat> {
    set p, f | 0 <= p < |files| && f in files[p] && names(line, f) :: p
  }

  /** Exactly one line carries `p`'s message, and the only seeded files it names are `p`'s. */
  ghost predicate LineProves(names: (string, Path) -> bool, lines: seq<string>, messages: seq<string>,
                             files: seq<set<Path>>, p: nat, i: nat)
    requires |messages| == |files|
  {
    p < |files| && Carrying(lines, messages[p], |lines|) == [i] && i < |lines| && NamedIn(names, files, lines[i]) == {p}
  }

  /** The line that proves entry `p`, if one does. */
  function ProvingLine(names: (string, Path) -> bool, lines: seq<string>, messages: seq<string>,
                       files: seq<set<Path>>, p: nat): Option<nat>
    requires |messages| == |files| && p < |files|
  {
    var carrying := Carrying(lines, messages[p], |lines|);
    if |carrying| == 1 && carrying[0] < |lines| && NamedIn(names, files, lines[carrying[0]]) == {p}
    then Some(carrying[0])
    else None
  }

  lemma ProvenByItsLine(names: (string, Path) -> bool, lines: seq<string>, messages: seq<string>,
                        files: seq<set<Path>>, p: nat)
    requires |messages| == |files| && p < |files|
    ensures forall i: nat :: LineProves(names, lines, messages, files, p, i) <==>
                             ProvingLine(names, lines, messages, files, p) == Some(i)
  {
  }

  method AttributeLines(names: (string, Path) -> bool, lines: seq<string>, code: int,
                        messages: seq<string>, files: seq<set<Path>>)
    returns (proven: map<nat, nat>, alone: set<nat>)
    requires |messages| == |files|
    ensures forall p: nat :: p in proven <==> code != 0 && exists i :: LineProves(names, lines, messages, files, p, i)
    ensures forall p :: p in proven ==> LineProves(names, lines, messages, files, p, proven[p])
    ensures forall p: nat :: p in alone <==> p < |files| && p !in proven
  {
    proven, alone := map[], {};
    if code == 0 {
      alone := Upto(|files|);
      return;
    }
    for p := 0 to |files|
      invariant forall q :: q in proven ==> q < p && ProvingLine(names, lines, messages, files, q) == Some(proven[q])
      invariant forall q: nat :: q in alone <==> q < p && q !in proven
      invariant forall q :: q in alone ==> ProvingLine(names, lines, messages, files, q) == None
    {
      var carrying := Carrying(lines, messages[p], |lines|);
      if |carrying| != 1 {
        alone := alone + {p};
      } else {
        var i := carrying[0];
        assert i in carrying;
        if NamedIn(names, files, lines[i]) == {p} {
          proven := proven[p := i];
        } else {
          alone := alone + {p};
        }
      }
    }
    forall p: nat | p < |files| ensures p in proven <==> exists i :: LineProves(names, lines, messages, files, p, i) {
      ProvenByItsLine(names, lines, messages, files, p);
    }
    forall p | p in proven ensures LineProves(names, lines, messages, files, p, proven[p]) {
      ProvenByItsLine(names, lines, messages, files, p);
    }
  }

  /** A line proves one entry: the files it names are that entry's alone. */
  lemma LineProvesOne(names: (string, Path) -> bool, lines: seq<string>, messages: seq<string>, files: seq<set<Path>>,
                      p: nat, q: nat, i: nat)
    requires |messages| == |files|
    requires LineProves(names, lines, messages, files, p, i) && LineProves(names, lines, messages, files, q, i)
    ensures p == q
  {
    assert p in NamedIn(names, files, lines[i]) && q in {p};
  }
}
