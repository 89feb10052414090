/** Quoted YAML scalars that go on over several lines: what `_Yaml.quoted` reads of any lines that
    spell one. */
module QuotedLines {
  import opened Prelude
  import opened Quoted

  /** How a line ends: in white space, in an escaped space and white space, or in a backslash. */
  datatype Ending = Open(behind: string) | Spaced(behind: string) | Broken

  /** What one line of a scalar holds: a piece of it between white space, and what that spells. */
  datatype Piece = Piece(before: string, text: string, ending: Ending, value: string)

  function Line(p: Piece): string {
    p.before + p.text + Tail(p.ending)
  }

  function Tail(ending: Ending): string {
    match ending
    case Open(behind) => behind
    case Spaced(behind) => "\\ " + behind
    case Broken => "\\"
  }

  function Behind(ending: Ending): string {
    if ending.Broken? then "" else ending.behind
  }

  ghost predicate Fits(quote: char, p: Piece) {
    && AllBlank(p.before) && AllBlank(Behind(p.ending)) && Spells(quote, p.text, p.value)
    && (!p.ending.Open? ==> quote == '"')
  }

  /** `rest` and the lines from `at` hold these pieces, and the closing quote stands behind the last. */
  ghost predicate Lays(rest: string, lines: seq<string>, at: nat, quote: char, pieces: seq<Piece>, after: string)
    decreases |pieces|
  {
    pieces != [] && Fits(quote, pieces[0]) &&
    if |pieces| == 1 then !pieces[0].ending.Broken? && rest == Line(pieces[0]) + [quote] + after
    else rest == Line(pieces[0]) && at < |lines| && Lays(lines[at], lines, at + 1, quote, pieces[1..], after)
  }

  ghost function Values(pieces: seq<Piece>): seq<string> {
    if pieces == [] then [] else [pieces[0].value] + Values(pieces[1..])
  }

  ghost function Stripped(pieces: seq<Piece>): seq<string> {
    if pieces == [] then [] else [Strip(Line(pieces[0]))] + Stripped(pieces[1..])
  }

  // ── the lines that are gathered ────────────────────────────────────────────

  lemma {:induction false} BlankBody(quote: char, text: string)
    requires IsQuote(quote) && AllBlank(text)
    ensures Body(text, quote)
  {
    if text != "" {
      BlankBody(quote, text[1..]);
    }
  }

  lemma {:induction false} BodyConcat(quote: char, a: string, b: string)
    requires IsQuote(quote) && Body(a, quote) && Body(b, quote)
    ensures Body(a + b, quote)
    decreases |a|
  {
    if a == "" {
      assert a + b == b;
    } else {
      var n := if a[0] == quote || (quote == '"' && a[0] == '\\') then 2 else 1;
      BodyConcat(quote, a[n..], b);
      assert (a + b)[n..] == a[n..] + b;
    }
  }

  lemma {:induction false} BodyNeverCloses(quote: char, text: string, from: nat)
    requires IsQuote(quote) && from <= |text| && Body(text[from..], quote)
    ensures Close(text, quote, from) == None
    decreases |text| - from
  {
    if from < |text| {
      var here := text[from..];
      var n := if text[from] == quote || (quote == '"' && text[from] == '\\') then 2 else 1;
      assert here[0] == text[from] && (|here| > 1 ==> here[1] == text[from + 1]);
      assert here[n..] == text[from + n..];
      BodyNeverCloses(quote, text, from + n);
    }
  }

  lemma {:induction false} DanglingNeverCloses(text: string, from: nat)
    requires from <= |text| && Body(text[from..], '"')
    ensures Close(text + "\\", '"', from) == None
    decreases |text| - from
  {
    if from < |text| {
      var here := text[from..];
      var n := if text[from] == '\\' then 2 else 1;
      assert here[0] == text[from];
      assert here[n..] == text[from + n..];
      DanglingNeverCloses(text, from + n);
    }
  }

  lemma ClosedBody(quote: char, p: Piece)
    requires IsQuote(quote) && Fits(quote, p) && !p.ending.Broken?
    ensures Body(Line(p), quote)
  {
    BlankBody(quote, p.before);
    BlankBody(quote, p.ending.behind);
    SpelledBody(quote, p.text, p.value);
    BodyConcat(quote, p.before, p.text);
    if p.ending.Spaced? {
      SpacedBody(p.ending.behind);
    }
    BodyConcat(quote, p.before + p.text, Tail(p.ending));
  }

  lemma SpacedBody(behind: string)
    requires Body(behind, '"')
    ensures Body("\\ " + behind, '"')
  {
    assert ("\\ " + behind)[2..] == behind;
  }

  lemma LineNeverCloses(quote: char, p: Piece)
    requires IsQuote(quote) && Fits(quote, p)
    ensures Close(Line(p), quote, 0) == None
  {
    if p.ending.Broken? {
      BlankBody(quote, p.before);
      SpelledBody(quote, p.text, p.value);
      BodyConcat(quote, p.before, p.text);
      assert (p.before + p.text)[0..] == p.before + p.text;
      DanglingNeverCloses(p.before + p.text, 0);
    } else {
      ClosedBody(quote, p);
      assert Line(p)[0..] == Line(p);
      BodyNeverCloses(quote, Line(p), 0);
    }
  }

  lemma GatherLast(done: seq<string>, lines: seq<string>, at: nat, quote: char, p: Piece, after: string)
    requires IsQuote(quote) && (quote == '\'' && after != "" ==> after[0] != '\'') && Fits(quote, p)
    requires !p.ending.Broken? && done != []
    ensures Gathers(Gather(done, Line(p) + [quote] + after, quote, lines, at), done + [Strip(Line(p))], after, at)
  {
    var (rest, inner) := (Line(p) + [quote] + after, Line(p));
    ClosedBody(quote, p);
    assert "" + inner == inner;
    ClosesAfterBody(quote, "", inner, after);
    assert rest[..|inner|] == inner && rest[|inner| + 1..] == after;
  }

  /** What has been gathered: these words, `after` behind the closing quote, and the next line. */
  ghost predicate Gathers(g: Option<Gathered>, words: seq<string>, after: string, at: int) {
    && g.Some? && g.value.end < |g.value.rest| && g.value.rest[g.value.end + 1..] == after
    && Words(g.value) == words && g.value.at == at
  }

  lemma {:induction false} GatherPieces(done: seq<string>, rest: string, lines: seq<string>, at: nat, quote: char,
                                        pieces: seq<Piece>, after: string)
    requires IsQuote(quote) && (quote == '\'' && after != "" ==> after[0] != '\'')
    requires Lays(rest, lines, at, quote, pieces, after) && (done != [] || |pieces| > 1)
    ensures Gathers(Gather(done, rest, quote, lines, at), done + Stripped(pieces), after, at + |pieces| - 1)
    decreases |pieces|
  {
    var p := pieces[0];
    StrippedOnto(done, pieces);
    if |pieces| == 1 {
      GatherLast(done, lines, at, quote, p, after);
      assert done + [Strip(Line(p))] + Stripped(pieces[1..]) == done + [Strip(Line(p))];
    } else {
      GatherOn(done, lines, at, quote, p);
      GatherPieces(done + [Strip(Line(p))], lines[at], lines, at + 1, quote, pieces[1..], after);
    }
  }

  lemma GatherOn(done: seq<string>, lines: seq<string>, at: nat, quote: char, p: Piece)
    requires IsQuote(quote) && Fits(quote, p) && at < |lines|
    ensures Gather(done, Line(p), quote, lines, at) == Gather(done + [Strip(Line(p))], lines[at], quote, lines, at + 1)
  {
    LineNeverCloses(quote, p);
  }

  lemma StrippedOnto(done: seq<string>, pieces: seq<Piece>)
    requires pieces != []
    ensures done + Stripped(pieces) == done + [Strip(Line(pieces[0]))] + Stripped(pieces[1..])
  {
  }

  /** Over several lines what is read is the lines, each stripped, with a space between each two. */
  lemma ReadsStripped(text: string, lines: seq<string>, at: nat, pieces: seq<Piece>, after: string)
    requires text != "" && IsQuote(text[0]) && |pieces| > 1 && IsComment(Strip(after))
    requires Lays(text[1..], lines, at, text[0], pieces, after)
    ensures Read(text, lines, at) == Decode(text[0], JoinWords(Stripped(pieces)))
    ensures Gathers(Gather([], text[1..], text[0], lines, at), Stripped(pieces), after, at + |pieces| - 1)
  {
    if after != "" && after[0] == '\'' {
      StripRightKeepsFirst(after);
    }
    GatherPieces([], text[1..], lines, at, text[0], pieces, after);
    assert [] + Stripped(pieces) == Stripped(pieces);
  }

  // ── what they decode to ────────────────────────────────────────────────────

  /** Stripping takes off the white space a piece stands in, and no more. */
  predicate Bare(p: Piece) {
    && (p.text != "" ==> !Blank(p.text[0]))
    && (p.text != "" && p.ending.Open? ==> !Blank(p.text[|p.text| - 1]))
  }

  ghost predicate AllBare(pieces: seq<Piece>) {
    forall i :: 0 <= i < |pieces| ==> Bare(pieces[i])
  }

  /** A bare piece as it's read: an escaped space at its end loses the space. */
  function Word(p: Piece): string {
    if p.ending.Open? then p.text else p.text + "\\"
  }

  ghost function WordsOf(pieces: seq<Piece>): seq<string> {
    if pieces == [] then [] else [Word(pieces[0])] + WordsOf(pieces[1..])
  }

  lemma StripsToWord(quote: char, p: Piece)
    requires Fits(quote, p) && Bare(p)
    ensures Strip(Line(p)) == Word(p)
  {
    var pad := if p.ending.Spaced? then " " + Behind(p.ending) else Behind(p.ending);
    WordAndPad(p, pad);
    StripPads(p.before, Word(p), pad);
  }

  lemma WordAndPad(p: Piece, pad: string)
    requires pad == if p.ending.Spaced? then " " + Behind(p.ending) else Behind(p.ending)
    ensures Line(p) == p.before + Word(p) + pad
  {
    assert p.ending.Spaced? ==> "\\ " + Behind(p.ending) == "\\" + pad;
  }

  ghost predicate AllFit(quote: char, pieces: seq<Piece>) {
    forall i :: 0 <= i < |pieces| ==> Fits(quote, pieces[i])
  }

  lemma {:induction false} StrippedToWords(quote: char, pieces: seq<Piece>)
    requires AllFit(quote, pieces) && AllBare(pieces)
    ensures Stripped(pieces) == WordsOf(pieces)
  {
    if pieces != [] {
      StripsToWord(quote, pieces[0]);
      assert Fits(quote, pieces[0]) && Bare(pieces[0]);
      StrippedToWords(quote, pieces[1..]);
    }
  }

  lemma {:induction false} LaysFit(rest: string, lines: seq<string>, at: nat, quote: char, pieces: seq<Piece>,
                                   after: string)
    requires Lays(rest, lines, at, quote, pieces, after)
    ensures AllFit(quote, pieces) && pieces != [] && !pieces[|pieces| - 1].ending.Broken?
    decreases |pieces|
  {
    if |pieces| > 1 {
      LaysFit(lines[at], lines, at + 1, quote, pieces[1..], after);
      assert forall i :: 0 < i < |pieces| ==> pieces[i] == pieces[1..][i - 1];
    }
  }

  /** A word and the space after it spell its value and a space, whether or not it ends in a backslash. */
  lemma WordSpells(quote: char, p: Piece)
    requires IsQuote(quote) && Fits(quote, p)
    ensures Spells(quote, Word(p) + " ", p.value + " ")
  {
    if p.ending.Open? {
      assert Spells(quote, " "[1..], " "[1..]);
      SpellsConcat(quote, p.text, p.value, " ", " ");
    } else {
      EscapedSpace("\\ ");
      SpellsConcat(quote, p.text, p.value, "\\ ", " ");
      assert p.text + "\\" + " " == p.text + "\\ ";
    }
  }

  lemma EscapedSpace(gap: string)
    requires gap == "\\ "
    ensures Spells('"', gap, " ")
  {
    assert Spells('"', gap[2..], " "[1..]);
  }

  lemma WordsCons(p: Piece, rest: seq<Piece>)
    requires rest != []
    ensures JoinWords(WordsOf([p] + rest)) == Word(p) + " " + JoinWords(WordsOf(rest))
    ensures JoinWords(Values([p] + rest)) == p.value + " " + JoinWords(Values(rest))
  {
    assert ([p] + rest)[1..] == rest;
    assert WordsOf([p] + rest)[1..] == WordsOf(rest) && Values([p] + rest)[1..] == Values(rest);
    assert WordsOf(rest) != [] && Values(rest) != [];
  }

  lemma {:induction false} WordsSpell(quote: char, pieces: seq<Piece>)
    requires IsQuote(quote) && AllFit(quote, pieces) && pieces != [] && pieces[|pieces| - 1].ending.Open?
    ensures Spells(quote, JoinWords(WordsOf(pieces)), JoinWords(Values(pieces)))
  {
    var (p, rest) := (pieces[0], pieces[1..]);
    assert Fits(quote, p);
    if rest != [] {
      WordsSpell(quote, rest);
      assert pieces == [p] + rest;
      WordsCons(p, rest);
      WordSpells(quote, p);
      SpellsConcat(quote, Word(p) + " ", p.value + " ", JoinWords(WordsOf(rest)), JoinWords(Values(rest)));
    }
  }

  /** A scalar folded over lines reads as its pieces' values with a space between each two. */
  lemma FoldedReadsBack(text: string, lines: seq<string>, at: nat, pieces: seq<Piece>, after: string)
    requires text != "" && IsQuote(text[0]) && |pieces| > 1 && IsComment(Strip(after))
    requires Lays(text[1..], lines, at, text[0], pieces, after)
    requires AllBare(pieces) && pieces[|pieces| - 1].ending.Open?
    ensures Read(text, lines, at) == Ok(JoinWords(Values(pieces)))
  {
    var quote := text[0];
    ReadsStripped(text, lines, at, pieces, after);
    LaysFit(text[1..], lines, at, quote, pieces, after);
    StrippedToWords(quote, pieces);
    WordsSpell(quote, pieces);
    SpelledBody(quote, JoinWords(WordsOf(pieces)), JoinWords(Values(pieces)));
    DecodeIsSpelling(quote, JoinWords(WordsOf(pieces)), JoinWords(Values(pieces)));
  }

  // ── an escaped space before the closing quote ──────────────────────────────

  lemma {:induction false} DanglingFails(text: string, value: string)
    requires Spells('"', text, value)
    ensures Unescape(text + "\\") == Err(BadEscape(""))
    decreases |text|
  {
    var all := text + "\\";
    if text != "" {
      var n := if text[0] == '\\' then 2 else 1;
      assert all[0] == text[0] && all[n..] == text[n..] + "\\" && (n == 2 ==> all[1] == text[1]);
      DanglingFails(text[n..], value[1..]);
    }
  }

  lemma {:induction false} LastSpaced(pieces: seq<Piece>, p: Piece)
    requires p.ending.Spaced?
    ensures JoinWords(WordsOf(pieces + [p])) == JoinWords(WordsOf(pieces + [p.(ending := Open(""))])) + "\\"
  {
    var q := p.(ending := Open(""));
    if pieces == [] {
      assert [] + [p] == [p] && [] + [q] == [q];
    } else {
      var (first, rest) := (pieces[0], pieces[1..]);
      LastSpaced(rest, p);
      assert pieces + [p] == [first] + (rest + [p]) && pieces + [q] == [first] + (rest + [q]);
      WordsCons(first, rest + [p]);
      WordsCons(first, rest + [q]);
    }
  }

  /** It is stripped down to its backslash, which then escapes nothing. */
  lemma SpacedEndFails(text: string, lines: seq<string>, at: nat, pieces: seq<Piece>, after: string)
    requires text != "" && IsQuote(text[0]) && |pieces| > 1 && IsComment(Strip(after))
    requires Lays(text[1..], lines, at, text[0], pieces, after)
    requires AllBare(pieces) && pieces[|pieces| - 1].ending.Spaced?
    ensures Read(text, lines, at) == Err(BadEscape(""))
  {
    ReadsStripped(text, lines, at, pieces, after);
    LaysFit(text[1..], lines, at, text[0], pieces, after);
    StrippedToWords(text[0], pieces);
    assert Fits(text[0], pieces[|pieces| - 1]);
    SpacedWordsFail(pieces);
  }

  lemma ClosedSpells(front: seq<Piece>, p: Piece)
    requires AllFit('"', front + [p])
    ensures var closed := front + [p.(ending := Open(""))];
            Spells('"', JoinWords(WordsOf(closed)), JoinWords(Values(closed)))
  {
    var (pieces, q) := (front + [p], p.(ending := Open("")));
    var closed := front + [q];
    assert pieces[|front|] == p && Fits('"', q);
    forall i | 0 <= i < |closed| ensures Fits('"', closed[i]) {
      assert Fits('"', pieces[i]);
    }
    WordsSpell('"', closed);
  }

  lemma SpacedWordsFail(pieces: seq<Piece>)
    requires pieces != [] && AllFit('"', pieces) && pieces[|pieces| - 1].ending.Spaced?
    ensures Unescape(JoinWords(WordsOf(pieces))) == Err(BadEscape(""))
  {
    var (front, p) := (pieces[..|pieces| - 1], pieces[|pieces| - 1]);
    var closed := front + [p.(ending := Open(""))];
    assert pieces == front + [p];
    LastSpaced(front, p);
    ClosedSpells(front, p);
    DanglingFails(JoinWords(WordsOf(closed)), JoinWords(Values(closed)));
  }
}
