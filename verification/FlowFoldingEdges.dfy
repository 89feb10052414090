/** Quoted scalars of several lines that the reader reads as something else than YAML 1.2.2 does: one
    for each way in which lines can fail to stand plainly. */
module FlowFoldingEdges {
  import opened Prelude
  import opened Quoted
  import opened QuotedLines
  import opened FlowFolding

  /** A piece that spells itself. */
  function Of(before: string, text: string, ending: Ending): Piece {
    Piece(before, text, ending, text)
  }

  /** These lines hold these pieces, and read as the one value where the standard's is the other. */
  ghost predicate ReadsFor(text: string, lines: seq<string>, pieces: seq<Piece>, read: string, standard: string) {
    && text != "" && Legal(pieces) && Lays(text[1..], lines, 0, text[0], pieces, "")
    && Read(text, lines, 0) == Ok(read) && Standard(pieces) == standard
  }

  /** No quote and no backslash. */
  predicate Simple(text: string) {
    '\'' !in text && '"' !in text && '\\' !in text
  }

  lemma {:induction false} SimpleSpells(quote: char, text: string)
    requires IsQuote(quote) && Simple(text)
    ensures Spells(quote, text, text)
  {
    if text != "" {
      SimpleSpells(quote, text[1..]);
    }
  }

  lemma TwoLines(quote: char, text: string, lines: seq<string>, p: Piece, q: Piece)
    requires IsQuote(quote) && text == [quote] + Line(p) && lines == [Line(q) + [quote]]
    requires Simple(p.text) && p.text == p.value && Divided(p) && (p.ending.Open? || quote == '"')
    requires Simple(q.text) && q.text == q.value && Divided(q) && (q.ending.Open? || (q.ending.Spaced? && quote == '"'))
    ensures Legal([p, q]) && Lays(text[1..], lines, 0, quote, [p, q], "")
    ensures Standard([p, q]) == Lead(p) + (Content(p) + (Gap(p.ending.Broken?, 0) + (Content(q) + Trail(q))))
    ensures Values([p, q]) == [p.value, q.value]
    ensures Bare(p) && Bare(q) && q.ending.Open? ==> Read(text, lines, 0) == Ok(p.value + (" " + q.value))
    ensures Bare(p) && Bare(q) && q.ending.Spaced? ==> Read(text, lines, 0) == Err(BadEscape(""))
  {
    var pieces := [p, q];
    SimpleSpells(quote, p.text);
    SimpleSpells(quote, q.text);
    assert pieces[1..] == [q] && Line(q) + [quote] + "" == Line(q) + [quote];
    assert Lays(lines[0], lines, 1, quote, pieces[1..], "");
    assert Values(pieces[1..]) == [q.value];
    assert JoinWords(Values(pieces)) == p.value + (" " + q.value) by {
      WordsAhead(pieces);
      assert Times(' ', 1) == " ";
    }
    if Bare(p) && Bare(q) {
      if q.ending.Open? {
        FoldedReadsBack(text, lines, 0, pieces, "");
      } else {
        SpacedEndFails(text, lines, 0, pieces, "");
      }
    }
  }

  lemma TwoRead(quote: char, text: string, line: string, p: Piece, q: Piece, read: string, standard: string)
    requires IsQuote(quote) && text == [quote] + Line(p) && line == Line(q) + [quote]
    requires Simple(p.text) && p.text == p.value && Divided(p) && Bare(p) && (p.ending.Open? || quote == '"')
    requires Simple(q.text) && q.text == q.value && Divided(q) && Bare(q) && q.ending.Open?
    requires read == p.value + (" " + q.value)
    requires standard == Lead(p) + (Content(p) + (Gap(p.ending.Broken?, 0) + (Content(q) + Trail(q))))
    ensures ReadsFor(text, [line], [p, q], read, standard)
  {
    TwoLines(quote, text, [line], p, q);
  }

  ghost predicate RefusedFor(text: string, lines: seq<string>, pieces: seq<Piece>, standard: string) {
    && text != "" && Legal(pieces) && Lays(text[1..], lines, 0, text[0], pieces, "")
    && Read(text, lines, 0) == Err(BadEscape("")) && Standard(pieces) == standard
  }

  lemma TwoRefused(text: string, line: string, p: Piece, q: Piece, standard: string)
    requires text == ['"'] + Line(p) && line == Line(q) + ['"']
    requires Simple(p.text) && p.text == p.value && Divided(p) && Bare(p) && p.ending.Open?
    requires Simple(q.text) && q.text == q.value && Divided(q) && Bare(q) && q.ending.Spaced?
    requires standard == Lead(p) + (Content(p) + (" " + (Content(q) + Trail(q))))
    ensures RefusedFor(text, [line], [p, q], standard)
  {
    TwoLines('"', text, [line], p, q);
  }

  /** Whatever white space stands before the first line's text, in quotes of either kind. */
  lemma LeadIsLost(quote: char, pad: string)
    requires IsQuote(quote) && AllWhite(pad)
    ensures ReadsFor([quote] + (pad + "a"), ["b" + [quote]], [Of(pad, "a", Open("")), Of("", "b", Open(""))],
                     "a b", pad + "a b")
  {
    var (p, q) := (Of(pad, "a", Open("")), Of("", "b", Open("")));
    assert Line(p) == pad + "a" && Line(q) == "b";
    assert pad + "a b" == pad + ("a" + (" " + ("b" + "")));
    TwoRead(quote, [quote] + (pad + "a"), "b" + [quote], p, q, "a b", pad + "a b");
  }

  /** Or behind the last line's. */
  lemma TrailIsLost(quote: char, pad: string)
    requires IsQuote(quote) && AllWhite(pad)
    ensures ReadsFor([quote] + "a", ["b" + pad + [quote]], [Of("", "a", Open("")), Of("", "b", Open(pad))],
                     "a b", "a b" + pad)
  {
    var (p, q) := (Of("", "a", Open("")), Of("", "b", Open(pad)));
    assert Line(p) == "a" && Line(q) == "b" + pad;
    assert "a b" + pad == "" + ("a" + (" " + ("b" + pad)));
    TwoRead(quote, [quote] + "a", "b" + pad + [quote], p, q, "a b", "a b" + pad);
  }

  lemma EscapedBreakIsRead()
    ensures ReadsFor("\"a\\", ["b\""], [Of("", "a", Broken), Of("", "b", Open(""))], "a b", "ab")
  {
    assert "b" + ['"'] == "b\"";
    TwoRead('"', "\"a\\", "b\"", Of("", "a", Broken), Of("", "b", Open("")), "a b", "ab");
  }

  lemma EscapedSpaceIsLost()
    ensures ReadsFor("\"a\\ ", ["b\""], [Of("", "a", Spaced("")), Of("", "b", Open(""))], "a b", "a  b")
  {
    assert "b" + ['"'] == "b\"" && "\"" + ("a" + "\\ ") == "\"a\\ ";
    TwoRead('"', "\"a\\ ", "b\"", Of("", "a", Spaced("")), Of("", "b", Open("")), "a b", "a  b");
  }

  /** Before the closing quote, it's refused. */
  lemma EscapedSpaceIsRefused()
    ensures RefusedFor("\"a", ["b\\ \""], [Of("", "a", Open("")), Of("", "b", Spaced(""))], "a b ")
  {
    assert "b\\ " + ['"'] == "b\\ \"";
    TwoRefused("\"a", "b\\ \"", Of("", "a", Open("")), Of("", "b", Spaced("")), "a b ");
  }

  lemma StrippedTwo(p: Piece, q: Piece)
    ensures Stripped([p, q]) == [Strip(Line(p)), Strip(Line(q))]
  {
    assert [p, q][1..] == [q] && Stripped([q]) == [Strip(Line(q))];
  }

  lemma DecodesToItself(quote: char, text: string)
    requires IsQuote(quote) && Simple(text)
    ensures Decode(quote, text) == Ok(text)
  {
    SimpleSpells(quote, text);
    SpelledBody(quote, text, text);
    DecodeIsSpelling(quote, text, text);
  }

  lemma StrippedBehind(c: char, q: Piece)
    requires Blank(c) && Line(q) == "b"
    ensures JoinWords(Stripped([Of("", "a" + [c], Open("")), q])) == "a b"
  {
    var p := Of("", "a" + [c], Open(""));
    assert Line(p) == "" + "a" + [c] && "b" == "" + "b" + "";
    StripPads("", "a", [c]);
    StripPads("", "b", "");
    StrippedTwo(p, q);
  }

  /** White space of another kind, such as a no-break space, is white to the reader alone. */
  lemma OtherSpaceIsLost(quote: char, c: char)
    requires IsQuote(quote) && Alien(c)
    ensures ReadsFor([quote] + ("a" + [c]), ["b" + [quote]], [Of("", "a" + [c], Open("")), Of("", "b", Open(""))],
                     "a b", "a" + [c] + " b")
  {
    var (p, q) := (Of("", "a" + [c], Open("")), Of("", "b", Open("")));
    assert Line(q) == "b" && Line(p) == "a" + [c];
    TwoLines(quote, [quote] + ("a" + [c]), ["b" + [quote]], p, q);
    assert Lead(p) + (Content(p) + (" " + (Content(q) + Trail(q)))) == "a" + [c] + " b";
    StrippedBehind(c, q);
    ReadsStripped([quote] + ("a" + [c]), ["b" + [quote]], 0, [p, q], "");
    DecodesToItself(quote, "a b");
  }

  lemma LaysOnto(p: Piece, lines: seq<string>, at: nat, quote: char, pieces: seq<Piece>, after: string)
    requires Fits(quote, p) && at < |lines| && Lays(lines[at], lines, at + 1, quote, pieces, after)
    ensures Lays(Line(p), lines, at, quote, [p] + pieces, after)
  {
    assert ([p] + pieces)[1..] == pieces;
  }

  lemma ThreeLay(quote: char, p: Piece, e: Piece, q: Piece)
    requires Fits(quote, p) && Fits(quote, e) && Fits(quote, q) && !q.ending.Broken?
    ensures Lays(Line(p), [Line(e), Line(q) + [quote]], 0, quote, [p, e, q], "")
  {
    var lines := [Line(e), Line(q) + [quote]];
    assert Line(q) + [quote] + "" == lines[1];
    LaysOnto(e, lines, 1, quote, [q], "");
    LaysOnto(p, lines, 0, quote, [e, q], "");
    assert [e] + [q] == [e, q] && [p] + [e, q] == [p, e, q];
  }

  lemma EmptyFolds(p: Piece, e: Piece, q: Piece)
    requires Empty(e) && p.ending.Open?
    ensures Standard([p, e, q]) == Lead(p) + (Content(p) + ("\n" + (Content(q) + Trail(q))))
  {
    assert [p, e, q][1..] == [e, q] && [e, q][1..] == [q] && Times('\n', 1) == "\n";
    assert Onward(false, 1, [q]) == "\n" + (Content(q) + Trail(q));
    assert Onward(false, 0, [e, q]) == Onward(false, 1, [q]);
  }

  lemma ThreeJoin(p: Piece, e: Piece, q: Piece)
    ensures JoinWords(Values([p, e, q])) == p.value + " " + (e.value + " " + q.value)
  {
    WordsCons(e, [q]);
    WordsCons(p, [e, q]);
    assert [e] + [q] == [e, q] && [p] + [e, q] == [p, e, q] && Values([q]) == [q.value];
  }

  lemma EmptyValues(quote: char, p: Piece, e: Piece, q: Piece)
    requires Fits(quote, p) && Fits(quote, e) && Fits(quote, q) && Empty(e)
    requires p.ending.Open? && q.ending.Open? && Lead(p) == "" == Trail(q)
    ensures Standard([p, e, q]) == p.value + "\n" + q.value
    ensures JoinWords(Values([p, e, q])) == p.value + " " + (" " + q.value)
  {
    EmptyFolds(p, e, q);
    ThreeJoin(p, e, q);
    assert Content(p) == p.value && Content(q) == q.value && e.value == "";
  }

  /** Between two lines, one that's empty is a newline to the standard, in quotes of either kind. */
  lemma EmptyLineIsLost(quote: char, p: Piece, e: Piece, q: Piece)
    requires IsQuote(quote) && Fits(quote, p) && Fits(quote, e) && Fits(quote, q) && Empty(e)
    requires Divided(p) && Divided(e) && Divided(q) && Bare(p) && Bare(q)
    requires p.ending.Open? && q.ending.Open? && Lead(p) == "" == Trail(q)
    ensures ReadsFor([quote] + Line(p), [Line(e), Line(q) + [quote]], [p, e, q],
                     p.value + " " + (" " + q.value), p.value + "\n" + q.value)
  {
    var (text, lines, pieces) := ([quote] + Line(p), [Line(e), Line(q) + [quote]], [p, e, q]);
    ThreeLay(quote, p, e, q);
    EmptyValues(quote, p, e, q);
    assert text[1..] == Line(p);
    assert AllBare(pieces) && Last(pieces) == q;
    FoldedReadsBack(text, lines, 0, pieces, "");
  }

  /** An escaped break behind white space takes the place of the reader's space. */
  lemma BrokenMakesUp()
    ensures var pieces := [Of(" ", "", Broken), Of("", "x", Open(""))];
            ReadsFor("\" \\", ["x\""], pieces, " x", " x") && !Plainly(pieces)
  {
    assert "x" + ['"'] == "x\"";
    TwoRead('"', "\" \\", "x\"", Of(" ", "", Broken), Of("", "x", Open("")), " x", " x");
  }
}
