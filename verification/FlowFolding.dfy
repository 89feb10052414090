/** The value YAML 1.2.2 gives a quoted scalar of several lines (flow folding, section 6.5, as
    sections 7.3.1 and 7.3.2 use it), and exactly when the reader gives the same. */
module FlowFolding {
  import opened Prelude
  import opened Seeding
  import opened Quoted
  import opened QuotedLines

  // ── the standard's value ───────────────────────────────────────────────────

  /** `s-white`: all the white space the standard folds away. */
  predicate White(c: char) {
    c == ' ' || c == '\t'
  }

  ghost predicate AllWhite(text: string) {
    forall i :: 0 <= i < |text| ==> White(text[i])
  }

  /** A line as the standard divides it: nothing white at the text's ends but an escaped space. */
  ghost predicate Divided(p: Piece) {
    && AllWhite(p.before) && AllWhite(Behind(p.ending)) && '\n' !in p.text
    && (p.text != "" ==> !White(p.text[0]))
    && (p.text != "" && p.ending.Open? ==> !White(p.text[|p.text| - 1]))
  }

  /** No continuation line is a bare escaped break. */
  ghost predicate Legal(pieces: seq<Piece>) {
    && |pieces| > 1
    && (forall i :: 0 <= i < |pieces| ==> Divided(pieces[i]))
    && (forall i :: 0 < i < |pieces| && pieces[i].ending.Broken? ==> pieces[i].text != "")
  }

  predicate Empty(p: Piece) {
    p.text == "" && p.ending.Open?
  }

  function Content(p: Piece): string {
    if Empty(p) then "" else if p.ending.Spaced? then p.value + " " else p.value
  }

  /** White space before the first line's text, and behind the last line's, is content. */
  function Lead(p: Piece): string {
    if Empty(p) then "" else p.before
  }

  function Trail(p: Piece): string {
    if Empty(p) then "" else Behind(p.ending)
  }

  function Times(c: char, n: nat): (r: string)
    ensures |r| == n && forall i :: 0 <= i < n ==> r[i] == c
  {
    if n == 0 then "" else [c] + Times(c, n - 1)
  }

  /** What a line break and the empty lines after it fold to. */
  function Gap(broken: bool, empties: nat): string {
    if empties > 0 then Times('\n', empties) else if broken then "" else " "
  }

  function Onward(broken: bool, empties: nat, pieces: seq<Piece>): string
    requires pieces != []
    decreases |pieces|
  {
    var p := pieces[0];
    if |pieces| == 1 then Gap(broken, empties) + (Content(p) + Trail(p))
    else if Empty(p) then Onward(broken, empties + 1, pieces[1..])
    else Gap(broken, empties) + (Content(p) + Onward(p.ending.Broken?, 0, pieces[1..]))
  }

  function Standard(pieces: seq<Piece>): string
    requires |pieces| > 1
  {
    Lead(pieces[0]) + (Content(pieces[0]) + Onward(pieces[0].ending.Broken?, 0, pieces[1..]))
  }

  // ── when the reader agrees ─────────────────────────────────────────────────

  ghost predicate AllSpaces(text: string) {
    forall i :: 0 <= i < |text| ==> text[i] == ' '
  }

  function Last(pieces: seq<Piece>): Piece
    requires pieces != []
  {
    pieces[|pieces| - 1]
  }

  ghost predicate NoneEmptyBetween(pieces: seq<Piece>) {
    forall i :: 0 < i < |pieces| - 1 ==> !Empty(pieces[i])
  }

  /** No empty line between two, no white space outside the first or the last, no escaped break, and
      at no line's end an escaped space or white space of another kind. */
  ghost predicate Plainly(pieces: seq<Piece>)
    requires pieces != []
  {
    && AllBare(pieces) && NoneEmptyBetween(pieces) && Lead(pieces[0]) == "" == Trail(Last(pieces))
    && forall i :: 0 <= i < |pieces| ==> pieces[i].ending.Open?
  }

  /** How much longer than the reader's one space the standard's end of a line is. */
  function Gains(ending: Ending): int {
    match ending
    case Open(_) => 0
    case Spaced(_) => 1
    case Broken => -1
  }

  /** With the standard's value `ahead` characters ahead, the two come out even, and wherever they
      are out of step there are spaces only. */
  ghost predicate Slides(ahead: int, pieces: seq<Piece>)
    requires pieces != []
    decreases |pieces|
  {
    if |pieces| == 1 then ahead == 0 && Trail(pieces[0]) == ""
    else (ahead == 0 || AllSpaces(pieces[0].value)) && Slides(ahead + Gains(pieces[0].ending), pieces[1..])
  }

  ghost predicate InStep(pieces: seq<Piece>)
    requires pieces != []
  {
    && AllBare(pieces) && NoneEmptyBetween(pieces) && Last(pieces).ending.Open?
    && AllSpaces(Lead(pieces[0])) && Slides(|Lead(pieces[0])|, pieces)
  }

  // ── counting a character ───────────────────────────────────────────────────

  ghost function Occurs(c: char, text: string): nat {
    if text == "" then 0 else (if text[0] == c then 1 else 0) + Occurs(c, text[1..])
  }

  lemma {:induction false} OccursConcat(c: char, a: string, b: string)
    ensures Occurs(c, a + b) == Occurs(c, a) + Occurs(c, b)
  {
    if a == "" {
      assert a + b == b;
    } else {
      assert (a + b)[1..] == a[1..] + b;
      OccursConcat(c, a[1..], b);
    }
  }

  lemma {:induction false} OccursNot(c: char, text: string)
    requires c !in text
    ensures Occurs(c, text) == 0
  {
    if text != "" {
      OccursNot(c, text[1..]);
    }
  }

  lemma {:induction false} OccursSome(c: char, text: string)
    requires c in text
    ensures Occurs(c, text) > 0
  {
    if text[0] != c {
      OccursSome(c, text[1..]);
    }
  }

  lemma {:induction false} OccursTimes(c: char, d: char, n: nat)
    ensures Occurs(c, Times(d, n)) == if c == d then n else 0
  {
    if n > 0 {
      assert Times(d, n)[1..] == Times(d, n - 1);
      OccursTimes(c, d, n - 1);
    }
  }

  ghost function Total(c: char, texts: seq<string>): nat {
    if texts == [] then 0 else Occurs(c, texts[0]) + Total(c, texts[1..])
  }

  lemma {:induction false} OccursJoined(c: char, texts: seq<string>)
    requires c != ' '
    ensures Occurs(c, JoinWords(texts)) == Total(c, texts)
  {
    if |texts| > 1 {
      OccursJoined(c, texts[1..]);
      OccursConcat(c, texts[0] + " ", JoinWords(texts[1..]));
      OccursConcat(c, texts[0], " ");
      OccursNot(c, " ");
    }
  }

  lemma ContentOccurs(c: char, quote: char, p: Piece)
    requires c != ' ' && Fits(quote, p)
    ensures Occurs(c, Content(p)) == Occurs(c, p.value)
  {
    OccursConcat(c, p.value, " ");
    OccursNot(c, " ");
  }

  ghost function EmptyBetween(pieces: seq<Piece>): nat
    requires pieces != []
    decreases |pieces|
  {
    if |pieces| == 1 then 0 else (if Empty(pieces[0]) then 1 else 0) + EmptyBetween(pieces[1..])
  }

  lemma GapOccurs(c: char, broken: bool, empties: nat)
    requires c != ' '
    ensures Occurs(c, Gap(broken, empties)) == if c == '\n' then empties else 0
  {
    OccursTimes(c, '\n', empties);
    OccursNot(c, " ");
  }

  lemma PartsOccur(c: char, quote: char, before: string, p: Piece, onward: string)
    requires c != ' ' && Fits(quote, p)
    ensures Occurs(c, before + (Content(p) + onward)) == Occurs(c, before) + Occurs(c, p.value) + Occurs(c, onward)
  {
    ContentOccurs(c, quote, p);
    OccursConcat(c, before, Content(p) + onward);
    OccursConcat(c, Content(p), onward);
  }

  lemma TotalCons(c: char, pieces: seq<Piece>)
    requires pieces != []
    ensures Total(c, Values(pieces)) == Occurs(c, pieces[0].value) + Total(c, Values(pieces[1..]))
  {
    assert Values(pieces)[1..] == Values(pieces[1..]);
  }

  lemma FitsRest(quote: char, pieces: seq<Piece>)
    requires AllFit(quote, pieces) && pieces != []
    ensures Fits(quote, pieces[0]) && AllFit(quote, pieces[1..]) && (|pieces| > 1 ==> Last(pieces[1..]) == Last(pieces))
  {
    assert forall i :: 0 <= i < |pieces[1..]| ==> pieces[1..][i] == pieces[i + 1];
  }

  /** Besides what the texts spell, the standard's value holds a newline for each empty line. */
  lemma {:induction false} OnwardOccurs(c: char, quote: char, broken: bool, empties: nat, pieces: seq<Piece>)
    requires c != ' ' && pieces != [] && AllFit(quote, pieces)
    ensures Occurs(c, Onward(broken, empties, pieces)) ==
            Total(c, Values(pieces)) + Occurs(c, Trail(Last(pieces)))
            + if c == '\n' then empties + EmptyBetween(pieces) else 0
    decreases |pieces|
  {
    var (p, rest, gap) := (pieces[0], pieces[1..], Gap(broken, empties));
    GapOccurs(c, broken, empties);
    FitsRest(quote, pieces);
    TotalCons(c, pieces);
    if |pieces| == 1 {
      PartsOccur(c, quote, gap, p, Trail(p));
    } else if Empty(p) {
      OnwardOccurs(c, quote, broken, empties + 1, rest);
    } else {
      OnwardOccurs(c, quote, p.ending.Broken?, 0, rest);
      PartsOccur(c, quote, gap, p, Onward(p.ending.Broken?, 0, rest));
    }
  }

  lemma StandardOccurs(c: char, quote: char, pieces: seq<Piece>)
    requires c != ' ' && |pieces| > 1 && AllFit(quote, pieces)
    ensures Occurs(c, Standard(pieces)) ==
            Occurs(c, Lead(pieces[0])) + Total(c, Values(pieces)) + Occurs(c, Trail(Last(pieces)))
            + if c == '\n' then EmptyBetween(pieces[1..]) else 0
  {
    var (p, rest) := (pieces[0], pieces[1..]);
    FitsRest(quote, pieces);
    TotalCons(c, pieces);
    OnwardOccurs(c, quote, p.ending.Broken?, 0, rest);
    PartsOccur(c, quote, Lead(p), p, Onward(p.ending.Broken?, 0, rest));
  }

  lemma {:induction false} SomeEmptyBetween(pieces: seq<Piece>)
    requires pieces != []
    ensures EmptyBetween(pieces) == 0 <==> forall i :: 0 <= i < |pieces| - 1 ==> !Empty(pieces[i])
    decreases |pieces|
  {
    if |pieces| > 1 {
      SomeEmptyBetween(pieces[1..]);
      assert forall i :: 0 < i < |pieces| ==> pieces[i] == pieces[1..][i - 1];
    }
  }

  lemma NoOccurrence(c: char, text: string)
    requires Occurs(c, text) == 0
    ensures c !in text
  {
    if c in text {
      OccursSome(c, text);
    }
  }

  /** Were the two the same, no line between would be empty and the outer white space all spaces. */
  lemma SameMeans(quote: char, pieces: seq<Piece>)
    requires AllFit(quote, pieces) && Legal(pieces) && Standard(pieces) == JoinWords(Values(pieces))
    ensures NoneEmptyBetween(pieces) && AllSpaces(Lead(pieces[0])) && AllSpaces(Trail(Last(pieces)))
  {
    StandardOccurs('\n', quote, pieces);
    StandardOccurs('\t', quote, pieces);
    OccursJoined('\n', Values(pieces));
    OccursJoined('\t', Values(pieces));
    SomeEmptyBetween(pieces[1..]);
    forall i | 0 < i < |pieces| - 1 ensures !Empty(pieces[i]) {
      assert pieces[i] == pieces[1..][i - 1];
    }
    NoOccurrence('\t', Lead(pieces[0]));
    NoOccurrence('\t', Trail(Last(pieces)));
    assert Divided(pieces[0]) && Divided(Last(pieces));
    WhiteWithoutTabs(Lead(pieces[0]));
    WhiteWithoutTabs(Trail(Last(pieces)));
  }

  lemma WhiteWithoutTabs(text: string)
    requires AllWhite(text) && '\t' !in text
    ensures AllSpaces(text)
  {
    forall i | 0 <= i < |text| ensures text[i] == ' ' {
      assert text[i] in text;
    }
  }

  // ── white space of another kind at a line's end ────────────────────────────

  /** White space to the reader, and none to the standard. */
  predicate Alien(c: char) {
    Blank(c) && !White(c) && c != '\n'
  }

  lemma {:induction false} StripLeftSlice(text: string) returns (from: nat)
    ensures from <= |text| && StripLeft(text) == text[from..] && (from < |text| ==> !Blank(text[from]))
  {
    from := 0;
    if text != "" && Blank(text[0]) {
      from := StripLeftSlice(text[1..]);
      from := from + 1;
    }
  }

  lemma {:induction false} StripRightSlice(text: string) returns (to: nat)
    ensures to <= |text| && StripRight(text) == text[..to] && (to > 0 ==> !Blank(text[to - 1]))
  {
    to := |text|;
    if text != "" && Blank(text[|text| - 1]) {
      to := StripRightSlice(text[..|text| - 1]);
    }
  }

  lemma StripSlice(text: string) returns (from: nat, to: nat)
    ensures from <= to <= |text| && Strip(text) == text[from..to]
    ensures from < to ==> !Blank(text[from]) && !Blank(text[to - 1])
  {
    from := StripLeftSlice(text);
    var width := StripRightSlice(text[from..]);
    to := from + width;
    assert text[from..][..width] == text[from..to];
  }

  lemma SliceOccurs(c: char, text: string, from: nat, to: nat)
    requires from <= to <= |text|
    ensures Occurs(c, text) == Occurs(c, text[..from]) + Occurs(c, text[from..to]) + Occurs(c, text[to..])
  {
    assert text == text[..to] + text[to..] && text[..to] == text[..from] + text[from..to];
    OccursConcat(c, text[..to], text[to..]);
    OccursConcat(c, text[..from], text[from..to]);
  }

  /** Nothing but blanks on one side of this place. */
  ghost predicate Outer(text: string, k: nat) {
    || (forall i :: 0 <= i < k && i < |text| ==> Blank(text[i]))
    || (forall i :: k <= i < |text| ==> Blank(text[i]))
  }

  /** Stripping adds nothing, and takes off a blank with blanks only on one side. */
  lemma StripOccurs(c: char, text: string, k: nat)
    ensures Occurs(c, Strip(text)) <= Occurs(c, text)
    ensures k < |text| && text[k] == c && Blank(c) && Outer(text, k) ==> Occurs(c, Strip(text)) < Occurs(c, text)
  {
    var from, to := StripSlice(text);
    SliceOccurs(c, text, from, to);
    if k < |text| && text[k] == c && Blank(c) && Outer(text, k) {
      if from == to {
        OccursSome(c, text);
      } else if k < from {
        assert text[..from][k] == c;
        OccursSome(c, text[..from]);
      } else {
        assert text[to..][k - to] == c;
        OccursSome(c, text[to..]);
      }
    }
  }

  lemma {:induction false} SpelledOccurs(c: char, quote: char, text: string, value: string)
    requires Alien(c) && IsQuote(quote) && Spells(quote, text, value)
    ensures Occurs(c, value) == Occurs(c, text)
    decreases |text|
  {
    if text != "" {
      if text[0] == quote || (quote == '"' && text[0] == '\\') {
        assert text[1..][1..] == text[2..];
        SpelledOccurs(c, quote, text[2..], value[1..]);
      } else {
        SpelledOccurs(c, quote, text[1..], value[1..]);
      }
    }
  }

  lemma {:induction false} UnescapedOccurs(c: char, text: string)
    requires Alien(c)
    ensures match Unescape(text) case Ok(value) => Occurs(c, value) <= Occurs(c, text) case Err(_) => true
    decreases |text|
  {
    if text != "" && Unescape(text).Ok? {
      if text[0] == '\\' {
        assert text[1..][1..] == text[2..];
        UnescapedOccurs(c, text[2..]);
      } else {
        UnescapedOccurs(c, text[1..]);
      }
    }
  }

  lemma {:induction false} HalvedOccurs(c: char, text: string)
    requires Alien(c)
    ensures Occurs(c, ReplaceAll(text, "''", "'")) <= Occurs(c, text)
    decreases |text|
  {
    if text != "" {
      if "''" <= text {
        assert text[1..][1..] == text[2..];
        HalvedOccurs(c, text[2..]);
      } else {
        HalvedOccurs(c, text[1..]);
      }
    }
  }

  lemma DecodedOccurs(c: char, quote: char, text: string, value: string)
    requires Alien(c) && Decode(quote, text) == Ok(value)
    ensures Occurs(c, value) <= Occurs(c, text)
  {
    UnescapedOccurs(c, text);
    HalvedOccurs(c, text);
  }

  lemma AlienInText(c: char, p: Piece)
    requires Alien(c) && Divided(p)
    ensures Occurs(c, Line(p)) == Occurs(c, p.text)
  {
    OccursConcat(c, p.before + p.text, Tail(p.ending));
    OccursConcat(c, p.before, p.text);
    OccursNot(c, p.before);
    OccursNot(c, Tail(p.ending));
  }

  /** This character stands at one end of the text, where the reader strips it off. */
  ghost predicate EdgedBy(c: char, p: Piece) {
    p.text != "" && (c == p.text[0] || (p.ending.Open? && c == p.text[|p.text| - 1]))
  }

  lemma LineOccurs(c: char, quote: char, p: Piece)
    requires Alien(c) && IsQuote(quote) && Fits(quote, p) && Divided(p)
    ensures Occurs(c, Strip(Line(p))) <= Occurs(c, p.value)
    ensures EdgedBy(c, p) ==> Occurs(c, Strip(Line(p))) < Occurs(c, p.value)
  {
    var (line, n) := (Line(p), |p.before|);
    AlienInText(c, p);
    SpelledOccurs(c, quote, p.text, p.value);
    if p.text != "" && c == p.text[0] {
      assert forall i :: 0 <= i < n ==> line[i] == p.before[i];
      StripOccurs(c, line, n);
    } else if EdgedBy(c, p) {
      var k := n + |p.text| - 1;
      assert forall i :: k < i < |line| ==> line[i] == Behind(p.ending)[i - k - 1];
      StripOccurs(c, line, k);
    } else {
      StripOccurs(c, line, |line|);
    }
  }

  ghost predicate AllDivided(pieces: seq<Piece>) {
    forall i :: 0 <= i < |pieces| ==> Divided(pieces[i])
  }

  lemma {:induction false} StrippedOccurs(c: char, quote: char, pieces: seq<Piece>, i: int)
    requires Alien(c) && IsQuote(quote) && AllFit(quote, pieces) && AllDivided(pieces)
    ensures Total(c, Stripped(pieces)) <= Total(c, Values(pieces))
    ensures 0 <= i < |pieces| && EdgedBy(c, pieces[i]) ==> Total(c, Stripped(pieces)) < Total(c, Values(pieces))
    decreases |pieces|
  {
    if pieces != [] {
      var rest := pieces[1..];
      FitsRest(quote, pieces);
      TotalCons(c, pieces);
      assert Divided(pieces[0]);
      LineOccurs(c, quote, pieces[0]);
      assert 0 < i < |pieces| ==> pieces[i] == rest[i - 1];
      StrippedOccurs(c, quote, rest, i - 1);
      assert Stripped(pieces)[1..] == Stripped(rest);
    }
  }

  lemma AlienEdge(p: Piece) returns (c: char)
    requires Divided(p) && !Bare(p)
    ensures Alien(c) && EdgedBy(c, p)
  {
    c := if Blank(p.text[0]) then p.text[0] else p.text[|p.text| - 1];
    assert c in p.text;
  }

  /** What the reader strips off a text's end is content in the standard. */
  lemma AlienLost(text: string, lines: seq<string>, at: nat, pieces: seq<Piece>, after: string, i: nat)
    requires text != "" && IsQuote(text[0]) && Legal(pieces) && IsComment(Strip(after))
    requires Lays(text[1..], lines, at, text[0], pieces, after)
    requires i < |pieces| && !Bare(pieces[i])
    ensures Read(text, lines, at) != Ok(Standard(pieces))
  {
    var c := AlienEdge(pieces[i]);
    LaysFit(text[1..], lines, at, text[0], pieces, after);
    ReadsStripped(text, lines, at, pieces, after);
    AlienFewer(c, text[0], pieces, i);
    if Decode(text[0], JoinWords(Stripped(pieces))) == Ok(Standard(pieces)) {
      DecodedOccurs(c, text[0], JoinWords(Stripped(pieces)), Standard(pieces));
    }
  }

  lemma AlienFewer(c: char, quote: char, pieces: seq<Piece>, i: nat)
    requires Alien(c) && IsQuote(quote) && AllFit(quote, pieces) && Legal(pieces)
    requires i < |pieces| && EdgedBy(c, pieces[i])
    ensures Occurs(c, JoinWords(Stripped(pieces))) < Occurs(c, Standard(pieces))
  {
    StrippedOccurs(c, quote, pieces, i);
    OccursJoined(c, Stripped(pieces));
    StandardOccurs(c, quote, pieces);
  }

  // ── in step ────────────────────────────────────────────────────────────────

  /** The standard's value from a line on, where no line is empty but the outer two. */
  function Rest(pieces: seq<Piece>): string
    requires pieces != []
    decreases |pieces|
  {
    var p := pieces[0];
    if |pieces| == 1 then Content(p) + Trail(p)
    else p.value + (Times(' ', 1 + Gains(p.ending)) + Rest(pieces[1..]))
  }

  lemma ContentThenGap(quote: char, p: Piece, onward: string)
    requires Fits(quote, p)
    ensures Content(p) + (Gap(p.ending.Broken?, 0) + onward) == p.value + (Times(' ', 1 + Gains(p.ending)) + onward)
  {
    assert Times(' ', 1) == " " && Times(' ', 2) == "  ";
  }

  lemma {:induction false} OnwardIsRest(quote: char, broken: bool, pieces: seq<Piece>)
    requires pieces != [] && AllFit(quote, pieces) && forall i :: 0 <= i < |pieces| - 1 ==> !Empty(pieces[i])
    ensures Onward(broken, 0, pieces) == Gap(broken, 0) + Rest(pieces)
    decreases |pieces|
  {
    if |pieces| > 1 {
      var (p, rest) := (pieces[0], pieces[1..]);
      FitsRest(quote, pieces);
      OnwardIsRest(quote, p.ending.Broken?, rest);
      ContentThenGap(quote, p, Rest(rest));
    }
  }

  lemma StandardIsRest(quote: char, pieces: seq<Piece>)
    requires |pieces| > 1 && AllFit(quote, pieces) && NoneEmptyBetween(pieces)
    ensures Standard(pieces) == Lead(pieces[0]) + Rest(pieces)
  {
    var (p, rest) := (pieces[0], pieces[1..]);
    FitsRest(quote, pieces);
    forall i | 0 <= i < |rest| - 1 ensures !Empty(rest[i]) {
      assert rest[i] == pieces[i + 1];
    }
    OnwardIsRest(quote, p.ending.Broken?, rest);
    ContentThenGap(quote, p, Rest(rest));
  }

  lemma {:induction false} SpelledLast(quote: char, text: string, value: string)
    requires IsQuote(quote) && Spells(quote, text, value) && text != "" && text[|text| - 1] != ' '
    ensures value != "" && value[|value| - 1] != ' '
    decreases |text|
  {
    var n := if text[0] == quote || (quote == '"' && text[0] == '\\') then 2 else 1;
    if n < |text| {
      SpelledLast(quote, text[n..], value[1..]);
    }
  }

  lemma SpacesAre(text: string)
    requires AllSpaces(text)
    ensures text == Times(' ', |text|)
  {
  }

  lemma TimesOver(i: nat, text: string, n: nat, onward: string)
    requires AllSpaces(text)
    ensures Times(' ', i) + (text + (Times(' ', n) + onward)) == Times(' ', i + |text| + n) + onward
  {
    assert Times(' ', i) + (text + Times(' ', n)) == Times(' ', i + |text| + n);
    assert Times(' ', i) + (text + (Times(' ', n) + onward)) == (Times(' ', i) + (text + Times(' ', n))) + onward;
  }

  lemma Unanchored(i: nat, j: nat, text: string, a: string, b: string)
    requires i < j && !AllSpaces(text)
    ensures Times(' ', i) + (text + a) != Times(' ', j) + (text + b)
  {
    var k := FirstOther(text);
    assert (Times(' ', i) + (text + a))[i + k] == text[k];
    assert (Times(' ', j) + (text + b))[i + k] == ' ';
  }

  /** Text that isn't all spaces can't be the same some way along. */
  lemma Anchored(i: nat, j: nat, text: string, a: string, b: string)
    requires !AllSpaces(text)
    ensures Times(' ', i) + (text + a) == Times(' ', j) + (text + b) <==> i == j && a == b
  {
    if i < j {
      Unanchored(i, j, text, a, b);
    } else if j < i {
      Unanchored(j, i, text, b, a);
    } else {
      assert (Times(' ', i) + (text + a))[i + |text|..] == a && (Times(' ', i) + (text + b))[i + |text|..] == b;
    }
  }

  lemma FirstOther(text: string) returns (k: nat)
    requires !AllSpaces(text)
    ensures k < |text| && text[k] != ' ' && forall i :: 0 <= i < k ==> text[i] == ' '
  {
    k := 0;
    while text[k] == ' '
      invariant k < |text| && forall i :: 0 <= i < k ==> text[i] == ' '
      decreases |text| - k
    {
      k := k + 1;
    }
  }

  lemma TrailShows(i: nat, j: nat, quote: char, p: Piece)
    requires IsQuote(quote) && Fits(quote, p) && Divided(p) && p.ending.Open? && AllSpaces(Trail(p)) && Trail(p) != ""
    ensures Times(' ', i) + (Content(p) + Trail(p)) != Times(' ', j) + p.value
  {
    var (left, right) := (Times(' ', i) + (Content(p) + Trail(p)), Times(' ', j) + p.value);
    SpelledLast(quote, p.text, p.value);
    assert left[|left| - 1] == Trail(p)[|Trail(p)| - 1] && right[|right| - 1] == p.value[|p.value| - 1];
  }

  lemma LastInStep(i: nat, j: nat, quote: char, p: Piece)
    requires IsQuote(quote) && Fits(quote, p) && Divided(p) && p.ending.Open? && AllSpaces(Trail(p))
    ensures Times(' ', i) + (Content(p) + Trail(p)) == Times(' ', j) + p.value <==> i == j && Trail(p) == ""
  {
    if Trail(p) != "" {
      TrailShows(i, j, quote, p);
    } else {
      assert Content(p) + Trail(p) == p.value;
      assert |Times(' ', i) + p.value| == i + |p.value| && |Times(' ', j) + p.value| == j + |p.value|;
    }
  }

  /** One line of the two values, the standard's `i` spaces along and the reader's `j`. */
  lemma LineInStep(i: nat, j: nat, p: Piece, a: string, b: string)
    ensures var n := 1 + Gains(p.ending);
            Times(' ', i) + (p.value + (Times(' ', n) + a)) == Times(' ', j) + (p.value + (Times(' ', 1) + b)) <==>
            (if AllSpaces(p.value) then
              Times(' ', i + |p.value| + n) + a == Times(' ', j + |p.value| + 1) + b
            else i == j && Times(' ', n) + a == Times(' ', 1) + b)
  {
    var n := 1 + Gains(p.ending);
    if AllSpaces(p.value) {
      TimesOver(i, p.value, n, a);
      TimesOver(j, p.value, 1, b);
    } else {
      Anchored(i, j, p.value, Times(' ', n) + a, Times(' ', 1) + b);
    }
  }

  /** The two values from here on are the same, the standard's `i` spaces along and the reader's `j`. */
  ghost predicate SameFrom(i: nat, j: nat, pieces: seq<Piece>)
    requires pieces != []
  {
    Times(' ', i) + Rest(pieces) == Times(' ', j) + JoinWords(Values(pieces))
  }

  lemma SameFromStep(i: nat, j: nat, pieces: seq<Piece>)
    requires |pieces| > 1
    ensures var p := pieces[0]; var n := 1 + Gains(p.ending);
            SameFrom(i, j, pieces) <==>
            (if AllSpaces(p.value) then SameFrom(i + |p.value| + n, j + |p.value| + 1, pieces[1..])
             else i == j && SameFrom(n, 1, pieces[1..]))
  {
    WordsAhead(pieces);
    LineInStep(i, j, pieces[0], Rest(pieces[1..]), JoinWords(Values(pieces[1..])));
  }

  lemma SlidesStep(i: nat, j: nat, pieces: seq<Piece>)
    requires |pieces| > 1
    ensures var p := pieces[0]; var n := 1 + Gains(p.ending);
            Slides(i - j, pieces) <==>
            (if AllSpaces(p.value) then Slides((i + |p.value| + n) - (j + |p.value| + 1), pieces[1..])
             else i == j && Slides(n - 1, pieces[1..]))
  {
    var p := pieces[0];
    assert (i + |p.value| + (1 + Gains(p.ending))) - (j + |p.value| + 1) == i - j + Gains(p.ending);
  }

  /** Lines that spell something, the last of them with no more than spaces behind it. */
  ghost predicate EndsInSpaces(quote: char, pieces: seq<Piece>) {
    && pieces != [] && AllFit(quote, pieces) && AllDivided(pieces)
    && Last(pieces).ending.Open? && AllSpaces(Trail(Last(pieces)))
  }

  lemma EndsInSpacesRest(quote: char, pieces: seq<Piece>)
    requires |pieces| > 1 && EndsInSpaces(quote, pieces)
    ensures EndsInSpaces(quote, pieces[1..])
  {
    FitsRest(quote, pieces);
    assert forall k :: 0 <= k < |pieces[1..]| ==> pieces[1..][k] == pieces[k + 1];
  }

  ghost predicate Iff(i: nat, j: nat, pieces: seq<Piece>)
    requires pieces != []
  {
    SameFrom(i, j, pieces) <==> Slides(i - j, pieces)
  }

  /** How far along the two are behind a line's end, counted from its last character but spaces. */
  ghost function Along(i: nat, j: nat, p: Piece): (nat, nat) {
    var n := 1 + Gains(p.ending);
    if AllSpaces(p.value) then (i + |p.value| + n, j + |p.value| + 1) else (n, 1)
  }

  lemma StepIff(i: nat, j: nat, pieces: seq<Piece>)
    requires |pieces| > 1 && var (a, b) := Along(i, j, pieces[0]); Iff(a, b, pieces[1..])
    ensures Iff(i, j, pieces)
  {
    SameFromStep(i, j, pieces);
    SlidesStep(i, j, pieces);
  }

  lemma {:induction false} SlidesIff(i: nat, j: nat, quote: char, pieces: seq<Piece>)
    requires IsQuote(quote) && EndsInSpaces(quote, pieces)
    ensures Iff(i, j, pieces)
    decreases |pieces|
  {
    if |pieces| == 1 {
      LastIff(i, j, quote, pieces);
    } else {
      var (a, b) := Along(i, j, pieces[0]);
      EndsInSpacesRest(quote, pieces);
      SlidesIff(a, b, quote, pieces[1..]);
      StepIff(i, j, pieces);
    }
  }

  lemma LastIff(i: nat, j: nat, quote: char, pieces: seq<Piece>)
    requires IsQuote(quote) && EndsInSpaces(quote, pieces) && |pieces| == 1
    ensures Iff(i, j, pieces)
  {
    assert Values(pieces) == [pieces[0].value];
    assert Fits(quote, pieces[0]) && Divided(pieces[0]);
    LastInStep(i, j, quote, pieces[0]);
  }

  lemma WordsAhead(pieces: seq<Piece>)
    requires |pieces| > 1
    ensures JoinWords(Values(pieces)) == pieces[0].value + (Times(' ', 1) + JoinWords(Values(pieces[1..])))
  {
    assert pieces == [pieces[0]] + pieces[1..] && Times(' ', 1) == " ";
    WordsCons(pieces[0], pieces[1..]);
  }

  lemma {:induction false} SlidesToTheEnd(ahead: int, pieces: seq<Piece>)
    requires pieces != [] && Slides(ahead, pieces)
    ensures Trail(Last(pieces)) == ""
    decreases |pieces|
  {
    if |pieces| > 1 {
      SlidesToTheEnd(ahead + Gains(pieces[0].ending), pieces[1..]);
    }
  }

  /** The two values are the same just when they keep in step. */
  lemma SameIff(quote: char, pieces: seq<Piece>)
    requires IsQuote(quote) && AllFit(quote, pieces) && Legal(pieces) && AllBare(pieces) && Last(pieces).ending.Open?
    ensures Standard(pieces) == JoinWords(Values(pieces)) <==> InStep(pieces)
  {
    var lead := Lead(pieces[0]);
    if Standard(pieces) == JoinWords(Values(pieces)) {
      SameMeans(quote, pieces);
    }
    if InStep(pieces) {
      SlidesToTheEnd(|lead|, pieces);
    }
    if NoneEmptyBetween(pieces) && AllSpaces(lead) && AllSpaces(Trail(Last(pieces))) {
      StandardIsRest(quote, pieces);
      SpacesAre(lead);
      SlidesIff(|lead|, 0, quote, pieces);
      assert Times(' ', 0) + JoinWords(Values(pieces)) == JoinWords(Values(pieces));
    }
  }

  /** A scalar of several lines reads as the standard says just when its lines keep in step. */
  lemma ReadsAsStandardIff(text: string, lines: seq<string>, at: nat, pieces: seq<Piece>, after: string)
    requires text != "" && IsQuote(text[0]) && Legal(pieces) && IsComment(Strip(after))
    requires Lays(text[1..], lines, at, text[0], pieces, after)
    ensures Read(text, lines, at) == Ok(Standard(pieces)) <==> InStep(pieces)
  {
    LaysFit(text[1..], lines, at, text[0], pieces, after);
    if !AllBare(pieces) {
      var i: nat :| i < |pieces| && !Bare(pieces[i]);
      AlienLost(text, lines, at, pieces, after, i);
    } else if Last(pieces).ending.Open? {
      FoldedReadsBack(text, lines, at, pieces, after);
      SameIff(text[0], pieces);
    } else {
      SpacedEndFails(text, lines, at, pieces, after);
    }
  }

  // ── plainly ────────────────────────────────────────────────────────────────

  /** Nothing that only lengthens the standard's value stands beside what only shortens it. */
  ghost predicate OneWay(pieces: seq<Piece>)
    requires pieces != []
  {
    || (forall i :: 0 <= i < |pieces| ==> !pieces[i].ending.Broken?)
    || (Lead(pieces[0]) == "" && forall i :: 0 <= i < |pieces| ==> !pieces[i].ending.Spaced?)
  }

  ghost predicate AllOpen(pieces: seq<Piece>) {
    forall i :: 0 <= i < |pieces| ==> pieces[i].ending.Open?
  }

  lemma {:induction false} SlidesUp(ahead: int, pieces: seq<Piece>)
    requires ahead >= 0 && pieces != [] && Slides(ahead, pieces) && Last(pieces).ending.Open?
    requires forall i :: 0 <= i < |pieces| ==> !pieces[i].ending.Broken?
    ensures ahead == 0 && AllOpen(pieces)
    decreases |pieces|
  {
    if |pieces| > 1 {
      assert forall i :: 0 < i < |pieces| ==> pieces[i] == pieces[1..][i - 1];
      SlidesUp(ahead + Gains(pieces[0].ending), pieces[1..]);
    }
  }

  lemma {:induction false} SlidesDown(ahead: int, pieces: seq<Piece>)
    requires ahead <= 0 && pieces != [] && Slides(ahead, pieces) && Last(pieces).ending.Open?
    requires forall i :: 0 <= i < |pieces| ==> !pieces[i].ending.Spaced?
    ensures ahead == 0 && AllOpen(pieces)
    decreases |pieces|
  {
    if |pieces| > 1 {
      assert forall i :: 0 < i < |pieces| ==> pieces[i] == pieces[1..][i - 1];
      SlidesDown(ahead + Gains(pieces[0].ending), pieces[1..]);
    }
  }

  lemma {:induction false} OpenSlides(pieces: seq<Piece>)
    requires pieces != [] && AllOpen(pieces) && Trail(Last(pieces)) == ""
    ensures Slides(0, pieces)
    decreases |pieces|
  {
    if |pieces| > 1 {
      assert forall i :: 0 < i < |pieces| ==> pieces[i] == pieces[1..][i - 1];
      OpenSlides(pieces[1..]);
    }
  }

  lemma PlainlyIff(pieces: seq<Piece>)
    requires pieces != []
    ensures Plainly(pieces) ==> InStep(pieces)
    ensures OneWay(pieces) && InStep(pieces) ==> Plainly(pieces)
  {
    var ahead := |Lead(pieces[0])|;
    if Plainly(pieces) {
      OpenSlides(pieces);
    }
    if OneWay(pieces) && InStep(pieces) {
      SlidesToTheEnd(ahead, pieces);
      if forall i :: 0 <= i < |pieces| ==> !pieces[i].ending.Broken? {
        SlidesUp(ahead, pieces);
      } else {
        SlidesDown(ahead, pieces);
      }
    }
  }

  /** Unless an escaped break makes up for a space, only what stands plainly reads as the standard says. */
  lemma ReadsPlainlyIff(text: string, lines: seq<string>, at: nat, pieces: seq<Piece>, after: string)
    requires text != "" && IsQuote(text[0]) && Legal(pieces) && IsComment(Strip(after))
    requires Lays(text[1..], lines, at, text[0], pieces, after)
    ensures OneWay(pieces) ==> (Read(text, lines, at) == Ok(Standard(pieces)) <==> Plainly(pieces))
    ensures Plainly(pieces) ==> Read(text, lines, at) == Ok(Standard(pieces))
  {
    ReadsAsStandardIff(text, lines, at, pieces, after);
    PlainlyIff(pieces);
  }

  /** In single quotes there's no such escape. */
  lemma SingleReadsPlainlyIff(text: string, lines: seq<string>, at: nat, pieces: seq<Piece>, after: string)
    requires text != "" && text[0] == '\'' && Legal(pieces) && IsComment(Strip(after))
    requires Lays(text[1..], lines, at, text[0], pieces, after)
    ensures Read(text, lines, at) == Ok(Standard(pieces)) <==> Plainly(pieces)
  {
    LaysFit(text[1..], lines, at, text[0], pieces, after);
    assert OneWay(pieces) by {
      forall i | 0 <= i < |pieces| ensures !pieces[i].ending.Broken? {
        assert Fits(text[0], pieces[i]);
      }
    }
    ReadsPlainlyIff(text, lines, at, pieces, after);
  }
}
