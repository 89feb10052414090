/** Quoted YAML scalars: `_closing` and `_Yaml.quoted` of tools/check-agents-md.py. */
module Quoted {
  import opened Prelude
  import opened Seeding

  datatype Scalar = Scalar(value: string, line: nat)
  datatype Complaint = NeverCloses | TextAfter | BadEscape(escaped: string)

  predicate IsQuote(c: char) {
    c == '\'' || c == '"'
  }

  // ── the closing quote ──────────────────────────────────────────────────────

  function Close(text: string, quote: char, at: nat): Option<nat>
    decreases |text| - at
  {
    if at >= |text| then None
    else if quote == '"' && text[at] == '\\' then Close(text, quote, at + 2)
    else if text[at] != quote then Close(text, quote, at + 1)
    else if quote == '\'' && at + 1 < |text| && text[at + 1] == '\'' then Close(text, quote, at + 2)
    else Some(at)
  }

  /** `_closing`: where the first quote stands that is neither escaped nor half of a pair. */
  method Closing(text: string, quote: char) returns (end: Option<nat>)
    ensures end == Close(text, quote, 0)
  {
    var at := 0;
    while at < |text|
      invariant Close(text, quote, 0) == Close(text, quote, at)
    {
      if quote == '"' && text[at] == '\\' {
        at := at + 2;
        continue;
      }
      if text[at] == quote {
        if quote == '\'' && at + 1 < |text| && text[at + 1] == '\'' {
          at := at + 2;
          continue;
        }
        return Some(at);
      }
      at := at + 1;
    }
    return None;
  }

  /** What may stand between the quotes, sections 7.3.1 and 7.3.2 of YAML 1.2.2: a single quote
      only as a pair, a double one and a backslash only behind a backslash. */
  ghost predicate Body(text: string, quote: char) {
    text == "" ||
    if quote == '"' && text[0] == '\\' then |text| > 1 && Body(text[2..], quote)
    else if text[0] == quote then quote == '\'' && |text| > 1 && text[1] == '\'' && Body(text[2..], quote)
    else Body(text[1..], quote)
  }

  ghost predicate ClosesAt(text: string, quote: char, from: nat, end: nat) {
    && from <= end < |text| && text[end] == quote && Body(text[from..end], quote)
    && (quote == '\'' && end + 1 < |text| ==> text[end + 1] != '\'')
  }

  /** The quote found ends a body, and no other quote does. */
  lemma {:induction false} CloseIsExact(text: string, quote: char, from: nat, end: nat)
    requires IsQuote(quote) && from <= |text|
    ensures Close(text, quote, from) == Some(end) <==> ClosesAt(text, quote, from, end)
    decreases |text| - from
  {
    if from < |text| {
      var body := if from <= end < |text| then text[from..end] else "";
      if (quote == '"' && text[from] == '\\') || (quote == '\'' && text[from..from + 1] == "'" && text[from + 1..] != ""
                                                  && text[from + 1] == '\'') {
        if from + 2 <= |text| {
          CloseIsExact(text, quote, from + 2, end);
          assert from + 2 <= end < |text| ==> body[2..] == text[from + 2..end];
        }
        assert from < end < |text| ==> body[0] == text[from] && (|body| > 1 ==> body[1] == text[from + 1]);
      } else if text[from] != quote {
        CloseIsExact(text, quote, from + 1, end);
        assert from < end < |text| ==> body[0] == text[from] && body[1..] == text[from + 1..end];
      } else {
        assert from < end < |text| ==> body[0] == text[from] && (|body| > 1 ==> body[1] == text[from + 1]);
      }
    }
  }

  // ── white space ────────────────────────────────────────────────────────────

  /** `str.isspace` of one character. */
  predicate Blank(c: char) {
    var n := c as int;
    || 0x09 <= n <= 0x0d || 0x1c <= n <= 0x20 || n == 0x85 || n == 0xa0 || n == 0x1680
    || 0x2000 <= n <= 0x200a || n == 0x2028 || n == 0x2029 || n == 0x202f || n == 0x205f || n == 0x3000
  }

  ghost predicate AllBlank(text: string) {
    forall i :: 0 <= i < |text| ==> Blank(text[i])
  }

  function StripLeft(text: string): string {
    if text != "" && Blank(text[0]) then StripLeft(text[1..]) else text
  }

  function StripRight(text: string): string {
    if text != "" && Blank(text[|text| - 1]) then StripRight(text[..|text| - 1]) else text
  }

  function Strip(text: string): string {
    StripRight(StripLeft(text))
  }

  /** Neither end is white space. */
  predicate Tight(text: string) {
    text == "" || (!Blank(text[0]) && !Blank(text[|text| - 1]))
  }

  lemma {:induction false} StripLeftPad(pad: string, text: string)
    requires AllBlank(pad) && (text != "" ==> !Blank(text[0]))
    ensures StripLeft(pad + text) == text
  {
    if pad == "" {
      assert pad + text == text;
    } else {
      assert (pad + text)[1..] == pad[1..] + text;
      StripLeftPad(pad[1..], text);
    }
  }

  lemma {:induction false} StripRightPad(text: string, pad: string)
    requires AllBlank(pad) && (text != "" ==> !Blank(text[|text| - 1]))
    ensures StripRight(text + pad) == text
  {
    if pad == "" {
      assert text + pad == text;
    } else {
      assert (text + pad)[..|text + pad| - 1] == text + pad[..|pad| - 1];
      StripRightPad(text, pad[..|pad| - 1]);
    }
  }

  lemma StripPads(before: string, text: string, after: string)
    requires AllBlank(before) && AllBlank(after) && Tight(text)
    ensures Strip(before + text + after) == text
  {
    if text == "" {
      assert AllBlank(before + after) && before + text + after == (before + after) + "";
      StripLeftPad(before + after, "");
    } else {
      assert before + text + after == before + (text + after);
      StripLeftPad(before, text + after);
      StripRightPad(text, after);
    }
  }

  // ── reading a scalar ───────────────────────────────────────────────────────

  /** The pieces of the lines that don't close, the line that does, its quote, and the next line. */
  datatype Gathered = Gathered(pieces: seq<string>, rest: string, end: nat, at: nat)

  function Gather(pieces: seq<string>, rest: string, quote: char, lines: seq<string>, at: nat): (g: Option<Gathered>)
    ensures g.Some? ==> g.value.end < |g.value.rest|
    decreases |lines| - at
  {
    CloseBelow(rest, quote, 0);
    match Close(rest, quote, 0)
    case Some(end) => Some(Gathered(pieces, rest, end, at))
    case None => if at >= |lines| then None else Gather(pieces + [Strip(rest)], lines[at], quote, lines, at + 1)
  }

  lemma {:induction false} CloseBelow(text: string, quote: char, at: nat)
    ensures Close(text, quote, at).Some? ==> Close(text, quote, at).value < |text|
    decreases |text| - at
  {
    if at < |text| {
      CloseBelow(text, quote, at + 1);
      CloseBelow(text, quote, at + 2);
    }
  }

  /** `" ".join(pieces)` */
  function JoinWords(pieces: seq<string>): string {
    if pieces == [] then ""
    else if |pieces| == 1 then pieces[0]
    else pieces[0] + " " + JoinWords(pieces[1..])
  }

  /** `DOUBLE_ESCAPES` */
  function Escape(c: char): Option<char> {
    match c
    case '\\' => Some('\\')
    case '"' => Some('"')
    case '/' => Some('/')
    case 'n' => Some('\n')
    case 't' => Some('\t')
    case ' ' => Some(' ')
    case _ => None
  }

  function After(out: string, rest: Result<string, Complaint>): Result<string, Complaint> {
    match rest
    case Ok(text) => Ok(out + text)
    case Err(_) => rest
  }

  lemma AfterNothing(rest: Result<string, Complaint>)
    ensures After("", rest) == rest
  {
    if rest.Ok? {
      assert "" + rest.value == rest.value;
    }
  }

  lemma AfterAfter(out: string, next: string, rest: Result<string, Complaint>)
    ensures After(out, After(next, rest)) == After(out + next, rest)
  {
    if rest.Ok? {
      assert out + (next + rest.value) == (out + next) + rest.value;
    }
  }

  function Unescape(value: string): Result<string, Complaint> {
    if value == "" then Ok("")
    else if value[0] != '\\' then After([value[0]], Unescape(value[1..]))
    else if |value| == 1 then Err(BadEscape(""))
    else if Escape(value[1]).None? then Err(BadEscape([value[1]]))
    else After([Escape(value[1]).value], Unescape(value[2..]))
  }

  function Decode(quote: char, value: string): Result<string, Complaint> {
    if quote == '\'' then Ok(ReplaceAll(value, "''", "'")) else Unescape(value)
  }

  function Words(g: Gathered): seq<string>
    requires g.end < |g.rest|
  {
    g.pieces + [if g.pieces == [] then g.rest[..g.end] else Strip(g.rest[..g.end])]
  }

  predicate IsComment(tail: string) {
    tail == "" || tail[0] == '#'
  }

  /** What a scalar whose text begins on this line reads as. */
  function Read(text: string, lines: seq<string>, at: nat): Result<string, Complaint>
    requires text != ""
  {
    match Gather([], text[1..], text[0], lines, at)
    case None => Err(NeverCloses)
    case Some(g) =>
      if IsComment(Strip(g.rest[g.end + 1..])) then Decode(text[0], JoinWords(Words(g))) else Err(TextAfter)
  }

  class Yaml {
    const lines: seq<string>
    var at: nat

    constructor (lines: seq<string>)
      ensures this.lines == lines && at == 0
    {
      this.lines := lines;
      at := 0;
    }

    static method UnescapeEach(value: string) returns (r: Result<string, Complaint>)
      ensures r == Unescape(value)
    {
      var out, at := "", 0;
      assert value[0..] == value;
      AfterNothing(Unescape(value));
      while at < |value|
        invariant at <= |value|
        invariant Unescape(value) == After(out, Unescape(value[at..]))
      {
        ghost var here := value[at..];
        if value[at] == '\\' {
          var escaped := if at + 1 < |value| then [value[at + 1]] else "";
          if escaped == "" || Escape(escaped[0]).None? {
            return Err(BadEscape(escaped));
          }
          assert here[2..] == value[at + 2..];
          AfterAfter(out, [Escape(escaped[0]).value], Unescape(here[2..]));
          out := out + [Escape(escaped[0]).value];
          at := at + 2;
        } else {
          assert here[1..] == value[at + 1..];
          AfterAfter(out, [value[at]], Unescape(here[1..]));
          out := out + [value[at]];
          at := at + 1;
        }
      }
      assert value[at..] == "" && out + "" == out;
      return Ok(out);
    }

    /** `quoted`: read a scalar, and the lines it goes on to. */
    method ReadQuoted(text: string, line: nat) returns (r: Result<Scalar, Complaint>)
      requires text != "" && IsQuote(text[0])
      modifies this`at
      ensures match Read(text, lines, old(at))
              case Ok(value) => r == Ok(Scalar(value, line))
              case Err(why) => r == Err(why)
      ensures r.Ok? ==> Gather([], text[1..], text[0], lines, old(at)).Some?
                        && at == Gather([], text[1..], text[0], lines, old(at)).value.at
    {
      var quote, rest, pieces := text[0], text[1..], [];
      var end := Closing(rest, quote);
      while end.None?
        invariant end == Close(rest, quote, 0)
        invariant Gather([], text[1..], quote, lines, old(at)) == Gather(pieces, rest, quote, lines, at)
        decreases |lines| - at, end.None?
      {
        pieces := pieces + [Strip(rest)];
        if at >= |lines| {
          return Err(NeverCloses);
        }
        rest := lines[at];
        at := at + 1;
        end := Closing(rest, quote);
      }
      CloseBelow(rest, quote, 0);
      pieces := pieces + [if pieces != [] then Strip(rest[..end.value]) else rest[..end.value]];
      var tail := Strip(rest[end.value + 1..]);
      if tail != "" && tail[0] != '#' {
        return Err(TextAfter);
      }
      var value := JoinWords(pieces);
      if quote == '\'' {
        return Ok(Scalar(ReplaceAll(value, "''", "'"), line));
      }
      var decoded := UnescapeEach(value);
      match decoded {
        case Ok(out) => return Ok(Scalar(out, line));
        case Err(why) => return Err(why);
      }
    }
  }

  // ── printing ───────────────────────────────────────────────────────────────

  /** `text` spells `value` between quotes of this kind: a pair for a single quote in the one, and
      in the other each character as itself or as one of its escapes. */
  ghost predicate Spells(quote: char, text: string, value: string)
    decreases |text|
  {
    if text == "" then value == ""
    else if value == "" then false
    else if quote == '"' && text[0] == '\\' then
      |text| > 1 && Escape(text[1]) == Some(value[0]) && Spells(quote, text[2..], value[1..])
    else if text[0] == quote then
      quote == '\'' && |text| > 1 && text[1] == '\'' && value[0] == '\'' && Spells(quote, text[2..], value[1..])
    else text[0] == value[0] && Spells(quote, text[1..], value[1..])
  }

  /** One character as it's printed: what can't stand for itself is doubled or escaped. */
  function PrintChar(quote: char, c: char): string {
    if quote == '\'' then (if c == '\'' then "''" else [c])
    else if c == '"' then "\\\""
    else if c == '\\' then "\\\\"
    else if c == '\n' then "\\n"
    else if c == '\t' then "\\t"
    else [c]
  }

  function Print(quote: char, value: string): string {
    if value == "" then "" else PrintChar(quote, value[0]) + Print(quote, value[1..])
  }

  lemma PrintCharSpells(quote: char, c: char, text: string, value: string)
    requires IsQuote(quote) && Spells(quote, text, value)
    ensures Spells(quote, PrintChar(quote, c) + text, [c] + value)
  {
    var first := PrintChar(quote, c);
    var all := first + text;
    assert all[|first|..] == text && ([c] + value)[1..] == value;
    assert all[0] == first[0] && (|first| == 2 ==> all[1] == first[1]);
  }

  lemma {:induction false} PrintSpells(quote: char, value: string)
    requires IsQuote(quote)
    ensures Spells(quote, Print(quote, value), value)
  {
    if value != "" {
      PrintSpells(quote, value[1..]);
      PrintCharSpells(quote, value[0], Print(quote, value[1..]), value[1..]);
      assert value == [value[0]] + value[1..];
    }
  }

  /** Double-quoted, any string prints on one line; single-quoted, just those of one line do. */
  lemma {:induction false} PrintsOneLine(quote: char, value: string)
    requires IsQuote(quote)
    ensures '\n' !in Print(quote, value) <==> quote == '"' || '\n' !in value
  {
    if value != "" {
      PrintsOneLine(quote, value[1..]);
      assert '\n' in PrintChar(quote, value[0]) <==> quote == '\'' && value[0] == '\n';
    }
  }

  lemma {:induction false} SpelledBody(quote: char, text: string, value: string)
    requires Spells(quote, text, value)
    ensures Body(text, quote)
    decreases |text|
  {
    if text != "" {
      if text[0] == quote || (quote == '"' && text[0] == '\\') {
        SpelledBody(quote, text[2..], value[1..]);
      } else {
        SpelledBody(quote, text[1..], value[1..]);
      }
    }
  }

  lemma AfterOne(c: char, rest: Result<string, Complaint>, value: string)
    ensures After([c], rest) == Ok(value) <==> value != "" && value[0] == c && rest == Ok(value[1..])
  {
    if rest.Ok? {
      assert ([c] + rest.value)[1..] == rest.value;
    }
    assert value != "" ==> value == [value[0]] + value[1..];
  }

  lemma {:induction false} DoubleIsSpelling(text: string, value: string)
    requires Body(text, '"')
    ensures Unescape(text) == Ok(value) <==> Spells('"', text, value)
    decreases |text|
  {
    if text != "" {
      var tail := if value == "" then "" else value[1..];
      if text[0] == '\\' {
        DoubleIsSpelling(text[2..], tail);
        if Escape(text[1]).Some? {
          AfterOne(Escape(text[1]).value, Unescape(text[2..]), value);
        }
      } else {
        DoubleIsSpelling(text[1..], tail);
        AfterOne(text[0], Unescape(text[1..]), value);
      }
    }
  }

  lemma {:induction false} SingleIsSpelling(text: string, value: string)
    requires Body(text, '\'')
    ensures ReplaceAll(text, "''", "'") == value <==> Spells('\'', text, value)
    decreases |text|
  {
    if text != "" {
      var rest := if text[0] == '\'' then text[2..] else text[1..];
      SingleStep(text);
      SingleIsSpelling(rest, if value == "" then "" else value[1..]);
      AfterOne(text[0], Ok(ReplaceAll(rest, "''", "'")), value);
    }
  }

  lemma SingleStep(text: string)
    requires text != "" && Body(text, '\'')
    ensures ReplaceAll(text, "''", "'")
         == [text[0]] + ReplaceAll(if text[0] == '\'' then text[2..] else text[1..], "''", "'")
  {
    if text[0] == '\'' {
      assert "''" <= text;
    } else if |text| == 1 {
      assert text[1..] == "";
    } else {
      assert !("''" <= text);
    }
  }

  /** Text between the quotes decodes to a value just when it spells it. */
  lemma DecodeIsSpelling(quote: char, text: string, value: string)
    requires IsQuote(quote) && Body(text, quote)
    ensures Decode(quote, text) == Ok(value) <==> Spells(quote, text, value)
  {
    if quote == '"' {
      DoubleIsSpelling(text, value);
    } else {
      SingleIsSpelling(text, value);
    }
  }

  lemma {:induction false} SpellsConcat(quote: char, a: string, x: string, b: string, y: string)
    requires IsQuote(quote) && Spells(quote, a, x) && Spells(quote, b, y)
    ensures Spells(quote, a + b, x + y)
    decreases |a|
  {
    if a == "" {
      assert a + b == b && x + y == y;
    } else {
      var n := if a[0] == quote || (quote == '"' && a[0] == '\\') then 2 else 1;
      SpellsConcat(quote, a[n..], x[1..], b, y);
      assert (a + b)[n..] == a[n..] + b && (x + y)[1..] == x[1..] + y;
    }
  }

  // ── on one line ────────────────────────────────────────────────────────────

  /** The quote after a body closes it, whatever stands behind. */
  lemma ClosesAfterBody(quote: char, pad: string, body: string, after: string)
    requires IsQuote(quote) && Body(pad + body, quote)
    requires quote == '\'' && after != "" ==> after[0] != '\''
    ensures Close(pad + body + [quote] + after, quote, 0) == Some(|pad + body|)
  {
    var text := pad + body + [quote] + after;
    assert text[0..|pad + body|] == pad + body;
    CloseIsExact(text, quote, 0, |pad + body|);
  }

  /** However a value is spelled between its quotes, it's read back, and what follows the closing
      quote is a comment or refused. */
  lemma SpelledReadsBack(quote: char, text: string, value: string, after: string, lines: seq<string>, at: nat)
    requires IsQuote(quote) && Spells(quote, text, value)
    requires quote == '\'' && after != "" ==> after[0] != '\''
    ensures Read([quote] + text + [quote] + after, lines, at) ==
            if IsComment(Strip(after)) then Ok(value) else Err(TextAfter)
    ensures var line := [quote] + text + [quote] + after;
      var g := Gather([], line[1..], line[0], lines, at); g.Some? && g.value.at == at
  {
    var line := [quote] + text + [quote] + after;
    SpelledBody(quote, text, value);
    assert "" + text == text;
    ClosesAfterBody(quote, "", text, after);
    assert line[1..] == text + [quote] + after;
    assert line[1..][..|text|] == text && line[1..][|text| + 1..] == after;
    DecodeIsSpelling(quote, text, value);
  }

  /** What each escape reads as between double quotes; any other is refused. */
  lemma EscapeReads(c: char, lines: seq<string>, at: nat)
    ensures Read(['"', '\\', c, '"'], lines, at) ==
            if c in ['\\', '"', '/', ' '] then Ok([c])
            else if c == 'n' then Ok("\n")
            else if c == 't' then Ok("\t")
            else Err(BadEscape([c]))
  {
    var (line, text) := (['"', '\\', c, '"'], ['\\', c]);
    EscapeDecodes(c);
    assert Body(text[2..], '"');
    assert "" + text == text && line[1..] == text + ['"'] + "";
    ClosesAfterBody('"', "", text, "");
    assert line[1..][..2] == text && line[1..][3..] == "";
    assert JoinWords([text]) == text;
  }

  lemma EscapeDecodes(c: char)
    ensures Unescape(['\\', c]) ==
            if c in ['\\', '"', '/', ' '] then Ok([c])
            else if c == 'n' then Ok("\n")
            else if c == 't' then Ok("\t")
            else Err(BadEscape([c]))
  {
    assert ['\\', c][2..] == "";
    if Escape(c).Some? {
      assert [Escape(c).value] + "" == [Escape(c).value];
    }
  }

  lemma {:induction false} StripRightKeepsFirst(text: string)
    requires text != "" && !Blank(text[0])
    ensures StripRight(text) != "" && StripRight(text)[0] == text[0]
  {
    if Blank(text[|text| - 1]) {
      StripRightKeepsFirst(text[..|text| - 1]);
    }
  }

  /** Every string is read back from its own print, in either kind of quotes. */
  lemma RoundTrip(quote: char, value: string, after: string, lines: seq<string>, at: nat)
    requires IsQuote(quote) && IsComment(Strip(after))
    ensures Read([quote] + Print(quote, value) + [quote] + after, lines, at) == Ok(value)
  {
    PrintSpells(quote, value);
    if after != "" && after[0] == '\'' {
      StripRightKeepsFirst(after);
    }
    SpelledReadsBack(quote, Print(quote, value), value, after, lines, at);
  }
}
