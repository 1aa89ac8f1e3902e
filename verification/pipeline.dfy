/** The per-line pipeline: `tokenizeLines` (blank check, optional trims,
    tokenizer) and the loop of `main` that turns each parsed line into its
    reading and detail columns.

    The morphological analyser is a parameter: any function from the text it is
    given to the tokens it returns. */
module Pipeline {
  import opened Basics
  import opened Unicode
  import opened Line
  import opened Tokens
  import Kana

  /** What `tknzr.tokenize(text, SplitMode.C)` returns, already read into tokens. */
  type Tokenizer = string -> seq<Token>

  /** `ParsedLine` after `tokenizeLines` is done with it: the line as given, the
      normalised text handed to the analyser, and the analyser's tokens. */
  datatype ParsedLine = ParsedLine(rawLine: string, line: string, tokens: seq<Token>)

  /** One output row of `main`: the raw line, the line's reading, and its detail. */
  datatype OutRow = OutRow(rawLine: string, reading: string, detail: string)

  /** What goes between two token details. */
  const DetailSeparator: string := " / "

  /** The optional trims, in the order `tokenizeLines` applies them: brackets
      first when `ignoreParen` is set, then the noise tail when `focusName` is set. */
  function Normalize(db: CharDb, line: string, ignoreParen: bool, focusName: bool): (r: string)
    ensures Subsequence(r, line)
    ensures !ignoreParen && !focusName ==> r == line
    ensures NoNewline(line) && focusName ==>
              var a := if ignoreParen then TrimParen(line) else line;
              |r| <= |a| && r == a[..|r|]
  {
    var a := if ignoreParen then TrimParen(line) else line;
    var r := if focusName then TrimNoise(db, a) else a;
    assert Subsequence(a, line) by {
      if ignoreParen { TrimParenIsSubsequence(line); } else { SubsequenceRefl(line); }
    }
    assert Subsequence(r, a) by {
      if focusName { TrimNoiseIsSubsequence(db, a); } else { SubsequenceRefl(a); }
    }
    SubsequenceTrans(r, a, line);
    assert NoNewline(line) && focusName ==> |r| <= |a| && r == a[..|r|] by {
      if NoNewline(line) && focusName {
        SubsequenceAvoids(a, line, '\n');
        TrimNoiseIsPrefix(db, a);
      }
    }
    r
  }

  /** Each trim runs exactly when its flag is set, and with both set the bracket
      trim runs first. */
  lemma NormalizeRunsSelectedTrims(db: CharDb, line: string)
    ensures Normalize(db, line, true, false) == TrimParen(line)
    ensures Normalize(db, line, false, true) == TrimNoise(db, line)
    ensures Normalize(db, line, true, true) == TrimNoise(db, TrimParen(line))
  {
  }

  /** The body of the loop in `tokenizeLines` for one line. A line that is
      blank after `strip()` becomes an empty `ParsedLine`, its raw text dropped
      and the analyser never consulted; any other line keeps its raw text and
      is normalised and tokenised. */
  function ParseLine(db: CharDb, tokenize: Tokenizer, line: string, ignoreParen: bool, focusName: bool)
    : (pl: ParsedLine)
    ensures AllSpace(db, line) <==> pl == ParsedLine("", "", [])
    ensures !AllSpace(db, line) ==>
              && pl.rawLine == line
              && pl.line == Normalize(db, line, ignoreParen, focusName)
              && pl.tokens == tokenize(pl.line)
  {
    if |Strip(db, line)| < 1 then
      ParsedLine("", "", [])
    else
      var text := Normalize(db, line, ignoreParen, focusName);
      ParsedLine(line, text, tokenize(text))
  }

  /** `tokenizeLines`: one parsed line per input line, in order, each depending
      only on its own input line. */
  function TokenizeLines(db: CharDb, tokenize: Tokenizer, lines: seq<string>, ignoreParen: bool, focusName: bool)
    : (r: seq<ParsedLine>)
    ensures |r| == |lines|
    ensures forall i :: 0 <= i < |lines| ==> r[i] == ParseLine(db, tokenize, lines[i], ignoreParen, focusName)
    decreases |lines|
  {
    if |lines| == 0 then []
    else [ParseLine(db, tokenize, lines[0], ignoreParen, focusName)]
         + TokenizeLines(db, tokenize, lines[1..], ignoreParen, focusName)
  }

  /** The readings of the tokens, in order. */
  function Readings(db: CharDb, ts: seq<Token>): seq<string> {
    seq(|ts|, i requires 0 <= i < |ts| => Wrap(db, ts[i]).reading)
  }

  /** The details of the tokens, in order. */
  function Details(db: CharDb, ts: seq<Token>): seq<string> {
    seq(|ts|, i requires 0 <= i < |ts| => Wrap(db, ts[i]).detail)
  }

  /** The body of the loop in `main`: the readings are concatenated, the details
      joined with " / ", and the raw line passes through. */
  function AnnotateLine(db: CharDb, pl: ParsedLine): (row: OutRow)
    ensures row.rawLine == pl.rawLine
    ensures |row.reading| == TotalLength(Readings(db, pl.tokens))
    ensures |pl.tokens| == 0 ==> row.reading == "" && row.detail == ""
    ensures |pl.tokens| > 0 ==>
              |row.detail| == TotalLength(Details(db, pl.tokens)) + (|pl.tokens| - 1) * |DetailSeparator|
  {
    var rs := Readings(db, pl.tokens);
    var ds := Details(db, pl.tokens);
    assert |ds| > 0 ==> |Join(ds, DetailSeparator)| == TotalLength(ds) + (|ds| - 1) * |DetailSeparator| by {
      if |ds| > 0 {
        JoinLength(ds, DetailSeparator);
      }
    }
    OutRow(pl.rawLine, Concat(rs), Join(ds, DetailSeparator))
  }

  /** `main` after reading the clipboard: nothing when there are no lines (the
      early return), otherwise one row per line, with both trims switched on. */
  function Annotate(db: CharDb, tokenize: Tokenizer, lines: seq<string>): (out: Option<seq<OutRow>>)
    ensures out.None? <==> |lines| == 0
    ensures out.Some? ==> |out.value| == |lines|
    ensures out.Some? ==> forall i :: 0 <= i < |lines| ==>
              out.value[i] == AnnotateLine(db, ParseLine(db, tokenize, lines[i], true, true))
  {
    if |lines| < 1 then None
    else
      var pls := TokenizeLines(db, tokenize, lines, true, true);
      Some(seq(|pls|, i requires 0 <= i < |pls| => AnnotateLine(db, pls[i])))
  }

  // ---------------------------------------------------------------------------
  // Lines

  /** A blank line gives an empty row whatever the analyser would have said,
      and a non-blank line keeps its raw text in the first column. */
  lemma RowOfLine(db: CharDb, t1: Tokenizer, t2: Tokenizer, line: string, ignoreParen: bool, focusName: bool)
    ensures AllSpace(db, line) ==>
              && ParseLine(db, t1, line, ignoreParen, focusName) == ParseLine(db, t2, line, ignoreParen, focusName)
              && AnnotateLine(db, ParseLine(db, t1, line, ignoreParen, focusName)) == OutRow("", "", "")
    ensures !AllSpace(db, line) ==>
              AnnotateLine(db, ParseLine(db, t1, line, ignoreParen, focusName)).rawLine == line
  {
  }

  /** The rows of `main`: none for an empty clipboard; otherwise a blank line
      gives an empty row and any other line a row headed by the line itself. */
  lemma AnnotateRows(db: CharDb, tokenize: Tokenizer, lines: seq<string>, i: nat)
    requires |lines| > 0 && i < |lines|
    ensures Annotate(db, tokenize, lines).Some?
    ensures AllSpace(db, lines[i]) ==> Annotate(db, tokenize, lines).value[i] == OutRow("", "", "")
    ensures !AllSpace(db, lines[i]) ==> Annotate(db, tokenize, lines).value[i].rawLine == lines[i]
  {
    var out := Annotate(db, tokenize, lines);
    assert out.Some? && out.value[i] == AnnotateLine(db, ParseLine(db, tokenize, lines[i], true, true));
    RowOfLine(db, tokenize, tokenize, lines[i], true, true);
  }

  /** Lines are processed independently: the parsed lines of two blocks of text
      are the parsed lines of each block, one after the other. */
  lemma {:induction false} TokenizeLinesAppend(db: CharDb, tokenize: Tokenizer, a: seq<string>, b: seq<string>,
                                               ignoreParen: bool, focusName: bool)
    ensures TokenizeLines(db, tokenize, a + b, ignoreParen, focusName)
            == TokenizeLines(db, tokenize, a, ignoreParen, focusName)
               + TokenizeLines(db, tokenize, b, ignoreParen, focusName)
    decreases |a|
  {
    if |a| == 0 {
      assert a + b == b;
    } else {
      assert (a + b)[1..] == a[1..] + b;
      TokenizeLinesAppend(db, tokenize, a[1..], b, ignoreParen, focusName);
    }
  }

  // ---------------------------------------------------------------------------
  // Readings and details

  /** The readings and details of a line split over any split of its tokens:
      readings are simply concatenated, and the details of two non-empty halves
      are joined with one separator. */
  lemma AnnotationComposes(db: CharDb, raw: string, text: string, ts: seq<Token>, us: seq<Token>)
    ensures AnnotateLine(db, ParsedLine(raw, text, ts + us)).reading
            == AnnotateLine(db, ParsedLine(raw, text, ts)).reading + AnnotateLine(db, ParsedLine(raw, text, us)).reading
    ensures |ts| > 0 && |us| > 0 ==>
              AnnotateLine(db, ParsedLine(raw, text, ts + us)).detail
              == AnnotateLine(db, ParsedLine(raw, text, ts)).detail + DetailSeparator
                 + AnnotateLine(db, ParsedLine(raw, text, us)).detail
  {
    assert Readings(db, ts + us) == Readings(db, ts) + Readings(db, us);
    assert Details(db, ts + us) == Details(db, ts) + Details(db, us);
    ConcatAppend(Readings(db, ts), Readings(db, us));
    if |ts| > 0 && |us| > 0 {
      JoinAppend(Details(db, ts), Details(db, us), DetailSeparator);
    }
  }

  /** A one-token line reads and annotates as its token does. */
  lemma SingleTokenRow(db: CharDb, raw: string, text: string, t: Token)
    ensures AnnotateLine(db, ParsedLine(raw, text, [t])) == OutRow(raw, Wrap(db, t).reading, Wrap(db, t).detail)
  {
    assert Readings(db, [t]) == [Wrap(db, t).reading];
    assert Concat([Wrap(db, t).reading]) == Wrap(db, t).reading + Concat([]);
  }

  /** The surfaces of the tokens, in order. */
  function Surfaces(ts: seq<Token>): seq<string> {
    seq(|ts|, i requires 0 <= i < |ts| => ts[i].surface)
  }

  /** When every token of a line is verbatim, the line's reading is the
      concatenated surfaces of its tokens up to the kana remap: the two agree
      once both are remapped to katakana. */
  lemma {:induction false} VerbatimLineReading(db: CharDb, ts: seq<Token>)
    requires forall i :: 0 <= i < |ts| ==> IsVerbatim(db, ts[i])
    ensures Kana.KatakanaSurface(Concat(Readings(db, ts))) == Kana.KatakanaSurface(Concat(Surfaces(ts)))
    decreases |ts|
  {
    if |ts| > 0 {
      var rs := Readings(db, ts);
      var ss := Surfaces(ts);
      assert rs[1..] == Readings(db, ts[1..]);
      assert ss[1..] == Surfaces(ts[1..]);
      VerbatimLineReading(db, ts[1..]);
      Kana.KatakanaAppend(rs[0], Concat(rs[1..]));
      Kana.KatakanaAppend(ss[0], Concat(ss[1..]));
    }
  }
}
