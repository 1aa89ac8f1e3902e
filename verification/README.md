# yomi: the annotation core in Dafny

`yomi.py` reads lines of Japanese text and writes, for every line, the line
itself, its phonetic reading in katakana, and a breakdown of how each word was
read. This project models the pure part of that script and proves properties
of it. The model has four parts.

- **Kana remap** (`Kana`). `SudachiToken.katakana_surface` shifts every code
  point from U+3041 through U+3094 up by 0x60 and leaves every other
  character alone.
- **Token resolver** (`Tokens`). `TokenWrapper` first decides whether a token
  is *verbatim*. That holds when its part of speech contains 記号 or 空白, or
  when its whole surface matches the character-class pattern of yomi.py:43.
  It then picks the token's reading and detail from one of three branches:
  verbatim, no dictionary reading, or a dictionary reading.
- **Line normaliser** (`Patterns`, `Subst`, `Line`). These model
  `ParsedLine.trim_paren` and `ParsedLine.trim_noise`. Both regular
  expressions are written as explicit matchers, including Python's `.` (no
  newline), lazy `.+?`, `$` (end of string or before a final newline) and
  alternation order. `Subst.Sub` is `re.sub(pattern, "", s)` for any matcher
  that never matches the empty string, which both patterns satisfy (each
  match is at least three characters long). It deletes the leftmost match,
  resumes right after it, and never lets two matches overlap.
- **Pipeline** (`Pipeline`). `tokenizeLines` checks for a blank line before
  trimming, runs the optional trims (brackets first, then noise) and calls the
  analyser. The loop of `main` then concatenates the token readings and joins
  the token details with `" / "`.

The morphological analyser (`sudachipy`) is a parameter of type
`string -> seq<Token>`. A `Token` holds what `SudachiToken` reads from a
morpheme: the surface, the first part-of-speech field and the reading form.
Python's Unicode character classes are also a parameter, `Unicode.CharDb`.
It supplies `\s` / `str.isspace`, `\d` and `\w`, because they depend on the
interpreter's Unicode tables. Only the ranges the script spells out itself are
fixed constants.

The modules are `Basics` (options, substring test, subsequences, `"".join` and
`sep.join`), `Unicode`, `Kana`, `Tokens`, `Patterns`, `Subst`, `Line`,
`LineExamples`, `Pipeline` and `PipelineExamples`.

### Behaviour worth noting

These facts about `yomi.py` shape the model and several of its lemmas.

- **No out-of-dictionary flag.** For a token that is not verbatim, the
  no-reading branch is taken exactly when its dictionary reading is empty
  (yomi.py:57). Nothing else about the morpheme selects that branch. A
  verbatim token with an empty reading keeps its surface as its detail, and
  a dictionary reading of "?" produces the same `(?)` detail as a missing
  one (`Tokens.QuestionMarkReadingIsAmbiguous`).
- **Noise is one regular expression.** The page tail and the arrow marker are
  two alternatives of one pattern (yomi.py:68), removed by `re.sub`. The line
  is therefore cut at the *leftmost* place where either alternative matches.
  The digit of the page tail must be the first or second character after the
  two ideographic spaces (`Line.LateDigitIsKept`).
- **`ぁ-ん` stops at U+3093.** The verbatim class and the first-character test
  both use `ぁ-ん` (yomi.py:43, 50), which is U+3041–U+3093. The remap itself
  runs to U+3094, so ゔ is remapped only after some other leading hiragana
  (`Tokens.LeadingCharacterDecidesRemap`).
- **The blank check comes first.** `tokenizeLines` tests for a blank line
  (yomi.py:87) before the trims run (yomi.py:91-94). A line that the trims
  reduce to nothing is still sent to the analyser
  (`PipelineExamples.TrimmedToEmptyStillTokenized`).

## Model

| member | source | states |
|---|---|---|
| Kana.KatakanaSurface | yomi.py:32-38 | The remap keeps the length. A character in U+3041..U+3094 moves up by 0x60 into U+30A1..U+30F4, and every other character is unchanged. |
| Kana.KatakanaLeavesNoHiragana | yomi.py:35 | No character of the remapped text lies in the range the remap moves. |
| Kana.KatakanaIdempotent | yomi.py:32-38 | Remapping twice gives the same as remapping once. |
| Kana.KatakanaRoundTrip | yomi.py:35 | On text with no character in U+30A1..U+30F4, the reverse shift undoes the remap. |
| Kana.HiraganaRoundTrip | yomi.py:35 | On text with no character in U+3041..U+3094, the remap undoes the reverse shift. |
| Kana.KatakanaAppend | yomi.py:33-37 | The remap works character by character, so it splits over concatenation. |
| Kana.KatakanaNeko | yomi.py:35 | "ねこ" becomes "ネコ". |
| Basics.Concat | yomi.py:111 | `"".join` adds and loses nothing: the result is exactly as long as all pieces together and starts with the first piece. `Basics.ConcatAppend` adds that it splits over list append. |
| Basics.ConcatAppend | yomi.py:111 | Joining two lists with `""` gives the join of the first followed by the join of the second. |
| Basics.Join | yomi.py:112 | `sep.join` of no pieces is empty. Otherwise the result starts with the first piece and is at least as long as all pieces together. |
| Basics.JoinLength | yomi.py:112 | The joined text holds every piece plus exactly one separator between each neighbouring pair. |
| Basics.JoinAppend | yomi.py:112 | Joining two non-empty lists puts exactly one separator between the two joins. |
| Basics.Contains | yomi.py:49 | Python's substring test holds exactly when the needle occurs at some index of the text. |
| Tokens.InVerbatimClass | yomi.py:43 | Every non-word or whitespace character is in the class. Of the code points the kana remap moves, a word character is in the class exactly when it is not ゔ (U+3094), because `ぁ-ん` stops at U+3093. |
| Tokens.AllVerbatimChars | yomi.py:43 | Zero or more repetitions of the alternation consume the whole surface exactly when every character lies in one of its classes. This also holds on the empty surface; `Tokens.MatchesVerbatimPattern` adds the non-emptiness that `+` demands. |
| Tokens.MatchesVerbatimPattern | yomi.py:43-49 | `reg.match` with `^(...)+$` succeeds exactly when the surface is non-empty and every character lies in the class. |
| Tokens.Wrap | yomi.py:46-63 | The detail equals the surface exactly for verbatim tokens. A verbatim reading has the surface's length and the same katakana form. If the surface starts with ぁ..ん, the reading is the katakana remap of the surface, with no remappable character left; otherwise the reading is the surface. With no dictionary reading, the surface is the reading and the detail is the surface plus "(?)". With a dictionary reading, that reading is used and the detail is the surface plus the reading in parentheses. |
| Tokens.IsVerbatim | yomi.py:49 | A token is verbatim exactly when 記号 or 空白 occurs in its part of speech, or its surface is non-empty and every character is in the class of yomi.py:43. |
| Tokens.StartsWithHiragana | yomi.py:50 | The test holds exactly when the surface is non-empty and its first character lies in the remapped range U+3041..U+3094 but is not U+3094 (ゔ). A surface starting with ゔ fails it. |
| Tokens.VerbatimIff | yomi.py:43-49 | A token is verbatim exactly when 記号 or 空白 occurs in its part of speech, or its surface is non-empty and made only of class characters. |
| Tokens.DetailRoundTrip | yomi.py:54-63 | From a token's surface and detail one can recover which branch produced the reading, and the dictionary reading used. This holds for every reading except "?". |
| Tokens.QuestionMarkReadingIsAmbiguous | yomi.py:57-63 | A dictionary reading of "?" produces the same detail as a missing reading. |
| Tokens.LeadingCharacterDecidesRemap | yomi.py:35-53 | Only the first character decides the remap. "ぁゔ" reads "ァヴ", "ゔぁ" is left in hiragana because ゔ is outside ぁ-ん, and "アあ" is left as it is. |
| Unicode.StripStart | yomi.py:87 | `lstrip` returns a suffix that does not start with whitespace, and everything it removed is whitespace. |
| Unicode.StripEnd | yomi.py:87 | `rstrip` returns a prefix that does not end with whitespace, and everything it removed is whitespace. |
| Unicode.StripEmptyIffAllSpace | yomi.py:87 | `rstrip` after `lstrip` leaves nothing exactly when every character of the line is whitespace. |
| Unicode.Strip | yomi.py:87 | `strip()` is empty exactly when every character of the line is whitespace, so `len(line.strip()) < 1` is the blank test. A non-empty result starts and ends with a non-whitespace character. What it removes is whitespace only, by `Unicode.StripStart` and `Unicode.StripEnd`. |
| Patterns.LazyClose | yomi.py:67 | The lazy `.+?` stops at the first closer. It crosses no closer and no newline, and it fails only when every later closer is preceded by a newline. |
| Patterns.ParenMatchIsBracketSpan | yomi.py:67 | The bracket matcher reports exactly the bracket spans: an opener, at least one character, then the nearest matching closer, with no newline in between. |
| Patterns.ParenMatch | yomi.py:67 | A bracket match is at least three characters long and fits in the text. `Patterns.ParenMatchIsBracketSpan` adds that the matches are exactly the bracket spans. |
| Patterns.DotStarDollar | yomi.py:68 | `.*$` matches only up to a place where `$` holds, crossing no newline, and fails exactly when the newline-free run does not end where `$` holds. |
| Patterns.DotPlusDollar | yomi.py:68 | `.+$` is `.*$` with at least one character: it fails exactly when the run is empty or does not end where `$` holds. |
| Patterns.PageTailMatch | yomi.py:68 | A page-tail match starts with two ideographic spaces, has a digit at offset 2 or 3, and ends where `$` holds. |
| Patterns.ArrowTailMatch | yomi.py:68 | An arrow-tail match starts with an ideographic space and an arrow, crosses no newline, and ends where `$` holds. |
| Patterns.DollarAt | yomi.py:68 | Where `$` holds, only a newline can follow. On text with no newline from that place on, `$` holds only at the end, and it also holds just before a final newline. |
| Patterns.RunEnd | yomi.py:68 | `.*` runs to the first newline or to the end of the text. |
| Patterns.NoiseMatch | yomi.py:68 | A noise match is at least three characters long and fits in the text. |
| Patterns.NoiseMatchNoNewline | yomi.py:68 | On a newline-free line the noise pattern matches exactly where two ideographic spaces are followed by a digit at offset 2 or 3, or an ideographic space and an arrow are followed by at least one character. The match runs to the end of the line. |
| Subst.Sub | yomi.py:76 | Substitution never lengthens the text. |
| Subst.SubIsSubsequence | yomi.py:76 | Substitution only deletes characters. |
| Subst.SubUnchangedIff | yomi.py:76 | The text is unchanged exactly when the pattern matches at none of its positions. |
| Subst.SubCopiesUpToMatch | yomi.py:76 | Text before the first match is copied through. |
| Subst.SubTruncates | yomi.py:79 | When matches run to the end, the result is the text before the leftmost match, or all of the text if nothing matches. |
| Subst.Scan | yomi.py:76 | The scan splits the text into kept characters and dropped spans, and the kept characters form the substitution's result. |
| Subst.ScanIsScanned | yomi.py:76 | Each dropped span is the match at its position, and no match starts at a kept character. |
| Subst.ScanUnique | yomi.py:76 | Any split with those two properties is the scan's own. |
| Line.TrimParen | yomi.py:75-76 | `trim_paren` only deletes characters. What it deletes is stated by `Line.TrimParenSpans` and `Line.TrimParenUnchangedIff`. |
| Line.TrimNoise | yomi.py:78-79 | `trim_noise` only deletes characters. Where it cuts is stated by `Line.TrimNoiseCutsAtLeftmost` and `Line.TrimNoiseIsPrefix`. |
| Line.TrimParenIsSubsequence | yomi.py:75-76 | `trim_paren` only deletes characters. |
| Line.TrimParenNoOpener | yomi.py:67-76 | A line with none of ( [ （ ［ is returned unchanged. |
| Line.TrimParenUnchangedIff | yomi.py:67-76 | A line is unchanged exactly when no bracket span starts anywhere in it. |
| Line.ParenPiecesAreSpans | yomi.py:67 | In any scan with the bracket pattern, every dropped piece is a bracket span, and no bracket span starts at a kept character. |
| Line.TrimParenSpans | yomi.py:67-76 | The result is what remains after deleting bracket spans, and the split into kept characters and spans is unique. |
| Line.EmptyBracketsSurvive | yomi.py:67 | "()", "[]", "（）" and "［］" survive, because a span needs one character inside. |
| Line.TrimParenKeepsPlainPrefix | yomi.py:75-76 | Text with no opener passes through, whatever follows it. |
| Line.TrimParenDropsLeadingSpan | yomi.py:75-76 | A bracket match at the start of the line is deleted whole, and the substitution resumes right after it. |
| Line.TrimParenOneAside | yomi.py:67 | "(qux)" disappears entirely. |
| Line.TrimNoiseIsSubsequence | yomi.py:78-79 | `trim_noise` only deletes characters. |
| Line.TrimNoiseIsPrefix | yomi.py:68-79 | On a newline-free line, `trim_noise` returns a prefix of the line. |
| Line.TrimNoiseCutsAtLeftmost | yomi.py:68-79 | On a newline-free line, `trim_noise` cuts at the leftmost noise start, and keeps the whole line when there is none. |
| Line.TrimNoiseNoNoise | yomi.py:68-79 | A newline-free line without any noise start is unchanged. |
| Line.PageNumberIsCut | yomi.py:68 | "見出し　　12" becomes "見出し". |
| Line.TextTailIsKept | yomi.py:68 | "見出し　　本文" is unchanged, because its tail has no digit. |
| Line.LateDigitIsKept | yomi.py:68 | "見出し　　p.12" is unchanged, because the digit comes third after the spaces. |
| Line.ArrowTailBeforeFinalNewline | yomi.py:68 | `$` also holds before a final newline, which survives: "a　→b\n" becomes "a\n". |
| LineExamples.TrimParenTwoAsides | yomi.py:67-76 | Matches are shortest and do not overlap: "foo(bar)baz(qux)" becomes "foobaz". |
| Pipeline.Normalize | yomi.py:91-94 | The trims only delete characters. With both flags off the line is unchanged. On a newline-free line with `focus_name` set, the result is a prefix of the line as the bracket trim left it. |
| Pipeline.NormalizeRunsSelectedTrims | yomi.py:91-94 | The bracket trim runs exactly when `ignore_paren` is set, and the noise trim exactly when `focus_name` is set. With both set, brackets go first and the noise trim sees their result. |
| Pipeline.ParseLine | yomi.py:86-98 | A line yields the empty parsed line exactly when it is all whitespace. Any other line keeps its raw text and sends its normalised text to the analyser. |
| Pipeline.TokenizeLines | yomi.py:82-98 | There is one parsed line per input line, in order, and each depends only on its own input line. |
| Pipeline.AnnotateLine | yomi.py:110-114 | The raw line passes through. The reading is as long as all token readings together. The detail is as long as all token details plus one " / " between neighbours, and both columns are empty for a line without tokens. |
| Pipeline.Annotate | yomi.py:101-114 | There is no output exactly when there are no lines. Otherwise there is one row per line, each the annotation of that line parsed with both trims on. |
| Pipeline.RowOfLine | yomi.py:87-114 | A blank line gives the row ("", "", "") whatever the analyser would return. A non-blank line heads its row with itself. |
| Pipeline.AnnotateRows | yomi.py:104-114 | With at least one line, every blank line gives an empty row, and every other line heads its own row. |
| Pipeline.TokenizeLinesAppend | yomi.py:86-98 | The parsed lines of two blocks of text are those of each block, one after the other. |
| Pipeline.AnnotationComposes | yomi.py:110-112 | Splitting a line's tokens in two concatenates the two readings and joins the two details with one " / ". |
| Pipeline.SingleTokenRow | yomi.py:110-112 | A one-token line has that token's reading and detail. |
| Pipeline.VerbatimLineReading | yomi.py:49-53 | When every token is verbatim, the line's reading matches the concatenated surfaces once both are remapped to katakana. |
| PipelineExamples.TrimOrderMatters | yomi.py:91-94 | On "（　→）", brackets first leave nothing. Noise first would leave a lone "（". |
| PipelineExamples.TrimmedToEmptyStillTokenized | yomi.py:87-95 | "(qux)" is not blank, so the analyser is still called on the empty text left after trimming. |
| PipelineExamples.AnalyserSeesTrimmedLine | yomi.py:87-95 | For "東京（とうきょう）に行く" the analyser receives "東京に行く", and the row keeps the raw line. |

## Left out

- `pyperclip.paste()` and `str.splitlines()` (yomi.py:102): clipboard I/O. The model starts from the list of lines.
- The file write and the tab/newline serialisation of the rows (yomi.py:114-116): formatting glue for the output file. The model returns the three columns of each row as a record.
- The empty-clipboard message (yomi.py:104-106): console output. Only the early return is modelled, as `None`.
- `sudachipy` (yomi.py:22, yomi.py:27-29, yomi.py:85, yomi.py:95): `Dictionary().create()`, `tokenize(..., SplitMode.C)` and the `Morpheme` accessors are foreign calls. The analyser is a function parameter, and a `Token` holds what the accessors return.
- Python's Unicode tables for `\s`, `str.isspace`, `\d` and `\w`: these depend on the interpreter. They are the parameter `Unicode.CharDb`, not fixed character sets. The model identifies `\s` with `str.isspace()`.
- Line.TrimNoiseIsPrefix: stated for lines without a newline, because `$` before a final newline keeps that newline (`Line.ArrowTailBeforeFinalNewline`). Lines from `splitlines` contain no newline.
- Line.TrimNoiseCutsAtLeftmost: stated for lines without a newline, for the same reason.
- Tokens.DetailRoundTrip: does not cover a dictionary reading of exactly "?". That detail is identical to the no-reading marker (`Tokens.QuestionMarkReadingIsAmbiguous`).
- Unicode.Strip: its own contract does not say that only whitespace is removed. That is stated by `Unicode.StripStart` and `Unicode.StripEnd`, and `Strip` is their composition.
- Basics.Join: its own contract gives the first piece and a lower bound on the length. The exact length is `Basics.JoinLength`, and the separator placement is `Basics.JoinAppend`.
