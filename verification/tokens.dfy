/** The token classifier and reading resolver (`TokenWrapper`): one morpheme in,
    the reading it contributes to the line and the human-readable detail out. */
module Tokens {
  import opened Basics
  import opened Unicode
  import Kana

  /** One morpheme as `SudachiToken` keeps it: the surface text, the first
      (major) part-of-speech field, and the dictionary's reading form, which
      may be empty. */
  datatype Token = Token(surface: string, pos: string, reading: string)

  /** What `TokenWrapper` derives from a token. */
  datatype Wrapped = Wrapped(reading: string, detail: string)

  /** The major parts of speech that always make a token verbatim:
      記号 (symbol) and 空白 (blank). */
  const SymbolPos: string := "\U{8A18}\U{53F7}"
  const BlankPos: string := "\U{7A7A}\U{767D}"

  /** One repetition of the character-class alternation of the verbatim pattern:
      ぁ-ん, ァ-ヴ, ・ and ー; ASCII and full-width Latin letters; ASCII and
      full-width digits; any non-word or whitespace character. */
  function InVerbatimClass(db: CharDb, c: char): (b: bool)
    // every non-word or whitespace character belongs, whatever its block
    ensures !db.isWord(c) || db.isSpace(c) ==> b
    // of the code points the kana remap moves, a word character belongs
    // exactly when it is not ゔ (U+3094)
    ensures Kana.InShiftRange(c) && db.isWord(c) && !db.isSpace(c) ==> (b <==> c as int != Kana.ShiftHigh)
  {
    || ('\U{3041}' <= c <= '\U{3093}')
    || ('\U{30A1}' <= c <= '\U{30F4}')
    || c == '\U{30FB}' || c == '\U{30FC}'
    || ('a' <= c <= 'z') || ('A' <= c <= 'Z')
    || ('\U{FF41}' <= c <= '\U{FF5A}') || ('\U{FF21}' <= c <= '\U{FF3A}')
    || ('0' <= c <= '9') || ('\U{FF10}' <= c <= '\U{FF19}')
    || !db.isWord(c) || db.isSpace(c)
  }

  /** Left-to-right scan of the alternation repeated to the end of `s`. */
  function AllVerbatimChars(db: CharDb, s: string): (b: bool)
    ensures b <==> forall i :: 0 <= i < |s| ==> InVerbatimClass(db, s[i])
    decreases |s|
  {
    if |s| == 0 then true
    else if !InVerbatimClass(db, s[0]) then false
    else
      var b := AllVerbatimChars(db, s[1..]);
      assert b ==> forall i :: 0 <= i < |s| ==> InVerbatimClass(db, s[i]) by {
        if b {
          forall i | 1 <= i < |s|
            ensures InVerbatimClass(db, s[i])
          {
            assert s[i] == s[1..][i - 1];
          }
        }
      }
      b
  }

  /** The anchored pattern `^(...)+$` matches the whole surface: at least one
      character, every one of them in the class. `$` is read as the end of the
      surface, which is what it means on surfaces without a newline. */
  function MatchesVerbatimPattern(db: CharDb, s: string): (b: bool)
    ensures b <==> |s| > 0 && forall i :: 0 <= i < |s| ==> InVerbatimClass(db, s[i])
  {
    |s| > 0 && AllVerbatimChars(db, s)
  }

  /** The verbatim test: a symbol or blank part of speech, or a surface the
      pattern matches as a whole. */
  function IsVerbatim(db: CharDb, t: Token): (b: bool)
    ensures b <==> (exists i :: OccursAt(t.pos, SymbolPos, i))
                   || (exists i :: OccursAt(t.pos, BlankPos, i))
                   || (|t.surface| > 0 && forall i :: 0 <= i < |t.surface| ==> InVerbatimClass(db, t.surface[i]))
  {
    Contains(t.pos, SymbolPos) || Contains(t.pos, BlankPos) || MatchesVerbatimPattern(db, t.surface)
  }

  /** `re.match(r"[ぁ-ん]", s)`: the first character lies in U+3041..U+3093.
      This stops one short of the remap range, so a leading ゔ (U+3094) does not
      trigger the remap. */
  function StartsWithHiragana(s: string): (b: bool)
    ensures b <==> |s| > 0 && Kana.InShiftRange(s[0]) && s[0] as int != Kana.ShiftHigh
  {
    |s| > 0 && '\U{3041}' <= s[0] <= '\U{3093}'
  }

  /** `TokenWrapper.__init__`: the three branches of the resolver. */
  function Wrap(db: CharDb, t: Token): (w: Wrapped)
    // the detail alone tells a verbatim token from a looked-up one
    ensures w.detail == t.surface <==> IsVerbatim(db, t)
    // a verbatim reading is the surface up to the kana remap, character for character
    ensures IsVerbatim(db, t) ==>
              |w.reading| == |t.surface| &&
              Kana.KatakanaSurface(w.reading) == Kana.KatakanaSurface(t.surface)
    // a surface starting with ぁ..ん is read as its remap to katakana
    ensures IsVerbatim(db, t) && StartsWithHiragana(t.surface) ==>
              w.reading == Kana.KatakanaSurface(t.surface)
    // so no character of the remap range is left in its reading
    ensures IsVerbatim(db, t) && StartsWithHiragana(t.surface) ==>
              forall i :: 0 <= i < |w.reading| ==> !Kana.InShiftRange(w.reading[i])
    // a verbatim surface not starting with ぁ..ん is its own reading
    ensures IsVerbatim(db, t) && !StartsWithHiragana(t.surface) ==> w.reading == t.surface
    // no dictionary reading: the surface stands in and the detail flags it
    ensures !IsVerbatim(db, t) && |t.reading| == 0 ==>
              w.reading == t.surface && w.detail == t.surface + "(?)"
    // a dictionary reading is used as is and shown in parentheses after the surface
    ensures !IsVerbatim(db, t) && |t.reading| > 0 ==>
              w.reading == t.reading && w.detail == t.surface + "(" + t.reading + ")"
  {
    if IsVerbatim(db, t) then
      var reading := if StartsWithHiragana(t.surface) then Kana.KatakanaSurface(t.surface) else t.surface;
      Kana.KatakanaIdempotent(t.surface);
      Kana.KatakanaLeavesNoHiragana(t.surface);
      Wrapped(reading, t.surface)
    else if |t.reading| < 1 then
      Wrapped(t.surface, t.surface + "(?)")
    else
      Wrapped(t.reading, t.surface + "(" + t.reading + ")")
  }

  /** How a detail string says its token was read. */
  datatype Provenance = Verbatim | NoReading | Dictionary(reading: string)

  /** Reads a detail back, given the token's surface: the surface alone, the
      surface followed by "(?)", or the surface followed by a parenthesised
      reading. */
  function ParseDetail(surface: string, detail: string): Option<Provenance> {
    if detail == surface then Some(Verbatim)
    else if |detail| >= |surface| + 2 && detail[..|surface|] == surface
         && detail[|surface|] == '(' && detail[|detail| - 1] == ')' then
      var inner := detail[|surface| + 1..|detail| - 1];
      if inner == "?" then Some(NoReading) else Some(Dictionary(inner))
    else None
  }

  /** The provenance a token has under the resolver's three branches. */
  function ProvenanceOf(db: CharDb, t: Token): Provenance {
    if IsVerbatim(db, t) then Verbatim
    else if |t.reading| == 0 then NoReading
    else Dictionary(t.reading)
  }

  /** The detail records which branch produced the reading, and which dictionary
      reading was used, unless that reading is the single character "?". */
  lemma DetailRoundTrip(db: CharDb, t: Token)
    requires t.reading != "?"
    ensures ParseDetail(t.surface, Wrap(db, t).detail) == Some(ProvenanceOf(db, t))
    ensures ProvenanceOf(db, t).Dictionary? ==> Wrap(db, t).reading == ProvenanceOf(db, t).reading
  {
    var d := Wrap(db, t).detail;
    var n := |t.surface|;
    if !IsVerbatim(db, t) {
      var inner := if |t.reading| == 0 then "?" else t.reading;
      assert d == t.surface + "(" + inner + ")";
      assert d[..n] == t.surface;
      assert d[n + 1..|d| - 1] == inner;
    }
  }

  /** The exception to the round trip: a dictionary reading of "?" yields the
      same detail as a missing reading. */
  lemma QuestionMarkReadingIsAmbiguous(db: CharDb, surface: string, pos: string)
    requires !IsVerbatim(db, Token(surface, pos, "?"))
    ensures Wrap(db, Token(surface, pos, "?")).detail == Wrap(db, Token(surface, pos, "")).detail
  {
    assert IsVerbatim(db, Token(surface, pos, "?")) == IsVerbatim(db, Token(surface, pos, ""));
  }

  /** The verbatim test in declarative form: 記号 or 空白 occurs in the part of
      speech, or the surface is non-empty and made only of class characters. */
  lemma VerbatimIff(db: CharDb, t: Token)
    ensures IsVerbatim(db, t) <==>
              (exists i :: OccursAt(t.pos, SymbolPos, i))
              || (exists i :: OccursAt(t.pos, BlankPos, i))
              || (|t.surface| > 0 && forall i :: 0 <= i < |t.surface| ==> InVerbatimClass(db, t.surface[i]))
  {
  }

  /** The first-character test and the remap disagree about ゔ (U+3094): a
      verbatim surface "ぁゔ" is remapped to "ァヴ", but "ゔぁ" keeps its
      hiragana, and so does a verbatim surface that starts with katakana, such
      as "アあ". */
  lemma LeadingCharacterDecidesRemap(db: CharDb, pos: string)
    requires Contains(pos, SymbolPos)
    ensures Wrap(db, Token("\U{3041}\U{3094}", pos, "")).reading == "\U{30A1}\U{30F4}"
    ensures Wrap(db, Token("\U{3094}\U{3041}", pos, "")).reading == "\U{3094}\U{3041}"
    ensures Wrap(db, Token("\U{30A2}\U{3042}", pos, "")).reading == "\U{30A2}\U{3042}"
  {
    var r := Wrap(db, Token("\U{3041}\U{3094}", pos, "")).reading;
    assert r[0] as int == 0x30A1 && r[1] as int == 0x30F4;
  }
}
