/** The hiragana-to-katakana remap of `SudachiToken.katakana_surface`: a pure
    code-point shift, not a lookup table. Every character from U+3041 through
    U+3094 moves up by 0x60 into the katakana block; everything else is kept. */
module Kana {

  /** First and last code point the remap moves, and how far. */
  const ShiftLow: int := 0x3041
  const ShiftHigh: int := 0x3094
  const KanaOffset: int := 0x60

  /** The characters the remap moves (ぁ through ゔ). */
  predicate InShiftRange(c: char) {
    ShiftLow <= c as int <= ShiftHigh
  }

  /** The characters the remap produces (ァ through ヴ). */
  predicate InTargetRange(c: char) {
    ShiftLow + KanaOffset <= c as int <= ShiftHigh + KanaOffset
  }

  /** One character through the remap. */
  function ShiftChar(c: char): char {
    if InShiftRange(c) then (c as int + KanaOffset) as char else c
  }

  /** The whole surface through the remap, character by character. */
  function KatakanaSurface(s: string): (r: string)
    ensures |r| == |s|
    ensures forall i :: 0 <= i < |s| && InShiftRange(s[i]) ==>
              r[i] as int == s[i] as int + KanaOffset && InTargetRange(r[i])
    ensures forall i :: 0 <= i < |s| && !InShiftRange(s[i]) ==> r[i] == s[i]
    decreases |s|
  {
    if |s| == 0 then [] else [ShiftChar(s[0])] + KatakanaSurface(s[1..])
  }

  /** The reverse shift, katakana back to hiragana; the remap's partner in the
      round-trip lemmas below. */
  function HiraganaSurface(s: string): (r: string)
    ensures |r| == |s|
    ensures forall i :: 0 <= i < |s| && InTargetRange(s[i]) ==>
              r[i] as int == s[i] as int - KanaOffset && InShiftRange(r[i])
    ensures forall i :: 0 <= i < |s| && !InTargetRange(s[i]) ==> r[i] == s[i]
    decreases |s|
  {
    if |s| == 0 then []
    else [if InTargetRange(s[0]) then (s[0] as int - KanaOffset) as char else s[0]]
         + HiraganaSurface(s[1..])
  }

  /** No character of the remapped surface is left for the remap to move. */
  lemma KatakanaLeavesNoHiragana(s: string)
    ensures forall i :: 0 <= i < |s| ==> !InShiftRange(KatakanaSurface(s)[i])
  {
    var r := KatakanaSurface(s);
    forall i | 0 <= i < |s|
      ensures !InShiftRange(r[i])
    {
      if !InShiftRange(s[i]) {
        assert r[i] == s[i];
      }
    }
  }

  /** Remapping twice is remapping once. */
  lemma KatakanaIdempotent(s: string)
    ensures KatakanaSurface(KatakanaSurface(s)) == KatakanaSurface(s)
  {
    KatakanaLeavesNoHiragana(s);
  }

  /** On a string with no katakana in the target block the remap is undone by
      the reverse shift, so it loses nothing there. */
  lemma KatakanaRoundTrip(s: string)
    requires forall i :: 0 <= i < |s| ==> !InTargetRange(s[i])
    ensures HiraganaSurface(KatakanaSurface(s)) == s
  {
    var k := KatakanaSurface(s);
    var h := HiraganaSurface(k);
    forall i | 0 <= i < |s|
      ensures h[i] == s[i]
    {
      if InShiftRange(s[i]) {
        assert (h[i] as int) == s[i] as int;
      }
    }
  }

  /** Conversely, on a string with no hiragana in the shifted block, the
      reverse shift is undone by the remap. */
  lemma HiraganaRoundTrip(s: string)
    requires forall i :: 0 <= i < |s| ==> !InShiftRange(s[i])
    ensures KatakanaSurface(HiraganaSurface(s)) == s
  {
    var h := HiraganaSurface(s);
    var k := KatakanaSurface(h);
    forall i | 0 <= i < |s|
      ensures k[i] == s[i]
    {
      if InTargetRange(s[i]) {
        assert (k[i] as int) == s[i] as int;
      } else {
        assert h[i] == s[i];
      }
    }
  }

  /** The remap works character by character, so it splits over concatenation. */
  lemma KatakanaAppend(a: string, b: string)
    ensures KatakanaSurface(a + b) == KatakanaSurface(a) + KatakanaSurface(b)
  {
  }

  /** "ねこ" (U+306D U+3053) becomes "ネコ" (U+30CD U+30B3). */
  lemma KatakanaNeko()
    ensures KatakanaSurface("\U{306D}\U{3053}") == "\U{30CD}\U{30B3}"
  {
    var r := KatakanaSurface("\U{306D}\U{3053}");
    assert r[0] as int == 0x30CD;
    assert r[1] as int == 0x30B3;
  }
}
