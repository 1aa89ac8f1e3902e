/** The line normaliser of `ParsedLine`: `trim_paren` deletes bracketed asides,
    `trim_noise` deletes a trailing page-number or cross-reference tail. */
module Line {
  import opened Basics
  import opened Unicode
  import opened Patterns
  import opened Subst

  /** The bracket pattern as a matcher. */
  const ParenMatcher: Matcher := ParenMatch

  /** The noise pattern as a matcher, under a choice of Python's `\d`. */
  function NoiseMatcher(db: CharDb): (m: Matcher)
    ensures Advances(m)
  {
    x => NoiseMatch(db, x)
  }

  /** `ParsedLine.trim_paren`: `reg_paren.sub("", line)`, which only deletes
      characters. */
  function TrimParen(s: string): (r: string)
    ensures Subsequence(r, s)
  {
    ParenAdvances();
    SubIsSubsequence(ParenMatcher, s);
    Sub(ParenMatcher, s)
  }

  /** `ParsedLine.trim_noise`: `reg_noise.sub("", line)`, which only deletes
      characters. */
  function TrimNoise(db: CharDb, s: string): (r: string)
    ensures Subsequence(r, s)
  {
    SubIsSubsequence(NoiseMatcher(db), s);
    Sub(NoiseMatcher(db), s)
  }

  lemma ParenAdvances()
    ensures Advances(ParenMatcher)
  {
  }

  predicate NoNewline(s: string) {
    forall i :: 0 <= i < |s| ==> s[i] != '\n'
  }

  // ---------------------------------------------------------------------------
  // trim_paren

  /** Bracket removal only deletes characters. */
  lemma TrimParenIsSubsequence(s: string)
    ensures Subsequence(TrimParen(s), s)
  {
    SubIsSubsequence(ParenMatcher, s);
  }

  /** A line without any of the four opening brackets comes back unchanged. */
  lemma TrimParenNoOpener(s: string)
    requires forall i :: 0 <= i < |s| ==> !IsOpener(s[i])
    ensures TrimParen(s) == s
  {
    forall i | 0 <= i < |s|
      ensures ParenMatch(s[i..]).None?
    {
      assert s[i..][0] == s[i];
    }
    SubUnchangedIff(ParenMatcher, s);
  }

  /** A line comes back unchanged exactly when no bracket span starts anywhere in it. */
  lemma TrimParenUnchangedIff(s: string)
    ensures TrimParen(s) == s <==>
              forall i, n :: 0 <= i < |s| && 0 <= n <= |s| - i ==> !IsBracketSpan(s[i..][..n])
  {
    SubUnchangedIff(ParenMatcher, s);
    forall i | 0 <= i < |s|
      ensures ParenMatch(s[i..]).None? <==>
                forall n :: 0 <= n <= |s| - i ==> !IsBracketSpan(s[i..][..n])
    {
      ParenMatchIsBracketSpan(s[i..]);
    }
  }

  /** In any scan by the bracket pattern, every dropped piece is a bracket span
      (an opener, at least one character, the nearest matching closer after it),
      and no bracket span starts at a kept character. */
  lemma {:induction false} ParenPiecesAreSpans(ps: seq<Piece>)
    requires ScannedBy(ParenMatcher, ps)
    ensures forall k :: 0 <= k < |ps| && ps[k].Drop? ==> IsBracketSpan(ps[k].span)
    ensures forall k, n :: 0 <= k < |ps| && ps[k].Keep? && 0 <= n <= |Flatten(ps[k..])| ==>
              !IsBracketSpan(Flatten(ps[k..])[..n])
    decreases |ps|
  {
    if |ps| > 0 {
      ParenPiecesAreSpans(ps[1..]);
      var x := Flatten(ps);
      ParenMatchIsBracketSpan(x);
      assert ps[0..] == ps;
      forall k, n | 1 <= k < |ps| && ps[k].Keep? && 0 <= n <= |Flatten(ps[k..])|
        ensures !IsBracketSpan(Flatten(ps[k..])[..n])
      {
        assert ps[k..] == ps[1..][k - 1..];
        assert ps[k] == ps[1..][k - 1];
      }
      forall k | 1 <= k < |ps| && ps[k].Drop?
        ensures IsBracketSpan(ps[k].span)
      {
        assert ps[k] == ps[1..][k - 1];
      }
      if ps[0].Drop? {
        var span := ps[0].span;
        assert x == span + Flatten(ps[1..]);
        assert x[..|span|] == span;
      }
    }
  }

  /** `trim_paren`, piece by piece: the line splits into kept characters and
      dropped bracket spans, the kept characters form the result, and no other
      split has these properties. */
  lemma TrimParenSpans(s: string)
    ensures var ps := Scan(ParenMatcher, s);
            && Flatten(ps) == s
            && Kept(ps) == TrimParen(s)
            && (forall k :: 0 <= k < |ps| && ps[k].Drop? ==> IsBracketSpan(ps[k].span))
    ensures forall ps :: Flatten(ps) == s && ScannedBy(ParenMatcher, ps) ==> ps == Scan(ParenMatcher, s)
  {
    ScanIsScanned(ParenMatcher, s);
    ParenPiecesAreSpans(Scan(ParenMatcher, s));
    forall ps | Flatten(ps) == s && ScannedBy(ParenMatcher, ps)
      ensures ps == Scan(ParenMatcher, s)
    {
      ScanUnique(ParenMatcher, s, ps);
    }
  }

  /** Empty brackets survive: the pattern needs one character inside. */
  lemma EmptyBracketsSurvive()
    ensures TrimParen("()") == "()"
    ensures TrimParen("[]") == "[]"
    ensures TrimParen("\U{FF08}\U{FF09}") == "\U{FF08}\U{FF09}"
    ensures TrimParen("\U{FF3B}\U{FF3D}") == "\U{FF3B}\U{FF3D}"
  {
    assert "()"[1..] == ")";
    assert "[]"[1..] == "]";
    assert "\U{FF08}\U{FF09}"[1..] == "\U{FF09}";
    assert "\U{FF3B}\U{FF3D}"[1..] == "\U{FF3D}";
  }

  /** Text with no opening bracket passes through, whatever follows it. */
  lemma TrimParenKeepsPlainPrefix(a: string, b: string)
    requires forall i :: 0 <= i < |a| ==> !IsOpener(a[i])
    ensures TrimParen(a + b) == a + TrimParen(b)
  {
    var s := a + b;
    forall j | 0 <= j < |a|
      ensures ParenMatch(s[j..]).None?
    {
      assert s[j..][0] == a[j];
    }
    SubCopiesUpToMatch(ParenMatcher, s, |a|);
    assert s[..|a|] == a && s[|a|..] == b;
  }

  /** An aside at the start of the line is dropped, and the scan resumes after it. */
  lemma TrimParenDropsLeadingSpan(s: string, n: nat)
    requires 0 < n <= |s| && ParenMatch(s) == Some(n)
    ensures TrimParen(s) == TrimParen(s[n..])
  {
  }

  /** "(qux)" is one aside and disappears entirely. */
  lemma TrimParenOneAside()
    ensures TrimParen("(qux)") == ""
  {
    var c := "(qux)";
    assert LazyClose(c, ')', 2) == Some(4);
    assert c[5..] == "";
    TrimParenDropsLeadingSpan(c, 5);
  }

  // ---------------------------------------------------------------------------
  // trim_noise

  /** Noise removal only deletes characters. */
  lemma TrimNoiseIsSubsequence(db: CharDb, s: string)
    ensures Subsequence(TrimNoise(db, s), s)
  {
    SubIsSubsequence(NoiseMatcher(db), s);
  }

  /** On a line without newlines, `trim_noise` keeps a prefix of the line. */
  lemma {:induction false} TrimNoiseIsPrefix(db: CharDb, s: string)
    requires NoNewline(s)
    ensures |TrimNoise(db, s)| <= |s| && TrimNoise(db, s) == s[..|TrimNoise(db, s)|]
    decreases |s|
  {
    if |s| > 0 {
      NoiseMatchNoNewline(db, s);
      if NoiseMatch(db, s).None? {
        SubKeepStep(NoiseMatcher(db), s);
        TrimNoiseIsPrefix(db, s[1..]);
      } else {
        assert s[|s|..] == [];
      }
    }
  }

  /** On a line without newlines, `trim_noise` cuts the line at the leftmost
      noise start (two ideographic spaces and a digit at offset 2 or 3, or an
      ideographic space, an arrow and at least one more character), and at the
      end of the line when there is none. */
  lemma TrimNoiseCutsAtLeftmost(db: CharDb, s: string, i: nat)
    requires NoNewline(s)
    requires i <= |s|
    requires i < |s| ==> NoiseStart(db, s[i..])
    requires forall j :: 0 <= j < i ==> !NoiseStart(db, s[j..])
    ensures TrimNoise(db, s) == s[..i]
  {
    forall j | 0 <= j < |s|
      ensures NoiseStart(db, s[j..]) ==> NoiseMatch(db, s[j..]) == Some(|s| - j)
      ensures !NoiseStart(db, s[j..]) ==> NoiseMatch(db, s[j..]).None?
    {
      NoiseMatchNoNewline(db, s[j..]);
    }
    SubTruncates(NoiseMatcher(db), s, i);
  }

  /** A line without newlines and without any noise start comes back unchanged. */
  lemma TrimNoiseNoNoise(db: CharDb, s: string)
    requires NoNewline(s)
    requires forall j :: 0 <= j < |s| ==> !NoiseStart(db, s[j..])
    ensures TrimNoise(db, s) == s
  {
    TrimNoiseCutsAtLeftmost(db, s, |s|);
  }

  /** A page number after a double ideographic space is cut: "見出し　　12" becomes "見出し". */
  lemma PageNumberIsCut(db: CharDb)
    requires db.isDigit('1')
    ensures TrimNoise(db, "\U{898B}\U{51FA}\U{3057}\U{3000}\U{3000}12") == "\U{898B}\U{51FA}\U{3057}"
  {
    var s := "\U{898B}\U{51FA}\U{3057}\U{3000}\U{3000}12";
    assert s[3..] == "\U{3000}\U{3000}12";
    TrimNoiseCutsAtLeftmost(db, s, 3);
  }

  /** Without a digit in the tail nothing is cut: "見出し　　本文" stays as it is. */
  lemma TextTailIsKept(db: CharDb)
    requires !db.isDigit('\U{672C}') && !db.isDigit('\U{6587}')
    ensures TrimNoise(db, "\U{898B}\U{51FA}\U{3057}\U{3000}\U{3000}\U{672C}\U{6587}")
            == "\U{898B}\U{51FA}\U{3057}\U{3000}\U{3000}\U{672C}\U{6587}"
  {
    var s := "\U{898B}\U{51FA}\U{3057}\U{3000}\U{3000}\U{672C}\U{6587}";
    assert s[3..] == "\U{3000}\U{3000}\U{672C}\U{6587}";
    assert s[4..] == "\U{3000}\U{672C}\U{6587}";
    TrimNoiseNoNoise(db, s);
  }

  /** The digit must come right after the double space, or after one other
      character: in "見出し　　p.12" it comes third, so nothing is cut. */
  lemma LateDigitIsKept(db: CharDb)
    requires !db.isDigit('p') && !db.isDigit('.')
    ensures TrimNoise(db, "\U{898B}\U{51FA}\U{3057}\U{3000}\U{3000}p.12")
            == "\U{898B}\U{51FA}\U{3057}\U{3000}\U{3000}p.12"
  {
    var s := "\U{898B}\U{51FA}\U{3057}\U{3000}\U{3000}p.12";
    assert s[3..] == "\U{3000}\U{3000}p.12";
    assert s[4..] == "\U{3000}p.12";
    TrimNoiseNoNoise(db, s);
  }

  /** `$` also holds before a final newline, which the substitution then keeps:
      "a　→b\n" becomes "a\n". */
  lemma ArrowTailBeforeFinalNewline(db: CharDb)
    ensures TrimNoise(db, "a\U{3000}\U{2192}b\n") == "a\n"
  {
    var s := "a\U{3000}\U{2192}b\n";
    SubCopiesUpToMatch(NoiseMatcher(db), s, 1);
    var t := s[1..];
    assert t == "\U{3000}\U{2192}b\n";
    assert RunEnd(t, 2) == 3;
    assert NoiseMatch(db, t) == Some(3);
    assert t[3..] == "\n";
    assert NoiseMatch(db, "\n").None?;
  }
}
