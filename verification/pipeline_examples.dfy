/** Worked examples of the per-line pipeline on concrete lines. */
module PipelineExamples {
  import opened Basics
  import opened Unicode
  import opened Patterns
  import opened Line
  import opened LineExamples
  import opened Pipeline

  /** The noise pattern finds "　→）" inside "（　→）", whatever counts as a digit. */
  lemma ArrowInsideAside(db: CharDb, x: string)
    requires x == "\U{FF08}\U{3000}\U{2192}\U{FF09}"
    ensures TrimNoise(db, x) == "\U{FF08}"
  {
    assert x[1..] == "\U{3000}\U{2192}\U{FF09}";
    assert NoNewline(x);
    TrimNoiseCutsAtLeftmost(db, x, 1);
  }

  /** "（　→）" is one aside, and the bracket pattern takes all of it. */
  lemma AsideSwallowsArrow(x: string)
    requires x == "\U{FF08}\U{3000}\U{2192}\U{FF09}"
    ensures TrimParen(x) == ""
  {
    assert LazyClose(x, '\U{FF09}', 2) == Some(3);
    assert x[4..] == "";
    TrimParenDropsLeadingSpan(x, 4);
  }

  /** The order of the trims matters: on "（　→）" brackets first leave
      nothing, while the noise trim first would leave a lone "（" that no
      bracket pattern can then remove. */
  lemma TrimOrderMatters(db: CharDb, x: string)
    requires x == "\U{FF08}\U{3000}\U{2192}\U{FF09}"
    ensures Normalize(db, x, true, true) == ""
    ensures TrimParen(TrimNoise(db, x)) == "\U{FF08}"
  {
    AsideSwallowsArrow(x);
    assert TrimNoise(db, "") == "";
    ArrowInsideAside(db, x);
    var y := "\U{FF08}";
    assert TrimParen(y) == y by {
      TrimParenNoOpener("");
      TrimParenKeepsPlainPrefix("", y);
      assert ParenMatch(y).None?;
    }
  }

  /** The blank check comes before the trims: "(qux)" is not blank, so the
      analyser is still called, on the empty text left after trimming. */
  lemma TrimmedToEmptyStillTokenized(db: CharDb, tokenize: Tokenizer, x: string)
    requires x == "(qux)"
    requires !db.isSpace('(')
    ensures ParseLine(db, tokenize, x, true, true) == ParsedLine(x, "", tokenize(""))
  {
    assert !AllSpace(db, x) by {
      assert x[0] == '(';
    }
    TrimParenOneAside();
    assert TrimNoise(db, "") == "";
  }

  /** "（とうきょう）" closes at its own closer, whatever follows. */
  lemma ReadingAsideCloses(b: string, y: string)
    requires b == "\U{FF08}\U{3068}\U{3046}\U{304D}\U{3087}\U{3046}\U{FF09}"
    ensures ParenMatch(b + y) == Some(7)
  {
    var a := b + y;
    assert a[..7] == b;
    assert a[0] == '\U{FF08}' && a[1] == '\U{3068}' && a[2] == '\U{3046}' && a[3] == '\U{304D}';
    assert a[4] == '\U{3087}' && a[5] == '\U{3046}' && a[6] == '\U{FF09}';
    assert LazyClose(a, '\U{FF09}', 6) == Some(6);
    assert LazyClose(a, '\U{FF09}', 5) == Some(6);
    assert LazyClose(a, '\U{FF09}', 4) == Some(6);
    assert LazyClose(a, '\U{FF09}', 3) == Some(6);
    assert LazyClose(a, '\U{FF09}', 2) == Some(6);
  }

  /** End to end: the analyser is handed "東京に行く" for the line
      "東京（とうきょう）に行く", the aside with the reading gone. */
  lemma AnalyserSeesTrimmedLine(db: CharDb, tokenize: Tokenizer, a: string, b: string, c: string)
    requires a == "\U{6771}\U{4EAC}"
    requires b == "\U{FF08}\U{3068}\U{3046}\U{304D}\U{3087}\U{3046}\U{FF09}"
    requires c == "\U{306B}\U{884C}\U{304F}"
    requires !db.isSpace('\U{6771}')
    ensures ParseLine(db, tokenize, a + b + c, true, true) == ParsedLine(a + b + c, a + c, tokenize(a + c))
  {
    var line := a + b + c;
    assert !AllSpace(db, line) by {
      assert line[0] == '\U{6771}';
    }
    assert TrimParen(line) == a + c by {
      ReadingAsideCloses(b, c);
      assert (b + c)[|b|..] == c;
      TrimParenDropsLeadingSpan(b + c, |b|);
      TrimParenNoOpener(c);
      TrimParenKeepsPlainPrefix(a, b + c);
      assert line == a + (b + c);
    }
    var t := a + c;
    assert TrimNoise(db, t) == t by {
      assert t == "\U{6771}\U{4EAC}\U{306B}\U{884C}\U{304F}";
      forall j | 0 <= j < |t|
        ensures !NoiseStart(db, t[j..])
      {
        assert t[j..][0] == t[j];
      }
      TrimNoiseNoNoise(db, t);
    }
  }
}
