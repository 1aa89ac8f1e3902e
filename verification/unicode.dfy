/** The character classes the script borrows from Python's Unicode database,
    and `str.strip()` built on them.

    Python decides `\s` / `str.isspace()`, `\d` and `\w` from the Unicode tables
    of the interpreter it runs on, so the model takes them as a parameter rather
    than fixing one version of those tables. Only ranges the script spells out
    itself are written down as constants. */
module Unicode {

  /** Python's character classes: `isSpace` is `\s` and `str.isspace()` (the two
      agree), `isDigit` is `\d` (decimal digits), `isWord` is `\w`. */
  datatype CharDb = CharDb(isSpace: char -> bool, isDigit: char -> bool, isWord: char -> bool)

  /** U+3000, the ideographic (full-width) space. */
  const IdeographicSpace: char := '\U{3000}'

  /** U+2192, the rightwards arrow. */
  const RightArrow: char := '\U{2192}'

  /** Leading whitespace removed, as `str.lstrip()` does. */
  function StripStart(db: CharDb, s: string): (r: string)
    ensures |r| <= |s| && r == s[|s| - |r|..]
    ensures |r| == 0 || !db.isSpace(r[0])
    ensures forall i :: 0 <= i < |s| - |r| ==> db.isSpace(s[i])
    decreases |s|
  {
    if |s| > 0 && db.isSpace(s[0]) then
      var r := StripStart(db, s[1..]);
      assert s[1..][|s| - 1 - |r|..] == s[|s| - |r|..];
      assert forall i :: 1 <= i < |s| - |r| ==> s[i] == s[1..][i - 1];
      r
    else s
  }

  /** Trailing whitespace removed, as `str.rstrip()` does. */
  function StripEnd(db: CharDb, s: string): (r: string)
    ensures |r| <= |s| && r == s[..|r|]
    ensures |r| == 0 || !db.isSpace(r[|r| - 1])
    ensures forall i :: |r| <= i < |s| ==> db.isSpace(s[i])
    decreases |s|
  {
    if |s| > 0 && db.isSpace(s[|s| - 1]) then
      var r := StripEnd(db, s[..|s| - 1]);
      assert s[..|s| - 1][..|r|] == s[..|r|];
      assert forall i :: |r| <= i < |s| - 1 ==> s[i] == s[..|s| - 1][i];
      r
    else s
  }

  /** Every character of `s` is whitespace (vacuously so for the empty string). */
  predicate AllSpace(db: CharDb, s: string) {
    forall i :: 0 <= i < |s| ==> db.isSpace(s[i])
  }

  /** A prefix `r` of a suffix `a` of `s`, with whitespace cut on either side:
      empty exactly when `s` is all whitespace, and starting with a non-space
      otherwise. */
  lemma SliceOfSuffix(db: CharDb, s: string, a: string, r: string)
    requires |a| <= |s| && a == s[|s| - |a|..]
    requires |r| <= |a| && r == a[..|r|]
    requires forall i :: 0 <= i < |s| - |a| ==> db.isSpace(s[i])
    requires forall i :: |r| <= i < |a| ==> db.isSpace(a[i])
    requires |a| == 0 || !db.isSpace(a[0])
    ensures |r| == 0 <==> AllSpace(db, s)
    ensures |r| > 0 ==> !db.isSpace(r[0])
  {
    var k := |s| - |a|;
    if |r| == 0 {
      assert |a| == 0;
    } else {
      assert r[0] == a[0];
      assert a[0] == s[k..][0];
    }
  }

  /** `lstrip` then `rstrip` leave nothing exactly on an all-whitespace line. */
  lemma StripEmptyIffAllSpace(db: CharDb, s: string)
    ensures |StripEnd(db, StripStart(db, s))| == 0 <==> AllSpace(db, s)
  {
    var a := StripStart(db, s);
    SliceOfSuffix(db, s, a, StripEnd(db, a));
  }

  /** What `lstrip` then `rstrip` leave starts with a non-space. */
  lemma StripStartsWithNonSpace(db: CharDb, s: string)
    ensures |StripEnd(db, StripStart(db, s))| > 0 ==> !db.isSpace(StripEnd(db, StripStart(db, s))[0])
  {
    var a := StripStart(db, s);
    SliceOfSuffix(db, s, a, StripEnd(db, a));
  }

  /** Python's `str.strip()` with no argument: `lstrip` then `rstrip`, which
      leaves no whitespace at either end. It is empty exactly when the line is
      all whitespace, which is what `len(line.strip()) < 1` tests. */
  function Strip(db: CharDb, s: string): (r: string)
    ensures |r| == 0 <==> AllSpace(db, s)
    ensures |r| > 0 ==> !db.isSpace(r[0]) && !db.isSpace(r[|r| - 1])
  {
    StripEmptyIffAllSpace(db, s);
    StripStartsWithNonSpace(db, s);
    StripEnd(db, StripStart(db, s))
  }
}
