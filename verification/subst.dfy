/** Python's `re.sub(pattern, "", s)` for the two patterns of the line
    normaliser: scan left to right; where the pattern matches, drop the match and
    resume right after it; elsewhere keep one character and move on. */
module Subst {
  import opened Basics

  /** A matcher looks at the rest of the line from the scan position and reports
      the length of the match its pattern makes there, if any. */
  type Matcher = string -> Option<nat>

  /** Every match the matcher reports is non-empty and fits in its argument; true
      of both patterns here, neither of which can match the empty string. */
  ghost predicate Advances(m: Matcher) {
    forall x :: m(x).Some? ==> 0 < m(x).value <= |x|
  }

  /** The result of replacing every leftmost, non-overlapping match with "". */
  function Sub(m: Matcher, s: string): (r: string)
    requires Advances(m)
    ensures |r| <= |s|
    decreases |s|
  {
    if |s| == 0 then []
    else match m(s)
      case Some(n) => Sub(m, s[n..])
      case None => [s[0]] + Sub(m, s[1..])
  }

  /** Substitution only deletes: the result is a subsequence of the input. */
  lemma {:induction false} SubIsSubsequence(m: Matcher, s: string)
    requires Advances(m)
    ensures Subsequence(Sub(m, s), s)
    decreases |s|
  {
    if |s| > 0 {
      match m(s)
      case Some(n) =>
        SubIsSubsequence(m, s[n..]);
        SubsequenceOfSuffix(Sub(m, s), s, n);
      case None =>
        SubIsSubsequence(m, s[1..]);
        assert ([s[0]] + Sub(m, s[1..]))[1..] == Sub(m, s[1..]);
    }
  }

  /** A string is left alone exactly when the pattern matches at none of its positions. */
  lemma {:induction false} SubUnchangedIff(m: Matcher, s: string)
    requires Advances(m)
    ensures Sub(m, s) == s <==> forall i :: 0 <= i < |s| ==> m(s[i..]).None?
    decreases |s|
  {
    if |s| > 0 {
      SubUnchangedIff(m, s[1..]);
      assert forall i :: 1 <= i < |s| ==> s[1..][i - 1..] == s[i..];
      assert s[0..] == s;
      match m(s)
      case Some(n) =>
        assert |Sub(m, s)| < |s|;
      case None =>
        assert s == [s[0]] + s[1..];
        if Sub(m, s) == s {
          assert Sub(m, s[1..]) == s[1..];
        }
    }
  }

  /** One step of the scan where the pattern does not match: keep the character. */
  lemma SubKeepStep(m: Matcher, s: string)
    requires Advances(m)
    requires |s| > 0 && m(s).None?
    ensures Sub(m, s) == [s[0]] + Sub(m, s[1..])
  {
  }

  /** The first step of `SubCopiesUpToMatch`: keep `s[0]` and shift the
      no-match facts onto the rest. */
  lemma CopyStep(m: Matcher, s: string, i: nat)
    requires Advances(m)
    requires 0 < i <= |s|
    requires forall j :: 0 <= j < i ==> m(s[j..]).None?
    ensures Sub(m, s) == [s[0]] + Sub(m, s[1..])
    ensures forall j :: 0 <= j < i - 1 ==> m(s[1..][j..]).None?
    ensures s[1..][i - 1..] == s[i..]
  {
    assert m(s[0..]).None?;
    assert s[0..] == s;
    SubKeepStep(m, s);
    forall j | 0 <= j < i - 1
      ensures m(s[1..][j..]).None?
    {
      assert s[1..][j..] == s[j + 1..];
    }
  }

  /** The sequence algebra closing `SubCopiesUpToMatch`. */
  lemma CopyJoin(s: string, i: nat, a: string, b: string, c: string)
    requires 0 < i <= |s|
    requires c == [s[0]] + a
    requires a == s[1..][..i - 1] + b
    ensures c == s[..i] + b
  {
    assert s[..i] == [s[0]] + s[1..][..i - 1];
  }

  /** Up to the first match, the substitution copies the input through. */
  lemma {:induction false} SubCopiesUpToMatch(m: Matcher, s: string, i: nat)
    requires Advances(m)
    requires i <= |s|
    requires forall j :: 0 <= j < i ==> m(s[j..]).None?
    ensures Sub(m, s) == s[..i] + Sub(m, s[i..])
    decreases i
  {
    if i == 0 {
      assert s[..0] == [] && s[0..] == s;
    } else {
      CopyStep(m, s, i);
      SubCopiesUpToMatch(m, s[1..], i - 1);
      CopyJoin(s, i, Sub(m, s[1..]), Sub(m, s[i..]), Sub(m, s));
    }
  }

  /** When every match runs to the end of the string, the substitution keeps
      exactly the text before the leftmost match, and all of a string with no
      match. */
  lemma SubTruncates(m: Matcher, s: string, i: nat)
    requires Advances(m)
    requires i <= |s|
    requires forall j :: 0 <= j < i ==> m(s[j..]).None?
    requires i < |s| ==> m(s[i..]) == Some(|s| - i)
    ensures Sub(m, s) == s[..i]
  {
    SubCopiesUpToMatch(m, s, i);
    if i < |s| {
      assert s[i..][|s| - i..] == [];
    }
  }

  // ---------------------------------------------------------------------------
  // The scan as a decomposition of the input into kept characters and dropped spans.

  datatype Piece = Keep(c: char) | Drop(span: string)

  /** The text the pieces cover, in order. */
  function Flatten(ps: seq<Piece>): string {
    if |ps| == 0 then []
    else (match ps[0] case Keep(c) => [c] case Drop(span) => span) + Flatten(ps[1..])
  }

  /** The text of the kept pieces, in order. */
  function Kept(ps: seq<Piece>): string {
    if |ps| == 0 then []
    else (match ps[0] case Keep(c) => [c] case Drop(_) => []) + Kept(ps[1..])
  }

  /** The pieces are what a left-to-right scan with `m` sees: each dropped span is
      exactly the match at its position, and no match starts at a kept character. */
  ghost predicate ScannedBy(m: Matcher, ps: seq<Piece>)
    requires Advances(m)
  {
    |ps| == 0 ||
    (&& (match ps[0]
         case Keep(_) => m(Flatten(ps)).None?
         case Drop(span) => m(Flatten(ps)) == Some(|span|))
     && ScannedBy(m, ps[1..]))
  }

  /** The scan's decomposition of `s`. */
  function Scan(m: Matcher, s: string): (ps: seq<Piece>)
    requires Advances(m)
    ensures Flatten(ps) == s
    ensures Kept(ps) == Sub(m, s)
    decreases |s|
  {
    if |s| == 0 then []
    else match m(s)
      case Some(n) =>
        assert s == s[..n] + s[n..];
        [Drop(s[..n])] + Scan(m, s[n..])
      case None =>
        assert s == [s[0]] + s[1..];
        [Keep(s[0])] + Scan(m, s[1..])
  }

  /** The scan's decomposition is a scan with `m`. */
  lemma {:induction false} ScanIsScanned(m: Matcher, s: string)
    requires Advances(m)
    ensures ScannedBy(m, Scan(m, s))
    decreases |s|
  {
    if |s| > 0 {
      var ps := Scan(m, s);
      assert Flatten(ps) == s;
      match m(s)
      case Some(n) =>
        ScanIsScanned(m, s[n..]);
        assert ps[1..] == Scan(m, s[n..]);
      case None =>
        ScanIsScanned(m, s[1..]);
        assert ps[1..] == Scan(m, s[1..]);
    }
  }

  /** One piece off the front: the text of the first piece, then the rest. */
  lemma FlattenStep(ps: seq<Piece>)
    requires |ps| > 0
    ensures Flatten(ps) == (match ps[0] case Keep(c) => [c] case Drop(span) => span) + Flatten(ps[1..])
  {
  }

  /** One step of the scan, where the pattern matches and where it does not. */
  lemma ScanStep(m: Matcher, s: string)
    requires Advances(m)
    requires |s| > 0
    ensures m(s).Some? ==> Scan(m, s) == [Drop(s[..m(s).value])] + Scan(m, s[m(s).value..])
    ensures m(s).None? ==> Scan(m, s) == [Keep(s[0])] + Scan(m, s[1..])
  {
  }

  /** Any decomposition of `s` that a scan with `m` could see is the scan's own:
      the two conditions of `ScannedBy` pin the substitution down completely. */
  lemma {:induction false} ScanUnique(m: Matcher, s: string, ps: seq<Piece>)
    requires Advances(m)
    requires Flatten(ps) == s
    requires ScannedBy(m, ps)
    ensures ps == Scan(m, s)
    decreases |ps|
  {
    if |ps| > 0 {
      var rest := Flatten(ps[1..]);
      FlattenStep(ps);
      assert ScannedBy(m, ps[1..]);
      ScanUnique(m, rest, ps[1..]);
      ScanStep(m, s);
      match ps[0]
      case Keep(c) =>
        assert m(s).None?;
        assert s[1..] == rest by {
          assert s == [c] + rest;
        }
        assert ps == [Keep(s[0])] + ps[1..];
      case Drop(span) =>
        assert m(s) == Some(|span|);
        assert s[..|span|] == span && s[|span|..] == rest by {
          assert s == span + rest;
        }
        assert ps == [Drop(s[..|span|])] + ps[1..];
    }
  }
}
