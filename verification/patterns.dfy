/** The two regular expressions of `ParsedLine`, written as explicit matchers.

    Each matcher is asked whether its pattern matches at the START of a string
    (the rest of the line from the scan position) and, if so, how long the match
    is. Neither pattern looks behind the scan position or uses `^`, so this is
    all `re.sub` needs. Python's `.` is any character but a newline; `$` holds
    at the end of the string or just before a final newline. */
module Patterns {
  import opened Basics
  import opened Unicode

  // ---------------------------------------------------------------------------
  // reg_paren:  \(.+?\) | \[.+?\] | （.+?） | ［.+?］

  /** The closer that belongs to an opening bracket, for the four bracket pairs. */
  function CloserOf(c: char): Option<char> {
    if c == '(' then Some(')')
    else if c == '[' then Some(']')
    else if c == '\U{FF08}' then Some('\U{FF09}')
    else if c == '\U{FF3B}' then Some('\U{FF3D}')
    else None
  }

  predicate IsOpener(c: char) {
    CloserOf(c).Some?
  }

  /** The lazy `.+?` followed by `close`: `x[1..k]` is already consumed; try the
      closer at `k`, otherwise take one more non-newline character. */
  function LazyClose(x: string, close: char, k: nat): (r: Option<nat>)
    requires 2 <= k
    requires close != '\n'
    ensures r.Some? ==> k <= r.value < |x| && x[r.value] == close
    ensures r.Some? ==> forall j :: k <= j < r.value ==> x[j] != close && x[j] != '\n'
    ensures r.None? ==> forall j :: k <= j < |x| && x[j] == close ==>
                          exists m :: k <= m < j && x[m] == '\n'
    decreases |x| - k
  {
    if k >= |x| then None
    else if x[k] == close then Some(k)
    else if x[k] == '\n' then None
    else LazyClose(x, close, k + 1)
  }

  /** The length of the bracket match at the start of `x`, if any. */
  function ParenMatch(x: string): (r: Option<nat>)
    ensures r.Some? ==> 3 <= r.value <= |x|
  {
    if |x| < 2 || !IsOpener(x[0]) || x[1] == '\n' then None
    else match LazyClose(x, CloserOf(x[0]).value, 2)
      case Some(k) => Some(k + 1)
      case None => None
  }

  /** A bracket span as the pattern means it: an opener, at least one character,
      and the first matching closer after that character, with no newline in
      between. */
  ghost predicate IsBracketSpan(t: string) {
    && |t| >= 3
    && IsOpener(t[0])
    && t[|t| - 1] == CloserOf(t[0]).value
    && (forall j :: 1 <= j < |t| - 1 ==> t[j] != '\n')
    && (forall j :: 2 <= j < |t| - 1 ==> t[j] != CloserOf(t[0]).value)
  }

  /** The bracket matcher finds exactly the bracket spans: a match is one, and
      whenever a prefix of `x` is one, the matcher reports that prefix. */
  lemma ParenMatchIsBracketSpan(x: string)
    ensures ParenMatch(x).Some? ==> IsBracketSpan(x[..ParenMatch(x).value])
    ensures forall n :: 0 <= n <= |x| && IsBracketSpan(x[..n]) ==> ParenMatch(x) == Some(n)
  {
    if ParenMatch(x).Some? {
      var n := ParenMatch(x).value;
      var t := x[..n];
      assert forall j :: 1 <= j < n ==> t[j] == x[j];
    }
    forall n | 0 <= n <= |x| && IsBracketSpan(x[..n])
      ensures ParenMatch(x) == Some(n)
    {
      var t := x[..n];
      assert forall j :: 1 <= j < n ==> t[j] == x[j];
      var close := CloserOf(x[0]).value;
      assert x[n - 1] == close;
    }
  }

  // ---------------------------------------------------------------------------
  // reg_noise:  　　[^\d]?\d.*$ | 　→.+$

  /** Where `.*` starting at `j` stops: the first newline at or after `j`, or the end. */
  function RunEnd(x: string, j: nat): (k: nat)
    requires j <= |x|
    ensures j <= k <= |x|
    ensures forall m :: j <= m < k ==> x[m] != '\n'
    ensures k < |x| ==> x[k] == '\n'
    decreases |x| - j
  {
    if j == |x| || x[j] == '\n' then j else RunEnd(x, j + 1)
  }

  /** `$` holds at `k`: the end of the string, or just before a final newline. */
  function DollarAt(x: string, k: nat): (b: bool)
    // only a newline can follow the place where `$` holds
    ensures b ==> k <= |x| && forall m :: k <= m < |x| ==> x[m] == '\n'
    // on text without a newline from `k` on, `$` holds only at the very end
    ensures (forall m :: k <= m < |x| ==> x[m] != '\n') ==> (b <==> k == |x|)
    // and it also holds just before a final newline
    ensures k + 1 == |x| && x[k] == '\n' ==> b
  {
    k == |x| || (k == |x| - 1 && x[k] == '\n')
  }

  /** `.*$` from `j`: the end of the match, if the run of non-newlines ends where `$` holds. */
  function DotStarDollar(x: string, j: nat): (r: Option<nat>)
    requires j <= |x|
    ensures r.Some? ==> j <= r.value <= |x| && DollarAt(x, r.value)
    ensures r.Some? ==> forall m :: j <= m < r.value ==> x[m] != '\n'
    ensures r.None? <==> !DollarAt(x, RunEnd(x, j))
  {
    var k := RunEnd(x, j);
    if DollarAt(x, k) then Some(k) else None
  }

  /** `.+$` from `j`: as `.*$`, but at least one character. */
  function DotPlusDollar(x: string, j: nat): (r: Option<nat>)
    requires j <= |x|
    ensures r.Some? ==> j < r.value <= |x| && DollarAt(x, r.value)
    ensures r.Some? ==> forall m :: j <= m < r.value ==> x[m] != '\n'
    ensures r.None? <==> (RunEnd(x, j) == j || !DollarAt(x, RunEnd(x, j)))
  {
    var k := RunEnd(x, j);
    if k > j && DollarAt(x, k) then Some(k) else None
  }

  /** First alternative, `　　[^\d]?\d.*$`: two ideographic spaces, an optional
      non-digit, a digit, then the rest of the line. */
  function PageTailMatch(db: CharDb, x: string): (r: Option<nat>)
    ensures r.Some? ==> 3 <= r.value <= |x| && DollarAt(x, r.value)
    ensures r.Some? ==> x[0] == IdeographicSpace && x[1] == IdeographicSpace
    ensures r.Some? ==> db.isDigit(x[2]) || (4 <= r.value && db.isDigit(x[3]))
  {
    if |x| >= 3 && x[0] == IdeographicSpace && x[1] == IdeographicSpace then
      if !db.isDigit(x[2]) then
        // `[^\d]?` takes x[2]; matching it empty instead would leave `\d` to
        // face x[2], which is no digit, whatever `\d` covers
        if |x| >= 4 && db.isDigit(x[3]) then DotStarDollar(x, 4) else None
      else
        // `[^\d]` cannot take x[2], a digit, so it matches empty and `\d`
        // takes x[2]
        DotStarDollar(x, 3)
    else None
  }

  /** Second alternative, `　→.+$`: an ideographic space, an arrow, then at
      least one more character up to the end of the line. */
  function ArrowTailMatch(x: string): (r: Option<nat>)
    ensures r.Some? ==> 3 <= r.value <= |x| && DollarAt(x, r.value)
    ensures r.Some? ==> x[0] == IdeographicSpace && x[1] == RightArrow
    ensures r.Some? ==> forall m :: 2 <= m < r.value ==> x[m] != '\n'
  {
    if |x| >= 2 && x[0] == IdeographicSpace && x[1] == RightArrow then DotPlusDollar(x, 2)
    else None
  }

  /** The alternation: the first alternative wins when it matches. */
  function NoiseMatch(db: CharDb, x: string): (r: Option<nat>)
    ensures r.Some? ==> 3 <= r.value <= |x|
  {
    match PageTailMatch(db, x)
    case Some(n) => Some(n)
    case None => ArrowTailMatch(x)
  }

  /** Where the noise pattern starts, on a line with no newline. */
  ghost predicate NoiseStart(db: CharDb, x: string) {
    || (|x| >= 3 && x[0] == IdeographicSpace && x[1] == IdeographicSpace
        && (db.isDigit(x[2]) || (|x| >= 4 && db.isDigit(x[3]))))
    || (|x| >= 3 && x[0] == IdeographicSpace && x[1] == RightArrow)
  }

  /** On a newline-free string the noise pattern matches exactly at the noise
      starts, and the match always runs to the end of the string. */
  lemma NoiseMatchNoNewline(db: CharDb, x: string)
    requires forall i :: 0 <= i < |x| ==> x[i] != '\n'
    ensures NoiseStart(db, x) ==> NoiseMatch(db, x) == Some(|x|)
    ensures !NoiseStart(db, x) ==> NoiseMatch(db, x) == None
  {
    if |x| >= 3 {
      assert RunEnd(x, 3) == |x|;
      assert RunEnd(x, 2) == |x|;
    }
    if |x| >= 4 {
      assert RunEnd(x, 4) == |x|;
    }
  }

}
