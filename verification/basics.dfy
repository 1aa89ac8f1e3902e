/** Sequence and string vocabulary shared by the annotation model: an optional
    value, Python's substring test, subsequences, and the two ways the script
    glues strings together (`"".join` and `" / ".join`). */
module Basics {

  datatype Option<T> = None | Some(value: T)

  /** `needle` occurs in `hay` starting at index `i`. */
  predicate OccursAt<T(==)>(hay: seq<T>, needle: seq<T>, i: int) {
    0 <= i <= |hay| - |needle| && hay[i..i + |needle|] == needle
  }

  /** Past a failed comparison at index 0, the needle occurs in `hay` exactly
      when it occurs in `hay[1..]`. */
  lemma OccursShift<T>(hay: seq<T>, needle: seq<T>)
    requires |hay| > 0
    requires !(|needle| <= |hay| && hay[..|needle|] == needle)
    ensures (exists i :: OccursAt(hay, needle, i)) <==> (exists i :: OccursAt(hay[1..], needle, i))
  {
    if exists i :: OccursAt(hay[1..], needle, i) {
      var i :| OccursAt(hay[1..], needle, i);
      assert hay[1..][i..i + |needle|] == hay[i + 1..i + 1 + |needle|];
      assert OccursAt(hay, needle, i + 1);
    }
    if exists i :: OccursAt(hay, needle, i) {
      var i :| OccursAt(hay, needle, i);
      assert hay[0..|needle|] == hay[..|needle|];
      assert i != 0;
      assert hay[1..][i - 1..i - 1 + |needle|] == hay[i..i + |needle|];
      assert OccursAt(hay[1..], needle, i - 1);
    }
  }

  /** Python's `needle in hay` for strings, as a left-to-right search. */
  function Contains<T(==)>(hay: seq<T>, needle: seq<T>): (b: bool)
    ensures b <==> exists i :: OccursAt(hay, needle, i)
    decreases |hay|
  {
    if |needle| <= |hay| && hay[..|needle|] == needle then
      assert OccursAt(hay, needle, 0);
      true
    else if |hay| == 0 then
      false
    else
      OccursShift(hay, needle);
      Contains(hay[1..], needle)
  }

  /** `a` is obtained from `b` by deleting elements, without reordering or
      duplicating any. */
  predicate Subsequence<T(==)>(a: seq<T>, b: seq<T>)
    decreases |b|
  {
    if |a| == 0 then true
    else if |b| == 0 then false
    else (a[0] == b[0] && Subsequence(a[1..], b[1..])) || Subsequence(a, b[1..])
  }

  lemma {:induction false} SubsequenceOfSuffix<T>(a: seq<T>, b: seq<T>, n: nat)
    requires n <= |b|
    requires Subsequence(a, b[n..])
    ensures Subsequence(a, b)
    decreases n
  {
    if n > 0 {
      assert b[1..][n - 1..] == b[n..];
      SubsequenceOfSuffix(a, b[1..], n - 1);
      if |a| > 0 {
        assert Subsequence(a, b[1..]);
      }
    }
  }

  /** Deleting nothing. */
  lemma {:induction false} SubsequenceRefl<T>(a: seq<T>)
    ensures Subsequence(a, a)
    decreases |a|
  {
    if |a| > 0 {
      SubsequenceRefl(a[1..]);
    }
  }

  /** Deleting from what was already obtained by deleting is deleting. */
  lemma {:induction false} SubsequenceTrans<T>(a: seq<T>, b: seq<T>, c: seq<T>)
    requires Subsequence(a, b) && Subsequence(b, c)
    ensures Subsequence(a, c)
    decreases |c|
  {
    if |a| > 0 {
      if Subsequence(b, c[1..]) {
        SubsequenceTrans(a, b, c[1..]);
      } else if a[0] == b[0] && Subsequence(a[1..], b[1..]) {
        SubsequenceTrans(a[1..], b[1..], c[1..]);
      } else {
        SubsequenceTrans(a, b[1..], c[1..]);
      }
    }
  }

  /** What the longer sequence never contains, a subsequence of it does not
      contain either. */
  lemma {:induction false} SubsequenceAvoids<T>(a: seq<T>, b: seq<T>, x: T)
    requires Subsequence(a, b)
    requires forall j :: 0 <= j < |b| ==> b[j] != x
    ensures forall i :: 0 <= i < |a| ==> a[i] != x
    decreases |b|
  {
    if |a| > 0 {
      if a[0] == b[0] && Subsequence(a[1..], b[1..]) {
        SubsequenceAvoids(a[1..], b[1..], x);
        assert forall i :: 1 <= i < |a| ==> a[i] == a[1..][i - 1];
      } else {
        SubsequenceAvoids(a, b[1..], x);
      }
    }
  }

  /** Total length of the pieces. */
  function TotalLength(xs: seq<string>): nat {
    if |xs| == 0 then 0 else |xs[0]| + TotalLength(xs[1..])
  }

  /** Python's `"".join(xs)`: every piece in order, nothing added, so the first
      piece leads and no character is lost. */
  function Concat(xs: seq<string>): (r: string)
    ensures |r| == TotalLength(xs)
    ensures |xs| > 0 ==> r[..|xs[0]|] == xs[0]
    decreases |xs|
  {
    if |xs| == 0 then "" else xs[0] + Concat(xs[1..])
  }

  /** Python's `sep.join(xs)`: the pieces in order, with one separator between
      each neighbouring pair and none at either end. */
  function Join(xs: seq<string>, sep: string): (r: string)
    ensures |xs| == 0 ==> r == ""
    ensures |xs| > 0 ==> |r| >= TotalLength(xs) && r[..|xs[0]|] == xs[0]
    decreases |xs|
  {
    if |xs| == 0 then ""
    else if |xs| == 1 then xs[0]
    else xs[0] + sep + Join(xs[1..], sep)
  }

  /** Concatenation is a homomorphism from list append to string append. */
  lemma {:induction false} ConcatAppend(xs: seq<string>, ys: seq<string>)
    ensures Concat(xs + ys) == Concat(xs) + Concat(ys)
    decreases |xs|
  {
    if |xs| == 0 {
      assert xs + ys == ys;
    } else {
      assert (xs + ys)[1..] == xs[1..] + ys;
      ConcatAppend(xs[1..], ys);
    }
  }

  /** The joined string holds every piece plus one separator between each
      neighbouring pair. */
  lemma {:induction false} JoinLength(xs: seq<string>, sep: string)
    requires |xs| > 0
    ensures |Join(xs, sep)| == TotalLength(xs) + (|xs| - 1) * |sep|
    decreases |xs|
  {
    if |xs| > 1 {
      JoinLength(xs[1..], sep);
      assert (|xs| - 1) * |sep| == (|xs| - 2) * |sep| + |sep|;
    }
  }

  /** Joining two non-empty lists puts exactly one separator between their joins. */
  lemma {:induction false} JoinAppend(xs: seq<string>, ys: seq<string>, sep: string)
    requires |xs| > 0 && |ys| > 0
    ensures Join(xs + ys, sep) == Join(xs, sep) + sep + Join(ys, sep)
    decreases |xs|
  {
    var zs := xs + ys;
    assert zs[0] == xs[0];
    assert Join(zs, sep) == xs[0] + sep + Join(zs[1..], sep);
    if |xs| == 1 {
      assert zs[1..] == ys;
    } else {
      assert zs[1..] == xs[1..] + ys;
      JoinAppend(xs[1..], ys, sep);
      assert Join(xs, sep) == xs[0] + sep + Join(xs[1..], sep);
      assert Join(zs, sep) == xs[0] + sep + (Join(xs[1..], sep) + sep + Join(ys, sep));
    }
  }
}
