/** Worked examples of the line normaliser on concrete lines. */
module LineExamples {
  import opened Basics
  import opened Patterns
  import opened Line

  /** "(bar)" ends at its own closer, whatever follows. */
  lemma BarAsideCloses(y: string)
    ensures ParenMatch("(bar)" + y) == Some(5)
  {
    var a := "(bar)" + y;
    assert a[0] == '(' && a[1] == 'b' && a[2] == 'a' && a[3] == 'r' && a[4] == ')';
    assert LazyClose(a, ')', 4) == Some(4);
    assert LazyClose(a, ')', 3) == Some(4);
  }

  /** Matches are shortest and do not overlap: "foo(bar)baz(qux)" becomes "foobaz". */
  lemma TrimParenTwoAsides(foo: string, bar: string, baz: string, qux: string)
    requires foo == "foo" && bar == "(bar)" && baz == "baz" && qux == "(qux)"
    ensures TrimParen(foo + bar + baz + qux) == foo + baz
  {
    BarAsideCloses(baz + qux);
    assert (bar + (baz + qux))[|bar|..] == baz + qux;
    TrimParenDropsLeadingSpan(bar + (baz + qux), |bar|);
    TrimParenKeepsPlainPrefix(baz, qux);
    TrimParenOneAside();
    TrimParenKeepsPlainPrefix(foo, bar + (baz + qux));
    assert foo + bar + baz + qux == foo + (bar + (baz + qux));
  }
}
