/** The default behaviour of `TextFormatter`: a formatter's `format()` folds
    its elements, left to right, onto the empty text with `concat`.
    `Text` is abstract here: any type with an empty value and a `concat`
    operation; the laws of `Text` are stated as predicates and assumed
    only by the lemmas that need them. */
module TextFormatter {

  /** The text type: `Text.EMPTY` and `Text.concat`. */
  datatype Monoid<!T> = Monoid(empty: T, concat: (T, T) -> T)

  ghost predicate Associative<T(!new)>(m: Monoid<T>)
  {
    forall a, b, c :: m.concat(m.concat(a, b), c) == m.concat(a, m.concat(b, c))
  }

  ghost predicate LeftIdentity<T(!new)>(m: Monoid<T>)
  {
    forall a :: m.concat(m.empty, a) == a
  }

  ghost predicate RightIdentity<T(!new)>(m: Monoid<T>)
  {
    forall a :: m.concat(a, m.empty) == a
  }

  /** The text `format()` yields for `elements`: the text of the elements
      before the last one, with the last element's text concatenated on. */
  function Format<E, T>(m: Monoid<T>, toText: E -> T, elements: seq<E>): (text: T)
    ensures elements == [] ==> text == m.empty
    ensures |elements| == 1 ==> text == m.concat(m.empty, toText(elements[0]))
    decreases |elements|
  {
    if elements == [] then m.empty
    else m.concat(Format(m, toText, elements[..|elements| - 1]), toText(elements[|elements| - 1]))
  }

  /** The accumulator loop written forwards: start from `acc` and
      concatenate each element's text in turn. */
  function FoldLeft<E, T>(m: Monoid<T>, toText: E -> T, acc: T, elements: seq<E>): (text: T)
    ensures elements == [] ==> text == acc
    ensures |elements| == 1 ==> text == m.concat(acc, toText(elements[0]))
    decreases |elements|
  {
    if elements == [] then acc
    else FoldLeft(m, toText, m.concat(acc, toText(elements[0])), elements[1..])
  }

  lemma {:induction false} FoldLeftSnoc<E, T>(m: Monoid<T>, toText: E -> T, acc: T, elements: seq<E>, e: E)
    ensures FoldLeft(m, toText, acc, elements + [e]) == m.concat(FoldLeft(m, toText, acc, elements), toText(e))
    decreases |elements|
  {
    if elements == [] {
      assert [] + [e] == [e];
      assert [e][1..] == [];
    } else {
      assert (elements + [e])[0] == elements[0];
      assert (elements + [e])[1..] == elements[1..] + [e];
      FoldLeftSnoc(m, toText, m.concat(acc, toText(elements[0])), elements[1..], e);
    }
  }

  /** A formatter with no elements formats to the empty text. */
  lemma FormatEmpty<E, T>(m: Monoid<T>, toText: E -> T)
    ensures Format(m, toText, []) == m.empty
  {
  }

  /** `format()` is exactly the left fold
      `concat(...concat(concat(EMPTY, e0.toText()), e1.toText())..., en.toText())`. */
  lemma {:induction false} FormatIsLeftFold<E, T>(m: Monoid<T>, toText: E -> T, elements: seq<E>)
    ensures Format(m, toText, elements) == FoldLeft(m, toText, m.empty, elements)
    decreases |elements|
  {
    if elements != [] {
      var n := |elements| - 1;
      FormatIsLeftFold(m, toText, elements[..n]);
      FoldLeftSnoc(m, toText, m.empty, elements[..n], elements[n]);
      assert elements[..n] + [elements[n]] == elements;
    }
  }

  /** With the laws of text, formatting `[a, b, c]` is the plain
      concatenation of the three texts. */
  lemma FormatThree<E, T(!new)>(m: Monoid<T>, toText: E -> T, a: E, b: E, c: E)
    requires LeftIdentity(m)
    ensures Format(m, toText, [a, b, c]) == m.concat(m.concat(toText(a), toText(b)), toText(c))
  {
    assert [a, b, c][..2] == [a, b];
    assert [a, b][..1] == [a];
    assert [a][..0] == [];
    assert Format(m, toText, [a]) == toText(a);
    assert Format(m, toText, [a, b]) == m.concat(toText(a), toText(b));
  }

  /** Formatting distributes over concatenation of element lists: the text
      of `xs + ys` is the text of `xs` followed by the text of `ys`. */
  lemma {:induction false} FormatAppend<E, T(!new)>(m: Monoid<T>, toText: E -> T, xs: seq<E>, ys: seq<E>)
    requires Associative(m) && RightIdentity(m)
    ensures Format(m, toText, xs + ys) == m.concat(Format(m, toText, xs), Format(m, toText, ys))
    decreases |ys|
  {
    if ys == [] {
      assert xs + ys == xs;
    } else {
      var n := |ys| - 1;
      assert (xs + ys)[..|xs + ys| - 1] == xs + ys[..n];
      assert (xs + ys)[|xs + ys| - 1] == ys[n];
      FormatAppend(m, toText, xs, ys[..n]);
    }
  }
}
