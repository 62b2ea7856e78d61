/** Stand-ins for `java.util.Iterator`, `java.lang.Iterable` and Guava's
    `Lists.newArrayList`, which the formatter's overloads use to turn any
    input shape into one ordered list. */
module Iteration {

  /** A forward iterator: `remaining` is what `next()` will still yield. */
  class Iterator<E> {
    var remaining: seq<E>

    constructor (elements: seq<E>)
      ensures remaining == elements
    {
      remaining := elements;
    }

    predicate HasNext()
      reads this
    {
      remaining != []
    }

    /** Callers check `HasNext()` first, as the Iterator protocol demands. */
    method Next() returns (e: E)
      requires remaining != []
      modifies this
      ensures [e] + remaining == old(remaining)
    {
      e := remaining[0];
      remaining := remaining[1..];
    }
  }

  /** An iterable whose iteration order yields `elements`. */
  class Iterable<E> {
    const elements: seq<E>

    constructor (elements: seq<E>)
      ensures this.elements == elements
    {
      this.elements := elements;
    }

    method Iterate() returns (it: Iterator<E>)
      ensures fresh(it) && it.remaining == elements
    {
      it := new Iterator(elements);
    }
  }

  /** `Lists.newArrayList(Iterator)`: drains the iterator into a list. */
  method NewArrayList<E>(it: Iterator<E>) returns (list: seq<E>)
    modifies it
    ensures list == old(it.remaining)
    ensures it.remaining == []
  {
    list := [];
    while it.HasNext()
      invariant list + it.remaining == old(it.remaining)
      decreases |it.remaining|
    {
      var e := it.Next();
      list := list + [e];
    }
  }

  /** `Lists.newArrayList(Iterable)`: the elements in iteration order. */
  method NewArrayListOf<E>(source: Iterable<E>) returns (list: seq<E>)
    ensures list == source.elements
  {
    var it := source.Iterate();
    list := NewArrayList(it);
  }
}
