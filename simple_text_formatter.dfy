/** `SimpleTextFormatter`: a text formatter whose elements live in one
    `ArrayList` field, `parts`, mutated in place by every operation. The
    list is modelled as a `seq` field that each method reassigns; the
    `ArrayList` operations the methods call are the functions below. */
module SimpleTextFormatter {
  import opened Wrappers
  import TF = TextFormatter
  import Iteration

  /** A `SimpleTextTemplateApplier`: its internals are not part of this
      model; elements compare by identity. */
  class Applier {
    constructor ()
    {
    }
  }

  /** The exception `ArrayList` throws for a bad index. */
  datatype Error = IndexOutOfBounds(index: int, size: int)

  // ---------------------------------------------------------------------
  // The ArrayList operations used by the formatter, on sequences.
  // ---------------------------------------------------------------------

  /** `list.addAll(i, xs)`: `xs` placed at `i`, later elements shifted
      right by `|xs|`. */
  function InsertAt<E>(s: seq<E>, i: nat, xs: seq<E>): (r: seq<E>)
    requires i <= |s|
    ensures |r| == |s| + |xs|
    ensures forall k :: 0 <= k < i ==> r[k] == s[k]
    ensures forall k :: 0 <= k < |xs| ==> r[i + k] == xs[k]
    ensures forall k :: i <= k < |s| ==> r[k + |xs|] == s[k]
  {
    s[..i] + xs + s[i..]
  }

  /** The index of the first occurrence of `e` in `s`. */
  function FirstIndex<E(==)>(s: seq<E>, e: E): (i: nat)
    requires e in s
    ensures i < |s| && s[i] == e
    ensures forall k :: 0 <= k < i ==> s[k] != e
  {
    if s[0] == e then 0 else 1 + FirstIndex(s[1..], e)
  }

  /** `list.remove(e)`: drops the first occurrence of `e`, if any. */
  function RemoveFirst<E(==)>(s: seq<E>, e: E): (r: seq<E>)
    ensures |r| == if e in s then |s| - 1 else |s|
    ensures forall x :: x in r ==> x in s
  {
    if s == [] then []
    else if s[0] == e then s[1..]
    else [s[0]] + RemoveFirst(s[1..], e)
  }

  /** `ArrayList.batchRemove(c, complement)`, the loop behind `removeAll`
      (`complement == false`) and `retainAll` (`complement == true`): keeps,
      in order, exactly the elements whose membership in `c` equals
      `complement`. */
  function BatchRemove<E(==)>(s: seq<E>, c: seq<E>, complement: bool): (r: seq<E>)
    ensures |r| <= |s|
    ensures forall k :: 0 <= k < |r| ==> r[k] in s && (r[k] in c) == complement
  {
    if s == [] then []
    else (if (s[0] in c) == complement then [s[0]] else []) + BatchRemove(s[1..], c, complement)
  }

  // ---------------------------------------------------------------------
  // What the operations mean.
  // ---------------------------------------------------------------------

  lemma {:induction false} RemoveFirstAbsent<E>(s: seq<E>, e: E)
    requires e !in s
    ensures RemoveFirst(s, e) == s
  {
    if s != [] {
      assert e !in s[1..];
      RemoveFirstAbsent(s[1..], e);
      assert s == [s[0]] + s[1..];
    }
  }

  lemma {:induction false} RemoveFirstAt<E>(s: seq<E>, e: E, i: nat)
    requires i < |s| && s[i] == e
    requires forall k :: 0 <= k < i ==> s[k] != e
    ensures RemoveFirst(s, e) == s[..i] + s[i + 1..]
  {
    if i == 0 {
      assert s[..0] + s[1..] == s[1..];
    } else {
      var tail := s[1..];
      assert s[0] != e;
      RemoveFirstAt(tail, e, i - 1);
      assert s[..i] == [s[0]] + tail[..i - 1];
      assert s[i + 1..] == tail[i..];
    }
  }

  /** `remove(e)` leaves the list alone when `e` is absent, and otherwise
      cuts out exactly the first occurrence, keeping the rest in order. */
  lemma {:induction false} RemoveFirstShape<E>(s: seq<E>, e: E)
    ensures e !in s ==> RemoveFirst(s, e) == s
    ensures e in s ==> RemoveFirst(s, e) == s[..FirstIndex(s, e)] + s[FirstIndex(s, e) + 1..]
  {
    if e in s {
      RemoveFirstAt(s, e, FirstIndex(s, e));
    } else {
      RemoveFirstAbsent(s, e);
    }
  }

  /** `remove(e)` takes away one copy of `e` and nothing else. */
  lemma {:induction false} RemoveFirstMultiset<E>(s: seq<E>, e: E)
    ensures multiset(RemoveFirst(s, e)) == multiset(s) - multiset{e}
  {
    if s != [] {
      assert s == [s[0]] + s[1..];
      if s[0] != e {
        RemoveFirstMultiset(s[1..], e);
      }
    }
  }

  /** Every kept element occurs as often as before; every dropped element
      is gone entirely. */
  lemma {:induction false} BatchRemoveCount<E>(s: seq<E>, c: seq<E>, complement: bool, x: E)
    ensures multiset(BatchRemove(s, c, complement))[x] ==
            if (x in c) == complement then multiset(s)[x] else 0
  {
    if s != [] {
      assert s == [s[0]] + s[1..];
      BatchRemoveCount(s[1..], c, complement, x);
    }
  }

  /** An element survives exactly when it was there and its membership in
      `c` equals `complement`. */
  lemma {:induction false} BatchRemoveMembers<E>(s: seq<E>, c: seq<E>, complement: bool, x: E)
    ensures x in BatchRemove(s, c, complement) <==> x in s && (x in c) == complement
  {
    BatchRemoveCount(s, c, complement, x);
    assert x in BatchRemove(s, c, complement) <==> multiset(BatchRemove(s, c, complement))[x] > 0;
    assert x in s <==> multiset(s)[x] > 0;
  }

  /** Survivors keep their relative order: filtering a concatenation is
      the concatenation of the filtered parts. */
  lemma {:induction false} BatchRemoveAppend<E>(a: seq<E>, b: seq<E>, c: seq<E>, complement: bool)
    ensures BatchRemove(a + b, c, complement) == BatchRemove(a, c, complement) + BatchRemove(b, c, complement)
  {
    if a == [] {
      assert a + b == b;
    } else {
      var head := if (a[0] in c) == complement then [a[0]] else [];
      assert (a + b)[0] == a[0];
      assert (a + b)[1..] == a[1..] + b;
      assert BatchRemove(a + b, c, complement) == head + BatchRemove(a[1..] + b, c, complement);
      assert BatchRemove(a, c, complement) == head + BatchRemove(a[1..], c, complement);
      BatchRemoveAppend(a[1..], b, c, complement);
    }
  }

  /** The list never grows, and its length is unchanged exactly when no
      element is dropped, in which case the list is unchanged. */
  lemma {:induction false} BatchRemoveLength<E>(s: seq<E>, c: seq<E>, complement: bool)
    ensures |BatchRemove(s, c, complement)| <= |s|
    ensures |BatchRemove(s, c, complement)| == |s| <==> forall k :: 0 <= k < |s| ==> (s[k] in c) == complement
    ensures |BatchRemove(s, c, complement)| == |s| ==> BatchRemove(s, c, complement) == s
  {
    if s != [] {
      BatchRemoveLength(s[1..], c, complement);
      if (s[0] in c) == complement {
        if forall k :: 0 <= k < |s[1..]| ==> (s[1..][k] in c) == complement {
          forall k | 0 <= k < |s| ensures (s[k] in c) == complement {
            if k > 0 { assert s[k] == s[1..][k - 1]; }
          }
        } else {
          var k :| 0 <= k < |s[1..]| && (s[1..][k] in c) != complement;
          assert s[k + 1] == s[1..][k];
        }
        assert s == [s[0]] + s[1..];
      }
    }
  }

  /** Removing (or retaining) a second time with the same collection
      changes nothing. */
  lemma {:induction false} BatchRemoveIdempotent<E>(s: seq<E>, c: seq<E>, complement: bool)
    ensures BatchRemove(BatchRemove(s, c, complement), c, complement) == BatchRemove(s, c, complement)
  {
    if s != [] {
      var head := if (s[0] in c) == complement then [s[0]] else [];
      BatchRemoveAppend(head, BatchRemove(s[1..], c, complement), c, complement);
      BatchRemoveIdempotent(s[1..], c, complement);
      if head != [] {
        assert head[1..] == [];
      }
    }
  }

  /** `removeAll(c)` and `retainAll(c)` split the list between them. */
  lemma {:induction false} RemoveRetainPartition<E>(s: seq<E>, c: seq<E>)
    ensures multiset(BatchRemove(s, c, false)) + multiset(BatchRemove(s, c, true)) == multiset(s)
  {
    if s != [] {
      assert s == [s[0]] + s[1..];
      RemoveRetainPartition(s[1..], c);
    }
  }

  /** Formatting after an insertion: with the laws of text, the formatter
      yields the text before `i`, then the inserted text, then the rest. */
  lemma FormatInsertAt<E, T(!new)>(m: TF.Monoid<T>, toText: E -> T, s: seq<E>, i: nat, xs: seq<E>)
    requires i <= |s|
    requires TF.Associative(m) && TF.RightIdentity(m)
    ensures TF.Format(m, toText, InsertAt(s, i, xs)) ==
            m.concat(m.concat(TF.Format(m, toText, s[..i]), TF.Format(m, toText, xs)), TF.Format(m, toText, s[i..]))
  {
    TF.FormatAppend(m, toText, s[..i] + xs, s[i..]);
    TF.FormatAppend(m, toText, s[..i], xs);
  }

  // ---------------------------------------------------------------------
  // The formatter.
  // ---------------------------------------------------------------------

  class SimpleTextFormatter {
    var parts: seq<Applier>

    /** `SimpleTextFormatter(initialSize)`: `initialSize` new, distinct
        appliers. */
    constructor (initialSize: nat)
      ensures |parts| == initialSize
      ensures forall k :: 0 <= k < |parts| ==> fresh(parts[k])
      ensures forall j, k :: 0 <= j < k < |parts| ==> parts[j] != parts[k]
    {
      parts := [];
      new;
      var i := 0;
      while i < initialSize
        invariant i == |parts| <= initialSize
        invariant forall k :: 0 <= k < |parts| ==> fresh(parts[k])
        invariant forall j, k :: 0 <= j < k < |parts| ==> parts[j] != parts[k]
      {
        var applier := new Applier();
        parts := parts + [applier];
        i := i + 1;
      }
    }

    /** `SimpleTextFormatter()`: an empty formatter. */
    constructor Empty()
      ensures parts == []
    {
      parts := [];
    }

    /** `getAll()`: an immutable snapshot of the elements. Being a value,
        it is unaffected by any later change to the formatter. */
    function GetAll(): (all: seq<Applier>)
      reads this
      ensures all == parts
    {
      parts
    }

    /** `get(i)`: element `i` of the snapshot, or the index error. */
    function Get(i: int): (r: Result<Applier, Error>)
      reads this
      ensures r.Success? <==> 0 <= i < |GetAll()|
      ensures r.Success? ==> r.value == GetAll()[i]
      ensures r.Failure? ==> r.error == IndexOutOfBounds(i, |GetAll()|)
    {
      var all := GetAll();
      if 0 <= i < |all| then Success(all[i]) else Failure(IndexOutOfBounds(i, |all|))
    }

    /** `iterator()`: an iterator over the snapshot. */
    method Iterator() returns (it: Iteration.Iterator<Applier>)
      ensures fresh(it) && it.remaining == parts
    {
      it := new Iteration.Iterator(GetAll());
    }

    /** `format()`: walks the elements through `iterator()`, concatenating
        each one's text onto the empty text. */
    method Format<T>(m: TF.Monoid<T>, toText: Applier -> T) returns (text: T)
      ensures text == TF.Format(m, toText, parts)
    {
      var it := Iterator();
      text := m.empty;
      ghost var seen := 0;
      while it.HasNext()
        invariant 0 <= seen <= |parts| && it.remaining == parts[seen..]
        invariant text == TF.Format(m, toText, parts[..seen])
        decreases |it.remaining|
      {
        var e := it.Next();
        assert e == parts[seen];
        assert parts[..seen + 1][..seen] == parts[..seen];
        text := m.concat(text, toText(e));
        seen := seen + 1;
      }
      assert parts[..seen] == parts;
    }

    /** `toText()`: the formatted text. */
    method ToText<T>(m: TF.Monoid<T>, toText: Applier -> T) returns (text: T)
      ensures text == TF.Format(m, toText, parts)
    {
      text := Format(m, toText);
    }

    /** `clear()`. */
    method Clear()
      modifies this
      ensures parts == []
    {
      parts := [];
    }

    /** `add(element)`: appends; the list always changes. */
    method Add(element: Applier) returns (changed: bool)
      modifies this
      ensures parts == old(parts) + [element]
      ensures changed
    {
      parts := parts + [element];
      changed := true;
    }

    /** `add(Collection)`: appends in order; changed iff non-empty. */
    method AddAll(elements: seq<Applier>) returns (changed: bool)
      modifies this
      ensures parts == old(parts) + elements
      ensures changed <==> elements != []
    {
      parts := parts + elements;
      changed := elements != [];
    }

    /** `add(Iterable)`: the Collection overload on the materialised list. */
    method AddIterable(elements: Iteration.Iterable<Applier>) returns (changed: bool)
      modifies this
      ensures parts == old(parts) + elements.elements
      ensures changed <==> elements.elements != []
    {
      var list := Iteration.NewArrayListOf(elements);
      changed := AddAll(list);
    }

    /** `add(Iterator)`: drains the iterator, then the Collection overload. */
    method AddIterator(elements: Iteration.Iterator<Applier>) returns (changed: bool)
      modifies this, elements
      ensures parts == old(parts) + old(elements.remaining)
      ensures changed <==> old(elements.remaining) != []
      ensures elements.remaining == []
    {
      var list := Iteration.NewArrayList(elements);
      changed := AddAll(list);
    }

    /** `insert(i, element)`: fails, changing nothing, unless
        `0 <= i <= size`. */
    method Insert(i: int, element: Applier) returns (r: Outcome<Error>)
      modifies this
      ensures r.Pass? <==> 0 <= i <= |old(parts)|
      ensures r.Pass? ==> parts == InsertAt(old(parts), i, [element]) && Get(i) == Success(element)
      ensures r.Fail? ==> r.error == IndexOutOfBounds(i, |old(parts)|) && parts == old(parts)
    {
      if 0 <= i <= |parts| {
        parts := InsertAt(parts, i, [element]);
        r := Pass;
      } else {
        r := Fail(IndexOutOfBounds(i, |parts|));
      }
    }

    /** `insert(i, Collection)`: the index is checked before anything is
        inserted, even for an empty collection. */
    method InsertAll(i: int, elements: seq<Applier>) returns (r: Outcome<Error>)
      modifies this
      ensures r.Pass? <==> 0 <= i <= |old(parts)|
      ensures r.Pass? ==> parts == InsertAt(old(parts), i, elements)
      ensures r.Fail? ==> r.error == IndexOutOfBounds(i, |old(parts)|) && parts == old(parts)
    {
      if 0 <= i <= |parts| {
        parts := InsertAt(parts, i, elements);
        r := Pass;
      } else {
        r := Fail(IndexOutOfBounds(i, |parts|));
      }
    }

    /** `insert(i, Iterable)`: the Collection overload on the materialised
        list. */
    method InsertIterable(i: int, elements: Iteration.Iterable<Applier>) returns (r: Outcome<Error>)
      modifies this
      ensures r.Pass? <==> 0 <= i <= |old(parts)|
      ensures r.Pass? ==> parts == InsertAt(old(parts), i, elements.elements)
      ensures r.Fail? ==> r.error == IndexOutOfBounds(i, |old(parts)|) && parts == old(parts)
    {
      var list := Iteration.NewArrayListOf(elements);
      r := InsertAll(i, list);
    }

    /** `insert(i, Iterator)`: the iterator is drained first, so it is
        exhausted even when the index is then rejected. */
    method InsertIterator(i: int, elements: Iteration.Iterator<Applier>) returns (r: Outcome<Error>)
      modifies this, elements
      ensures r.Pass? <==> 0 <= i <= |old(parts)|
      ensures r.Pass? ==> parts == InsertAt(old(parts), i, old(elements.remaining))
      ensures r.Fail? ==> r.error == IndexOutOfBounds(i, |old(parts)|) && parts == old(parts)
      ensures elements.remaining == []
    {
      var list := Iteration.NewArrayList(elements);
      r := InsertAll(i, list);
    }

    /** `remove(element)`: removes the first occurrence; the result says
        whether the element was present. */
    method Remove(element: Applier) returns (found: bool)
      modifies this
      ensures found <==> element in old(parts)
      ensures parts == RemoveFirst(old(parts), element)
      ensures !found ==> parts == old(parts)
    {
      found := element in parts;
      RemoveFirstShape(parts, element);
      parts := RemoveFirst(parts, element);
    }

    /** `remove(Collection)`: drops every element contained in the
        collection; changed iff the length changed, which is iff some
        element was contained. */
    method RemoveAll(elements: seq<Applier>) returns (changed: bool)
      modifies this
      ensures parts == BatchRemove(old(parts), elements, false)
      ensures changed <==> |parts| != |old(parts)|
      ensures changed <==> exists k :: 0 <= k < |old(parts)| && old(parts)[k] in elements
    {
      BatchRemoveLength(parts, elements, false);
      var before := |parts|;
      parts := BatchRemove(parts, elements, false);
      changed := |parts| != before;
    }

    /** `remove(Iterable)`. */
    method RemoveIterable(elements: Iteration.Iterable<Applier>) returns (changed: bool)
      modifies this
      ensures parts == BatchRemove(old(parts), elements.elements, false)
      ensures changed <==> |parts| != |old(parts)|
    {
      var list := Iteration.NewArrayListOf(elements);
      changed := RemoveAll(list);
    }

    /** `remove(Iterator)`. */
    method RemoveIterator(elements: Iteration.Iterator<Applier>) returns (changed: bool)
      modifies this, elements
      ensures parts == BatchRemove(old(parts), old(elements.remaining), false)
      ensures changed <==> |parts| != |old(parts)|
      ensures elements.remaining == []
    {
      var list := Iteration.NewArrayList(elements);
      changed := RemoveAll(list);
    }

    /** `retain(Collection)`: drops every element not contained in the
        collection; changed iff the length changed, which is iff some
        element was not contained. */
    method RetainAll(elements: seq<Applier>) returns (changed: bool)
      modifies this
      ensures parts == BatchRemove(old(parts), elements, true)
      ensures changed <==> |parts| != |old(parts)|
      ensures changed <==> exists k :: 0 <= k < |old(parts)| && old(parts)[k] !in elements
    {
      BatchRemoveLength(parts, elements, true);
      var before := |parts|;
      parts := BatchRemove(parts, elements, true);
      changed := |parts| != before;
    }

    /** `retain(Iterable)`. */
    method RetainIterable(elements: Iteration.Iterable<Applier>) returns (changed: bool)
      modifies this
      ensures parts == BatchRemove(old(parts), elements.elements, true)
      ensures changed <==> |parts| != |old(parts)|
    {
      var list := Iteration.NewArrayListOf(elements);
      changed := RetainAll(list);
    }

    /** `retain(Iterator)`. */
    method RetainIterator(elements: Iteration.Iterator<Applier>) returns (changed: bool)
      modifies this, elements
      ensures parts == BatchRemove(old(parts), old(elements.remaining), true)
      ensures changed <==> |parts| != |old(parts)|
      ensures elements.remaining == []
    {
      var list := Iteration.NewArrayList(elements);
      changed := RetainAll(list);
    }
  }
}
