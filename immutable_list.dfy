// The immutable list: a private array, filled once by a constructor and never
// written again. No method of the class has a `modifies` clause, so none of them
// can change the array; every derived list gets an array of its own.

/** Java's equality test in indexOf/lastIndexOf: a present element equals o, or both are null. */
predicate Matches<T(==)>(element: Option<T>, o: Option<T>): (b: bool)
  ensures b <==> element == o
{
  (element.Some? && o.Some? && element.value == o.value) || (element.None? && o.None?)
}

/** The mutating operations of java.util.List; the immutable list rejects every one of them. */
datatype ListMutation<T> =
  | Add(e: Option<T>)
  | Remove(o: Option<T>)
  | AddAll(c: seq<Option<T>>)
  | AddAllAt(index: int, c: seq<Option<T>>)
  | RemoveAll(c: seq<Option<T>>)
  | RetainAll(c: seq<Option<T>>)
  | Clear
  | Set(index: int, e: Option<T>)
  | AddAt(index: int, e: Option<T>)
  | RemoveAt(index: int)

class ImmutableList<T(==)> {
  /** The backing array; a fresh copy owned by this list alone. */
  const data: array<Option<T>>

  /** The contents of the list. */
  ghost function Elements(): seq<Option<T>>
    reads data
  {
    data[..]
  }

  /** A defensive copy of the whole of src. */
  constructor FromArray(src: array<Option<T>>)
    ensures fresh(data)
    ensures Elements() == src[..]
  {
    data := new Option<T>[src.Length](i requires 0 <= i < src.Length reads src => src[i]);
  }

  /**
    A defensive copy of src[fromIndex..toIndex]. The library copy this stands for
    also accepts toIndex > src.Length (and pads with nulls); that case is not covered.
  */
  constructor FromRange(src: array<Option<T>>, fromIndex: int, toIndex: int)
    requires 0 <= fromIndex <= toIndex <= src.Length
    ensures fresh(data)
    ensures Elements() == src[fromIndex..toIndex]
  {
    data := new Option<T>[toIndex - fromIndex](
      i requires 0 <= i < toIndex - fromIndex reads src => src[fromIndex + i]);
  }

  /** A copy of a collection, taken in its iteration order. */
  constructor FromSequence(collection: seq<Option<T>>)
    ensures fresh(data)
    ensures Elements() == collection
  {
    data := new Option<T>[|collection|](i requires 0 <= i < |collection| => collection[i]);
  }

  /** The empty list. */
  constructor Empty()
    ensures fresh(data)
    ensures Elements() == []
  {
    data := new Option<T>[0];
  }

  function Size(): (n: nat)
    reads data
    ensures n == |Elements()|
  {
    data.Length
  }

  function IsEmpty(): (b: bool)
    reads data
    ensures b <==> Elements() == []
  {
    data.Length == 0
  }

  /** The element at index, or IndexOutOfBounds outside [0, Size()). */
  function Get(index: int): (r: Result<Option<T>>)
    reads data
    ensures r.Ok? <==> 0 <= index < |Elements()|
    ensures r.Ok? ==> r.value == Elements()[index]
    ensures r.Err? ==> r.error == IndexOutOfBounds
  {
    if index < 0 || index >= data.Length then Err(IndexOutOfBounds) else Ok(data[index])
  }

  /** A fresh array holding the contents. */
  method ToArray() returns (a: array<Option<T>>)
    ensures fresh(a)
    ensures a[..] == Elements()
  {
    a := new Option<T>[data.Length](i requires 0 <= i < data.Length reads data => data[i]);
  }

  /** The typed variant of ToArray: its argument is ignored. */
  method ToArrayInto(ignored: array<Option<T>>) returns (a: array<Option<T>>)
    ensures fresh(a)
    ensures a[..] == Elements()
  {
    a := ToArray();
  }

  /** Every mutator throws UnsupportedOperationException and changes nothing. */
  method Mutate(m: ListMutation<T>) returns (thrown: Error)
    ensures thrown == UnsupportedOperation
    ensures Elements() == old(Elements())
  {
    thrown := UnsupportedOperation;
  }

  /** The least index whose element equals o, or -1. */
  method IndexOf(o: Option<T>) returns (r: int)
    ensures r == FirstIndex(Elements(), o)
  {
    var i := 0;
    while i < data.Length
      invariant 0 <= i <= data.Length
      invariant forall j :: 0 <= j < i ==> data[j] != o
    {
      if Matches(data[i], o) {
        return i;
      }
      i := i + 1;
    }
    return -1;
  }

  /** The greatest index whose element equals o, or -1. */
  method LastIndexOf(o: Option<T>) returns (r: int)
    ensures r == LastIndex(Elements(), o)
  {
    var i := data.Length - 1;
    while i >= 0
      invariant -1 <= i < data.Length
      invariant forall j :: i < j < data.Length ==> data[j] != o
    {
      if Matches(data[i], o) {
        return i;
      }
      i := i - 1;
    }
    return -1;
  }

  method Contains(o: Option<T>) returns (b: bool)
    ensures b <==> o in Elements()
  {
    var i := IndexOf(o);
    b := i >= 0;
  }

  /** Whether every element of c (vacuously, for an empty c) is in the list. */
  method ContainsAll(c: seq<Option<T>>) returns (b: bool)
    ensures b <==> forall e :: e in c ==> e in Elements()
  {
    var k := 0;
    while k < |c|
      invariant 0 <= k <= |c|
      invariant forall j :: 0 <= j < k ==> c[j] in Elements()
    {
      var i := IndexOf(c[k]);
      if i < 0 {
        return false;
      }
      k := k + 1;
    }
    return true;
  }

  /** A copied slice [fromIndex, toIndex); the null-padding case toIndex > Size() is not covered. */
  method SubList(fromIndex: int, toIndex: int) returns (r: ImmutableList<T>)
    requires 0 <= fromIndex <= toIndex <= |Elements()|
    ensures fresh(r.data)
    ensures r.Elements() == Elements()[fromIndex..toIndex]
  {
    r := new ImmutableList.FromRange(data, fromIndex, toIndex);
  }

  /** A new list with the elements in reverse order. */
  method Reverse() returns (r: ImmutableList<T>)
    ensures fresh(r.data)
    ensures r.Elements() == Reversal(Elements())
  {
    var a := new Option<T>[data.Length];
    var i := 0;
    while i < a.Length
      invariant 0 <= i <= a.Length
      invariant forall k :: 0 <= k < i ==> a[k] == data[a.Length - k - 1]
    {
      a[i] := data[a.Length - i - 1];
      i := i + 1;
    }
    forall k | 0 <= k < a.Length
      ensures a[k] == Reversal(data[..])[k]
    {
      ReversalAt(data[..], k);
    }
    r := new ImmutableList.FromArray(a);
  }

  /** A new list of the elements satisfying p, in their original order. */
  method Filter(p: Option<T> -> bool) returns (r: ImmutableList<T>)
    ensures fresh(r.data)
    ensures r.Elements() == Filtered(Elements(), p)
  {
    var filtered: seq<Option<T>> := [];
    var i := 0;
    while i < data.Length
      invariant 0 <= i <= data.Length
      invariant filtered == Filtered(data[..i], p)
    {
      assert data[..i + 1][..i] == data[..i];
      if p(data[i]) {
        filtered := filtered + [data[i]];
      }
      i := i + 1;
    }
    assert data[..i] == data[..];
    r := new ImmutableList.FromSequence(filtered);
  }

  /** A new list whose element i is f of element i. */
  method Map<R(==)>(f: Option<T> -> Option<R>) returns (r: ImmutableList<R>)
    ensures fresh(r.data)
    ensures r.Elements() == Mapped(Elements(), f)
  {
    var mapped := new Option<R>[data.Length];
    var i := 0;
    while i < data.Length
      invariant 0 <= i <= data.Length
      invariant forall k :: 0 <= k < i ==> mapped[k] == f(data[k])
    {
      mapped[i] := f(data[i]);
      i := i + 1;
    }
    forall k | 0 <= k < data.Length
      ensures mapped[k] == Mapped(data[..], f)[k]
    {
      MappedAt(data[..], f, k);
    }
    r := new ImmutableList.FromArray(mapped);
  }

  /**
    The left fold of g over elements 1.., seeded with element 0. Reading element 0
    of an empty list throws, so the empty list gives IndexOutOfBounds.
  */
  method FoldLeft(g: (Option<T>, Option<T>) -> Option<T>) returns (r: Result<Option<T>>)
    ensures r.Err? <==> Elements() == []
    ensures r.Err? ==> r.error == IndexOutOfBounds
    ensures r.Ok? ==> r.value == LeftFold(Elements()[0], Elements()[1..], g)
  {
    if data.Length == 0 {
      return Err(IndexOutOfBounds);
    }
    var accumulator := data[0];
    var i := 1;
    while i < data.Length
      invariant 1 <= i <= data.Length
      invariant accumulator == LeftFold(data[0], data[1..i], g)
    {
      assert data[1..i + 1][..i - 1] == data[1..i];
      accumulator := g(accumulator, data[i]);
      i := i + 1;
    }
    assert data[1..i] == data[1..];
    return Ok(accumulator);
  }

  /** A fresh iterator, at cursor 0. */
  method Iterator() returns (it: ImmutableListIterator<T>)
    ensures fresh(it)
    ensures it.list == this && it.cursor == 0
  {
    it := new ImmutableListIterator(this);
  }

  /** A fresh list iterator, at cursor 0. */
  method ListIterator() returns (it: ImmutableListIterator<T>)
    ensures fresh(it)
    ensures it.list == this && it.cursor == 0
  {
    it := new ImmutableListIterator(this);
  }

  /** A fresh list iterator, also at cursor 0: index is ignored. */
  method ListIteratorAt(index: int) returns (it: ImmutableListIterator<T>)
    ensures fresh(it)
    ensures it.list == this && it.cursor == 0
  {
    it := new ImmutableListIterator(this);
  }
}
