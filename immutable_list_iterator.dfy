// The list iterator: one integer cursor over an immutable list. next() and
// previous() move the cursor FIRST and then read the list at the new position,
// so the first next() on a fresh iterator reads element 1, and a move that
// throws still leaves the cursor moved.

/** The mutating operations of java.util.ListIterator, all rejected. */
datatype IteratorMutation<T> =
  | RemoveCurrent
  | SetCurrent(e: Option<T>)
  | Insert(e: Option<T>)

function Max(a: int, b: int): int
{
  if a < b then b else a
}

class ImmutableListIterator<T(==)> {
  const list: ImmutableList<T>
  var cursor: int

  /** The iterator the list's factories create: cursor 0. */
  constructor (list: ImmutableList<T>)
    ensures this.list == list && cursor == 0
    ensures InRange()
  {
    this.list := list;
    cursor := 0;
  }

  /** An iterator at an arbitrary start position; no factory of the list uses it. */
  constructor At(list: ImmutableList<T>, currentIndex: int)
    ensures this.list == list && cursor == currentIndex
  {
    this.list := list;
    cursor := currentIndex;
  }

  /** The range that a cursor starting at 0 keeps under guarded moves. */
  ghost predicate InRange()
    reads this, list.data
  {
    0 <= cursor <= Max(|list.Elements()| - 1, 0)
  }

  function HasNext(): (b: bool)
    reads this, list.data
    ensures b <==> cursor + 1 < |list.Elements()|
    ensures b && cursor >= -1 ==> list.Get(cursor + 1).Ok?
  {
    cursor + 1 < list.Size()
  }

  function HasPrevious(): (b: bool)
    reads this, list.data
    ensures b <==> cursor > 0
    ensures b && cursor <= |list.Elements()| ==> list.Get(cursor - 1).Ok?
  {
    cursor > 0
  }

  /** The index next() moves to and reads, not checked against the bounds. */
  function NextIndex(): (i: int)
    reads this, list.data
    ensures i == cursor + 1
    ensures HasNext() <==> i < |list.Elements()|
  {
    cursor + 1
  }

  /** The index previous() moves to and reads, not checked against the bounds. */
  function PreviousIndex(): (i: int)
    reads this
    ensures i == cursor - 1
    ensures HasPrevious() <==> i >= 0
  {
    cursor - 1
  }

  /**
    Advances the cursor, then reads the list there. The call succeeds exactly
    when it was guarded by HasNext() from a cursor of at least -1, and a guarded
    call keeps the cursor in range.
  */
  method Next() returns (r: Result<Option<T>>)
    modifies this`cursor
    ensures cursor == old(NextIndex())
    ensures r == list.Get(cursor)
    ensures r.Ok? <==> old(HasNext()) && old(cursor) >= -1
    ensures old(HasNext() && InRange()) ==> InRange()
  {
    cursor := cursor + 1;
    r := list.Get(cursor);
  }

  /**
    Steps the cursor back, then reads the list there. The call succeeds exactly
    when it was guarded by HasPrevious() from a cursor of at most Size(), and a
    guarded call keeps the cursor in range.
  */
  method Previous() returns (r: Result<Option<T>>)
    modifies this`cursor
    ensures cursor == old(PreviousIndex())
    ensures r == list.Get(cursor)
    ensures r.Ok? <==> old(HasPrevious()) && old(cursor) <= |list.Elements()|
    ensures old(HasPrevious() && InRange()) ==> InRange()
  {
    cursor := cursor - 1;
    r := list.Get(cursor);
  }

  /** remove(), set(e) and add(e) throw UnsupportedOperationException; the cursor stays. */
  method Mutate(m: IteratorMutation<T>) returns (thrown: Error)
    ensures thrown == UnsupportedOperation
    ensures cursor == old(cursor)
  {
    thrown := UnsupportedOperation;
  }
}

/**
  The for-each protocol over list.iterator(): call next() while hasNext().
  Because next() pre-increments, element 0 is never visited.
*/
method ForEach<T(==)>(list: ImmutableList<T>) returns (visited: seq<Option<T>>)
  ensures visited == if list.Elements() == [] then [] else list.Elements()[1..]
{
  var it := list.Iterator();
  visited := [];
  while it.HasNext()
    invariant it.list == list
    invariant 0 <= it.cursor <= Max(|list.Elements()| - 1, 0)
    invariant |list.Elements()| > 0 ==> visited == list.Elements()[1..it.cursor + 1]
    invariant |list.Elements()| == 0 ==> visited == []
    decreases |list.Elements()| - it.cursor
  {
    var x := it.Next();
    visited := visited + [x.value];
  }
}
