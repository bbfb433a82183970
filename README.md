# Immutable list, modelled in Dafny

This project models `com.github.dmogn.immutable`: `ImmutableList<E>`, a
`java.util.List` backed by a package-private array that is copied in by a constructor and
never written again, and `ImmutableListIterator<E>`, a list iterator made of one
integer cursor.

- `ImmutableList` is a class whose one field, `data`, is a `const` array that a
  constructor allocates fresh. No method of the class has a `modifies` clause, so
  none can write it. The ghost function `Elements()` gives the contents as a
  sequence, and every operation is specified against it.
- Elements are `Option<T>`. `None` stands for Java's `null`. `Matches` models the
  null-aware equality test of `indexOf`/`lastIndexOf` and is proved to be `==`.
- Thrown exceptions are values: `Result<R>` is `Ok(value)` or `Err(error)`, and
  `Error` is `IndexOutOfBounds` or `UnsupportedOperation`.
- The loops of `indexOf`, `lastIndexOf`, `containsAll`, `reverse`, `filter`, `map`
  and `foldLeft` are methods with loop invariants. Six of them are proved against a
  specification function on sequences (`FirstIndex`, `LastIndex`, `Reversal`,
  `Filtered`, `Mapped`, `LeftFold`, in `sequences.dfy`), and the properties are
  proved once about those functions. The `containsAll` loop is proved against the
  quantified statement that every element of the argument occurs in the list.
- `ImmutableListIterator` is a class with a mutable `cursor`. `next()` and
  `previous()` move the cursor first and read the list afterwards. These quirks of
  the code are kept:
  - a fresh iterator's first `next()` returns element 1, so the for-each protocol
    (`ForEach`) never visits element 0;
  - a move that throws still leaves the cursor moved;
  - `listIterator(int)` ignores its argument;
  - `foldLeft` on an empty list fails, because reading `array[0]` throws.
- `examples.dfy` restates the unit tests' scenarios as lemmas. It also holds
  client methods showing that exported and source arrays are copies, and that
  `next()` followed by `previous()` restores the cursor.

Two operations depart from the general contract of `java.util.List`; the model
follows the class.
- `List.subList` throws `IndexOutOfBoundsException` for `toIndex > size()`. This
  class delegates to `Arrays.copyOfRange`, which pads with nulls instead. That case
  is outside the model's precondition (see `ImmutableList.SubList` below).
- `List.listIterator(int)` starts at the given index. This class ignores the index
  and starts at cursor 0, and so does `ListIteratorAt`.

## Model

| member | source | states |
|---|---|---|
| `ImmutableList.FromArray` | src/main/java/com/github/dmogn/immutable/ImmutableList.java:23-26 | the list gets a fresh array whose contents equal the caller's array |
| `ImmutableList.FromRange` | src/main/java/com/github/dmogn/immutable/ImmutableList.java:28-31 | for 0 <= from <= to <= length, the list gets a fresh array holding exactly the slice [from, to) |
| `ImmutableList.FromSequence` | src/main/java/com/github/dmogn/immutable/ImmutableList.java:33-36 | the list gets a fresh array holding the collection's elements in iteration order |
| `ImmutableList.Empty` | src/main/java/com/github/dmogn/immutable/ImmutableList.java:41-43 | the list gets a fresh array and is empty |
| `ImmutableList.Size` | src/main/java/com/github/dmogn/immutable/ImmutableList.java:46-48 | the size is the length of the contents, which is fixed because the array is a constant |
| `ImmutableList.IsEmpty` | src/main/java/com/github/dmogn/immutable/ImmutableList.java:51-53 | true iff the contents are the empty sequence |
| `ImmutableList.Contains` | src/main/java/com/github/dmogn/immutable/ImmutableList.java:56-58 | true iff o occurs in the contents, with null matching only null |
| `ImmutableList.Iterator` | src/main/java/com/github/dmogn/immutable/ImmutableList.java:61-63 | returns a fresh iterator over this list with cursor 0 |
| `ImmutableList.ToArray` | src/main/java/com/github/dmogn/immutable/ImmutableList.java:66-68 | returns a fresh array whose contents equal the list's |
| `ImmutableList.ToArrayInto` | src/main/java/com/github/dmogn/immutable/ImmutableList.java:71-73 | ignores its argument and returns a fresh copy of the contents, like ToArray |
| `ImmutableList.Mutate` | src/main/java/com/github/dmogn/immutable/ImmutableList.java:77-151 | each of the ten mutators (add, remove, addAll twice, removeAll, retainAll, clear, set, indexed add, indexed remove) throws UnsupportedOperation and leaves the contents unchanged |
| `ImmutableList.ContainsAll` | src/main/java/com/github/dmogn/immutable/ImmutableList.java:88-95 | true iff every element of c occurs in the list; so true for an empty c |
| `ImmutableList.Get` | src/main/java/com/github/dmogn/immutable/ImmutableList.java:128-133 | succeeds iff 0 <= index < size, returning the element at index; otherwise throws IndexOutOfBounds |
| `Matches` | src/main/java/com/github/dmogn/immutable/ImmutableList.java:157-164 | the two-branch test (a present element equal to o, or both null) is exactly equality of the slots |
| `ImmutableList.IndexOf` | src/main/java/com/github/dmogn/immutable/ImmutableList.java:154-168 | the result is FirstIndex of o in the contents: the least matching index, or -1 |
| `ImmutableList.LastIndexOf` | src/main/java/com/github/dmogn/immutable/ImmutableList.java:171-185 | the result is LastIndex of o in the contents: the greatest matching index, or -1 |
| `ImmutableList.ListIterator` | src/main/java/com/github/dmogn/immutable/ImmutableList.java:188-190 | returns a fresh iterator over this list with cursor 0 |
| `ImmutableList.ListIteratorAt` | src/main/java/com/github/dmogn/immutable/ImmutableList.java:193-195 | returns a fresh iterator with cursor 0 whatever index is passed |
| `ImmutableList.SubList` | src/main/java/com/github/dmogn/immutable/ImmutableList.java:198-200 | for 0 <= from <= to <= size, returns a list with a fresh array holding contents[from..to) |
| `ImmutableList.Reverse` | src/main/java/com/github/dmogn/immutable/ImmutableList.java:212-219 | returns a list with a fresh array whose contents are the reversal of the receiver's |
| `ImmutableList.Filter` | src/main/java/com/github/dmogn/immutable/ImmutableList.java:229-239 | returns a list with a fresh array whose contents are the elements satisfying p, in order |
| `ImmutableList.Map` | src/main/java/com/github/dmogn/immutable/ImmutableList.java:249-257 | returns a list with a fresh array whose contents are f applied to each element |
| `ImmutableList.FoldLeft` | src/main/java/com/github/dmogn/immutable/ImmutableList.java:268-276 | fails with IndexOutOfBounds iff the list is empty; otherwise returns the left fold of g over elements 1.. seeded with element 0 |
| `ImmutableListIterator.constructor` | src/main/java/com/github/dmogn/immutable/ImmutableListIterator.java:14-18 | a new iterator over the given list has cursor 0, inside the range guarded moves keep |
| `ImmutableListIterator.At` | src/main/java/com/github/dmogn/immutable/ImmutableListIterator.java:20-23 | a new iterator with the given cursor |
| `ImmutableListIterator.HasNext` | src/main/java/com/github/dmogn/immutable/ImmutableListIterator.java:26-28 | true iff cursor + 1 < size; when it holds and cursor >= -1, reading at cursor + 1 succeeds |
| `ImmutableListIterator.Next` | src/main/java/com/github/dmogn/immutable/ImmutableListIterator.java:31-34 | moves the cursor to NextIndex and returns Get at the new cursor, even when that throws; succeeds iff HasNext held and the old cursor was at least -1; a guarded call keeps the cursor in [0, max(size-1, 0)] |
| `ImmutableListIterator.HasPrevious` | src/main/java/com/github/dmogn/immutable/ImmutableListIterator.java:37-39 | true iff cursor > 0; when it holds and cursor <= size, reading at cursor - 1 succeeds |
| `ImmutableListIterator.Previous` | src/main/java/com/github/dmogn/immutable/ImmutableListIterator.java:42-45 | moves the cursor to PreviousIndex and returns Get at the new cursor, even when that throws; succeeds iff HasPrevious held and the old cursor was at most size; a guarded call keeps the cursor in range |
| `ImmutableListIterator.NextIndex` | src/main/java/com/github/dmogn/immutable/ImmutableListIterator.java:48-50 | cursor + 1, unchecked; below size iff HasNext |
| `ImmutableListIterator.PreviousIndex` | src/main/java/com/github/dmogn/immutable/ImmutableListIterator.java:53-55 | cursor - 1, unchecked; at least 0 iff HasPrevious |
| `ImmutableListIterator.Mutate` | src/main/java/com/github/dmogn/immutable/ImmutableListIterator.java:59-73 | remove, set and add throw UnsupportedOperation and leave the cursor unchanged |
| `ForEach` | src/main/java/com/github/dmogn/immutable/ImmutableListIterator.java:26-34 | iterating with hasNext/next from iterator() visits elements 1.. of the list and never element 0 (nothing for an empty list) |
| `Reversal` | src/main/java/com/github/dmogn/immutable/ImmutableList.java:212-219 | the reversal has the length of the original |
| `ReversalAt` | src/main/java/com/github/dmogn/immutable/ImmutableList.java:215-217 | element i of the reversal is element size-1-i of the original |
| `ReversalTwice` | src/main/java/com/github/dmogn/immutable/ImmutableList.java:212-219 | reversing twice gives back the original sequence |
| `Filtered` | src/main/java/com/github/dmogn/immutable/ImmutableList.java:229-239 | the filtered sequence is no longer than the original |
| `FilteredAppend` | src/main/java/com/github/dmogn/immutable/ImmutableList.java:233-237 | filtering a concatenation is concatenating the filtered parts, so the original relative order is kept |
| `FilteredSingleton` | src/main/java/com/github/dmogn/immutable/ImmutableList.java:234-236 | one element is kept iff it satisfies p |
| `FilteredCounts` | src/main/java/com/github/dmogn/immutable/ImmutableList.java:233-237 | each value satisfying p occurs in the result as often as in the original; any other value does not occur |
| `FilteredMembers` | src/main/java/com/github/dmogn/immutable/ImmutableList.java:233-237 | a value is in the result iff it is in the original and satisfies p |
| `Mapped` | src/main/java/com/github/dmogn/immutable/ImmutableList.java:252-255 | the mapped sequence has the length of the original |
| `MappedAt` | src/main/java/com/github/dmogn/immutable/ImmutableList.java:253-255 | element i of the mapped sequence is f of element i |
| `LeftFoldCons` | src/main/java/com/github/dmogn/immutable/ImmutableList.java:259-263 | the fold combines the seed with the first element first: the textbook left-fold equation |
| `LeftFoldSeed` | src/main/java/com/github/dmogn/immutable/ImmutableList.java:271-274 | for an associative g, a seed built by g can be pulled out of the fold |
| `LeftFoldReversal` | src/test/java/com/github/dmogn/immutable/ImmutableListTest.java:19-31 | for an associative and commutative g, folding a non-empty sequence and folding its reversal agree |
| `FirstIndex` | src/main/java/com/github/dmogn/immutable/ImmutableList.java:154-168 | -1 iff the value is absent; otherwise an index holding it with no earlier index holding it |
| `LastIndex` | src/main/java/com/github/dmogn/immutable/ImmutableList.java:171-185 | -1 iff the value is absent; otherwise an index holding it with no later index holding it |
| `LastIndexMirrorsFirst` | src/main/java/com/github/dmogn/immutable/ImmutableList.java:154-185 | the last occurrence in s is the mirror image of the first occurrence in the reversal of s |
| `FirstIndexAtMostLast` | src/main/java/com/github/dmogn/immutable/ImmutableList.java:154-185 | the first occurrence is never after the last, and both are -1 together |
| `ReverseExample` | src/test/java/com/github/dmogn/immutable/ImmutableListTest.java:10-16 | reversing ["bond","equity","gold","real estate"] gives ["real estate","gold","equity","bond"] |
| `FoldSumExample` | src/test/java/com/github/dmogn/immutable/ImmutableListTest.java:19-24 | folding 1..10 with addition gives 55 |
| `FoldSumReversedExample` | src/test/java/com/github/dmogn/immutable/ImmutableListTest.java:26-30 | folding 10..1 with addition also gives 55 |
| `FoldStringExample` | src/test/java/com/github/dmogn/immutable/ImmutableListTest.java:34-40 | folding ["sub","way"," station"] with concatenation gives "subway station" |
| `FilterExample` | src/test/java/com/github/dmogn/immutable/ImmutableListTest.java:43-49 | keeping the even values of the fifteen test numbers gives [44,22,90,98,1078,6,64,6,42] in that order |
| `ExportIsCopy` | src/main/java/com/github/dmogn/immutable/ImmutableList.java:66-68 | writing to the exported array leaves the list's contents unchanged |
| `ConstructionCopies` | src/main/java/com/github/dmogn/immutable/ImmutableList.java:23-26 | writing to the source array after construction leaves the list's contents unchanged |
| `NextThenPrevious` | src/main/java/com/github/dmogn/immutable/ImmutableListIterator.java:31-45 | next() then previous() restores the cursor c, and the two calls read list[c+1] and then list[c] |

## Left out

- `ImmutableList.SubList`: stated only for 0 <= fromIndex <= toIndex <= size. `Arrays.copyOfRange` pads with nulls when toIndex > size, and throws for a bad fromIndex or for fromIndex > toIndex. That is library behaviour, not the list's own.
- `ImmutableList.FromRange`: the same precondition, for the same reason.
- `stream()` is left out. It wraps `Arrays.stream` and has no logic of its own.
- The collection constructor takes a Dafny sequence. The order of an unseen collection's `toArray` is not part of this model.
- `Objects.requireNonNull` on the source array, the collection, `c`, the predicate, the mapper and the fold function is not modelled. Dafny values of these types cannot be null.
- Java's `equals` dispatch on arbitrary objects is replaced by Dafny `==` on the element type.
- Callbacks are pure total Dafny functions, as the doc comments require. A callback that throws, for example a lambda applied to a null element, is not modelled.
- Java `int` is 32-bit; the model's integers are unbounded. Neither the cursor wrapping around at `Integer.MAX_VALUE` nor overflow inside a fold of `Integer` values is modelled.
- The claims that all methods are thread-safe concern concurrency, which is out of scope.
- The map test converts to `Double`, which is floating point, so it has no example lemma. `MappedAt` states the general property.
- Unchecked casts such as `(E[]) new Object[n]` are type-erasure artefacts with no behaviour, and are left out.
- The array field is package-private in Java and a public `const` in Dafny. Only the list's own methods are shown not to write it. Outside code holding the array reference could still write it in either language.
